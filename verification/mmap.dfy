/**
 The region table of a process as an object: p->mmaps and p->total_mmaps, with
 the array shifted right and left in place.
 */
module MmapArea {
  import opened Common
  import opened MmapModel
  import opened MmapSafety
  import opened MmapUnmap

  class Maps {
    const mmaps: array<Region>
    var total: int

    ghost predicate Shape()
      reads this
    {
      mmaps.Length == NMAPS
    }

    ghost function T(): (t: Table)
      requires Shape()
      reads this, mmaps
    {
      Table(mmaps[..], total)
    }

    constructor ()
      ensures Shape() && fresh(mmaps) && T() == Blank() && Live(T())
    {
      mmaps := new Region[NMAPS](_ => Region(0, 0, 0));
      total := 0;
    }

    // Shift the regions from i + 1 on one slot up and fill slot i + 1. A result
    // of NMAPS stands for a store past the array.
    method SetupMmapArr(size: nat, i: int, addr: nat) returns (r: int)
      requires Shape() && -1 <= i < NMAPS && 0 <= total < NMAPS
      modifies mmaps
      ensures T() == Setup(old(T()), size, i, addr).table
      ensures r == SlotOf(Setup(old(T()), size, i, addr))
    {
      ghost var s: Slots := mmaps[..];
      var j := total;
      while j > i + 1
        invariant (i + 1 <= j <= total || j == total)
        invariant forall k :: 0 <= k <= j ==> mmaps[k] == s[k]
        invariant forall k :: j < k <= total ==> mmaps[k] == s[k - 1]
        invariant forall k :: total < k < NMAPS ==> mmaps[k] == s[k]
        decreases j
      {
        mmaps[j] := mmaps[j - 1];
        j := j - 1;
      }
      forall k | 0 <= k < NMAPS
        ensures mmaps[..][k] == ShiftRight(s, total, i)[k]
      {}
      assert mmaps[..] == ShiftRight(s, total, i);
      if RoundUp(U32(addr + size)) >= KERNBASE {
        return -1;
      }
      if i + 1 == NMAPS {
        return NMAPS;
      }
      mmaps[i + 1] := mmaps[i + 1].(addr := addr, size := size);
      r := i + 1;
    }

    // The loop of check_mmap_possible: the region after which a fits.
    method ScanHint(a: nat, size: nat) returns (r: Option<nat>)
      requires Shape() && 0 < total <= NMAPS
      ensures r == CheckFrom(T(), a, size, 0)
    {
      hide RoundUp;
      var i := 0;
      while i + 1 < total
        invariant 0 <= i < total
        invariant CheckFrom(T(), a, size, 0) == CheckFrom(T(), a, size, i)
        decreases total - i
      {
        if mmaps[i].addr >= a {
          return None;
        }
        if a > End(mmaps[i]) && RoundUp(mmaps[i + 1].addr) > U32(a + size) {
          return Some(i);
        }
        i := i + 1;
      }
      r := None;
    }

    method CheckMmapPossible(addr: int, size: nat) returns (r: int)
      requires Shape() && 0 < total < NMAPS
      modifies mmaps
      ensures T() == Check(old(T()), addr, size).table
      ensures r == SlotOf(Check(old(T()), addr, size))
    {
      hide Setup, RoundUp, CheckFrom;
      ghost var t := T();
      var a := RoundUp(addr);
      if a > End(mmaps[total - 1]) {
        SetupSlot(t, size, total - 1, a);
        r := SetupMmapArr(size, total - 1, a);
        return;
      }
      var i := ScanHint(a, size);
      if i.None? {
        return -1;
      }
      SetupSlot(t, size, i.value, a);
      r := SetupMmapArr(size, i.value, a);
    }

    // The loop of find_mmap_addr: the region after which the request goes.
    method ScanGaps(size: nat) returns (i: nat)
      requires Shape() && 0 <= total < NMAPS
      ensures i == FindFrom(T(), size, 0)
    {
      hide RoundUp, FindFrom, U32, End;
      i := 0;
      while i < total && mmaps[i + 1].addr != 0
        invariant 0 <= i <= total
        invariant FindFrom(T(), size, 0) == FindFrom(T(), size, i)
        decreases total - i
      {
        FindStep(T(), size, i);
        if U32(RoundUp(mmaps[i + 1].addr) - End(mmaps[i])) > size {
          break;
        }
        i := i + 1;
      }
      FindStep(T(), size, i);
    }

    method FindMmapAddr(size: nat) returns (r: int)
      requires Shape() && 0 <= total < NMAPS
      modifies mmaps
      ensures T() == Find(old(T()), size).table
      ensures r == SlotOf(Find(old(T()), size))
    {
      hide Setup, RoundUp, FindFrom;
      ghost var t := T();
      if total == 0 {
        if RoundUp(MMAPBASE + size) >= KERNBASE {
          return -1;
        }
        mmaps[0] := mmaps[0].(addr := MMAPBASE, size := size);
        return 0;
      }
      if U32(mmaps[0].addr - MMAPBASE) > size {
        SetupSlot(t, size, -1, MMAPBASE);
        r := SetupMmapArr(size, -1, MMAPBASE);
        return;
      }
      var i := ScanGaps(size);
      var a := End(mmaps[i]);
      if U32(a + size) > KERNBASE {
        return -1;
      }
      SetupSlot(t, size, i, a);
      r := SetupMmapArr(size, i, a);
    }

    // my_mmap after its argument checks: the slot used, or -1. inside is false
    // when the code would leave the array.
    method MyMmap(addr: int, size: int, fixed: bool, info: int) returns (r: int, inside: bool)
      requires Shape() && Live(T()) && addr < KERNBASE && size < KERNBASE
      modifies this, mmaps
      ensures Shape() && inside == Mmap(old(T()), addr, size, fixed, info).Inside?
      ensures inside ==> T() == Mmap(old(T()), addr, size, fixed, info).outcome.table
      ensures inside ==> r == SlotOf(Mmap(old(T()), addr, size, fixed, info).outcome)
      ensures Proper(old(T()), addr, size, fixed) ==>
                inside && MapOk(old(T()), addr, size, fixed, info, Inside(Outcome(T(), if r < 0 then None else Some(r))))
    {
      hide Check, Find, RoundUp, LiveOk, Proper, Succeeds, MapPlace;
      MmapKeepsIff(T(), addr, size, fixed, info);
      if size <= 0 || total == NMAPS {
        return -1, true;
      }
      r := -1;
      if addr != 0 {
        if !HintOk(addr, size) || (fixed && addr % PGSIZE != 0) {
          return -1, true;
        }
        if total == 0 {
          return -1, false;
        }
        r := CheckMmapPossible(addr, size);
        if r == -1 {
          CheckFails(old(T()), addr, size, info);
          if fixed {
            return -1, true;
          }
        }
      }
      if r == -1 && !fixed {
        r := FindMmapAddr(size);
        if r == -1 {
          return -1, true;
        }
      }
      if r == -1 || r == NMAPS {
        return -1, false;
      }
      mmaps[r] := mmaps[r].(info := info);
      total := total + 1;
      inside := true;
    }

    // The table part of my_munmap; inside as above.
    method MyMunmap(addr: int, size: int) returns (ok: bool, inside: bool)
      requires Shape()
      modifies this, mmaps
      ensures Shape() && inside == Unmap(old(T()), addr, size).Unmapped?
      ensures inside ==> Unmapped(T(), ok) == Unmap(old(T()), addr, size)
      ensures Live(old(T())) && Sound(old(T()), addr, size) ==> inside && UnmapOk(old(T()), addr, size, Unmapped(T(), ok))
    {
      hide RoundUp, SlotAt, ShiftLeft, ShiftLeaves, Live, Sound, UnmapOk;
      ghost var t := T();
      if Live(t) && Sound(t, addr, size) {
        UnmapKeepsIff(t, addr, size);
        UnmapInside(t, addr, size, Unmap(t, addr, size));
      }
      var a, u := RoundUp(U32(addr)), RoundUp(U32(size));
      var i := FindSlot(a);
      if i == NMAPS || mmaps[i].size == 0 {
        return false, true;
      }
      LeavesSame(mmaps[..], i, Region(0, 0, 0));
      if mmaps[i].size <= u {
        mmaps[i] := Region(0, 0, 0);
        assert mmaps[..] == old(mmaps[..])[i := Region(0, 0, 0)];
        inside := ShiftDown(i);
        if !inside {
          return false, false;
        }
        total := total - 1;
      } else {
        mmaps[i] := mmaps[i].(addr := U32(mmaps[i].addr + u), size := mmaps[i].size - u);
      }
      ok, inside := true, true;
    }

    method FindSlot(a: nat) returns (i: nat)
      requires Shape()
      ensures i == SlotAt(mmaps[..], a, 0)
    {
      i := 0;
      while i < NMAPS
        invariant 0 <= i <= NMAPS
        invariant SlotAt(mmaps[..], a, 0) == SlotAt(mmaps[..], a, i)
      {
        if mmaps[i].addr == a {
          break;
        }
        i := i + 1;
      }
    }

    // The left shift from slot start on.
    method ShiftDown(start: nat) returns (inside: bool)
      requires Shape() && start < NMAPS
      modifies mmaps
      ensures inside == !ShiftLeaves(old(mmaps[..]), start)
      ensures inside ==> mmaps[..] == ShiftLeft(old(mmaps[..]), start)
    {
      var i := start;
      while true
        invariant start <= i < NMAPS
        invariant ShiftLeft(mmaps[..], i) == ShiftLeft(old(mmaps[..]), start)
        invariant forall k :: i < k < NMAPS ==> mmaps[k] == old(mmaps[k])
        invariant forall k :: start < k <= i ==> old(mmaps[k]).addr != 0
        decreases NMAPS - i
      {
        if i + 1 == NMAPS {
          return false;
        }
        if mmaps[i + 1].addr == 0 {
          return true;
        }
        ghost var s: Slots := mmaps[..];
        mmaps[i] := mmaps[i + 1];
        assert mmaps[..] == s[i := s[i + 1]];
        i := i + 1;
      }
    }
  }

  // The C result for an outcome: a slot number, or -1.
  function SlotOf(o: Outcome): (r: int) {
    if o.slot.Some? then o.slot.value else -1
  }

  lemma FindStep(t: Table, size: nat, i: nat)
    requires i <= t.total < NMAPS
    ensures i == t.total || t.slots[i + 1].addr == 0 ==> FindFrom(t, size, i) == i
    ensures i < t.total && t.slots[i + 1].addr != 0 ==>
              FindFrom(t, size, i) ==
              if U32(RoundUp(t.slots[i + 1].addr) - End(t.slots[i])) > size then i else FindFrom(t, size, i + 1)
  {}

  lemma LeavesSame(slots: Slots, i: nat, r: Region)
    requires i < NMAPS
    ensures ShiftLeaves(slots[i := r], i) == ShiftLeaves(slots, i)
  {
    if !ShiftLeaves(slots, i) {
      var k :| i < k < NMAPS && slots[k].addr == 0;
      assert slots[i := r][k].addr == 0;
    }
  }

  lemma UnmapInside(t: Table, addr: int, size: int, r: Unmapped)
    requires Live(t) && UnmapOk(t, addr, size, r)
    ensures r.Unmapped?
  {}

  lemma SetupSlot(t: Table, size: nat, i: int, a: nat)
    requires -1 <= i < NMAPS && t.total < NMAPS
    ensures Setup(t, size, i, a).slot == Some(i + 1) || Setup(t, size, i, a).slot == None
  {}
}
