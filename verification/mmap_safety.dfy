/**
 What my_mmap and my_munmap keep of the region table, and exactly when they
 fail to.
 */
module MmapSafety {
  import opened Common
  import opened MmapModel

  // t' is t with region r inserted as number k.
  ghost predicate Inserted(t: Table, t': Table, k: nat, r: Region) {
    && t'.total == t.total + 1 && k <= t.total < NMAPS
    && forall j {:trigger InsertedAt(t, t', k, r, j)} :: 0 <= j < NMAPS ==> InsertedAt(t, t', k, r, j)
  }

  predicate InsertedAt(t: Table, t': Table, k: nat, r: Region, j: nat)
    requires j < NMAPS
  {
    t'.slots[j] == if j < k then t.slots[j] else if j == k then r else if j <= t.total then t.slots[j - 1] else t.slots[j]
  }

  // Where a region may go: after number i, before number i + 1.
  predicate Room(t: Table, size: nat, i: int, a: nat) {
    && t.total < NMAPS && -1 <= i < t.total
    && 1 <= size < KERNBASE && a % PGSIZE == 0 && MMAPBASE <= a < KERNBASE
    && (i >= 0 ==> End(t.slots[i]) <= a)
    && (i + 1 < t.total ==> a + size <= t.slots[i + 1].addr)
  }

  lemma RoomEnd(t: Table, size: nat, i: int, a: nat)
    requires Live(t) && Room(t, size, i, a)
    ensures U32(a + size) == a + size && RoundUp(a + size) >= a + size
    ensures i + 1 < t.total ==> RoundUp(a + size) <= t.slots[i + 1].addr < KERNBASE
  {
    hide RoundUp;
    SmallSum(a + size);
    if i + 1 < t.total {
      assert LiveOk(t, i + 1);
      AlignedBelow(RoundUp(a + size), a + size, t.slots[i + 1].addr);
    }
  }

  lemma SmallSum(x: nat)
    requires x < UINT
    ensures U32(x) == x
  {}

  // A multiple of the page size that is less than a page above x is at most the
  // next multiple above x.
  lemma AlignedBelow(r: nat, x: nat, y: nat)
    requires r % PGSIZE == 0 && y % PGSIZE == 0 && x <= y && r < x + PGSIZE
    ensures r <= y
  {
    var p, q := r / PGSIZE, y / PGSIZE;
    assert r == p * PGSIZE && y == q * PGSIZE;
  }

  lemma RoundAligned(x: nat)
    requires x % PGSIZE == 0 && x <= UINT - PGSIZE
    ensures RoundUp(x) == x
  {
    AlignedBelow(RoundUp(x), x, x);
  }

  lemma InsertKeeps(t: Table, t': Table, i: int, size: nat, a: nat, info: int)
    requires Live(t) && Room(t, size, i, a) && RoundUp(a + size) < KERNBASE
    requires Inserted(t, t', i + 1, Region(a, size, info))
    ensures Live(t')
  {
    RoomEnd(t, size, i, a);
    var r := Region(a, size, info);
    forall k | 0 <= k < t'.total
      ensures LiveOk(t', k)
    {
      assert InsertedAt(t, t', i + 1, r, k);
      if k + 1 < t'.total {
        assert InsertedAt(t, t', i + 1, r, k + 1);
      }
      if k <= i {
        assert LiveOk(t, k);
      } else if k > i + 1 {
        assert LiveOk(t, k - 1);
      }
    }
  }

  // setup_mmap_arr in a place with room: it inserts, or the region would pass
  // KERNBASE, which happens only at the end of the table, where nothing moves.
  lemma SetupEffect(t: Table, size: nat, i: int, a: nat, info: int)
    requires Live(t) && Room(t, size, i, a)
    ensures var o := Commit(Setup(t, size, i, a), info);
            && (o.slot.Some? <==> RoundUp(a + size) < KERNBASE)
            && (o.slot.Some? ==> o.slot == Some(i + 1) && Inserted(t, o.table, i + 1, Region(a, size, info)) && Live(o.table))
            && (o.slot.None? ==> i == t.total - 1 && o.table == t)
  {
    RoomEnd(t, size, i, a);
    var o := Commit(Setup(t, size, i, a), info);
    if o.slot.Some? {
      assert Inserted(t, o.table, i + 1, Region(a, size, info));
      InsertKeeps(t, o.table, i, size, a, info);
    } else {
      assert o.table.slots == t.slots;
    }
  }

  // ------------------------------------------------------------ without a hint

  // Between live regions the unsigned difference is the real gap.
  lemma GapIs(t: Table, i: nat)
    requires Live(t) && i + 1 < t.total
    ensures End(t.slots[i]) <= t.slots[i + 1].addr && t.slots[i + 1].addr != 0
    ensures U32(RoundUp(t.slots[i + 1].addr) - End(t.slots[i])) == t.slots[i + 1].addr - End(t.slots[i])
  {
    hide RoundUp;
    assert LiveOk(t, i) && LiveOk(t, i + 1);
    RoundAligned(t.slots[i + 1].addr);
  }

  // No gap before or between live regions holds the request.
  ghost predicate NoGap(t: Table, size: nat) {
    && 0 < t.total <= NMAPS
    && t.slots[0].addr - MMAPBASE <= size
    && forall k :: 0 <= k < t.total - 1 ==> t.slots[k + 1].addr - End(t.slots[k]) <= size
  }

  // The slot after the last live region passes for a region too close to it.
  predicate StaleNext(t: Table, size: nat) {
    && 0 < t.total < NMAPS
    && t.slots[t.total].addr != 0
    && U32(RoundUp(t.slots[t.total].addr) - End(t.slots[t.total - 1])) <= size
  }

  // The search stops at the first gap larger than the request; without one, at
  // the last live region, or one past it if the next slot is stale.
  lemma {:induction false} FindStops(t: Table, size: nat, i: nat)
    requires Live(t) && i < t.total < NMAPS
    ensures var r := FindFrom(t, size, i);
            && i <= r <= t.total
            && (r + 1 < t.total ==> End(t.slots[r]) + size < t.slots[r + 1].addr)
            && (forall k :: i <= k < r && k + 1 < t.total ==> t.slots[k + 1].addr - End(t.slots[k]) <= size)
            && (r + 1 >= t.total ==> (r == t.total <==> StaleNext(t, size)))
    decreases NMAPS - i
  {
    hide U32, RoundUp, End, LiveOk;
    if i + 1 < t.total {
      GapIs(t, i);
      if t.slots[i + 1].addr - End(t.slots[i]) <= size {
        FindStops(t, size, i + 1);
      }
    }
  }

  // A gap, before region i or after the last one, that holds the request.
  ghost predicate Fits(t: Table, size: nat, i: int) {
    && -1 <= i < t.total <= NMAPS
    && var lo := if i < 0 then MMAPBASE else End(t.slots[i]);
       if i + 1 < t.total then lo + size < t.slots[i + 1].addr else RoundUp(lo + size) < KERNBASE
  }

  ghost predicate FindOk(t: Table, size: nat, o: Outcome, info: int) {
    && (o.slot.Some? <==> exists i :: Fits(t, size, i))
    && (o.slot.None? ==> o.table == t)
    && (o.slot.Some? ==>
          var k := o.slot.value;
          && Fits(t, size, k - 1) && (forall i :: Fits(t, size, i) ==> k - 1 <= i)
          && Inserted(t, o.table, k, Region(if k == 0 then MMAPBASE else End(t.slots[k - 1]), size, info))
          && Live(o.table))
  }

  lemma FindEmpty(t: Table, size: nat, info: int)
    requires Live(t) && t.total == 0 && 1 <= size < KERNBASE
    ensures FindOk(t, size, Commit(Find(t, size), info), info)
  {
    var o := Commit(Find(t, size), info);
    assert Fits(t, size, -1) <==> o.slot.Some?;
    if o.slot.Some? {
      assert Inserted(t, o.table, 0, Region(MMAPBASE, size, info));
      InsertKeeps(t, o.table, -1, size, MMAPBASE, info);
    }
  }

  lemma FindFirst(t: Table, size: nat, info: int)
    requires Live(t) && 0 < t.total < NMAPS && 1 <= size < KERNBASE && t.slots[0].addr - MMAPBASE > size
    ensures FindOk(t, size, Commit(Find(t, size), info), info)
  {
    hide RoundUp;
    assert LiveOk(t, 0);
    assert Room(t, size, -1, MMAPBASE) by { assert MMAPBASE % PGSIZE == 0; }
    SetupEffect(t, size, -1, MMAPBASE, info);
    RoomEnd(t, size, -1, MMAPBASE);
    assert Fits(t, size, -1);
  }

  // Earlier gaps are too small.
  lemma NotBefore(t: Table, size: nat, r: nat)
    requires Live(t) && r < t.total && t.slots[0].addr - MMAPBASE <= size
    requires forall k :: 0 <= k < r && k + 1 < t.total ==> t.slots[k + 1].addr - End(t.slots[k]) <= size
    ensures forall i :: Fits(t, size, i) ==> i >= r
  {
    hide RoundUp, End;
    forall i | -1 <= i < r
      ensures !Fits(t, size, i)
    {
      assert i >= 0 ==> t.slots[i + 1].addr - End(t.slots[i]) <= size;
    }
  }

  // Where the search ends once the gap below region 0 is too small.
  lemma FindPlace(t: Table, size: nat)
    requires Live(t) && 0 < t.total < NMAPS && t.slots[0].addr - MMAPBASE <= size
    ensures FindFrom(t, size, 0) == t.total <==> NoGap(t, size) && StaleNext(t, size)
  {
    hide U32, RoundUp, End, LiveOk, FindFrom, StaleNext;
    FindStops(t, size, 0);
  }

  lemma FirstGap(t: Table)
    requires Live(t) && 0 < t.total
    ensures U32(t.slots[0].addr - MMAPBASE) == t.slots[0].addr - MMAPBASE
  {
    hide End;
    assert LiveOk(t, 0);
    SmallSum(t.slots[0].addr - MMAPBASE);
  }

  lemma FindLater(t: Table, size: nat, info: int)
    requires Live(t) && 0 < t.total < NMAPS && 1 <= size < KERNBASE && t.slots[0].addr - MMAPBASE <= size
    requires !(NoGap(t, size) && StaleNext(t, size))
    ensures FindOk(t, size, Commit(Find(t, size), info), info)
  {
    hide RoundUp, FindFrom, Setup, FindOk, Commit, U32, NoGap, StaleNext, LiveOk, End;
    FindPlace(t, size);
    FindStops(t, size, 0);
    FirstGap(t);
    CommitNone(t, info);
    LaterOk(t, size, info, FindFrom(t, size, 0));
  }

  // The request goes after region r, if it fits there.
  lemma LaterOk(t: Table, size: nat, info: int, r: nat)
    requires Live(t) && r < t.total < NMAPS && 1 <= size < KERNBASE && t.slots[0].addr - MMAPBASE <= size
    requires r + 1 < t.total ==> End(t.slots[r]) + size < t.slots[r + 1].addr
    requires forall k :: 0 <= k < r && k + 1 < t.total ==> t.slots[k + 1].addr - End(t.slots[k]) <= size
    ensures var a := End(t.slots[r]);
            FindOk(t, size, if U32(a + size) > KERNBASE then Outcome(t, None) else Commit(Setup(t, size, r, a), info), info)
  {
    hide RoundUp, Setup, Inserted, Commit, U32;
    var a := End(t.slots[r]);
    assert LiveOk(t, r) && LiveOk(t, 0);
    EndExact(t, r);
    assert Room(t, size, r, a);
    RoomEnd(t, size, r, a);
    SetupEffect(t, size, r, a, info);
    NotBefore(t, size, r);
    assert Fits(t, size, r) <==> RoundUp(a + size) < KERNBASE;
  }

  lemma CommitNone(t: Table, info: int)
    ensures Commit(Outcome(t, None), info) == Outcome(t, None)
  {}

  // The search runs on to the stale slot and stores the region behind it.
  ghost predicate FindLoses(t: Table, size: nat) {
    && NoGap(t, size) && StaleNext(t, size)
    && var a := End(t.slots[t.total]);
       U32(a + size) <= KERNBASE && RoundUp(U32(a + size)) < KERNBASE
  }

  lemma FindStale(t: Table, size: nat, info: int)
    requires Live(t) && t.total < NMAPS && NoGap(t, size) && StaleNext(t, size)
    ensures var o := Commit(Find(t, size), info);
            if FindLoses(t, size) then o.slot == Some(t.total + 1) else o == Outcome(t, None)
  {
    hide FindFrom, RoundUp, U32, End, StaleNext;
    FindPlace(t, size);
    FirstGap(t);
    var o := Commit(Find(t, size), info);
    if !FindLoses(t, size) {
      assert o.table.slots == t.slots;
    }
  }

  // my_mmap without an address, on live regions in order and with anything in
  // the slots behind them. Unless no gap holds the request and the next slot is
  // stale, it succeeds exactly when some gap does, and uses the lowest; else it
  // fails, or stores the region outside the live slots.
  lemma FindEffect(t: Table, size: nat, info: int)
    requires Live(t) && t.total < NMAPS && 1 <= size < KERNBASE
    ensures var o := Commit(Find(t, size), info);
            && (!(NoGap(t, size) && StaleNext(t, size)) ==> FindOk(t, size, o, info))
            && (o.slot.Some? && o.slot.value > t.total <==> FindLoses(t, size))
            && (FindLoses(t, size) ==> o.slot.value == t.total + 1)
            && (NoGap(t, size) && StaleNext(t, size) && !FindLoses(t, size) ==> o == Outcome(t, None))
  {
    hide Find, RoundUp, U32, Commit, LiveOk;
    if NoGap(t, size) && StaleNext(t, size) {
      FindStale(t, size, info);
    } else {
      FindClean(t, size, info);
    }
  }

  lemma FindClean(t: Table, size: nat, info: int)
    requires Live(t) && t.total < NMAPS && 1 <= size < KERNBASE && !(NoGap(t, size) && StaleNext(t, size))
    ensures var o := Commit(Find(t, size), info);
            FindOk(t, size, o, info) && (o.slot.Some? ==> o.slot.value <= t.total)
  {
    hide Find, LiveOk, NoGap, StaleNext, Commit, Fits, InsertedAt;
    if t.total == 0 {
      FindEmpty(t, size, info);
    } else if t.slots[0].addr - MMAPBASE > size {
      FindFirst(t, size, info);
    } else {
      FindLater(t, size, info);
    }
  }

  // --------------------------------------------------------------- with a hint

  // The hints for which the range test wraps around to 0.
  predicate WrapHint(addr: int, size: nat) {
    addr >= 0x7fff_f001 && size >= 0x7fff_f001
  }

  // For a signed 32-bit address the range test means what it says exactly
  // when it does not wrap.
  lemma HintMeans(addr: int, size: nat)
    requires addr < KERNBASE && 1 <= size < KERNBASE
    ensures HintOk(addr, size) <==>
            (addr >= MMAPBASE && ((addr + PGSIZE - 1) / PGSIZE * PGSIZE + size <= KERNBASE || WrapHint(addr, size)))
  {
    if addr >= MMAPBASE {
      var a := RoundUp(addr);
      assert a == (addr + PGSIZE - 1) / PGSIZE * PGSIZE;
      assert addr >= 0x7fff_f001 ==> a == KERNBASE;
      assert addr < 0x7fff_f001 ==> a <= 0x7fff_f000;
    }
  }

  lemma HintReal(addr: int, size: nat)
    requires addr < KERNBASE && 1 <= size < KERNBASE && HintOk(addr, size) && !WrapHint(addr, size)
    ensures var a := RoundUp(addr);
            a % PGSIZE == 0 && MMAPBASE <= a && a + size <= KERNBASE && U32(a + size) == a + size
  {
    HintMeans(addr, size);
    assert RoundUp(addr) == (addr + PGSIZE - 1) / PGSIZE * PGSIZE;
  }

  // Address a lies strictly inside the gap after region i and leaves a gap behind.
  predicate FitsAt(t: Table, a: nat, size: nat, i: nat)
    requires i < t.total <= NMAPS
  {
    End(t.slots[i]) < a && if i + 1 < t.total then a + size < t.slots[i + 1].addr else RoundUp(a + size) < KERNBASE
  }

  lemma {:induction false} CheckStops(t: Table, a: nat, size: nat, i: nat)
    requires Live(t) && a + size <= KERNBASE
    ensures var r := CheckFrom(t, a, size, i);
            && (r.Some? ==> r.value + 1 < t.total && FitsAt(t, a, size, r.value))
            && (r.None? ==> forall k :: i <= k < t.total - 1 ==> !FitsAt(t, a, size, k))
    decreases NMAPS - i
  {
    hide RoundUp, End, U32;
    if i + 1 < t.total {
      assert LiveOk(t, i) && LiveOk(t, i + 1);
      RoundAligned(t.slots[i + 1].addr);
      SmallSum(a + size);
      if t.slots[i].addr >= a {
        forall k | i <= k < t.total - 1
          ensures !FitsAt(t, a, size, k)
        {
          EndExact(t, k);
          if i < k {
            Later(t, i, k);
          }
        }
      } else {
        CheckStops(t, a, size, i + 1);
      }
    }
  }

  // With a hint the region goes exactly there, or nothing changes.
  ghost predicate CheckOk(t: Table, a: nat, size: nat, o: Outcome, info: int) {
    && t.total <= NMAPS
    && (o.slot.Some? <==> exists i :: 0 <= i < t.total && FitsAt(t, a, size, i))
    && (o.slot.None? ==> o.table == t)
    && (o.slot.Some? ==> Inserted(t, o.table, o.slot.value, Region(a, size, info)) && Live(o.table))
  }

  lemma CheckLast(t: Table, addr: int, size: nat, info: int)
    requires Live(t) && 0 < t.total < NMAPS && addr < KERNBASE && 1 <= size < KERNBASE
    requires HintOk(addr, size) && !WrapHint(addr, size) && RoundUp(addr) > End(t.slots[t.total - 1])
    ensures CheckOk(t, RoundUp(addr), size, Commit(Check(t, addr, size), info), info)
  {
    hide RoundUp, Setup, Inserted;
    HintReal(addr, size);
    var a, n := RoundUp(addr), t.total - 1;
    SetupEffect(t, size, n, a, info);
    forall i | 0 <= i < n
      ensures !FitsAt(t, a, size, i)
    {
      Later(t, i, n);
      EndExact(t, n);
      assert LiveOk(t, i) && LiveOk(t, i + 1);
      if i + 1 < n {
        Later(t, i + 1, n);
      }
    }
    assert FitsAt(t, a, size, n) <==> RoundUp(a + size) < KERNBASE;
  }

  lemma CheckGap(t: Table, addr: int, size: nat, info: int)
    requires Live(t) && 0 < t.total < NMAPS && addr < KERNBASE && 1 <= size < KERNBASE
    requires HintOk(addr, size) && !WrapHint(addr, size) && RoundUp(addr) <= End(t.slots[t.total - 1])
    ensures CheckOk(t, RoundUp(addr), size, Commit(Check(t, addr, size), info), info)
  {
    hide RoundUp, Setup, Inserted;
    HintReal(addr, size);
    var a := RoundUp(addr);
    CheckStops(t, a, size, 0);
    var i := CheckFrom(t, a, size, 0);
    if i.Some? {
      assert LiveOk(t, i.value + 1);
      RoomEnd(t, size, i.value, a);
      SetupEffect(t, size, i.value, a, info);
    }
    assert !FitsAt(t, a, size, t.total - 1);
  }

  // ----------------------------------------------------------------- my_mmap

  // Outside is a call that reads or writes mmaps[-1] or mmaps[30].
  datatype Result = Inside(outcome: Outcome) | Outside

  function Settle(o: Outcome): (r: Result) {
    if o.slot == Some(NMAPS) then Outside else Inside(o)
  }

  // my_mmap, once the flags, the offset and the file's mode have been accepted.
  // A hint on an empty table reads mmaps[-1], and MAP_FIXED without an address
  // writes it.
  ghost function Mmap(t: Table, addr: int, size: int, fixed: bool, info: int): (r: Result)
    requires Live(t) && addr < KERNBASE && size < KERNBASE
  {
    if size <= 0 || t.total == NMAPS then Inside(Outcome(t, None))
    else if addr == 0 then
      if fixed then Outside else Settle(Commit(Find(t, size), info))
    else if !HintOk(addr, size) || (fixed && addr % PGSIZE != 0) then Inside(Outcome(t, None))
    else if t.total == 0 then Outside
    else
      var c := Commit(Check(t, addr, size), info);
      if c.slot.Some? || fixed then Inside(c)
      else
        CheckFails(t, addr, size, info);
        Settle(Commit(Find(c.table, size), info))
  }

  // The hint a is taken.
  ghost predicate Taken(t: Table, a: nat, size: nat)
    requires 0 <= t.total <= NMAPS
  {
    exists i :: 0 <= i < t.total && FitsAt(t, a, size, i)
  }

  // The search stops at a stale slot although the last gap holds the request, or
  // stores the region behind it.
  ghost predicate Spoiled(t: Table, size: nat) {
    NoGap(t, size) && StaleNext(t, size) && (FindLoses(t, size) || Fits(t, size, t.total - 1))
  }

  // The tests on the caller's address.
  predicate Accepted(addr: int, size: nat, fixed: bool) {
    if addr == 0 then !fixed else HintOk(addr, size) && !(fixed && addr % PGSIZE != 0)
  }

  // The calls for which my_mmap keeps its promise.
  ghost predicate Proper(t: Table, addr: int, size: int, fixed: bool)
    requires 0 <= t.total <= NMAPS
  {
    || size <= 0 || t.total == NMAPS
    || (if addr == 0 then !fixed && !Spoiled(t, size)
        else
          || !Accepted(addr, size, fixed)
          || (t.total > 0 && (fixed || (!WrapHint(addr, size) && (Taken(t, RoundUp(addr), size) || !Spoiled(t, size))))))
  }

  // The caller's address is where the region goes.
  ghost predicate AtHint(t: Table, addr: int, size: nat)
    requires 0 <= t.total <= NMAPS
  {
    addr != 0 && Taken(t, RoundUp(addr), size)
  }

  // The calls that are to succeed: with an address that is taken or, without
  // MAP_FIXED, with some gap that holds the request.
  ghost predicate Succeeds(t: Table, addr: int, size: int, fixed: bool)
    requires 0 <= t.total <= NMAPS
  {
    && size > 0 && t.total < NMAPS && Accepted(addr, size, fixed)
    && (AtHint(t, addr, size) || (!fixed && exists i :: Fits(t, size, i)))
  }

  // The start of the gap below region k.
  function GapStart(t: Table, k: nat): (r: nat)
    requires k <= t.total <= NMAPS
  {
    if k == 0 then MMAPBASE else End(t.slots[k - 1])
  }

  // The gap below region k is the lowest that holds the request.
  ghost predicate Lowest(t: Table, size: nat, k: nat) {
    Fits(t, size, k - 1) && forall i :: Fits(t, size, i) ==> k - 1 <= i
  }

  // What my_mmap promises: it stays within the array, succeeds exactly as above,
  // adds one region of the requested size, at the rounded address or else at the
  // start of the lowest gap that holds it, and otherwise leaves the table alone.
  ghost predicate MapOk(t: Table, addr: int, size: int, fixed: bool, info: int, r: Result)
    requires 0 <= t.total <= NMAPS
  {
    && r.Inside? && Live(r.outcome.table)
    && (r.outcome.slot.Some? <==> Succeeds(t, addr, size, fixed))
    && (r.outcome.slot.None? ==> r.outcome.table == t)
    && (r.outcome.slot.Some? ==> MapPlace(t, addr, size, info, r.outcome.slot.value, r.outcome.table))
  }

  ghost predicate MapPlace(t: Table, addr: int, size: nat, info: int, k: nat, t': Table)
    requires 0 <= t.total <= NMAPS
  {
    && k <= t.total
    && (if AtHint(t, addr, size) then Inserted(t, t', k, Region(RoundUp(addr), size, info))
        else Lowest(t, size, k) && Inserted(t, t', k, Region(GapStart(t, k), size, info)))
  }

  // A failed check leaves the table as it was, so that the search can go on.
  lemma CheckFails(t: Table, addr: int, size: nat, info: int)
    requires Live(t) && 0 < t.total < NMAPS && addr < KERNBASE && 1 <= size < KERNBASE && HintOk(addr, size)
    requires Commit(Check(t, addr, size), info).slot.None?
    ensures Commit(Check(t, addr, size), info).table == t && !WrapHint(addr, size)
  {
    hide Setup, Inserted, RoundUp;
    if WrapHint(addr, size) {
      WrapAccepted(t, addr, size, info);
    } else {
      CheckEffect(t, addr, size, info);
    }
  }

  lemma CheckEffect(t: Table, addr: int, size: nat, info: int)
    requires Live(t) && 0 < t.total < NMAPS && addr < KERNBASE && 1 <= size < KERNBASE
    requires HintOk(addr, size) && !WrapHint(addr, size)
    ensures CheckOk(t, RoundUp(addr), size, Commit(Check(t, addr, size), info), info)
  {
    hide Setup, Inserted, RoundUp, Check, Commit, CheckOk, End;
    if RoundUp(addr) > End(t.slots[t.total - 1]) {
      CheckLast(t, addr, size, info);
    } else {
      CheckGap(t, addr, size, info);
    }
  }

  // A wrapping hint is always accepted, at KERNBASE itself.
  lemma WrapAccepted(t: Table, addr: int, size: nat, info: int)
    requires Live(t) && 0 < t.total < NMAPS && addr < KERNBASE && size < KERNBASE && WrapHint(addr, size)
    ensures HintOk(addr, size)
    ensures var o := Commit(Check(t, addr, size), info);
            && o.slot == Some(t.total) && o.table.total == t.total + 1
            && o.table.slots[t.total].addr == KERNBASE && !Live(o.table)
  {
    assert RoundUp(addr) == KERNBASE;
    EndExact(t, t.total - 1);
    var o := Commit(Check(t, addr, size), info);
    assert !LiveOk(o.table, t.total);
  }

  lemma FixedHint(addr: int, size: nat)
    requires MMAPBASE <= addr < KERNBASE && addr % PGSIZE == 0
    ensures RoundUp(addr) == addr && !WrapHint(addr, size)
  {}

  // What the search promises.
  ghost predicate SearchOk(t: Table, size: nat, info: int, r: Result)
    requires 0 <= t.total <= NMAPS
  {
    && r.Inside? && Live(r.outcome.table)
    && (r.outcome.slot.Some? <==> exists i :: Fits(t, size, i))
    && (r.outcome.slot.None? ==> r.outcome.table == t)
    && (r.outcome.slot.Some? ==>
          var k := r.outcome.slot.value;
          k <= t.total && Lowest(t, size, k) && Inserted(t, r.outcome.table, k, Region(GapStart(t, k), size, info)))
  }

  // It keeps that except for the calls that a stale slot spoils.
  lemma FindMaps(t: Table, size: nat, info: int)
    requires Live(t) && t.total < NMAPS && 1 <= size < KERNBASE
    ensures SearchOk(t, size, info, Settle(Commit(Find(t, size), info))) <==> !Spoiled(t, size)
  {
    hide Find, RoundUp, U32, Commit, LiveOk, FindLoses, InsertedAt, Fits, NoGap, StaleNext;
    FindEffect(t, size, info);
    if NoGap(t, size) && StaleNext(t, size) {
      OnlyLast(t, size);
    }
  }

  // Without an earlier gap only the last one can hold the request.
  lemma OnlyLast(t: Table, size: nat)
    requires Live(t) && NoGap(t, size)
    ensures (exists i :: Fits(t, size, i)) <==> Fits(t, size, t.total - 1)
  {
    hide RoundUp, End;
    forall i | -1 <= i < t.total - 1
      ensures !Fits(t, size, i)
    {
      assert i >= 0 ==> t.slots[i + 1].addr - End(t.slots[i]) <= size;
    }
  }

  // With a hint that passes the tests.
  lemma HintMaps(t: Table, addr: int, size: nat, fixed: bool, info: int)
    requires Live(t) && 0 < t.total < NMAPS && addr < KERNBASE && 1 <= size < KERNBASE && addr != 0
    requires Accepted(addr, size, fixed) && !WrapHint(addr, size)
    ensures MapOk(t, addr, size, fixed, info, Mmap(t, addr, size, fixed, info))
            <==> fixed || Taken(t, RoundUp(addr), size) || !Spoiled(t, size)
  {
    hide Find, RoundUp, U32, Commit, Check, LiveOk, Spoiled, InsertedAt, FitsAt, Fits, Lowest;
    CheckEffect(t, addr, size, info);
    FindMaps(t, size, info);
  }

  // my_mmap keeps its promise exactly for the calls above. It fails to on
  // MAP_FIXED without an address, on an acceptable hint if the table is empty or
  // the hint wraps, and when the search is spoiled by a stale slot.
  lemma MmapKeepsIff(t: Table, addr: int, size: int, fixed: bool, info: int)
    requires Live(t) && addr < KERNBASE && size < KERNBASE
    ensures MapOk(t, addr, size, fixed, info, Mmap(t, addr, size, fixed, info)) <==> Proper(t, addr, size, fixed)
  {
    hide Check, Find, Commit, LiveOk, RoundUp, Spoiled, Taken, Inserted, Fits, Lowest;
    if size > 0 && t.total < NMAPS {
      if addr == 0 {
        if !fixed {
          FindMaps(t, size, info);
        }
      } else if Accepted(addr, size, fixed) && t.total > 0 {
        if fixed {
          FixedHint(addr, size);
        }
        if WrapHint(addr, size) {
          WrapAccepted(t, addr, size, info);
        } else {
          HintMaps(t, addr, size, fixed, info);
        }
      }
    }
  }

  // A region mapped with MAP_FIXED lies where it was asked for.
  lemma FixedPlace(t: Table, addr: int, size: int, info: int)
    requires Live(t) && addr < KERNBASE && size < KERNBASE && Proper(t, addr, size, true)
    ensures Mmap(t, addr, size, true, info).Inside?
    ensures var o := Mmap(t, addr, size, true, info).outcome;
            o.slot.Some? ==> size > 0 && Inserted(t, o.table, o.slot.value, Region(addr, size, info))
  {
    hide Check, Find, Commit, LiveOk, RoundUp, Spoiled, Taken, Inserted, Mmap, Fits, Proper, Lowest;
    MmapKeepsIff(t, addr, size, true, info);
    if Succeeds(t, addr, size, true) {
      FixedHint(addr, size);
    }
  }
}
