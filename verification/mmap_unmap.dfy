/**
 my_munmap on the region table, and the runs that keep it in order.
 */
module MmapUnmap {
  import opened Common
  import opened MmapModel
  import opened MmapSafety

  // The first slot from i on that starts at a, or NMAPS.
  function SlotAt(slots: Slots, a: nat, i: nat): (r: nat)
    requires i <= NMAPS
    ensures i <= r <= NMAPS && (r < NMAPS ==> slots[r].addr == a)
    ensures forall k :: i <= k < r ==> slots[k].addr != a
    decreases NMAPS - i
  {
    if i == NMAPS || slots[i].addr == a then i else SlotAt(slots, a, i + 1)
  }

  // The left shift from slot i on.
  function ShiftLeft(slots: Slots, i: nat): (r: Slots)
    requires i < NMAPS
    decreases NMAPS - i
  {
    if i + 1 < NMAPS && slots[i + 1].addr != 0 then ShiftLeft(slots[i := slots[i + 1]], i + 1) else slots
  }

  // The left shift from slot i on meets no empty slot and goes on to mmaps[30].
  predicate ShiftLeaves(slots: Slots, i: nat) {
    forall k :: i < k < NMAPS ==> slots[k].addr != 0
  }

  // Beyond is a call that reads mmaps[30].
  datatype Unmapped = Unmapped(table: Table, ok: bool) | Beyond

  function Unmap(t: Table, addr: int, size: int): (r: Unmapped) {
    var a, u := RoundUp(U32(addr)), RoundUp(U32(size));
    var i := SlotAt(t.slots, a, 0);
    if i == NMAPS || t.slots[i].size == 0 then Unmapped(t, false)
    else if t.slots[i].size <= u then
      if ShiftLeaves(t.slots, i) then Beyond
      else Unmapped(Table(ShiftLeft(t.slots[i := Region(0, 0, 0)], i), t.total - 1), true)
    else
      var r := t.slots[i];
      Unmapped(t.(slots := t.slots[i := r.(addr := U32(r.addr + u), size := r.size - u)]), true)
  }

  // The slot that my_munmap finds for an address.
  function Found(t: Table, addr: int): (r: nat)
    ensures r <= NMAPS
  {
    SlotAt(t.slots, RoundUp(U32(addr)), 0)
  }

  // my_munmap finds a live region exactly at its start, and accepts an address
  // where no live region starts exactly when it finds a stale slot there.
  lemma UnmapFinds(t: Table, addr: int, size: int)
    requires Live(t)
    ensures var i := Found(t, addr);
            && (i < t.total <==> exists k :: 0 <= k < t.total && t.slots[k].addr == RoundUp(U32(addr)))
            && (i < t.total ==> 1 <= t.slots[i].size)
            && (Unmap(t, addr, size) != Unmapped(t, false) <==> i < t.total || (i < NMAPS && t.slots[i].size != 0))
  {
    hide RoundUp, SlotAt, ShiftLeft;
    var i := Found(t, addr);
    if i < t.total {
      assert LiveOk(t, i);
    }
  }

  lemma AlignedSum(x: nat, y: nat)
    requires x % PGSIZE == 0 && y % PGSIZE == 0
    ensures (x + y) % PGSIZE == 0
  {}

  // Cutting pages off the front of a region.
  lemma PartialKeeps(t: Table, addr: int, size: int)
    requires Live(t) && Found(t, addr) < t.total && t.slots[Found(t, addr)].size > RoundUp(U32(size))
    ensures Unmap(t, addr, size).Unmapped? && Unmap(t, addr, size).ok
    ensures var i, u, t' := Found(t, addr), RoundUp(U32(size)), Unmap(t, addr, size).table;
            && Live(t') && t'.total == t.total
            && t'.slots == t.slots[i := Region(t.slots[i].addr + u, t.slots[i].size - u, t.slots[i].info)]
            && End(t'.slots[i]) == End(t.slots[i])
  {
    hide RoundUp, SlotAt, U32;
    var i, u, t' := Found(t, addr), RoundUp(U32(size)), Unmap(t, addr, size).table;
    EndExact(t, i);
    assert LiveOk(t, i);
    SmallSum(t.slots[i].addr + u);
    AlignedSum(t.slots[i].addr, u);
    forall k | 0 <= k < t'.total
      ensures LiveOk(t', k)
    {
      assert LiveOk(t, k);
      if k + 1 == i {
        assert End(t.slots[k]) <= t.slots[i].addr;
      }
    }
  }

  // What the left shift leaves: the later slots one place down, up to the first
  // empty one, and the last of them also where it was.
  lemma {:induction false} ShiftIs(slots: Slots, i: nat, n: nat, j: nat)
    requires i < n < NMAPS && j < NMAPS
    requires (forall k :: i < k < n ==> slots[k].addr != 0) && slots[n].addr == 0
    ensures ShiftLeft(slots, i)[j] == if i <= j < n - 1 then slots[j + 1] else slots[j]
    decreases NMAPS - i
  {
    if i + 1 < n {
      ShiftIs(slots[i := slots[i + 1]], i + 1, n, j);
    }
  }

  // Region i is gone from the live ones, which are else as they were.
  ghost predicate Removed(t: Table, t': Table, i: nat) {
    && i < t.total <= NMAPS && t'.total == t.total - 1
    && forall j {:trigger RemovedAt(t, t', i, j)} :: 0 <= j < t'.total ==> RemovedAt(t, t', i, j)
  }

  predicate RemovedAt(t: Table, t': Table, i: nat, j: nat)
    requires j + 1 < NMAPS
  {
    t'.slots[j] == t.slots[if j < i then j else j + 1]
  }

  // my_munmap of a whole region.
  lemma FullRemoves(t: Table, addr: int, size: int)
    requires Live(t) && Found(t, addr) < t.total && t.slots[Found(t, addr)].size <= RoundUp(U32(size))
    requires !ShiftLeaves(t.slots, Found(t, addr))
    ensures Unmap(t, addr, size).Unmapped? && Unmap(t, addr, size).ok
    ensures Removed(t, Unmap(t, addr, size).table, Found(t, addr))
  {
    hide RoundUp, SlotAt, ShiftLeft, LiveOk;
    UnmapFinds(t, addr, size);
    var i, t' := Found(t, addr), Unmap(t, addr, size).table;
    var s := t.slots[i := Region(0, 0, 0)];
    var n := SlotAt(s, 0, i + 1);
    assert n < NMAPS by {
      var z :| i < z < NMAPS && t.slots[z].addr == 0;
      assert s[z].addr == 0;
    }
    LiveNotZero(t);
    assert s[n] == t.slots[n];
    forall j | 0 <= j < t'.total
      ensures RemovedAt(t, t', i, j)
    {
      ShiftIs(s, i, n, j);
    }
  }

  // No live slot is empty.
  lemma LiveNotZero(t: Table)
    requires Live(t)
    ensures forall k :: 0 <= k < t.total ==> t.slots[k].addr != 0
  {
    forall k | 0 <= k < t.total
      ensures t.slots[k].addr != 0
    {
      assert LiveOk(t, k);
    }
  }

  lemma RemovedKeeps(t: Table, t': Table, i: nat)
    requires Live(t) && Removed(t, t', i)
    ensures Live(t') && Regions(t') == Regions(t)[..i] + Regions(t)[i + 1..]
  {
    hide End;
    forall k | 0 <= k < t'.total
      ensures LiveOk(t', k)
    {
      var j := if k < i then k else k + 1;
      assert LiveOk(t, j) && RemovedAt(t, t', i, k);
      if k + 1 < t'.total {
        assert RemovedAt(t, t', i, k + 1);
        Later(t, j, if k + 1 < i then k + 1 else k + 2);
      }
    }
    forall k | 0 <= k < t'.total
      ensures t'.slots[k] == (Regions(t)[..i] + Regions(t)[i + 1..])[k]
    {
      assert RemovedAt(t, t', i, k);
    }
  }

  // What my_munmap promises: the live region that starts at the address is
  // removed or cut, and any other address is refused.
  ghost predicate UnmapOk(t: Table, addr: int, size: int, r: Unmapped)
    requires 0 <= t.total <= NMAPS
  {
    var i, u := Found(t, addr), RoundUp(U32(size));
    if i < t.total then
      && r.Unmapped? && r.ok && Live(r.table)
      && Regions(r.table) ==
         if t.slots[i].size <= u then Regions(t)[..i] + Regions(t)[i + 1..]
         else Regions(t)[i := Region(t.slots[i].addr + u, t.slots[i].size - u, t.slots[i].info)]
    else r == Unmapped(t, false)
  }

  // The calls for which it does.
  predicate Sound(t: Table, addr: int, size: int) {
    var i := Found(t, addr);
    if i < t.total then i < NMAPS && (t.slots[i].size <= RoundUp(U32(size)) ==> !ShiftLeaves(t.slots, i))
    else i == NMAPS || t.slots[i].size == 0
  }

  // On live regions in order, with anything in the slots behind them, my_munmap
  // keeps its promise exactly if it finds no stale slot and, to remove a whole
  // region, an empty slot behind it.
  lemma UnmapKeepsIff(t: Table, addr: int, size: int)
    requires Live(t)
    ensures UnmapOk(t, addr, size, Unmap(t, addr, size)) <==> Sound(t, addr, size)
  {
    hide RoundUp, Found, LiveOk, ShiftLeaves, Removed;
    var i := Found(t, addr);
    UnmapFinds(t, addr, size);
    if i < t.total {
      if t.slots[i].size > RoundUp(U32(size)) {
        PartialKeeps(t, addr, size);
      } else if ShiftLeaves(t.slots, i) {
        ShiftsOut(t, addr, size);
      } else {
        FullRemoves(t, addr, size);
        RemovedKeeps(t, Unmap(t, addr, size).table, i);
      }
    }
  }

  lemma ShiftsOut(t: Table, addr: int, size: int)
    requires Live(t) && Found(t, addr) < t.total && t.slots[Found(t, addr)].size <= RoundUp(U32(size))
    requires ShiftLeaves(t.slots, Found(t, addr))
    ensures Unmap(t, addr, size).Beyond?
  {
    hide RoundUp, SlotAt;
    UnmapFinds(t, addr, size);
  }

  // -------------------------------------------------------------------- runs

  datatype Call =
    | Map(addr: int, size: int, fixed: bool, info: int)
    | Remove(start: int, length: int)

  // The calls that keep their promise on t, by MmapKeepsIff and UnmapKeepsIff.
  ghost predicate Allowed(t: Table, c: Call)
    requires 0 <= t.total <= NMAPS
  {
    match c
    case Map(addr, size, fixed, _) => addr < KERNBASE && size < KERNBASE && Proper(t, addr, size, fixed)
    case Remove(addr, size) => Sound(t, addr, size)
  }

  lemma CallKeeps(t: Table, c: Call)
    requires Live(t) && Allowed(t, c)
    ensures c.Map? ==> var r := Mmap(t, c.addr, c.size, c.fixed, c.info); r.Inside? && Live(r.outcome.table)
    ensures c.Remove? ==> var r := Unmap(t, c.start, c.length); r.Unmapped? && Live(r.table)
  {
    hide Mmap, RoundUp, LiveOk, Proper, Unmap, Sound, Inserted;
    if c.Map? {
      MmapKeepsIff(t, c.addr, c.size, c.fixed, c.info);
    } else {
      UnmapKeepsIff(t, c.start, c.length);
    }
  }

  ghost function After(t: Table, c: Call): (r: Table)
    requires Live(t) && Allowed(t, c)
    ensures Live(r)
  {
    CallKeeps(t, c);
    match c
    case Map(addr, size, fixed, info) => Mmap(t, addr, size, fixed, info).outcome.table
    case Remove(addr, size) => Unmap(t, addr, size).table
  }

  ghost predicate RunOk(t: Table, calls: seq<Call>)
    decreases |calls|, 0
  {
    Live(t) && (calls == [] || (RunOk(t, calls[..|calls| - 1]) && Allowed(Run(t, calls[..|calls| - 1]), calls[|calls| - 1])))
  }

  // The table after any sequence of allowed calls.
  ghost function Run(t: Table, calls: seq<Call>): (r: Table)
    requires RunOk(t, calls)
    ensures Live(r)
    decreases |calls|, 1
  {
    if calls == [] then t else After(Run(t, calls[..|calls| - 1]), calls[|calls| - 1])
  }

  // In every such run the live regions are sorted, aligned, between MMAPBASE and
  // KERNBASE, and no address lies in two of them, even after rounding.
  lemma RegionsDisjoint(t: Table, calls: seq<Call>, i: nat, j: nat, x: int)
    requires RunOk(t, calls) && i < j < Run(t, calls).total
    ensures var s := Run(t, calls).slots;
            && MMAPBASE <= s[i].addr < s[j].addr < KERNBASE
            && !(s[i].addr <= x < End(s[i]) && s[j].addr <= x < End(s[j]))
            && s[i].addr + s[i].size <= End(s[i]) <= s[j].addr && End(s[j]) < KERNBASE
            && s[i].addr % PGSIZE == 0 && s[j].addr % PGSIZE == 0
  {
    hide End, RunOk, Run;
    var r := Run(t, calls);
    Later(r, i, j);
    EndExact(r, i);
    assert LiveOk(r, i) && LiveOk(r, j);
  }

  // An inserted region is live, and so is what was live before.
  lemma InsertedRegions(t: Table, t': Table, k: nat, r: Region)
    requires Live(t) && Inserted(t, t', k, r)
    ensures k <= t.total && Regions(t') == Regions(t)[..k] + [r] + Regions(t)[k..]
  {
    hide LiveOk;
    forall j | 0 <= j < t'.total
      ensures t'.slots[j] == (Regions(t)[..k] + [r] + Regions(t)[k..])[j]
    {
      assert InsertedAt(t, t', k, r, j);
    }
  }

  // The call does not name region r.
  predicate Spares(c: Call, r: Region) {
    c.Remove? ==> RoundUp(U32(c.start)) != r.addr
  }

  lemma CallSpares(t: Table, c: Call, r: Region)
    requires Live(t) && Allowed(t, c) && r in Regions(t) && Spares(c, r)
    ensures r in Regions(After(t, c))
  {
    hide Mmap, RoundUp, LiveOk, Proper, Unmap, Sound, Inserted, U32;
    var j :| 0 <= j < t.total && t.slots[j] == r;
    if c.Map? {
      MmapKeepsIff(t, c.addr, c.size, c.fixed, c.info);
      var o := Mmap(t, c.addr, c.size, c.fixed, c.info).outcome;
      if o.slot.Some? {
        var k := o.slot.value;
        var a := if AtHint(t, c.addr, c.size) then RoundUp(c.addr) else GapStart(t, k);
        InsertedRegions(t, o.table, k, Region(a, c.size, c.info));
        assert r in Regions(t)[..o.slot.value] || r in Regions(t)[o.slot.value..];
      }
    } else {
      UnmapKeepsIff(t, c.start, c.length);
      var i := Found(t, c.start);
      if i < t.total {
        assert i != j;
        var u, g := RoundUp(U32(c.length)), t.slots[i];
        if g.size <= u {
          assert j < i ==> Regions(t)[..i][j] == r;
          assert j > i ==> Regions(t)[i + 1..][j - (i + 1)] == r;
        } else {
          assert Regions(t)[i := Region(g.addr + u, g.size - u, g.info)][j] == r;
        }
      }
    }
  }

  // In every such run a mapped region keeps its place, size and information
  // until a my_munmap names its start, whatever else is mapped and unmapped.
  lemma {:induction false} LiveUntilUnmapped(t: Table, calls: seq<Call>, n: nat, r: Region)
    requires RunOk(t, calls) && n <= |calls| && RunOk(t, calls[..n]) && r in Regions(Run(t, calls[..n]))
    requires forall k :: n <= k < |calls| ==> Spares(calls[k], r)
    ensures r in Regions(Run(t, calls))
    decreases |calls|
  {
    hide Allowed, After, LiveOk, Spares;
    if n == |calls| {
      assert calls[..n] == calls;
    } else {
      var init, c := calls[..|calls| - 1], calls[|calls| - 1];
      assert init[..n] == calls[..n];
      LiveUntilUnmapped(t, init, n, r);
      CallSpares(Run(t, init), c, r);
    }
  }

  // -------------------------------------------------------- past the array

  // Thirty regions of one page each, one after the other.
  function FullTable(): (t: Table) {
    Table(seq(NMAPS, k requires 0 <= k < NMAPS => Region(MMAPBASE + k * PGSIZE, PGSIZE, 0)), NMAPS)
  }

  lemma FullLive()
    ensures Live(FullTable())
  {
    hide RoundUp;
    var t := FullTable();
    forall k | 0 <= k < t.total
      ensures LiveOk(t, k)
    {
      assert t.slots[k].addr + PGSIZE == (0x6_0000 + k + 1) * PGSIZE;
      RoundAligned(t.slots[k].addr + PGSIZE);
    }
  }

  // MAP_FIXED without an address, a hint on an empty table, and the removal of
  // a region from a full table.
  lemma LeavesArray() returns (empty: Table, full: Table)
    ensures Live(empty) && Mmap(empty, 0, PGSIZE, true, 0).Outside? && Mmap(empty, MMAPBASE, PGSIZE, false, 0).Outside?
    ensures Live(full) && Unmap(full, MMAPBASE, PGSIZE).Beyond?
  {
    empty, full := Blank(), FullTable();
    assert HintOk(MMAPBASE, PGSIZE);
    FullLive();
    FullLeaves();
  }

  lemma FullLeaves()
    ensures Unmap(FullTable(), MMAPBASE, PGSIZE).Beyond?
  {
    hide RoundUp;
    RoundAligned(MMAPBASE);
    RoundAligned(PGSIZE);
    assert U32(MMAPBASE) == MMAPBASE && U32(PGSIZE) == PGSIZE;
    assert FullTable().slots[0].addr == MMAPBASE;
  }

  // ------------------------------------------------- why the top matters

  function Blank(): (t: Table) {
    Table(seq(NMAPS, _ => Region(0, 0, 0)), 0)
  }

  // my_mmap of one page into a table with no live region.
  lemma MapsFirst(t: Table, info: int)
    requires t.total == 0
    ensures Commit(Find(t, PGSIZE), info) == Outcome(Table(t.slots[0 := Region(MMAPBASE, PGSIZE, info)], 1), Some(0))
  {}

  lemma PageEnds(k: nat)
    requires k < 8
    ensures RoundUp(MMAPBASE + k * PGSIZE) == MMAPBASE + k * PGSIZE == U32(MMAPBASE + k * PGSIZE)
  {}

  // my_mmap of one page when the one live region is the first page: the next
  // slot is used if it is clear.
  lemma MapsNext(t: Table, info: int)
    requires t.total == 1 && t.slots[0].addr == MMAPBASE && t.slots[0].size == PGSIZE && t.slots[1].addr == 0
    ensures Commit(Find(t, PGSIZE), info) == Outcome(Table(t.slots[1 := Region(MMAPBASE + PGSIZE, PGSIZE, info)], 2), Some(1))
  {
    hide RoundUp, U32;
    PageEnds(1);
    PageEnds(2);
    assert U32(0) == 0 by { SmallSum(0); }
    assert FindFrom(t, PGSIZE, 0) == 0;
    var o := Commit(Find(t, PGSIZE), info);
    assert o.table.slots == t.slots[1 := Region(MMAPBASE + PGSIZE, PGSIZE, info)];
  }

  // The one after it is used if the next slot is stale.
  lemma MapsPast(t: Table, info: int)
    requires t.total == 1 && t.slots[0].addr == MMAPBASE && t.slots[0].size == PGSIZE
    requires t.slots[1].addr == MMAPBASE + PGSIZE && t.slots[1].size == PGSIZE
    ensures Commit(Find(t, PGSIZE), info) == Outcome(Table(t.slots[2 := Region(MMAPBASE + 2 * PGSIZE, PGSIZE, info)], 2), Some(2))
  {
    hide RoundUp, U32;
    PageEnds(1);
    PageEnds(2);
    PageEnds(3);
    assert U32(0) == 0 by { SmallSum(0); }
    assert FindFrom(t, PGSIZE, 0) == FindFrom(t, PGSIZE, 1) == 1;
    var o := Commit(Find(t, PGSIZE), info);
    assert o.table.slots == t.slots[2 := Region(MMAPBASE + 2 * PGSIZE, PGSIZE, info)];
  }

  // my_munmap of the first of two filled slots copies the second one down.
  lemma UnmapsFirst(t: Table)
    requires t.slots[0].addr % PGSIZE == 0 && t.slots[0].addr < KERNBASE && t.slots[0].size == PGSIZE
    requires t.slots[1].addr != 0 && t.slots[2].addr == 0
    ensures Unmap(t, t.slots[0].addr, PGSIZE) == Unmapped(Table(t.slots[0 := t.slots[1]], t.total - 1), true)
  {
    assert !ShiftLeaves(t.slots, 0);
    assert RoundUp(U32(t.slots[0].addr)) == t.slots[0].addr;
    assert SlotAt(t.slots, t.slots[0].addr, 0) == 0;
    var s := t.slots[0 := Region(0, 0, 0)];
    assert ShiftLeft(s, 0) == ShiftLeft(s[0 := s[1]], 1) == s[0 := s[1]];
  }

  // After mapping two pages and removing both, lower one first, both slots are
  // stale. The second of two new mappings is then stored where no live slot is,
  // and a region that no longer exists counts as live; or a second my_munmap of
  // the same region takes total_mmaps to -1.
  lemma StaleSlotLosesRegion() returns (t1: Table, t2: Table, t3: Table, t4: Table, t5: Table, o: Outcome)
    ensures t1 == Commit(Find(Blank(), PGSIZE), 1).table && t1.total == 1
    ensures t2 == Commit(Find(t1, PGSIZE), 2).table && t2.total == 2
    ensures Unmap(t2, MMAPBASE, PGSIZE) == Unmapped(t3, true) && t3.total == 1
    ensures Unmap(t3, MMAPBASE + PGSIZE, PGSIZE) == Unmapped(t4, true) && t4.total == 0
    ensures t5 == Commit(Find(t4, PGSIZE), 3).table && t5.total == 1
    ensures o == Commit(Find(t5, PGSIZE), 4)
    ensures o.slot == Some(2) && o.table.total == 2 && o.table.slots[1] == Region(MMAPBASE + PGSIZE, PGSIZE, 2)
    ensures Unmap(t4, MMAPBASE + PGSIZE, PGSIZE) == Unmapped(Table(t4.slots, -1), true)
  {
    hide Find, Unmap, Commit;
    MapsFirst(Blank(), 1);
    t1 := Commit(Find(Blank(), PGSIZE), 1).table;
    MapsNext(t1, 2);
    t2 := Commit(Find(t1, PGSIZE), 2).table;
    UnmapsFirst(t2);
    t3 := Unmap(t2, MMAPBASE, PGSIZE).table;
    UnmapsFirst(t3);
    t4 := Unmap(t3, MMAPBASE + PGSIZE, PGSIZE).table;
    UnmapsFirst(t4);
    assert t4.slots[0 := t4.slots[1]] == t4.slots;
    MapsFirst(t4, 3);
    t5 := Commit(Find(t4, PGSIZE), 3).table;
    MapsPast(t5, 4);
    o := Commit(Find(t5, PGSIZE), 4);
  }
}
