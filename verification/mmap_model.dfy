/**
 The table of mapped regions of sys_mmap.c on values, in the 32-bit arithmetic
 of the code. A region's flags, protection, file and offset travel together as
 `info`.
 */
module MmapModel {
  import opened Common

  const NMAPS := 30
  const PGSIZE := 4096
  const MMAPBASE := 0x6000_0000
  const KERNBASE := 0x8000_0000
  const UINT := 0x1_0000_0000

  datatype Region = Region(addr: nat, size: nat, info: int)

  type Slots = s: seq<Region> | |s| == NMAPS witness seq(NMAPS, _ => Region(0, 0, 0))

  // p->mmaps and p->total_mmaps. Slots from total on may hold anything.
  datatype Table = Table(slots: Slots, total: int)

  // A call's effect on the table, and the slot it chose; slot NMAPS lies just
  // past the array.
  datatype Outcome = Outcome(table: Table, slot: Option<nat>)

  // -------------------------------------------------------------- arithmetic

  function U32(x: int): (r: nat) {
    x % UINT
  }

  // PGROUNDUP on a 32-bit value.
  function RoundUp(x: int): (r: nat)
    ensures r % PGSIZE == 0 && r < UINT
    ensures 0 <= x <= UINT - PGSIZE ==> x <= r < x + PGSIZE
    ensures UINT - PGSIZE < x < UINT ==> r == 0
  {
    U32(x + PGSIZE - 1) / PGSIZE * PGSIZE
  }

  function End(r: Region): (e: nat) {
    RoundUp(r.addr + r.size)
  }

  // ------------------------------------------------------------------- mmap

  // setup_mmap_arr's loop: make room at slot i + 1.
  function ShiftRight(slots: Slots, total: int, i: int): (r: Slots)
    requires -1 <= i && total < NMAPS
    ensures forall k :: 0 <= k < NMAPS ==> r[k] == if i + 2 <= k <= total then slots[k - 1] else slots[k]
  {
    seq(NMAPS, k requires 0 <= k < NMAPS => if i + 2 <= k <= total then slots[k - 1] else slots[k])
  }

  function Setup(t: Table, size: nat, i: int, a: nat): (r: Outcome)
    requires -1 <= i < NMAPS && t.total < NMAPS
    ensures r.slot.Some? ==> r.slot.value == i + 1
  {
    var s := ShiftRight(t.slots, t.total, i);
    if RoundUp(U32(a + size)) >= KERNBASE then Outcome(t.(slots := s), None)
    else if i + 1 == NMAPS then Outcome(t.(slots := s), Some(NMAPS))
    else Outcome(t.(slots := s[i + 1 := s[i + 1].(addr := a, size := size)]), Some(i + 1))
  }

  // check_mmap_possible's loop from slot i on.
  function CheckFrom(t: Table, a: nat, size: nat, i: nat): (r: Option<nat>)
    requires t.total <= NMAPS
    ensures r.Some? ==> i <= r.value < t.total - 1
    decreases NMAPS - i
  {
    if i + 1 >= t.total then None
    else if t.slots[i].addr >= a then None
    else if a > End(t.slots[i]) && RoundUp(t.slots[i + 1].addr) > U32(a + size) then Some(i)
    else CheckFrom(t, a, size, i + 1)
  }

  function Check(t: Table, addr: int, size: nat): (r: Outcome)
    requires 0 < t.total < NMAPS
    ensures r.slot.Some? ==> r.slot.value <= t.total
  {
    var a := RoundUp(addr);
    if a > End(t.slots[t.total - 1]) then Setup(t, size, t.total - 1, a)
    else
      var i := CheckFrom(t, a, size, 0);
      if i.Some? then Setup(t, size, i.value, a) else Outcome(t, None)
  }

  // find_mmap_addr's loop from slot i on.
  function FindFrom(t: Table, size: nat, i: nat): (r: nat)
    requires i <= t.total < NMAPS
    ensures i <= r <= t.total
    decreases NMAPS - i
  {
    if i < t.total && t.slots[i + 1].addr != 0 then
      if U32(RoundUp(t.slots[i + 1].addr) - End(t.slots[i])) > size then i else FindFrom(t, size, i + 1)
    else i
  }

  function Find(t: Table, size: nat): (r: Outcome)
    requires 0 <= t.total < NMAPS
    ensures r.slot.Some? ==> r.slot.value <= t.total + 1
  {
    if t.total == 0 then
      if RoundUp(MMAPBASE + size) >= KERNBASE then Outcome(t, None)
      else Outcome(t.(slots := t.slots[0 := t.slots[0].(addr := MMAPBASE, size := size)]), Some(0))
    else if U32(t.slots[0].addr - MMAPBASE) > size then Setup(t, size, -1, MMAPBASE)
    else
      var i := FindFrom(t, size, 0);
      var a := End(t.slots[i]);
      if U32(a + size) > KERNBASE then Outcome(t, None) else Setup(t, size, i, a)
  }

  // The range test on an address that the caller gave.
  predicate HintOk(addr: int, size: nat) {
    addr >= MMAPBASE && RoundUp(U32(RoundUp(addr) + size)) <= KERNBASE
  }

  // The rest of my_mmap, for a slot of the array.
  function Commit(o: Outcome, info: int): (r: Outcome)
    requires o.slot.Some? ==> o.slot.value <= NMAPS
  {
    if o.slot.None? || o.slot.value == NMAPS then o
    else
      var s := o.table.slots;
      Outcome(Table(s[o.slot.value := s[o.slot.value].(info := info)], o.table.total + 1), o.slot)
  }

  // --------------------------------------------------------------- invariant

  // A live region: page-aligned, not empty, between MMAPBASE and KERNBASE, and
  // ending, after rounding, no later than the next one starts.
  predicate LiveOk(t: Table, k: nat)
    requires k < t.total <= NMAPS
  {
    var r := t.slots[k];
    && r.addr % PGSIZE == 0 && 1 <= r.size < KERNBASE && MMAPBASE <= r.addr < KERNBASE && End(r) < KERNBASE
    && (k + 1 < t.total ==> End(r) <= t.slots[k + 1].addr)
  }

  ghost predicate Live(t: Table) {
    0 <= t.total <= NMAPS && forall k {:trigger LiveOk(t, k)} :: 0 <= k < t.total ==> LiveOk(t, k)
  }

  // The live regions, in order.
  function Regions(t: Table): (r: seq<Region>)
    requires 0 <= t.total <= NMAPS
  {
    t.slots[..t.total]
  }

  // An aligned sequence of later regions starts at or after an earlier end.
  lemma {:induction false} Later(t: Table, i: nat, j: nat)
    requires Live(t) && i < j < t.total
    ensures t.slots[i].addr < End(t.slots[i]) <= t.slots[j].addr
    decreases j
  {
    assert LiveOk(t, i) && LiveOk(t, j - 1);
    if i < j - 1 {
      Later(t, i, j - 1);
    }
  }

  lemma EndExact(t: Table, k: nat)
    requires Live(t) && k < t.total
    ensures t.slots[k].addr + t.slots[k].size <= End(t.slots[k]) < KERNBASE
  {
    assert LiveOk(t, k);
  }
}
