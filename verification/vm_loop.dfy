/**
 The addresses that deallocuvm's loop goes through, in 32-bit arithmetic, and
 for which sizes it ends.
 */
module VmLoop {
  import opened VmModel
  import opened VmSpaces

  const SPACE := 0x1_0000_0000

  // The directory entries of d that have a table.
  function Tables(m: Mem, d: nat): (r: set<nat>) {
    set i | 0 <= i < NENTRIES && EntryAt(m, d, i).Entry?
  }

  // The last page under the directory entry of a; a += PGSIZE follows.
  function Skip(a: nat): (r: nat) {
    ((Pdx(a / PGSIZE) + 1) * NENTRIES * PGSIZE + SPACE - PGSIZE) % SPACE
  }

  function Bump(a: nat): (r: nat) {
    (a + PGSIZE) % SPACE
  }

  // One turn of the loop.
  function Turn(tables: set<nat>, a: nat): (r: nat) {
    Bump(if Pdx(a / PGSIZE) in tables then a else Skip(a))
  }

  // The address after n turns.
  function Address(tables: set<nat>, start: nat, n: nat): (r: nat) {
    if n == 0 then start else Turn(tables, Address(tables, start, n - 1))
  }

  predicate Aligned(a: nat) {
    a % PGSIZE == 0 && a < SPACE
  }

  lemma TurnIs(tables: set<nat>, a: nat)
    requires Aligned(a)
    ensures Turn(tables, a) == if Pdx(a / PGSIZE) in tables then (a + PGSIZE) % SPACE else (a / 0x40_0000 + 1) * 0x40_0000 % SPACE
    ensures Aligned(Turn(tables, a))
  {
    hide Pdx, Skip;
    PdxIs(a);
    SkipIs(a);
    SkipBump((a / 0x40_0000 + 1) * 0x40_0000);
    BumpAligned(a);
  }

  lemma PdxIs(a: nat)
    ensures Pdx(a / PGSIZE) == a / 0x40_0000
  {}

  lemma SkipIs(a: nat)
    requires a < SPACE
    ensures var x := (a / 0x40_0000 + 1) * 0x40_0000;
            PGSIZE <= x <= SPACE && x % PGSIZE == 0 && Skip(a) == (x + SPACE - PGSIZE) % SPACE
  {
    PdxIs(a);
  }

  lemma BumpAligned(a: nat)
    requires a % PGSIZE == 0
    ensures Bump(a) % PGSIZE == 0 && Bump(a) < SPACE
  {}

  // Going back a page and forward again, also across the end of the space.
  lemma SkipBump(x: nat)
    requires PGSIZE <= x <= SPACE && x % PGSIZE == 0
    ensures ((x + SPACE - PGSIZE) % SPACE + PGSIZE) % SPACE == x % SPACE && x % SPACE % PGSIZE == 0
  {
    if x < SPACE {
      assert (x + SPACE - PGSIZE) % SPACE == x - PGSIZE;
    } else {
      assert (x + SPACE - PGSIZE) % SPACE == SPACE - PGSIZE;
    }
  }

  // The sizes for which the loop ends: below the last directory entry always,
  // within it only if that entry has a table, and never in the last page.
  predicate Bounded(tables: set<nat>, oldsz: nat) {
    oldsz <= 0xffc0_0000 || (1023 in tables && oldsz <= 0xffff_f000)
  }

  lemma TurnAdvances(tables: set<nat>, a: nat, oldsz: nat)
    requires Aligned(a) && a < oldsz && Bounded(tables, oldsz)
    ensures Turn(tables, a) > a
  {
    hide Turn, Pdx;
    TurnIs(tables, a);
    PdxIs(a);
  }

  lemma TurnStaysBelow(tables: set<nat>, a: nat, oldsz: nat)
    requires Aligned(a) && a < oldsz < SPACE && !Bounded(tables, oldsz)
    ensures Turn(tables, a) < oldsz
  {
    hide Turn, Pdx;
    TurnIs(tables, a);
    PdxIs(a);
  }

  lemma {:induction false} AddressAligned(tables: set<nat>, start: nat, n: nat)
    requires Aligned(start)
    ensures Aligned(Address(tables, start, n))
  {
    if n > 0 {
      AddressAligned(tables, start, n - 1);
      TurnIs(tables, Address(tables, start, n - 1));
    }
  }

  lemma {:induction false} StaysBelow(tables: set<nat>, start: nat, oldsz: nat, n: nat)
    requires Aligned(start) && start < oldsz < SPACE && !Bounded(tables, oldsz)
    ensures Address(tables, start, n) < oldsz
  {
    hide Turn, Bounded;
    if n > 0 {
      StaysBelow(tables, start, oldsz, n - 1);
      AddressAligned(tables, start, n - 1);
      TurnStaysBelow(tables, Address(tables, start, n - 1), oldsz);
    }
  }

  lemma {:induction false} Reaches(tables: set<nat>, start: nat, oldsz: nat, n: nat) returns (k: nat)
    requires Aligned(start) && Bounded(tables, oldsz)
    ensures Address(tables, start, k) >= oldsz
    decreases oldsz - Address(tables, start, n)
  {
    hide Turn, Bounded;
    var a := Address(tables, start, n);
    if a >= oldsz {
      k := n;
    } else {
      AddressAligned(tables, start, n);
      TurnAdvances(tables, a, oldsz);
      k := Reaches(tables, start, oldsz, n + 1);
    }
  }

  // deallocuvm's loop, started below oldsz, ends exactly for these sizes.
  lemma LoopEndsIff(tables: set<nat>, start: nat, oldsz: nat)
    requires Aligned(start) && start < oldsz < SPACE
    ensures (exists n :: Address(tables, start, n) >= oldsz)
            <==> oldsz <= 0xffc0_0000 || (1023 in tables && oldsz <= 0xffff_f000)
  {
    hide Address;
    if Bounded(tables, oldsz) {
      var k := Reaches(tables, start, oldsz, 0);
    } else {
      forall n: nat
        ensures Address(tables, start, n) < oldsz
      {
        StaysBelow(tables, start, oldsz, n);
      }
    }
  }

  // Every directory that setupkvm returns has a table in its last entry, so
  // the loop ends for every size up to the last page.
  lemma KernelTables(m: Mem, m': Mem, d: nat, dataPage: nat, start: nat, oldsz: nat)
    requires 256 < dataPage < 0xe000 && KernelRel(m, m', d, Kmap(dataPage), 4)
    requires Aligned(start) && start < oldsz < SPACE
    ensures 1023 in Tables(m', d)
    ensures (exists n :: Address(Tables(m', d), start, n) >= oldsz) <==> oldsz <= 0xffff_f000
  {
    hide Address;
    var v := 0xfffff;
    assert KernelAt(Kmap(dataPage), 4, v) == Entry(v, 3);
    assert Lookup(m', d, v) == KernelAt(Kmap(dataPage), 4, v);
    assert Pdx(v) == 1023;
    LoopEndsIff(Tables(m', d), start, oldsz);
  }
}
