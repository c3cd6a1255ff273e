/**
 How many frames mappages, setupkvm, allocuvm and copyuvm take: one for every
 new page, and one for every directory entry that still lacks a table.
 */
module VmNeeds {
  import opened Common
  import opened VmModel
  import opened VmTables
  import opened VmSpaces
  import opened VmLoop

  // The directory entries of pages lo..lo + n.
  function Indices(lo: nat, n: nat): (r: set<nat>) {
    if n == 0 then {} else Indices(lo, n - 1) + {Pdx(lo + n - 1)}
  }

  // The tables that mapping pages lo..lo + n adds to those that are there.
  function Missing(tables: set<nat>, lo: nat, n: nat): (r: set<nat>) {
    Indices(lo, n) - tables
  }

  lemma MissingStep(tables: set<nat>, lo: nat, n: nat)
    ensures Indices(lo, n + 1) == Indices(lo, n) + {Pdx(lo + n)}
    ensures |Missing(tables, lo, n + 1)| ==
            |Missing(tables, lo, n)| + if Pdx(lo + n) in tables + Indices(lo, n) then 0 else 1
  {
    var p := Pdx(lo + n);
    if p in tables + Indices(lo, n) {
      assert Missing(tables, lo, n + 1) == Missing(tables, lo, n);
    } else {
      assert Missing(tables, lo, n + 1) == Missing(tables, lo, n) + {p};
    }
  }

  lemma {:induction false} MissingGrows(tables: set<nat>, lo: nat, n: nat, k: nat)
    requires n <= k
    ensures |Missing(tables, lo, n)| <= |Missing(tables, lo, k)|
  {
    hide Missing, Indices;
    if n < k {
      MissingGrows(tables, lo, n, k - 1);
      MissingStep(tables, lo, k - 1);
    }
  }

  // Pages mapped one after the other take their tables one after the other.
  lemma MissingOne(tables: set<nat>, lo: nat, n: nat)
    ensures |Missing(tables + Indices(lo, n), lo + n, 1)| == |Missing(tables, lo, n + 1)| - |Missing(tables, lo, n)|
    ensures tables + Indices(lo, n) + Indices(lo + n, 1) == tables + Indices(lo, n + 1)
  {
    var p := Pdx(lo + n);
    MissingStep(tables, lo, n);
    assert Indices(lo + n, 1) == {p} by {
      assert Indices(lo + n, 0) == {};
    }
    if p in tables + Indices(lo, n) {
      assert Missing(tables + Indices(lo, n), lo + n, 1) == {};
    } else {
      assert Missing(tables + Indices(lo, n), lo + n, 1) == {p};
    }
  }

  // -------------------------------------------------------- stores and tables

  lemma NewTable(m: Mem, d: nat, i: nat, t: nat, flags: nat)
    requires CanAdd(m, d, i, t)
    ensures Tables(AddTable(m, d, i, t, flags), d) == Tables(m, d) + {i} && i !in Tables(m, d)
    ensures AddTable(m, d, i, t, flags).free == m.free
  {
    var m' := AddTable(m, d, i, t, flags);
    forall k | 0 <= k < NENTRIES
      ensures EntryAt(m', d, k) == if k == i then Entry(t, flags) else EntryAt(m, d, k)
    {
      AddEntry(m, d, i, t, flags, d, k);
    }
  }

  // Storing in a frame that is not the directory.
  lemma ElsewhereTables(m: Mem, m': Mem, d: nat)
    requires d in m.pages && d in m'.pages && m'.pages[d] == m.pages[d]
    ensures Tables(m', d) == Tables(m, d)
  {
    assert forall i :: EntryAt(m', d, i) == EntryAt(m, d, i);
  }

  lemma LeafTables(m: Mem, d: nat, v: nat, e: Pte)
    requires HasTable(m, d, v) && e.Entry?
    ensures Tables(SetLeaf(m, d, v, e), d) == Tables(m, d) && SetLeaf(m, d, v, e).free == m.free
  {
    TableKnown(m, d, v);
    assert IsTable(m, d);
    ElsewhereTables(m, SetLeaf(m, d, v, e), d);
  }

  lemma BlankTables(m: Mem, d: nat)
    requires d in m.pages && m.pages[d] == Blank()
    ensures Tables(m, d) == {}
  {}

  // ---------------------------------------------------------- kernel mappings

  // The directory entries of the first k regions.
  function KernelIndices(kmap: seq<Region>, k: nat): (r: set<nat>)
    requires k <= |kmap|
  {
    if k == 0 then {} else KernelIndices(kmap, k - 1) + Indices(kmap[k - 1].page, kmap[k - 1].count)
  }

  lemma KernelIndexStep(kmap: seq<Region>, k: nat)
    requires k < |kmap|
    ensures var t := KernelIndices(kmap, k);
            && KernelIndices(kmap, k + 1) == t + Indices(kmap[k].page, kmap[k].count)
            && |KernelIndices(kmap, k + 1)| == |t| + |Missing(t, kmap[k].page, kmap[k].count)|
  {
    var t, m := KernelIndices(kmap, k), Missing(KernelIndices(kmap, k), kmap[k].page, kmap[k].count);
    assert KernelIndices(kmap, k + 1) == t + m && t * m == {};
  }

  lemma {:induction false} KernelIndexGrows(kmap: seq<Region>, k: nat, j: nat)
    requires k <= j <= |kmap|
    ensures |KernelIndices(kmap, k)| <= |KernelIndices(kmap, j)|
  {
    hide KernelIndices;
    if k < j {
      KernelIndexGrows(kmap, k, j - 1);
      KernelIndexStep(kmap, j - 1);
    }
  }

  lemma {:induction false} IndexRange(lo: nat, n: nat, x: nat)
    ensures x in Indices(lo, n) <==> n > 0 && Pdx(lo) <= x <= Pdx(lo + n - 1)
  {
    if n > 1 {
      IndexRange(lo, n - 1, x);
    } else if n == 1 {
      assert Indices(lo, 0) == {};
    }
  }

  // vm.c's own regions need 56 tables for physical memory and 8 for devices.
  lemma KernelTableCount(dataPage: nat)
    requires 256 < dataPage < 0xe000
    ensures |KernelIndices(Kmap(dataPage), 4)| == 64
    ensures forall x :: x in KernelIndices(Kmap(dataPage), 4) ==> x >= Pdx(UTOP)
  {
    hide Indices, KernelIndices, Interval;
    var s := KernelIndices(Kmap(dataPage), 4);
    var low, high := Interval(512, 568), Interval(1016, 1024);
    forall x: nat
      ensures x in s <==> x in low || x in high
    {
      KernelMember(dataPage, x);
    }
    assert s == low + high && low * high == {};
  }

  lemma KernelMember(dataPage: nat, x: nat)
    requires 256 < dataPage < 0xe000
    ensures x in KernelIndices(Kmap(dataPage), 4) <==> 512 <= x < 568 || 1016 <= x < 1024
  {
    hide Indices;
    var k := Kmap(dataPage);
    IndexRange(k[0].page, k[0].count, x);
    IndexRange(k[1].page, k[1].count, x);
    IndexRange(k[2].page, k[2].count, x);
    IndexRange(k[3].page, k[3].count, x);
    assert KernelIndices(k, 1) == Indices(k[0].page, k[0].count);
    assert KernelIndices(k, 2) == KernelIndices(k, 1) + Indices(k[1].page, k[1].count);
    assert KernelIndices(k, 3) == KernelIndices(k, 2) + Indices(k[2].page, k[2].count);
  }

  // ------------------------------------------------------------ whole requests

  // The frames that n new pages from lo on take.
  function PagesNeed(tables: set<nat>, lo: nat, n: nat): (r: nat) {
    n + |Missing(tables, lo, n)|
  }

  lemma PagesNeedStep(tables: set<nat>, lo: nat, n: nat)
    ensures PagesNeed(tables, lo, n + 1) == PagesNeed(tables, lo, n) + PagesNeed(tables + Indices(lo, n), lo + n, 1)
    ensures tables + Indices(lo, n) + Indices(lo + n, 1) == tables + Indices(lo, n + 1)
  {
    MissingOne(tables, lo, n);
  }

  lemma PagesNeedGrows(tables: set<nat>, lo: nat, n: nat, k: nat)
    requires n <= k
    ensures PagesNeed(tables, lo, n) <= PagesNeed(tables, lo, k)
  {
    MissingGrows(tables, lo, n, k);
  }

  lemma NothingNeeded(tables: set<nat>, lo: nat)
    ensures PagesNeed(tables, lo, 0) == 0 && tables + Indices(lo, 0) == tables
  {
    assert Missing(tables, lo, 0) == {};
  }

  // The directory and the tables of the kernel's mappings.
  function KernelNeed(kmap: seq<Region>): (r: nat) {
    1 + |KernelIndices(kmap, |kmap|)|
  }
}
