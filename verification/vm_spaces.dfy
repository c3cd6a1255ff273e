/**
 Making, copying and freeing whole address spaces: what setupkvm, copyuvm and
 freevm do to the memory.
 */
module VmSpaces {
  import opened VmModel
  import opened VmTables
  import opened VmEffects

  // ------------------------------------------------------------------ freevm

  // While freevm walks the directory: tables below index i are free, whatever
  // else d held is held by nobody, other frames are as they were.
  predicate DropAt(m: Mem, m': Mem, d: nat, i: nat, f: nat)
    requires f in m.owner && f in m'.owner && f in m.pages && f in m'.pages
  {
    var o := m.owner[f];
    && m'.owner[f] == (if o.Tab? && o.dir == d && o.index < i then Free else if Belongs(o, f, d) then Other else o)
    && (m'.owner[f] != Free ==> m'.pages[f] == m.pages[f])
  }

  ghost predicate DropMaps(m: Mem, m': Mem, d: nat) {
    m'.spaces == m.spaces - {d}
    && forall d', v :: d' in m.spaces && d' != d && 0 <= v < NPAGES ==> Lookup(m', d', v) == Lookup(m, d', v)
  }

  ghost predicate DropRel(m: Mem, m': Mem, d: nat, i: nat) {
    && Inv(m) && Inv(m') && d in m.spaces && DropMaps(m, m', d)
    && m'.owner.Keys == m.owner.Keys
    && forall f {:trigger DropAt(m, m', d, i, f)} :: f in m.owner ==> DropAt(m, m', d, i, f)
  }

  lemma DropStart(m: Mem, d: nat)
    requires Inv(m) && d in m.spaces
    ensures DropRel(m, Retire(m, d), d, 0)
  {
    hide Lookup, FreeOk;
    RetireKeeps(m, d);
  }

  // The directory itself is still in place.
  lemma DropEntry(m: Mem, m': Mem, d: nat, i: nat, k: nat)
    requires DropRel(m, m', d, i) && k < NENTRIES
    ensures IsTable(m', d) && EntryAt(m', d, k) == EntryAt(m, d, k)
    ensures EntryAt(m, d, k).Entry? ==> EntryAt(m, d, k).frame in m.owner && m.owner[EntryAt(m, d, k).frame] == Tab(d, k)
  {
    assert IsTable(m, d) && PdeOk(m, d, k);
    assert DropAt(m, m', d, i, d);
  }

  lemma DropSkip(m: Mem, m': Mem, d: nat, i: nat)
    requires DropRel(m, m', d, i) && i < NENTRIES && EntryAt(m, d, i) == Absent
    ensures DropRel(m, m', d, i + 1)
  {
    hide Lookup, FreeOk;
    forall f | f in m.owner
      ensures DropAt(m, m', d, i + 1, f)
    {
      assert DropAt(m, m', d, i, f) && OwnerOk(m, f);
    }
  }

  lemma DropTable(m: Mem, m': Mem, d: nat, i: nat)
    requires DropRel(m, m', d, i) && i < NENTRIES && EntryAt(m, d, i).Entry?
    ensures var t := EntryAt(m, d, i).frame;
            t in m'.owner && m'.owner[t] == Other && DropRel(m, Give(m', t), d, i + 1)
  {
    hide Lookup, FreeOk;
    DropEntry(m, m', d, i, i);
    var t := EntryAt(m, d, i).frame;
    assert DropAt(m, m', d, i, t);
    GiveKeeps(m', t);
    var m'' := Give(m', t);
    forall f | f in m.owner
      ensures DropAt(m, m'', d, i + 1, f)
    {
      assert DropAt(m, m', d, i, f) && OwnerOk(m, f);
    }
  }

  // A whole space is gone: its directory, tables and pages below `top` are
  // free, and pages from `top` on are in nobody's hands.
  predicate GoneAt(m: Mem, m': Mem, d: nat, top: nat, f: nat)
    requires f in m.owner && f in m'.owner && f in m.pages && f in m'.pages
  {
    var o := m.owner[f];
    && m'.owner[f] == (if Belongs(o, f, d) then (if o.Leaf? && o.page >= top then Other else Free) else o)
    && (m'.owner[f] != Free && m.pages[f].Data? ==> m'.pages[f] == m.pages[f])
  }

  ghost predicate GoneRel(m: Mem, m': Mem, d: nat, top: nat) {
    && Inv(m) && Inv(m') && d in m.spaces && DropMaps(m, m', d)
    && m'.owner.Keys == m.owner.Keys
    && forall f {:trigger GoneAt(m, m', d, top, f)} :: f in m.owner ==> GoneAt(m, m', d, top, f)
  }

  lemma DropDone(m: Mem, m1: Mem, m': Mem, d: nat, top: nat)
    requires FreeRel(m, m1, d, 0, top) && DropRel(m1, m', d, NENTRIES)
    ensures d in m'.owner && m'.owner[d] == Other && GoneRel(m, Give(m', d), d, top)
  {
    hide Lookup, FreeOk;
    InvBasics(m1, d);
    assert DropAt(m1, m', d, NENTRIES, d);
    GiveKeeps(m', d);
    var m'' := Give(m', d);
    forall f | f in m.owner
      ensures GoneAt(m, m'', d, top, f)
    {
      assert FreedAt(m, m1, d, 0, top, f) && DropAt(m1, m', d, NENTRIES, f) && OwnerOk(m1, f) && OwnerOk(m, f);
    }
  }

  // freevm returns everything exactly when no page is mapped from `top` on.
  lemma GoneIff(m: Mem, m': Mem, d: nat, top: nat)
    requires GoneRel(m, m', d, top)
    ensures (forall v :: top <= v < UTOP ==> Lookup(m, d, v) == Absent)
            <==> (forall f :: f in m.owner && Belongs(m.owner[f], f, d) ==> m'.owner[f] == Free)
  {
    hide Lookup, FreeOk;
    if forall v :: top <= v < UTOP ==> Lookup(m, d, v) == Absent {
      forall f | f in m.owner && Belongs(m.owner[f], f, d)
        ensures m'.owner[f] == Free
      {
        assert GoneAt(m, m', d, top, f) && OwnerOk(m, f);
      }
    } else {
      var v :| top <= v < UTOP && Lookup(m, d, v) != Absent;
      assert LeafOk(m, d, v);
      assert GoneAt(m, m', d, top, Lookup(m, d, v).frame);
    }
  }

  // ----------------------------------------------------- setupkvm and copyuvm

  // While a space is being built: frame f is what it was, or was free and is
  // now the directory, a table, one of the first n pages, or the frame p that is
  // held for the next page.
  predicate BuiltAt(m: Mem, m': Mem, d: nat, n: nat, p: nat, f: nat)
    requires f in m.owner && f in m'.owner && f in m.pages && f in m'.pages
  {
    && (if f == d then m.owner[f] == Free && m'.owner[f] == Dir
        else if f == p then m.owner[f] == Free && m'.owner[f] == Other
        else
          || m'.owner[f] == m.owner[f]
          || (m.owner[f] == Free && m'.owner[f].Tab? && m'.owner[f].dir == d)
          || (m.owner[f] == Free && m'.owner[f].Leaf? && m'.owner[f].dir == d && m'.owner[f].page < n))
    && (m.owner[f] != Free && m.pages[f].Data? ==> m'.pages[f] == m.pages[f])
  }

  ghost predicate BuiltMaps(m: Mem, m': Mem, d: nat, n: nat) {
    && d !in m.spaces && m'.spaces == m.spaces + {d}
    && (forall d', v :: d' in m.spaces && 0 <= v < NPAGES ==> Lookup(m', d', v) == Lookup(m, d', v))
    && (forall v :: n <= v < UTOP ==> Lookup(m', d, v) == Absent)
  }

  ghost predicate BuiltRel(m: Mem, m': Mem, d: nat, n: nat, p: nat) {
    && Inv(m) && Inv(m') && d in m.owner && d != p && BuiltMaps(m, m', d, n)
    && m'.owner.Keys == m.owner.Keys
    && forall f {:trigger BuiltAt(m, m', d, n, p, f)} :: f in m.owner ==> BuiltAt(m, m', d, n, p, f)
  }

  // Everything is as it was: owners, maps and the data of frames in use.
  ghost predicate Restored(m: Mem, m': Mem) {
    && Inv(m) && Inv(m') && SameMaps(m, m') && m'.owner == m.owner
    && forall f :: f in m.owner && m.owner[f] != Free && f in m.pages && m.pages[f].Data? ==>
         f in m'.pages && m'.pages[f] == m.pages[f]
  }

  lemma BuildStart(m: Mem)
    requires Inv(m) && m.free != []
    ensures var d := m.free[0];
            var m' := Adopt(Fill(Take(m), d, Blank()), d);
            && d != 0 && BuiltRel(m, m', d, 0, 0)
            && forall v :: 0 <= v < NPAGES ==> Lookup(m', d, v) == Absent
  {
    hide Lookup, FreeOk;
    TakeKeeps(m);
    var d := m.free[0];
    FillKeeps(Take(m), d, Blank());
    var m1 := Fill(Take(m), d, Blank());
    AdoptKeeps(m1, d);
    var m' := Adopt(m1, d);
    forall f | f in m.owner
      ensures BuiltAt(m, m', d, 0, 0, f)
    {}
  }

  lemma BuildKernel(m: Mem, m1: Mem, m2: Mem, d: nat, lo: nat, n: nat, frame: nat, flags: nat)
    requires BuiltRel(m, m1, d, 0, 0) && MapRel(m1, m2, d, lo, n, frame, flags) && lo >= UTOP
    ensures BuiltRel(m, m2, d, 0, 0)
  {
    hide Lookup, FreeOk;
    forall f | f in m.owner
      ensures BuiltAt(m, m2, d, 0, 0, f)
    {
      assert BuiltAt(m, m1, d, 0, 0, f) && MapAt(m1, m2, d, lo, n, frame, f);
    }
  }

  lemma BuildTake(m: Mem, m1: Mem, d: nat, n: nat, contents: int)
    requires BuiltRel(m, m1, d, n, 0) && m1.free != [] && n <= UTOP
    ensures var g := m1.free[0];
            var m2 := Fill(Take(m1), g, Data(contents));
            && g != 0 && g in m2.owner && m2.owner[g] == Other && g in m2.pages && m2.pages[g] == Data(contents)
            && m1.owner[g] == Free && SameMaps(m1, m2)
            && BuiltRel(m, m2, d, n, g)
  {
    hide Lookup, FreeOk;
    TakeKeeps(m1);
    var g := m1.free[0];
    FillKeeps(Take(m1), g, Data(contents));
    var m2 := Fill(Take(m1), g, Data(contents));
    forall f | f in m.owner
      ensures BuiltAt(m, m2, d, n, g, f)
    {
      assert BuiltAt(m, m1, d, n, 0, f);
    }
    assert BuiltAt(m, m1, d, n, 0, d);
  }

  lemma BuildMap(m: Mem, m1: Mem, m2: Mem, d: nat, n: nat, g: nat, k: nat, flags: nat)
    requires BuiltRel(m, m1, d, n, g) && n < UTOP && k <= 1 && g != 0 && g in m.owner
    requires MapRel(m1, m2, d, n, k, g, flags)
    ensures BuiltRel(m, m2, d, n + k, if k == 1 then 0 else g)
  {
    hide Lookup, FreeOk;
    var p := if k == 1 then 0 else g;
    assert 0 !in m.pages;
    forall f | f in m.owner
      ensures BuiltAt(m, m2, d, n + k, p, f)
    {
      assert BuiltAt(m, m1, d, n, g, f) && MapAt(m1, m2, d, n, k, g, f);
    }
  }

  lemma BuildGive(m: Mem, m1: Mem, d: nat, n: nat, g: nat)
    requires BuiltRel(m, m1, d, n, g) && g != 0 && g in m.owner && n <= UTOP
    ensures g in m1.owner && m1.owner[g] == Other && BuiltRel(m, Give(m1, g), d, n, 0)
  {
    hide Lookup, FreeOk;
    assert 0 !in m.pages;
    assert BuiltAt(m, m1, d, n, g, g);
    GiveKeeps(m1, g);
    var m2 := Give(m1, g);
    forall f | f in m.owner
      ensures BuiltAt(m, m2, d, n, 0, f)
    {
      assert BuiltAt(m, m1, d, n, g, f);
    }
  }

  // Freeing a space that was only being built restores everything.
  lemma BuildUndo(m: Mem, m1: Mem, m2: Mem, d: nat, n: nat, top: nat)
    requires BuiltRel(m, m1, d, n, 0) && n <= top && GoneRel(m1, m2, d, top)
    ensures Restored(m, m2)
  {
    hide Lookup, FreeOk;
    assert 0 !in m.pages;
    forall f | f in m.owner
      ensures m2.owner[f] == m.owner[f]
      ensures m.owner[f] != Free && m.pages[f].Data? ==> m2.pages[f] == m.pages[f]
    {
      assert BuiltAt(m, m1, d, n, 0, f) && GoneAt(m1, m2, d, top, f) && OwnerOk(m, f) && OwnerOk(m1, f);
    }
    assert m2.spaces == m.spaces;
  }

  // Everything is as it was, but for frames that were free and are now in
  // nobody's hands.
  ghost predicate Lost(m: Mem, m': Mem) {
    && Inv(m) && Inv(m') && SameMaps(m, m') && m'.owner.Keys == m.owner.Keys
    && (forall f :: f in m.owner ==> m'.owner[f] == m.owner[f] || (m.owner[f] == Free && m'.owner[f] == Other))
    && forall f :: f in m.owner && m.owner[f] != Free && f in m.pages && m.pages[f].Data? ==>
         f in m'.pages && m'.pages[f] == m.pages[f]
  }

  lemma RestoredLost(m: Mem, m': Mem)
    requires Restored(m, m')
    ensures Lost(m, m')
  {}

  // Freeing a space with pages from `top` on loses them and nothing else.
  lemma BuildLost(m: Mem, m1: Mem, m2: Mem, d: nat, n: nat, top: nat)
    requires BuiltRel(m, m1, d, n, 0) && GoneRel(m1, m2, d, top)
    ensures Lost(m, m2)
  {
    hide Lookup, FreeOk;
    assert 0 !in m.pages;
    forall f | f in m.owner
      ensures m2.owner[f] == m.owner[f] || (m.owner[f] == Free && m2.owner[f] == Other)
      ensures m.owner[f] != Free && m.pages[f].Data? ==> m2.pages[f] == m.pages[f]
    {
      assert BuiltAt(m, m1, d, n, 0, f) && GoneAt(m1, m2, d, top, f) && OwnerOk(m, f) && OwnerOk(m1, f);
    }
    assert m2.spaces == m.spaces;
  }

  // ------------------------------------------------------------ kernel mappings

  datatype Region = Region(page: nat, count: nat, frame: nat, perm: nat)

  predicate Within(r: Region, v: nat) {
    r.page <= v < r.page + r.count
  }

  // Regions above KERNBASE that do not overlap.
  ghost predicate KmapOk(kmap: seq<Region>) {
    && (forall i :: 0 <= i < |kmap| ==> UTOP <= kmap[i].page && 1 <= kmap[i].count && kmap[i].page + kmap[i].count <= NPAGES)
    && (forall i, j, v :: 0 <= i < j < |kmap| && Within(kmap[i], v) ==> !Within(kmap[j], v))
  }

  // kmap of vm.c, for a kernel whose data starts at page-aligned address
  // KERNBASE + dataPage * PGSIZE.
  function Kmap(dataPage: nat): (r: seq<Region>)
    requires 256 <= dataPage <= 0xe000
  {
    [Region(UTOP, 256, 0, 2),
     Region(UTOP + 256, dataPage - 256, 256, 0),
     Region(UTOP + dataPage, 0xe000 - dataPage, dataPage, 2),
     Region(0xfe000, 0x2000, 0xfe000, 2)]
  }

  lemma KmapIsOk(dataPage: nat)
    requires 256 < dataPage < 0xe000
    ensures KmapOk(Kmap(dataPage))
  {}

  // The entry of page v after the first k regions have been mapped.
  function KernelAt(kmap: seq<Region>, k: nat, v: nat): (r: Pte)
    requires k <= |kmap|
  {
    if k == 0 then Absent
    else if Within(kmap[k - 1], v) then Entry(kmap[k - 1].frame + (v - kmap[k - 1].page), OrP(kmap[k - 1].perm))
    else KernelAt(kmap, k - 1, v)
  }

  lemma {:induction false} KernelApart(kmap: seq<Region>, k: nat, j: nat, v: nat)
    requires KmapOk(kmap) && k <= j < |kmap| && Within(kmap[j], v)
    ensures KernelAt(kmap, k, v) == Absent
  {
    if k > 0 {
      assert !Within(kmap[k - 1], v);
      KernelApart(kmap, k - 1, j, v);
    }
  }

  // d's kernel half holds the first k regions and its user half is empty.
  ghost predicate KernelRel(m: Mem, m': Mem, d: nat, kmap: seq<Region>, k: nat)
    requires k <= |kmap|
  {
    && BuiltRel(m, m', d, 0, 0)
    && forall v :: UTOP <= v < NPAGES ==> Lookup(m', d, v) == KernelAt(kmap, k, v)
  }

  lemma KernelStep(m: Mem, m1: Mem, m2: Mem, d: nat, kmap: seq<Region>, k: nat)
    requires KmapOk(kmap) && k < |kmap| && KernelRel(m, m1, d, kmap, k)
    requires MapRel(m1, m2, d, kmap[k].page, kmap[k].count, kmap[k].frame, OrP(kmap[k].perm))
    ensures KernelRel(m, m2, d, kmap, k + 1)
  {
    hide Lookup, FreeOk, BuiltRel;
    BuildKernel(m, m1, m2, d, kmap[k].page, kmap[k].count, kmap[k].frame, OrP(kmap[k].perm));
    BuiltSpace(m, m1, d, 0, 0);
  }

  lemma BuiltSpace(m: Mem, m': Mem, d: nat, n: nat, p: nat)
    requires BuiltRel(m, m', d, n, p)
    ensures Inv(m') && d in m'.spaces && m'.spaces == m.spaces + {d} && d !in m.spaces
    ensures forall v :: n <= v < UTOP ==> Lookup(m', d, v) == Absent
    ensures forall d', v :: d' in m.spaces && 0 <= v < NPAGES ==> Lookup(m', d', v) == Lookup(m, d', v)
    ensures m'.owner.Keys == m.owner.Keys == m.pages.Keys == m'.pages.Keys
  {}

  // --------------------------------------------------------------- copied pages

  // Page v of d is a copy, on a frame that was free, of page v of src.
  predicate CopyAt(m: Mem, m': Mem, src: nat, d: nat, v: nat) {
    var e, e' := Lookup(m, src, v), Lookup(m', d, v);
    && e.Entry? && e'.Entry? && e'.flags == OrP(e.flags)
    && e'.frame in m.owner && m.owner[e'.frame] == Free
    && e.frame in m.pages && m.pages[e.frame].Data? && e'.frame in m'.pages && m'.pages[e'.frame] == m.pages[e.frame]
  }

  ghost predicate CopyRel(m: Mem, m': Mem, src: nat, d: nat, kmap: seq<Region>, n: nat, p: nat) {
    && BuiltRel(m, m', d, n, p)
    && (forall v :: UTOP <= v < NPAGES ==> Lookup(m', d, v) == KernelAt(kmap, |kmap|, v))
    && forall v {:trigger CopyAt(m, m', src, d, v)} :: 0 <= v < n ==> CopyAt(m, m', src, d, v)
  }

  lemma CopyTake(m: Mem, m1: Mem, src: nat, d: nat, kmap: seq<Region>, n: nat, contents: int)
    requires CopyRel(m, m1, src, d, kmap, n, 0) && m1.free != [] && n <= UTOP
    ensures var g := m1.free[0];
            var m2 := Fill(Take(m1), g, Data(contents));
            && g != 0 && g in m.owner && g in m2.owner && m2.owner[g] == Other && g in m2.pages && m2.pages[g] == Data(contents)
            && CopyRel(m, m2, src, d, kmap, n, g)
  {
    hide Lookup, FreeOk, BuiltRel;
    BuildTake(m, m1, d, n, contents);
    BuiltSpace(m, m1, d, n, 0);
    var g := m1.free[0];
    var m2 := Fill(Take(m1), g, Data(contents));
    BuiltSpace(m, m2, d, n, g);
    forall v | 0 <= v < n
      ensures CopyAt(m, m2, src, d, v)
    {
      assert CopyAt(m, m1, src, d, v) && LeafOk(m1, d, v);
    }
  }

  lemma CopyMap(m: Mem, m1: Mem, m2: Mem, src: nat, d: nat, kmap: seq<Region>, n: nat, g: nat, k: nat)
    requires CopyRel(m, m1, src, d, kmap, n, g) && n < UTOP && k <= 1 && g != 0 && g in m.owner
    requires Lookup(m, src, n).Entry? && MapRel(m1, m2, d, n, k, g, OrP(Lookup(m, src, n).flags))
    requires Lookup(m, src, n).frame in m.pages && m.pages[Lookup(m, src, n).frame].Data?
    requires g in m1.pages && m1.pages[g] == m.pages[Lookup(m, src, n).frame]
    ensures CopyRel(m, m2, src, d, kmap, n + k, if k == 1 then 0 else g)
  {
    hide Lookup, FreeOk;
    BuildMap(m, m1, m2, d, n, g, k, OrP(Lookup(m, src, n).flags));
    assert BuiltAt(m, m1, d, n, g, g);
    assert MapAt(m1, m2, d, n, k, g, g);
    forall v | 0 <= v < n + k
      ensures CopyAt(m, m2, src, d, v)
    {
      if v < n {
        assert CopyAt(m, m1, src, d, v) && LeafOk(m1, d, v);
        assert MapAt(m1, m2, d, n, k, g, Lookup(m1, d, v).frame);
      }
    }
  }

  // ------------------------------------------------------- a page freevm loses

  lemma BuiltWiden(m: Mem, m': Mem, d: nat, n: nat, k: nat, p: nat)
    requires BuiltRel(m, m', d, n, p) && n <= k <= UTOP
    ensures BuiltRel(m, m', d, k, p)
  {
    hide Lookup, FreeOk;
    forall f | f in m.owner
      ensures BuiltAt(m, m', d, k, p, f)
    {
      assert BuiltAt(m, m', d, n, p, f);
    }
  }

  // A directory from setupkvm, a frame mapped at MMAPBASE in it, and freevm: the
  // frame is then in nobody's hands, and everything else as at the start.
  lemma MappedPageLost(m: Mem, m1: Mem, m2: Mem, m3: Mem, d: nat, g: nat, kmap: seq<Region>, flags: nat)
    requires KernelRel(m, m1, d, kmap, |kmap|) && m1.free != [] && g == m1.free[0]
    requires MapRel(Fill(Take(m1), g, Data(ZEROS)), m2, d, MMAPTOP, 1, g, flags)
    requires GoneRel(m2, m3, d, MMAPTOP)
    ensures g in m.owner && m.owner[g] == Free && g in m3.owner && m3.owner[g] == Other
    ensures Lost(m, m3)
  {
    hide Lookup, FreeOk, BuiltRel, Lost;
    var m1' := Fill(Take(m1), g, Data(ZEROS));
    BuildTake(m, m1, d, 0, ZEROS);
    FrameOfBuild(m, m1', d, 0, g);
    BuiltWiden(m, m1', d, 0, MMAPTOP, g);
    BuildMap(m, m1', m2, d, MMAPTOP, g, 1, flags);
    BuildLost(m, m2, m3, d, MMAPTOP + 1, MMAPTOP);
    assert MapAt(m1', m2, d, MMAPTOP, 1, g, g);
    assert GoneAt(m2, m3, d, MMAPTOP, g);
  }

  lemma FrameOfBuild(m: Mem, m': Mem, d: nat, n: nat, g: nat)
    requires BuiltRel(m, m', d, n, g) && g in m'.owner
    ensures g in m.owner && m.owner[g] == Free
  {
    assert BuiltAt(m, m', d, n, g, g);
  }
}
