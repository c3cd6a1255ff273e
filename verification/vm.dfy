/**
 vm.c and kalloc.c as an object: frames, entries and the free list updated in
 place by loops that step an address.
 */
module Vm {
  import opened VmModel
  import opened VmTables
  import opened VmEffects
  import opened VmSpaces
  import opened VmLoop
  import opened VmNeeds

  const MMAPBASE := 0x6000_0000
  const KERNBASE := 0x8000_0000
  const PTE_W := 2
  const PTE_U := 4

  function RoundUp(x: nat): (r: nat)
    ensures r % PGSIZE == 0 && x <= r < x + PGSIZE
  {
    (x + PGSIZE - 1) / PGSIZE * PGSIZE
  }

  // A data frame that kalloc has handed out and nothing refers to.
  predicate Usable(m: Mem, f: nat) {
    f in m.owner && m.owner[f] == Other && f in m.pages && m.pages[f].Data?
  }

  // Remap is the panic of mappages.
  datatype MapResult = Mapped | NoMemory | Remap

  // NoPage is a panic of copyuvm.
  datatype CopyResult = Copied | Failed | NoPage

  // Pages lo..hi of d are not mapped.
  ghost predicate Clear(m: Mem, d: nat, lo: nat, hi: nat) {
    forall w :: lo <= w < hi ==> Lookup(m, d, w) == Absent
  }

  class PhysMem {
    var pages: map<nat, Page>
    var free: seq<nat>
    ghost var owner: map<nat, Owner>
    ghost var spaces: set<nat>

    ghost function M(): (m: Mem)
      reads this
    {
      Mem(pages, free, owner, spaces)
    }

    ghost predicate Valid()
      reads this
    {
      Inv(M())
    }

    constructor ()
      ensures Valid() && pages == map[] && free == [] && spaces == {}
    {
      pages, free, owner, spaces := map[], [], map[], {};
    }

    // The first frame of the free list, or 0.
    method Kalloc() returns (f: nat)
      requires Valid()
      modifies this
      ensures Valid()
      ensures if old(free) == [] then f == 0 && M() == old(M()) else f == old(free[0]) && f != 0 && M() == Take(old(M()))
      ensures f != 0 ==> old(free) == [f] + free && pages == old(pages) && spaces == old(spaces) && owner == old(owner)[f := Other]
    {
      hide Inv;
      if free == [] {
        return 0;
      }
      TakeKeeps(M());
      f := free[0];
      free := free[1..];
      owner := owner[f := Other];
    }

    // Free a frame that kalloc handed out, or, at boot, one not managed before.
    method Kfree(f: nat)
      requires Valid() && f != 0 && (f in owner ==> owner[f] == Other)
      modifies this
      ensures Valid() && M() == Give(old(M()), f)
      ensures free == [f] + old(free) && pages == old(pages)[f := Data(JUNK)]
      ensures spaces == old(spaces) && owner == old(owner)[f := Free]
    {
      hide Inv;
      if f in owner {
        GiveKeeps(M(), f);
      } else {
        GiveNew(M(), f);
      }
      pages := pages[f := Data(JUNK)];
      free := [f] + free;
      owner := owner[f := Free];
    }

    // Put the whole pages of [vstart, vend) on the free list.
    method FreeRange(vstart: nat, vend: nat)
      requires Valid()
      requires forall f :: RoundUp(vstart) / PGSIZE <= f < vend / PGSIZE ==> f != 0 && f !in owner
      modifies this
      ensures Valid() && spaces == old(spaces)
      ensures forall f :: f in owner <==> f in old(owner) || RoundUp(vstart) / PGSIZE <= f < vend / PGSIZE
      ensures forall f :: f in owner ==> owner[f] == if f in old(owner) then old(owner)[f] else Free
    {
      hide Inv;
      var p := RoundUp(vstart);
      while p + PGSIZE <= vend
        invariant Valid() && p % PGSIZE == 0 && RoundUp(vstart) <= p && (p <= vend || p == RoundUp(vstart)) && spaces == old(spaces)
        invariant forall f :: f in owner <==> f in old(owner) || RoundUp(vstart) / PGSIZE <= f < p / PGSIZE
        invariant forall f :: f in owner ==> owner[f] == if f in old(owner) then old(owner)[f] else Free
        decreases vend - p
      {
        assert p / PGSIZE !in old(owner);
        Kfree(p / PGSIZE);
        p := p + PGSIZE;
      }
    }

    // The table holding page v's entry, or 0.
    method Walk(d: nat, v: nat, alloc: bool) returns (t: nat)
      requires Valid() && d in spaces && v < NPAGES
      modifies this
      ensures Grew(old(M()), M(), d)
      ensures t != 0 ==> HasTable(M(), d, v) && TableOf(M(), d, v) == t
      ensures t != 0 ==> HasW(EntryAt(M(), d, Pdx(v)).flags) && HasU(EntryAt(M(), d, Pdx(v)).flags)
      ensures t == 0 ==> M() == old(M()) && EntryAt(M(), d, Pdx(v)) == Absent && (alloc ==> free == [])
      ensures !alloc ==> M() == old(M())
      ensures t != 0 ==> Tables(M(), d) == Tables(old(M()), d) + {Pdx(v)}
      ensures t != 0 ==> |free| == |old(free)| - if Pdx(v) in Tables(old(M()), d) then 0 else 1
    {
      hide Inv, Lookup, Grew, Tables;
      ghost var m := M();
      Split(v, v);
      HasEntry(m, d, v);
      InvBasics(m, d);
      GrewSame(m, d);
      var e := pages[d].entries[Pdx(v)];
      if e.Entry? {
        TableKnown(m, d, v);
        TableNotNull(m, d, v);
        OpenEntry(m, d, v);
        assert Tables(m, d) + {Pdx(v)} == Tables(m, d);
        return e.frame;
      }
      if !alloc || free == [] {
        return 0;
      }
      GrewTable(m, d, Pdx(v), 7);
      WalkTables(m, d, Pdx(v), 7);
      t := Kalloc();
      pages := pages[t := Blank()];
      pages := pages[d := Table(pages[d].entries[Pdx(v) := Entry(t, 7)])];
      owner := owner[t := Tab(d, Pdx(v))];
      assert M() == AddTable(Fill(Take(m), t, Blank()), d, Pdx(v), t, 7);
      GrewBasics(m, M(), d);
      TableKnown(M(), d, v);
      OpenEntry(M(), d, v);
    }

    // One iteration of mappages' loop, on page a == lo + n of the run from m.
    method MapPage(d: nat, a: nat, pa: nat, perm: nat, ghost m: Mem, ghost lo: nat, ghost n: nat, ghost frame: nat)
      returns (r: MapResult)
      requires MapRel(m, M(), d, lo, n, frame, OrP(perm)) && d in m.spaces && a == lo + n < NPAGES && pa == frame + n
      requires a < UTOP ==> Usable(m, pa)
      modifies this
      ensures MapRel(m, M(), d, lo, if r.Mapped? then n + 1 else n, frame, OrP(perm))
      ensures r.Remap? <==> Lookup(m, d, a).Entry?
      ensures r.NoMemory? ==> free == [] && M() == old(M()) && Pdx(a) !in Tables(M(), d)
      ensures r.Mapped? ==> Tables(M(), d) == Tables(old(M()), d) + {Pdx(a)}
      ensures r.Mapped? ==> |free| == |old(free)| - if Pdx(a) in Tables(old(M()), d) then 0 else 1
    {
      hide Inv, Lookup, MapRel, Grew, EntryAt, Tables;
      ghost var m1 := M();
      MapBasics(m, m1, d, lo, n, frame, OrP(perm));
      MapBeyond(m, m1, d, lo, n, frame, OrP(perm));
      HasEntry(m1, d, a);
      var t := Walk(d, a, true);
      MapGrew(m, m1, M(), d, lo, n, frame, OrP(perm));
      if t == 0 {
        NoTable(m1, d, a, a);
        return NoMemory;
      }
      TableKnown(M(), d, a);
      Split(a, a);
      MapBeyond(m, M(), d, lo, n, frame, OrP(perm));
      var e := EntryOf(t, Ptx(a));
      if e.Entry? {
        return Remap;
      }
      MapStep(m, M(), d, lo, n, frame, OrP(perm));
      LeafTables(M(), d, a, Entry(pa, OrP(perm)));
      ghost var m2 := M();
      pages := pages[t := Table(pages[t].entries[Ptx(a) := Entry(pa, OrP(perm))])];
      if a < UTOP {
        owner := owner[pa := Leaf(d, a)];
      }
      assert M() == SetLeaf(m2, d, a, Entry(pa, OrP(perm)));
      r := Mapped;
    }

    // Entries for the pages that cover [va, va + size), to frames from `frame`
    // on; n pages were mapped before the call ended.
    method MapPages(d: nat, va: nat, size: nat, frame: nat, perm: nat) returns (r: MapResult, ghost n: nat)
      requires Valid() && d in spaces && 1 <= size && va + size <= SPACE
      requires forall f :: frame <= f <= frame + ((va + size - 1) / PGSIZE - va / PGSIZE) && va / PGSIZE + (f - frame) < UTOP ==>
                 Usable(M(), f)
      modifies this
      ensures MapRel(old(M()), M(), d, va / PGSIZE, n, frame, OrP(perm))
      ensures n <= (va + size - 1) / PGSIZE - va / PGSIZE + 1 && Clear(old(M()), d, va / PGSIZE, va / PGSIZE + n)
      ensures r.Mapped? <==> n == (va + size - 1) / PGSIZE - va / PGSIZE + 1
      ensures r.NoMemory? ==> free == []
      ensures r.Remap? ==> Lookup(old(M()), d, va / PGSIZE + n).Entry?
      ensures forall w :: va / PGSIZE <= w < va / PGSIZE + n ==> AccessAt(M(), d, w) == Allowed(HasU(perm), HasW(perm))
      ensures r.Mapped? ==> Tables(M(), d) == Tables(old(M()), d) + Indices(va / PGSIZE, n)
      ensures r.Mapped? ==> |free| + |Missing(Tables(old(M()), d), va / PGSIZE, n)| == |old(free)|
      ensures r.NoMemory? ==> |old(free)| < |Missing(Tables(old(M()), d), va / PGSIZE, n + 1)|
    {
      hide Inv, Lookup, MapRel, Grew, EntryAt, Tables, Indices, Missing, AccessAt, HasU, HasW;
      var a, last, pa := va / PGSIZE, (va + size - 1) / PGSIZE, frame;
      ghost var m, lo := M(), a;
      ghost var tables := Tables(m, d);
      n := 0;
      MapStart(m, d, lo, frame, OrP(perm));
      NothingNeeded(tables, lo);
      while true
        invariant lo <= a <= last < NPAGES && n == a - lo && pa == frame + n && d in spaces
        invariant MapRel(m, M(), d, lo, n, frame, OrP(perm)) && Inv(M()) && Clear(m, d, lo, lo + n)
        invariant Tables(M(), d) == tables + Indices(lo, n) && |free| + |Missing(tables, lo, n)| == |m.free|
        decreases last - a
      {
        MissingStep(tables, lo, n);
        MapBasics(m, M(), d, lo, n, frame, OrP(perm));
        assert a < UTOP ==> Usable(m, pa);
        r := MapPage(d, a, pa, perm, m, lo, n, frame);
        if !r.Mapped? {
          MappedAccess(m, M(), d, lo, n, frame, perm);
          return;
        }
        n := n + 1;
        MapBasics(m, M(), d, lo, n, frame, OrP(perm));
        if a == last {
          break;
        }
        a, pa := a + 1, pa + 1;
      }
      MappedAccess(m, M(), d, lo, n, frame, perm);
      r := Mapped;
    }

    // kfree a present page and clear its entry, entry i of table t.
    method DropPage(t: nat, i: nat, f: nat, ghost d: nat, ghost v: nat)
      requires HasTable(M(), d, v) && v < UTOP && t == TableOf(M(), d, v) && i == Ptx(v)
      requires Lookup(M(), d, v).Entry? && f == Lookup(M(), d, v).frame
      modifies this
      ensures M() == Give(ClearLeaf(old(M()), d, v), f) && Tables(M(), d) == Tables(old(M()), d)
    {
      hide Lookup, EntryAt, TableOf, Tables;
      SameTables(M(), d, v);
      ghost var m1 := ClearLeaf(M(), d, v);
      LeafKnown(M(), d, v);
      ClearKeeps(M(), d, v);
      Split(v, v);
      pages := pages[t := Table(pages[t].entries[i := Absent])];
      owner := owner[f := Other];
      assert M() == m1;
      Kfree(f);
    }

    // Free every page of [newsz, oldsz), stepping over missing tables; n is the
    // number of turns of the loop.
    method DeallocUvm(d: nat, oldsz: nat, newsz: nat) returns (r: nat, ghost n: nat)
      requires Valid() && d in spaces && oldsz <= KERNBASE
      modifies this
      ensures r == if newsz >= oldsz then oldsz else newsz
      ensures newsz >= oldsz ==> M() == old(M())
      ensures newsz < oldsz ==> FreeRel(old(M()), M(), d, RoundUp(newsz) / PGSIZE, RoundUp(oldsz) / PGSIZE)
      ensures newsz < oldsz ==> Address(Tables(old(M()), d), RoundUp(newsz), n) >= oldsz
    {
      hide Inv, Lookup, FreeRel, EntryAt, Tables, Address, Skip, Bump, Pdx, Ptx;
      n := 0;
      if newsz >= oldsz {
        return oldsz, n;
      }
      var a := RoundUp(newsz);
      ghost var m, lo, hi := M(), a / PGSIZE, RoundUp(oldsz) / PGSIZE;
      ghost var tables := Tables(m, d);
      FreeStart(m, d, lo);
      NoTurn(tables, a);
      while a < oldsz
        invariant a % PGSIZE == 0 && RoundUp(newsz) <= a
        invariant FreeRel(m, M(), d, lo, if a / PGSIZE < hi then a / PGSIZE else hi) && Inv(M()) && d in spaces
        invariant Tables(M(), d) == tables && a == Address(tables, RoundUp(newsz), n)
        decreases oldsz - a
      {
        ghost var v, a0 := a / PGSIZE, a;
        var t := Walk(d, a / PGSIZE, false);
        HasEntry(M(), d, v);
        if t == 0 {
          SkipTable(m, M(), d, lo, v, hi);
          SkipBelow(a);
          a := Skip(a);
        } else {
          TableKnown(M(), d, v);
          Split(v, v);
          var e := EntryOf(t, Ptx(a / PGSIZE));
          if e.Entry? {
            FreePage(m, M(), d, lo, v);
            DropPage(t, Ptx(a / PGSIZE), e.frame, d, v);
          } else {
            FreeSkip(m, M(), d, lo, v, v + 1);
          }
        }
        FreeBasics(m, M(), d, lo);
        TurnStep(tables, RoundUp(newsz), n, a0, a);
        a := Bump(a);
        n := n + 1;
      }
      r := newsz;
    }

    method EntryOf(t: nat, i: nat) returns (e: Pte)
      requires IsTable(M(), t) && i < NENTRIES
      ensures e == EntryAt(M(), t, i)
    {
      e := pages[t].entries[i];
    }

    // One iteration of allocuvm's loop: `mem` is 0 if kalloc failed, and the
    // frame still in hand if mappages did.
    method NewPage(d: nat, a: nat, ghost m: Mem, ghost lo: nat) returns (mem: nat, r: MapResult)
      requires AllocRel(m, M(), d, lo, a / PGSIZE, 0) && d in m.spaces && d in spaces && lo <= a / PGSIZE < UTOP
      requires a % PGSIZE == 0
      modifies this
      ensures r.Mapped? ==> AllocRel(m, M(), d, lo, a / PGSIZE + 1, 0)
      ensures !r.Mapped? ==> AllocRel(m, M(), d, lo, a / PGSIZE, mem) && (mem == 0 || mem in m.owner)
      ensures r.Remap? ==> Lookup(m, d, a / PGSIZE).Entry?
      ensures r.Mapped? ==> Tables(M(), d) == Tables(old(M()), d) + Indices(a / PGSIZE, 1)
      ensures r.Mapped? ==> |free| + PagesNeed(Tables(old(M()), d), a / PGSIZE, 1) == |old(free)|
      ensures r.NoMemory? ==> |old(free)| < PagesNeed(Tables(old(M()), d), a / PGSIZE, 1)
    {
      hide Inv, Lookup, AllocRel, MapRel, EntryAt, Tables, Indices, Missing;
      ghost var v, m1 := a / PGSIZE, M();
      AllocBasics(m, m1, d, lo, v, 0);
      mem := Kalloc();
      if mem == 0 {
        return mem, NoMemory;
      }
      TakenTables(m1, d, Data(ZEROS));
      pages := pages[mem := Data(ZEROS)];
      AllocTake(m, m1, d, lo, v);
      ghost var m2, n := M(), 0;
      AllocBasics(m, m2, d, lo, v, mem);
      r, n := MapPages(d, a, PGSIZE, mem, PTE_W + PTE_U);
      AllocMap(m, m2, M(), d, lo, v, mem, n);
    }

    // allocuvm's way out: free the pages and the frame in hand.
    method UndoAlloc(d: nat, oldsz: nat, newsz: nat, mem: nat, ghost m: Mem, ghost v: nat)
      requires oldsz < newsz < MMAPBASE && d in m.spaces && RoundUp(oldsz) / PGSIZE <= v <= RoundUp(newsz) / PGSIZE
      requires AllocRel(m, M(), d, RoundUp(oldsz) / PGSIZE, v, mem) && (mem == 0 || mem in m.owner)
      modifies this
      ensures Valid()
      ensures Clear(m, d, RoundUp(oldsz) / PGSIZE, RoundUp(newsz) / PGSIZE) ==> Grew(m, M(), d)
    {
      hide Inv, Lookup, AllocRel, Grew, FreeRel, EntryAt, Clear, Tables, Address;
      ghost var m1, lo := M(), RoundUp(oldsz) / PGSIZE;
      AllocBasics(m, m1, d, lo, v, mem);
      var _, _ := DeallocUvm(d, newsz, oldsz);
      FreeBasics(m1, M(), d, lo);
      AllocUndone(m, m1, M(), d, lo, v, RoundUp(newsz) / PGSIZE, mem);
      if mem != 0 {
        Kfree(mem);
      }
    }

    // Add zeroed pages for [oldsz, newsz), or undo and return 0. ok is false when
    // mappages panicked, which takes a page of the range that is mapped already.
    method AllocUvm(d: nat, oldsz: nat, newsz: nat) returns (r: nat, ok: bool)
      requires Valid() && d in spaces
      modifies this
      ensures newsz >= MMAPBASE ==> ok && r == 0 && M() == old(M())
      ensures oldsz > newsz && newsz < MMAPBASE ==> ok && r == oldsz && M() == old(M())
      ensures Valid() && (ok && oldsz <= newsz < MMAPBASE ==> r == newsz || r == 0)
      ensures ok && oldsz <= newsz < MMAPBASE && r == newsz && r != 0 ==>
                AllocRel(old(M()), M(), d, RoundUp(oldsz) / PGSIZE, RoundUp(newsz) / PGSIZE, 0)
      ensures ok && oldsz <= newsz < MMAPBASE && r == newsz && r != 0 ==>
                forall w :: RoundUp(oldsz) / PGSIZE <= w < RoundUp(newsz) / PGSIZE ==> AccessAt(M(), d, w) == Allowed(true, true)
      ensures Clear(old(M()), d, RoundUp(oldsz) / PGSIZE, RoundUp(newsz) / PGSIZE) ==>
                ok && (oldsz <= newsz < MMAPBASE && r == 0 ==> Grew(old(M()), M(), d))
      ensures ok && oldsz <= newsz < MMAPBASE && newsz > 0 ==>
                (r == 0 <==> |old(free)| < PagesNeed(Tables(old(M()), d), RoundUp(oldsz) / PGSIZE, Pages(oldsz, newsz)))
    {
      hide Inv, Lookup, AllocRel, Grew, FreeRel, MapRel, EntryAt, Clear, Tables, Indices, PagesNeed, AccessAt;
      if newsz >= MMAPBASE {
        return 0, true;
      }
      if newsz < oldsz {
        return oldsz, true;
      }
      var a := RoundUp(oldsz);
      ghost var m, lo, top := M(), a / PGSIZE, RoundUp(newsz) / PGSIZE;
      ghost var tables := Tables(m, d);
      AllocStart(m, d, lo);
      GrewSame(m, d);
      NothingNeeded(tables, lo);
      while a < newsz
        invariant a % PGSIZE == 0 && RoundUp(oldsz) <= a && (a < newsz + PGSIZE || a == RoundUp(oldsz))
        invariant AllocRel(m, M(), d, lo, a / PGSIZE, 0) && Inv(M()) && spaces == m.spaces
        invariant newsz == 0 ==> M() == m
        invariant Tables(M(), d) == tables + Indices(lo, a / PGSIZE - lo)
        invariant |free| + PagesNeed(tables, lo, a / PGSIZE - lo) == |m.free|
      {
        ghost var v := a / PGSIZE;
        PagesNeedStep(tables, lo, v - lo);
        PagesNeedGrows(tables, lo, v + 1 - lo, top - lo);
        var mem, res := NewPage(d, a, m, lo);
        if res.Remap? {
          AllocBasics(m, M(), d, lo, v, mem);
          NotClear(m, d, lo, top, v);
          return 0, false;
        }
        if res.NoMemory? {
          UndoAlloc(d, oldsz, newsz, mem, m, v);
          return 0, true;
        }
        AllocBasics(m, M(), d, lo, v + 1, 0);
        a := a + PGSIZE;
      }
      AllocAccess(m, M(), d, lo, a / PGSIZE);
      r, ok := newsz, true;
    }

    // Free the user pages below MMAPBASE, every table, and the directory.
    method FreeVm(d: nat)
      requires Valid() && d in spaces
      modifies this
      ensures GoneRel(old(M()), M(), d, MMAPTOP)
    {
      hide Inv, Lookup, FreeRel, DropRel, GoneRel;
      ghost var m := M();
      var _, _ := DeallocUvm(d, MMAPBASE, 0);
      ghost var m1 := M();
      FreeBasics(m, m1, d, 0);
      DropStart(m1, d);
      owner := Retire(m1, d).owner;
      spaces := spaces - {d};
      var i := 0;
      while i < NENTRIES
        invariant 0 <= i <= NENTRIES && DropRel(m1, M(), d, i)
      {
        DropEntry(m1, M(), d, i, i);
        var e := EntryOf(d, i);
        if e.Entry? {
          DropTable(m1, M(), d, i);
          DropBasics(m1, M(), d, i);
          Kfree(e.frame);
        } else {
          DropSkip(m1, M(), d, i);
        }
        i := i + 1;
      }
      DropDone(m, m1, M(), d, MMAPTOP);
      DropBasics(m1, M(), d, i);
      Kfree(d);
    }

    // A directory with the kernel's mappings, or 0.
    method SetupKvm(kmap: seq<Region>) returns (d: nat)
      requires Valid() && KmapOk(kmap)
      modifies this
      ensures d != 0 ==> KernelRel(old(M()), M(), d, kmap, |kmap|)
      ensures d != 0 ==> forall v :: UTOP <= v < NPAGES ==> AccessAt(M(), d, v) == AccessOf(KernelAt(kmap, |kmap|, v))
      ensures d == 0 ==> Restored(old(M()), M())
      ensures d == 0 <==> |old(free)| < KernelNeed(kmap)
      ensures d != 0 ==> |free| + KernelNeed(kmap) == |old(free)| && Tables(M(), d) == KernelIndices(kmap, |kmap|)
    {
      hide Inv, Lookup, BuiltRel, MapRel, GoneRel, KernelAt, Restored, Tables, KernelIndices, Missing, Indices, AccessAt;
      ghost var m := M();
      RestoredSame(m);
      d := Kalloc();
      if d == 0 {
        return 0;
      }
      BuildStart(m);
      pages := pages[d := Blank()];
      owner := owner[d := Dir];
      spaces := spaces + {d};
      assert M() == Adopt(Fill(Take(m), d, Blank()), d);
      BlankTables(M(), d);
      NoKernelIndices(kmap);
      KernelStart(m, M(), d, kmap);
      var k := 0;
      while k < |kmap|
        invariant 0 <= k <= |kmap| && KernelRel(m, M(), d, kmap, k)
        invariant Tables(M(), d) == KernelIndices(kmap, k) && |free| + 1 + |KernelIndices(kmap, k)| == |m.free|
      {
        ghost var m1 := M();
        var r := kmap[k];
        KernelIndexStep(kmap, k);
        KernelIndexGrows(kmap, k + 1, |kmap|);
        BuiltSpace(m, m1, d, 0, 0);
        forall v | r.page <= v < r.page + r.count
          ensures Lookup(m1, d, v) == Absent
        {
          KernelApart(kmap, k, k, v);
        }
        var res, n := MapPages(d, r.page * PGSIZE, r.count * PGSIZE, r.frame, r.perm);
        if !res.Mapped? {
          assert res.NoMemory?;
          MissingGrows(KernelIndices(kmap, k), r.page, n + 1, r.count);
          BuildKernel(m, m1, M(), d, r.page, n, r.frame, OrP(r.perm));
          ghost var m2 := M();
          BuiltSpace(m, m2, d, 0, 0);
          FreeVm(d);
          BuildUndo(m, m2, M(), d, 0, MMAPTOP);
          return 0;
        }
        KernelStep(m, m1, M(), d, kmap, k);
        k := k + 1;
      }
      BuiltNotNull(m, M(), d);
      KernelAccess(m, M(), d, kmap);
    }

    // An address space with the kernel's mappings gets a page at MMAPBASE, as
    // map_anon_page maps it, and is freed: frame g does not come back.
    method FreeVmLosesPage(dataPage: nat) returns (g: nat)
      requires Valid() && 256 < dataPage < 0xe000 && |free| >= 67
      modifies this
      ensures g in old(owner) && old(owner)[g] == Free && g in owner && owner[g] == Other
      ensures Lost(old(M()), M())
    {
      hide Inv, Lookup, BuiltRel, MapRel, GoneRel, KernelAt, Lost, Restored, Tables, KernelIndices, Indices, Missing, Clear;
      ghost var m := M();
      var kmap := Kmap(dataPage);
      KmapIsOk(dataPage);
      KernelTableCount(dataPage);
      var d := SetupKvm(kmap);
      ghost var m1 := M();
      BuiltSpace(m, m1, d, 0, 0);
      BuildTake(m, m1, d, 0, ZEROS);
      TakenTables(m1, d, Data(ZEROS));
      g := Kalloc();
      pages := pages[g := Data(ZEROS)];
      ghost var m2 := M();
      BuiltSpace(m, m2, d, 0, g);
      OneTable(Tables(m2, d), MMAPTOP);
      var r, n := MapPages(d, MMAPBASE, PGSIZE, g, PTE_W + PTE_U);
      ghost var m3 := M();
      MapBasics(m2, m3, d, MMAPTOP, n, g, 7);
      FreeVm(d);
      MappedPageLost(m, m1, m3, M(), d, g, kmap, 7);
    }

    // A copy of the first sz bytes of src on fresh frames, or 0 with every
    // frame below MMAPBASE given back. ok is false when a page of src is
    // missing, which is a panic.
    method CopyUvm(src: nat, sz: nat, kmap: seq<Region>) returns (d: nat, ok: bool)
      requires Valid() && KmapOk(kmap) && src in spaces && sz <= KERNBASE
      modifies this
      ensures !ok ==> Valid() && exists v :: 0 <= v < RoundUp(sz) / PGSIZE && Lookup(old(M()), src, v) == Absent
      ensures ok && d != 0 ==> CopyRel(old(M()), M(), src, d, kmap, RoundUp(sz) / PGSIZE, 0)
      ensures ok && d != 0 ==> forall v :: 0 <= v < RoundUp(sz) / PGSIZE ==> AccessAt(M(), d, v) == AccessAt(old(M()), src, v)
      ensures ok && d == 0 ==> Lost(old(M()), M())
      ensures ok && d == 0 && sz <= MMAPBASE ==> Restored(old(M()), M())
      ensures ok ==> (d == 0 <==> |old(free)| < CopyNeed(kmap, RoundUp(sz) / PGSIZE))
    {
      hide Inv, Lookup, BuiltRel, CopyRel, GoneRel, Restored, MapRel, Lost, Tables, KernelIndices, Indices, PagesNeed, AccessAt;
      ghost var kernel := KernelIndices(kmap, |kmap|);
      NothingNeeded(kernel, 0);
      PagesNeedGrows(kernel, 0, 0, RoundUp(sz) / PGSIZE);
      ghost var m := M();
      d := SetupKvm(kmap);
      if d == 0 {
        RestoredLost(m, M());
        return 0, true;
      }
      CopyStart(m, M(), src, d, kmap);
      BuiltNotNull(m, M(), d);
      var i := 0;
      while i < sz
        invariant i % PGSIZE == 0 && i < sz + PGSIZE && d != 0
        invariant CopyRel(m, M(), src, d, kmap, i / PGSIZE, 0)
        invariant Tables(M(), d) == kernel + Indices(0, i / PGSIZE)
        invariant |free| + CopyNeed(kmap, i / PGSIZE) == |m.free|
      {
        PagesNeedStep(kernel, 0, i / PGSIZE);
        PagesNeedGrows(kernel, 0, i / PGSIZE + 1, RoundUp(sz) / PGSIZE);
        var res := CopyPage(src, i, d, kmap, m);
        ghost var m1 := M();
        CopyBasics(m, m1, src, d, kmap, if res.Copied? then i / PGSIZE + 1 else i / PGSIZE, 0);
        if res.NoPage? {
          BuiltSpace(m, m1, d, i / PGSIZE, 0);
          return d, false;
        }
        if res.Failed? {
          BuiltSpace(m, m1, d, i / PGSIZE, 0);
          FreeVm(d);
          BuildLost(m, m1, M(), d, i / PGSIZE, MMAPTOP);
          if sz <= MMAPBASE {
            BuildUndo(m, m1, M(), d, i / PGSIZE, MMAPTOP);
          }
          return 0, true;
        }
        i := i + PGSIZE;
      }
      CopyAccess(m, M(), src, d, kmap, i / PGSIZE);
      ok := true;
    }

    // One iteration of copyuvm's loop; on failure the page's frame is freed.
    method CopyPage(src: nat, i: nat, d: nat, kmap: seq<Region>, ghost m: Mem) returns (r: CopyResult)
      requires CopyRel(m, M(), src, d, kmap, i / PGSIZE, 0) && src in m.spaces && i < KERNBASE && i % PGSIZE == 0
      modifies this
      ensures CopyRel(m, M(), src, d, kmap, i / PGSIZE + if r.Copied? then 1 else 0, 0)
      ensures r.NoPage? <==> Lookup(m, src, i / PGSIZE) == Absent
      ensures r.Copied? ==> Tables(M(), d) == Tables(old(M()), d) + Indices(i / PGSIZE, 1)
      ensures r.Copied? ==> |free| + PagesNeed(Tables(old(M()), d), i / PGSIZE, 1) == |old(free)|
      ensures r.Failed? ==> |old(free)| < PagesNeed(Tables(old(M()), d), i / PGSIZE, 1)
    {
      hide Inv, Lookup, BuiltRel, CopyRel, MapRel, EntryAt, Clear, Tables, Indices, Missing;
      ghost var m1, v := M(), i / PGSIZE;
      CopyBasics(m, m1, src, d, kmap, v, 0);
      BuiltSpace(m, m1, d, v, 0);
      var t := Walk(src, i / PGSIZE, false);
      if t == 0 {
        NoTable(m1, src, v, v);
        return NoPage;
      }
      TableKnown(m1, src, v);
      Split(v, v);
      var e := EntryOf(t, Ptx(i / PGSIZE));
      if e.Absent? {
        return NoPage;
      }
      r := CopyFrame(src, i, d, kmap, e, m);
    }

    // The rest of the iteration, for a page that is present.
    method CopyFrame(ghost src: nat, i: nat, d: nat, ghost kmap: seq<Region>, e: Pte, ghost m: Mem) returns (r: CopyResult)
      requires CopyRel(m, M(), src, d, kmap, i / PGSIZE, 0) && src in m.spaces && i < KERNBASE && i % PGSIZE == 0
      requires e == Lookup(m, src, i / PGSIZE) && e.Entry?
      modifies this
      ensures CopyRel(m, M(), src, d, kmap, i / PGSIZE + if r.Copied? then 1 else 0, 0) && !r.NoPage?
      ensures r.Copied? ==> Tables(M(), d) == Tables(old(M()), d) + Indices(i / PGSIZE, 1)
      ensures r.Copied? ==> |free| + PagesNeed(Tables(old(M()), d), i / PGSIZE, 1) == |old(free)|
      ensures r.Failed? ==> |old(free)| < PagesNeed(Tables(old(M()), d), i / PGSIZE, 1)
    {
      hide Inv, Lookup, BuiltRel, CopyRel, MapRel, EntryAt, Clear, Tables, Indices, Missing;
      ghost var m1, v := M(), i / PGSIZE;
      CopyBasics(m, m1, src, d, kmap, v, 0);
      BuiltSpace(m, m1, d, v, 0);
      CopySource(m, m1, src, d, v);
      var mem := Kalloc();
      if mem == 0 {
        return Failed;
      }
      TakenTables(m1, d, Data(pages[e.frame].contents));
      CopyTake(m, m1, src, d, kmap, v, pages[e.frame].contents);
      pages := pages[mem := Data(pages[e.frame].contents)];
      ghost var m2 := M();
      CopyBasics(m, m2, src, d, kmap, v, mem);
      BuiltSpace(m, m2, d, v, mem);
      var res, n := MapPages(d, i, PGSIZE, mem, e.flags);
      CopyMap(m, m2, M(), src, d, kmap, v, mem, n);
      if !res.Mapped? {
        assert res.NoMemory?;
        ghost var m3 := M();
        CopyBasics(m, m3, src, d, kmap, v, mem);
        BuiltSpace(m, m3, d, v, mem);
        CopyGive(m, m3, src, d, kmap, v, mem);
        Kfree(mem);
        return Failed;
      }
      r := Copied;
    }
  }

  lemma OpenEntry(m: Mem, d: nat, v: nat)
    requires Inv(m) && d in m.spaces && v < NPAGES && EntryAt(m, d, Pdx(v)).Entry?
    ensures HasW(EntryAt(m, d, Pdx(v)).flags) && HasU(EntryAt(m, d, Pdx(v)).flags)
  {
    Split(v, v);
    assert PdeOk(m, d, Pdx(v));
  }

  // PTE_P adds no permission.
  lemma OrPKeeps(perm: nat)
    ensures HasU(OrP(perm)) == HasU(perm) && HasW(OrP(perm)) == HasW(perm)
  {
    assert OrP(perm) == 2 * (perm / 2) + 1;
    assert OrP(perm) / 2 == perm / 2;
  }

  lemma MappedAccess(m: Mem, m': Mem, d: nat, lo: nat, n: nat, frame: nat, perm: nat)
    requires MapRel(m, m', d, lo, n, frame, OrP(perm)) && d in m.spaces && lo + n <= NPAGES
    ensures forall w :: lo <= w < lo + n ==> AccessAt(m', d, w) == Allowed(HasU(perm), HasW(perm))
  {
    hide Inv, Lookup, AccessAt, HasU, HasW, OrP;
    OrPKeeps(perm);
    forall w | lo <= w < lo + n
      ensures AccessAt(m', d, w) == Allowed(HasU(perm), HasW(perm))
    {
      AccessIs(m', d, w);
    }
  }

  lemma AllocAccess(m: Mem, m': Mem, d: nat, lo: nat, hi: nat)
    requires AllocRel(m, m', d, lo, hi, 0) && d in m.spaces && hi <= NPAGES
    ensures forall w :: lo <= w < hi ==> AccessAt(m', d, w) == Allowed(true, true)
  {
    hide Inv, Lookup, AccessAt;
    forall w | lo <= w < hi
      ensures AccessAt(m', d, w) == Allowed(true, true)
    {
      assert FreshAt(m, m', d, w);
      AccessIs(m', d, w);
    }
  }

  lemma KernelAccess(m: Mem, m': Mem, d: nat, kmap: seq<Region>)
    requires KernelRel(m, m', d, kmap, |kmap|)
    ensures forall v :: UTOP <= v < NPAGES ==> AccessAt(m', d, v) == AccessOf(KernelAt(kmap, |kmap|, v))
  {
    hide Inv, Lookup, AccessAt, KernelAt;
    forall v | UTOP <= v < NPAGES
      ensures AccessAt(m', d, v) == AccessOf(KernelAt(kmap, |kmap|, v))
    {
      AccessIs(m', d, v);
    }
  }

  lemma CopyAccess(m: Mem, m': Mem, src: nat, d: nat, kmap: seq<Region>, n: nat)
    requires CopyRel(m, m', src, d, kmap, n, 0) && src in m.spaces && n <= UTOP
    ensures forall v :: 0 <= v < n ==> AccessAt(m', d, v) == AccessAt(m, src, v)
  {
    hide Inv, Lookup, AccessAt, HasU, HasW, OrP;
    forall v | 0 <= v < n
      ensures AccessAt(m', d, v) == AccessAt(m, src, v)
    {
      assert CopyAt(m, m', src, d, v);
      OrPKeeps(Lookup(m, src, v).flags);
      AccessIs(m', d, v);
      AccessIs(m, src, v);
    }
  }

  // Above KERNBASE a directory from setupkvm is closed to user code, and what is
  // mapped there is writable but for the kernel's text.
  lemma KernelClosed(m: Mem, m': Mem, d: nat, dataPage: nat, v: nat)
    requires 256 < dataPage < 0xe000 && KernelRel(m, m', d, Kmap(dataPage), 4) && UTOP <= v < NPAGES
    ensures AccessAt(m', d, v).Allowed? ==>
              !AccessAt(m', d, v).user && (AccessAt(m', d, v).write <==> !(UTOP + 256 <= v < UTOP + dataPage))
  {
    hide Inv, Lookup, AccessAt;
    var k := Kmap(dataPage);
    KernelAccess(m, m', d, k);
    assert KernelAt(k, 1, v) == if Within(k[0], v) then Entry(k[0].frame + (v - k[0].page), 3) else KernelAt(k, 0, v);
    assert KernelAt(k, 3, v) == if Within(k[2], v) then Entry(k[2].frame + (v - k[2].page), 3) else KernelAt(k, 2, v);
    assert AccessAt(m', d, v) == AccessOf(KernelAt(k, 4, v));
  }

  // The pages between two sizes, rounded up.
  function Pages(oldsz: nat, newsz: nat): (r: nat) {
    if newsz < oldsz then 0 else RoundUp(newsz) / PGSIZE - RoundUp(oldsz) / PGSIZE
  }

  // The frames that a copy of n pages takes.
  function CopyNeed(kmap: seq<Region>, n: nat): (r: nat) {
    KernelNeed(kmap) + PagesNeed(KernelIndices(kmap, |kmap|), 0, n)
  }

  // walkpgdir's new table.
  lemma WalkTables(m: Mem, d: nat, i: nat, flags: nat)
    requires Inv(m) && d in m.spaces && i < NENTRIES && EntryAt(m, d, i) == Absent && m.free != []
    ensures var t := m.free[0];
            var m1 := Fill(Take(m), t, Blank());
            && IsTable(m1, d)
            && var m2 := AddTable(m1, d, i, t, flags);
               Tables(m2, d) == Tables(m, d) + {i} && i !in Tables(m, d) && |m2.free| == |m.free| - 1
  {
    hide Inv, Lookup, FreeOk, Tables;
    InvBasics(m, d);
    TakenTables(m, d, Blank());
    var t := m.free[0];
    TakeKeeps(m);
    FillKeeps(Take(m), t, Blank());
    var m1 := Fill(Take(m), t, Blank());
    InvBasics(m1, d);
    assert EntryAt(m1, d, i) == EntryAt(m, d, i);
    NewTable(m1, d, i, t, flags);
  }

  // kalloc touches no directory.
  lemma TakenTables(m: Mem, d: nat, p: Page)
    requires Inv(m) && d in m.spaces && m.free != []
    ensures Tables(Fill(Take(m), m.free[0], p), d) == Tables(m, d)
    ensures |Fill(Take(m), m.free[0], p).free| == |m.free| - 1
  {
    hide Inv, Tables;
    InvBasics(m, d);
    TakeKeeps(m);
    ElsewhereTables(m, Fill(Take(m), m.free[0], p), d);
  }

  lemma OneTable(tables: set<nat>, v: nat)
    ensures |Missing(tables, v, 1)| <= 1
  {
    NothingNeeded(tables, v);
    MissingStep(tables, v, 0);
  }

  lemma NoKernelIndices(kmap: seq<Region>)
    ensures KernelIndices(kmap, 0) == {}
  {}

  lemma TableNotNull(m: Mem, d: nat, v: nat)
    requires HasTable(m, d, v)
    ensures TableOf(m, d, v) != 0
  {}

  lemma GrewBasics(m: Mem, m': Mem, d: nat)
    requires Grew(m, m', d)
    ensures Inv(m') && m'.spaces == m.spaces
  {}

  lemma MapBasics(m: Mem, m': Mem, d: nat, lo: nat, n: nat, frame: nat, flags: nat)
    requires MapRel(m, m', d, lo, n, frame, flags)
    ensures Inv(m') && m'.spaces == m.spaces
  {}

  // With the table of page v missing, nothing is mapped up to the next one.
  lemma SkipTable(m: Mem, m': Mem, d: nat, lo: nat, v: nat, hi: nat)
    requires FreeRel(m, m', d, lo, v) && lo <= v < hi <= UTOP && d in m.spaces && EntryAt(m', d, Pdx(v)) == Absent
    ensures var b := (Pdx(v) + 1) * NENTRIES;
            FreeRel(m, m', d, lo, if b < hi then b else hi)
  {
    hide Lookup;
    var b := (Pdx(v) + 1) * NENTRIES;
    var top := if b < hi then b else hi;
    forall w | v <= w < top
      ensures Lookup(m', d, w) == Absent
    {
      NoTable(m', d, v, w);
    }
    FreeSkip(m, m', d, lo, v, top);
  }

  lemma LeafKnown(m: Mem, d: nat, v: nat)
    requires Inv(m) && d in m.spaces && v < UTOP && Lookup(m, d, v).Entry?
    ensures Lookup(m, d, v).frame in m.owner && m.owner[Lookup(m, d, v).frame] == Leaf(d, v) && Lookup(m, d, v).frame != 0
  {
    assert LeafOk(m, d, v);
  }

  lemma FreeBasics(m: Mem, m': Mem, d: nat, lo: nat)
    requires Inv(m)
    ensures forall hi :: FreeRel(m, m', d, lo, hi) ==> Inv(m') && m'.spaces == m.spaces
  {}

  lemma AllocBasics(m: Mem, m': Mem, d: nat, lo: nat, hi: nat, p: nat)
    requires AllocRel(m, m', d, lo, hi, p)
    ensures Inv(m') && m'.spaces == m.spaces && m'.owner.Keys == m.owner.Keys
    ensures forall w :: d in m.spaces && hi <= w < NPAGES ==> Lookup(m', d, w) == Lookup(m, d, w)
  {}

  lemma DropBasics(m: Mem, m': Mem, d: nat, i: nat)
    requires DropRel(m, m', d, i)
    ensures Inv(m')
  {}

  lemma RestoredSame(m: Mem)
    requires Inv(m)
    ensures Restored(m, m)
  {}

  lemma KernelStart(m: Mem, m': Mem, d: nat, kmap: seq<Region>)
    requires BuiltRel(m, m', d, 0, 0) && forall v :: 0 <= v < NPAGES ==> Lookup(m', d, v) == Absent
    ensures KernelRel(m, m', d, kmap, 0)
  {}

  lemma BuiltNotNull(m: Mem, m': Mem, d: nat)
    requires BuiltRel(m, m', d, 0, 0)
    ensures d != 0
  {}

  lemma CopyStart(m: Mem, m': Mem, src: nat, d: nat, kmap: seq<Region>)
    requires KernelRel(m, m', d, kmap, |kmap|)
    ensures CopyRel(m, m', src, d, kmap, 0, 0) && BuiltRel(m, m', d, 0, 0)
  {}

  lemma CopyBasics(m: Mem, m': Mem, src: nat, d: nat, kmap: seq<Region>, n: nat, p: nat)
    requires CopyRel(m, m', src, d, kmap, n, p)
    ensures BuiltRel(m, m', d, n, p)
  {}

  // The source page is where it was and holds what it held.
  lemma CopySource(m: Mem, m': Mem, src: nat, d: nat, v: nat)
    requires BuiltRel(m, m', d, v, 0) && src in m.spaces && v < UTOP && Lookup(m, src, v).Entry?
    ensures var e := Lookup(m', src, v);
            && e == Lookup(m, src, v) && src in m'.spaces && EntryAt(m', src, Pdx(v)).Entry?
            && e.frame in m'.pages && e.frame in m.pages && m.pages[e.frame].Data? && m'.pages[e.frame] == m.pages[e.frame]
            && e.frame in m'.owner && m'.owner[e.frame] != Free
  {
    hide FreeOk;
    assert LeafOk(m, src, v);
    assert BuiltAt(m, m', d, v, 0, Lookup(m, src, v).frame);
  }

  lemma CopyGive(m: Mem, m1: Mem, src: nat, d: nat, kmap: seq<Region>, n: nat, g: nat)
    requires CopyRel(m, m1, src, d, kmap, n, g) && g != 0 && g in m.owner && n <= UTOP
    ensures g in m1.owner && m1.owner[g] == Other && CopyRel(m, Give(m1, g), src, d, kmap, n, 0)
  {
    hide Lookup, FreeOk, BuiltRel;
    BuildGive(m, m1, d, n, g);
    BuiltSpace(m, m1, d, n, g);
    var m2 := Give(m1, g);
    GiveKeeps(m1, g);
    forall v | 0 <= v < n
      ensures CopyAt(m, m2, src, d, v)
    {
      assert CopyAt(m, m1, src, d, v) && LeafOk(m1, d, v);
    }
  }

  lemma MapBeyond(m: Mem, m': Mem, d: nat, lo: nat, n: nat, frame: nat, flags: nat)
    requires MapRel(m, m', d, lo, n, frame, flags) && d in m.spaces && lo + n < NPAGES
    ensures Lookup(m', d, lo + n) == Lookup(m, d, lo + n)
  {
    hide Lookup;
  }

  lemma NotClear(m: Mem, d: nat, lo: nat, hi: nat, w: nat)
    requires lo <= w < hi && Lookup(m, d, w).Entry?
    ensures !Clear(m, d, lo, hi)
  {}

  // Clearing a page touches no directory.
  lemma SameTables(m: Mem, d: nat, v: nat)
    requires HasTable(m, d, v) && v < UTOP && Lookup(m, d, v).Entry?
    ensures Tables(Give(ClearLeaf(m, d, v), Lookup(m, d, v).frame), d) == Tables(m, d)
  {
    var f := Lookup(m, d, v).frame;
    var m' := Give(ClearLeaf(m, d, v), f);
    assert IsTable(m, d) && LeafOk(m, d, v);
    TableKnown(m, d, v);
    forall i | 0 <= i < NENTRIES
      ensures EntryAt(m', d, i) == EntryAt(m, d, i)
    {
      PutAt(m, d, v, Absent, d, i);
    }
  }

  lemma HasEntry(m: Mem, d: nat, v: nat)
    requires v < NPAGES
    ensures Pdx(v) in Tables(m, d) <==> EntryAt(m, d, Pdx(v)).Entry?
  {
    Split(v, v);
  }

  lemma SkipBelow(a: nat)
    requires a < KERNBASE && a % PGSIZE == 0
    ensures Skip(a) / PGSIZE + 1 == (Pdx(a / PGSIZE) + 1) * NENTRIES && a <= Skip(a) <= KERNBASE && Skip(a) % PGSIZE == 0
  {
    var b := (Pdx(a / PGSIZE) + 1) * NENTRIES;
    assert a / PGSIZE < b <= UTOP;
    Wraps(b * PGSIZE - PGSIZE);
  }

  lemma Wraps(x: nat)
    requires x < SPACE
    ensures (x + SPACE) % SPACE == x
  {}

  lemma NoTurn(tables: set<nat>, start: nat)
    ensures Address(tables, start, 0) == start
  {}

  // One turn of deallocuvm's loop below KERNBASE.
  lemma TurnStep(tables: set<nat>, start: nat, n: nat, a: nat, b: nat)
    requires a == Address(tables, start, n) && b == (if Pdx(a / PGSIZE) in tables then a else Skip(a))
    requires b <= KERNBASE && b % PGSIZE == 0
    ensures Address(tables, start, n + 1) == Bump(b) == b + PGSIZE && Bump(b) % PGSIZE == 0
    ensures Bump(b) / PGSIZE == b / PGSIZE + 1
  {}

  // allocuvm's error path: the frame in hand is still in hand, and if the range
  // was clear nothing but tables is left.
  lemma AllocUndone(m: Mem, m1: Mem, m2: Mem, d: nat, lo: nat, hi: nat, top: nat, p: nat)
    requires AllocRel(m, m1, d, lo, hi, p) && FreeRel(m1, m2, d, lo, top) && d in m.spaces
    requires lo <= hi <= top <= UTOP && (p == 0 || p in m.owner)
    ensures p != 0 ==> p in m2.owner && m2.owner[p] == Other
    ensures Clear(m, d, lo, top) ==> Grew(m, if p == 0 then m2 else Give(m2, p), d)
  {
    hide Lookup, FreeOk, Grew;
    if p != 0 {
      assert AllocAt(m, m1, d, lo, hi, p, p) && FreedAt(m1, m2, d, lo, top, p);
    }
    if Clear(m, d, lo, top) {
      AllocUndo(m, m1, m2, d, lo, hi, top, p);
    }
    assert 0 !in m.pages;
  }
}
