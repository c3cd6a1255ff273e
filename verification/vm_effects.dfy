/**
 What walkpgdir, mappages and deallocuvm do to the whole memory, as relations
 between memories that their loops build up page by page.
 */
module VmEffects {
  import opened VmModel
  import opened VmTables

  // perm | PTE_P.
  function OrP(perm: nat): (r: nat) {
    perm - perm % 2 + 1
  }

  // The flat maps agree, for every directory.
  ghost predicate SameMaps(m: Mem, m': Mem) {
    m'.spaces == m.spaces
    && forall d, v :: d in m.spaces && 0 <= v < NPAGES ==> Lookup(m', d, v) == Lookup(m, d, v)
  }

  // Frame f keeps its owner and its data, or was free and is now a table of d.
  predicate GrewAt(m: Mem, m': Mem, d: nat, f: nat)
    requires f in m.owner && f in m'.owner && f in m.pages && f in m'.pages
  {
    && (m'.owner[f] == m.owner[f] || (m.owner[f] == Free && m'.owner[f].Tab? && m'.owner[f].dir == d))
    && (m.owner[f] != Free && m.pages[f].Data? ==> m'.pages[f] == m.pages[f])
  }

  // Only tables were added, to d.
  ghost predicate Grew(m: Mem, m': Mem, d: nat) {
    && Inv(m) && Inv(m') && SameMaps(m, m')
    && m'.owner.Keys == m.owner.Keys
    && forall f {:trigger GrewAt(m, m', d, f)} :: f in m.owner ==> GrewAt(m, m', d, f)
  }

  lemma GrewSame(m: Mem, d: nat)
    requires Inv(m)
    ensures Grew(m, m, d)
  {}

  // One table allocated, cleared and entered in the directory.
  lemma GrewTable(m: Mem, d: nat, i: nat, flags: nat)
    requires Inv(m) && d in m.spaces && i < NENTRIES && EntryAt(m, d, i) == Absent && m.free != []
    requires HasW(flags) && HasU(flags)
    ensures var t := m.free[0];
            var m1 := Fill(Take(m), t, Blank());
            && t != 0 && IsTable(m1, d)
            && var m2 := AddTable(m1, d, i, t, flags);
               Grew(m, m2, d) && EntryAt(m2, d, i) == Entry(t, flags)
  {
    hide Inv, Lookup, FreeOk;
    InvBasics(m, d);
    TakeKeeps(m);
    var t := m.free[0];
    FillKeeps(Take(m), t, Blank());
    var m1 := Fill(Take(m), t, Blank());
    InvBasics(m1, d);
    assert EntryAt(m1, d, i) == EntryAt(m, d, i);
    AddKeeps(m1, d, i, t, flags);
    AddEntry(m1, d, i, t, flags, d, i);
    var m2 := AddTable(m1, d, i, t, flags);
    InvBasics(m2, d);
    forall f | f in m.owner
      ensures GrewAt(m, m2, d, f)
    {}
  }

  lemma InvBasics(m: Mem, d: nat)
    requires Inv(m) && d in m.spaces
    ensures m.owner.Keys == m.pages.Keys && IsTable(m, d) && d in m.owner && m.owner[d] == Dir
  {
    assert IsTable(m, d);
  }

  // ---------------------------------------------------------------- mappages

  // Pages lo..lo+n of d map to frames frame.., and all else is as it was.
  ghost predicate MapsTo(m: Mem, m': Mem, d: nat, lo: nat, n: nat, frame: nat, flags: nat) {
    m'.spaces == m.spaces
    && forall d', w :: d' in m.spaces && 0 <= w < NPAGES ==>
         Lookup(m', d', w) == if d' == d && lo <= w < lo + n then Entry(frame + (w - lo), flags) else Lookup(m, d', w)
  }

  // Frame f became the page it is mapped at, or grew as above.
  predicate MapAt(m: Mem, m': Mem, d: nat, lo: nat, n: nat, frame: nat, f: nat)
    requires f in m.owner && f in m'.owner && f in m.pages && f in m'.pages
  {
    && (if frame <= f < frame + n && lo + (f - frame) < UTOP
        then m.owner[f] == Other && m'.owner[f] == Leaf(d, lo + (f - frame))
        else m'.owner[f] == m.owner[f] || (m.owner[f] == Free && m'.owner[f].Tab? && m'.owner[f].dir == d))
    && (m.owner[f] != Free && m.pages[f].Data? ==> m'.pages[f] == m.pages[f])
  }

  ghost predicate MapRel(m: Mem, m': Mem, d: nat, lo: nat, n: nat, frame: nat, flags: nat) {
    && Inv(m) && Inv(m') && MapsTo(m, m', d, lo, n, frame, flags)
    && m'.owner.Keys == m.owner.Keys
    && forall f {:trigger MapAt(m, m', d, lo, n, frame, f)} :: f in m.owner ==> MapAt(m, m', d, lo, n, frame, f)
  }

  lemma MapStart(m: Mem, d: nat, lo: nat, frame: nat, flags: nat)
    requires Inv(m)
    ensures MapRel(m, m, d, lo, 0, frame, flags)
  {}

  lemma MapGrew(m: Mem, m1: Mem, m2: Mem, d: nat, lo: nat, n: nat, frame: nat, flags: nat)
    requires MapRel(m, m1, d, lo, n, frame, flags) && Grew(m1, m2, d)
    ensures MapRel(m, m2, d, lo, n, frame, flags)
  {
    hide Lookup, FreeOk;
    forall f | f in m.owner
      ensures MapAt(m, m2, d, lo, n, frame, f)
    {
      assert MapAt(m, m1, d, lo, n, frame, f) && GrewAt(m1, m2, d, f);
    }
  }

  lemma MapStep(m: Mem, m1: Mem, d: nat, lo: nat, n: nat, frame: nat, flags: nat)
    requires MapRel(m, m1, d, lo, n, frame, flags) && d in m.spaces && lo + n < NPAGES && HasTable(m1, d, lo + n)
    requires Lookup(m, d, lo + n) == Absent
    requires lo + n < UTOP ==> frame + n in m.owner && m.owner[frame + n] == Other && frame + n in m.pages && m.pages[frame + n].Data?
    ensures MapRel(m, SetLeaf(m1, d, lo + n, Entry(frame + n, flags)), d, lo, n + 1, frame, flags)
  {
    hide Lookup, EntryAt, FreeOk, TableOf, PutEntry;
    var v, e := lo + n, Entry(frame + n, flags);
    var m2 := SetLeaf(m1, d, v, e);
    if v < UTOP {
      assert MapAt(m, m1, d, lo, n, frame, frame + n);
    }
    SetKeeps(m1, d, v, e);
    PutShape(m1, d, v, e);
    forall f | f in m.owner
      ensures MapAt(m, m2, d, lo, n + 1, frame, f)
    {
      assert MapAt(m, m1, d, lo, n, frame, f);
    }
  }

  // -------------------------------------------------------------- deallocuvm

  ghost predicate Unmaps(m: Mem, m': Mem, d: nat, lo: nat, hi: nat) {
    m'.spaces == m.spaces
    && forall d', w :: d' in m.spaces && 0 <= w < NPAGES ==>
         Lookup(m', d', w) == if d' == d && lo <= w < hi then Absent else Lookup(m, d', w)
  }

  // Frame f was a page of the range and is free, or is what it was.
  predicate FreedAt(m: Mem, m': Mem, d: nat, lo: nat, hi: nat, f: nat)
    requires f in m.owner && f in m'.owner && f in m.pages && f in m'.pages
  {
    && m'.owner[f] == (if m.owner[f].Leaf? && m.owner[f].dir == d && lo <= m.owner[f].page < hi then Free else m.owner[f])
    && (m'.owner[f] != Free && m.pages[f].Data? ==> m'.pages[f] == m.pages[f])
  }

  ghost predicate FreeRel(m: Mem, m': Mem, d: nat, lo: nat, hi: nat) {
    && Inv(m) && Inv(m') && Unmaps(m, m', d, lo, hi)
    && m'.owner.Keys == m.owner.Keys
    && forall f {:trigger FreedAt(m, m', d, lo, hi, f)} :: f in m.owner ==> FreedAt(m, m', d, lo, hi, f)
  }

  lemma FreeStart(m: Mem, d: nat, lo: nat)
    requires Inv(m)
    ensures FreeRel(m, m, d, lo, lo)
  {}

  // Pages that are not mapped need no work.
  lemma FreeSkip(m: Mem, m': Mem, d: nat, lo: nat, a: nat, hi: nat)
    requires FreeRel(m, m', d, lo, a) && lo <= a <= hi <= NPAGES && d in m.spaces
    requires forall w :: a <= w < hi ==> Lookup(m', d, w) == Absent
    ensures FreeRel(m, m', d, lo, hi)
  {
    hide Lookup, FreeOk;
    forall f | f in m.owner
      ensures FreedAt(m, m', d, lo, hi, f)
    {
      assert FreedAt(m, m', d, lo, a, f) && OwnerOk(m, f) && OwnerOk(m', f);
    }
  }

  // A missing table covers every page of its directory entry.
  lemma NoTable(m: Mem, d: nat, a: nat, w: nat)
    requires EntryAt(m, d, Pdx(a)) == Absent && a <= w < (Pdx(a) + 1) * NENTRIES
    ensures Lookup(m, d, w) == Absent
  {
    assert Pdx(w) == Pdx(a);
  }

  lemma FreePage(m: Mem, m': Mem, d: nat, lo: nat, a: nat)
    requires FreeRel(m, m', d, lo, a) && lo <= a < UTOP && d in m.spaces
    requires HasTable(m', d, a) && Lookup(m', d, a).Entry?
    ensures var m1 := ClearLeaf(m', d, a);
            FreeRel(m, Give(m1, Lookup(m', d, a).frame), d, lo, a + 1)
  {
    hide Lookup, EntryAt, FreeOk, TableOf, PutEntry;
    ClearKeeps(m', d, a);
    PutShape(m', d, a, Absent);
    var m1, g := ClearLeaf(m', d, a), Lookup(m', d, a).frame;
    GiveKeeps(m1, g);
    var m2 := Give(m1, g);
    forall f | f in m.owner
      ensures FreedAt(m, m2, d, lo, a + 1, f)
    {
      assert FreedAt(m, m', d, lo, a, f) && OwnerOk(m', f);
    }
  }

  // ---------------------------------------------------------------- allocuvm

  // Page w of d is a zeroed frame that was free in m.
  predicate FreshAt(m: Mem, m': Mem, d: nat, w: nat) {
    var e := Lookup(m', d, w);
    && e.Entry? && e.flags == 7
    && e.frame in m.owner && m.owner[e.frame] == Free
    && e.frame in m'.pages && m'.pages[e.frame] == Data(ZEROS)
  }

  // Frame f is what it was, or was free and is now a table of d, one of the new
  // pages, or the frame p that is held for the next page.
  predicate AllocAt(m: Mem, m': Mem, d: nat, lo: nat, hi: nat, p: nat, f: nat)
    requires f in m.owner && f in m'.owner && f in m.pages && f in m'.pages
  {
    && (if f == p then m.owner[f] == Free && m'.owner[f] == Other
        else
          || m'.owner[f] == m.owner[f]
          || (m.owner[f] == Free && m'.owner[f].Tab? && m'.owner[f].dir == d)
          || (m.owner[f] == Free && m'.owner[f].Leaf? && m'.owner[f].dir == d && lo <= m'.owner[f].page < hi))
    && (m.owner[f] != Free && m.pages[f].Data? ==> m'.pages[f] == m.pages[f])
  }

  ghost predicate AllocMaps(m: Mem, m': Mem, d: nat, lo: nat, hi: nat) {
    && m'.spaces == m.spaces
    && (forall d', w :: d' in m.spaces && 0 <= w < NPAGES && !(d' == d && lo <= w < hi) ==> Lookup(m', d', w) == Lookup(m, d', w))
    && (forall w :: lo <= w < hi ==> FreshAt(m, m', d, w))
  }

  // Pages lo..hi of d are new zeroed frames; frame p, if not 0, is in hand.
  ghost predicate AllocRel(m: Mem, m': Mem, d: nat, lo: nat, hi: nat, p: nat) {
    && Inv(m) && Inv(m') && AllocMaps(m, m', d, lo, hi)
    && m'.owner.Keys == m.owner.Keys
    && forall f {:trigger AllocAt(m, m', d, lo, hi, p, f)} :: f in m.owner ==> AllocAt(m, m', d, lo, hi, p, f)
  }

  lemma AllocStart(m: Mem, d: nat, lo: nat)
    requires Inv(m)
    ensures AllocRel(m, m, d, lo, lo, 0)
  {}

  lemma AllocTake(m: Mem, m1: Mem, d: nat, lo: nat, hi: nat)
    requires AllocRel(m, m1, d, lo, hi, 0) && m1.free != [] && d in m.spaces && hi <= UTOP
    ensures var g := m1.free[0];
            var m2 := Fill(Take(m1), g, Data(ZEROS));
            && g != 0 && g in m2.owner && m2.owner[g] == Other && g in m2.pages && m2.pages[g] == Data(ZEROS)
            && AllocRel(m, m2, d, lo, hi, g)
  {
    hide Lookup, FreeOk;
    TakeKeeps(m1);
    var g := m1.free[0];
    FillKeeps(Take(m1), g, Data(ZEROS));
    var m2 := Fill(Take(m1), g, Data(ZEROS));
    forall f | f in m.owner
      ensures AllocAt(m, m2, d, lo, hi, g, f)
    {
      assert AllocAt(m, m1, d, lo, hi, 0, f);
    }
    forall w | lo <= w < hi
      ensures FreshAt(m, m2, d, w)
    {
      assert FreshAt(m, m1, d, w);
      assert LeafOk(m1, d, w);
    }
  }

  // mappages entered the frame in hand, or failed and left it there.
  lemma AllocMap(m: Mem, m1: Mem, m2: Mem, d: nat, lo: nat, hi: nat, g: nat, n: nat)
    requires AllocRel(m, m1, d, lo, hi, g) && d in m.spaces && lo <= hi < UTOP && n <= 1
    requires g != 0 && g in m1.owner && g in m1.pages && m1.pages[g] == Data(ZEROS)
    requires MapRel(m1, m2, d, hi, n, g, 7)
    ensures AllocRel(m, m2, d, lo, hi + n, if n == 1 then 0 else g)
  {
    hide Lookup, FreeOk;
    assert AllocAt(m, m1, d, lo, hi, g, g);
    var p := if n == 1 then 0 else g;
    forall f | f in m.owner
      ensures AllocAt(m, m2, d, lo, hi + n, p, f)
    {
      assert AllocAt(m, m1, d, lo, hi, g, f) && MapAt(m1, m2, d, hi, n, g, f);
    }
    assert MapAt(m1, m2, d, hi, n, g, g);
    forall w | lo <= w < hi + n
      ensures FreshAt(m, m2, d, w)
    {
      if w < hi {
        assert FreshAt(m, m1, d, w) && LeafOk(m1, d, w);
        var f := Lookup(m1, d, w).frame;
        assert MapAt(m1, m2, d, hi, n, g, f);
      }
    }
  }

  // Undoing leaves nothing but tables behind.
  lemma AllocUndo(m: Mem, m1: Mem, m2: Mem, d: nat, lo: nat, hi: nat, top: nat, p: nat)
    requires AllocRel(m, m1, d, lo, hi, p) && FreeRel(m1, m2, d, lo, top) && d in m.spaces
    requires lo <= hi <= top <= UTOP
    requires forall w :: lo <= w < top ==> Lookup(m, d, w) == Absent
    ensures p == 0 || p !in m.owner ==> Grew(m, m2, d)
    ensures p in m.owner ==> p in m2.owner && m2.owner[p] == Other && Grew(m, Give(m2, p), d)
  {
    hide Lookup, FreeOk;
    forall f | f in m.owner
      ensures (f == p ==> m.owner[f] == Free && m2.owner[f] == Other)
      ensures (f != p ==> GrewAt(m, m2, d, f))
    {
      assert AllocAt(m, m1, d, lo, hi, p, f) && FreedAt(m1, m2, d, lo, top, f);
      assert OwnerOk(m, f) && OwnerOk(m2, f);
    }
    assert SameMaps(m, m2);
    if p in m.owner {
      GiveKeeps(m2, p);
      var m3 := Give(m2, p);
      forall f | f in m.owner
        ensures GrewAt(m, m3, d, f)
      {
        assert f != p ==> GrewAt(m, m2, d, f);
      }
    }
  }
}
