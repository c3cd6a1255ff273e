/**
 The stores that change a page table: adding a table to a directory, mapping
 and unmapping one page, and giving a whole directory up. Each keeps the
 invariant and changes the flat map only where it should.
 */
module VmTables {
  import opened VmModel

  // ------------------------------------------------------------- one new table

  function AddTable(m: Mem, d: nat, i: nat, t: nat, flags: nat): (r: Mem)
    requires IsTable(m, d) && i < NENTRIES
  {
    Own(Store(m, d, i, Entry(t, flags)), t, Tab(d, i))
  }

  ghost predicate CanAdd(m: Mem, d: nat, i: nat, t: nat) {
    && Inv(m) && d in m.spaces && IsTable(m, d) && i < NENTRIES && EntryAt(m, d, i) == Absent
    && t in m.owner && m.owner[t] == Other && m.pages[t] == Blank()
  }

  lemma AddEntry(m: Mem, d: nat, i: nat, t: nat, flags: nat, f: nat, k: nat)
    requires CanAdd(m, d, i, t)
    ensures EntryAt(AddTable(m, d, i, t, flags), f, k) == if f == d && k == i then Entry(t, flags) else EntryAt(m, f, k)
    ensures IsTable(AddTable(m, d, i, t, flags), f) == IsTable(m, f)
  {}

  lemma AddLookup(m: Mem, d: nat, i: nat, t: nat, flags: nat, d': nat, v: nat)
    requires CanAdd(m, d, i, t) && d' in m.spaces && v < NPAGES
    ensures Lookup(AddTable(m, d, i, t, flags), d', v) == Lookup(m, d', v)
  {
    hide AddTable, FreeOk;
    Split(v, v);
    AddEntry(m, d, i, t, flags, d', Pdx(v));
    assert IsTable(m, d') && PdeOk(m, d', Pdx(v));
    var e := EntryAt(m, d', Pdx(v));
    if e.Entry? {
      AddEntry(m, d, i, t, flags, e.frame, Ptx(v));
    }
    AddEntry(m, d, i, t, flags, t, Ptx(v));
  }

  lemma AddKeeps(m: Mem, d: nat, i: nat, t: nat, flags: nat)
    requires CanAdd(m, d, i, t) && HasW(flags) && HasU(flags)
    ensures Inv(AddTable(m, d, i, t, flags))
    ensures forall d', v :: d' in m.spaces && 0 <= v < NPAGES ==> Lookup(AddTable(m, d, i, t, flags), d', v) == Lookup(m, d', v)
  {
    hide Lookup, EntryAt;
    var m' := AddTable(m, d, i, t, flags);
    assert IsTable(m, d);
    forall d', v | d' in m.spaces && 0 <= v < NPAGES
      ensures Lookup(m', d', v) == Lookup(m, d', v)
    {
      AddLookup(m, d, i, t, flags, d', v);
    }
    forall d' | d' in m.spaces
      ensures IsTable(m', d') && m'.owner[d'] == Dir
    {
      assert IsTable(m, d');
    }
    forall d', k | d' in m.spaces && 0 <= k < NENTRIES
      ensures PdeOk(m', d', k)
    {
      assert PdeOk(m, d', k);
      AddEntry(m, d, i, t, flags, d', k);
    }
    forall d', v | d' in m.spaces && 0 <= v < UTOP
      ensures LeafOk(m', d', v)
    {
      assert LeafOk(m, d', v);
    }
    forall f | f in m'.owner
      ensures OwnerOk(m', f)
    {
      assert OwnerOk(m, f);
      AddEntry(m, d, i, t, flags, d, i);
      if m.owner[f].Tab? {
        AddEntry(m, d, i, t, flags, m.owner[f].dir, m.owner[f].index);
      }
    }
  }

  // ------------------------------------------------------------ one page's entry

  // The table that holds the entry of page v.
  function TableOf(m: Mem, d: nat, v: nat): (r: nat) {
    var e := EntryAt(m, d, Pdx(v));
    if e.Entry? then e.frame else 0
  }

  ghost predicate HasTable(m: Mem, d: nat, v: nat) {
    Inv(m) && d in m.spaces && v < NPAGES && EntryAt(m, d, Pdx(v)).Entry? && IsTable(m, TableOf(m, d, v))
  }

  lemma TableKnown(m: Mem, d: nat, v: nat)
    requires Inv(m) && d in m.spaces && v < NPAGES && EntryAt(m, d, Pdx(v)).Entry?
    ensures HasTable(m, d, v) && m.owner[TableOf(m, d, v)] == Tab(d, Pdx(v))
    ensures Lookup(m, d, v) == EntryAt(m, TableOf(m, d, v), Ptx(v))
  {
    Split(v, v);
    assert PdeOk(m, d, Pdx(v));
  }

  function PutEntry(m: Mem, d: nat, v: nat, e: Pte): (r: Mem)
    requires IsTable(m, TableOf(m, d, v))
  {
    Store(m, TableOf(m, d, v), Ptx(v), e)
  }

  lemma PutAt(m: Mem, d: nat, v: nat, e: Pte, f: nat, k: nat)
    requires HasTable(m, d, v)
    ensures EntryAt(PutEntry(m, d, v, e), f, k) == if f == TableOf(m, d, v) && k == Ptx(v) then e else EntryAt(m, f, k)
    ensures IsTable(PutEntry(m, d, v, e), f) == IsTable(m, f)
    ensures f in m.pages && m.pages[f].Data? ==> PutEntry(m, d, v, e).pages[f] == m.pages[f]
  {}

  // Only the entry of page v of directory d changes.
  lemma PutLookup(m: Mem, d: nat, v: nat, e: Pte, d': nat, w: nat)
    requires HasTable(m, d, v) && d' in m.spaces && w < NPAGES
    ensures Lookup(PutEntry(m, d, v, e), d', w) == if d' == d && w == v then e else Lookup(m, d', w)
  {
    hide PutEntry, FreeOk;
    Split(v, w);
    Split(w, w);
    TableKnown(m, d, v);
    PutAt(m, d, v, e, d', Pdx(w));
    assert IsTable(m, d') && PdeOk(m, d', Pdx(w));
    var x := EntryAt(m, d', Pdx(w));
    if x.Entry? {
      PutAt(m, d, v, e, x.frame, Ptx(w));
    }
  }

  // Mapping a page: a user page's frame is now owned by that page.
  function SetLeaf(m: Mem, d: nat, v: nat, e: Pte): (r: Mem)
    requires IsTable(m, TableOf(m, d, v)) && e.Entry?
  {
    if v < UTOP then Own(PutEntry(m, d, v, e), e.frame, Leaf(d, v)) else PutEntry(m, d, v, e)
  }

  function ClearLeaf(m: Mem, d: nat, v: nat): (r: Mem)
    requires IsTable(m, TableOf(m, d, v)) && Lookup(m, d, v).Entry?
  {
    Own(PutEntry(m, d, v, Absent), Lookup(m, d, v).frame, Other)
  }

  ghost predicate CanSet(m: Mem, d: nat, v: nat, e: Pte) {
    && HasTable(m, d, v) && Lookup(m, d, v) == Absent && e.Entry?
    && (v < UTOP ==> e.frame in m.owner && m.owner[e.frame] == Other && m.pages[e.frame].Data?)
  }

  lemma SetKeeps(m: Mem, d: nat, v: nat, e: Pte)
    requires CanSet(m, d, v, e)
    ensures Inv(SetLeaf(m, d, v, e))
    ensures forall d', w :: d' in m.spaces && 0 <= w < NPAGES ==>
              Lookup(SetLeaf(m, d, v, e), d', w) == if d' == d && w == v then e else Lookup(m, d', w)
  {
    hide Lookup, EntryAt, TableOf, PutEntry, HasW, HasU;
    var m0, m' := PutEntry(m, d, v, e), SetLeaf(m, d, v, e);
    TableKnown(m, d, v);
    PutShape(m, d, v, e);
    forall d', w | d' in m.spaces && 0 <= w < NPAGES
      ensures Lookup(m', d', w) == if d' == d && w == v then e else Lookup(m, d', w)
    {
      PutLookup(m, d, v, e, d', w);
      OwnLookup(m0, e.frame, Leaf(d, v), d', w);
    }
    PutTables(m, d, v, e, m');
    assert FreeOk(m') && m'.owner.Keys == m'.pages.Keys;
    forall d', w | d' in m.spaces && 0 <= w < UTOP
      ensures LeafOk(m', d', w)
    {
      assert LeafOk(m, d', w);
    }
    forall f | f in m'.owner
      ensures OwnerOk(m', f)
    {
      assert OwnerOk(m, f);
      if m.owner[f].Tab? {
        PutOwnerTab(m, d, v, e, m', f);
      }
    }
  }

  lemma PutShape(m: Mem, d: nat, v: nat, e: Pte)
    requires HasTable(m, d, v)
    ensures var r := PutEntry(m, d, v, e);
            && r.owner == m.owner && r.spaces == m.spaces && r.free == m.free && r.pages.Keys == m.pages.Keys
            && forall f :: f in m.pages && m.pages[f].Data? ==> r.pages[f] == m.pages[f]
  {}

  lemma OwnLookup(m: Mem, f: nat, o: Owner, d: nat, v: nat)
    ensures Lookup(Own(m, f, o), d, v) == Lookup(m, d, v)
    ensures EntryAt(Own(m, f, o), d, v) == EntryAt(m, d, v)
  {}

  // The directories and their entries are untouched by a store in a table.
  lemma PutTables(m: Mem, d: nat, v: nat, e: Pte, m': Mem)
    requires HasTable(m, d, v) && m'.pages == PutEntry(m, d, v, e).pages && m'.spaces == m.spaces
    requires m'.owner.Keys == m.owner.Keys
    requires forall f :: f in m.owner && (m.owner[f] == Dir || m.owner[f].Tab?) ==> m'.owner[f] == m.owner[f]
    ensures forall d' {:trigger IsTable(m', d')} :: d' in m.spaces ==> IsTable(m', d') && d' in m'.owner && m'.owner[d'] == Dir
    ensures forall d', i {:trigger PdeOk(m', d', i)} :: d' in m.spaces && 0 <= i < NENTRIES ==>
              PdeOk(m', d', i) && EntryAt(m', d', i) == EntryAt(m, d', i)
  {
    hide PutEntry;
    TableKnown(m, d, v);
    forall d' | d' in m.spaces
      ensures IsTable(m', d') && d' in m'.owner && m'.owner[d'] == Dir
    {
      assert IsTable(m, d');
      PutAt(m, d, v, e, d', 0);
    }
    forall d', i | d' in m.spaces && 0 <= i < NENTRIES
      ensures PdeOk(m', d', i) && EntryAt(m', d', i) == EntryAt(m, d', i)
    {
      assert IsTable(m, d') && PdeOk(m, d', i);
      PutAt(m, d, v, e, d', i);
      if EntryAt(m, d', i).Entry? {
        PutAt(m, d, v, e, EntryAt(m, d', i).frame, 0);
      }
    }
  }

  lemma PutOwnerTab(m: Mem, d: nat, v: nat, e: Pte, m': Mem, f: nat)
    requires HasTable(m, d, v) && m'.pages == PutEntry(m, d, v, e).pages && m'.spaces == m.spaces
    requires f in m.owner && m.owner[f].Tab? && f in m'.owner && m'.owner[f] == m.owner[f]
    ensures OwnerOk(m', f)
  {
    hide PutEntry;
    TableKnown(m, d, v);
    assert OwnerOk(m, f);
    var o := m.owner[f];
    assert IsTable(m, o.dir);
    PutAt(m, d, v, e, o.dir, o.index);
  }

  lemma ClearKeeps(m: Mem, d: nat, v: nat)
    requires HasTable(m, d, v) && v < UTOP && Lookup(m, d, v).Entry?
    ensures var f := Lookup(m, d, v).frame;
            && f in m.owner && m.owner[f] == Leaf(d, v)
            && Inv(ClearLeaf(m, d, v)) && ClearLeaf(m, d, v).owner == m.owner[f := Other]
    ensures forall d', w :: d' in m.spaces && 0 <= w < NPAGES ==>
              Lookup(ClearLeaf(m, d, v), d', w) == if d' == d && w == v then Absent else Lookup(m, d', w)
  {
    hide Lookup, EntryAt, TableOf, PutEntry;
    var m0, m' := PutEntry(m, d, v, Absent), ClearLeaf(m, d, v);
    var f := Lookup(m, d, v).frame;
    assert LeafOk(m, d, v);
    TableKnown(m, d, v);
    PutShape(m, d, v, Absent);
    forall d', w | d' in m.spaces && 0 <= w < NPAGES
      ensures Lookup(m', d', w) == if d' == d && w == v then Absent else Lookup(m, d', w)
    {
      PutLookup(m, d, v, Absent, d', w);
      OwnLookup(m0, f, Other, d', w);
    }
    PutTables(m, d, v, Absent, m');
    assert FreeOk(m') && m'.owner.Keys == m'.pages.Keys;
    forall d', w | d' in m.spaces && 0 <= w < UTOP
      ensures LeafOk(m', d', w)
    {
      assert LeafOk(m, d', w);
    }
    forall g | g in m'.owner
      ensures OwnerOk(m', g)
    {
      assert OwnerOk(m, g);
      if m.owner[g].Tab? {
        PutOwnerTab(m, d, v, Absent, m', g);
      }
    }
  }

  // ------------------------------------------------- whole address spaces

  // A blank directory comes into use.
  function Adopt(m: Mem, d: nat): (r: Mem) {
    m.(spaces := m.spaces + {d}, owner := m.owner[d := Dir])
  }

  lemma AdoptKeeps(m: Mem, d: nat)
    requires Inv(m) && d in m.owner && m.owner[d] == Other && m.pages[d] == Blank()
    ensures d !in m.spaces && Inv(Adopt(m, d))
    ensures forall d', v :: d' in m.spaces ==> Lookup(Adopt(m, d), d', v) == Lookup(m, d', v)
    ensures forall v :: 0 <= v < NPAGES ==> Lookup(Adopt(m, d), d, v) == Absent
  {
    var m' := Adopt(m, d);
    assert d in m.spaces ==> IsTable(m, d);
    forall d' | d' in m'.spaces
      ensures IsTable(m', d') && d' in m'.owner && m'.owner[d'] == Dir
    {
      assert d' != d ==> IsTable(m, d');
    }
    forall d', i | d' in m'.spaces && 0 <= i < NENTRIES
      ensures PdeOk(m', d', i)
    {
      assert d' != d ==> PdeOk(m, d', i);
    }
    forall v | 0 <= v < NPAGES
      ensures Lookup(m', d, v) == Absent
    {
      Split(v, v);
    }
    forall d', v | d' in m'.spaces && 0 <= v < UTOP
      ensures LeafOk(m', d', v)
    {
      assert d' != d ==> LeafOk(m, d', v);
    }
    forall f | f in m'.owner
      ensures OwnerOk(m', f)
    {
      assert OwnerOk(m, f);
    }
  }

  predicate Belongs(o: Owner, f: nat, d: nat) {
    (o == Dir && f == d) || (o.Tab? && o.dir == d) || (o.Leaf? && o.dir == d)
  }

  // A directory goes out of use: everything it held is held by nobody.
  function Retire(m: Mem, d: nat): (r: Mem) {
    m.(spaces := m.spaces - {d},
       owner := map f | f in m.owner :: if Belongs(m.owner[f], f, d) then Other else m.owner[f])
  }

  lemma RetireKeeps(m: Mem, d: nat)
    requires Inv(m) && d in m.spaces
    ensures Inv(Retire(m, d))
    ensures forall d', v :: Lookup(Retire(m, d), d', v) == Lookup(m, d', v)
  {
    var m' := Retire(m, d);
    assert IsTable(m, d);
    forall d' | d' in m'.spaces
      ensures IsTable(m', d') && d' in m'.owner && m'.owner[d'] == Dir
    {
      assert IsTable(m, d');
    }
    forall d', i | d' in m'.spaces && 0 <= i < NENTRIES
      ensures PdeOk(m', d', i)
    {
      assert PdeOk(m, d', i);
    }
    forall d', v | d' in m'.spaces && 0 <= v < UTOP
      ensures LeafOk(m', d', v)
    {
      assert LeafOk(m, d', v);
    }
    forall f | f in m'.owner
      ensures OwnerOk(m', f)
    {
      assert OwnerOk(m, f);
    }
  }
}
