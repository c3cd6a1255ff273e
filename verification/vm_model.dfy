/**
 The two-level page tables of vm.c and the page allocator of kalloc.c on one
 memory. Physical pages are named by frame number; a frame holds page-table
 entries or data. `owner` says, for every managed frame, which one thing it is
 used for, so that keeping it exact means that no frame is lost or used twice.
 */
module VmModel {

  const NENTRIES := 1024         // entries of a directory or a table
  const NPAGES := 0x10_0000      // pages of the 32-bit address space
  const UTOP := 0x8_0000         // KERNBASE, in pages
  const MMAPTOP := 0x6_0000      // MMAPBASE, in pages
  const PGSIZE := 4096

  // A directory or table entry: address and flags of a present page.
  datatype Pte = Absent | Entry(frame: nat, flags: nat)

  // What a frame holds: entries, or data (contents compared as a whole).
  datatype Page = Table(entries: seq<Pte>) | Data(contents: int)

  const ZEROS := 0               // contents after memset 0
  const JUNK := 1                // contents after kfree's memset 1

  datatype Owner =
    | Free                       // on kmem.freelist
    | Dir                        // a page directory
    | Tab(dir: nat, index: nat)  // the table of one directory entry
    | Leaf(dir: nat, page: nat)  // a user page
    | Other                      // handed out by kalloc, not (yet) in a page table

  datatype Mem = Mem(
    pages: map<nat, Page>,
    free: seq<nat>,
    owner: map<nat, Owner>,
    spaces: set<nat>)            // the page directories in use

  function Blank(): (r: Page)
    ensures r.Table? && |r.entries| == NENTRIES && forall i :: 0 <= i < NENTRIES ==> r.entries[i] == Absent
  {
    Table(seq(NENTRIES, _ => Absent))
  }

  // PDX and PTX of a page number.
  function Pdx(v: nat): (r: nat) { v / NENTRIES }
  function Ptx(v: nat): (r: nat) { v % NENTRIES }

  lemma Split(v: nat, w: nat)
    ensures Ptx(v) < NENTRIES && (v < NPAGES ==> Pdx(v) < NENTRIES)
    ensures v != w ==> Pdx(v) != Pdx(w) || Ptx(v) != Ptx(w)
  {}

  function EntryAt(m: Mem, f: nat, i: nat): (r: Pte) {
    if f in m.pages && m.pages[f].Table? && i < |m.pages[f].entries| then m.pages[f].entries[i] else Absent
  }

  // What the hardware and walkpgdir see for page v of directory d.
  function Lookup(m: Mem, d: nat, v: nat): (r: Pte) {
    var e := EntryAt(m, d, Pdx(v));
    if e.Absent? then Absent else EntryAt(m, e.frame, Ptx(v))
  }

  // PTE_W and PTE_U, bits 1 and 2.
  predicate HasW(flags: nat) { flags / 2 % 2 == 1 }
  predicate HasU(flags: nat) { flags / 2 / 2 % 2 == 1 }

  // What a process may do with a page, apart from the kernel's own access.
  datatype Access = NoAccess | Allowed(user: bool, write: bool)

  function AccessOf(e: Pte): (r: Access) {
    if e.Absent? then NoAccess else Allowed(HasU(e.flags), HasW(e.flags))
  }

  // The hardware asks both levels: a page is open to user code, or to writing,
  // only if its directory entry and its table entry both say so.
  function AccessAt(m: Mem, d: nat, v: nat): (r: Access) {
    var e := EntryAt(m, d, Pdx(v));
    if e.Absent? then NoAccess
    else
      var p := EntryAt(m, e.frame, Ptx(v));
      if p.Absent? then NoAccess else Allowed(HasU(e.flags) && HasU(p.flags), HasW(e.flags) && HasW(p.flags))
  }

  // -------------------------------------------------------------- invariant

  predicate IsTable(m: Mem, f: nat) {
    f in m.pages && m.pages[f].Table? && |m.pages[f].entries| == NENTRIES
  }

  predicate PdeOk(m: Mem, d: nat, i: nat) {
    var e := EntryAt(m, d, i);
    e.Entry? ==> IsTable(m, e.frame) && e.frame in m.owner && m.owner[e.frame] == Tab(d, i) && HasW(e.flags) && HasU(e.flags)
  }

  predicate LeafOk(m: Mem, d: nat, v: nat) {
    var e := Lookup(m, d, v);
    e.Entry? ==> e.frame in m.pages && m.pages[e.frame].Data? && e.frame in m.owner && m.owner[e.frame] == Leaf(d, v)
  }

  // A frame's owner does refer to it.
  predicate OwnerOk(m: Mem, f: nat)
    requires f in m.owner
  {
    match m.owner[f]
    case Free => f in m.free
    case Dir => f in m.spaces
    case Tab(d, i) => d in m.spaces && i < NENTRIES && EntryAt(m, d, i).Entry? && EntryAt(m, d, i).frame == f
    case Leaf(d, v) => d in m.spaces && v < UTOP && Lookup(m, d, v).Entry? && Lookup(m, d, v).frame == f
    case Other => true
  }

  ghost predicate FreeOk(m: Mem) {
    && (forall i, j :: 0 <= i < j < |m.free| ==> m.free[i] != m.free[j])
    && (forall f :: f in m.free ==> f in m.owner && m.owner[f] == Free)
  }

  ghost predicate Inv(m: Mem) {
    && m.owner.Keys == m.pages.Keys
    && 0 !in m.pages
    && FreeOk(m)
    && (forall d {:trigger IsTable(m, d)} :: d in m.spaces ==> IsTable(m, d) && d in m.owner && m.owner[d] == Dir)
    && (forall d, i {:trigger PdeOk(m, d, i)} :: d in m.spaces && 0 <= i < NENTRIES ==> PdeOk(m, d, i))
    && (forall d, v {:trigger LeafOk(m, d, v)} :: d in m.spaces && 0 <= v < UTOP ==> LeafOk(m, d, v))
    && (forall f {:trigger OwnerOk(m, f)} :: f in m.owner ==> OwnerOk(m, f))
  }

  // Directory entries restrict nothing, so the table entry decides.
  lemma AccessIs(m: Mem, d: nat, v: nat)
    requires Inv(m) && d in m.spaces && v < NPAGES
    ensures AccessAt(m, d, v) == AccessOf(Lookup(m, d, v))
  {
    Split(v, v);
    assert PdeOk(m, d, Pdx(v));
  }

  // --------------------------------------------------------------- primitives

  // kalloc of the first free frame.
  function Take(m: Mem): (r: Mem)
    requires m.free != []
  {
    m.(free := m.free[1..], owner := m.owner[m.free[0] := Other])
  }

  // kfree.
  function Give(m: Mem, f: nat): (r: Mem) {
    m.(pages := m.pages[f := Data(JUNK)], free := [f] + m.free, owner := m.owner[f := Free])
  }

  // Storing data or a blank table in a frame that kalloc returned.
  function Fill(m: Mem, f: nat, p: Page): (r: Mem) {
    m.(pages := m.pages[f := p])
  }

  function Store(m: Mem, t: nat, i: nat, e: Pte): (r: Mem)
    requires IsTable(m, t) && i < NENTRIES
  {
    m.(pages := m.pages[t := Table(m.pages[t].entries[i := e])])
  }

  function Own(m: Mem, f: nat, o: Owner): (r: Mem) {
    m.(owner := m.owner[f := o])
  }

  predicate Loosely(o: Owner) {
    o == Free || o == Other
  }

  // m' differs from m in one frame f that no page table refers to.
  ghost predicate Loose(m: Mem, m': Mem, f: nat) {
    && f in m.owner && Loosely(m.owner[f])
    && f in m'.owner && Loosely(m'.owner[f])
    && m'.spaces == m.spaces
    && m'.owner == m.owner[f := m'.owner[f]]
    && f in m'.pages && m'.pages == m.pages[f := m'.pages[f]]
    && (forall g :: g in m.free && g != f ==> g in m'.free)
    && FreeOk(m') && (m'.owner[f] == Free ==> f in m'.free)
  }

  // No entry of a live directory or table is f.
  lemma LooseEntry(m: Mem, m': Mem, f: nat, d: nat, i: nat)
    requires Inv(m) && Loose(m, m', f) && i < NENTRIES
    requires d in m.owner && !Loosely(m.owner[d])
    ensures EntryAt(m', d, i) == EntryAt(m, d, i)
  {}

  lemma LooseLookup(m: Mem, m': Mem, f: nat, d: nat, v: nat)
    requires Inv(m) && Loose(m, m', f) && d in m.spaces && v < NPAGES
    ensures Lookup(m', d, v) == Lookup(m, d, v)
  {
    hide FreeOk, LeafOk, OwnerOk;
    Split(v, v);
    assert IsTable(m, d) && PdeOk(m, d, Pdx(v));
  }

  lemma LooseKeeps(m: Mem, m': Mem, f: nat)
    requires Inv(m) && Loose(m, m', f)
    ensures Inv(m')
    ensures forall d, v :: d in m.spaces && 0 <= v < NPAGES ==> Lookup(m', d, v) == Lookup(m, d, v)
  {
    hide FreeOk, EntryAt, Lookup;
    forall d, v | d in m.spaces && 0 <= v < NPAGES
      ensures Lookup(m', d, v) == Lookup(m, d, v)
    {
      LooseLookup(m, m', f, d, v);
    }
    forall d | d in m.spaces
      ensures IsTable(m', d) && m'.owner[d] == Dir
    {
      assert IsTable(m, d);
    }
    forall d, i | d in m'.spaces && 0 <= i < NENTRIES
      ensures PdeOk(m', d, i)
    {
      assert IsTable(m, d) && PdeOk(m, d, i);
      LooseEntry(m, m', f, d, i);
    }
    forall d, v | d in m'.spaces && 0 <= v < UTOP
      ensures LeafOk(m', d, v)
    {
      assert LeafOk(m, d, v);
    }
    forall g | g in m'.owner
      ensures OwnerOk(m', g)
    {
      assert OwnerOk(m, g);
      if m'.owner[g].Tab? {
        var d := m.owner[g].dir;
        assert IsTable(m, d);
        LooseEntry(m, m', f, d, m.owner[g].index);
      }
    }
  }

  lemma TakeKeeps(m: Mem)
    requires Inv(m) && m.free != []
    ensures m.free[0] in m.pages && m.free[0] != 0 && m.owner[m.free[0]] == Free
    ensures Loose(m, Take(m), m.free[0]) && Inv(Take(m))
    ensures forall d, v :: d in m.spaces && 0 <= v < NPAGES ==> Lookup(Take(m), d, v) == Lookup(m, d, v)
  {
    var f, m' := m.free[0], Take(m);
    assert f in m.free;
    assert m'.pages == m.pages[f := m.pages[f]];
    LooseKeeps(m, m', f);
  }

  lemma GiveKeeps(m: Mem, f: nat)
    requires Inv(m) && f in m.owner && m.owner[f] == Other
    ensures Inv(Give(m, f))
    ensures forall d, v :: d in m.spaces && 0 <= v < NPAGES ==> Lookup(Give(m, f), d, v) == Lookup(m, d, v)
  {
    LooseKeeps(m, Give(m, f), f);
  }

  lemma FillKeeps(m: Mem, f: nat, p: Page)
    requires Inv(m) && f in m.owner && m.owner[f] == Other
    ensures Inv(Fill(m, f, p))
    ensures forall d, v :: d in m.spaces && 0 <= v < NPAGES ==> Lookup(Fill(m, f, p), d, v) == Lookup(m, d, v)
  {
    var m' := Fill(m, f, p);
    assert m'.owner == m.owner[f := m'.owner[f]];
    LooseKeeps(m, m', f);
  }

  // A frame that was not managed before joins the free list.
  lemma GiveNew(m: Mem, f: nat)
    requires Inv(m) && f !in m.owner && f != 0
    ensures Inv(Give(m, f))
    ensures forall d, v :: d in m.spaces && 0 <= v < NPAGES ==> Lookup(Give(m, f), d, v) == Lookup(m, d, v)
  {
    var m1 := m.(pages := m.pages[f := Data(JUNK)], owner := m.owner[f := Other]);
    assert f !in m.spaces by {
      assert f in m.spaces ==> IsTable(m, f);
    }
    forall d, v | d in m.spaces && 0 <= v < NPAGES
      ensures Lookup(m1, d, v) == Lookup(m, d, v)
    {
      Split(v, v);
      assert IsTable(m, d) && PdeOk(m, d, Pdx(v));
    }
    NewOther(m, f);
    GiveKeeps(m1, f);
    assert Give(m1, f) == Give(m, f);
  }

  lemma NewOther(m: Mem, f: nat)
    requires Inv(m) && f !in m.owner && f != 0 && f !in m.spaces
    requires forall d, v :: d in m.spaces && 0 <= v < NPAGES ==>
               Lookup(m.(pages := m.pages[f := Data(JUNK)], owner := m.owner[f := Other]), d, v) == Lookup(m, d, v)
    ensures Inv(m.(pages := m.pages[f := Data(JUNK)], owner := m.owner[f := Other]))
  {
    hide Lookup;
    var m' := m.(pages := m.pages[f := Data(JUNK)], owner := m.owner[f := Other]);
    forall d | d in m'.spaces
      ensures IsTable(m', d) && d in m'.owner && m'.owner[d] == Dir
    {
      assert IsTable(m, d);
    }
    forall d, i | d in m'.spaces && 0 <= i < NENTRIES
      ensures PdeOk(m', d, i)
    {
      assert PdeOk(m, d, i) && IsTable(m, d);
    }
    forall d, v | d in m'.spaces && 0 <= v < UTOP
      ensures LeafOk(m', d, v)
    {
      assert LeafOk(m, d, v);
    }
    forall g | g in m'.owner
      ensures OwnerOk(m', g)
    {
      assert g != f ==> OwnerOk(m, g);
    }
  }

  // What frame f is used for, read off the free list and the page tables.
  ghost predicate UsedAs(m: Mem, f: nat, o: Owner) {
    match o
    case Free => f in m.free
    case Dir => f in m.spaces
    case Tab(d, i) => d in m.spaces && i < NENTRIES && EntryAt(m, d, i).Entry? && EntryAt(m, d, i).frame == f
    case Leaf(d, v) => d in m.spaces && v < UTOP && Lookup(m, d, v).Entry? && Lookup(m, d, v).frame == f
    case Other => f in m.owner && m.owner[f] == Other
  }

  // The free list, the directories, the tables, the user pages and the frames
  // handed out otherwise partition the managed frames: every frame has one use.
  lemma Partition(m: Mem, f: nat)
    requires Inv(m)
    ensures f in m.pages <==> exists o :: UsedAs(m, f, o)
    ensures forall o, o' :: UsedAs(m, f, o) && UsedAs(m, f, o') ==> o == o'
  {
    forall o | UsedAs(m, f, o)
      ensures f in m.owner && m.owner[f] == o
    {
      match o
      case Free =>
      case Dir => assert IsTable(m, f);
      case Tab(d, i) => assert PdeOk(m, d, i);
      case Leaf(d, v) => assert LeafOk(m, d, v);
      case Other =>
    }
    if f in m.pages {
      assert OwnerOk(m, f);
      assert UsedAs(m, f, m.owner[f]);
    }
  }
}
