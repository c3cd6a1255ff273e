/**
 malloc and free as steps on a heap value, and the invariant that every run of
 them keeps.
 */
module HeapRun {
  import opened Common
  import opened HeapModel

  // ------------------------------------------------------------ live blocks

  // The units of all blocks handed out.
  ghost function LiveUnits(live: map<int, int>): (r: int)
    decreases |live|
  {
    if forall a :: a !in live.Keys then 0
    else
      var a :| a in live.Keys;
      live[a] + LiveUnits(live - {a})
  }

  lemma {:induction false} LiveRemove(live: map<int, int>, a: int)
    requires a in live
    ensures LiveUnits(live) == live[a] + LiveUnits(live - {a})
    decreases |live|
  {
    var b :| b in live.Keys && LiveUnits(live) == live[b] + LiveUnits(live - {b});
    if b != a {
      LiveRemove(live - {b}, a);
      LiveRemove(live - {a}, b);
      assert live - {b} - {a} == live - {a} - {b};
    }
  }

  lemma LiveAdd(live: map<int, int>, a: int, n: int)
    requires a !in live
    ensures LiveUnits(live[a := n]) == LiveUnits(live) + n
  {
    LiveRemove(live[a := n], a);
    assert live[a := n] - {a} == live;
  }

  function Block(live: map<int, int>, a: int): (r: Chunk)
    requires a in live
  {
    Chunk(a, live[a])
  }

  // -------------------------------------------------------------- invariant

  predicate StartsAt(list: seq<Chunk>, i: int, x: int) {
    0 <= i < |list| && list[i].start == x
  }

  ghost predicate ListInv(base: int, list: seq<Chunk>) {
    && list != [] && list[0] == Chunk(base, 0)
    && Sorted(list)
    && (forall i :: 0 < i < |list| ==> list[i].size >= 1 && list[i].start >= base + HEADER)
  }

  ghost predicate LiveInv(base: int, list: seq<Chunk>, live: map<int, int>) {
    && (forall a :: a in live ==> live[a] >= 1 && a >= base + HEADER)
    && (forall a, b :: a in live && b in live && a != b ==> Apart(Block(live, a), Block(live, b)))
    && (forall a, i :: a in live && 0 <= i < |list| ==> Apart(list[i], Block(live, a)))
  }

  ghost predicate RoverInv(h: Heap) {
    if h.rover == 0 then |h.list| == 1 && h.live == map[] else exists i :: StartsAt(h.list, i, h.rover)
  }

  ghost predicate Inv(base: int, h: Heap) {
    && 0 < base
    && ListInv(base, h.list)
    && LiveInv(base, h.list, h.live)
    && RoverInv(h)
    && Sum(h.list) + LiveUnits(h.live) == h.obtained
  }

  // The heap before the first call.
  function Empty(base: int): (r: Heap) {
    Heap([Chunk(base, 0)], map[], 0, 0)
  }

  // Byte x belongs to some free or live block.
  ghost predicate Owned(h: Heap, x: int) {
    Covers(h.list, x) || InUse(h.live, x)
  }

  ghost predicate InUse(live: map<int, int>, x: int) {
    exists a :: a in live && Within(Block(live, a), x)
  }

  // ------------------------------------------------------------------- free

  function Free(h: Heap, a: int): (r: Heap)
    requires a in h.live && Pos(h.list, a) >= 0
  {
    Heap(Insert(h.list, Block(h.live, a)), h.live - {a}, h.list[Pos(h.list, a)].start, h.obtained)
  }

  lemma PosBase(base: int, list: seq<Chunk>, a: int)
    requires ListInv(base, list) && a >= base + HEADER
    ensures Pos(list, a) >= 0
  {
    PosSplits(list, a);
  }

  ghost predicate Above(low: int, list: seq<Chunk>) {
    forall i :: 0 <= i < |list| ==> list[i].size >= 1 && list[i].start >= low
  }

  lemma JoinAbove(low: int, a: seq<Chunk>, b: seq<Chunk>)
    requires Above(low, a) && Above(low, b)
    ensures Above(low, Join(a, b))
  {
    hide Join;
    forall i | 0 <= i < |Join(a, b)|
      ensures Join(a, b)[i].size >= 1 && Join(a, b)[i].start >= low
    {
      JoinAt(a, b, i);
    }
  }

  // A list headed by base keeps its head, and the start of its last chunk.
  lemma JoinBase(base: int, a: seq<Chunk>, b: seq<Chunk>)
    requires ListInv(base, a) && b != [] && Above(base + HEADER, b)
    ensures Join(a, b) != [] && Join(a, b)[0] == Chunk(base, 0)
    ensures forall i :: 0 < i < |Join(a, b)| ==> Join(a, b)[i].size >= 1 && Join(a, b)[i].start >= base + HEADER
    ensures StartsAt(Join(a, b), |a| - 1, a[|a| - 1].start)
  {
    hide Join, Sorted;
    JoinAt(a, b, 0);
    JoinAt(a, b, |a| - 1);
    forall i | 0 < i < |Join(a, b)|
      ensures Join(a, b)[i].size >= 1 && Join(a, b)[i].start >= base + HEADER
    {
      JoinAt(a, b, i);
    }
  }

  lemma ApartStarts(base: int, list: seq<Chunk>, c: Chunk)
    requires ListInv(base, list) && c.size >= 1 && c.start >= base + HEADER
    requires forall i :: 0 <= i < |list| ==> Apart(list[i], c)
    ensures Clear(list, c)
  {}

  lemma SplitInv(base: int, list: seq<Chunk>, t: nat)
    requires ListInv(base, list) && 0 < t <= |list|
    ensures ListInv(base, list[..t]) && Above(base + HEADER, list[t..])
  {
    SliceSorted(list, 0, t);
    assert list[..t] == list[0..t];
  }

  lemma InsertShape(base: int, list: seq<Chunk>, c: Chunk)
    requires ListInv(base, list) && c.size >= 1 && c.start >= base + HEADER
    ensures Pos(list, c.start) >= 0
    ensures var r := Insert(list, c);
            && r != [] && r[0] == Chunk(base, 0)
            && (forall i :: 0 < i < |r| ==> r[i].size >= 1 && r[i].start >= base + HEADER)
            && StartsAt(r, Pos(list, c.start), list[Pos(list, c.start)].start)
  {
    hide ListInv, Join, Above, Pos;
    PosBase(base, list, c.start);
    var t := Pos(list, c.start) + 1;
    SplitInv(base, list, t);
    JoinAt([c], list[t..], 0);
    assert Above(base + HEADER, [c]) by { AboveOne(base + HEADER, c); }
    JoinAbove(base + HEADER, [c], list[t..]);
    JoinBase(base, list[..t], Join([c], list[t..]));
  }

  lemma AboveOne(low: int, c: Chunk)
    requires c.size >= 1 && c.start >= low
    ensures Above(low, [c])
  {}

  // Insertion keeps the list in order and the start of c's predecessor.
  lemma InsertStarts(base: int, list: seq<Chunk>, c: Chunk)
    requires ListInv(base, list) && c.size >= 1 && c.start >= base + HEADER
    requires forall i :: 0 <= i < |list| ==> Apart(list[i], c)
    ensures ListInv(base, Insert(list, c))
    ensures Pos(list, c.start) >= 0
    ensures StartsAt(Insert(list, c), Pos(list, c.start), list[Pos(list, c.start)].start)
  {
    hide Insert, Sum, Pos;
    InsertShape(base, list, c);
    ApartStarts(base, list, c);
    InsertKeeps(list, c);
  }

  ghost predicate AllApart(list: seq<Chunk>, d: Chunk) {
    forall i :: 0 <= i < |list| ==> Apart(list[i], d)
  }

  lemma JoinApart(a: seq<Chunk>, b: seq<Chunk>, d: Chunk)
    requires AllApart(a, d) && AllApart(b, d) && d.size >= 1
    requires Sorted(a) && Sorted(b)
    ensures AllApart(Join(a, b), d)
  {
    hide Join;
    forall i | 0 <= i < |Join(a, b)|
      ensures Apart(Join(a, b)[i], d)
    {
      JoinAt(a, b, i);
    }
  }

  lemma InsertApart(list: seq<Chunk>, c: Chunk, d: Chunk)
    requires Sorted(list) && c.size >= 1 && d.size >= 1 && AllApart(list, d) && Apart(c, d)
    requires Clear(list, c)
    ensures AllApart(Insert(list, c), d)
  {
    hide Join, Clear, Sorted, Apart, Pos;
    var t := Pos(list, c.start) + 1;
    InsertParts(list, c);
    SortedOne(c);
    JoinApart([c], list[t..], d);
    JoinApart(list[..t], Join([c], list[t..]), d);
  }

  lemma FreeLive(base: int, h: Heap, a: int)
    requires ListInv(base, h.list) && LiveInv(base, h.list, h.live) && a in h.live
    ensures LiveInv(base, Insert(h.list, Block(h.live, a)), h.live - {a})
  {
    hide ListInv, Insert, Apart;
    var c := Block(h.live, a);
    ApartStarts(base, h.list, c);
    SortedInv(base, h.list);
    forall b, i | b in h.live - {a} && 0 <= i < |Insert(h.list, c)|
      ensures Apart(Insert(h.list, c)[i], Block(h.live, b))
    {
      InsertApart(h.list, c, Block(h.live, b));
    }
  }

  lemma SortedInv(base: int, list: seq<Chunk>)
    requires ListInv(base, list)
    ensures Sorted(list) == true && list != [] && list[0] == Chunk(base, 0)
  {}

  // free keeps the whole invariant, and no byte changes hands.
  lemma FreeKeeps(base: int, h: Heap, a: int)
    requires Inv(base, h) && a in h.live
    ensures Pos(h.list, a) >= 0 && Inv(base, Free(h, a))
    ensures Free(h, a).live == h.live - {a} && Free(h, a).rover != 0
  {
    hide Insert, Sum, LiveUnits, Apart, Sorted, Pos;
    var c := Block(h.live, a);
    InsertStarts(base, h.list, c);
    FreeLive(base, h, a);
    ApartStarts(base, h.list, c);
    InsertKeeps(h.list, c);
    LiveRemove(h.live, a);
    assert h.list[Pos(h.list, a)].start >= base;
  }

  lemma FreeOwned(base: int, h: Heap, a: int, x: int)
    requires Inv(base, h) && a in h.live && Pos(h.list, a) >= 0
    ensures Owned(Free(h, a), x) <==> Owned(h, x)
  {
    hide Insert, Sum, LiveUnits, Sorted, Covers, Pos;
    var c, h' := Block(h.live, a), Free(h, a);
    ApartStarts(base, h.list, c);
    InsertCovers(h.list, c, x);
    if b :| b in h.live && Within(Block(h.live, b), x) {
      if b != a {
        assert b in h'.live && Within(Block(h'.live, b), x);
      }
    }
    if b :| b in h'.live && Within(Block(h'.live, b), x) {
      assert Within(Block(h.live, b), x);
    }
  }

  // ----------------------------------------------------------------- search

  // The next-fit search: from list position k, try the next d positions round
  // the circle and stop at the first with at least n units.
  function Find(list: seq<Chunk>, k: nat, d: nat, n: int): (r: Option<nat>)
    requires k < |list|
    ensures r.Some? ==> r.value < |list| && list[r.value].size >= n
    decreases d
  {
    if d == 0 then None
    else
      var j := if k + 1 < |list| then k + 1 else 0;
      if list[j].size >= n then Some(j) else Find(list, j, d - 1, n)
  }

  // How many steps round the circle lead from position k to position j.
  function Steps(list: seq<Chunk>, k: nat, j: nat): (r: int) {
    if j > k then j - k else j + |list| - k
  }

  // The search stops at the first position that fits, going round from k.
  lemma {:induction false} FindFirst(list: seq<Chunk>, k: nat, d: nat, n: int)
    requires k < |list| && d <= |list|
    ensures match Find(list, k, d, n)
            case None => forall j :: 0 <= j < |list| && Steps(list, k, j) <= d ==> list[j].size < n
            case Some(f) =>
              && Steps(list, k, f) <= d
              && forall j :: 0 <= j < |list| && Steps(list, k, j) < Steps(list, k, f) ==> list[j].size < n
    decreases d
  {
    if d > 0 {
      var next := if k + 1 < |list| then k + 1 else 0;
      if list[next].size < n {
        FindFirst(list, next, d - 1, n);
        forall j | 0 <= j < |list| && j != next
          ensures Steps(list, k, j) == Steps(list, next, j) + 1 || j == k
        {}
      }
    }
  }

  // A whole round finds a chunk exactly when one is large enough.
  lemma FindAny(list: seq<Chunk>, k: nat, n: int)
    requires k < |list|
    ensures Find(list, k, |list|, n).None? <==> forall j :: 0 <= j < |list| ==> list[j].size < n
  {
    FindFirst(list, k, |list|, n);
    forall j | 0 <= j < |list|
      ensures Steps(list, k, j) <= |list|
    {}
  }

  // ----------------------------------------------------------------- malloc

  // Where the search starts: the first malloc sets freep to &base.
  function RoverIndex(h: Heap): (r: int) {
    if h.rover == 0 then 0 else Pos(h.list, h.rover + 1)
  }

  lemma RoverAt(base: int, h: Heap)
    requires Inv(base, h)
    ensures 0 <= RoverIndex(h) < |h.list|
    ensures h.list[RoverIndex(h)].start == if h.rover == 0 then base else h.rover
  {
    if h.rover != 0 {
      var i :| StartsAt(h.list, i, h.rover);
      PosIs(h.list, i);
    }
  }

  lemma PosIs(list: seq<Chunk>, i: nat)
    requires Sorted(list) && i < |list|
    ensures Pos(list, list[i].start + 1) == i
  {
    var k := Pos(list, list[i].start + 1);
    PosSplits(list, list[i].start + 1);
    if i < k {
      SortedFar(list, i, k);
    }
  }

  // What morecore asks for.
  function CoreUnits(n: nat): (r: nat) {
    if n < MINCORE then MINCORE else n
  }

  // Memory sbrk may hand out: above base, inside the address space, and not
  // overlapping anything it handed out before.
  ghost predicate Fresh(base: int, h: Heap, c: Chunk) {
    && c.start >= base + HEADER && c.End() <= UINT
    && AllApart(h.list, c)
    && forall a :: a in h.live ==> Apart(Block(h.live, a), c)
  }

  // The heap with a new region counted as a block in use.
  function Granted(base: int, h: Heap, c: Chunk): (r: Heap) {
    Heap(h.list, h.live[c.start := c.size], if h.rover == 0 then base else h.rover, h.obtained + c.size)
  }

  lemma GrantKeeps(base: int, h: Heap, c: Chunk)
    requires Inv(base, h) && Fresh(base, h, c) && c.size >= 1
    ensures c.start !in h.live && Inv(base, Granted(base, h, c))
  {
    hide Sorted, Sum, LiveUnits;
    assert c.start in h.live ==> Apart(Block(h.live, c.start), c);
    LiveAdd(h.live, c.start, c.size);
    assert h.rover == 0 ==> StartsAt(h.list, 0, base);
  }

  // morecore: a fresh region enters the free list through free.
  ghost function Grow(base: int, h: Heap, c: Chunk): (r: Heap)
    requires Inv(base, h) && Fresh(base, h, c) && c.size >= 1
    ensures Inv(base, r)
  {
    GrantKeeps(base, h, c);
    FreeKeeps(base, Granted(base, h, c), c.start);
    Free(Granted(base, h, c), c.start)
  }

  datatype Outcome = Outcome(heap: Heap, result: Option<int>)

  // Cut n units off the tail of the chunk at position k, or unlink it.
  function Take(h: Heap, k: int, n: int): (r: Outcome)
    requires 0 < k < |h.list| && 1 <= n <= h.list[k].size
  {
    var c := h.list[k];
    var a := c.start + HEADER * (c.size - n);
    Outcome(
      Heap(if c.size == n then h.list[..k] + h.list[k + 1..] else h.list[k := Chunk(c.start, c.size - n)],
           h.live[a := n], h.list[k - 1].start, h.obtained),
      Some(a + HEADER))
  }

  lemma TakeList(base: int, list: seq<Chunk>, k: nat, n: int)
    requires ListInv(base, list) && 0 < k < |list| && 1 <= n <= list[k].size
    ensures var c := list[k];
            var r := if c.size == n then list[..k] + list[k + 1..] else list[k := Chunk(c.start, c.size - n)];
            && ListInv(base, r) && Sum(r) == Sum(list) - n
            && StartsAt(r, k - 1, list[k - 1].start)
  {
    var c := list[k];
    SumConcat(list[..k] + [c], list[k + 1..]);
    SumConcat(list[..k], [c]);
    SumOne(c);
    assert list == list[..k] + [c] + list[k + 1..];
    SliceSorted(list, 0, k);
    SliceSorted(list, k + 1, |list|);
    assert list[..k] == list[0..k] && list[k + 1..] == list[k + 1..|list|];
    if c.size == n {
      if k + 1 < |list| {
        SortedFar(list, k - 1, k + 1);
      }
      ConcatSorted(list[..k], list[k + 1..]);
      SumConcat(list[..k], list[k + 1..]);
    } else {
      var c' := Chunk(c.start, c.size - n);
      var r := list[k := c'];
      assert r == list[..k] + [c'] + list[k + 1..];
      SumConcat(list[..k] + [c'], list[k + 1..]);
      SumConcat(list[..k], [c']);
      SumOne(c');
      forall i | 0 < i < |r|
        ensures Before(r, i)
      {
        assert Before(list, i);
      }
    }
  }

  // Every part of a chunk is apart from what the chunk was apart from.
  lemma TakeLive(base: int, h: Heap, k: int, n: int)
    requires Inv(base, h) && 0 < k < |h.list| && 1 <= n <= h.list[k].size
    ensures var r := Take(h, k, n);
            && r.result.value - HEADER !in h.live
            && LiveInv(base, r.heap.list, r.heap.live)
  {
    hide Sum, LiveUnits;
    var c, r := h.list[k], Take(h, k, n).heap;
    var a := c.start + HEADER * (c.size - n);
    forall b | b in h.live
      ensures Apart(Block(h.live, b), Chunk(a, n)) && a != b
    {
      assert Apart(c, Block(h.live, b));
    }
    forall i | 0 <= i < |r.list|
      ensures Apart(r.list[i], Chunk(a, n))
      ensures forall b :: b in h.live ==> Apart(r.list[i], Block(h.live, b))
    {
      var j := if c.size == n && i >= k then i + 1 else i;
      if j < k {
        SortedFar(h.list, j, k);
      } else if j > k {
        SortedFar(h.list, k, j);
      }
      assert j != k ==> r.list[i] == h.list[j];
      forall b | b in h.live
        ensures Apart(r.list[i], Block(h.live, b))
      {
        assert Apart(h.list[j], Block(h.live, b));
      }
    }
  }

  lemma TakeKeeps(base: int, h: Heap, k: int, n: int)
    requires Inv(base, h) && 0 < k < |h.list| && 1 <= n <= h.list[k].size
    ensures var r := Take(h, k, n);
            && Inv(base, r.heap)
            && r.result.value - HEADER !in h.live
            && r.heap.live == h.live[r.result.value - HEADER := n]
  {
    hide Sorted, Sum, LiveUnits, LiveInv;
    TakeList(base, h.list, k, n);
    TakeLive(base, h, k, n);
    LiveAdd(h.live, Take(h, k, n).result.value - HEADER, n);
  }

  // No byte changes hands, except that the taken ones are now in use.
  lemma TakeOwned(base: int, h: Heap, k: int, n: int, x: int)
    requires Inv(base, h) && 0 < k < |h.list| && 1 <= n <= h.list[k].size
    ensures Owned(Take(h, k, n).heap, x) <==> Owned(h, x)
  {
    hide Sum, LiveUnits, Covers, LiveInv, Sorted;
    var c, r := h.list[k], Take(h, k, n).heap;
    var a := c.start + HEADER * (c.size - n);
    TakeKeeps(base, h, k, n);
    ConcatCovers(h.list[..k] + [c], h.list[k + 1..], x);
    ConcatCovers(h.list[..k], [c], x);
    OneCovers(c, x);
    assert h.list == h.list[..k] + [c] + h.list[k + 1..];
    var c' := Chunk(c.start, c.size - n);
    ConcatCovers(h.list[..k], h.list[k + 1..], x);
    ConcatCovers(h.list[..k] + [c'], h.list[k + 1..], x);
    ConcatCovers(h.list[..k], [c'], x);
    OneCovers(c', x);
    assert c.size != n ==> r.list == h.list[..k] + [c'] + h.list[k + 1..];
    assert Within(c, x) <==> Within(c', x) || Within(Chunk(a, n), x);
    LiveOwned(h.live, a, n, x);
  }

  lemma LiveOwned(live: map<int, int>, a: int, n: int, x: int)
    requires a !in live
    ensures InUse(live[a := n], x) <==> InUse(live, x) || Within(Chunk(a, n), x)
  {
    var live' := live[a := n];
    if b :| b in live' && Within(Block(live', b), x) {
      assert b != a ==> Within(Block(live, b), x);
    }
    if b :| b in live && Within(Block(live, b), x) {
      assert Within(Block(live', b), x);
    }
    assert Within(Block(live', a), x) <==> Within(Chunk(a, n), x);
  }

  lemma GrowOwned(base: int, h: Heap, c: Chunk, x: int)
    requires Inv(base, h) && Fresh(base, h, c) && c.size >= 1
    ensures Owned(Grow(base, h, c), x) <==> Owned(h, x) || Within(c, x)
  {
    hide Covers, Inv;
    GrantKeeps(base, h, c);
    FreeKeeps(base, Granted(base, h, c), c.start);
    FreeOwned(base, Granted(base, h, c), c.start, x);
    LiveOwned(h.live, c.start, c.size, x);
  }

  // Once a region of at least n units has been added, the search succeeds.
  lemma GrowFinds(base: int, h: Heap, c: Chunk, n: int)
    requires Inv(base, h) && Fresh(base, h, c) && 1 <= n <= c.size
    ensures var g := Grow(base, h, c);
            0 <= RoverIndex(g) < |g.list| && Find(g.list, RoverIndex(g), |g.list|, n).Some?
  {
    var g := Grow(base, h, c);
    RoverAt(base, g);
    FindAny(g.list, RoverIndex(g), n);
    InsertHolds(h.list, c);
  }

  // Whatever it merges with, the chunk that holds c is no smaller than c.
  lemma InsertHolds(list: seq<Chunk>, c: Chunk)
    requires Sorted(list) && c.size >= 1
    ensures exists i :: 0 <= i < |Insert(list, c)| && Insert(list, c)[i].size >= c.size
  {
    hide Join, Pos;
    var t := Pos(list, c.start) + 1;
    var first, rest := list[..t], Join([c], list[t..]);
    JoinAt([c], list[t..], 0);
    assert rest[0].size >= c.size;
    JoinAt(first, rest, t);
    JoinAt(first, rest, t - if Touch(first, rest) then 1 else 0);
    assert Insert(list, c)[t - if Touch(first, rest) then 1 else 0].size >= c.size;
  }

  lemma UnitsPositive(nbytes: nat)
    ensures 1 <= Units(nbytes) <= CoreUnits(Units(nbytes))
  {}

  // What a search that succeeds finds is never base.
  lemma SearchFinds(base: int, h: Heap, n: int)
    requires Inv(base, h) && n >= 1
    ensures 0 <= RoverIndex(h) < |h.list|
    ensures var f := Find(h.list, RoverIndex(h), |h.list|, n);
            f.Some? ==> 0 < f.value < |h.list| && h.list[f.value].size >= n
  {
    hide RoverIndex, Sum, LiveUnits, LiveInv, Sorted;
    RoverAt(base, h);
  }

  // malloc. `region` is what sbrk would return, None if it fails.
  ghost function Malloc(base: int, h: Heap, nbytes: nat, region: Option<int>): (r: Outcome)
    requires Inv(base, h)
    requires region.Some? ==> Fresh(base, h, Chunk(region.value, CoreUnits(Units(nbytes))))
  {
    hide Inv, Fresh, Grow, RoverIndex, Find, Units, CoreUnits, Take;
    var n := Units(nbytes);
    UnitsPositive(nbytes);
    SearchFinds(base, h, n);
    var f := Find(h.list, RoverIndex(h), |h.list|, n);
    if f.Some? then Take(h, f.value, n)
    else if region.None? then Outcome(h.(rover := if h.rover == 0 then base else h.rover), None)
    else
      var c := Chunk(region.value, CoreUnits(n));
      GrowFinds(base, h, c, n);
      var g := Grow(base, h, c);
      SearchFinds(base, g, n);
      Take(g, Find(g.list, RoverIndex(g), |g.list|, n).value, n)
  }

  // Nothing on the free list is large enough, so malloc calls morecore.
  predicate NeedsCore(h: Heap, nbytes: nat) {
    forall i :: 0 <= i < |h.list| ==> h.list[i].size < Units(nbytes)
  }

  // The three ways malloc can go.
  lemma MallocCases(base: int, h: Heap, nbytes: nat, region: Option<int>) returns (k: int)
    requires Inv(base, h)
    requires region.Some? ==> Fresh(base, h, Chunk(region.value, CoreUnits(Units(nbytes))))
    ensures var n := Units(nbytes);
            var r := Malloc(base, h, nbytes, region);
            var c := Chunk(if region.Some? then region.value else 0, CoreUnits(n));
            && 1 <= n <= c.size
            && (!NeedsCore(h, nbytes) ==> 0 < k < |h.list| && h.list[k].size >= n && r == Take(h, k, n))
            && (NeedsCore(h, nbytes) && region.None? ==> r == Outcome(h.(rover := if h.rover == 0 then base else h.rover), None))
            && (NeedsCore(h, nbytes) && region.Some? ==>
                  var g := Grow(base, h, c);
                  0 < k < |g.list| && g.list[k].size >= n && r == Take(g, k, n))
  {
    hide Sum, LiveUnits, Sorted, LiveInv, Take, RoverIndex, Find;
    k := 0;
    var n := Units(nbytes);
    RoverAt(base, h);
    FindAny(h.list, RoverIndex(h), n);
    var f := Find(h.list, RoverIndex(h), |h.list|, n);
    if f.Some? {
      k := f.value;
    } else if region.Some? {
      var c := Chunk(region.value, CoreUnits(n));
      GrowFinds(base, h, c, n);
      var g := Grow(base, h, c);
      k := Find(g.list, RoverIndex(g), |g.list|, n).value;
    }
  }

  // n units are cut off the end of chunk j, the first that is large enough
  // going round from the rover, and the rover is the chunk before it.
  predicate CutFrom(h: Heap, n: int, r: Outcome, j: nat)
    requires 0 < j < |h.list|
  {
    var c, k := h.list[j], RoverIndex(h);
    && c.size >= n && k >= 0
    && (forall i :: 0 <= i < |h.list| && Steps(h.list, k, i) < Steps(h.list, k, j) ==> h.list[i].size < n)
    && r.result == Some(c.End() - HEADER * n + HEADER)
    && r.heap.rover == h.list[j - 1].start
    && r.heap.list == if c.size == n then h.list[..j] + h.list[j + 1..] else h.list[j := Chunk(c.start, c.size - n)]
  }

  ghost predicate NextFit(h: Heap, n: int, r: Outcome) {
    exists j :: 0 < j < |h.list| && CutFrom(h, n, r, j)
  }

  lemma TakeCuts(h: Heap, n: int, j: nat)
    requires 0 <= RoverIndex(h) < |h.list| && 0 < j < |h.list| && 1 <= n <= h.list[j].size
    requires Find(h.list, RoverIndex(h), |h.list|, n) == Some(j)
    ensures NextFit(h, n, Take(h, j, n))
  {
    hide RoverIndex, Find;
    FindFirst(h.list, RoverIndex(h), |h.list|, n);
    assert CutFrom(h, n, Take(h, j, n), j);
  }

  // Where malloc puts a request: by next fit on the list, grown first when
  // nothing on it is large enough.
  lemma MallocPlaces(base: int, h: Heap, nbytes: nat, region: Option<int>)
    requires Inv(base, h)
    requires region.Some? ==> Fresh(base, h, Chunk(region.value, CoreUnits(Units(nbytes))))
    ensures var n, r := Units(nbytes), Malloc(base, h, nbytes, region);
            && n >= 1
            && (!NeedsCore(h, nbytes) ==> NextFit(h, n, r))
            && (NeedsCore(h, nbytes) && region.Some? ==> CoreUnits(n) >= 1 && NextFit(Grow(base, h, Chunk(region.value, CoreUnits(n))), n, r))
  {
    hide Inv, Fresh, Grow, RoverIndex, Find, Units, CoreUnits, Take, NextFit;
    var n := Units(nbytes);
    UnitsPositive(nbytes);
    SearchFinds(base, h, n);
    FindAny(h.list, RoverIndex(h), n);
    var f := Find(h.list, RoverIndex(h), |h.list|, n);
    if f.Some? {
      TakeCuts(h, n, f.value);
    } else if region.Some? {
      var c := Chunk(region.value, CoreUnits(n));
      GrowFinds(base, h, c, n);
      var g := Grow(base, h, c);
      SearchFinds(base, g, n);
      TakeCuts(g, n, Find(g.list, RoverIndex(g), |g.list|, n).value);
    }
  }

  lemma GrowKeeps(base: int, h: Heap, c: Chunk)
    requires Inv(base, h) && Fresh(base, h, c) && c.size >= 1
    ensures Grow(base, h, c).live == h.live && Grow(base, h, c).obtained == h.obtained + c.size
  {
    hide Inv;
    GrantKeeps(base, h, c);
    FreeKeeps(base, Granted(base, h, c), c.start);
  }

  // malloc hands out a block of its own that holds the request, or, when the
  // list has nothing large enough and sbrk fails, nothing at all.
  lemma MallocKeeps(base: int, h: Heap, nbytes: nat, region: Option<int>)
    requires Inv(base, h)
    requires region.Some? ==> Fresh(base, h, Chunk(region.value, CoreUnits(Units(nbytes))))
    ensures var r := Malloc(base, h, nbytes, region);
            && Inv(base, r.heap)
            && (r.result.None? <==> NeedsCore(h, nbytes) && region.None?)
            && (r.result.None? ==> r.heap.live == h.live && r.heap.list == h.list)
            && (r.result.Some? ==>
                  && r.result.value - HEADER !in h.live
                  && r.heap.live == h.live[r.result.value - HEADER := Units(nbytes)])
            && r.heap.obtained == h.obtained + if NeedsCore(h, nbytes) && region.Some? then CoreUnits(Units(nbytes)) else 0
  {
    hide Malloc, Grow, NeedsCore, Units, CoreUnits, Fresh, ListInv, LiveInv, Sum, LiveUnits;
    var k := MallocCases(base, h, nbytes, region);
    var n := Units(nbytes);
    if !NeedsCore(h, nbytes) {
      TakeKeeps(base, h, k, n);
    } else if region.None? {
      RoverAt(base, h);
      assert StartsAt(h.list, RoverIndex(h), if h.rover == 0 then base else h.rover);
    } else {
      var c := Chunk(region.value, CoreUnits(n));
      GrowKeeps(base, h, c);
      TakeKeeps(base, Grow(base, h, c), k, n);
    }
  }

  lemma MallocOwned(base: int, h: Heap, nbytes: nat, region: Option<int>, x: int)
    requires Inv(base, h)
    requires region.Some? ==> Fresh(base, h, Chunk(region.value, CoreUnits(Units(nbytes))))
    ensures Owned(Malloc(base, h, nbytes, region).heap, x) <==>
            || Owned(h, x)
            || (NeedsCore(h, nbytes) && region.Some? && Within(Chunk(region.value, CoreUnits(Units(nbytes))), x))
  {
    hide Malloc, Grow, NeedsCore, Units, CoreUnits, Fresh, Inv, Covers, InUse;
    var k := MallocCases(base, h, nbytes, region);
    var n := Units(nbytes);
    if !NeedsCore(h, nbytes) {
      TakeOwned(base, h, k, n, x);
    } else if region.Some? {
      var c := Chunk(region.value, CoreUnits(n));
      GrowOwned(base, h, c, x);
      TakeOwned(base, Grow(base, h, c), k, n, x);
    }
  }

  // ------------------------------------------------------------------- runs

  datatype Call =
    | Alloc(nbytes: nat, region: Option<int>)
    | Release(ap: int)

  // What malloc and free ask of their callers and of sbrk.
  ghost predicate Allowed(base: int, h: Heap, c: Call) {
    match c
    case Alloc(nbytes, region) =>
      && (region.Some? ==> Fresh(base, h, Chunk(region.value, CoreUnits(Units(nbytes)))))
      && (NeedsCore(h, nbytes) ==> SbrkExact(CoreUnits(Units(nbytes))))
    case Release(ap) => ap - HEADER in h.live
  }

  ghost function After(base: int, h: Heap, c: Call): (r: Heap)
    requires Inv(base, h) && Allowed(base, h, c)
    ensures Inv(base, r)
  {
    match c
    case Alloc(nbytes, region) =>
      MallocKeeps(base, h, nbytes, region);
      Malloc(base, h, nbytes, region).heap
    case Release(ap) =>
      FreeKeeps(base, h, ap - HEADER);
      Free(h, ap - HEADER)
  }

  ghost predicate RunOk(base: int, calls: seq<Call>)
    decreases |calls|, 0
  {
    && 0 < base
    && (calls == [] || (RunOk(base, calls[..|calls| - 1])
                        && Allowed(base, Run(base, calls[..|calls| - 1]), calls[|calls| - 1])))
  }

  // The heap after any sequence of calls, starting before the first one.
  ghost function Run(base: int, calls: seq<Call>): (r: Heap)
    requires RunOk(base, calls)
    ensures Inv(base, r)
    decreases |calls|, 1
  {
    if calls == [] then
      EmptyInv(base);
      Empty(base)
    else
      After(base, Run(base, calls[..|calls| - 1]), calls[|calls| - 1])
  }

  lemma EmptyInv(base: int)
    requires 0 < base
    ensures Inv(base, Empty(base))
  {
    assert LiveUnits(map[]) == 0;
  }

  // The region call c obtained from sbrk in heap h, if any.
  function Core(h: Heap, c: Call): (r: Option<Chunk>) {
    if c.Alloc? && c.region.Some? && NeedsCore(h, c.nbytes)
    then Some(Chunk(c.region.value, CoreUnits(Units(c.nbytes))))
    else None
  }

  // The regions obtained from sbrk over a run.
  ghost function Cores(base: int, calls: seq<Call>): (r: seq<Chunk>)
    requires RunOk(base, calls)
  {
    if calls == [] then []
    else
      var init := calls[..|calls| - 1];
      var c := Core(Run(base, init), calls[|calls| - 1]);
      Cores(base, init) + if c.Some? then [c.value] else []
  }

  function Got(core: Option<Chunk>): (r: seq<Chunk>) {
    if core.Some? then [core.value] else []
  }

  // A nonempty run, seen from its last call.
  lemma RunSplit(base: int, calls: seq<Call>)
    requires RunOk(base, calls) && calls != []
    ensures var init, c := calls[..|calls| - 1], calls[|calls| - 1];
            && RunOk(base, init) && Inv(base, Run(base, init)) && Allowed(base, Run(base, init), c)
            && Run(base, calls) == After(base, Run(base, init), c)
            && Cores(base, calls) == Cores(base, init) + Got(Core(Run(base, init), c))
  {
    hide After, Inv, Allowed, Core;
  }

  lemma AfterObtained(base: int, h: Heap, c: Call)
    requires Inv(base, h) && Allowed(base, h, c)
    ensures After(base, h, c).obtained == h.obtained + Sum(Got(Core(h, c)))
  {
    hide Inv, Malloc, Free, Fresh, Units, CoreUnits, SbrkExact, NeedsCore;
    if c.Alloc? {
      MallocKeeps(base, h, c.nbytes, c.region);
    } else {
      FreeKeeps(base, h, c.ap - HEADER);
      FreeObtained(h, c.ap - HEADER);
    }
    if Core(h, c).Some? {
      SumOne(Core(h, c).value);
    }
  }

  lemma FreeObtained(h: Heap, a: int)
    requires a in h.live && Pos(h.list, a) >= 0
    ensures Free(h, a).obtained == h.obtained
  {}

  lemma Conserved(base: int, h: Heap)
    requires Inv(base, h)
    ensures Sum(h.list) + LiveUnits(h.live) == h.obtained
  {}

  lemma RunNothing(base: int)
    requires RunOk(base, [])
    ensures Run(base, []) == Empty(base) && Cores(base, []) == []
  {}

  // Free and live units together are the units obtained from sbrk.
  lemma {:induction false} UnitsConserved(base: int, calls: seq<Call>)
    requires RunOk(base, calls)
    ensures var h := Run(base, calls);
            Sum(h.list) + LiveUnits(h.live) == h.obtained == Sum(Cores(base, calls))
  {
    hide Inv, Run, RunOk, After, Core, Cores, Allowed, LiveUnits, Got;
    Conserved(base, Run(base, calls));
    if calls == [] {
      RunNothing(base);
    } else {
      var init, c := calls[..|calls| - 1], calls[|calls| - 1];
      RunSplit(base, calls);
      UnitsConserved(base, init);
      AfterObtained(base, Run(base, init), c);
      SumConcat(Cores(base, init), Got(Core(Run(base, init), c)));
    }
  }

  lemma GotCovers(core: Option<Chunk>, x: int)
    ensures Covers(Got(core), x) <==> core.Some? && Within(core.value, x)
  {
    if core.Some? {
      OneCovers(core.value, x);
    }
  }

  lemma AfterOwned(base: int, h: Heap, c: Call, x: int)
    requires Inv(base, h) && Allowed(base, h, c)
    ensures Owned(After(base, h, c), x) <==> Owned(h, x) || (Core(h, c).Some? && Within(Core(h, c).value, x))
  {
    hide Inv, Malloc, Free, Owned, Fresh, Units, CoreUnits, SbrkExact, NeedsCore;
    if c.Alloc? {
      MallocOwned(base, h, c.nbytes, c.region, x);
    } else {
      FreeKeeps(base, h, c.ap - HEADER);
      FreeOwned(base, h, c.ap - HEADER, x);
    }
  }

  lemma NothingOwned(base: int, x: int)
    ensures !Owned(Empty(base), x) && !Covers([], x)
  {
    assert !Within(Empty(base).list[0], x);
  }

  // A byte belongs to a free or live block exactly when sbrk has granted it.
  lemma {:induction false} OwnedIsGranted(base: int, calls: seq<Call>, x: int)
    requires RunOk(base, calls)
    ensures Owned(Run(base, calls), x) <==> Covers(Cores(base, calls), x)
  {
    hide Inv, Run, RunOk, After, Core, Cores, Allowed, Got, Owned, Covers, Empty;
    if calls == [] {
      RunNothing(base);
      NothingOwned(base, x);
    } else {
      var init, c := calls[..|calls| - 1], calls[|calls| - 1];
      RunSplit(base, calls);
      OwnedIsGranted(base, init, x);
      var h := Run(base, init);
      AfterOwned(base, h, c, x);
      ConcatCovers(Cores(base, init), Got(Core(h, c)), x);
      GotCovers(Core(h, c), x);
    }
  }

  // No byte belongs to two blocks.
  lemma NoOverlap(base: int, calls: seq<Call>, x: int)
    requires RunOk(base, calls)
    ensures var h := Run(base, calls);
            && (forall a, b :: a in h.live && b in h.live && Within(Block(h.live, a), x) && Within(Block(h.live, b), x) ==> a == b)
            && (forall a, i :: a in h.live && 0 <= i < |h.list| && Within(h.list[i], x) ==> !Within(Block(h.live, a), x))
            && (forall i, j :: 0 <= i < |h.list| && 0 <= j < |h.list| && Within(h.list[i], x) && Within(h.list[j], x) ==> i == j)
  {
    var h := Run(base, calls);
    forall i, j | 0 <= i < |h.list| && 0 <= j < |h.list| && Within(h.list[i], x) && Within(h.list[j], x)
      ensures i == j
    {
      if i < j {
        SortedFar(h.list, i, j);
      } else if j < i {
        SortedFar(h.list, j, i);
      }
    }
  }

  lemma AfterLive(base: int, h: Heap, c: Call, a: int)
    requires Inv(base, h) && Allowed(base, h, c) && a in h.live && c != Release(a + HEADER)
    ensures a in After(base, h, c).live && After(base, h, c).live[a] == h.live[a]
  {
    hide Malloc, Free, Inv, Fresh;
    if c.Alloc? {
      MallocKeeps(base, h, c.nbytes, c.region);
    } else {
      FreeKeeps(base, h, c.ap - HEADER);
    }
  }

  lemma RunLast(base: int, calls: seq<Call>, more: seq<Call>)
    requires more != [] && RunOk(base, calls + more)
    ensures var init := more[..|more| - 1];
            && RunOk(base, calls + init)
            && Allowed(base, Run(base, calls + init), more[|more| - 1])
            && Run(base, calls + more) == After(base, Run(base, calls + init), more[|more| - 1])
  {
    assert (calls + more)[..|calls + more| - 1] == calls + more[..|more| - 1];
  }

  // A block stays where it is, with its size, until its own release.
  lemma {:induction false} LiveUntilReleased(base: int, calls: seq<Call>, more: seq<Call>, a: int)
    requires RunOk(base, calls + more) && RunOk(base, calls)
    requires a in Run(base, calls).live && Release(a + HEADER) !in more
    ensures a in Run(base, calls + more).live && Run(base, calls + more).live[a] == Run(base, calls).live[a]
    decreases |more|
  {
    hide Run, RunOk, After, Inv, Allowed;
    if more == [] {
      assert calls + more == calls;
    } else {
      RunLast(base, calls, more);
      LiveUntilReleased(base, calls, more[..|more| - 1], a);
      AfterLive(base, Run(base, calls + more[..|more| - 1]), more[|more| - 1], a);
    }
  }

  lemma OneBlock(list: seq<Chunk>, x: int)
    requires Sorted(list) && Covers(list, x) && Covers(list, x + 1)
    ensures exists i :: 0 <= i < |list| && Within(list[i], x) && Within(list[i], x + 1)
  {
    var i :| 0 <= i < |list| && Within(list[i], x);
    var j :| 0 <= j < |list| && Within(list[j], x + 1);
    if i < j {
      SortedFar(list, i, j);
    } else if j < i {
      SortedFar(list, j, i);
    }
  }

  // Coalescing is complete: with nothing in use, neighbouring granted bytes
  // lie in one free block.
  lemma FullyCoalesced(base: int, calls: seq<Call>, x: int)
    requires RunOk(base, calls) && Run(base, calls).live == map[]
    requires Covers(Cores(base, calls), x) && Covers(Cores(base, calls), x + 1)
    ensures var list := Run(base, calls).list;
            exists i :: 0 <= i < |list| && Within(list[i], x) && Within(list[i], x + 1)
  {
    hide Run, RunOk, Covers, Cores;
    OwnedIsGranted(base, calls, x);
    OwnedIsGranted(base, calls, x + 1);
    OneBlock(Run(base, calls).list, x);
  }
}
