/**
 umalloc.c as an object: header words in memory, chased through pointers and
 rewritten in place. Its ghost heap value follows HeapRun step by step.
 */
module Umalloc {
  import opened Common
  import opened HeapModel
  import opened HeapRun

  // ------------------------------------------------------------ list links

  function StartOr(s: seq<Chunk>, i: nat, end: int): (r: int) {
    if i < |s| then s[i].start else end
  }

  // The header in memory of the chunk at position i points to the next one.
  predicate Link(ptr: map<int, int>, size: map<int, int>, s: seq<Chunk>, end: int, i: nat)
    requires i < |s|
  {
    && s[i].start in ptr && s[i].start in size
    && ptr[s[i].start] == StartOr(s, i + 1, end)
    && size[s[i].start] == s[i].size
  }

  // The chunks of s are linked in order, the last one to `end`.
  ghost predicate Chain(ptr: map<int, int>, size: map<int, int>, s: seq<Chunk>, end: int) {
    forall i :: 0 <= i < |s| ==> Link(ptr, size, s, end, i)
  }

  ghost predicate NotIn(x: int, s: seq<Chunk>) {
    forall i :: 0 <= i < |s| ==> s[i].start != x
  }

  lemma ChainFrame(ptr: map<int, int>, size: map<int, int>, s: seq<Chunk>, end: int, x: int, y: int, n: int)
    requires Chain(ptr, size, s, end) && NotIn(x, s)
    ensures Chain(ptr[x := y], size[x := n], s, end)
  {
    var ptr', size' := ptr[x := y], size[x := n];
    forall i | 0 <= i < |s|
      ensures Link(ptr', size', s, end, i)
    {
      assert Link(ptr, size, s, end, i);
    }
  }

  lemma ChainSlice(ptr: map<int, int>, size: map<int, int>, s: seq<Chunk>, end: int, i: nat, j: nat)
    requires Chain(ptr, size, s, end) && i <= j <= |s|
    ensures Chain(ptr, size, s[i..j], StartOr(s, j, end))
  {
    forall k | 0 <= k < j - i
      ensures Link(ptr, size, s[i..j], StartOr(s, j, end), k)
    {
      assert Link(ptr, size, s, end, i + k);
    }
  }

  lemma ChainConcat(ptr: map<int, int>, size: map<int, int>, a: seq<Chunk>, b: seq<Chunk>, end: int)
    requires Chain(ptr, size, a, StartOr(b, 0, end)) && Chain(ptr, size, b, end)
    ensures Chain(ptr, size, a + b, end)
  {
    forall i | 0 <= i < |a + b|
      ensures Link(ptr, size, a + b, end, i)
    {
      if i < |a| {
        assert Link(ptr, size, a, StartOr(b, 0, end), i);
      } else {
        assert Link(ptr, size, b, end, i - |a|);
      }
    }
  }

  // Linking the last chunk of a, at x, to b: its new pointer and size.
  function JoinPtr(ptr: map<int, int>, x: int, touch: bool, next: int): (r: map<int, int>) {
    ptr[x := if touch && next in ptr then ptr[next] else next]
  }

  function JoinSize(size: map<int, int>, x: int, touch: bool, next: int): (r: map<int, int>)
    requires x in size
  {
    if touch && next in size then size[x := size[x] + size[next]] else size
  }

  // a without its last chunk, that chunk's size, and b are in memory; linking
  // the last chunk to b as free does leaves the joined list in memory.
  lemma ChainJoin(ptr: map<int, int>, size: map<int, int>, a: seq<Chunk>, b: seq<Chunk>, end: int)
    requires a != [] && NotIn(a[|a| - 1].start, a[..|a| - 1]) && NotIn(a[|a| - 1].start, b)
    requires Chain(ptr, size, a[..|a| - 1], a[|a| - 1].start)
    requires Chain(ptr, size, b, end)
    requires a[|a| - 1].start in size && size[a[|a| - 1].start] == a[|a| - 1].size
    ensures var x := a[|a| - 1].start;
            Chain(JoinPtr(ptr, x, Touch(a, b), StartOr(b, 0, end)), JoinSize(size, x, Touch(a, b), StartOr(b, 0, end)), Join(a, b), end)
  {
    var n := |a| - 1;
    var x, touch, next := a[n].start, Touch(a, b), StartOr(b, 0, end);
    var ptr', size' := JoinPtr(ptr, x, touch, next), JoinSize(size, x, touch, next);
    var last, rest := a[n], b;
    if touch {
      assert Link(ptr, size, b, end, 0);
      last, rest := Chunk(x, a[n].size + b[0].size), b[1..];
      ChainSlice(ptr, size, b, end, 1, |b|);
      assert b[1..] == b[1..|b|];
    } else {
      assert a == a[..n] + [last];
    }
    assert size' == size[x := last.size];
    ChainFrame(ptr, size, a[..n], x, x, ptr'[x], last.size);
    ChainFrame(ptr, size, rest, end, x, ptr'[x], last.size);
    assert Link(ptr', size', [last], StartOr(rest, 0, end), 0);
    ChainConcat(ptr', size', a[..n], [last], StartOr(rest, 0, end));
    ChainConcat(ptr', size', a[..n] + [last], rest, end);
  }

  ghost predicate Headers(size: map<int, int>, live: map<int, int>) {
    forall a :: a in live ==> a in size && size[a] == live[a]
  }

  // No chunk starts where a live block starts, and no two at one address.
  lemma StartsDiffer(base: int, h: Heap, a: int)
    requires Inv(base, h) && a in h.live
    ensures NotIn(a, h.list)
  {
    forall i | 0 <= i < |h.list|
      ensures h.list[i].start != a
    {
      assert Apart(h.list[i], Block(h.live, a));
    }
  }

  lemma SortedNotIn(list: seq<Chunk>, t: nat)
    requires Sorted(list) && t < |list|
    ensures NotIn(list[t].start, list[..t]) && NotIn(list[t].start, list[t + 1..])
  {
    forall i | 0 <= i < |list| && i != t
      ensures list[i].start != list[t].start
    {
      if i < t {
        SortedFar(list, i, t);
      } else {
        SortedFar(list, t, i);
      }
    }
  }

  // The right-hand merge of free: bp linked to the chunks after p.
  lemma FreeRight(base: int, h: Heap, ptr: map<int, int>, size: map<int, int>, a: int)
    requires Inv(base, h) && a in h.live && Chain(ptr, size, h.list, base) && Headers(size, h.live)
    ensures var t, c := Pos(h.list, a), Block(h.live, a);
            && 0 <= t < |h.list| && h.list[t].start in ptr
            && var next := ptr[h.list[t].start];
               && (c.End() == next <==> Touch([c], h.list[t + 1..]))
               && a in size
               && Chain(JoinPtr(ptr, a, c.End() == next, next), JoinSize(size, a, c.End() == next, next), Join([c], h.list[t + 1..]), base)
  {
    hide Join, Sorted, LiveUnits, Sum, Pos;
    PosBase(base, h.list, a);
    var t, c := Pos(h.list, a), Block(h.live, a);
    assert Link(ptr, size, h.list, base, t);
    StartsDiffer(base, h, a);
    ChainSlice(ptr, size, h.list, base, t + 1, |h.list|);
    assert h.list[t + 1..] == h.list[t + 1..|h.list|];
    ChainJoin(ptr, size, [c], h.list[t + 1..], base);
  }

  lemma JoinNotIn(a: seq<Chunk>, b: seq<Chunk>, x: int)
    requires NotIn(x, a) && NotIn(x, b)
    ensures NotIn(x, Join(a, b))
  {
    hide Join;
    forall i | 0 <= i < |Join(a, b)|
      ensures Join(a, b)[i].start != x
    {
      JoinAt(a, b, i);
    }
  }

  // The left-hand merge: p linked to bp and what follows it.
  lemma FreeLeft(base: int, list: seq<Chunk>, c: Chunk, t: nat, ptr: map<int, int>, size: map<int, int>, y: int, n: int)
    requires ListInv(base, list) && Chain(ptr, size, list, base) && NotIn(c.start, list)
    requires t == Pos(list, c.start) < |list|
    requires Chain(ptr[c.start := y], size[c.start := n], Join([c], list[t + 1..]), base)
    ensures list[t].start in size[c.start := n] && size[c.start := n][list[t].start] == list[t].size
    ensures var touch, p := list[t].End() == c.start, list[t].start;
            Chain(JoinPtr(ptr[c.start := y], p, touch, c.start), JoinSize(size[c.start := n], p, touch, c.start), Insert(list, c), base)
  {
    hide Join, Sorted;
    var a, b, p := list[..t + 1], Join([c], list[t + 1..]), list[t].start;
    var ptr', size' := ptr[c.start := y], size[c.start := n];
    assert Link(ptr, size, list, base, t);
    SortedInv(base, list);
    SortedNotIn(list, t);
    JoinAt([c], list[t + 1..], 0);
    JoinNotIn([c], list[t + 1..], p);
    ChainSlice(ptr, size, list, base, 0, t);
    assert a[..t] == list[0..t] == list[..t];
    ChainFrame(ptr, size, a[..t], p, c.start, y, n);
    ChainJoin(ptr', size', a, b, base);
  }

  // The two merges of free, as updates of the header words.
  function FreePtr(ptr: map<int, int>, size: map<int, int>, p: int, bp: int): (r: map<int, int>)
    requires p in ptr && p in size && bp in size
  {
    var right, left := bp + HEADER * size[bp] == ptr[p], p + HEADER * size[p] == bp;
    JoinPtr(JoinPtr(ptr, bp, right, ptr[p]), p, left, bp)
  }

  function FreeSize(ptr: map<int, int>, size: map<int, int>, p: int, bp: int): (r: map<int, int>)
    requires p in ptr && p in size && bp in size
  {
    var right, left := bp + HEADER * size[bp] == ptr[p], p + HEADER * size[p] == bp;
    JoinSize(JoinSize(size, bp, right, ptr[p]), p, left, bp)
  }

  lemma FreeLinked(base: int, h: Heap, ptr: map<int, int>, size: map<int, int>, a: int)
    requires Inv(base, h) && a in h.live && Chain(ptr, size, h.list, base) && Headers(size, h.live)
    ensures Pos(h.list, a) >= 0
    ensures var p := h.list[Pos(h.list, a)].start;
            && p in ptr && p in size && a in size && p != a
            && ptr[p] in ptr && ptr[p] in size
            && Chain(FreePtr(ptr, size, p, a), FreeSize(ptr, size, p, a), Free(h, a).list, base)
            && Headers(FreeSize(ptr, size, p, a), h.live - {a})
  {
    hide Join, Insert, Inv, NotIn, Pos;
    FreeRight(base, h, ptr, size, a);
    InvList(base, h);
    var t, c := Pos(h.list, a), Block(h.live, a);
    var p := h.list[t].start;
    assert Link(ptr, size, h.list, base, t);
    assert Link(ptr, size, h.list, base, if t + 1 < |h.list| then t + 1 else 0);
    StartsDiffer(base, h, a);
    var right := c.End() == ptr[p];
    var y, n := JoinPtr(ptr, a, right, ptr[p])[a], JoinSize(size, a, right, ptr[p])[a];
    assert JoinPtr(ptr, a, right, ptr[p]) == ptr[a := y];
    assert JoinSize(size, a, right, ptr[p]) == size[a := n];
    FreeLeft(base, h.list, c, t, ptr, size, y, n);
    forall b | b in h.live - {a}
      ensures b != p
    {
      StartsDiffer(base, h, b);
      NotAt(b, h.list, t);
    }
    NotAt(a, h.list, t);
  }

  lemma NotAt(x: int, s: seq<Chunk>, i: nat)
    requires NotIn(x, s) && i < |s|
    ensures s[i].start != x
  {}

  lemma InvList(base: int, h: Heap)
    requires Inv(base, h)
    ensures ListInv(base, h.list)
  {}

  lemma DifferAt(list: seq<Chunk>, k: nat, i: nat)
    requires Sorted(list) && k < |list| && i < |list| && i != k
    ensures list[i].start != list[k].start
  {
    if i < k {
      SortedFar(list, i, k);
    } else {
      SortedFar(list, k, i);
    }
  }

  lemma UnlinkChain(base: int, list: seq<Chunk>, ptr: map<int, int>, size: map<int, int>, k: nat)
    requires ListInv(base, list) && Chain(ptr, size, list, base) && 0 < k < |list|
    ensures list[k].start in ptr
    ensures Chain(ptr[list[k - 1].start := ptr[list[k].start]], size, list[..k] + list[k + 1..], base)
  {
    assert Link(ptr, size, list, base, k);
    var r, ptr' := list[..k] + list[k + 1..], ptr[list[k - 1].start := ptr[list[k].start]];
    forall i | 0 <= i < |r|
      ensures Link(ptr', size, r, base, i)
    {
      var j := if i < k then i else i + 1;
      assert Link(ptr, size, list, base, j);
      if j != k - 1 {
        DifferAt(list, k - 1, j);
      }
    }
  }

  lemma ShrinkChain(base: int, list: seq<Chunk>, ptr: map<int, int>, size: map<int, int>, k: nat, n: int)
    requires ListInv(base, list) && Chain(ptr, size, list, base) && 0 < k < |list| && 1 <= n < list[k].size
    ensures var a := list[k].start + HEADER * (list[k].size - n);
            Chain(ptr, size[list[k].start := list[k].size - n][a := n], list[k := Chunk(list[k].start, list[k].size - n)], base)
  {
    var c := list[k];
    var a := c.start + HEADER * (c.size - n);
    var r, size' := list[k := Chunk(c.start, c.size - n)], size[c.start := c.size - n][a := n];
    forall i | 0 <= i < |r|
      ensures Link(ptr, size', r, base, i)
    {
      assert Link(ptr, size, list, base, i);
      if i < k {
        SortedFar(list, i, k);
      } else if k < i {
        SortedFar(list, k, i);
      }
    }
  }

  // Unlinking chunk k, or shortening it and writing the tail's header.
  lemma TakeLinked(base: int, h: Heap, ptr: map<int, int>, size: map<int, int>, k: nat, n: int)
    requires Inv(base, h) && Chain(ptr, size, h.list, base) && Headers(size, h.live)
    requires 0 < k < |h.list| && 1 <= n <= h.list[k].size
    ensures var c, r := h.list[k], Take(h, k, n).heap;
            var a := c.start + HEADER * (c.size - n);
            && Link(ptr, size, h.list, base, k) && Link(ptr, size, h.list, base, k - 1)
            && (c.size == n ==>
                  Chain(ptr[h.list[k - 1].start := ptr[c.start]], size, r.list, base) && Headers(size, r.live))
            && (c.size != n ==>
                  && Chain(ptr, size[c.start := c.size - n][a := n], r.list, base)
                  && Headers(size[c.start := c.size - n][a := n], r.live))
  {
    hide Sum, LiveUnits, Sorted;
    var c := h.list[k];
    var a := c.start + HEADER * (c.size - n);
    assert Link(ptr, size, h.list, base, k) && Link(ptr, size, h.list, base, k - 1);
    TakeLive(base, h, k, n);
    forall b | b in h.live
      ensures b != c.start
    {
      StartsDiffer(base, h, b);
    }
    if c.size == n {
      UnlinkChain(base, h.list, ptr, size, k);
    } else {
      ShrinkChain(base, h.list, ptr, size, k, n);
    }
  }

  // free's two stopping tests together.
  predicate Between(p: int, next: int, bp: int) {
    (bp > p && bp < next) || (p >= next && (bp > p || bp < next))
  }

  // The tests succeed at one position of the circle only: bp's predecessor.
  lemma StopsAtPos(base: int, list: seq<Chunk>, k: nat, bp: int)
    requires ListInv(base, list) && NotIn(bp, list) && bp > base && k < |list|
    ensures Between(list[k].start, StartOr(list, k + 1, base), bp) <==> k == Pos(list, bp)
  {
    PosSplits(list, bp);
    if k + 1 < |list| {
      SortedFar(list, k, k + 1);
    }
    if k > 0 {
      SortedFar(list, 0, k);
    }
  }

  // Setting freep to &base on the first call changes nothing else.
  lemma FirstCall(base: int, h: Heap, nbytes: nat, region: Option<int>)
    requires Inv(base, h)
    requires region.Some? ==> Fresh(base, h, Chunk(region.value, CoreUnits(Units(nbytes))))
    ensures var h1 := h.(rover := if h.rover == 0 then base else h.rover);
            && Inv(base, h1)
            && (region.Some? ==> Fresh(base, h1, Chunk(region.value, CoreUnits(Units(nbytes)))))
            && Malloc(base, h1, nbytes, region) == Malloc(base, h, nbytes, region)
            && NeedsCore(h1, nbytes) == NeedsCore(h, nbytes)
  {
    hide Sum, LiveUnits, LiveInv, Find, Sorted, Units;
    var h1 := h.(rover := if h.rover == 0 then base else h.rover);
    if h.rover == 0 {
      assert StartsAt(h.list, 0, base);
      PosIs(h.list, 0);
      assert RoverIndex(h1) == RoverIndex(h);
      if region.Some? {
        var c := Chunk(region.value, CoreUnits(Units(nbytes)));
        assert Granted(base, h1, c) == Granted(base, h, c);
        assert Grow(base, h1, c) == Grow(base, h, c);
      }
    } else {
      assert h1 == h;
    }
  }

  // A block can be live only after the first malloc has set freep.
  lemma FirstMalloc(base: int, h: Heap)
    requires Inv(base, h) && h.live != map[]
    ensures h.rover != 0
  {}

  // Following the pointer of chunk k leads to the next position of the circle.
  lemma WalkAt(base: int, h: Heap, ptr: map<int, int>, size: map<int, int>, k: nat)
    requires Inv(base, h) && h.rover != 0 && Chain(ptr, size, h.list, base) && k < |h.list|
    ensures var x := h.list[k].start;
            && x in ptr && x in size && size[x] == h.list[k].size
            && ptr[x] == h.list[After1(h.list, k)].start
            && (x == h.rover <==> k == RoverIndex(h))
  {
    assert Link(ptr, size, h.list, base, k);
    RoverAt(base, h);
    if k != RoverIndex(h) {
      DifferAt(h.list, RoverIndex(h), k);
    }
  }

  lemma GrantHeaders(ptr: map<int, int>, size: map<int, int>, s: seq<Chunk>, live: map<int, int>, end: int, x: int, n: int)
    requires Chain(ptr, size, s, end) && NotIn(x, s) && Headers(size, live)
    ensures Chain(ptr, size[x := n], s, end) && Headers(size[x := n], live[x := n])
  {
    var size' := size[x := n];
    forall i | 0 <= i < |s|
      ensures Link(ptr, size', s, end, i)
    {
      assert Link(ptr, size, s, end, i);
    }
  }

  // The circle of base alone.
  lemma FirstChain(base: int, h: Heap, ptr: map<int, int>, size: map<int, int>)
    requires Inv(base, h) && h.rover == 0
    ensures 0 < base && Chain(ptr[base := base], size[base := 0], h.list, base) && Headers(size[base := 0], h.live)
  {
    assert Link(ptr[base := base], size[base := 0], h.list, base, 0);
  }

  function After1(list: seq<Chunk>, k: nat): (r: nat)
    requires k < |list|
    ensures r < |list|
  {
    if k + 1 < |list| then k + 1 else 0
  }

  // The search stands at position k, with d steps to go to complete the round
  // that began at position `from`.
  ghost predicate Searching(list: seq<Chunk>, from: int, k: int, d: int, n: int) {
    && 0 <= from < |list| && 0 <= k < |list| && 0 < d <= |list|
    && d == Steps(list, k, from)
    && Find(list, from, |list|, n) == Find(list, k, d, n)
  }

  lemma SearchStep(list: seq<Chunk>, from: int, k: int, d: int, n: int)
    requires Searching(list, from, k, d, n)
    ensures var j := After1(list, k);
            && (list[j].size >= n ==> Find(list, from, |list|, n) == Some(j))
            && (list[j].size < n && j == from ==> Find(list, from, |list|, n) == None)
            && (list[j].size < n && j != from ==> Searching(list, from, j, d - 1, n))
            && (j == from <==> d == 1)
  {
    hide Steps;
    var j := After1(list, k);
    StepsNext(list, k, from);
    if list[j].size < n && d == 1 {
      assert Find(list, j, 0, n) == None;
    }
  }

  lemma StartSearch(list: seq<Chunk>, from: nat, n: int)
    requires from < |list|
    ensures Searching(list, from, from, |list|, n)
  {}

  lemma TakeRover(base: int, h: Heap, k: nat)
    requires Inv(base, h) && 0 < k < |h.list|
    ensures h.list[k - 1].start > 0
  {}

  lemma StepsNext(list: seq<Chunk>, k: nat, from: nat)
    requires k < |list| && from < |list|
    ensures 0 < Steps(list, k, from) <= |list|
    ensures After1(list, k) == from <==> Steps(list, k, from) == 1
    ensures After1(list, k) != from ==> Steps(list, After1(list, k), from) == Steps(list, k, from) - 1
  {}

  // What a search that found position j means for malloc.
  lemma FoundFirst(base: int, h: Heap, nbytes: nat, region: Option<int>, j: nat)
    requires Inv(base, h) && 0 <= RoverIndex(h) < |h.list|
    requires region.Some? ==> Fresh(base, h, Chunk(region.value, CoreUnits(Units(nbytes))))
    requires Find(h.list, RoverIndex(h), |h.list|, Units(nbytes)) == Some(j)
    ensures 0 < j < |h.list| && 1 <= Units(nbytes) <= h.list[j].size
    ensures Malloc(base, h, nbytes, region) == Take(h, j, Units(nbytes)) && !NeedsCore(h, nbytes)
  {
    hide Sorted, LiveInv, Sum, LiveUnits, Take, RoverIndex;
    FindAny(h.list, RoverIndex(h), Units(nbytes));
  }

  lemma FoundNone(base: int, h: Heap, nbytes: nat, region: Option<int>)
    requires Inv(base, h) && 0 <= RoverIndex(h) < |h.list|
    requires region.Some? ==> Fresh(base, h, Chunk(region.value, CoreUnits(Units(nbytes))))
    requires Find(h.list, RoverIndex(h), |h.list|, Units(nbytes)) == None
    ensures NeedsCore(h, nbytes) && Units(nbytes) >= 1
    ensures region.None? && h.rover != 0 ==> Malloc(base, h, nbytes, region) == Outcome(h, None)
  {
    hide Sorted, LiveInv, Sum, LiveUnits, Take, RoverIndex;
    FindAny(h.list, RoverIndex(h), Units(nbytes));
    assert h.rover != 0 ==> h.(rover := h.rover) == h;
  }

  lemma FoundGrown(base: int, h: Heap, nbytes: nat, region: Option<int>, g: Heap, j: Option<nat>)
    requires Inv(base, h) && NeedsCore(h, nbytes) && region.Some?
    requires Fresh(base, h, Chunk(region.value, CoreUnits(Units(nbytes))))
    requires g == Grow(base, h, Chunk(region.value, CoreUnits(Units(nbytes))))
    requires 0 <= RoverIndex(g) < |g.list| && j == Find(g.list, RoverIndex(g), |g.list|, Units(nbytes))
    ensures j.Some? && 0 < j.value < |g.list| && 1 <= Units(nbytes) <= g.list[j.value].size
    ensures Malloc(base, h, nbytes, region) == Take(g, j.value, Units(nbytes))
  {
    hide Sorted, LiveInv, Sum, LiveUnits, Take, RoverIndex, Grow;
    RoverAt(base, h);
    FindAny(h.list, RoverIndex(h), Units(nbytes));
    GrowFinds(base, h, Chunk(region.value, CoreUnits(Units(nbytes))), Units(nbytes));
  }

  // The chunk before a block is the last that starts below it.
  lemma Predecessor(base: int, h: Heap, bp: int)
    requires Inv(base, h) && bp in h.live
    ensures Pos(h.list, bp) >= 0 && h.list[Pos(h.list, bp)].start < bp
    ensures forall c :: c in h.list && c.start < bp ==> c.start <= h.list[Pos(h.list, bp)].start
  {
    hide Sum, LiveUnits, Pos;
    PosBase(base, h.list, bp);
    PosSplits(h.list, bp);
    var t := Pos(h.list, bp);
    forall c | c in h.list && c.start < bp
      ensures c.start <= h.list[t].start
    {
      var i :| 0 <= i < |h.list| && h.list[i] == c;
      if i < t {
        SortedFar(h.list, i, t);
      }
    }
  }

  class Allocator {
    const base: int               // &base
    var ptr: map<int, int>        // s.ptr of the header at each address
    var size: map<int, int>       // s.size of the header at each address
    var freep: int
    var sbrks: nat                // calls of sbrk so far
    ghost var h: Heap

    ghost predicate Valid()
      reads this
    {
      && Inv(base, h)
      && h.rover == freep
      && Headers(size, h.live)
      && (freep != 0 ==> Chain(ptr, size, h.list, base))
    }

    constructor (base: int)
      requires 0 < base
      ensures Valid() && this.base == base && h == Empty(base) && sbrks == 0
    {
      this.base := base;
      ptr, size, freep, sbrks := map[], map[], 0, 0;
      h := Empty(base);
      EmptyInv(base);
    }

    // Walk the circle to the chunk after which bp belongs.
    method FindPlace(bp: int) returns (p: int)
      requires Valid() && bp in h.live && freep != 0
      ensures Pos(h.list, bp) >= 0 && p == h.list[Pos(h.list, bp)].start
    {
      hide Sum, LiveUnits, Sorted, Pos;
      PosBase(base, h.list, bp);
      StartsDiffer(base, h, bp);
      RoverAt(base, h);
      ghost var t, k := Pos(h.list, bp), RoverIndex(h);
      p := freep;
      assert Link(ptr, size, h.list, base, k);
      while !(bp > p && bp < ptr[p])
        invariant 0 <= k < |h.list| && p == h.list[k].start && Link(ptr, size, h.list, base, k)
        decreases if k <= t then t - k else t - k + |h.list|
      {
        StopsAtPos(base, h.list, k, bp);
        if p >= ptr[p] && (bp > p || bp < ptr[p]) {
          break;
        }
        p := ptr[p];
        k := if k + 1 < |h.list| then k + 1 else 0;
        assert Link(ptr, size, h.list, base, k);
      }
      StopsAtPos(base, h.list, k, bp);
    }

    method Free(ap: int)
      requires Valid() && ap - HEADER in h.live
      modifies this`ptr, this`size, this`freep, this`h
      ensures Valid() && freep != 0
      ensures Pos(old(h).list, ap - HEADER) >= 0 && h == HeapRun.Free(old(h), ap - HEADER)
      ensures freep < ap - HEADER && (forall c :: c in old(h).list && c.start < ap - HEADER ==> c.start <= freep)
    {
      hide Inv, Insert, Chain, Headers, Pos;
      var bp := ap - HEADER;
      Predecessor(base, h, bp);
      FirstMalloc(base, h);
      var p := FindPlace(bp);
      FreeLinked(base, h, ptr, size, bp);
      FreeKeeps(base, h, bp);
      ghost var ptr', size' := FreePtr(ptr, size, p, bp), FreeSize(ptr, size, p, bp);
      var next := ptr[p];
      if bp + HEADER * size[bp] == next {
        size := size[bp := size[bp] + size[next]];
        ptr := ptr[bp := ptr[next]];
      } else {
        ptr := ptr[bp := next];
      }
      if p + HEADER * size[p] == bp {
        size := size[p := size[p] + size[bp]];
        ptr := ptr[p := ptr[bp]];
      } else {
        ptr := ptr[p := bp];
      }
      freep := p;
      assert ptr == ptr' && size == size';
      h := HeapRun.Free(h, bp);
    }

    // Get a region from sbrk and free it into the list. `region` is the
    // address sbrk returns, None for its error value.
    method Morecore(nunits: nat, region: Option<int>) returns (p: int)
      requires Valid() && freep != 0 && nunits >= 1
      requires region.Some? ==> Fresh(base, h, Chunk(region.value, CoreUnits(nunits)))
      modifies this
      ensures Valid() && freep != 0 && sbrks == old(sbrks) + 1
      ensures region.None? ==> p == 0 && h == old(h)
      ensures region.Some? ==> h.obtained == old(h).obtained + (if nunits < 4096 then 4096 else nunits) && h.live == old(h).live
      ensures region.Some? ==> p == freep && h == Grow(base, old(h), Chunk(region.value, CoreUnits(nunits)))
    {
      hide Inv, Chain, Headers, Insert, Fresh;
      var nu := nunits;
      if nu < MINCORE {
        nu := MINCORE;
      }
      sbrks := sbrks + 1;
      if region.None? {
        return 0;
      }
      var hp := region.value;
      GrowKeeps(base, h, Chunk(hp, nu));
      GrantKeeps(base, h, Chunk(hp, nu));
      StartsDiffer(base, Granted(base, h, Chunk(hp, nu)), hp);
      GrantHeaders(ptr, size, h.list, h.live, base, hp, nu);
      size := size[hp := nu];
      h := Granted(base, h, Chunk(hp, nu));
      Free(hp + HEADER);
      p := freep;
    }

    // Hand out n units of the chunk at p, whose predecessor is prevp.
    method TakeFrom(prevp: int, p: int, n: int, ghost k: nat) returns (ap: int)
      requires Valid() && freep != 0 && 0 < k < |h.list| && 1 <= n <= h.list[k].size
      requires prevp == h.list[k - 1].start && p == h.list[k].start
      modifies this`ptr, this`size, this`freep, this`h
      ensures Valid() && freep != 0
      ensures h == Take(old(h), k, n).heap && Some(ap) == Take(old(h), k, n).result
    {
      hide Inv, Chain, Headers;
      TakeLinked(base, h, ptr, size, k, n);
      TakeKeeps(base, h, k, n);
      TakeRover(base, h, k);
      if size[p] == n {
        ptr := ptr[prevp := ptr[p]];
        ap := p + HEADER;
      } else {
        size := size[p := size[p] - n];
        var q := p + HEADER * size[p];
        size := size[q := n];
        ap := q + HEADER;
      }
      freep := prevp;
      h := Take(h, k, n).heap;
    }

    // The first call makes base a circle of its own.
    method Start()
      requires Valid()
      modifies this`ptr, this`size, this`freep, this`h
      ensures Valid() && freep != 0
      ensures h == old(h).(rover := if old(h).rover == 0 then base else old(h).rover)
    {
      if freep == 0 {
        FirstChain(base, h, ptr, size);
        ptr, size := ptr[base := base], size[base := 0];
        freep := base;
        h := h.(rover := base);
        assert StartsAt(h.list, 0, base);
      }
    }

    // The next-fit search, asking sbrk for more after one fruitless round.
    method Malloc(nbytes: nat, region: Option<int>) returns (r: Option<int>)
      requires Valid() && (NeedsCore(h, nbytes) ==> SbrkExact(CoreUnits(Units(nbytes))))
      requires region.Some? ==> Fresh(base, h, Chunk(region.value, CoreUnits(Units(nbytes))))
      modifies this
      ensures Valid()
      ensures h == HeapRun.Malloc(base, old(h), nbytes, region).heap
      ensures r == HeapRun.Malloc(base, old(h), nbytes, region).result
      ensures sbrks == old(sbrks) + if NeedsCore(old(h), nbytes) then 1 else 0
      ensures r.None? <==> NeedsCore(old(h), nbytes) && region.None?
      ensures !NeedsCore(old(h), nbytes) ==> NextFit(old(h), Units(nbytes), Outcome(h, r))
      ensures NeedsCore(old(h), nbytes) && region.Some? ==>
                NextFit(Grow(base, old(h), Chunk(region.value, CoreUnits(Units(nbytes)))), Units(nbytes), Outcome(h, r))
    {
      hide Inv, Chain, Headers, Fresh, HeapRun.Malloc, NeedsCore, NextFit, Find, Take, Grow, RoverIndex, Steps;
      MallocPlaces(base, h, nbytes, region);
      MallocKeeps(base, h, nbytes, region);
      var nunits := (nbytes + HEADER - 1) % UINT / HEADER + 1;
      assert nunits == Units(nbytes) && nunits >= 1;
      hide Units;
      FirstCall(base, h, nbytes, region);
      Start();
      var prevp := freep;
      ghost var h1 := h;
      RoverAt(base, h);
      ghost var k, d, grown := RoverIndex(h), |h.list|, false;
      StartSearch(h.list, k, nunits);
      WalkAt(base, h, ptr, size, k);
      var p := ptr[prevp];
      while true
        invariant Valid() && freep != 0
        invariant Searching(h.list, RoverIndex(h), k, d, nunits) && prevp == h.list[k].start
        invariant p == h.list[After1(h.list, k)].start
        invariant grown ==> region.Some? && h == Grow(base, h1, Chunk(region.value, CoreUnits(nunits))) && NeedsCore(h1, nbytes)
        invariant !grown ==> h == h1
        invariant sbrks == old(sbrks) + if grown then 1 else 0
        decreases !grown, d
      {
        SearchStep(h.list, RoverIndex(h), k, d, nunits);
        ghost var j := After1(h.list, k);
        WalkAt(base, h, ptr, size, j);
        if grown {
          FoundGrown(base, h1, nbytes, region, h, Find(h.list, RoverIndex(h), |h.list|, nunits));
        }
        if size[p] >= nunits {
          if !grown {
            FoundFirst(base, h1, nbytes, region, j);
          }
          var ap := TakeFrom(prevp, p, nunits, j);
          return Some(ap);
        }
        if p == freep {
          FoundNone(base, h1, nbytes, region);
          p := Morecore(nunits, region);
          if p == 0 {
            return None;
          }
          grown := true;
          RoverAt(base, h);
          j, d := RoverIndex(h), |h.list| + 1;
          StartSearch(h.list, j, nunits);
          WalkAt(base, h, ptr, size, j);
        }
        prevp, p := p, ptr[p];
        k, d := j, d - 1;
      }
    }
  }
}
