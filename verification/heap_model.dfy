/**
 The Kernighan and Ritchie allocator of umalloc.c on values: what free and
 malloc do to the address-ordered free list, and what every run keeps.

 Addresses are bytes and sizes are header units of 8 bytes. The list starts
 with `base`, a static header of size 0 that lies below all heap memory.
 */
module HeapModel {

  const HEADER := 8
  const UINT := 0x1_0000_0000
  const INT := 0x8000_0000
  const MINCORE := 4096
  // The largest request whose size in bytes sbrk's signed argument can hold.
  const MAXREQUEST := 0x7fff_fff0

  datatype Chunk = Chunk(start: int, size: int) {
    function End(): int { start + HEADER * size }
  }

  datatype Heap = Heap(
    list: seq<Chunk>,       // the free list in address order, base first
    live: map<int, int>,    // header address and size of each block handed out
    rover: int,             // freep, 0 before the first malloc
    obtained: int)          // units received from sbrk

  // ------------------------------------------------------- request rounding

  // malloc's nunits, in 32-bit arithmetic.
  function Units(nbytes: nat): (r: nat) {
    (nbytes + HEADER - 1) % UINT / HEADER + 1
  }

  // The argument sbrk sees: a 32-bit product reinterpreted as a signed int.
  function SbrkArg(nu: nat): (r: int) {
    var p := nu * HEADER % UINT;
    if p < INT then p else p - UINT
  }

  // sbrk is asked for exactly nu units.
  predicate SbrkExact(nu: nat) {
    SbrkArg(nu) == HEADER * nu
  }

  lemma SbrkExactIff(nu: nat)
    ensures SbrkExact(nu) <==> nu < INT / HEADER
  {}

  // The block is large enough and sbrk is asked for exactly its size.
  predicate RequestExact(nbytes: nat) {
    var nu := Units(nbytes);
    nbytes + HEADER <= HEADER * nu < nbytes + 2 * HEADER && SbrkExact(nu)
  }

  lemma RequestExactIff(nbytes: nat)
    requires nbytes < UINT
    ensures RequestExact(nbytes) <==> nbytes <= MAXREQUEST
  {
    if nbytes <= MAXREQUEST {
      assert Units(nbytes) == (nbytes + 7) / 8 + 1;
    }
  }

  // 32-bit wrap: a request for almost all memory is answered with one unit.
  lemma RequestWraps()
    ensures Units(0xffff_fffd) == 1 && !RequestExact(0xffff_fffd)
  {}

  // ------------------------------------------------------------- free list

  predicate Before(s: seq<Chunk>, i: int)
    requires 0 < i < |s|
  {
    s[i - 1].End() < s[i].start
  }

  // Address order with a gap after every chunk: no two chunks touch.
  ghost predicate Sorted(s: seq<Chunk>) {
    && (forall i :: 0 < i < |s| ==> Before(s, i))
    && (forall i :: 0 <= i < |s| ==> 0 <= s[i].size)
  }

  lemma SortedOne(c: Chunk)
    requires 0 <= c.size
    ensures Sorted([c])
  {}

  lemma {:induction false} SortedFar(s: seq<Chunk>, i: nat, j: nat)
    requires Sorted(s) && i < j < |s|
    ensures s[i].End() < s[j].start
    decreases j
  {
    assert Before(s, j);
    if i < j - 1 {
      SortedFar(s, i, j - 1);
    }
  }

  function Sum(s: seq<Chunk>): (r: int) {
    if s == [] then 0 else s[0].size + Sum(s[1..])
  }

  predicate Within(c: Chunk, x: int) {
    c.start <= x < c.End()
  }

  ghost predicate Covers(s: seq<Chunk>, x: int) {
    exists i :: 0 <= i < |s| && Within(s[i], x)
  }

  predicate Touch(a: seq<Chunk>, b: seq<Chunk>) {
    a != [] && b != [] && a[|a| - 1].End() == b[0].start
  }

  // Two lists in address order, merged where they touch.
  function Join(a: seq<Chunk>, b: seq<Chunk>): (r: seq<Chunk>) {
    if Touch(a, b) then
      a[..|a| - 1] + [Chunk(a[|a| - 1].start, a[|a| - 1].size + b[0].size)] + b[1..]
    else
      a + b
  }

  lemma SliceSorted(s: seq<Chunk>, i: nat, j: nat)
    requires Sorted(s) && i <= j <= |s|
    ensures Sorted(s[i..j])
  {
    forall k | 0 < k < |s[i..j]|
      ensures Before(s[i..j], k)
    {
      assert Before(s, i + k);
    }
  }

  lemma ConcatSorted(a: seq<Chunk>, b: seq<Chunk>)
    requires Sorted(a) && Sorted(b)
    requires a != [] && b != [] ==> a[|a| - 1].End() < b[0].start
    ensures Sorted(a + b)
  {
    forall k | 0 < k < |a + b|
      ensures Before(a + b, k)
    {
      if k < |a| {
        assert Before(a, k);
      } else if k > |a| {
        assert Before(b, k - |a|);
      }
    }
  }

  lemma JoinSorted(a: seq<Chunk>, b: seq<Chunk>)
    requires Sorted(a) && Sorted(b)
    requires a != [] && b != [] ==> a[|a| - 1].End() <= b[0].start
    ensures Sorted(Join(a, b))
  {
    if Join(a, b) == a + b {
      ConcatSorted(a, b);
    } else {
      var n := |a| - 1;
      var c := Chunk(a[n].start, a[n].size + b[0].size);
      SliceSorted(a, 0, n);
      SliceSorted(b, 1, |b|);
      assert b[1..] == b[1..|b|] && a[..n] == a[0..n];
      assert n > 0 ==> Before(a, n);
      assert |b| > 1 ==> Before(b, 1);
      ConcatSorted(a[..n], [c]);
      ConcatSorted(a[..n] + [c], b[1..]);
    }
  }

  // Each element of a join, by position.
  lemma JoinAt(a: seq<Chunk>, b: seq<Chunk>, i: nat)
    ensures |Join(a, b)| == |a| + |b| - if Touch(a, b) then 1 else 0
    ensures i < |a| && !(Touch(a, b) && i == |a| - 1) ==> Join(a, b)[i] == a[i]
    ensures Touch(a, b) && i == |a| - 1 ==> Join(a, b)[i] == Chunk(a[i].start, a[i].size + b[0].size)
    ensures |a| <= i < |Join(a, b)| ==> Join(a, b)[i] == if Touch(a, b) then b[i - |a| + 1] else b[i - |a|]
  {}

  lemma JoinSum(a: seq<Chunk>, b: seq<Chunk>)
    ensures Sum(Join(a, b)) == Sum(a) + Sum(b)
  {
    SumConcat(a, b);
    if Join(a, b) != a + b {
      var n := |a| - 1;
      var c := Chunk(a[n].start, a[n].size + b[0].size);
      SumConcat(a[..n], [a[n]]);
      assert a == a[..n] + [a[n]];
      SumConcat(a[..n], [c]);
      SumConcat(a[..n] + [c], b[1..]);
    }
  }

  lemma {:induction false} SumConcat(a: seq<Chunk>, b: seq<Chunk>)
    ensures Sum(a + b) == Sum(a) + Sum(b)
  {
    if a == [] {
      assert a + b == b;
    } else {
      SumConcat(a[1..], b);
      assert (a + b)[1..] == a[1..] + b;
    }
  }

  lemma JoinCovers(a: seq<Chunk>, b: seq<Chunk>, x: int)
    requires Sorted(a) && Sorted(b)
    ensures Covers(Join(a, b), x) <==> Covers(a, x) || Covers(b, x)
  {
    var j := Join(a, b);
    if j == a + b {
      ConcatCovers(a, b, x);
    } else {
      var n := |a| - 1;
      ConcatCovers(a[..n] + [j[n]], b[1..], x);
      ConcatCovers(a[..n], [j[n]], x);
      ConcatCovers(a[..n], [a[n]], x);
      ConcatCovers([b[0]], b[1..], x);
      assert a == a[..n] + [a[n]] && b == [b[0]] + b[1..];
      OneCovers(a[n], x);
      OneCovers(b[0], x);
      OneCovers(j[n], x);
    }
  }

  lemma OneCovers(c: Chunk, x: int)
    ensures Covers([c], x) <==> Within(c, x)
  {
    assert Within(c, x) ==> Within([c][0], x);
  }

  lemma ConcatCovers(a: seq<Chunk>, b: seq<Chunk>, x: int)
    ensures Covers(a + b, x) <==> Covers(a, x) || Covers(b, x)
  {
    if Covers(a, x) {
      var i :| 0 <= i < |a| && Within(a[i], x);
      assert Within((a + b)[i], x);
    }
    if Covers(b, x) {
      var i :| 0 <= i < |b| && Within(b[i], x);
      assert Within((a + b)[|a| + i], x);
    }
  }

  // The last chunk that starts below address x.
  function Pos(s: seq<Chunk>, x: int): (r: int)
    ensures -1 <= r < |s|
  {
    if s == [] then -1
    else if s[|s| - 1].start < x then |s| - 1
    else Pos(s[..|s| - 1], x)
  }

  lemma {:induction false} PosSplits(s: seq<Chunk>, x: int)
    requires Sorted(s)
    ensures forall i :: 0 <= i <= Pos(s, x) ==> s[i].start < x
    ensures forall i :: Pos(s, x) < i < |s| ==> s[i].start >= x
  {
    if s != [] {
      if s[|s| - 1].start >= x {
        SliceSorted(s, 0, |s| - 1);
        PosSplits(s[..|s| - 1], x);
      } else {
        forall i | 0 <= i < |s| - 1
          ensures s[i].start < x
        {
          SortedFar(s, i, |s| - 1);
        }
      }
    }
  }

  // Chunk c put in its place, merged with the neighbours it touches.
  function Insert(s: seq<Chunk>, c: Chunk): (r: seq<Chunk>) {
    var t := Pos(s, c.start) + 1;
    Join(s[..t], Join([c], s[t..]))
  }

  predicate Apart(c: Chunk, d: Chunk) {
    c.End() <= d.start || d.End() <= c.start
  }

  ghost predicate Clear(s: seq<Chunk>, c: Chunk) {
    forall i :: 0 <= i < |s| ==> Apart(s[i], c) && s[i].start != c.start
  }

  // The parts Insert joins are in order.
  lemma InsertParts(s: seq<Chunk>, c: Chunk)
    requires Sorted(s) && c.size > 0
    requires Clear(s, c)
    ensures var t := Pos(s, c.start) + 1;
            && Sorted(s[..t]) && Sorted(s[t..]) && Sorted(Join([c], s[t..]))
            && Join([c], s[t..])[0].start == c.start
            && (t > 0 ==> s[t - 1].End() <= c.start)
  {
    hide Pos;
    var t := Pos(s, c.start) + 1;
    PosSplits(s, c.start);
    SliceSorted(s, 0, t);
    SliceSorted(s, t, |s|);
    assert s[..t] == s[0..t] && s[t..] == s[t..|s|];
    assert t < |s| ==> Apart(s[t], c);
    assert t > 0 ==> Apart(s[t - 1], c);
    JoinSorted([c], s[t..]);
  }

  lemma InsertKeeps(s: seq<Chunk>, c: Chunk)
    requires Sorted(s) && c.size > 0
    requires Clear(s, c)
    ensures Sorted(Insert(s, c)) && Sum(Insert(s, c)) == Sum(s) + c.size
  {
    hide Join, Sorted, Sum, Clear, Pos;
    var t := Pos(s, c.start) + 1;
    InsertParts(s, c);
    JoinSorted(s[..t], Join([c], s[t..]));
    JoinSum([c], s[t..]);
    JoinSum(s[..t], Join([c], s[t..]));
    SumConcat(s[..t], s[t..]);
    SumOne(c);
    assert s == s[..t] + s[t..];
  }

  lemma SumOne(c: Chunk)
    ensures Sum([c]) == c.size
  {}

  lemma InsertCovers(s: seq<Chunk>, c: Chunk, x: int)
    requires Sorted(s) && c.size > 0
    requires Clear(s, c)
    ensures Covers(Insert(s, c), x) <==> Covers(s, x) || Within(c, x)
  {
    hide Join, Covers, Clear, Sorted, Pos;
    var t := Pos(s, c.start) + 1;
    InsertParts(s, c);
    SortedOne(c);
    JoinCovers([c], s[t..], x);
    JoinCovers(s[..t], Join([c], s[t..]), x);
    ConcatCovers(s[..t], s[t..], x);
    assert s == s[..t] + s[t..];
    OneCovers(c, x);
  }
}
