/** Shared by several components. */
module Common {
  datatype Option<+T> = None | Some(value: T)

  predicate Distinct(s: seq<int>) {
    forall i, j :: 0 <= i < j < |s| ==> s[i] != s[j]
  }

  function Elements<T(==)>(s: seq<T>): (r: set<T>) {
    set x | x in s
  }

  lemma {:induction false} DistinctSize(s: seq<int>)
    requires Distinct(s)
    ensures |Elements(s)| == |s|
  {
    if s != [] {
      var n := |s| - 1;
      DistinctSize(s[..n]);
      assert Elements(s) == Elements(s[..n]) + {s[n]};
    }
  }

  function Interval(a: int, b: int): (r: set<int>)
    requires a <= b
    ensures |r| == b - a
    ensures forall x :: x in r <==> a <= x < b
    decreases b - a
  {
    if a == b then {} else Interval(a, b - 1) + {b - 1}
  }
}
