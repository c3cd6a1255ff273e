/**
 The regular expression matcher of grep.c (Kernighan and Pike, "The Practice of
 Programming", chapter 9), against what patterns mean.
 */
module Grep {

  // ----------------------------------------------------- what a pattern means

  datatype Item =
    | One(c: char)       // c itself, or any character if c is '.'
    | Star(c: char)      // any number of such characters
    | AtEnd              // a final '$'

  // A pattern without its leading '^' as a list of items.
  function Items(re: string): (r: seq<Item>) {
    if re == "" then []
    else if |re| > 1 && re[1] == '*' then [Star(re[0])] + Items(re[2..])
    else if re == "$" then [AtEnd]
    else [One(re[0])] + Items(re[1..])
  }

  predicate Fits(c: char, x: char) {
    c == '.' || c == x
  }

  // An item accepts the part of the text from i to j.
  predicate Accepts(item: Item, text: string, i: int, j: int) {
    0 <= i <= j <= |text|
    && match item
       case One(c) => j == i + 1 && Fits(c, text[i])
       case Star(c) => forall k :: i <= k < j ==> Fits(c, text[k])
       case AtEnd => i == j == |text|
  }

  // cuts[k] and cuts[k + 1] delimit what item number k accepts.
  ghost predicate Cuts(items: seq<Item>, text: string, start: int, cuts: seq<int>) {
    && |cuts| == |items| + 1
    && 0 <= cuts[0] <= |text| && cuts[0] == start
    && forall k :: 0 <= k < |items| ==> Accepts(items[k], text, cuts[k], cuts[k + 1])
  }

  ghost predicate MatchesAt(re: string, text: string, start: int) {
    exists cuts :: Cuts(Items(re), text, start, cuts)
  }

  // A pattern matches a text if it does so at some position, which a leading
  // '^' fixes to the start.
  ghost predicate Matches(re: string, text: string) {
    if re != "" && re[0] == '^' then MatchesAt(re[1..], text, 0)
    else exists start :: MatchesAt(re, text, start)
  }

  // ------------------------------------------------------- unfolding matches

  lemma EmptyMatches(text: string, start: int)
    requires 0 <= start <= |text|
    ensures MatchesAt("", text, start)
  {
    assert Items("") == [];
    assert Cuts(Items(""), text, start, [start]);
  }

  // The first item accepts up to some point and the rest goes on from there.
  lemma FirstItem(re: string, item: Item, rest: string, text: string, start: int)
    requires Items(re) == [item] + Items(rest)
    ensures MatchesAt(re, text, start) <==> exists mid :: Accepts(item, text, start, mid) && MatchesAt(rest, text, mid)
  {
    if MatchesAt(re, text, start) {
      var cuts :| Cuts(Items(re), text, start, cuts);
      assert Accepts(Items(re)[0], text, cuts[0], cuts[1]);
      var tail := cuts[1..];
      forall k | 0 <= k < |Items(rest)|
        ensures Accepts(Items(rest)[k], text, tail[k], tail[k + 1])
      {
        assert Accepts(Items(re)[k + 1], text, cuts[k + 1], cuts[k + 2]);
      }
      assert Cuts(Items(rest), text, cuts[1], tail);
    }
    if mid :| Accepts(item, text, start, mid) && MatchesAt(rest, text, mid) {
      var tail :| Cuts(Items(rest), text, mid, tail);
      var cuts := [start] + tail;
      forall k | 0 <= k < |Items(re)|
        ensures Accepts(Items(re)[k], text, cuts[k], cuts[k + 1])
      {
        if k > 0 {
          assert Accepts(Items(rest)[k - 1], text, tail[k - 1], tail[k]);
        }
      }
      assert Cuts(Items(re), text, start, cuts);
    }
  }

  lemma OneMatches(re: string, text: string, start: int)
    requires re != "" && !(|re| > 1 && re[1] == '*') && re != "$"
    ensures MatchesAt(re, text, start) <==>
            0 <= start < |text| && Fits(re[0], text[start]) && MatchesAt(re[1..], text, start + 1)
  {
    FirstItem(re, One(re[0]), re[1..], text, start);
    if 0 <= start < |text| && Fits(re[0], text[start]) {
      assert Accepts(One(re[0]), text, start, start + 1);
    }
  }

  lemma DollarMatches(text: string, start: int)
    ensures MatchesAt("$", text, start) <==> start == |text|
  {
    assert Items("") == [] && Items("$") == [AtEnd] + Items("");
    FirstItem("$", AtEnd, "", text, start);
    if start == |text| {
      EmptyMatches(text, start);
      assert Accepts(AtEnd, text, start, start);
    }
  }

  // A star matches if the rest does here, or after one more fitting character.
  lemma StarMatches(re: string, text: string, start: int)
    requires |re| > 1 && re[1] == '*' && 0 <= start <= |text|
    ensures MatchesAt(re, text, start) <==>
            || MatchesAt(re[2..], text, start)
            || (start < |text| && Fits(re[0], text[start]) && MatchesAt(re, text, start + 1))
  {
    var item, rest := Star(re[0]), re[2..];
    FirstItem(re, item, rest, text, start);
    FirstItem(re, item, rest, text, start + 1);
    if mid :| Accepts(item, text, start, mid) && MatchesAt(rest, text, mid) {
      if start < mid {
        assert Accepts(item, text, start + 1, mid);
      }
    }
    if MatchesAt(rest, text, start) {
      assert Accepts(item, text, start, start);
    }
    if start < |text| && Fits(re[0], text[start]) && MatchesAt(re, text, start + 1) {
      var mid :| Accepts(item, text, start + 1, mid) && MatchesAt(rest, text, mid);
      assert Accepts(item, text, start, mid);
    }
  }

  // --------------------------------------------------------------- the matcher

  // matchhere and matchstar as functions of the position in the text.
  predicate Here(re: string, text: string, i: nat)
    requires i <= |text|
    decreases |re|, |text| - i, 0
  {
    if re == "" then true
    else if |re| > 1 && re[1] == '*' then HereStar(re[0], re[2..], text, i)
    else if re == "$" then i == |text|
    else i < |text| && Fits(re[0], text[i]) && Here(re[1..], text, i + 1)
  }

  predicate HereStar(c: char, re: string, text: string, i: nat)
    requires i <= |text|
    decreases |re|, |text| - i, 1
  {
    Here(re, text, i) || (i < |text| && Fits(c, text[i]) && HereStar(c, re, text, i + 1))
  }

  lemma {:induction false} HereMeans(re: string, text: string, i: nat)
    requires i <= |text|
    ensures Here(re, text, i) <==> MatchesAt(re, text, i)
    decreases |re|, |text| - i, 0
  {
    hide MatchesAt;
    if re == "" {
      EmptyMatches(text, i);
    } else if |re| > 1 && re[1] == '*' {
      StarMeans(re, text, i);
    } else if re == "$" {
      DollarMatches(text, i);
    } else {
      OneMatches(re, text, i);
      if i < |text| {
        HereMeans(re[1..], text, i + 1);
      }
    }
  }

  lemma {:induction false} StarMeans(re: string, text: string, i: nat)
    requires |re| > 1 && re[1] == '*' && i <= |text|
    ensures HereStar(re[0], re[2..], text, i) <==> MatchesAt(re, text, i)
    decreases |re| - 1, |text| - i, 1
  {
    hide MatchesAt;
    StarMatches(re, text, i);
    HereMeans(re[2..], text, i);
    if i < |text| {
      StarMeans(re, text, i + 1);
    }
  }

  // match returns 1 exactly when the pattern matches the text.
  method Match(re: string, text: string) returns (found: bool)
    ensures found <==> Matches(re, text)
  {
    if re != "" && re[0] == '^' {
      found := MatchHere(re[1..], text, 0);
      return;
    }
    var i := 0;
    while true
      invariant 0 <= i <= |text|
      invariant forall k :: 0 <= k < i ==> !MatchesAt(re, text, k)
      decreases |text| - i
    {
      found := MatchHere(re, text, i);
      if found {
        return;
      }
      if i == |text| {
        break;
      }
      i := i + 1;
    }
    assert forall start :: MatchesAt(re, text, start) ==> 0 <= start <= |text|;
  }

  method MatchHere(re: string, text: string, i: nat) returns (found: bool)
    requires i <= |text|
    ensures found <==> MatchesAt(re, text, i)
    decreases |re|, |text| - i, 0
  {
    HereMeans(re, text, i);
    if re == "" {
      return true;
    }
    if |re| > 1 && re[1] == '*' {
      found := MatchStar(re[0], re[2..], text, i);
      return;
    }
    if re == "$" {
      return i == |text|;
    }
    if i < |text| && (re[0] == '.' || re[0] == text[i]) {
      found := MatchHere(re[1..], text, i + 1);
      HereMeans(re[1..], text, i + 1);
      return;
    }
    found := false;
  }

  method MatchStar(c: char, re: string, text: string, start: nat) returns (found: bool)
    requires start <= |text|
    ensures found <==> HereStar(c, re, text, start)
    decreases |re|, |text| - start, 1
  {
    var i := start;
    while true
      invariant start <= i <= |text|
      invariant HereStar(c, re, text, start) == HereStar(c, re, text, i)
      decreases |text| - i
    {
      found := MatchHere(re, text, i);
      HereMeans(re, text, i);
      if found {
        return;
      }
      if !(i < |text| && (text[i] == c || c == '.')) {
        break;
      }
      i := i + 1;
    }
  }
}
