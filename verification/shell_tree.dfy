/**
 Commands as sh.c holds them: words are pairs of positions in the command line,
 and nulterminate ends each with a NUL in place.
 */
module ShellTree {
  import opened ShellModel

  const NUL := '\0'

  // A token's first position and the one behind its last.
  datatype Span = Span(q: nat, eq: nat)

  datatype RedirSpan = RedirSpan(file: Span, out: bool)

  datatype Tree =
    | ExecTree(argv: seq<Span>)
    | RedirTree(cmd: Tree, to: RedirSpan)
    | PipeTree(left: Tree, right: Tree)
    | ListTree(left: Tree, right: Tree)
    | BackTree(cmd: Tree)

  // A whole word of the text.
  predicate SpanOk(text: string, s: Span) {
    && s.q < s.eq <= |text|
    && (forall i :: s.q <= i < s.eq ==> WordChar(text[i]))
    && (s.eq < |text| ==> !WordChar(text[s.eq]))
  }

  predicate AllOk(text: string, ss: seq<Span>) {
    forall i :: 0 <= i < |ss| ==> SpanOk(text, ss[i])
  }

  predicate RedirsOk(text: string, rs: seq<RedirSpan>) {
    forall i :: 0 <= i < |rs| ==> SpanOk(text, rs[i].file)
  }

  predicate TreeOk(text: string, t: Tree) {
    match t
    case ExecTree(argv) => AllOk(text, argv)
    case RedirTree(c, to) => TreeOk(text, c) && SpanOk(text, to.file)
    case PipeTree(l, r) => TreeOk(text, l) && TreeOk(text, r)
    case ListTree(l, r) => TreeOk(text, l) && TreeOk(text, r)
    case BackTree(c) => TreeOk(text, c)
  }

  // ------------------------------------------------------- what a tree means

  function WordAt(text: string, s: Span): (r: string) {
    if s.q <= s.eq <= |text| then text[s.q..s.eq] else ""
  }

  function Words(text: string, ss: seq<Span>): (r: seq<string>)
    ensures |r| == |ss|
  {
    seq(|ss|, i requires 0 <= i < |ss| => WordAt(text, ss[i]))
  }

  function RedirAt(text: string, r: RedirSpan): (x: Redirect) {
    Redirect(WordAt(text, r.file), r.out)
  }

  function Redirs(text: string, rs: seq<RedirSpan>): (r: seq<Redirect>)
    ensures |r| == |rs|
  {
    seq(|rs|, i requires 0 <= i < |rs| => RedirAt(text, rs[i]))
  }

  function Meaning(text: string, t: Tree): (c: Cmd) {
    match t
    case ExecTree(argv) => Exec(Words(text, argv))
    case RedirTree(c, to) => Redir(Meaning(text, c), RedirAt(text, to))
    case PipeTree(l, r) => Pipe(Meaning(text, l), Meaning(text, r))
    case ListTree(l, r) => List(Meaning(text, l), Meaning(text, r))
    case BackTree(c) => Back(Meaning(text, c))
  }

  lemma WordsSnoc(text: string, ss: seq<Span>, s: Span)
    ensures Words(text, ss + [s]) == Words(text, ss) + [WordAt(text, s)]
  {}

  lemma RedirsSnoc(text: string, rs: seq<RedirSpan>, r: RedirSpan)
    ensures Redirs(text, rs + [r]) == Redirs(text, rs) + [RedirAt(text, r)]
  {}

  function WrapTree(t: Tree, rs: seq<RedirSpan>): (r: Tree) {
    if rs == [] then t else RedirTree(WrapTree(t, rs[..|rs| - 1]), rs[|rs| - 1])
  }

  lemma {:induction false} WrapMeans(text: string, t: Tree, rs: seq<RedirSpan>)
    requires TreeOk(text, t) && RedirsOk(text, rs)
    ensures Meaning(text, WrapTree(t, rs)) == Wrap(Meaning(text, t), Redirs(text, rs)) && TreeOk(text, WrapTree(t, rs))
  {
    if rs == [] {
      assert Redirs(text, rs) == [];
    } else {
      var n := |rs| - 1;
      WrapMeans(text, t, rs[..n]);
      RedirsSnoc(text, rs[..n], rs[n]);
      assert rs[..n] + [rs[n]] == rs;
    }
  }

  // ------------------------------------------------------------ nulterminate

  // The positions at which nulterminate stores a NUL.
  function Ends(t: Tree): (r: set<nat>) {
    match t
    case ExecTree(argv) => EndsOf(argv)
    case RedirTree(c, to) => Ends(c) + {to.file.eq}
    case PipeTree(l, r) => Ends(l) + Ends(r)
    case ListTree(l, r) => Ends(l) + Ends(r)
    case BackTree(c) => Ends(c)
  }

  function EndsOf(ss: seq<Span>): (r: set<nat>) {
    if ss == [] then {} else EndsOf(ss[..|ss| - 1]) + {ss[|ss| - 1].eq}
  }

  // The words of a tree.
  predicate HasSpan(t: Tree, s: Span) {
    match t
    case ExecTree(argv) => s in argv
    case RedirTree(c, to) => HasSpan(c, s) || s == to.file
    case PipeTree(l, r) => HasSpan(l, s) || HasSpan(r, s)
    case ListTree(l, r) => HasSpan(l, s) || HasSpan(r, s)
    case BackTree(c) => HasSpan(c, s)
  }

  // The string that starts at position q of a buffer.
  function CString(b: seq<char>, q: nat): (r: string)
    requires q <= |b|
    decreases |b| - q
  {
    if q == |b| || b[q] == NUL then "" else [b[q]] + CString(b, q + 1)
  }

  // b is the text with its own NUL and with NULs at the positions `ends`.
  predicate Marked(text: string, ends: set<nat>, b: seq<char>) {
    && |b| == |text| + 1
    && forall k :: 0 <= k < |b| ==> b[k] == if k == |text| || k in ends then NUL else text[k]
  }

  // No NUL falls inside a word.
  predicate Outside(text: string, ends: set<nat>) {
    forall k :: k in ends && k < |text| ==> !WordChar(text[k])
  }

  lemma {:induction false} EndsOutside(text: string, t: Tree)
    requires TreeOk(text, t)
    ensures Outside(text, Ends(t))
  {
    match t
    case ExecTree(argv) => ArgEnds(text, argv);
    case RedirTree(c, _) => EndsOutside(text, c);
    case PipeTree(l, r) =>
      EndsOutside(text, l);
      EndsOutside(text, r);
    case ListTree(l, r) =>
      EndsOutside(text, l);
      EndsOutside(text, r);
    case BackTree(c) => EndsOutside(text, c);
  }

  lemma {:induction false} ArgEnds(text: string, ss: seq<Span>)
    requires AllOk(text, ss)
    ensures Outside(text, EndsOf(ss))
  {
    if ss != [] {
      ArgEnds(text, ss[..|ss| - 1]);
    }
  }

  lemma {:induction false} SpanEnds(text: string, t: Tree, s: Span)
    requires TreeOk(text, t) && HasSpan(t, s)
    ensures SpanOk(text, s) && s.eq in Ends(t)
  {
    match t
    case ExecTree(argv) => ArgIn(argv, s);
    case RedirTree(c, to) =>
      if HasSpan(c, s) {
        SpanEnds(text, c, s);
      }
    case PipeTree(l, r) => SpanEnds(text, if HasSpan(l, s) then l else r, s);
    case ListTree(l, r) => SpanEnds(text, if HasSpan(l, s) then l else r, s);
    case BackTree(c) => SpanEnds(text, c, s);
  }

  lemma {:induction false} ArgIn(ss: seq<Span>, s: Span)
    requires s in ss
    ensures s.eq in EndsOf(ss)
  {
    if ss[|ss| - 1] != s {
      ArgIn(ss[..|ss| - 1], s);
    }
  }

  // Up to the end of its span a word reads as it did, and there it ends.
  lemma {:induction false} ReadsWord(text: string, ends: set<nat>, b: seq<char>, s: Span, q: nat)
    requires Marked(text, ends, b) && Outside(text, ends) && NUL !in text
    requires SpanOk(text, s) && s.eq in ends && s.q <= q <= s.eq
    ensures CString(b, q) == text[q..s.eq]
    decreases s.eq - q
  {
    if q < s.eq {
      assert WordChar(text[q]) && q !in ends && text[q] in text;
      ReadsWord(text, ends, b, s, q + 1);
    }
  }

  // After nulterminate, every word of the command is the C string at its start.
  lemma WordsTerminated(text: string, t: Tree, b: seq<char>, s: Span)
    requires TreeOk(text, t) && NUL !in text && Marked(text, Ends(t), b) && HasSpan(t, s)
    ensures s.q < |b| && CString(b, s.q) == WordAt(text, s)
  {
    SpanEnds(text, t, s);
    EndsOutside(text, t);
    ReadsWord(text, Ends(t), b, s, s.q);
  }
}
