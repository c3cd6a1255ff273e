/**
 The shell's language, stated apart from its parser: how text spells tokens,
 which token lists are commands, and what each command is. sh.c's parser accepts
 exactly this language and builds exactly these commands.
 */
module ShellGrammar {
  import opened ShellModel

  // ------------------------------------------------------------------ spelling

  function Spelling(t: Token): (r: string) {
    match t
    case End => ""
    case Symbol(c) => [c]
    case Append => ">>"
    case Word(w) => w
  }

  predicate GoodToken(t: Token) {
    match t
    case End => false
    case Symbol(c) => Sym(c)
    case Append => true
    case Word(w) => GoodWord(w)
  }

  // A token with the spaces before it.
  datatype Piece = Piece(gap: string, token: Token)

  predicate Gap(g: string) {
    forall i :: 0 <= i < |g| ==> Space(g[i])
  }

  // Two words need a space between them, and so do > and what starts with >.
  predicate Apart(t: Token, gap: string, u: Token) {
    gap == "" ==> !(t.Word? && u.Word?) && !(t == Symbol('>') && (u == Symbol('>') || u == Append))
  }

  predicate Spells(ps: seq<Piece>, end: string) {
    && Gap(end)
    && (forall i :: 0 <= i < |ps| ==> Gap(ps[i].gap) && GoodToken(ps[i].token))
    && (forall i :: 0 < i < |ps| ==> Apart(ps[i - 1].token, ps[i].gap, ps[i].token))
  }

  // The text of some pieces, with spaces at the end.
  function Text(ps: seq<Piece>, end: string): (r: string) {
    if ps == [] then end else ps[0].gap + Spelling(ps[0].token) + Text(ps[1..], end)
  }

  function Tokens(ps: seq<Piece>): (r: seq<Token>)
    ensures |r| == |ps|
  {
    if ps == [] then [] else [ps[0].token] + Tokens(ps[1..])
  }

  // The tokens of a text, as gettoken takes them.
  function Lex(s: string): (r: seq<Token>)
    decreases |s|
  {
    var t := Next(s);
    if t.0 == End then [] else [t.0] + Lex(t.1)
  }

  lemma {:induction false} SkipGap(g: string, s: string)
    requires Gap(g)
    ensures Skip(g + s) == Skip(s)
  {
    if g == "" {
      assert g + s == s;
    } else {
      assert (g + s)[1..] == g[1..] + s;
      SkipGap(g[1..], s);
    }
  }

  lemma {:induction false} WordLenIs(w: string, s: string)
    requires (forall i :: 0 <= i < |w| ==> WordChar(w[i])) && (s == "" || !WordChar(s[0]))
    ensures WordLen(w + s) == |w|
  {
    if w == "" {
      assert w + s == s;
    } else {
      assert (w + s)[1..] == w[1..] + s;
      WordLenIs(w[1..], s);
    }
  }

  // Nothing in s goes on the token t.
  predicate Breaks(t: Token, s: string) {
    s == "" || ((t.Word? ==> !WordChar(s[0])) && (t == Symbol('>') ==> s[0] != '>'))
  }

  lemma NextSpelled(t: Token, s: string)
    requires GoodToken(t) && Breaks(t, s)
    ensures Next(Spelling(t) + s) == (t, Skip(s)) && t != End
  {
    var x := Spelling(t) + s;
    assert x[0] == Spelling(t)[0];
    if t.Word? {
      WordLenIs(t.text, s);
      assert x[..|t.text|] == t.text && x[|t.text|..] == s;
    } else if t.Append? {
      assert x[2..] == s;
    } else {
      assert x[1..] == s && (|x| > 1 ==> x[1] == s[0]);
    }
  }

  lemma TextBreaks(ps: seq<Piece>, end: string)
    requires ps != [] && Spells(ps, end)
    ensures Breaks(ps[0].token, Text(ps[1..], end))
  {
    var s := Text(ps[1..], end);
    if |ps| > 1 {
      assert ps[1..][0] == ps[1] && Apart(ps[0].token, ps[1].gap, ps[1].token);
      if ps[1].gap != "" {
        assert s[0] == ps[1].gap[0];
      } else {
        assert s[0] == Spelling(ps[1].token)[0];
      }
    }
  }

  lemma LexGap(g: string, s: string)
    requires Gap(g)
    ensures Lex(g + s) == Lex(s)
  {
    SkipGap(g, s);
  }

  lemma LexEnd(g: string)
    requires Gap(g)
    ensures Lex(g) == []
  {
    SkipGap(g, "");
    assert g + "" == g;
  }

  lemma LexSkip(s: string)
    ensures Lex(Skip(s)) == Lex(s)
  {
    SkipAgain(s);
  }

  // However its tokens are spaced, a text is read as those tokens.
  lemma {:induction false} LexText(ps: seq<Piece>, end: string)
    requires Spells(ps, end)
    ensures Lex(Text(ps, end)) == Tokens(ps)
  {
    hide Next, Gap, Breaks, GoodToken, Spelling;
    if ps == [] {
      LexEnd(end);
    } else {
      var p, s := ps[0], Text(ps[1..], end);
      assert Spells(ps[1..], end);
      LexText(ps[1..], end);
      TextBreaks(ps, end);
      LexGap(p.gap, Spelling(p.token) + s);
      assert p.gap + (Spelling(p.token) + s) == Text(ps, end);
      NextSpelled(p.token, s);
      LexSkip(s);
    }
  }

  // The spaces that Skip goes over.
  lemma {:induction false} SkipTakes(s: string) returns (g: string)
    ensures Gap(g) && s == g + Skip(s)
  {
    if s != "" && Space(s[0]) {
      var h := SkipTakes(s[1..]);
      g := [s[0]] + h;
    } else {
      g := "";
    }
  }

  lemma NextTakes(s: string) returns (t: string)
    requires s != "" && !Space(s[0])
    ensures GoodToken(Next(s).0) && s == Spelling(Next(s).0) + t && Next(s).1 == Skip(t) && Breaks(Next(s).0, t)
  {
    var k := if s[0] == '>' then (if |s| > 1 && s[1] == '>' then 2 else 1) else if Sym(s[0]) then 1 else WordLen(s);
    t := s[k..];
    assert s == s[..k] + s[k..];
  }

  // Every text is spelled by some pieces, so Lex is determined by LexText.
  lemma {:induction false} LexCovers(s: string) returns (ps: seq<Piece>, end: string)
    ensures Spells(ps, end) && Text(ps, end) == s
    decreases |s|
  {
    hide Next, GoodToken, Breaks, WordLen, Spelling;
    var g := SkipTakes(s);
    var u := Skip(s);
    if u == "" {
      ps, end := [], g;
      assert g + u == g;
    } else {
      var t := NextTakes(u);
      var tok := Next(u).0;
      SpelledLonger(tok);
      var qs;
      qs, end := LexCovers(t);
      ps := [Piece(g, tok)] + qs;
      assert ps[1..] == qs;
      TextStarts(tok, qs, end);
      assert g + (Spelling(tok) + t) == g + Spelling(tok) + t;
    }
  }

  lemma SpelledLonger(t: Token)
    requires GoodToken(t)
    ensures Spelling(t) != ""
  {}

  lemma TextStarts(t: Token, ps: seq<Piece>, end: string)
    requires Spells(ps, end) && Breaks(t, Text(ps, end))
    ensures ps != [] ==> Apart(t, ps[0].gap, ps[0].token)
  {
    var s := Text(ps, end);
    if ps != [] && ps[0].gap == "" {
      assert s[0] == Spelling(ps[0].token)[0];
    }
  }
}
