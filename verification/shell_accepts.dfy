/**
 The parser accepts exactly the command lines and builds the command each one
 denotes.
 */
module ShellAccepts {
  import opened ShellModel
  import opened ShellGrammar
  import opened ShellLanguage

  // -------------------------------------------------------------------- items

  function RedOf(x: Item): (r: seq<Redirect>) {
    if x.Arg? then [] else [Redirect(x.file, x.op != Symbol('<'))]
  }

  function Reds(xs: seq<Item>): (r: seq<Redirect>) {
    if xs == [] then [] else RedOf(xs[0]) + Reds(xs[1..])
  }

  lemma Assoc<T>(a: seq<T>, b: seq<T>, c: seq<T>)
    ensures a + b + c == a + (b + c)
  {}

  lemma {:induction false} JoinTokens(xs: seq<Item>, ys: seq<Item>)
    ensures ItemTokens(xs + ys) == ItemTokens(xs) + ItemTokens(ys)
  {
    hide TokensOf;
    if xs == [] {
      assert xs + ys == ys;
    } else {
      JoinTokens(xs[1..], ys);
      assert (xs + ys)[0] == xs[0] && (xs + ys)[1..] == xs[1..] + ys;
      Assoc(TokensOf(xs[0]), ItemTokens(xs[1..]), ItemTokens(ys));
    }
  }

  lemma {:induction false} JoinArgs(xs: seq<Item>, ys: seq<Item>)
    ensures Args(xs + ys) == Args(xs) + Args(ys)
  {
    hide ArgOf;
    if xs == [] {
      assert xs + ys == ys;
    } else {
      JoinArgs(xs[1..], ys);
      assert (xs + ys)[0] == xs[0] && (xs + ys)[1..] == xs[1..] + ys;
      Assoc(ArgOf(xs[0]), Args(xs[1..]), Args(ys));
    }
  }

  lemma {:induction false} JoinReds(xs: seq<Item>, ys: seq<Item>)
    ensures Reds(xs + ys) == Reds(xs) + Reds(ys)
  {
    hide RedOf;
    if xs == [] {
      assert xs + ys == ys;
    } else {
      JoinReds(xs[1..], ys);
      assert (xs + ys)[0] == xs[0] && (xs + ys)[1..] == xs[1..] + ys;
      Assoc(RedOf(xs[0]), Reds(xs[1..]), Reds(ys));
    }
  }

  lemma FirstItem(x: Item, xs: seq<Item>)
    ensures ItemTokens([x] + xs) == TokensOf(x) + ItemTokens(xs)
    ensures Args([x] + xs) == ArgOf(x) + Args(xs) && Reds([x] + xs) == RedOf(x) + Reds(xs)
  {
    assert ([x] + xs)[1..] == xs;
  }

  lemma NoItems()
    ensures ItemTokens([]) == [] && Args([]) == [] && Reds([]) == []
  {}

  lemma WrapSnoc(c: Cmd, rs: seq<Redirect>, r: Redirect)
    ensures Wrap(c, rs + [r]) == Redir(Wrap(c, rs), r)
  {
    assert (rs + [r])[..|rs|] == rs;
  }

  lemma {:induction false} WrapAround(c: Cmd, rs: seq<Redirect>, xs: seq<Item>)
    ensures Wrap(c, rs + Reds(xs)) == Around(Wrap(c, rs), xs)
    decreases |xs|
  {
    hide Wrap, Reds;
    NoItems();
    if xs == [] {
      assert rs + [] == rs;
    } else {
      FirstItem(xs[0], xs[1..]);
      assert [xs[0]] + xs[1..] == xs;
      if xs[0].Arg? {
        WrapAround(c, rs, xs[1..]);
        assert [] + Reds(xs[1..]) == Reds(xs[1..]);
      } else {
        var r := RedOf(xs[0])[0];
        WrapAround(c, rs + [r], xs[1..]);
        Assoc(rs, [r], Reds(xs[1..]));
        WrapSnoc(c, rs, r);
      }
    }
  }

  lemma {:induction false} NoArgs(xs: seq<Item>)
    requires OnlyInto(xs)
    ensures Args(xs) == []
  {
    if xs != [] {
      NoArgs(xs[1..]);
    }
  }

  // One redirection, read.
  lemma RedirTokens(s: string)
    requires Peek(s, "<>")
    ensures Lex(s) != [] && IsOp(Lex(s)[0]) && Next(s).0 == Lex(s)[0] && Lex(Next(s).1) == Lex(s)[1..]
    ensures Next(Next(s).1).0.Word? <==> |Lex(s)| > 1 && Lex(s)[1].Word?
    ensures |Lex(s)| > 1 && Lex(s)[1].Word? ==>
              && GoodWord(Lex(s)[1].text) && Next(Next(s).1).0 == Lex(s)[1]
              && Lex(Next(Next(s).1).1) == Lex(s)[2..]
  {
    hide Next, Lex;
    PeekHead(s, "<>");
    LexHead(s);
    IsOpHead(Lex(s)[0]);
    LexHead(Next(s).1);
  }

  lemma RedirsStop(rs: seq<Redirect>, s: string)
    requires !Heads(Lex(s), "<>")
    ensures ParseRedirs(rs, s).Ok? && ParseRedirs(rs, s).value == rs && Lex(ParseRedirs(rs, s).rest) == Lex(s)
  {
    hide Lex, Next;
    PeekHead(s, "<>");
  }

  lemma RedirsStep(rs: seq<Redirect>, s: string) returns (x: Item, u: string)
    requires Heads(Lex(s), "<>")
    ensures ParseRedirs(rs, s).Ok? ==> |Lex(s)| > 1 && Lex(s)[1].Word?
    ensures |Lex(s)| > 1 && Lex(s)[1].Word? ==>
              && x.Into? && ItemOk(x) && [Lex(s)[0], Lex(s)[1]] == TokensOf(x) && Lex(u) == Lex(s)[2..] && |u| < |s|
              && ParseRedirs(rs, s) == ParseRedirs(rs + RedOf(x), u)
  {
    hide Lex, Next, GoodWord;
    PeekHead(s, "<>");
    RedirTokens(s);
    u := Next(Next(s).1).1;
    if |Lex(s)| > 1 && Lex(s)[1].Word? {
      x := Into(Lex(s)[0], Lex(s)[1].text);
    } else {
      x := Arg("");
    }
  }

  lemma {:induction false} RedirsSound(rs: seq<Redirect>, s: string) returns (xs: seq<Item>)
    requires ParseRedirs(rs, s).Ok?
    ensures ItemsOk(xs) && OnlyInto(xs)
    ensures ParseRedirs(rs, s).value == rs + Reds(xs)
    ensures Lex(s) == ItemTokens(xs) + Lex(ParseRedirs(rs, s).rest)
    decreases |s|
  {
    hide ParseRedirs, Lex, Heads, ItemOk, TokensOf, RedOf, ItemTokens, Reds;
    NoItems();
    if !Heads(Lex(s), "<>") {
      RedirsStop(rs, s);
      xs := [];
      assert rs + [] == rs && [] + Lex(s) == Lex(s);
    } else {
      var x, u := RedirsStep(rs, s);
      var ys := RedirsSound(rs + RedOf(x), u);
      xs := [x] + ys;
      FirstItem(x, ys);
      Assoc(rs, RedOf(x), Reds(ys));
      Assoc(TokensOf(x), ItemTokens(ys), Lex(ParseRedirs(rs, s).rest));
      assert Lex(s) == [Lex(s)[0], Lex(s)[1]] + Lex(s)[2..];
    }
  }

  lemma {:induction false} RedirsComplete(rs: seq<Redirect>, s: string, xs: seq<Item>, tail: seq<Token>)
    requires ItemsOk(xs) && OnlyInto(xs) && Lex(s) == ItemTokens(xs) + tail && !Heads(tail, "<>")
    ensures ParseRedirs(rs, s).Ok? && ParseRedirs(rs, s).value == rs + Reds(xs) && Lex(ParseRedirs(rs, s).rest) == tail
    decreases |xs|
  {
    hide ParseRedirs, Lex, Heads, ItemOk, RedOf, ItemTokens, Reds;
    NoItems();
    if xs == [] {
      assert [] + tail == tail && rs + [] == rs;
      RedirsStop(rs, s);
    } else {
      var more := ItemTokens(xs[1..]) + tail;
      FirstItem(xs[0], xs[1..]);
      assert [xs[0]] + xs[1..] == xs;
      Assoc(TokensOf(xs[0]), ItemTokens(xs[1..]), tail);
      OpHeads(xs[0], more);
      var x, u := RedirsStep(rs, s);
      assert x == xs[0] && Lex(u) == more;
      RedirsComplete(rs + RedOf(x), u, xs[1..], tail);
      Assoc(rs, RedOf(x), Reds(xs[1..]));
    }
  }

  lemma OpHeads(x: Item, more: seq<Token>)
    requires ItemOk(x) && x.Into?
    ensures Heads(TokensOf(x) + more, "<>")
  {}

  // ---------------------------------------------------------------- arguments

  // parseexec's loop starts at a word or at the end of the command.
  predicate AtArg(xs: seq<Item>) {
    xs == [] || xs[0].Arg?
  }

  // What may come after a simple command.
  predicate EndsPart(ts: seq<Token>) {
    ts == [] || Heads(ts, "|)&;")
  }

  lemma ArgToken(s: string)
    requires !Heads(Lex(s), "|)&;")
    ensures Next(s).0 == End <==> Lex(s) == []
    ensures Lex(s) != [] ==> Next(s).0 == Lex(s)[0] && Lex(Next(s).1) == Lex(s)[1..]
    ensures Lex(s) != [] && Lex(s)[0].Word? ==> GoodWord(Lex(s)[0].text)
    ensures Lex(s) == [] ==> Lex(Next(s).1) == []
  {
    hide Next, Lex;
    LexHead(s);
    EndRest(s);
  }

  lemma EndRest(s: string)
    ensures Next(s).0 == End ==> Next(s).1 == "" && Lex(Next(s).1) == []
  {}

  lemma ArgsStop(argv: seq<string>, rs: seq<Redirect>, s: string)
    requires EndsPart(Lex(s))
    ensures ParseArgs(argv, rs, s).Ok? && ParseArgs(argv, rs, s).value == Wrap(Exec(argv), rs)
    ensures Lex(ParseArgs(argv, rs, s).rest) == Lex(s)
  {
    hide Next, Lex, Wrap, ParseRedirs;
    PeekHead(s, "|)&;");
    if Lex(s) == [] {
      ArgToken(s);
    }
  }

  lemma ArgsStep(argv: seq<string>, rs: seq<Redirect>, s: string)
    requires Lex(s) != [] && Lex(s)[0].Word? && |argv| + 1 < MAXARGS && ParseRedirs(rs, Next(s).1).Ok?
    ensures var p := ParseRedirs(rs, Next(s).1); ParseArgs(argv, rs, s) == ParseArgs(argv + [Lex(s)[0].text], p.value, p.rest)
  {
    hide Next, Lex, Wrap, ParseRedirs;
    PeekHead(s, "|)&;");
    LexHead(s);
    IsOpHead(Lex(s)[0]);
    ArgToken(s);
  }

  lemma {:induction false} ArgsSound(argv: seq<string>, rs: seq<Redirect>, s: string) returns (xs: seq<Item>)
    requires |argv| < MAXARGS && ParseArgs(argv, rs, s).Ok?
    ensures ItemsOk(xs) && AtArg(xs) && |argv + Args(xs)| < MAXARGS
    ensures ParseArgs(argv, rs, s).value == Wrap(Exec(argv + Args(xs)), rs + Reds(xs))
    ensures Lex(s) == ItemTokens(xs) + Lex(ParseArgs(argv, rs, s).rest) && EndsPart(Lex(ParseArgs(argv, rs, s).rest))
    decreases |s|
  {
    hide *;
    NoItems();
    if EndsPart(Lex(s)) {
      xs := [];
      ArgsStop(argv, rs, s);
      assert argv + [] == argv && rs + [] == rs && [] + Lex(s) == Lex(s);
      Nothing();
    } else {
      var w := ArgsWord(argv, rs, s);
      var p, rest := ParseRedirs(rs, Next(s).1), Lex(ParseArgs(argv, rs, s).rest);
      var ys := RedirsSound(rs, Next(s).1);
      var zs := ArgsSound(argv + [w], p.value, p.rest);
      xs := ArgJoin(argv, rs, w, ys, zs);
      assert Lex(s) == [Word(w)] + Lex(s)[1..];
      Assoc([Word(w)] + ItemTokens(ys), ItemTokens(zs), rest);
      Assoc([Word(w)], ItemTokens(ys), ItemTokens(zs) + rest);
    }
  }

  lemma Nothing()
    ensures ItemsOk([]) && AtArg([])
  {}

  lemma ArgsWord(argv: seq<string>, rs: seq<Redirect>, s: string) returns (w: string)
    requires !EndsPart(Lex(s)) && ParseArgs(argv, rs, s).Ok?
    ensures Lex(s) != [] && Lex(s)[0] == Word(w) && GoodWord(w) && |argv| + 1 < MAXARGS && Lex(Next(s).1) == Lex(s)[1..]
    ensures ParseRedirs(rs, Next(s).1).Ok? && |Next(s).1| <= |s|
    ensures var p := ParseRedirs(rs, Next(s).1); ParseArgs(argv, rs, s) == ParseArgs(argv + [w], p.value, p.rest) && |p.rest| < |s|
  {
    hide Next, Lex, Wrap, ParseRedirs, GoodWord;
    PeekHead(s, "|)&;");
    ArgToken(s);
    w := Lex(s)[0].text;
  }

  // A word, the redirections behind it and the rest.
  lemma ArgJoin(argv: seq<string>, rs: seq<Redirect>, w: string, ys: seq<Item>, zs: seq<Item>) returns (xs: seq<Item>)
    requires GoodWord(w) && ItemsOk(ys) && OnlyInto(ys) && ItemsOk(zs)
    ensures xs == [Arg(w)] + ys + zs && ItemsOk(xs) && AtArg(xs)
    ensures argv + Args(xs) == argv + [w] + Args(zs) && rs + Reds(xs) == rs + Reds(ys) + Reds(zs)
    ensures ItemTokens(xs) == [Word(w)] + ItemTokens(ys) + ItemTokens(zs)
  {
    hide ItemTokens, Args, Reds, GoodWord;
    xs := [Arg(w)] + ys + zs;
    Assoc([Arg(w)], ys, zs);
    FirstItem(Arg(w), ys + zs);
    JoinTokens(ys, zs);
    JoinArgs(ys, zs);
    JoinReds(ys, zs);
    NoArgs(ys);
    Assoc([Word(w)], ItemTokens(ys), ItemTokens(zs));
    Assoc(argv, [w], Args(zs));
    Assoc(rs, Reds(ys), Reds(zs));
    assert [] + Args(zs) == Args(zs) && [] + (Reds(ys) + Reds(zs)) == Reds(ys) + Reds(zs);
  }

  // The redirections that items start with.
  function Lead(xs: seq<Item>): (n: nat)
    ensures n <= |xs| && OnlyInto(xs[..n]) && AtArg(xs[n..])
  {
    if xs == [] || xs[0].Arg? then 0
    else
      var n := 1 + Lead(xs[1..]);
      assert xs[n..] == xs[1..][n - 1..] && forall i :: 0 < i < n ==> xs[..n][i] == xs[1..][..n - 1][i - 1];
      n
  }

  lemma TailHeads(xs: seq<Item>, tail: seq<Token>)
    requires ItemsOk(xs) && AtArg(xs) && EndsPart(tail)
    ensures !Heads(ItemTokens(xs) + tail, "<>")
    ensures xs != [] ==> !Heads(ItemTokens(xs) + tail, "|)&;") && !Heads(ItemTokens(xs) + tail, "(")
  {
    if xs != [] {
      IsOpHead(Word(xs[0].word));
      assert (ItemTokens(xs) + tail)[0] == Word(xs[0].word);
    } else {
      assert ItemTokens(xs) + tail == tail;
    }
  }

  lemma {:induction false} ArgsComplete(argv: seq<string>, rs: seq<Redirect>, s: string, xs: seq<Item>, tail: seq<Token>)
    requires ItemsOk(xs) && AtArg(xs) && |argv + Args(xs)| < MAXARGS && Lex(s) == ItemTokens(xs) + tail
    requires EndsPart(tail)
    ensures ParseArgs(argv, rs, s).Ok? && ParseArgs(argv, rs, s).value == Wrap(Exec(argv + Args(xs)), rs + Reds(xs))
    ensures Lex(ParseArgs(argv, rs, s).rest) == tail
    decreases |xs|
  {
    hide *;
    if xs == [] {
      NoItems();
      assert [] + tail == tail && argv + [] == argv && rs + [] == rs;
      ArgsStop(argv, rs, s);
    } else {
      var w, ys, zs := FirstArg(xs, tail);
      var js := ArgJoin(argv, rs, w, ys, zs);
      var more := ItemTokens(ys) + (ItemTokens(zs) + tail);
      assert Lex(s) == [Word(w)] + more;
      LexHead(s);
      assert Lex(Next(s).1) == more;
      RedirsComplete(rs, Next(s).1, ys, ItemTokens(zs) + tail);
      var p := ParseRedirs(rs, Next(s).1);
      assert |argv + [w] + Args(zs)| >= |argv| + 1;
      ArgsStep(argv, rs, s);
      ArgsComplete(argv + [w], p.value, p.rest, zs, tail);
    }
  }

  // Items from a word on: the word, its redirections and the rest.
  lemma FirstArg(xs: seq<Item>, tail: seq<Token>) returns (w: string, ys: seq<Item>, zs: seq<Item>)
    requires ItemsOk(xs) && AtArg(xs) && xs != [] && EndsPart(tail)
    ensures xs == [Arg(w)] + ys + zs && GoodWord(w) && ItemsOk(ys) && OnlyInto(ys) && ItemsOk(zs) && AtArg(zs)
    ensures !Heads(ItemTokens(zs) + tail, "<>") && |zs| < |xs|
  {
    hide Heads, ItemTokens, Lead, ItemOk;
    w := xs[0].word;
    var us := xs[1..];
    var n := Lead(us);
    ys, zs := us[..n], us[n..];
    GoodArg(xs[0]);
    assert xs == [Arg(w)] + us && us == ys + zs;
    Assoc([Arg(w)], ys, zs);
    TailHeads(zs, tail);
  }

  lemma GoodArg(x: Item)
    requires ItemOk(x) && x.Arg?
    ensures GoodWord(x.word)
  {}

  // Words and redirections of s, a word first, are c inside the redirections rs.
  ghost predicate ArgsAre(rs: seq<Redirect>, s: string, c: Cmd, rest: seq<Token>) {
    exists xs :: ItemsOk(xs) && AtArg(xs) && |Args(xs)| < MAXARGS && Lex(s) == ItemTokens(xs) + rest && EndsPart(rest)
                 && c == Around(Wrap(Exec(Args(xs)), rs), xs)
  }

  // parseexec's loop takes words and redirections as they come and loses none.
  lemma ArgsMean(rs: seq<Redirect>, s: string)
    ensures var r := ParseArgs([], rs, s);
            && (r.Ok? <==> exists c, rest :: ArgsAre(rs, s, c, rest))
            && (r.Ok? ==> ArgsAre(rs, s, r.value, Lex(r.rest)))
  {
    var r := ParseArgs([], rs, s);
    if r.Ok? {
      ArgsFound(rs, s);
    }
    forall c, rest | ArgsAre(rs, s, c, rest)
      ensures r.Ok?
    {
      ArgsTaken(rs, s, c, rest);
    }
  }

  lemma ArgsFound(rs: seq<Redirect>, s: string)
    requires ParseArgs([], rs, s).Ok?
    ensures ArgsAre(rs, s, ParseArgs([], rs, s).value, Lex(ParseArgs([], rs, s).rest))
  {
    hide ParseArgs, Lex, ItemTokens, Args, Reds, Around, Wrap, EndsPart, ItemOk, AtArg;
    var xs := ArgsSound([], rs, s);
    assert [] + Args(xs) == Args(xs);
    WrapAround(Exec(Args(xs)), rs, xs);
  }

  lemma ArgsTaken(rs: seq<Redirect>, s: string, c: Cmd, rest: seq<Token>)
    requires ArgsAre(rs, s, c, rest)
    ensures ParseArgs([], rs, s).Ok? && ParseArgs([], rs, s).value == c && Lex(ParseArgs([], rs, s).rest) == rest
  {
    hide ParseArgs, Lex, ItemTokens, Args, Reds, Around, Wrap, EndsPart, ItemOk, AtArg;
    var xs :| ItemsOk(xs) && AtArg(xs) && |Args(xs)| < MAXARGS && Lex(s) == ItemTokens(xs) + rest && EndsPart(rest)
              && c == Around(Wrap(Exec(Args(xs)), rs), xs);
    assert [] + Args(xs) == Args(xs);
    ArgsComplete([], rs, s, xs, rest);
    WrapAround(Exec(Args(xs)), rs, xs);
  }

  // ---------------------------------------------------------- simple commands

  lemma ExecUnfold(s: string)
    requires !Heads(Lex(s), "(")
    ensures ParseExec(s).Ok? ==> ParseRedirs([], s).Ok?
    ensures ParseRedirs([], s).Ok? ==> ParseExec(s) == ParseArgs([], ParseRedirs([], s).value, ParseRedirs([], s).rest)
  {
    hide Lex, Next, ParseRedirs, ParseArgs, Heads;
    PeekHead(s, "(");
  }

  lemma SimpleJoin(ys: seq<Item>, zs: seq<Item>)
    requires ItemsOk(ys) && OnlyInto(ys) && ItemsOk(zs)
    ensures var xs := ys + zs;
            && ItemsOk(xs) && Args(xs) == [] + Args(zs) && ItemTokens(xs) == ItemTokens(ys) + ItemTokens(zs)
            && Wrap(Exec([] + Args(zs)), [] + Reds(ys) + Reds(zs)) == Around(Exec(Args(xs)), xs)
  {
    hide ItemTokens, Args, Reds, ItemOk, Wrap, Around;
    JoinTokens(ys, zs);
    JoinArgs(ys, zs);
    JoinReds(ys, zs);
    NoArgs(ys);
    WrapAround(Exec(Args(zs)), [], ys + zs);
    assert [] + Args(zs) == Args(zs) && [] + Reds(ys) + Reds(zs) == [] + Reds(ys + zs);
    WrapNone(Exec(Args(zs)));
  }

  lemma WrapNone(c: Cmd)
    ensures Wrap(c, []) == c
  {}

  lemma SimpleSound(s: string) returns (xs: seq<Item>)
    requires !Heads(Lex(s), "(") && ParseExec(s).Ok?
    ensures ItemsOk(xs) && |Args(xs)| < MAXARGS && ParseExec(s).value == Around(Exec(Args(xs)), xs)
    ensures Lex(s) == ItemTokens(xs) + Lex(ParseExec(s).rest)
  {
    hide ParseRedirs, ParseArgs, ParseExec, Lex, ItemTokens, Args, Reds, Around, Wrap, Heads, ItemOk;
    ExecUnfold(s);
    var p := ParseRedirs([], s);
    var ys := RedirsSound([], s);
    var zs := ArgsSound([], p.value, p.rest);
    xs := ys + zs;
    SimpleJoin(ys, zs);
    Assoc(ItemTokens(ys), ItemTokens(zs), Lex(ParseExec(s).rest));
  }

  lemma Opens(ys: seq<Item>, zs: seq<Item>, tail: seq<Token>)
    requires ItemsOk(ys) && OnlyInto(ys) && ItemsOk(zs) && AtArg(zs) && EndsPart(tail)
    ensures !Heads(ItemTokens(ys) + (ItemTokens(zs) + tail), "(") && !Heads(ItemTokens(zs) + tail, "<>")
  {
    hide GoodWord;
    TailHeads(zs, tail);
    if ys != [] {
      assert (ItemTokens(ys) + (ItemTokens(zs) + tail))[0] == ys[0].op;
    } else {
      assert ItemTokens(ys) + (ItemTokens(zs) + tail) == ItemTokens(zs) + tail;
      assert zs == [] ==> ItemTokens(zs) + tail == tail;
    }
  }

  // Words and redirections in any order, with any spacing, are the exec of the
  // words with all the redirections round it, the first innermost.
  lemma SimpleComplete(s: string, xs: seq<Item>, tail: seq<Token>)
    requires ItemsOk(xs) && |Args(xs)| < MAXARGS && Lex(s) == ItemTokens(xs) + tail
    requires EndsPart(tail)
    ensures ParseExec(s).Ok? && ParseExec(s).value == Around(Exec(Args(xs)), xs) && Lex(ParseExec(s).rest) == tail
  {
    hide *;
    var n := Lead(xs);
    LeadIs(xs);
    var ys, zs := xs[..n], xs[n..];
    assert xs == ys + zs;
    SimpleJoin(ys, zs);
    Assoc(ItemTokens(ys), ItemTokens(zs), tail);
    Opens(ys, zs, tail);
    ExecUnfold(s);
    RedirsComplete([], s, ys, ItemTokens(zs) + tail);
    var p := ParseRedirs([], s);
    ArgsComplete([], p.value, p.rest, zs, tail);
  }

  lemma LeadIs(xs: seq<Item>)
    requires ItemsOk(xs)
    ensures Lead(xs) <= |xs| && OnlyInto(xs[..Lead(xs)]) && AtArg(xs[Lead(xs)..])
    ensures ItemsOk(xs[..Lead(xs)]) && ItemsOk(xs[Lead(xs)..])
  {
    hide Lead, ItemOk;
  }

  // --------------------------------------------------------- unfolding parsers

  // A symbol at the head of the text, and what gettoken leaves behind it.
  lemma SymbolHead(s: string, c: char)
    requires c in "|&;()"
    ensures Peek(s, [c]) <==> Heads(Lex(s), [c])
    ensures Heads(Lex(s), [c]) <==> Lex(s) != [] && Lex(s)[0] == Symbol(c)
    ensures Heads(Lex(s), [c]) ==> Lex(Next(s).1) == Lex(s)[1..] && |Next(s).1| < |s|
  {
    hide Lex, Next;
    PeekHead(s, [c]);
    LexHead(s);
    if Lex(s) != [] {
      IsOpHead(Lex(s)[0]);
    }
  }

  lemma BlockIs(s: string)
    requires Peek(s, "(")
    ensures ParseExec(s) == ParseBlock(s)
  {
    hide ParseBlock;
  }

  lemma BlockUnfold(s: string)
    requires Heads(Lex(s), "(")
    ensures Lex(s)[0] == Symbol('(') && Lex(Next(s).1) == Lex(s)[1..] && |Next(s).1| < |s|
    ensures var p := ParseLine(Next(s).1);
            && (ParseExec(s).Ok? ==> p.Ok? && Heads(Lex(p.rest), ")") && ParseRedirs([], Next(p.rest).1).Ok?)
            && (p.Ok? && Heads(Lex(p.rest), ")") ==>
                && Lex(p.rest)[0] == Symbol(')') && Lex(Next(p.rest).1) == Lex(p.rest)[1..]
                && var q := ParseRedirs([], Next(p.rest).1);
                   q.Ok? ==> ParseExec(s) == Ok(Wrap(p.value, q.value), q.rest))
  {
    hide Lex, Next, ParseRedirs, ParseLine, ParseExec, Heads, Wrap;
    SymbolHead(s, '(');
    BlockIs(s);
    var p := ParseLine(Next(s).1);
    if p.Ok? {
      SymbolHead(p.rest, ')');
    }
  }

  lemma PipeUnfold(s: string)
    requires ParseExec(s).Ok?
    ensures var p := ParseExec(s);
            if !Heads(Lex(p.rest), "|") then
              ParsePipe(s).Ok? && ParsePipe(s).value == p.value && Lex(ParsePipe(s).rest) == Lex(p.rest)
            else
              var q := ParsePipe(Next(p.rest).1);
              && Lex(p.rest)[0] == Symbol('|') && Lex(Next(p.rest).1) == Lex(p.rest)[1..] && |Next(p.rest).1| < |s|
              && ParsePipe(s).Ok? == q.Ok? && (q.Ok? ==> ParsePipe(s) == Ok(Pipe(p.value, q.value), q.rest))
  {
    hide Lex, Next, ParseExec, Heads;
    var p := ParseExec(s);
    SymbolHead(p.rest, '|');
    LexSkip(p.rest);
  }

  lemma LineUnfold(s: string)
    requires ParsePipe(s).Ok?
    ensures var b := ParseBacks(ParsePipe(s).value, ParsePipe(s).rest);
            if !Heads(Lex(b.1), ";") then
              ParseLine(s).Ok? && ParseLine(s).value == b.0 && Lex(ParseLine(s).rest) == Lex(b.1)
            else
              var q := ParseLine(Next(b.1).1);
              && Lex(b.1)[0] == Symbol(';') && Lex(Next(b.1).1) == Lex(b.1)[1..] && |Next(b.1).1| < |s|
              && ParseLine(s).Ok? == q.Ok? && (q.Ok? ==> ParseLine(s) == Ok(List(b.0, q.value), q.rest))
  {
    hide Lex, Next, ParsePipe, ParseBacks, Heads;
    var b := ParseBacks(ParsePipe(s).value, ParsePipe(s).rest);
    SymbolHead(b.1, ';');
    LexSkip(b.1);
  }

  // -------------------------------------------------------------------- '&'s

  lemma BackAgain(c: Cmd, n: nat)
    ensures Backs(Back(c), n) == Backs(c, n + 1)
  {}

  lemma BacksUnfold(c: Cmd, s: string)
    ensures if !Heads(Lex(s), "&") then ParseBacks(c, s).0 == c && Lex(ParseBacks(c, s).1) == Lex(s)
            else
              && Lex(s)[0] == Symbol('&') && Lex(Next(s).1) == Lex(s)[1..] && |Next(s).1| < |s|
              && ParseBacks(c, s) == ParseBacks(Back(c), Next(s).1)
  {
    hide Lex, Next, Heads;
    SymbolHead(s, '&');
    LexSkip(s);
  }

  lemma {:induction false} BacksSound(c: Cmd, s: string) returns (n: nat)
    ensures ParseBacks(c, s).0 == Backs(c, n) && Lex(s) == Amps(n) + Lex(ParseBacks(c, s).1)
    decreases |s|
  {
    hide Lex, Next, ParseBacks;
    BacksUnfold(c, s);
    if !Heads(Lex(s), "&") {
      n := 0;
    } else {
      var k := BacksSound(Back(c), Next(s).1);
      n := k + 1;
      BackAgain(c, k);
      assert Lex(s) == [Symbol('&')] + Lex(s)[1..];
      Assoc([Symbol('&')], Amps(k), Lex(ParseBacks(c, s).1));
    }
  }

  lemma {:induction false} BacksComplete(c: Cmd, s: string, n: nat, tail: seq<Token>)
    requires Lex(s) == Amps(n) + tail && !Heads(tail, "&")
    ensures ParseBacks(c, s).0 == Backs(c, n) && Lex(ParseBacks(c, s).1) == tail
    decreases n
  {
    hide Lex, Next, ParseBacks;
    BacksUnfold(c, s);
    if n == 0 {
      assert [] + tail == tail;
    } else {
      Assoc([Symbol('&')], Amps(n - 1), tail);
      assert Lex(s)[1..] == Amps(n - 1) + tail;
      BacksComplete(Back(c), Next(s).1, n - 1, tail);
      BackAgain(c, n - 1);
    }
  }

  // -------------------------------------------------------------- the grammar

  lemma PartSound(s: string) returns (p: Part)
    requires ParseExec(s).Ok?
    ensures PartOk(p) && ParseExec(s).value == PartCmd(p) && Lex(s) == PartTokens(p) + Lex(ParseExec(s).rest)
    decreases |s|, 1
  {
    hide ParseExec, ParseLine, ParseRedirs, Lex, Next, Wrap, Around, Args, ItemOk, ItemTokens, LineTokens, LineOk, LineCmd, Reds;
    if !Heads(Lex(s), "(") {
      var xs := SimpleSound(s);
      p := Simple(xs);
    } else {
      BlockUnfold(s);
      var u := Next(s).1;
      var l := LineSound(u);
      var b := ParseLine(u);
      var v := Next(b.rest).1;
      var xs := RedirsSound([], v);
      p := Block(l, xs);
      BlockMeans(b.value, xs);
      BlockTokens(Lex(s), Lex(u), Lex(b.rest), Lex(v), LineTokens(l), ItemTokens(xs), Lex(ParseExec(s).rest));
    }
  }

  lemma BlockMeans(c: Cmd, xs: seq<Item>)
    ensures Wrap(c, [] + Reds(xs)) == Around(c, xs)
  {
    hide Reds, Around;
    WrapAround(c, [], xs);
  }

  lemma BlockTokens(s: seq<Token>, u: seq<Token>, t: seq<Token>, v: seq<Token>, line: seq<Token>, items: seq<Token>, rest: seq<Token>)
    requires s != [] && s[0] == Symbol('(') && u == s[1..] && u == line + t
    requires t != [] && t[0] == Symbol(')') && v == t[1..] && v == items + rest
    ensures s == [Symbol('(')] + line + [Symbol(')')] + items + rest
  {
    assert s == [Symbol('(')] + u && t == [Symbol(')')] + v;
  }

  lemma PipeSound(s: string) returns (p: Pipeline)
    requires ParsePipe(s).Ok?
    ensures PipeOk(p) && ParsePipe(s).value == PipeCmd(p) && Lex(s) == PipeTokens(p) + Lex(ParsePipe(s).rest)
    decreases |s|, 2
  {
    hide ParseExec, ParsePipe, Lex, Next, PartOk, PartCmd, PartTokens;
    PipeParts(s);
    var a := PartSound(s);
    var rest := ParseExec(s).rest;
    PipeUnfold(s);
    if !Heads(Lex(rest), "|") {
      p := Last(a);
    } else {
      var b := PipeSound(Next(rest).1);
      p := Piped(a, b);
      SymbolTokens(Lex(s), PartTokens(a), Symbol('|'), PipeTokens(b), Lex(ParsePipe(s).rest), Lex(rest));
    }
  }

  lemma PipeParts(s: string)
    requires ParsePipe(s).Ok?
    ensures ParseExec(s).Ok?
  {
    hide ParseExec;
  }

  lemma LineParts(s: string)
    requires ParseLine(s).Ok?
    ensures ParsePipe(s).Ok?
  {
    hide ParsePipe;
  }

  lemma SymbolTokens(s: seq<Token>, a: seq<Token>, c: Token, b: seq<Token>, rest: seq<Token>, t: seq<Token>)
    requires s == a + t && t != [] && t[0] == c && t[1..] == b + rest
    ensures s == a + [c] + b + rest
  {
    assert t == [c] + (b + rest);
  }

  lemma LineSound(s: string) returns (l: Line)
    requires ParseLine(s).Ok?
    ensures LineOk(l) && ParseLine(s).value == LineCmd(l) && Lex(s) == LineTokens(l) + Lex(ParseLine(s).rest)
    decreases |s|, 3
  {
    hide ParsePipe, ParseLine, ParseBacks, Lex, Next, PipeOk, PipeCmd, PipeTokens, Backs, Amps;
    LineParts(s);
    var p := PipeSound(s);
    var b := ParseBacks(ParsePipe(s).value, ParsePipe(s).rest);
    var n := BacksSound(ParsePipe(s).value, ParsePipe(s).rest);
    Assoc(PipeTokens(p), Amps(n), Lex(b.1));
    LineUnfold(s);
    if !Heads(Lex(b.1), ";") {
      l := Final(p, n);
    } else {
      var m := LineSound(Next(b.1).1);
      l := Then(p, n, m);
      SymbolTokens(Lex(s), PipeTokens(p) + Amps(n), Symbol(';'), LineTokens(m), Lex(ParseLine(s).rest), Lex(b.1));
    }
  }

  lemma PartComplete(s: string, p: Part, tail: seq<Token>)
    requires PartOk(p) && Lex(s) == PartTokens(p) + tail && EndsPart(tail)
    ensures ParseExec(s).Ok? && ParseExec(s).value == PartCmd(p) && Lex(ParseExec(s).rest) == tail
    decreases p
  {
    hide ParseExec, ParseLine, ParseRedirs, Lex, Next, Wrap, Around, Args, ItemOk, ItemTokens, LineTokens, LineOk, LineCmd, Reds;
    match p
    case Simple(xs) => SimpleComplete(s, xs, tail);
    case Block(l, xs) =>
      var after := ItemTokens(xs) + tail;
      var close := [Symbol(')')] + after;
      BlockShape(LineTokens(l), ItemTokens(xs), tail);
      BlockUnfold(s);
      var u := Next(s).1;
      assert Lex(u) == LineTokens(l) + close;
      LineComplete(u, l, close);
      var b := ParseLine(u);
      assert Lex(Next(b.rest).1) == after;
      RedirsComplete([], Next(b.rest).1, xs, tail);
      BlockMeans(b.value, xs);
  }

  lemma BlockShape(line: seq<Token>, items: seq<Token>, tail: seq<Token>)
    ensures [Symbol('(')] + line + [Symbol(')')] + items + tail == [Symbol('(')] + (line + ([Symbol(')')] + (items + tail)))
  {}

  lemma PipeComplete(s: string, p: Pipeline, tail: seq<Token>)
    requires PipeOk(p) && Lex(s) == PipeTokens(p) + tail && (tail == [] || Heads(tail, ")&;"))
    ensures ParsePipe(s).Ok? && ParsePipe(s).value == PipeCmd(p) && Lex(ParsePipe(s).rest) == tail
    decreases p
  {
    hide ParseExec, ParsePipe, Lex, Next, PartOk, PartCmd, PartTokens;
    match p
    case Last(a) =>
      PartComplete(s, a, tail);
      PipeUnfold(s);
    case Piped(a, b) =>
      var more := PipeTokens(b) + tail;
      assert PartTokens(a) + [Symbol('|')] + PipeTokens(b) + tail == PartTokens(a) + ([Symbol('|')] + more);
      PartComplete(s, a, [Symbol('|')] + more);
      PipeUnfold(s);
      PipeComplete(Next(ParseExec(s).rest).1, b, tail);
  }

  lemma LineComplete(s: string, l: Line, tail: seq<Token>)
    requires LineOk(l) && Lex(s) == LineTokens(l) + tail && (tail == [] || Heads(tail, ")"))
    ensures ParseLine(s).Ok? && ParseLine(s).value == LineCmd(l) && Lex(ParseLine(s).rest) == tail
    decreases l
  {
    hide ParsePipe, ParseLine, ParseBacks, Lex, Next, PipeOk, PipeCmd, PipeTokens, Backs, Amps;
    var more := if l.Final? then tail else [Symbol(';')] + (LineTokens(l.next) + tail);
    assert Lex(s) == PipeTokens(l.pipe) + (Amps(l.backs) + more);
    AmpHeads(l.backs, more);
    PipeComplete(s, l.pipe, Amps(l.backs) + more);
    var p := ParsePipe(s);
    BacksComplete(p.value, p.rest, l.backs, more);
    LineUnfold(s);
    if l.Then? {
      LineComplete(Next(ParseBacks(p.value, p.rest).1).1, l.next, tail);
    }
  }

  lemma AmpHeads(n: nat, more: seq<Token>)
    requires more == [] || Heads(more, ");")
    ensures var t := Amps(n) + more; t == [] || Heads(t, ")&;")
    ensures !Heads(more, "&")
  {
    if n == 0 {
      assert [] + more == more;
    }
  }

  // ------------------------------------------------------------------ parsecmd

  // The parser accepts the command lines, all of them and nothing else, and
  // builds what they denote.
  lemma Accepts(s: string, c: Cmd)
    ensures ParseCmd(s) == Ok(c, "") <==> Denotes(s, c)
  {
    hide ParseLine, Lex, Next, LineOk, LineTokens, LineCmd;
    if ParseCmd(s) == Ok(c, "") {
      var l := LineSound(s);
      PeekHead(ParseLine(s).rest, "");
      assert LineTokens(l) + [] == LineTokens(l);
    }
    if Denotes(s, c) {
      var l :| LineOk(l) && LineTokens(l) == Lex(s) && LineCmd(l) == c;
      assert LineTokens(l) + [] == LineTokens(l);
      LineComplete(s, l, []);
      PeekHead(ParseLine(s).rest, "");
    }
  }

  // A line has one meaning, however its text is spaced.
  lemma AnySpacing(l: Line, ps: seq<Piece>, end: string)
    requires LineOk(l) && Spells(ps, end) && Tokens(ps) == LineTokens(l)
    ensures ParseCmd(Text(ps, end)) == Ok(LineCmd(l), "")
  {
    hide ParseCmd, Lex, LineOk, LineTokens, LineCmd, Text;
    LexText(ps, end);
    Accepts(Text(ps, end), LineCmd(l));
  }
}
