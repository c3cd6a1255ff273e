/**
 Parsing undoes printing: the text of a command parses to that command.
 */
module ShellTrip {
  import opened ShellModel
  import ShellGrammar

  // ---------------------------------------------------------------- scanning

  // The text after a printed part: empty, or one of the symbols given.
  predicate Follows(rest: string, toks: string) {
    rest == "" || (rest[0] in toks && Sym(rest[0]))
  }

  lemma SkipNone(s: string)
    requires s == "" || !Space(s[0])
    ensures Skip(s) == s
  {}

  lemma NextWord(w: string, rest: string)
    requires GoodWord(w) && (rest == "" || !WordChar(rest[0]))
    ensures Next(w + rest) == (Word(w), Skip(rest))
  {
    var s := w + rest;
    assert s[0] == w[0] && WordChar(w[0]);
    ShellGrammar.WordLenIs(w, rest);
    assert s[..|w|] == w && s[|w|..] == rest;
  }

  lemma NextSymbol(c: char, rest: string)
    requires Sym(c) && (c == '>' ==> rest == "" || rest[0] != '>')
    ensures Next([c] + rest) == (Symbol(c), Skip(rest)) && Skip([c] + rest) == [c] + rest
  {
    var s := [c] + rest;
    assert s[0] == c && s[1..] == rest;
    assert |s| > 1 ==> s[1] == rest[0];
  }

  // ------------------------------------------------------------ redirections

  function PrintRedirs(rs: seq<Redirect>): (r: string) {
    if rs == [] then "" else PrintRedir(rs[0]) + PrintRedirs(rs[1..])
  }

  predicate GoodRedirs(rs: seq<Redirect>) {
    forall i :: 0 <= i < |rs| ==> GoodWord(rs[i].file)
  }

  // Printed redirections and what follows them never start a word.
  lemma RedirsHead(rs: seq<Redirect>, rest: string)
    requires Follows(rest, "|&;)")
    ensures Follows(PrintRedirs(rs) + rest, "<>|&;)")
  {
    if rs == [] {
      assert PrintRedirs(rs) + rest == rest;
    } else {
      var s := PrintRedirs(rs) + rest;
      assert s[0] == PrintRedir(rs[0])[0];
    }
  }

  function Op(r: Redirect): (c: char) {
    if r.out then '>' else '<'
  }

  // Neither a space nor part of a word comes next.
  predicate Stops(s: string) {
    s == "" || Sym(s[0])
  }

  lemma RedirStep(seen: seq<Redirect>, r: Redirect, tail: string)
    requires GoodWord(r.file) && Stops(tail)
    ensures ParseRedirs(seen, [Op(r)] + (r.file + tail)) == ParseRedirs(seen + [r], tail)
  {
    hide Next, WordLen;
    var s := r.file + tail;
    assert s[0] == r.file[0] && WordChar(r.file[0]);
    NextSymbol(Op(r), s);
    SkipNone(s);
    NextWord(r.file, tail);
    SkipNone(tail);
    assert ([Op(r)] + s)[0] == Op(r);
    assert seen + [Redirect(r.file, Symbol(Op(r)) != Symbol('<'))] == seen + [r];
  }

  lemma RedirsText(rs: seq<Redirect>, rest: string)
    requires rs != []
    ensures PrintRedirs(rs) + rest == [Op(rs[0])] + (rs[0].file + (PrintRedirs(rs[1..]) + rest))
  {}

  lemma RedirsNone(seen: seq<Redirect>, s: string)
    requires s == "" || (!Space(s[0]) && s[0] != '<' && s[0] != '>')
    ensures ParseRedirs(seen, s) == Ok(seen, s)
  {
    SkipNone(s);
  }

  lemma EndsRedirs(rest: string)
    requires Follows(rest, "|&;)")
    ensures rest == "" || (!Space(rest[0]) && rest[0] != '<' && rest[0] != '>')
  {}

  lemma RedirsStop(rs: seq<Redirect>, rest: string)
    requires Follows(rest, "|&;)")
    ensures Stops(PrintRedirs(rs) + rest)
  {
    hide PrintRedirs;
    RedirsHead(rs, rest);
  }

  lemma NoRedirs(rest: string)
    ensures PrintRedirs([]) + rest == rest
  {}

  lemma {:induction false} RedirsBack(seen: seq<Redirect>, rs: seq<Redirect>, rest: string)
    requires GoodRedirs(rs) && Follows(rest, "|&;)")
    ensures ParseRedirs(seen, PrintRedirs(rs) + rest) == Ok(seen + rs, rest)
    decreases |rs|
  {
    hide ParseRedirs, GoodWord, PrintRedirs, Follows;
    if rs == [] {
      EndsRedirs(rest);
      RedirsNone(seen, rest);
      NoRedirs(rest);
      assert seen + rs == seen;
    } else {
      RedirsText(rs, rest);
      RedirsStop(rs[1..], rest);
      RedirStep(seen, rs[0], PrintRedirs(rs[1..]) + rest);
      RedirsBack(seen + [rs[0]], rs[1..], rest);
      assert seen + [rs[0]] + rs[1..] == seen + rs;
    }
  }

  // --------------------------------------------------------------- arguments

  lemma ArgsEnd(argv: seq<string>, rs: seq<Redirect>, rest: string)
    requires Follows(rest, "|&;)")
    ensures ParseArgs(argv, rs, rest) == Ok(Wrap(Exec(argv), rs), rest)
  {
    SkipNone(rest);
  }

  // A word and what parseredirs makes of the text behind it.
  lemma ArgsWord(argv: seq<string>, w: string, behind: string, rs: seq<Redirect>, rest: string)
    requires GoodWord(w) && |argv| + 1 < MAXARGS && (behind == "" || !WordChar(behind[0]))
    requires ParseRedirs([], Skip(behind)) == Ok(rs, rest)
    ensures ParseArgs(argv, [], w + behind) == ParseArgs(argv + [w], rs, rest)
  {
    hide Next, ParseRedirs, WordLen;
    var s := w + behind;
    assert s[0] == w[0] && WordChar(w[0]);
    SkipNone(s);
    NextWord(w, behind);
    assert w[0] !in "|)&;";
  }

  lemma WordsText(ws: seq<string>, tail: string)
    requires |ws| > 1
    ensures PrintWords(ws) + tail == ws[0] + (" " + (PrintWords(ws[1..]) + tail))
  {}

  lemma WordsHead(ws: seq<string>, tail: string)
    requires ws != [] && GoodWord(ws[0])
    ensures PrintWords(ws) + tail != "" && (PrintWords(ws) + tail)[0] == ws[0][0] && WordChar(ws[0][0])
  {}

  lemma SkipSpace(s: string)
    requires s != "" && !Space(s[0])
    ensures Skip(" " + s) == s
  {
    assert (" " + s)[1..] == s;
  }

  lemma {:induction false} ArgsBack(argv: seq<string>, ws: seq<string>, rs: seq<Redirect>, rest: string)
    requires ws != [] && |argv| + |ws| < MAXARGS && (forall i :: 0 <= i < |ws| ==> GoodWord(ws[i]))
    requires GoodRedirs(rs) && Follows(rest, "|&;)")
    ensures ParseArgs(argv, [], PrintWords(ws) + (PrintRedirs(rs) + rest)) == Ok(Wrap(Exec(argv + ws), rs), rest)
    decreases |ws|
  {
    hide ParseArgs, ParseRedirs, PrintRedirs, GoodWord, Wrap, GoodRedirs;
    var tail := PrintRedirs(rs) + rest;
    RedirsHead(rs, rest);
    if |ws| == 1 {
      SkipNone(tail);
      RedirsBack([], rs, rest);
      assert [] + rs == rs;
      ArgsWord(argv, ws[0], tail, rs, rest);
      ArgsEnd(argv + [ws[0]], rs, rest);
      assert argv + [ws[0]] == argv + ws;
    } else {
      var more := PrintWords(ws[1..]) + tail;
      WordsText(ws, tail);
      WordsHead(ws[1..], tail);
      SkipSpace(more);
      RedirsNone([], more);
      ArgsWord(argv, ws[0], " " + more, [], more);
      ArgsBack(argv + [ws[0]], ws[1..], rs, rest);
      assert argv + [ws[0]] + ws[1..] == argv + ws;
    }
  }

  predicate ExecOk(c: Cmd, rest: string) {
    ParseExec(PrintExec(c) + rest) == Ok(c, rest)
  }

  lemma ExecWords(argv: seq<string>, rs: seq<Redirect>, rest: string)
    requires Wf(Exec(argv)) && GoodRedirs(rs) && Follows(rest, "|&;)")
    ensures ParseExec(PrintWords(argv) + (PrintRedirs(rs) + rest)) == Ok(Wrap(Exec(argv), rs), rest)
  {
    hide ParseRedirs, PrintRedirs, GoodWord, ParseArgs, GoodRedirs;
    var tail := PrintRedirs(rs) + rest;
    var s := PrintWords(argv) + tail;
    RedirsHead(rs, rest);
    if argv == [] {
      assert s == tail;
      SkipNone(s);
      RedirsBack([], rs, rest);
      assert [] + rs == rs;
      ArgsEnd([], rs, rest);
    } else {
      WordsHead(argv, tail);
      SkipNone(s);
      RedirsNone([], s);
      ArgsBack([], argv, rs, rest);
      assert [] + argv == argv;
    }
  }

  // -------------------------------------------------- a command's redirections

  function Base(c: Cmd): (r: Cmd)
    ensures !r.Redir?
  {
    if c.Redir? then Base(c.cmd) else c
  }

  function Redirs(c: Cmd): (r: seq<Redirect>) {
    if c.Redir? then Redirs(c.cmd) + [c.to] else []
  }

  function Size(c: Cmd): (n: nat) {
    match c
    case Exec(_) => 1
    case Redir(d, _) => 1 + Size(d)
    case Pipe(l, r) => 1 + Size(l) + Size(r)
    case List(l, r) => 1 + Size(l) + Size(r)
    case Back(d) => 1 + Size(d)
  }

  lemma {:induction false} PrintRedirsSnoc(rs: seq<Redirect>, r: Redirect)
    ensures PrintRedirs(rs + [r]) == PrintRedirs(rs) + PrintRedir(r)
  {
    if rs == [] {
      assert [] + [r] == [r] && [r][1..] == [];
    } else {
      PrintRedirsSnoc(rs[1..], r);
      assert (rs + [r])[1..] == rs[1..] + [r] && (rs + [r])[0] == rs[0];
    }
  }

  lemma {:induction false} Unwrap(c: Cmd)
    ensures c == Wrap(Base(c), Redirs(c))
    ensures Size(Base(c)) <= Size(c) && (c.Redir? ==> Size(Base(c)) < Size(c))
  {
    if c.Redir? {
      Unwrap(c.cmd);
      var rs := Redirs(c.cmd);
      assert (rs + [c.to])[..|rs|] == rs;
    }
  }

  lemma {:induction false} UnwrapText(c: Cmd)
    ensures PrintExec(c) == PrintExec(Base(c)) + PrintRedirs(Redirs(c))
  {
    if c.Redir? {
      UnwrapText(c.cmd);
      PrintRedirsSnoc(Redirs(c.cmd), c.to);
    }
  }

  lemma {:induction false} UnwrapWf(c: Cmd)
    requires Wf(c)
    ensures Wf(Base(c)) && GoodRedirs(Redirs(c))
  {
    if c.Redir? {
      UnwrapWf(c.cmd);
    }
  }

  // --------------------------------------------------------------- the grammar

  predicate LineOk(c: Cmd, rest: string) {
    ParseLine(PrintLine(c) + rest) == Ok(c, rest)
  }

  predicate PipeOk(c: Cmd, rest: string) {
    ParsePipe(PrintPipe(c) + rest) == Ok(c, rest)
  }

  // The '&'s behind c are still to be counted.
  predicate BackOk(c: Cmd, rest: string) {
    var p := ParsePipe(PrintBack(c) + rest);
    p.Ok? && ParseBacks(p.value, p.rest) == ParseBacks(c, rest)
  }

  // Printed text starts with a word character or a symbol.
  predicate Starts(s: string) {
    s == "" || !Space(s[0])
  }

  lemma ConcatStarts(s: string, rest: string)
    requires Starts(s) && Starts(rest)
    ensures Starts(s + rest)
  {
    assert s == "" ==> s + rest == rest;
  }

  lemma {:induction false} PrintStarts(c: Cmd)
    requires Wf(c)
    ensures Starts(PrintExec(c)) && Starts(PrintPipe(c)) && Starts(PrintBack(c)) && Starts(PrintLine(c))
  {
    match c
    case Exec(argv) =>
      if argv != [] {
        WordsHead(argv, "");
        assert PrintWords(argv) + "" == PrintWords(argv);
      }
    case Redir(d, to) =>
      PrintStarts(d);
      ConcatStarts(PrintExec(d), PrintRedir(to));
    case Pipe(l, r) =>
      PrintStarts(l);
      ConcatStarts(PrintExec(l), "|" + PrintPipe(r));
      assert PrintExec(l) + "|" + PrintPipe(r) == PrintExec(l) + ("|" + PrintPipe(r));
    case List(l, r) =>
      PrintStarts(l);
      ConcatStarts(PrintBack(l), ";" + PrintLine(r));
      assert PrintBack(l) + ";" + PrintLine(r) == PrintBack(l) + (";" + PrintLine(r));
    case Back(d) =>
      PrintStarts(d);
      ConcatStarts(PrintBack(d), "&");
  }

  // '(' line ')' redirections.
  lemma BlockStep(c: Cmd, rs: seq<Redirect>, rest: string)
    requires Wf(c) && GoodRedirs(rs) && Follows(rest, "|&;)")
    requires LineOk(c, ")" + (PrintRedirs(rs) + rest))
    ensures ParseExec("(" + (PrintLine(c) + (")" + (PrintRedirs(rs) + rest)))) == Ok(Wrap(c, rs), rest)
  {
    hide ParseLine, PrintLine, ParseRedirs, PrintRedirs, Next, GoodRedirs, Wf;
    var tail := PrintRedirs(rs) + rest;
    var inner := PrintLine(c) + (")" + tail);
    PrintStarts(c);
    ConcatStarts(PrintLine(c), ")" + tail);
    NextSymbol('(', inner);
    SkipNone(inner);
    RedirsHead(rs, rest);
    NextSymbol(')', tail);
    SkipNone(tail);
    RedirsBack([], rs, rest);
    assert [] + rs == rs;
    assert ("(" + inner)[0] == '(' && (")" + tail)[0] == ')';
  }

  lemma PipeUnfold(s: string, l: Cmd, more: string, r: Cmd, rest: string)
    requires ParseExec(s) == Ok(l, "|" + more) && ParsePipe(Skip(more)) == Ok(r, rest)
    ensures ParsePipe(s) == Ok(Pipe(l, r), rest)
  {
    hide ParseExec, Next;
    NextSymbol('|', more);
    assert ("|" + more)[0] == '|';
  }

  lemma LineUnfold(s: string, l: Cmd, more: string, r: Cmd, rest: string)
    requires ParsePipe(s).Ok? && ParseBacks(ParsePipe(s).value, ParsePipe(s).rest) == (l, ";" + more)
    requires ParseLine(Skip(more)) == Ok(r, rest)
    ensures ParseLine(s) == Ok(List(l, r), rest)
  {
    hide ParsePipe, Next, ParseBacks;
    NextSymbol(';', more);
    assert (";" + more)[0] == ';';
  }

  lemma BacksNone(c: Cmd, s: string)
    requires s == "" || (!Space(s[0]) && s[0] != '&')
    ensures ParseBacks(c, s) == (c, s)
  {
    SkipNone(s);
  }

  lemma PipeStep(l: Cmd, r: Cmd, rest: string)
    requires Wf(r) && Follows(rest, "&;)")
    requires ExecOk(l, "|" + (PrintPipe(r) + rest)) && PipeOk(r, rest)
    ensures PipeOk(Pipe(l, r), rest)
  {
    hide ParseExec, ParsePipe, Wf, PrintExec;
    var more := PrintPipe(r) + rest;
    PrintStarts(r);
    ConcatStarts(PrintPipe(r), rest);
    SkipNone(more);
    PipeUnfold(PrintExec(l) + ("|" + more), l, more, r, rest);
    assert PrintPipe(Pipe(l, r)) + rest == PrintExec(l) + ("|" + more);
  }

  lemma PipeLast(c: Cmd, rest: string)
    requires !c.Pipe? && Follows(rest, "&;)") && ExecOk(c, rest)
    ensures PipeOk(c, rest)
  {
    hide ParseExec, PrintExec;
    SkipNone(rest);
  }

  lemma BackStep(d: Cmd, rest: string)
    requires Follows(rest, "&;)") && BackOk(d, "&" + rest)
    ensures BackOk(Back(d), rest)
  {
    hide ParsePipe, Next;
    NextSymbol('&', rest);
    SkipNone(rest);
    assert PrintBack(Back(d)) + rest == PrintBack(d) + ("&" + rest);
    assert ("&" + rest)[0] == '&';
  }

  lemma LineLast(c: Cmd, rest: string)
    requires !c.List? && Follows(rest, ")") && BackOk(c, rest)
    ensures LineOk(c, rest)
  {
    hide ParsePipe, PrintBack;
    SkipNone(rest);
  }

  lemma ListStep(l: Cmd, r: Cmd, rest: string)
    requires Wf(r) && Follows(rest, ")")
    requires BackOk(l, ";" + (PrintLine(r) + rest)) && LineOk(r, rest)
    ensures LineOk(List(l, r), rest)
  {
    hide ParsePipe, ParseLine, ParseBacks, PrintBack, Wf;
    var more := PrintLine(r) + rest;
    PrintStarts(r);
    ConcatStarts(PrintLine(r), rest);
    SkipNone(more);
    BacksNone(l, ";" + more);
    LineUnfold(PrintBack(l) + (";" + more), l, more, r, rest);
    assert PrintLine(List(l, r)) + rest == PrintBack(l) + (";" + more);
  }

  // ------------------------------------------------------------- the round trip

  lemma Regroup(line: string, redirs: string, rest: string)
    ensures "(" + line + ")" + redirs + rest == "(" + (line + (")" + (redirs + rest)))
  {}

  lemma {:induction false} ExecTrip(c: Cmd, rest: string)
    requires Wf(c) && Follows(rest, "|&;)")
    ensures ExecOk(c, rest)
    decreases Size(c), 1
  {
    hide PrintRedirs, ParseExec, Wrap, PrintLine, PrintWords, LineOk, Wf, GoodRedirs, PrintExec;
    var b, rs := Base(c), Redirs(c);
    Unwrap(c);
    UnwrapText(c);
    UnwrapWf(c);
    var tail := PrintRedirs(rs) + rest;
    if b.Exec? {
      ExecWords(b.argv, rs, rest);
      PlainText(b.argv);
      assert PrintExec(c) + rest == PrintWords(b.argv) + tail;
    } else {
      if c.Redir? {
        LineTrip(b, ")" + tail);
      } else {
        LineInside(c, ")" + tail);
      }
      BlockStep(b, rs, rest);
      Parenthesised(b);
      Regroup(PrintLine(b), PrintRedirs(rs), rest);
    }
  }

  lemma PlainText(argv: seq<string>)
    ensures PrintExec(Exec(argv)) == PrintWords(argv)
  {}

  lemma Parenthesised(c: Cmd)
    requires c.Pipe? || c.List? || c.Back?
    ensures PrintExec(c) == "(" + PrintLine(c) + ")"
  {
    if c.Pipe? {
      assert PrintPipe(c) == PrintExec(c.left) + "|" + PrintPipe(c.right);
      assert PrintLine(c) == PrintBack(c) == PrintPipe(c);
    } else if c.Back? {
      assert PrintBack(c) == PrintBack(c.cmd) + "&";
      assert PrintLine(c) == PrintBack(c);
    }
  }

  // A compound command as a line of its own.
  lemma {:induction false} LineInside(c: Cmd, rest: string)
    requires Wf(c) && Follows(rest, ")") && (c.Pipe? || c.List? || c.Back?)
    ensures LineOk(c, rest)
    decreases Size(c), 0
  {
    hide PrintExec, PrintPipe, PrintBack, PrintLine, ExecOk, PipeOk, BackOk, LineOk;
    match c
    case Pipe(l, r) =>
      ExecTrip(l, "|" + (PrintPipe(r) + rest));
      PipeTrip(r, rest);
      PipeStep(l, r, rest);
      BackFirst(c, rest);
      LineLast(c, rest);
    case List(l, r) =>
      BackTrip(l, ";" + (PrintLine(r) + rest));
      LineTrip(r, rest);
      ListStep(l, r, rest);
    case Back(d) =>
      BackTrip(d, "&" + rest);
      BackStep(d, rest);
      LineLast(c, rest);
  }

  lemma BackFirst(c: Cmd, rest: string)
    requires !c.Back? && PipeOk(c, rest)
    ensures BackOk(c, rest)
  {}

  lemma {:induction false} PipeTrip(c: Cmd, rest: string)
    requires Wf(c) && Follows(rest, "&;)")
    ensures PipeOk(c, rest)
    decreases Size(c), 2
  {
    hide PrintExec, PrintPipe, ExecOk, PipeOk;
    if c.Pipe? {
      ExecTrip(c.left, "|" + (PrintPipe(c.right) + rest));
      PipeTrip(c.right, rest);
      PipeStep(c.left, c.right, rest);
    } else {
      ExecTrip(c, rest);
      PipeLast(c, rest);
    }
  }

  lemma {:induction false} BackTrip(c: Cmd, rest: string)
    requires Wf(c) && Follows(rest, "&;)")
    ensures BackOk(c, rest)
    decreases Size(c), 3
  {
    hide PipeOk, BackOk;
    if c.Back? {
      BackTrip(c.cmd, "&" + rest);
      BackStep(c.cmd, rest);
    } else {
      PipeTrip(c, rest);
      BackFirst(c, rest);
    }
  }

  lemma {:induction false} LineTrip(c: Cmd, rest: string)
    requires Wf(c) && Follows(rest, ")")
    ensures LineOk(c, rest)
    decreases Size(c), 4
  {
    hide BackOk, LineOk, PrintLine;
    if c.List? {
      BackTrip(c.left, ";" + (PrintLine(c.right) + rest));
      LineTrip(c.right, rest);
      ListStep(c.left, c.right, rest);
    } else {
      BackTrip(c, rest);
      LineLast(c, rest);
    }
  }

  // Parsing the printed text of a command gives that command back.
  lemma RoundTrip(c: Cmd)
    requires Wf(c)
    ensures ParseCmd(PrintLine(c)) == Ok(c, "")
  {
    LineTrip(c, "");
    assert PrintLine(c) + "" == PrintLine(c);
  }

  // -------------------------------------------------- what the parser returns

  lemma {:induction false} WrapWf(c: Cmd, rs: seq<Redirect>)
    requires Wf(c) && GoodRedirs(rs)
    ensures Wf(Wrap(c, rs))
  {
    if rs != [] {
      WrapWf(c, rs[..|rs| - 1]);
    }
  }

  lemma {:induction false} RedirsWf(rs: seq<Redirect>, s: string)
    requires GoodRedirs(rs)
    ensures ParseRedirs(rs, s).Ok? ==> GoodRedirs(ParseRedirs(rs, s).value)
    decreases |s|
  {
    if Peek(s, "<>") {
      var op := Next(s);
      var file := Next(op.1);
      if file.0.Word? {
        RedirsWf(rs + [Redirect(file.0.text, op.0 != Symbol('<'))], file.1);
      }
    }
  }

  lemma {:induction false} ArgsWf(argv: seq<string>, rs: seq<Redirect>, s: string)
    requires Wf(Exec(argv)) && GoodRedirs(rs)
    ensures ParseArgs(argv, rs, s).Ok? ==> Wf(ParseArgs(argv, rs, s).value)
    decreases |s|
  {
    hide ParseRedirs, Wrap, Next, Peek;
    WrapWf(Exec(argv), rs);
    if !Peek(s, "|)&;") {
      var t := Next(s);
      if t.0.Word? && |argv| + 1 < MAXARGS {
        RedirsWf(rs, t.1);
        var p := ParseRedirs(rs, t.1);
        if p.Ok? {
          ArgsWf(argv + [t.0.text], p.value, p.rest);
        }
      }
    }
  }

  lemma {:induction false} BacksWf(c: Cmd, s: string)
    requires Wf(c)
    ensures Wf(ParseBacks(c, s).0)
    decreases |s|
  {
    if Peek(s, "&") {
      BacksWf(Back(c), Next(s).1);
    }
  }

  // Whatever the parser accepts can be printed and parsed again.
  lemma {:induction false} LineWf(s: string)
    ensures ParseLine(s).Ok? ==> Wf(ParseLine(s).value)
    decreases |s|, 3
  {
    hide ParsePipe, ParseBacks, Next, Peek;
    PipeWf(s);
    var p := ParsePipe(s);
    if p.Ok? {
      BacksWf(p.value, p.rest);
      var b := ParseBacks(p.value, p.rest);
      if Peek(b.1, ";") {
        PeekNext(b.1, ";");
        LineWf(Next(b.1).1);
      }
    }
  }

  lemma PeekNext(s: string, toks: string)
    requires Peek(s, toks)
    ensures |Next(s).1| < |s|
  {}

  lemma {:induction false} PipeWf(s: string)
    ensures ParsePipe(s).Ok? ==> Wf(ParsePipe(s).value)
    decreases |s|, 2
  {
    hide ParseExec, Next, Peek;
    ExecWf(s);
    var p := ParseExec(s);
    if p.Ok? && Peek(p.rest, "|") {
      PeekNext(p.rest, "|");
      PipeWf(Next(p.rest).1);
    }
  }

  lemma {:induction false} ExecWf(s: string)
    ensures ParseExec(s).Ok? ==> Wf(ParseExec(s).value)
    decreases |s|, 1
  {
    hide ParseLine, ParseRedirs, ParseArgs, Next, Peek, Wrap;
    if Peek(s, "(") {
      PeekNext(s, "(");
      LineWf(Next(s).1);
      var p := ParseLine(Next(s).1);
      if p.Ok? && Peek(p.rest, ")") {
        RedirsWf([], Next(p.rest).1);
        var q := ParseRedirs([], Next(p.rest).1);
        if q.Ok? {
          WrapWf(p.value, q.value);
        }
      }
    } else {
      RedirsWf([], s);
      var p := ParseRedirs([], s);
      if p.Ok? {
        ArgsWf([], p.value, p.rest);
      }
    }
  }

  // Printing what was parsed and parsing it again changes nothing.
  lemma ParsePrintParse(s: string)
    ensures ParseCmd(s).Ok? ==> ParseCmd(PrintLine(ParseCmd(s).value)) == ParseCmd(s)
  {
    LineWf(s);
    if ParseCmd(s).Ok? {
      RoundTrip(ParseCmd(s).value);
    }
  }

  // '>>' asks for the same redirection as '>'.
  lemma AppendIsWrite(w: string)
    requires GoodWord(w)
    ensures ParseCmd(">>" + w) == ParseCmd(">" + w) == Ok(Redir(Exec([]), Redirect(w, true)), "")
  {
    hide WordLen;
    var s := ">>" + w;
    assert s[2..] == w && w[0] == s[2] && WordChar(w[0]);
    SkipNone(w);
    assert Next(s) == (Append, w);
    NextWord(w, "");
    assert w + "" == w;
    var r := Redirect(w, true);
    assert ParseRedirs([r], "") == Ok([r], "");
    assert [] + [r] == [r];
    assert ParseRedirs([], s) == Ok([r], "");
    var c := Wrap(Exec([]), [r]);
    assert [r][..0] == [];
    assert Wrap(Exec([]), [r][..0]) == Exec([]);
    assert c == Redir(Exec([]), r);
    assert ParseExec(s) == Ok(c, "");
    assert ParseLine(s) == Ok(c, "");
    RoundTrip(c);
    assert PrintExec(Exec([])) == "";
    assert PrintExec(c) == "" + (">" + w) == ">" + w;
    assert PrintLine(c) == PrintBack(c) == PrintPipe(c) == PrintExec(c);
  }
}
