/**
 sh.c's parser as an object whose position advances through the text: the
 scanning loops, the argument loop, and the mutually recursive parse methods.
 */
module Shell {
  import opened ShellModel
  import opened ShellTree
  import opened ShellAccepts
  import ShellGrammar
  import ShellLanguage

  // What a parse result says about commands.
  function Parsed(text: string, r: Result<Tree>): (c: Result<Cmd>) {
    if r.Ok? then Ok(Meaning(text, r.value), r.rest) else Fail(r.error)
  }

  function ParsedRedirs(text: string, r: Result<seq<RedirSpan>>): (c: Result<seq<Redirect>>) {
    if r.Ok? then Ok(Redirs(text, r.value), r.rest) else Fail(r.error)
  }

  class Parser {
    const text: string
    var pos: nat                 // *ps

    ghost predicate Valid()
      reads this
    {
      pos <= |text|
    }

    // The text still to be parsed.
    ghost function Rest(): (s: string)
      requires Valid()
      reads this
    {
      text[pos..]
    }

    constructor (text: string)
      ensures Valid() && this.text == text && Rest() == text
    {
      this.text := text;
      pos := 0;
    }

    method SkipSpaces()
      requires Valid()
      modifies this
      ensures Valid() && Rest() == Skip(old(Rest())) && old(pos) <= pos
    {
      while pos < |text| && Space(text[pos])
        invariant Valid() && Skip(Rest()) == Skip(old(Rest())) && old(pos) <= pos
        decreases |text| - pos
      {
        assert Rest()[1..] == text[pos + 1..];
        pos := pos + 1;
      }
    }

    method PeekTok(toks: string) returns (found: bool)
      requires Valid()
      modifies this
      ensures Valid() && Rest() == Skip(old(Rest())) && old(pos) <= pos
      ensures found == Peek(old(Rest()), toks)
    {
      SkipSpaces();
      found := pos < |text| && text[pos] in toks;
    }

    // Advance over the characters of a word.
    method SkipWord()
      requires Valid()
      modifies this
      ensures Valid() && pos == old(pos) + WordLen(old(Rest()))
    {
      ghost var s, n := Rest(), 0;
      while pos < |text| && WordChar(text[pos])
        invariant Valid() && pos == old(pos) + n && n + WordLen(Rest()) == WordLen(s)
        decreases |text| - pos
      {
        assert Rest()[1..] == text[pos + 1..];
        pos, n := pos + 1, n + 1;
      }
    }

    // gettoken's default case: a word, and where it lies.
    method TakeWord() returns (word: string, span: Span)
      requires Valid() && pos < |text| && WordChar(text[pos])
      modifies this
      ensures Valid() && old(pos) < pos
      ensures var t, n := old(Rest()), WordLen(old(Rest())); word == t[..n] && Rest() == t[n..]
      ensures SpanOk(text, span) && word == WordAt(text, span)
    {
      hide WordLen, SpanOk;
      ghost var t := Rest();
      var q := pos;
      WordStarts(t);
      WordSpan(text, q);
      SkipWord();
      word, span := text[q..pos], Span(q, pos);
      assert t[..pos - q] == text[q..pos] && t[pos - q..] == Rest();
    }

    // The next token, and where it lies.
    method GetToken() returns (tok: Token, span: Span)
      requires Valid()
      modifies this
      ensures Valid() && (tok, Rest()) == Next(old(Rest())) && old(pos) <= pos
      ensures tok != End ==> old(pos) < pos
      ensures tok.Word? ==> SpanOk(text, span) && tok.text == WordAt(text, span)
    {
      hide WordLen, SpanOk, WordAt;
      SkipSpaces();
      ghost var t := Rest();
      span := Span(pos, pos);
      if pos == |text| {
        tok := End;
      } else if text[pos] == '>' {
        pos := pos + 1;
        tok := Symbol('>');
        if pos < |text| && text[pos] == '>' {
          tok := Append;
          pos := pos + 1;
          assert t[2..] == Rest();
        } else {
          assert t[1..] == Rest();
        }
      } else if Sym(text[pos]) {
        tok := Symbol(text[pos]);
        pos := pos + 1;
        assert t[1..] == Rest();
      } else {
        var word;
        word, span := TakeWord();
        tok := Word(word);
      }
      SkipSpaces();
    }

    method ReadRedirs(start: seq<RedirSpan>) returns (r: Result<seq<RedirSpan>>)
      requires Valid() && RedirsOk(text, start)
      modifies this
      ensures Valid() && old(pos) <= pos
      ensures ParsedRedirs(text, r) == ParseRedirs(Redirs(text, start), old(Rest()))
      ensures r.Ok? ==> r.rest == Rest() && RedirsOk(text, r.value)
    {
      hide Next, SpanOk, Redirs;
      var rs := start;
      while true
        invariant Valid() && old(pos) <= pos && RedirsOk(text, rs)
        invariant ParseRedirs(Redirs(text, rs), Rest()) == ParseRedirs(Redirs(text, start), old(Rest()))
        decreases |text| - pos
      {
        ghost var s := Rest();
        SkipAgain(s);
        var more := PeekTok("<>");
        if !more {
          return Ok(rs, text[pos..]);
        }
        NextSkipped(s);
        var op, _ := GetToken();
        var file, span := GetToken();
        if !file.Word? {
          return Fail(MissingFile);
        }
        RedirsSnoc(text, rs, RedirSpan(span, op != Symbol('<')));
        rs := rs + [RedirSpan(span, op != Symbol('<'))];
      }
    }

    // parseexec's loop: words, with redirections after any of them.
    method ReadArgs(start: seq<RedirSpan>) returns (r: Result<Tree>)
      requires Valid() && RedirsOk(text, start)
      modifies this
      ensures Valid() && old(pos) <= pos
      ensures Parsed(text, r) == ParseArgs([], Redirs(text, start), old(Rest()))
      ensures r.Ok? <==> exists c, rest :: ArgsAre(Redirs(text, start), old(Rest()), c, rest)
      ensures r.Ok? ==> r.rest == Rest() && TreeOk(text, r.value)
                        && ArgsAre(Redirs(text, start), old(Rest()), Meaning(text, r.value), ShellGrammar.Lex(Rest()))
    {
      hide Next, ParseRedirs, Wrap, WrapTree, SpanOk, Redirs, Words, ArgsAre, ShellGrammar.Lex;
      ArgsMean(Redirs(text, start), Rest());
      var argv: seq<Span>, rs := [], start;
      NoWords(text);
      while true
        invariant Valid() && old(pos) <= pos && |argv| < MAXARGS && AllOk(text, argv) && RedirsOk(text, rs)
        invariant ParseArgs(Words(text, argv), Redirs(text, rs), Rest()) == ParseArgs([], Redirs(text, start), old(Rest()))
        decreases |text| - pos
      {
        ghost var s := Rest();
        SkipAgain(s);
        NextSkipped(s);
        var end := PeekTok("|)&;");
        WrapMeans(text, ExecTree(argv), rs);
        if end {
          return Ok(WrapTree(ExecTree(argv), rs), text[pos..]);
        }
        var tok, span := GetToken();
        if tok == End {
          return Ok(WrapTree(ExecTree(argv), rs), text[pos..]);
        }
        if !tok.Word? {
          return Fail(Syntax);
        }
        if |argv| + 1 >= MAXARGS {
          return Fail(TooManyArgs);
        }
        WordsSnoc(text, argv, span);
        argv := argv + [span];
        var p := ReadRedirs(rs);
        if p.Fail? {
          return Fail(p.error);
        }
        rs := p.value;
      }
    }

    method ReadExec() returns (r: Result<Tree>)
      requires Valid()
      modifies this
      ensures Valid() && old(pos) <= pos
      ensures Parsed(text, r) == ParseExec(old(Rest())) && (r.Ok? ==> r.rest == Rest() && TreeOk(text, r.value))
      decreases |text| - pos, 1
    {
      hide Next, ParseRedirs, ParseArgs, ParseBlock, Redirs;
      ghost var s := Rest();
      NoRedirSpans(text);
      BlockSkipped(s);
      RedirsSkipped([], s);
      var block := PeekTok("(");
      if block {
        r := ReadBlock();
        return;
      }
      var p := ReadRedirs([]);
      if p.Fail? {
        return Fail(p.error);
      }
      r := ReadArgs(p.value);
    }

    method ReadBlock() returns (r: Result<Tree>)
      requires Valid() && Peek(Rest(), "(")
      modifies this
      ensures Valid() && old(pos) <= pos
      ensures Parsed(text, r) == ParseBlock(old(Rest())) && (r.Ok? ==> r.rest == Rest() && TreeOk(text, r.value))
      decreases |text| - pos, 0
    {
      hide Next, ParseRedirs, ParseLine, Wrap, WrapTree, Redirs;
      NoRedirSpans(text);
      NotEnd(Rest(), "(");
      var _, _ := GetToken();
      var p := ReadLine();
      if p.Fail? {
        return Fail(p.error);
      }
      NextSkipped(Rest());
      var closed := PeekTok(")");
      if !closed {
        return Fail(MissingParen);
      }
      var _, _ := GetToken();
      var q := ReadRedirs([]);
      if q.Fail? {
        return Fail(q.error);
      }
      WrapMeans(text, p.value, q.value);
      r := Ok(WrapTree(p.value, q.value), text[pos..]);
    }

    method ReadPipe() returns (r: Result<Tree>)
      requires Valid()
      modifies this
      ensures Valid() && old(pos) <= pos
      ensures Parsed(text, r) == ParsePipe(old(Rest())) && (r.Ok? ==> r.rest == Rest() && TreeOk(text, r.value))
      decreases |text| - pos, 2
    {
      hide Next, ParseExec;
      var p := ReadExec();
      if p.Fail? {
        return Fail(p.error);
      }
      NextSkipped(Rest());
      NotEnd(Rest(), "|");
      var more := PeekTok("|");
      if !more {
        return Ok(p.value, text[pos..]);
      }
      NotEnd(Rest(), "|");
      var _, _ := GetToken();
      var q := ReadPipe();
      if q.Fail? {
        return Fail(q.error);
      }
      r := Ok(PipeTree(p.value, q.value), text[pos..]);
    }

    method ReadLine() returns (r: Result<Tree>)
      requires Valid()
      modifies this
      ensures Valid() && old(pos) <= pos
      ensures Parsed(text, r) == ParseLine(old(Rest())) && (r.Ok? ==> r.rest == Rest() && TreeOk(text, r.value))
      decreases |text| - pos, 3
    {
      hide Next, ParsePipe, ParseBacks, Words, RedirAt, SpanOk, Skip;
      var p := ReadPipe();
      if p.Fail? {
        return Fail(p.error);
      }
      var cmd := ReadBacks(p.value);
      NextSkipped(Rest());
      var more := PeekTok(";");
      if !more {
        return Ok(cmd, text[pos..]);
      }
      NotEnd(Rest(), ";");
      var _, _ := GetToken();
      var q := ReadLine();
      if q.Fail? {
        return Fail(q.error);
      }
      r := Ok(ListTree(cmd, q.value), text[pos..]);
    }

    // parseline's loop over '&'.
    method ReadBacks(start: Tree) returns (cmd: Tree)
      requires Valid() && TreeOk(text, start)
      modifies this
      ensures Valid() && old(pos) <= pos && TreeOk(text, cmd)
      ensures (Meaning(text, cmd), Rest()) == ParseBacks(Meaning(text, start), old(Rest()))
    {
      hide Next;
      cmd := start;
      while true
        invariant Valid() && old(pos) <= pos && TreeOk(text, cmd)
        invariant ParseBacks(Meaning(text, cmd), Rest()) == ParseBacks(Meaning(text, start), old(Rest()))
        decreases |text| - pos
      {
        ghost var s := Rest();
        NextSkipped(s);
        var more := PeekTok("&");
        if !more {
          return;
        }
        NotEnd(Rest(), "&");
        var _, _ := GetToken();
        cmd := BackTree(cmd);
      }
    }

    // parsecmd: the whole line, after which the words are C strings in its buffer.
    method ReadCmd(buf: array<char>) returns (r: Result<Tree>)
      requires Valid() && pos == 0 && NUL !in text && buf[..] == text + [NUL]
      modifies this, buf
      ensures Valid() && Parsed(text, r) == ParseCmd(text)
      ensures r.Ok? <==> exists c :: ShellLanguage.Denotes(text, c)
      ensures r.Ok? ==> ShellLanguage.Denotes(text, Meaning(text, r.value))
      ensures r.Ok? ==> TreeOk(text, r.value) && Marked(text, Ends(r.value), buf[..])
      ensures r.Ok? ==> forall s :: HasSpan(r.value, s) ==> s.q < buf.Length && CString(buf[..], s.q) == WordAt(text, s)
    {
      hide ParseLine, Marked, CString, ShellLanguage.Denotes;
      AllAccepted(text);
      var p := ReadLine();
      if p.Fail? {
        return Fail(p.error);
      }
      var _ := PeekTok("");
      if pos != |text| {
        return Fail(Leftovers);
      }
      Unmarked(text);
      NulTerminate(text, p.value, {}, buf);
      assert {} + Ends(p.value) == Ends(p.value);
      forall s | HasSpan(p.value, s)
        ensures s.q < buf.Length && CString(buf[..], s.q) == WordAt(text, s)
      {
        WordsTerminated(text, p.value, buf[..], s);
      }
      r := Ok(p.value, "");
    }
  }

  // Store a NUL behind every word of the command; `done` is where some are.
  method NulTerminate(text: string, t: Tree, ghost done: set<nat>, buf: array<char>)
    requires TreeOk(text, t) && Marked(text, done, buf[..])
    modifies buf
    ensures Marked(text, done + Ends(t), buf[..])
    decreases t
  {
    match t
    case ExecTree(argv) =>
      var i := 0;
      while i < |argv|
        invariant 0 <= i <= |argv| && Marked(text, done + EndsOf(argv[..i]), buf[..])
      {
        assert SpanOk(text, argv[i]);
        assert argv[..i + 1][..i] == argv[..i];
        buf[argv[i].eq] := NUL;
        i := i + 1;
      }
      assert argv[..i] == argv;
    case RedirTree(c, to) =>
      NulTerminate(text, c, done, buf);
      buf[to.file.eq] := NUL;
    case PipeTree(l, r) =>
      NulTerminate(text, l, done, buf);
      NulTerminate(text, r, done + Ends(l), buf);
      assert done + Ends(l) + Ends(r) == done + Ends(t);
    case ListTree(l, r) =>
      NulTerminate(text, l, done, buf);
      NulTerminate(text, r, done + Ends(l), buf);
      assert done + Ends(l) + Ends(r) == done + Ends(t);
    case BackTree(c) => NulTerminate(text, c, done, buf);
  }

  lemma AllAccepted(text: string)
    ensures ParseCmd(text).Ok? <==> exists c :: ShellLanguage.Denotes(text, c)
    ensures ParseCmd(text).Ok? ==> ShellLanguage.Denotes(text, ParseCmd(text).value)
  {
    hide ParseLine, ShellLanguage.Denotes;
    if ParseCmd(text).Ok? {
      Accepts(text, ParseCmd(text).value);
    }
    forall c | ShellLanguage.Denotes(text, c)
      ensures ParseCmd(text).Ok?
    {
      Accepts(text, c);
    }
  }

  lemma Unmarked(text: string)
    ensures Marked(text, {}, text + [NUL])
  {}

  lemma NoWords(text: string)
    ensures Words(text, []) == []
  {}

  lemma NoRedirSpans(text: string)
    ensures Redirs(text, []) == []
  {}

  // The characters that SkipWord goes over are a whole word.
  lemma WordSpan(text: string, q: nat)
    requires q < |text| && WordChar(text[q])
    ensures SpanOk(text, Span(q, q + WordLen(text[q..])))
  {
    var t := text[q..];
    WordStarts(t);
    assert forall i :: q <= i < |text| ==> text[i] == t[i - q];
  }

  lemma WordStarts(s: string)
    requires s != "" && WordChar(s[0])
    ensures WordLen(s) > 0
  {}

  lemma BlockSkipped(s: string)
    ensures Peek(Skip(s), "(") == Peek(s, "(")
    ensures Peek(s, "(") ==> ParseBlock(Skip(s)) == ParseBlock(s)
  {
    hide ParseLine, ParseRedirs;
    SkipAgain(s);
    NextSkipped(s);
  }

  lemma RedirsSkipped(rs: seq<Redirect>, s: string)
    ensures ParseRedirs(rs, Skip(s)) == ParseRedirs(rs, s)
  {
    SkipAgain(s);
    NextSkipped(s);
  }

  lemma NotEnd(s: string, toks: string)
    ensures Peek(s, toks) ==> Next(s).0 != End && Skip(s) != ""
    ensures Peek(Skip(s), toks) == Peek(s, toks)
  {
    SkipAgain(s);
  }
}
