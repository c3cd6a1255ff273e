/**
 The command parser of sh.c as functions on the remaining text. Running off the
 end of the text plays the part of the terminating NUL.
 */
module ShellModel {

  const MAXARGS := 10

  datatype Redirect = Redirect(file: string, out: bool)   // out: fd 1, write and create; else fd 0, read

  datatype Cmd =
    | Exec(argv: seq<string>)
    | Redir(cmd: Cmd, to: Redirect)
    | Pipe(left: Cmd, right: Cmd)
    | List(left: Cmd, right: Cmd)
    | Back(cmd: Cmd)

  datatype Error = MissingFile | MissingParen | TooManyArgs | Syntax | Leftovers

  datatype Result<+T> = Ok(value: T, rest: string) | Fail(error: Error)

  datatype Token = End | Symbol(c: char) | Append | Word(text: string)

  predicate Space(c: char) {
    c == ' ' || c == '\t' || c == '\r' || c == '\n' || c == '\U{0B}'
  }

  predicate Sym(c: char) {
    c in "<|>&;()"
  }

  predicate WordChar(c: char) {
    !Space(c) && !Sym(c)
  }

  // ---------------------------------------------------------------- scanning

  function Skip(s: string): (r: string)
    ensures |r| <= |s| && (r != "" ==> !Space(r[0]))
    ensures s != "" && !Space(s[0]) ==> r == s
  {
    if s != "" && Space(s[0]) then Skip(s[1..]) else s
  }

  // peek: whether the next character is one of toks.
  predicate Peek(s: string, toks: string) {
    Skip(s) != "" && Skip(s)[0] in toks
  }

  function WordLen(s: string): (n: nat)
    ensures n <= |s|
    ensures forall i :: 0 <= i < n ==> WordChar(s[i])
    ensures n < |s| ==> !WordChar(s[n])
  {
    if s != "" && WordChar(s[0]) then 1 + WordLen(s[1..]) else 0
  }

  // gettoken.
  function Next(s: string): (r: (Token, string))
    ensures |r.1| <= |s| && (r.0 != End ==> |r.1| < |s|)
    ensures r.0.Word? ==> r.0.text != "" && forall i :: 0 <= i < |r.0.text| ==> WordChar(r.0.text[i])
  {
    var t := Skip(s);
    if t == "" then (End, t)
    else if t[0] == '>' then
      if |t| > 1 && t[1] == '>' then (Append, Skip(t[2..])) else (Symbol('>'), Skip(t[1..]))
    else if Sym(t[0]) then (Symbol(t[0]), Skip(t[1..]))
    else
      var n := WordLen(t);
      (Word(t[..n]), Skip(t[n..]))
  }

  // Skipping twice is skipping once.
  lemma SkipAgain(s: string)
    ensures Skip(Skip(s)) == Skip(s)
  {}

  lemma NextSkipped(s: string)
    ensures Next(Skip(s)) == Next(s)
  {
    SkipAgain(s);
  }

  // ----------------------------------------------------------------- parsing

  function Wrap(c: Cmd, rs: seq<Redirect>): (r: Cmd) {
    if rs == [] then c else Redir(Wrap(c, rs[..|rs| - 1]), rs[|rs| - 1])
  }

  // parseredirs, adding to the redirections rs seen so far.
  function ParseRedirs(rs: seq<Redirect>, s: string): (r: Result<seq<Redirect>>)
    ensures r.Ok? ==> |r.rest| <= |s|
    decreases |s|
  {
    if !Peek(s, "<>") then Ok(rs, Skip(s))
    else
      var op := Next(s);
      var file := Next(op.1);
      if !file.0.Word? then Fail(MissingFile)
      else ParseRedirs(rs + [Redirect(file.0.text, op.0 != Symbol('<'))], file.1)
  }

  // parseexec's argument loop.
  function ParseArgs(argv: seq<string>, rs: seq<Redirect>, s: string): (r: Result<Cmd>)
    ensures r.Ok? ==> |r.rest| <= |s|
    decreases |s|
  {
    if Peek(s, "|)&;") then Ok(Wrap(Exec(argv), rs), Skip(s))
    else
      var t := Next(s);
      if t.0 == End then Ok(Wrap(Exec(argv), rs), t.1)
      else if !t.0.Word? then Fail(Syntax)
      else if |argv| + 1 >= MAXARGS then Fail(TooManyArgs)
      else
        var p := ParseRedirs(rs, t.1);
        if p.Fail? then Fail(p.error) else ParseArgs(argv + [t.0.text], p.value, p.rest)
  }

  function ParseExec(s: string): (r: Result<Cmd>)
    ensures r.Ok? ==> |r.rest| <= |s|
    decreases |s|, 1
  {
    if Peek(s, "(") then ParseBlock(s)
    else
      var p := ParseRedirs([], s);
      if p.Fail? then Fail(p.error) else ParseArgs([], p.value, p.rest)
  }

  function ParseBlock(s: string): (r: Result<Cmd>)
    requires Peek(s, "(")
    ensures r.Ok? ==> |r.rest| <= |s|
    decreases |s|, 0
  {
    var p := ParseLine(Next(s).1);
    if p.Fail? then p
    else if !Peek(p.rest, ")") then Fail(MissingParen)
    else
      var q := ParseRedirs([], Next(p.rest).1);
      if q.Fail? then Fail(q.error) else Ok(Wrap(p.value, q.value), q.rest)
  }

  function ParsePipe(s: string): (r: Result<Cmd>)
    ensures r.Ok? ==> |r.rest| <= |s|
    decreases |s|, 2
  {
    var p := ParseExec(s);
    if p.Fail? || !Peek(p.rest, "|") then (if p.Fail? then p else Ok(p.value, Skip(p.rest)))
    else
      var q := ParsePipe(Next(p.rest).1);
      if q.Fail? then q else Ok(Pipe(p.value, q.value), q.rest)
  }

  // parseline's loop over '&'.
  function ParseBacks(c: Cmd, s: string): (r: (Cmd, string))
    ensures |r.1| <= |s|
    decreases |s|
  {
    if Peek(s, "&") then ParseBacks(Back(c), Next(s).1) else (c, Skip(s))
  }

  function ParseLine(s: string): (r: Result<Cmd>)
    ensures r.Ok? ==> |r.rest| <= |s|
    decreases |s|, 3
  {
    var p := ParsePipe(s);
    if p.Fail? then p
    else
      var b := ParseBacks(p.value, p.rest);
      if !Peek(b.1, ";") then Ok(b.0, Skip(b.1))
      else
        var q := ParseLine(Next(b.1).1);
        if q.Fail? then q else Ok(List(b.0, q.value), q.rest)
  }

  function ParseCmd(s: string): (r: Result<Cmd>) {
    var p := ParseLine(s);
    if p.Fail? then p else if Skip(p.rest) != "" then Fail(Leftovers) else Ok(p.value, "")
  }

  // ---------------------------------------------------------------- printing

  function PrintWords(ws: seq<string>): (r: string) {
    if ws == [] then "" else if |ws| == 1 then ws[0] else ws[0] + " " + PrintWords(ws[1..])
  }

  function PrintRedir(r: Redirect): (s: string) {
    (if r.out then ">" else "<") + r.file
  }

  // The canonical text of a command, with parentheses where the grammar needs
  // them.
  function PrintLine(c: Cmd): (r: string)
    decreases c, 3
  {
    match c
    case List(l, r) => PrintBack(l) + ";" + PrintLine(r)
    case _ => PrintBack(c)
  }

  function PrintBack(c: Cmd): (r: string)
    decreases c, 2
  {
    match c
    case Back(d) => PrintBack(d) + "&"
    case _ => PrintPipe(c)
  }

  function PrintPipe(c: Cmd): (r: string)
    decreases c, 1
  {
    match c
    case Pipe(l, r) => PrintExec(l) + "|" + PrintPipe(r)
    case _ => PrintExec(c)
  }

  function PrintExec(c: Cmd): (r: string)
    decreases c, 0
  {
    match c
    case Exec(argv) => PrintWords(argv)
    case Redir(d, to) => PrintExec(d) + PrintRedir(to)
    case List(l, r) => "(" + (PrintBack(l) + ";" + PrintLine(r)) + ")"
    case Back(d) => "(" + (PrintBack(d) + "&") + ")"
    case Pipe(l, r) => "(" + (PrintExec(l) + "|" + PrintPipe(r)) + ")"
  }

  predicate GoodWord(w: string) {
    w != "" && forall i :: 0 <= i < |w| ==> WordChar(w[i])
  }

  // Words avoid spaces and symbols and there are at most nine of them.
  predicate Wf(c: Cmd) {
    match c
    case Exec(argv) => |argv| < MAXARGS && forall i :: 0 <= i < |argv| ==> GoodWord(argv[i])
    case Redir(d, to) => Wf(d) && GoodWord(to.file)
    case Pipe(l, r) => Wf(l) && Wf(r)
    case List(l, r) => Wf(l) && Wf(r)
    case Back(d) => Wf(d)
  }
}
