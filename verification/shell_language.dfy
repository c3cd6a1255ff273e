/**
 Which token lists are command lines, and which command each one is. A simple
 command mixes words and redirections in any order.
 */
module ShellLanguage {
  import opened ShellModel
  import opened ShellGrammar

  datatype Item = Arg(word: string) | Into(op: Token, file: string)

  datatype Part = Simple(items: seq<Item>) | Block(line: Line, redirs: seq<Item>)

  datatype Pipeline = Last(part: Part) | Piped(part: Part, rest: Pipeline)

  // A pipeline and its '&'s, and perhaps ';' and another line.
  datatype Line = Final(pipe: Pipeline, backs: nat) | Then(pipe: Pipeline, backs: nat, next: Line)

  // ------------------------------------------------------------ well-formed

  predicate IsOp(t: Token) {
    t == Symbol('<') || t == Symbol('>') || t == Append
  }

  predicate ItemOk(x: Item) {
    if x.Arg? then GoodWord(x.word) else IsOp(x.op) && GoodWord(x.file)
  }

  predicate ItemsOk(xs: seq<Item>) {
    forall i :: 0 <= i < |xs| ==> ItemOk(xs[i])
  }

  predicate OnlyInto(xs: seq<Item>) {
    forall i :: 0 <= i < |xs| ==> xs[i].Into?
  }

  predicate PartOk(p: Part) {
    match p
    case Simple(xs) => ItemsOk(xs) && |Args(xs)| < MAXARGS
    case Block(l, xs) => LineOk(l) && ItemsOk(xs) && OnlyInto(xs)
  }

  predicate PipeOk(p: Pipeline) {
    match p
    case Last(a) => PartOk(a)
    case Piped(a, b) => PartOk(a) && PipeOk(b)
  }

  predicate LineOk(l: Line) {
    match l
    case Final(p, _) => PipeOk(p)
    case Then(p, _, n) => PipeOk(p) && LineOk(n)
  }

  // ------------------------------------------------------------------- tokens

  function TokensOf(x: Item): (r: seq<Token>) {
    if x.Arg? then [Word(x.word)] else [x.op, Word(x.file)]
  }

  function ItemTokens(xs: seq<Item>): (r: seq<Token>) {
    if xs == [] then [] else TokensOf(xs[0]) + ItemTokens(xs[1..])
  }

  function Amps(n: nat): (r: seq<Token>) {
    if n == 0 then [] else [Symbol('&')] + Amps(n - 1)
  }

  function PartTokens(p: Part): (r: seq<Token>) {
    match p
    case Simple(xs) => ItemTokens(xs)
    case Block(l, xs) => [Symbol('(')] + LineTokens(l) + [Symbol(')')] + ItemTokens(xs)
  }

  function PipeTokens(p: Pipeline): (r: seq<Token>) {
    match p
    case Last(a) => PartTokens(a)
    case Piped(a, b) => PartTokens(a) + [Symbol('|')] + PipeTokens(b)
  }

  function LineTokens(l: Line): (r: seq<Token>) {
    match l
    case Final(p, n) => PipeTokens(p) + Amps(n)
    case Then(p, n, m) => PipeTokens(p) + Amps(n) + [Symbol(';')] + LineTokens(m)
  }

  // ----------------------------------------------------------------- commands

  function ArgOf(x: Item): (r: seq<string>) {
    if x.Arg? then [x.word] else []
  }

  // The words in order.
  function Args(xs: seq<Item>): (r: seq<string>) {
    if xs == [] then [] else ArgOf(xs[0]) + Args(xs[1..])
  }

  // The redirections in order, put round a command one after the other.
  function Around(c: Cmd, xs: seq<Item>): (r: Cmd)
    decreases |xs|
  {
    if xs == [] then c
    else Around(if xs[0].Arg? then c else Redir(c, Redirect(xs[0].file, xs[0].op != Symbol('<'))), xs[1..])
  }

  function Backs(c: Cmd, n: nat): (r: Cmd) {
    if n == 0 then c else Back(Backs(c, n - 1))
  }

  function PartCmd(p: Part): (c: Cmd) {
    match p
    case Simple(xs) => Around(Exec(Args(xs)), xs)
    case Block(l, xs) => Around(LineCmd(l), xs)
  }

  function PipeCmd(p: Pipeline): (c: Cmd) {
    match p
    case Last(a) => PartCmd(a)
    case Piped(a, b) => Pipe(PartCmd(a), PipeCmd(b))
  }

  function LineCmd(l: Line): (c: Cmd) {
    match l
    case Final(p, n) => Backs(PipeCmd(p), n)
    case Then(p, n, m) => List(Backs(PipeCmd(p), n), LineCmd(m))
  }

  // The text is a command line for c.
  ghost predicate Denotes(s: string, c: Cmd) {
    exists l :: LineOk(l) && LineTokens(l) == Lex(s) && LineCmd(l) == c
  }

  // ------------------------------------------------------------------ reading

  function First(t: Token): (c: char) {
    match t
    case End => ' '
    case Symbol(c) => c
    case Append => '>'
    case Word(w) => if w == "" then ' ' else w[0]
  }

  // The next token starts with one of toks.
  predicate Heads(ts: seq<Token>, toks: string) {
    ts != [] && First(ts[0]) in toks
  }

  lemma LexHead(s: string)
    ensures Next(s).0 == End <==> Lex(s) == []
    ensures Lex(s) != [] ==> Next(s).0 == Lex(s)[0] && Lex(Next(s).1) == Lex(s)[1..]
    ensures Lex(s) != [] ==> GoodToken(Lex(s)[0])
  {
    if Skip(s) != "" {
      var _ := NextTakes(Skip(s));
      NextSkipped(s);
    }
  }

  lemma PeekHead(s: string, toks: string)
    ensures Peek(s, toks) <==> Heads(Lex(s), toks)
    ensures Lex(Skip(s)) == Lex(s)
    ensures Skip(s) == "" <==> Lex(s) == []
  {
    LexSkip(s);
    SkipAgain(s);
    if Skip(s) != "" {
      var t := NextTakes(Skip(s));
      NextSkipped(s);
      assert Skip(s)[0] == First(Next(s).0);
    }
  }

  lemma IsOpHead(t: Token)
    requires GoodToken(t)
    ensures IsOp(t) <==> First(t) in "<>"
    ensures t.Word? <==> First(t) !in "<|>&;()"
    ensures forall c :: c in "|&;()" ==> (First(t) == c <==> t == Symbol(c))
  {}
}
