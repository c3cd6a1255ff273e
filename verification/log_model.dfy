/**
 The write-ahead redo log of log.c as a step machine.

 One step is one critical section of begin_op, log_write or end_op, one block
 write of commit or of recovery, or a crash. A machine state carries, next to
 the log's own fields, the history needed to say what a crash may lose: the
 groups of writes whose header has reached the disk (`durable`), the writes
 of the group being collected (`current`) and every write ever issued.
 */
module LogModel {
  import opened Blocks

  const MAXOPBLOCKS := 10
  const LOGSIZE := 30

  type Disk = seq<Block>

  // log.start and log.size, as read from the super block.
  datatype Layout = Layout(start: nat, size: nat)

  datatype Write = Write(op: nat, block: int, data: Block)

  datatype Phase =
    | Running                          // operations may run
    | WriteLog(tail: nat)              // write_log, about to write log block tail
    | WriteHead                        // write_head with n > 0: the commit point
    | Install(tail: nat, boot: bool)   // install_trans, in commit or in recovery
    | ClearHead(boot: bool)            // write_head with n == 0
    | Committed                        // end_op is about to clear log.committing
    | Down                             // crashed; read_head comes next

  datatype State = State(
    disk: Disk,
    dirty: map<int, Block>,      // buffers pinned by B_DIRTY
    blocks: seq<int>,            // log.lh.block[..log.lh.n]
    ops: map<nat, set<int>>,     // operations inside begin_op/end_op, and the blocks each has logged
    committing: bool,
    phase: Phase,
    nextOp: nat,
    durable: seq<seq<Write>>,
    current: seq<Write>,
    issued: seq<Write>)

  datatype Step =
    | Begin
    | LogWrite(op: nat, block: int, data: Block)
    | End(op: nat)
    | BlockStep                  // the next step of commit or of recovery
    | Crash

  // ---------------------------------------------------------------- layout

  predicate LayoutOk(l: Layout, len: nat) {
    1 <= l.size && l.start + l.size <= len
  }

  // A block outside the log area.
  predicate Home(l: Layout, len: nat, b: int) {
    0 <= b < len && !(l.start <= b < l.start + l.size)
  }

  // write_head stores n and the first n entries and leaves the other words alone.
  function Encode(prev: Block, blocks: seq<int>): (r: Block)
    requires |blocks| <= LOGSIZE
  {
    Block([|blocks|] + blocks + prev.words[1 + |blocks|..])
  }

  predicate HeadOk(b: Block) {
    0 <= b.words[0] <= LOGSIZE
  }

  function Decode(b: Block): (r: seq<int>)
    requires HeadOk(b)
  {
    b.words[1..1 + b.words[0]]
  }

  lemma DecodeEncode(prev: Block, blocks: seq<int>)
    requires |blocks| <= LOGSIZE
    ensures HeadOk(Encode(prev, blocks)) && Decode(Encode(prev, blocks)) == blocks
  {
    var e := Encode(prev, blocks).words;
    assert e[1..1 + e[0]] == blocks;
  }

  // ---------------------------------------------------------- write effects

  function Apply(d: Disk, ws: seq<Write>): (r: Disk)
    ensures |r| == |d|
  {
    if ws == [] then d
    else
      var w := ws[|ws| - 1];
      var r := Apply(d, ws[..|ws| - 1]);
      if 0 <= w.block < |d| then r[w.block := w.data] else r
  }

  lemma ApplySnoc(d: Disk, ws: seq<Write>, w: Write)
    ensures Apply(d, ws + [w]) == if 0 <= w.block < |d| then Apply(d, ws)[w.block := w.data] else Apply(d, ws)
  {
    assert (ws + [w])[..|ws|] == ws;
  }

  lemma {:induction false} ApplyConcat(d: Disk, a: seq<Write>, b: seq<Write>)
    ensures Apply(d, a + b) == Apply(Apply(d, a), b)
  {
    if b == [] {
      assert a + b == a;
    } else {
      ApplyConcat(d, a, b[..|b| - 1]);
      assert (a + b)[..|a + b| - 1] == a + b[..|b| - 1];
    }
  }

  function Flat(groups: seq<seq<Write>>): (r: seq<Write>) {
    if groups == [] then [] else Flat(groups[..|groups| - 1]) + groups[|groups| - 1]
  }

  lemma FlatSnoc(groups: seq<seq<Write>>, g: seq<Write>)
    ensures Flat(groups + [g]) == Flat(groups) + g
  {
    assert (groups + [g])[..|groups|] == groups;
  }

  // The home blocks after every durable group has taken effect, in order.
  function Durable(d0: Disk, s: State): (r: Disk)
    ensures |r| == |d0|
  {
    Apply(d0, Flat(s.durable))
  }

  ghost predicate HomeEq(l: Layout, a: Disk, b: Disk) {
    && |a| == |b|
    && forall x {:trigger Home(l, |a|, x)} :: Home(l, |a|, x) ==> a[x] == b[x]
  }

  // What bread returns for block b: the pinned buffer, or the disk.
  function View(s: State, b: int): (r: Block)
    requires 0 <= b < |s.disk|
  {
    if b in s.dirty then s.dirty[b] else s.disk[b]
  }

  // ------------------------------------------------------------- recovery

  predicate Fits(l: Layout, len: nat, bs: seq<int>) {
    && LayoutOk(l, len)
    && |bs| < l.size
    && forall i :: 0 <= i < |bs| ==> Home(l, len, bs[i])
  }

  // The on-disk header lists blocks outside the log that fit the log area.
  predicate HeadValid(l: Layout, d: Disk) {
    LayoutOk(l, |d|) && HeadOk(d[l.start]) && Fits(l, |d|, Decode(d[l.start]))
  }

  // With `bs` as the logged blocks, the log copies and the untouched home
  // blocks of `d` together hold the home blocks of `target`.
  ghost predicate Holds(l: Layout, d: Disk, bs: seq<int>, target: Disk) {
    && |d| == |target|
    && Fits(l, |d|, bs)
    && (forall i :: 0 <= i < |bs| ==> d[l.start + 1 + i] == target[bs[i]])
    && (forall b {:trigger Home(l, |d|, b)} :: Home(l, |d|, b) && b !in bs ==> d[b] == target[b])
  }

  // On disk `d` the log, once replayed, restores the home blocks of `target`.
  ghost predicate CrashOk(l: Layout, d: Disk, target: Disk) {
    HeadValid(l, d) && Holds(l, d, Decode(d[l.start]), target)
  }

  // install_trans from entry k on.
  function Replay(l: Layout, d: Disk, bs: seq<int>, k: nat): (r: Disk)
    requires k <= |bs| && Fits(l, |d|, bs)
    ensures |r| == |d|
    decreases |bs| - k
  {
    if k == |bs| then d else Replay(l, d[bs[k] := d[l.start + 1 + k]], bs, k + 1)
  }

  // recover_from_log, run to its end without interruption.
  function Recover(l: Layout, d: Disk): (r: Disk)
    requires HeadValid(l, d)
  {
    var r := Replay(l, d, Decode(d[l.start]), 0);
    r[l.start := Encode(r[l.start], [])]
  }

  // Installing entry i keeps what replay restores, and brings that entry's
  // home block up to date.
  lemma InstallOne(l: Layout, d: Disk, bs: seq<int>, target: Disk, i: nat)
    requires Holds(l, d, bs, target) && i < |bs|
    ensures var r := d[bs[i] := d[l.start + 1 + i]];
            && Holds(l, r, bs, target)
            && r[l.start] == d[l.start]
            && r[bs[i]] == target[bs[i]]
            && (forall x :: 0 <= x < |d| && d[x] == target[x] ==> r[x] == target[x])
  {
    assert Home(l, |d|, bs[i]);
  }

  // A write inside the log area is invisible while the header is empty.
  lemma LogAreaWrite(l: Layout, d: Disk, target: Disk, x: nat, data: Block)
    requires CrashOk(l, d, target) && Decode(d[l.start]) == []
    requires l.start < x < l.start + l.size
    ensures CrashOk(l, d[x := data], target) && Decode(d[x := data][l.start]) == []
  {}

  lemma ClearWrite(l: Layout, d: Disk, target: Disk)
    requires LayoutOk(l, |d|) && HomeEq(l, d, target)
    ensures var r := d[l.start := Encode(d[l.start], [])];
            CrashOk(l, r, target) && HomeEq(l, r, target) && Decode(r[l.start]) == []
  {
    DecodeEncode(d[l.start], []);
  }

  // With every entry installed, all home blocks are restored.
  lemma AllInstalled(l: Layout, d: Disk, bs: seq<int>, target: Disk)
    requires Holds(l, d, bs, target)
    requires forall i :: 0 <= i < |bs| ==> d[bs[i]] == target[bs[i]]
    ensures HomeEq(l, d, target)
  {
    forall b | Home(l, |d|, b)
      ensures d[b] == target[b]
    {
      if b in bs {
        var j :| 0 <= j < |bs| && bs[j] == b;
      }
    }
  }

  lemma {:induction false} ReplayRestores(l: Layout, d: Disk, bs: seq<int>, target: Disk, k: nat)
    requires Holds(l, d, bs, target) && k <= |bs|
    requires forall i :: 0 <= i < k ==> d[bs[i]] == target[bs[i]]
    ensures HomeEq(l, Replay(l, d, bs, k), target)
    decreases |bs| - k
  {
    if k < |bs| {
      InstallOne(l, d, bs, target, k);
      ReplayRestores(l, d[bs[k] := d[l.start + 1 + k]], bs, target, k + 1);
    } else {
      AllInstalled(l, d, bs, target);
    }
  }

  lemma RecoverRestores(l: Layout, d: Disk, target: Disk)
    requires CrashOk(l, d, target)
    ensures HomeEq(l, Recover(l, d), target)
    ensures CrashOk(l, Recover(l, d), target)
  {
    ReplayRestores(l, d, Decode(d[l.start]), target, 0);
    ClearWrite(l, Replay(l, d, Decode(d[l.start]), 0), target);
  }

  // -------------------------------------------------------------- the steps

  // The number of reserved log slots not yet used, over operations below k.
  function Reserved(ops: map<nat, set<int>>, k: nat): (r: int) {
    if k == 0 then 0
    else Reserved(ops, k - 1) + if k - 1 in ops then MAXOPBLOCKS - |ops[k - 1]| else 0
  }

  // begin_op sleeps unless this holds.
  predicate Admits(s: State) {
    !s.committing && |s.blocks| + (|s.ops| + 1) * MAXOPBLOCKS <= LOGSIZE
  }

  // log_write's "too big a transaction" check.
  predicate TooBig(l: Layout, s: State) {
    |s.blocks| >= LOGSIZE || |s.blocks| >= l.size - 1
  }

  // What an operation may ask of log_write: it has begun, and the block lies
  // outside the log.
  predicate MayLog(l: Layout, s: State, op: nat, b: int) {
    op in s.ops && Home(l, |s.disk|, b)
  }

  // The step leaves every operation with at most MAXOPBLOCKS logged blocks.
  predicate InBudget(s: State, a: Step) {
    a.LogWrite? && a.op in s.ops ==> |s.ops[a.op] + {a.block}| <= MAXOPBLOCKS
  }

  predicate Enabled(l: Layout, s: State, a: Step) {
    match a
    case Begin => s.phase == Running && Admits(s)
    case LogWrite(op, b, _) => MayLog(l, s, op, b) && !TooBig(l, s)
    case End(op) => op in s.ops && !s.committing
    case BlockStep => s.phase != Running && BlockEnabled(l, s)
    case Crash => true
  }

  // The indices the code uses in this phase are in range.
  predicate BlockEnabled(l: Layout, s: State) {
    && LayoutOk(l, |s.disk|)
    && |s.blocks| < l.size
    && |s.blocks| <= LOGSIZE
    && (forall i :: 0 <= i < |s.blocks| ==> 0 <= s.blocks[i] < |s.disk|)
    && match s.phase
       case WriteLog(t) => t < |s.blocks|
       case Install(t, _) => t < |s.blocks|
       case Down => HeadOk(s.disk[l.start])
       case _ => true
  }

  function NextBlock(l: Layout, s: State): (r: State)
    requires BlockEnabled(l, s)
  {
    match s.phase
    case Running => s
    case WriteLog(t) =>
      s.(disk := s.disk[l.start + 1 + t := View(s, s.blocks[t])],
         phase := if t + 1 < |s.blocks| then WriteLog(t + 1) else WriteHead)
    case WriteHead =>
      s.(disk := s.disk[l.start := Encode(s.disk[l.start], s.blocks)],
         phase := if |s.blocks| > 0 then Install(0, false) else ClearHead(false),
         durable := s.durable + [s.current],
         current := [])
    case Install(t, boot) =>
      var last := t + 1 == |s.blocks|;
      s.(disk := s.disk[s.blocks[t] := s.disk[l.start + 1 + t]],
         dirty := s.dirty - {s.blocks[t]},
         blocks := if last then [] else s.blocks,
         phase := if last then ClearHead(boot) else Install(t + 1, boot))
    case ClearHead(boot) =>
      s.(disk := s.disk[l.start := Encode(s.disk[l.start], [])],
         phase := if boot then Running else Committed)
    case Committed =>
      s.(committing := false, phase := Running)
    case Down =>
      var bs := Decode(s.disk[l.start]);
      s.(blocks := bs, phase := if |bs| > 0 then Install(0, true) else ClearHead(true))
  }

  function Next(l: Layout, s: State, a: Step): (r: State)
    requires Enabled(l, s, a)
  {
    match a
    case Begin =>
      s.(ops := s.ops[s.nextOp := {}], nextOp := s.nextOp + 1)
    case LogWrite(op, b, data) =>
      s.(dirty := s.dirty[b := data],
         blocks := if b in s.blocks then s.blocks else s.blocks + [b],
         ops := s.ops[op := s.ops[op] + {b}],
         current := s.current + [Write(op, b, data)],
         issued := s.issued + [Write(op, b, data)])
    case End(op) =>
      var ops := s.ops - {op};
      if |ops| == 0 then
        s.(ops := ops, committing := true,
           phase := if |s.blocks| > 0 then WriteLog(0) else Committed)
      else
        s.(ops := ops)
    case BlockStep => NextBlock(l, s)
    case Crash =>
      s.(dirty := map[], blocks := [], ops := map[], committing := false,
         phase := Down, current := [])
  }

  // The machine boots with a disk that recovers to d0.
  ghost predicate Init(l: Layout, d0: Disk, s: State) {
    && CrashOk(l, s.disk, d0)
    && s == State(s.disk, map[], [], map[], false, Down, 0, [], [], [])
  }

  predicate StepOk(l: Layout, trace: seq<State>, steps: seq<Step>, i: nat)
    requires |trace| == |steps| + 1 && i < |steps|
  {
    Enabled(l, trace[i], steps[i]) && trace[i + 1] == Next(l, trace[i], steps[i])
  }

  ghost predicate IsRun(l: Layout, d0: Disk, trace: seq<State>, steps: seq<Step>) {
    && |trace| == |steps| + 1
    && Init(l, d0, trace[0])
    && forall i {:trigger StepOk(l, trace, steps, i)} :: 0 <= i < |steps| ==> StepOk(l, trace, steps, i)
  }

  // No operation has logged more than MAXOPBLOCKS blocks up to state i.
  ghost predicate Budgeted(trace: seq<State>, steps: seq<Step>, i: nat) {
    i <= |trace| && i <= |steps| && forall k :: 0 <= k < i ==> InBudget(trace[k], steps[k])
  }
}
