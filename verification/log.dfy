/**
 log.c as an object updated in place. Its ghost `trace` is the run of the step
 machine that the object's block writes have performed so far, so whatever is
 proved of every run holds between any two block writes here.
 */
module Log {
  import opened Blocks
  import opened LogModel
  import opened LogSafety
  import opened LogHistory
  import opened LogReserve

  function Repeat(k: nat): (r: seq<Step>)
    ensures |r| == k && forall i :: 0 <= i < k ==> r[i] == BlockStep
  {
    seq(k, _ => BlockStep)
  }

  lemma RepeatJoin(before: seq<Step>, k: nat, after: seq<Step>)
    requires after == before + [BlockStep] + Repeat(k) + [BlockStep]
    ensures after == before + Repeat(k + 2)
    ensures forall i :: |before| <= i < |after| ==> after[i] == BlockStep
  {}

  lemma RepeatTwice(before: seq<Step>, k: nat, after: seq<Step>)
    requires after == before + Repeat(k) + [BlockStep] + Repeat(k) + [BlockStep]
    ensures after == before + Repeat(2 * k + 2)
    ensures forall i :: |before| <= i < |after| ==> after[i] == BlockStep
  {}

  lemma DropAbsent(m: map<int, Block>, b: int)
    requires b !in m
    ensures m - {b} == m
  {}

  // What the code relies on before any block write: the log area holds no
  // pinned buffer and every index it uses is in range.
  lemma RunReady(l: Layout, d0: Disk, trace: seq<State>, steps: seq<Step>)
    requires IsRun(l, d0, trace, steps)
    ensures var s := trace[|trace| - 1];
            && LayoutOk(l, |s.disk|)
            && (s.phase != Running ==> Enabled(l, s, BlockStep))
            && (forall x :: l.start <= x < l.start + l.size ==> x !in s.dirty)
  {
    var s := trace[|trace| - 1];
    RunInv(l, d0, trace, steps, |trace| - 1);
    forall x | l.start <= x < l.start + l.size
      ensures x !in s.dirty
    {
      if x in s.dirty {
        var i :| 0 <= i < |s.blocks| && s.blocks[i] == x;
      }
    }
  }

  lemma RunLogArea(l: Layout, d0: Disk, trace: seq<State>, steps: seq<Step>, t: nat)
    requires IsRun(l, d0, trace, steps)
    ensures var s := trace[|trace| - 1];
            && (s.phase != Running ==> Enabled(l, s, BlockStep))
            && (t + 1 < l.size ==> l.start + 1 + t !in s.dirty)
  {
    hide IsRun, Enabled;
    RunReady(l, d0, trace, steps);
  }

  lemma RunControl(l: Layout, d0: Disk, trace: seq<State>, steps: seq<Step>)
    requires IsRun(l, d0, trace, steps)
    ensures var s := trace[|trace| - 1];
            && ControlInv(s)
            && s.nextOp !in s.ops
            && |s.blocks| <= LOGSIZE
            && |trace| == |steps| + 1
  {
    RunInv(l, d0, trace, steps, |trace| - 1);
  }

  // The fields that a step of the machine changes, one lemma per kind of step.

  lemma AfterCommit(l: Layout, s: State)
    requires Enabled(l, s, BlockStep) && s.phase == Committed
    ensures Next(l, s, BlockStep) == s.(committing := false, phase := Running)
  {}

  lemma AfterWriteLog(l: Layout, s: State)
    requires Enabled(l, s, BlockStep) && s.phase.WriteLog?
    ensures var t := s.phase.tail;
            && l.start + 1 + t < |s.disk| && t < |s.blocks| < l.size && 0 <= s.blocks[t] < |s.disk|
            && Next(l, s, BlockStep) == s.(disk := s.disk[l.start + 1 + t := View(s, s.blocks[t])],
                                           phase := if t + 1 < |s.blocks| then WriteLog(t + 1) else WriteHead)
  {
    hide Encode, Decode, HeadOk, Home;
  }

  lemma AfterReadHead(l: Layout, d0: Disk, trace: seq<State>, steps: seq<Step>, s: State)
    requires IsRun(l, d0, trace, steps) && s == trace[|trace| - 1] && s.phase == Down
    ensures HeadValid(l, s.disk) == true && Enabled(l, s, BlockStep) == true
    ensures l.start < |s.disk| && HeadOk(s.disk[l.start])
    ensures Next(l, s, BlockStep) ==
            var bs := Decode(s.disk[l.start]);
            s.(blocks := bs, phase := if |bs| > 0 then Install(0, true) else ClearHead(true))
  {
    RunReady(l, d0, trace, steps);
    CrashAtomicity(l, d0, trace, steps, |trace| - 1);
  }

  lemma AfterEnd(l: Layout, s: State, op: nat)
    requires op in s.ops && !s.committing
    ensures Enabled(l, s, End(op)) && |s.ops - {op}| == |s.ops| - 1
    ensures Next(l, s, End(op)) ==
            if |s.ops| == 1 then
              s.(ops := s.ops - {op}, committing := true, phase := if |s.blocks| > 0 then WriteLog(0) else Committed)
            else
              s.(ops := s.ops - {op})
  {
    assert s.ops.Keys == (s.ops - {op}).Keys + {op};
  }

  lemma AfterBegin(l: Layout, s: State)
    requires s.phase == Running && Admits(s) && s.nextOp !in s.ops
    ensures Enabled(l, s, Begin) && |s.ops[s.nextOp := {}]| == |s.ops| + 1
    ensures Next(l, s, Begin) == s.(ops := s.ops[s.nextOp := {}], nextOp := s.nextOp + 1)
  {
    assert s.ops[s.nextOp := {}].Keys == s.ops.Keys + {s.nextOp};
  }

  // The fields are those of state s. Between the last install and the header
  // write log.lh.n is reset by the caller.
  ghost predicate Tied(s: State, disk: Disk, dirty: map<int, Block>, blocks: seq<int>, outstanding: int, committing: bool) {
    && s.disk == disk
    && s.dirty == dirty
    && (s.phase.ClearHead? || s.blocks == blocks)
    && outstanding == |s.ops|
    && committing == s.committing
  }

  lemma TiedFields(s: State, disk: Disk, dirty: map<int, Block>, blocks: seq<int>, outstanding: int, committing: bool)
    requires Tied(s, disk, dirty, blocks, outstanding, committing)
    ensures s.disk == disk && s.dirty == dirty && (s.phase.ClearHead? || s.blocks == blocks)
  {}

  lemma TiedDisk(s: State, d: Disk, p: Phase, blocks: seq<int>, outstanding: int, committing: bool)
    requires Tied(s, s.disk, s.dirty, blocks, outstanding, committing) && !s.phase.ClearHead?
    ensures Tied(s.(disk := d, phase := p), d, s.dirty, blocks, outstanding, committing)
  {}

  lemma WriteLogMoves(l: Layout, s: State, blocks: seq<int>, outstanding: int, committing: bool)
    requires Enabled(l, s, BlockStep) && s.phase.WriteLog? && l.start + 1 + s.phase.tail !in s.dirty
    requires Tied(s, s.disk, s.dirty, blocks, outstanding, committing)
    ensures var t, x := s.phase.tail, l.start + 1 + s.phase.tail;
            && t < |blocks| < l.size && 0 <= blocks[t] < |s.disk| && x < |s.disk|
            && Next(l, s, BlockStep).phase == (if t + 1 < |blocks| then WriteLog(t + 1) else WriteHead)
            && Tied(Next(l, s, BlockStep), s.disk[x := View(s, blocks[t])], s.dirty - {x}, blocks, outstanding, committing)
  {
    hide Next, NextBlock, Enabled, View, Tied;
    AfterWriteLog(l, s);
    TiedFields(s, s.disk, s.dirty, blocks, outstanding, committing);
    DropAbsent(s.dirty, l.start + 1 + s.phase.tail);
    var s' := Next(l, s, BlockStep);
    TiedDisk(s, s'.disk, s'.phase, blocks, outstanding, committing);
  }

  lemma WriteLogTied(l: Layout, d0: Disk, trace: seq<State>, steps: seq<Step>, s: State,
                     blocks: seq<int>, outstanding: int, committing: bool)
    requires IsRun(l, d0, trace, steps) && s == trace[|trace| - 1] && s.phase.WriteLog?
    requires Tied(s, s.disk, s.dirty, blocks, outstanding, committing)
    ensures Enabled(l, s, BlockStep) == true
    ensures var t, x := s.phase.tail, l.start + 1 + s.phase.tail;
            && t < |blocks| < l.size && 0 <= blocks[t] < |s.disk| && x < |s.disk|
            && Next(l, s, BlockStep).phase == (if t + 1 < |blocks| then WriteLog(t + 1) else WriteHead)
            && Tied(Next(l, s, BlockStep), s.disk[x := View(s, blocks[t])], s.dirty - {x}, blocks, outstanding, committing)
  {
    hide IsRun, Next, NextBlock, Enabled, View, Tied;
    RunLogArea(l, d0, trace, steps, s.phase.tail);
    AfterWriteLog(l, s);
    WriteLogMoves(l, s, blocks, outstanding, committing);
  }

  lemma InstallTied(l: Layout, d0: Disk, trace: seq<State>, steps: seq<Step>, s: State,
                    blocks: seq<int>, outstanding: int, committing: bool)
    requires IsRun(l, d0, trace, steps) && s == trace[|trace| - 1] && s.phase.Install?
    requires Tied(s, s.disk, s.dirty, blocks, outstanding, committing)
    ensures Enabled(l, s, BlockStep) == true
    ensures var t, x := s.phase.tail, l.start + 1 + s.phase.tail;
            && t < |blocks| < l.size && 0 <= blocks[t] < |s.disk| && x < |s.disk|
            && Next(l, s, BlockStep).phase == (if t + 1 < |blocks| then Install(t + 1, s.phase.boot) else ClearHead(s.phase.boot))
            && Tied(Next(l, s, BlockStep), s.disk[blocks[t] := View(s, x)], s.dirty - {blocks[t]}, blocks, outstanding, committing)
  {
    hide IsRun, Encode, Decode, HeadOk, Home;
    RunReady(l, d0, trace, steps);
  }

  // The header write, with n > 0 or n == 0.
  lemma WriteHeadTied(l: Layout, d0: Disk, trace: seq<State>, steps: seq<Step>, s: State,
                      blocks: seq<int>, outstanding: int, committing: bool)
    requires IsRun(l, d0, trace, steps) && s == trace[|trace| - 1] && |blocks| <= LOGSIZE
    requires (s.phase.WriteHead? && blocks != []) || (s.phase.ClearHead? && blocks == [])
    requires Tied(s, s.disk, s.dirty, blocks, outstanding, committing)
    ensures Enabled(l, s, BlockStep) == true && l.start < |s.disk|
    ensures var s' := Next(l, s, BlockStep);
            && s'.phase == (match s.phase
                            case ClearHead(boot) => if boot then Running else Committed
                            case _ => Install(0, false))
            && Tied(s', s.disk[l.start := Encode(s.disk[l.start], blocks)], s.dirty - {l.start}, blocks, outstanding, committing)
  {
    hide IsRun, Encode, Decode, HeadOk, Home;
    RunReady(l, d0, trace, steps);
    RunControl(l, d0, trace, steps);
    DropAbsent(s.dirty, l.start);
  }

  // The header's list with b logged.
  function Logged(blocks: seq<int>, b: int): (r: seq<int>) {
    if b in blocks then blocks else blocks + [b]
  }

  lemma LogWriteTied(l: Layout, d0: Disk, trace: seq<State>, steps: seq<Step>, s: State, disk: Disk, dirty: map<int, Block>,
                     blocks: seq<int>, outstanding: int, committing: bool, op: nat, b: int, data: Block)
    requires IsRun(l, d0, trace, steps) && s == trace[|trace| - 1] && MayLog(l, s, op, b)
    requires Tied(s, disk, dirty, blocks, outstanding, committing)
    ensures op in s.ops && TooBig(l, s) == (|blocks| >= LOGSIZE || |blocks| >= l.size - 1)
    ensures l.size > LOGSIZE && Budgeted(trace, steps, |steps|) && op in s.ops && |s.ops[op]| < MAXOPBLOCKS ==> !TooBig(l, s)
    ensures !TooBig(l, s) ==>
              && Enabled(l, s, LogModel.LogWrite(op, b, data))
              && Tied(Next(l, s, LogModel.LogWrite(op, b, data)), disk, dirty[b := data], Logged(blocks, b), outstanding, committing)
  {
    hide IsRun, Budgeted;
    RunControl(l, d0, trace, steps);
    if l.size > LOGSIZE && Budgeted(trace, steps, |steps|) {
      ReservationSuffices(l, d0, trace, steps, |trace| - 1, op, b);
    }
    assert s.ops[op := s.ops[op] + {b}].Keys == s.ops.Keys;
  }

  // Recovery that has reached Running holds what Recover computes.
  lemma RecoveredDisk(l: Layout, d0: Disk, trace: seq<State>, steps: seq<Step>, from: nat)
    requires IsRun(l, d0, trace, steps) && from < |trace|
    requires trace[from].phase == Down && trace[|trace| - 1].phase == Running
    requires forall k :: from <= k < |steps| ==> steps[k] == BlockStep
    ensures HeadValid(l, trace[from].disk)
    ensures HomeEq(l, trace[|trace| - 1].disk, Recover(l, trace[from].disk))
  {
    CrashAtomicity(l, d0, trace, steps, from);
    RecoveryConverges(l, d0, trace, steps, from, |trace| - 1);
    forall x | Home(l, |trace[|trace| - 1].disk|, x)
      ensures trace[|trace| - 1].disk[x] == Recover(l, trace[from].disk)[x]
    {
      assert Home(l, |Recover(l, trace[from].disk)|, x);
    }
  }

  lemma CommitStarts(s: State)
    requires ControlInv(s) && (s.phase == LogModel.WriteLog(0) || s.phase == Committed)
    ensures s.phase == Committed <==> s.blocks == []
  {}

  // Nothing is pinned, and the disk holds what readers of the cache saw.
  ghost predicate Installed(l: Layout, disk: Disk, dirty: map<int, Block>, disk': Disk, dirty': map<int, Block>) {
    && dirty' == map[] && |disk'| == |disk|
    && forall b {:trigger Home(l, |disk|, b)} :: Home(l, |disk|, b) ==> disk'[b] == if b in dirty then dirty[b] else disk[b]
  }

  lemma AfterInstall(l: Layout, d0: Disk, trace: seq<State>, steps: seq<Step>, i: nat)
    requires IsRun(l, d0, trace, steps) && i < |trace|
    requires forall k :: i <= k < |steps| ==> steps[k] == BlockStep
    requires trace[i].phase != Down && !trace[i].phase.Install? && trace[|trace| - 1].phase == Committed
    ensures Installed(l, trace[i].disk, trace[i].dirty, trace[|trace| - 1].disk, trace[|trace| - 1].dirty)
  {
    hide IsRun, Next, NextBlock, Enabled, Inv, HistInv;
    var j := |trace| - 1;
    RunIndex(l, d0, trace, steps);
    RunSize(l, d0, trace, steps, i);
    RunSize(l, d0, trace, steps, j);
    forall b {:trigger Home(l, |trace[i].disk|, b)} | Home(l, |trace[i].disk|, b)
      ensures trace[j].disk[b] == if b in trace[i].dirty then trace[i].dirty[b] else trace[i].disk[b]
    {
      CommitInstalls(l, d0, trace, steps, i, j, b);
    }
  }

  lemma RunSize(l: Layout, d0: Disk, trace: seq<State>, steps: seq<Step>, i: nat)
    requires IsRun(l, d0, trace, steps) && i < |trace|
    ensures |trace[i].disk| == |d0|
    ensures trace[i].phase == Committed ==> trace[i].dirty == map[]
  {
    RunInv(l, d0, trace, steps, i);
    if trace[i].phase == Committed {
      NothingPinned(l, d0, trace[i]);
    }
  }

  class LogDevice {
    const layout: Layout
    ghost const d0: Disk
    var disk: Disk
    var dirty: map<int, Block>
    var n: int
    const block: array<int>
    var outstanding: int
    var committing: bool
    ghost var trace: seq<State>
    ghost var steps: seq<Step>

    ghost function Machine(): (s: State)
      requires |trace| > 0
      reads this
    {
      trace[|trace| - 1]
    }

    // The object's fields are those of the last state of its run.
    ghost predicate Valid()
      reads this, block
    {
      && |trace| > 0
      && IsRun(layout, d0, trace, steps)
      && block.Length == LOGSIZE
      && 0 <= n <= LOGSIZE
      && Tied(Machine(), disk, dirty, block[..n], outstanding, committing)
    }

    // A machine that has just been switched on with this disk.
    constructor (l: Layout, image: Disk, ghost d0: Disk)
      requires CrashOk(l, image, d0)
      ensures Valid() && fresh(block) && Machine().phase == Down
      ensures layout == l && disk == image && this.d0 == d0 && steps == []
    {
      layout := l;
      this.d0 := d0;
      disk := image;
      dirty := map[];
      n := 0;
      block := new int[LOGSIZE](_ => 0);
      outstanding := 0;
      committing := false;
      trace := [State(image, map[], [], map[], false, Down, 0, [], [], [])];
      steps := [];
    }

    ghost method Record(a: Step)
      requires |trace| > 0 && IsRun(layout, d0, trace, steps) && Enabled(layout, Machine(), a)
      modifies this`trace, this`steps
      ensures IsRun(layout, d0, trace, steps)
      ensures trace == old(trace) + [Next(layout, old(Machine()), a)] && steps == old(steps) + [a]
    {
      RunSnoc(layout, d0, trace, steps, a);
      trace, steps := trace + [Next(layout, Machine(), a)], steps + [a];
    }

    method Bread(b: int) returns (data: Block)
      requires Valid() && 0 <= b < |disk|
      ensures data == View(Machine(), b)
    {
      data := if b in dirty then dirty[b] else disk[b];
    }

    method Bwrite(b: int, data: Block)
      requires 0 <= b < |disk|
      modifies this`disk, this`dirty
      ensures disk == old(disk)[b := data] && dirty == old(dirty) - {b}
    {
      disk := disk[b := data];
      dirty := dirty - {b};
    }

    // One iteration of write_log.
    method WriteLogBlock(tail: nat)
      requires Valid() && Machine().phase == LogModel.WriteLog(tail) && tail < n
      modifies this`disk, this`dirty, this`trace, this`steps
      ensures Valid() && Machine().phase == if tail + 1 < n then LogModel.WriteLog(tail + 1) else LogModel.WriteHead
      ensures old(trace) <= trace && steps == old(steps) + [BlockStep]
    {
      hide IsRun, Next, NextBlock, Enabled, Tied, View;
      ghost var blocks := block[..n];
      TiedFields(Machine(), disk, dirty, blocks, outstanding, committing);
      WriteLogTied(layout, d0, trace, steps, Machine(), blocks, outstanding, committing);
      var data := Bread(block[tail]);
      Record(BlockStep);
      Bwrite(layout.start + 1 + tail, data);
      assert block[..n] == blocks;
    }

    // Copy every logged block from the cache to the log area.
    method WriteLog()
      requires Valid() && Machine().phase == LogModel.WriteLog(0) && n > 0
      modifies this`disk, this`dirty, this`trace, this`steps
      ensures Valid() && Machine().phase == LogModel.WriteHead
      ensures old(trace) <= trace && steps == old(steps) + Repeat(n)
    {
      hide IsRun, Next, NextBlock, Enabled;
      var tail := 0;
      while tail < n
        invariant 0 <= tail <= n
        invariant Valid()
        invariant Machine().phase == if tail < n then LogModel.WriteLog(tail) else LogModel.WriteHead
        invariant old(trace) <= trace && steps == old(steps) + Repeat(tail)
      {
        WriteLogBlock(tail);
        tail := tail + 1;
      }
    }

    // The buffer of the header block with n and the first n entries filled in.
    method FillHead(buf: Block) returns (head: Block)
      requires block.Length == LOGSIZE && 0 <= n <= LOGSIZE
      ensures head == Encode(buf, block[..n])
    {
      var words: Words := buf.words[0 := n];
      var i := 0;
      while i < n
        invariant 0 <= i <= n
        invariant words == [n] + block[..i] + buf.words[1 + i..]
      {
        assert block[..i + 1] == block[..i] + [block[i]];
        assert words[1 + i := block[i]] == [n] + block[..i + 1] + buf.words[2 + i..];
        words := words[1 + i := block[i]];
        i := i + 1;
      }
      head := Block(words);
    }

    // Write the in-memory header: the commit point when n > 0.
    method WriteHead()
      requires Valid()
      requires (Machine().phase == LogModel.WriteHead && n > 0) || (Machine().phase.ClearHead? && n == 0)
      modifies this`disk, this`dirty, this`trace, this`steps
      ensures Valid()
      ensures old(trace) <= trace && steps == old(steps) + [BlockStep]
      ensures Machine().phase == match old(Machine()).phase
                                 case ClearHead(boot) => if boot then Running else Committed
                                 case _ => Install(0, false)
    {
      hide IsRun, Next, NextBlock, Enabled, Tied, Encode;
      ghost var blocks := block[..n];
      TiedFields(Machine(), disk, dirty, blocks, outstanding, committing);
      WriteHeadTied(layout, d0, trace, steps, Machine(), blocks, outstanding, committing);
      var head := FillHead(disk[layout.start]);
      Record(BlockStep);
      Bwrite(layout.start, head);
      assert block[..n] == blocks;
    }

    // One iteration of install_trans.
    method InstallBlock(tail: nat, ghost boot: bool)
      requires Valid() && Machine().phase == Install(tail, boot) && tail < n
      modifies this`disk, this`dirty, this`trace, this`steps
      ensures Valid() && Machine().phase == if tail + 1 < n then Install(tail + 1, boot) else ClearHead(boot)
      ensures old(trace) <= trace && steps == old(steps) + [BlockStep]
    {
      hide IsRun, Next, NextBlock, Enabled, Tied, View;
      ghost var blocks := block[..n];
      TiedFields(Machine(), disk, dirty, blocks, outstanding, committing);
      InstallTied(layout, d0, trace, steps, Machine(), blocks, outstanding, committing);
      var data := Bread(layout.start + 1 + tail);
      Record(BlockStep);
      Bwrite(block[tail], data);
      assert block[..n] == blocks;
    }

    // Copy committed blocks from the log area to their home locations.
    method InstallTrans()
      requires Valid()
      requires if n > 0 then Machine().phase.Install? && Machine().phase.tail == 0 else Machine().phase.ClearHead?
      modifies this`disk, this`dirty, this`trace, this`steps
      ensures Valid() && Machine().phase == ClearHead(old(Machine()).phase.boot)
      ensures old(trace) <= trace && steps == old(steps) + Repeat(n)
    {
      ghost var boot := Machine().phase.boot;
      hide IsRun, Next, NextBlock, Enabled;
      var tail := 0;
      while tail < n
        invariant 0 <= tail <= n
        invariant Valid()
        invariant Machine().phase == if tail < n then Install(tail, boot) else ClearHead(boot)
        invariant old(trace) <= trace && steps == old(steps) + Repeat(tail)
      {
        InstallBlock(tail, boot);
        tail := tail + 1;
      }
    }

    // Read the on-disk header into memory.
    method ReadHead()
      requires Valid() && Machine().phase == Down
      modifies this`n, this`trace, this`steps, block
      ensures Valid() && HeadValid(layout, disk) && block[..n] == Decode(disk[layout.start])
      ensures Machine().phase == if n > 0 then Install(0, true) else ClearHead(true)
      ensures old(trace) <= trace && steps == old(steps) + [BlockStep]
    {
      hide IsRun, Next, NextBlock, Enabled, HeadValid;
      AfterReadHead(layout, d0, trace, steps, Machine());
      var words := disk[layout.start].words;
      n := words[0];
      var i := 0;
      while i < n
        invariant 0 <= i <= n
        invariant block[..i] == words[1..1 + i]
        modifies block
      {
        assert words[1..2 + i] == words[1..1 + i] + [words[1 + i]];
        block[i] := words[1 + i];
        assert block[..i + 1] == block[..i] + [block[i]];
        i := i + 1;
      }
      Record(BlockStep);
    }

    // Boot-time recovery: every block write on the way is a step of the run.
    method RecoverFromLog()
      requires Valid() && Machine().phase == Down
      modifies this`n, this`disk, this`dirty, this`trace, this`steps, block
      ensures Valid() && Machine().phase == Running && n == 0
      ensures HeadValid(layout, old(disk)) && HomeEq(layout, disk, Recover(layout, old(disk)))
      ensures old(trace) <= trace && steps == old(steps) + Repeat(|Decode(old(disk)[layout.start])| + 2)
    {
      hide IsRun, Next, NextBlock, Enabled, HeadValid, HomeEq, Recover, Decode, ControlInv;
      RunControl(layout, d0, trace, steps);
      ghost var from := |trace| - 1;
      ReadHead();
      ghost var k := n;
      InstallTrans();
      n := 0;
      WriteHead();
      RepeatJoin(old(steps), k, steps);
      RecoveredDisk(layout, d0, trace, steps, from);
    }

    method Commit()
      requires Valid() && committing && (Machine().phase == LogModel.WriteLog(0) || Machine().phase == Committed)
      modifies this`n, this`disk, this`dirty, this`trace, this`steps
      ensures Valid() && Machine().phase == Committed && n == 0
      ensures Installed(layout, old(disk), old(dirty), disk, dirty)
      ensures old(trace) <= trace && steps == old(steps) + Repeat(if old(n) > 0 then 2 * old(n) + 2 else 0)
    {
      hide IsRun, Next, NextBlock, Enabled, Installed, ControlInv;
      RunControl(layout, d0, trace, steps);
      CommitStarts(Machine());
      if n > 0 {
        WriteLog();
        WriteHead();
        InstallTrans();
        n := 0;
        WriteHead();
        RepeatTwice(old(steps), old(n), steps);
      } else {
        assert steps == old(steps) + [];
      }
      AfterInstall(layout, d0, trace, steps, |old(trace)| - 1);
    }

    // One pass of begin_op's loop; when it does not admit, the caller sleeps.
    method BeginOp() returns (admitted: bool)
      requires Valid() && (Machine().phase == Running || committing)
      modifies this`outstanding, this`trace, this`steps
      ensures Valid()
      ensures admitted <==> !committing && n + (old(outstanding) + 1) * MAXOPBLOCKS <= LOGSIZE
      ensures outstanding == old(outstanding) + if admitted then 1 else 0
      ensures admitted ==> old(trace) <= trace && steps == old(steps) + [Begin]
      ensures !admitted ==> trace == old(trace) && steps == old(steps)
    {
      hide IsRun, Next, NextBlock, Enabled;
      RunControl(layout, d0, trace, steps);
      if committing {
        admitted := false;
      } else if n + (outstanding + 1) * MAXOPBLOCKS > LOGSIZE {
        admitted := false;
      } else {
        AfterBegin(layout, Machine());
        outstanding := outstanding + 1;
        Record(Begin);
        admitted := true;
      }
    }

    // log_write's loop: find the block in the header, or append it.
    method Absorb(b: int)
      requires block.Length == LOGSIZE && 0 <= n < LOGSIZE
      modifies this`n, block
      ensures 0 <= n <= LOGSIZE
      ensures block[..n] == Logged(old(block[..n]), b)
    {
      var i := 0;
      while i < n && block[i] != b
        invariant 0 <= i <= n
        invariant b !in block[..i]
      {
        i := i + 1;
      }
      ghost var blocks := block[..n];
      assert i < n ==> blocks[i] == b;
      block[i] := b;
      if i == n {
        n := n + 1;
        assert block[..n] == blocks + [b];
      } else {
        assert block[..n] == blocks;
      }
    }

    method LogWrite(b: int, data: Block, ghost op: nat) returns (tooBig: bool)
      requires Valid() && MayLog(layout, Machine(), op, b)
      modifies this`n, this`dirty, this`trace, this`steps, block
      ensures Valid()
      ensures tooBig <==> old(n) >= LOGSIZE || old(n) >= layout.size - 1
      ensures !tooBig ==> dirty == old(dirty)[b := data] && block[..n] == Logged(old(block[..n]), b)
      ensures tooBig ==> dirty == old(dirty) && block[..n] == old(block[..n])
      ensures layout.size > LOGSIZE && Budgeted(old(trace), old(steps), |old(steps)|) && |old(Machine()).ops[op]| < MAXOPBLOCKS ==>
                !tooBig
      ensures !tooBig ==> old(trace) <= trace && steps == old(steps) + [LogModel.LogWrite(op, b, data)]
      ensures tooBig ==> trace == old(trace) && steps == old(steps)
    {
      hide IsRun, Next, NextBlock, Enabled, Budgeted, Tied, MayLog, TooBig;
      LogWriteTied(layout, d0, trace, steps, Machine(), disk, dirty, block[..n], outstanding, committing, op, b, data);
      if n >= LOGSIZE || n >= layout.size - 1 {
        return true;
      }
      Absorb(b);
      dirty := dirty[b := data];
      Record(LogModel.LogWrite(op, b, data));
      return false;
    }

    // end_op up to the release of log.lock.
    method EndOpEnter(ghost op: nat) returns (doCommit: bool)
      requires Valid() && op in Machine().ops
      modifies this`outstanding, this`committing, this`trace, this`steps
      ensures Valid() && old(trace) <= trace && steps == old(steps) + [End(op)]
      ensures doCommit == (old(outstanding) == 1) && committing == doCommit && outstanding == old(outstanding) - 1
      ensures doCommit ==> Machine().phase == if n > 0 then LogModel.WriteLog(0) else Committed
    {
      hide IsRun, Next, NextBlock, Enabled;
      RunControl(layout, d0, trace, steps);
      AfterEnd(layout, Machine(), op);
      doCommit := false;
      outstanding := outstanding - 1;
      assert !committing;
      if outstanding == 0 {
        doCommit := true;
        committing := true;
      }
      Record(End(op));
    }

    // end_op after commit returns.
    method EndOpLeave()
      requires Valid() && Machine().phase == Committed
      modifies this`committing, this`trace, this`steps
      ensures Valid() && !committing && Machine().phase == Running
      ensures old(trace) <= trace && steps == old(steps) + [BlockStep]
    {
      hide IsRun, Next, NextBlock, Enabled;
      RunReady(layout, d0, trace, steps);
      AfterCommit(layout, Machine());
      Record(BlockStep);
      committing := false;
    }

    method EndOp(ghost op: nat)
      requires Valid() && op in Machine().ops
      modifies this`n, this`disk, this`dirty, this`outstanding, this`committing, this`trace, this`steps
      ensures Valid() && !committing && outstanding == old(outstanding) - 1 && old(trace) <= trace
      ensures outstanding == 0 ==> n == 0 && Installed(layout, old(disk), old(dirty), disk, dirty)
      ensures outstanding > 0 ==> n == old(n) && disk == old(disk) && dirty == old(dirty)
      ensures steps == old(steps) + [End(op)]
                       + Repeat(if old(outstanding) > 1 then 0 else if old(n) > 0 then 2 * old(n) + 3 else 1)
    {
      hide IsRun, Next, NextBlock, Enabled, Installed;
      var doCommit := EndOpEnter(op);
      if doCommit {
        Commit();
        EndOpLeave();
        assert steps == old(steps) + [End(op)] + Repeat(if old(n) > 0 then 2 * old(n) + 2 else 0) + [BlockStep];
      }
    }
  }
}
