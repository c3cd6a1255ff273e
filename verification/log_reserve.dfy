/**
 Log-space reservation: begin_op admits an operation only if MAXOPBLOCKS blocks
 fit for every operation under way. What that buys holds for runs in which no
 operation logs more blocks than that.
 */
module LogReserve {
  import opened Common
  import opened Blocks
  import opened LogModel
  import opened LogSafety
  import opened LogHistory

  // While operations keep to their budget, log.outstanding stays within what
  // begin_op reserved.
  predicate ReserveInv(s: State) {
    && (forall o :: o in s.ops ==> |s.ops[o]| <= MAXOPBLOCKS)
    && (s.phase == Running ==> |s.blocks| + Reserved(s.ops, s.nextOp) <= LOGSIZE)
  }

  // ------------------------------------------------------- counting lemmas

  lemma {:induction false} ReservedUpdate(ops: map<nat, set<int>>, o: nat, u: set<int>, k: nat)
    requires o < k
    ensures Reserved(ops[o := u], k) == Reserved(ops, k) + (MAXOPBLOCKS - |u|) - if o in ops then MAXOPBLOCKS - |ops[o]| else 0
  {
    if k - 1 > o {
      ReservedUpdate(ops, o, u, k - 1);
    } else {
      ReservedAbove(ops, ops[o := u], k - 1);
    }
  }

  lemma {:induction false} ReservedAbove(m: map<nat, set<int>>, m': map<nat, set<int>>, k: nat)
    requires forall o :: o < k ==> (o in m <==> o in m') && (o in m ==> m[o] == m'[o])
    ensures Reserved(m, k) == Reserved(m', k)
  {
    if k > 0 {
      ReservedAbove(m, m', k - 1);
    }
  }

  lemma {:induction false} ReservedRemove(ops: map<nat, set<int>>, o: nat, k: nat)
    requires forall x :: x in ops ==> |ops[x]| <= MAXOPBLOCKS
    ensures 0 <= Reserved(ops - {o}, k) <= Reserved(ops, k)
  {
    if k > 0 {
      ReservedRemove(ops, o, k - 1);
    }
  }

  // The operations numbered below k.
  function Below(ops: map<nat, set<int>>, k: nat): (r: set<nat>) {
    set o | o in ops && o < k
  }

  lemma {:induction false} ReservedBelow(ops: map<nat, set<int>>, k: nat)
    ensures Reserved(ops, k) <= 10 * |Below(ops, k)|
  {
    if k > 0 {
      ReservedBelow(ops, k - 1);
      if k - 1 in ops {
        assert Below(ops, k) == Below(ops, k - 1) + {k - 1};
      } else {
        assert Below(ops, k) == Below(ops, k - 1);
      }
    }
  }

  // Unused reservations never exceed MAXOPBLOCKS for each outstanding operation.
  lemma ReservedBound(ops: map<nat, set<int>>, k: nat)
    requires forall x :: x in ops ==> x < k
    ensures Reserved(ops, k) <= 10 * |ops|
  {
    ReservedBelow(ops, k);
    assert Below(ops, k) == ops.Keys;
  }

  // An operation that still has budget finds room in the log.
  lemma {:induction false} ReservedPositive(ops: map<nat, set<int>>, o: nat, k: nat)
    requires o in ops && o < k && |ops[o]| < MAXOPBLOCKS
    requires forall x :: x in ops ==> |ops[x]| <= MAXOPBLOCKS
    ensures Reserved(ops, k) >= 1
  {
    if o == k - 1 {
      ReservedRemove(ops, o, k - 1);
    } else {
      ReservedPositive(ops, o, k - 1);
    }
  }

  // ------------------------------------------------------------- each step

  lemma BeginReserves(l: Layout, s: State)
    requires OpsInv(s) && ReserveInv(s) && Enabled(l, s, Begin)
    ensures ReserveInv(Next(l, s, Begin))
  {
    var s' := Next(l, s, Begin);
    ReservedBound(s.ops, s.nextOp);
    ReservedAbove(s.ops, s'.ops, s.nextOp);
    assert Reserved(s'.ops, s'.nextOp) == Reserved(s'.ops, s.nextOp) + MAXOPBLOCKS;
  }

  lemma LogWriteReserves(l: Layout, s: State, a: Step)
    requires OpsInv(s) && ReserveInv(s) && a.LogWrite? && Enabled(l, s, a) && InBudget(s, a)
    ensures ReserveInv(Next(l, s, a))
  {
    hide TooBig, Home;
    ReservedUpdate(s.ops, a.op, s.ops[a.op] + {a.block}, s.nextOp);
    if a.block in s.ops[a.op] {
      assert s.ops[a.op] + {a.block} == s.ops[a.op];
    }
  }

  // Commit and recovery steps are taken with no operation under way, and end
  // with an empty log.
  lemma BlockReserves(l: Layout, s: State)
    requires ControlInv(s) && s.phase != Running && BlockEnabled(l, s)
    ensures NextBlock(l, s).ops == map[]
    ensures NextBlock(l, s).phase == Running ==> NextBlock(l, s).blocks == []
  {
    hide Encode, View, Decode;
  }

  lemma IdleReserves(s: State)
    requires s.ops == map[] && (s.phase == Running ==> s.blocks == [])
    ensures ReserveInv(s)
  {
    ReservedBound(s.ops, s.nextOp);
  }

  lemma StepReserves(l: Layout, s: State, a: Step)
    requires MemInv(l, s) && ReserveInv(s) && Enabled(l, s, a) && InBudget(s, a)
    ensures ReserveInv(Next(l, s, a))
  {
    hide HeaderInv, OpsInv, ReserveInv, NextBlock, BlockEnabled, InBudget, TooBig, MayLog, Admits;
    match a
    case Begin => BeginReserves(l, s);
    case LogWrite(_, _, _) => LogWriteReserves(l, s, a);
    case End(op) => EndReserves(l, s, op);
    case Crash => IdleReserves(Next(l, s, a));
    case BlockStep =>
      BlockReserves(l, s);
      IdleReserves(Next(l, s, a));
  }

  lemma EndReserves(l: Layout, s: State, op: nat)
    requires ReserveInv(s) && op in s.ops && !s.committing && (s.phase == Running || s.ops == map[])
    ensures ReserveInv(Next(l, s, End(op)))
  {
    ReservedRemove(s.ops, op, s.nextOp);
  }

  lemma {:induction false} RunReserves(l: Layout, d0: Disk, trace: seq<State>, steps: seq<Step>, i: nat)
    requires IsRun(l, d0, trace, steps) && i < |trace| && Budgeted(trace, steps, i)
    ensures ReserveInv(trace[i])
  {
    hide Enabled, Next, CacheInv, DiskInv, MemInv, ReserveInv, HistInv, InBudget, CrashOk;
    if i == 0 {
      IdleReserves(trace[0]);
    } else {
      RunReserves(l, d0, trace, steps, i - 1);
      RunInv(l, d0, trace, steps, i - 1);
      assert StepOk(l, trace, steps, i - 1) && InBudget(trace[i - 1], steps[i - 1]);
      StepReserves(l, trace[i - 1], steps[i - 1]);
    }
  }

  // ------------------------------------------------------------- every run

  // While operations run and keep to their budget, the logged blocks are
  // distinct, and they and all unused reservations never exceed LOGSIZE.
  lemma ReservationFits(l: Layout, d0: Disk, trace: seq<State>, steps: seq<Step>, i: nat)
    requires IsRun(l, d0, trace, steps) && i < |trace| && trace[i].phase == Running
    requires Budgeted(trace, steps, i)
    ensures Distinct(trace[i].blocks)
    ensures |trace[i].blocks| + Reserved(trace[i].ops, trace[i].nextOp) <= LOGSIZE
    ensures forall o :: o in trace[i].ops ==> o < trace[i].nextOp && |trace[i].ops[o]| <= MAXOPBLOCKS
  {
    RunInv(l, d0, trace, steps, i);
    RunReserves(l, d0, trace, steps, i);
  }

  // With more than LOGSIZE blocks of log area and every operation within its
  // budget, log_write meets "too big a transaction" only when the log is full
  // and every operation has used up its reservation.
  lemma ReservationSuffices(l: Layout, d0: Disk, trace: seq<State>, steps: seq<Step>, i: nat, op: nat, b: int)
    requires IsRun(l, d0, trace, steps) && i < |trace| && Budgeted(trace, steps, i)
    requires l.size > LOGSIZE && MayLog(l, trace[i], op, b)
    ensures TooBig(l, trace[i]) <==> |trace[i].blocks| == LOGSIZE
    ensures TooBig(l, trace[i]) ==> forall o :: o in trace[i].ops ==> |trace[i].ops[o]| == MAXOPBLOCKS
  {
    RunInv(l, d0, trace, steps, i);
    RunReserves(l, d0, trace, steps, i);
    var s := trace[i];
    forall o | o in s.ops && |s.ops[o]| < MAXOPBLOCKS
      ensures !TooBig(l, s)
    {
      ReservedPositive(s.ops, o, s.nextOp);
    }
  }

  // A state in which three operations have together logged k fresh blocks.
  predicate Filled(l: Layout, s: State, k: nat) {
    && s.phase == Running && !s.committing
    && s.ops.Keys == {0, 1, 2} && s.nextOp == 3
    && |s.disk| >= l.start + l.size + LOGSIZE
    && |s.blocks| == k
    && (forall i :: 0 <= i < k ==> s.blocks[i] == l.start + l.size + i)
    && (forall o :: o in s.ops ==>
          && |s.ops[o]| == Share(k, o)
          && forall b :: b in s.ops[o] ==> b in s.blocks)
  }

  // One more step of a run within budget.
  lemma BudgetSnoc(l: Layout, d0: Disk, trace: seq<State>, steps: seq<Step>, a: Step)
    requires IsRun(l, d0, trace, steps) && Budgeted(trace, steps, |steps|)
    requires Enabled(l, trace[|trace| - 1], a) && InBudget(trace[|trace| - 1], a)
    ensures IsRun(l, d0, trace + [Next(l, trace[|trace| - 1], a)], steps + [a])
    ensures Budgeted(trace + [Next(l, trace[|trace| - 1], a)], steps + [a], |steps| + 1)
  {
    hide Enabled, Next, InBudget;
    RunSnoc(l, d0, trace, steps, a);
    var trace', steps' := trace + [Next(l, trace[|trace| - 1], a)], steps + [a];
    forall k | 0 <= k < |steps| + 1
      ensures InBudget(trace'[k], steps'[k])
    {
      if k < |steps| {
        assert InBudget(trace[k], steps[k]);
      }
    }
  }

  lemma Boot(l: Layout, d0: Disk) returns (trace: seq<State>, steps: seq<Step>)
    requires LayoutOk(l, |d0|) && |d0| >= l.start + l.size + LOGSIZE
    requires HeadOk(d0[l.start]) && Decode(d0[l.start]) == []
    ensures IsRun(l, d0, trace, steps) && Budgeted(trace, steps, |steps|)
    ensures var s := trace[|trace| - 1];
            && s.phase == Running && s.blocks == [] && s.ops == map[] && !s.committing && s.nextOp == 0
            && |s.disk| == |d0|
  {
    var s0 := State(d0, map[], [], map[], false, Down, 0, [], [], []);
    var s1 := Next(l, s0, BlockStep);
    BudgetSnoc(l, d0, [s0], [], BlockStep);
    BudgetSnoc(l, d0, [s0] + [s1], [] + [BlockStep], BlockStep);
    trace, steps := [s0] + [s1] + [Next(l, s1, BlockStep)], [] + [BlockStep] + [BlockStep];
  }

  // Three operations begin before any has logged a block.
  lemma ThreeBegin(l: Layout, d0: Disk) returns (trace: seq<State>, steps: seq<Step>)
    requires LayoutOk(l, |d0|) && |d0| >= l.start + l.size + LOGSIZE
    requires HeadOk(d0[l.start]) && Decode(d0[l.start]) == []
    ensures IsRun(l, d0, trace, steps) && Budgeted(trace, steps, |steps|) && Filled(l, trace[|trace| - 1], 0)
  {
    hide IsRun, Budgeted;
    trace, steps := Boot(l, d0);
    var s2 := trace[|trace| - 1];
    var s3 := Next(l, s2, Begin);
    assert s3.ops == map[0 := {}];
    var s4 := Next(l, s3, Begin);
    assert s4.ops == map[0 := {}, 1 := {}];
    var s5 := Next(l, s4, Begin);
    assert s5.ops.Keys == {0, 1, 2};
    BudgetSnoc(l, d0, trace, steps, Begin);
    BudgetSnoc(l, d0, trace + [s3], steps + [Begin], Begin);
    BudgetSnoc(l, d0, trace + [s3] + [s4], steps + [Begin] + [Begin], Begin);
    trace, steps := trace + [s3] + [s4] + [s5], steps + [Begin] + [Begin] + [Begin];
  }

  // The share of k blocks that operation o has logged.
  function Share(k: nat, o: nat): (r: nat) {
    if k < 10 * o then 0 else if k < 10 * o + 10 then k - 10 * o else 10
  }

  // Logging one fresh block adds it to the share of operation k / 10.
  lemma ShareStep(ops: map<nat, set<int>>, k: nat, b: int)
    requires ops.Keys == {0, 1, 2} && k < LOGSIZE && (forall o :: o in ops ==> |ops[o]| == Share(k, o))
    requires forall o :: o in ops ==> b !in ops[o]
    ensures k / 10 in ops && |ops[k / 10] + {b}| <= MAXOPBLOCKS
    ensures var ops' := ops[k / 10 := ops[k / 10] + {b}];
            ops'.Keys == {0, 1, 2} && forall o :: o in ops' ==> |ops'[o]| == Share(k + 1, o)
  {
    var op := k / 10;
    assert op in {0, 1, 2};
    assert |ops[op] + {b}| == |ops[op]| + 1;
    var ops' := ops[op := ops[op] + {b}];
    forall o | o in ops'
      ensures |ops'[o]| == Share(k + 1, o)
    {
      assert o in {0, 1, 2};
    }
  }

  lemma FillStep(l: Layout, s: State, k: nat, data: Block) returns (a: Step)
    requires Filled(l, s, k) && k < LOGSIZE && k < l.size - 1
    ensures a == LogWrite(k / 10, l.start + l.size + k, data)
    ensures Enabled(l, s, a) && InBudget(s, a) && Filled(l, Next(l, s, a), k + 1)
  {
    hide Share;
    var op, b := k / 10, l.start + l.size + k;
    a := LogWrite(op, b, data);
    assert b !in s.blocks;
    ShareStep(s.ops, k, b);
  }

  lemma {:induction false} Fill(l: Layout, d0: Disk, k: nat) returns (trace: seq<State>, steps: seq<Step>)
    requires LayoutOk(l, |d0|) && |d0| >= l.start + l.size + LOGSIZE
    requires HeadOk(d0[l.start]) && Decode(d0[l.start]) == []
    requires k <= LOGSIZE && k < l.size
    ensures |trace| > 0 && IsRun(l, d0, trace, steps) && Budgeted(trace, steps, |steps|)
    ensures Filled(l, trace[|trace| - 1], k)
  {
    hide IsRun, Budgeted, Filled, Enabled, InBudget, Next;
    if k == 0 {
      trace, steps := ThreeBegin(l, d0);
      RunNotEmpty(l, d0, trace, steps);
    } else {
      trace, steps := Fill(l, d0, k - 1);
      var s := trace[|trace| - 1];
      var a := FillStep(l, s, k - 1, d0[l.start]);
      BudgetSnoc(l, d0, trace, steps, a);
      trace, steps := trace + [Next(l, s, a)], steps + [a];
    }
  }

  lemma RunNotEmpty(l: Layout, d0: Disk, trace: seq<State>, steps: seq<Step>)
    requires IsRun(l, d0, trace, steps)
    ensures |trace| > 0
  {}

  // The log area mkfs lays out (nlog == LOGSIZE) is one block short, and so is
  // every smaller one: some run within budget makes log_write panic for an
  // operation that has reservation left.
  lemma ShortLogPanics(l: Layout, d0: Disk) returns (trace: seq<State>, steps: seq<Step>, op: nat, b: int)
    requires LayoutOk(l, |d0|) && |d0| >= l.start + l.size + LOGSIZE
    requires HeadOk(d0[l.start]) && Decode(d0[l.start]) == []
    requires l.size <= LOGSIZE
    ensures IsRun(l, d0, trace, steps) && Budgeted(trace, steps, |steps|)
    ensures var s := trace[|trace| - 1];
            MayLog(l, s, op, b) && |s.ops[op]| < MAXOPBLOCKS && TooBig(l, s)
  {
    trace, steps := Fill(l, d0, l.size - 1);
    op, b := (l.size - 1) / 10, l.start + l.size;
    assert op in {0, 1, 2};
  }

  // With the log full, logging a block again panics although it would be
  // absorbed.
  lemma AbsorbedWritePanics(l: Layout, d0: Disk) returns (trace: seq<State>, steps: seq<Step>)
    requires LayoutOk(l, |d0|) && |d0| >= l.start + l.size + LOGSIZE
    requires HeadOk(d0[l.start]) && Decode(d0[l.start]) == []
    requires l.size > LOGSIZE
    ensures IsRun(l, d0, trace, steps) && Budgeted(trace, steps, |steps|)
    ensures var s := trace[|trace| - 1];
            && TooBig(l, s)
            && (forall o :: o in s.ops ==> |s.ops[o]| == MAXOPBLOCKS)
            && 0 in s.ops && s.ops[0] != {} && forall b :: b in s.ops[0] ==> b in s.blocks
  {
    trace, steps := Fill(l, d0, LOGSIZE);
  }
}
