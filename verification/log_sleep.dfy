/**
 begin_op's waiting: processes that find no room sleep on &log, and end_op wakes
 them. One pass of begin_op's loop, up to being admitted or asleep, is one step;
 the rest is the log machine.
 */
module LogSleep {
  import opened Blocks
  import opened LogModel
  import opened LogSafety

  datatype Sys = Sys(s: State, asleep: set<nat>)

  datatype Act =
    | Try(t: nat)                // process t runs begin_op's loop once
    | Do(step: Step)             // anything but begin_op

  predicate Can(l: Layout, x: Sys, b: Act) {
    match b
    case Try(t) => t !in x.asleep && (x.s.phase == Running || x.s.committing)
    case Do(a) => !a.Begin? && Enabled(l, x.s, a)
  }

  // end_op calls wakeup when other operations are left, and after a commit.
  predicate Wakes(s: State, a: Step) {
    (a.End? && s.ops - {a.op} != map[]) || (a == BlockStep && s.phase == Committed)
  }

  function Go(l: Layout, x: Sys, b: Act): (r: Sys)
    requires Can(l, x, b)
  {
    match b
    case Try(t) =>
      if x.s.phase == Running && Admits(x.s) then x.(s := Next(l, x.s, Begin)) else x.(asleep := x.asleep + {t})
    case Do(a) => Sys(Next(l, x.s, a), if a == Crash || Wakes(x.s, a) then {} else x.asleep)
  }

  ghost predicate RunOf(l: Layout, d0: Disk, trace: seq<Sys>, acts: seq<Act>) {
    && |trace| == |acts| + 1
    && Init(l, d0, trace[0].s) && trace[0].asleep == {}
    && forall i {:trigger Moved(l, trace, acts, i)} :: 0 <= i < |acts| ==> Moved(l, trace, acts, i)
  }

  predicate Moved(l: Layout, trace: seq<Sys>, acts: seq<Act>, i: nat)
    requires |trace| == |acts| + 1 && i < |acts|
  {
    Can(l, trace[i], acts[i]) && trace[i + 1] == Go(l, trace[i], acts[i])
  }

  // Who sleeps has a reason to, and an idle log is empty.
  ghost predicate SleepInv(l: Layout, d0: Disk, x: Sys) {
    && Inv(l, d0, x.s)
    && (x.asleep != {} ==> !Admits(x.s) && (x.s.phase == Running || x.s.committing))
    && (x.s.phase == Running && x.s.ops == map[] ==> x.s.blocks == [])
  }

  lemma BlockIdle(l: Layout, s: State)
    requires BlockEnabled(l, s) && ControlInv(s) && s.phase != Running
    ensures var r := NextBlock(l, s);
            && r.ops == s.ops && (r.phase == Running ==> r.blocks == [])
            && (s.committing && s.phase != Committed ==> r.committing)
            && (!s.committing ==> !r.committing)
  {
    hide Encode, Decode, View;
  }

  lemma StepReason(l: Layout, s: State, a: Step)
    requires Enabled(l, s, a) && ControlInv(s) && !Admits(s)
    requires a != Crash && !Wakes(s, a) && (s.phase == Running || s.committing)
    ensures !Admits(Next(l, s, a)) && (Next(l, s, a).phase == Running || Next(l, s, a).committing)
  {
    hide NextBlock, BlockEnabled;
    match a
    case BlockStep => BlockIdle(l, s);
    case End(op) =>
      assert s.ops - {op} == map[];
    case Begin => MoreOps(s);
    case LogWrite(op, b, _) => SameOps(s.ops, op, s.ops[op] + {b});
  }

  lemma MoreOps(s: State)
    ensures |s.ops[s.nextOp := {}]| >= |s.ops|
  {
    assert s.ops[s.nextOp := {}].Keys == s.ops.Keys + {s.nextOp};
    if s.nextOp in s.ops {
      assert s.ops.Keys + {s.nextOp} == s.ops.Keys;
    }
  }

  lemma SameOps(ops: map<nat, set<int>>, op: nat, bs: set<int>)
    requires op in ops
    ensures |ops[op := bs]| == |ops|
  {
    assert ops[op := bs].Keys == ops.Keys;
  }

  lemma StepIdle(l: Layout, s: State, a: Step)
    requires Enabled(l, s, a) && ControlInv(s) && (s.phase == Running && s.ops == map[] ==> s.blocks == [])
    ensures var r := Next(l, s, a); r.phase == Running && r.ops == map[] ==> r.blocks == []
  {
    hide NextBlock, BlockEnabled;
    match a
    case BlockStep => BlockIdle(l, s);
    case Begin => assert s.nextOp in s.ops[s.nextOp := {}];
    case LogWrite(op, b, _) => assert op in s.ops[op := s.ops[op] + {b}];
    case End(op) =>
      if s.ops - {op} == map[] {
        assert |s.ops - {op}| == 0;
      }
    case Crash =>
  }

  lemma ActKeeps(l: Layout, d0: Disk, x: Sys, b: Act)
    requires SleepInv(l, d0, x) && Can(l, x, b)
    ensures SleepInv(l, d0, Go(l, x, b))
  {
    hide Inv, Enabled, Next, Admits, Wakes;
    InvControl(l, d0, x.s);
    match b
    case Try(t) =>
      if x.s.phase == Running && Admits(x.s) {
        MayBegin(l, x.s);
        StepKeeps(l, d0, x.s, Begin);
        StepIdle(l, x.s, Begin);
      } else {
        NotWhileCommitting(x.s);
      }
    case Do(a) =>
      StepKeeps(l, d0, x.s, a);
      StepIdle(l, x.s, a);
      if x.asleep != {} && a != Crash && !Wakes(x.s, a) {
        StepReason(l, x.s, a);
      }
  }

  lemma InvControl(l: Layout, d0: Disk, s: State)
    requires Inv(l, d0, s)
    ensures ControlInv(s)
  {}

  lemma MayBegin(l: Layout, s: State)
    requires s.phase == Running && Admits(s)
    ensures Enabled(l, s, Begin)
  {}

  lemma NotWhileCommitting(s: State)
    ensures s.committing ==> !Admits(s)
  {}

  lemma {:induction false} RunSleeps(l: Layout, d0: Disk, trace: seq<Sys>, acts: seq<Act>, i: nat)
    requires RunOf(l, d0, trace, acts) && i < |trace|
    ensures SleepInv(l, d0, trace[i])
  {
    hide Inv, Can, Go;
    if i == 0 {
      InitInv(l, d0, trace[0].s);
    } else {
      RunSleeps(l, d0, trace, acts, i - 1);
      assert Moved(l, trace, acts, i - 1);
      ActKeeps(l, d0, trace[i - 1], acts[i - 1]);
    }
  }

  // No wakeup is lost: whoever sleeps in begin_op still finds a commit in
  // progress or too little room, and there is an operation or a commit under way
  // whose end wakes it.
  lemma SleepersHaveReason(l: Layout, d0: Disk, trace: seq<Sys>, acts: seq<Act>, i: nat)
    requires RunOf(l, d0, trace, acts) && i < |trace| && trace[i].asleep != {}
    ensures var s := trace[i].s;
            && (s.committing || |s.blocks| + (|s.ops| + 1) * MAXOPBLOCKS > LOGSIZE)
            && (s.committing || s.ops != map[])
  {
    hide RunOf, Inv;
    RunSleeps(l, d0, trace, acts, i);
  }

  // Nobody sleeps while the log is idle, and whoever calls begin_op then is
  // admitted.
  lemma IdleAdmits(l: Layout, d0: Disk, trace: seq<Sys>, acts: seq<Act>, i: nat, t: nat)
    requires RunOf(l, d0, trace, acts) && i < |trace| && trace[i].s.phase == Running && trace[i].s.ops == map[]
    ensures trace[i].asleep == {} && Can(l, trace[i], Try(t)) && |Go(l, trace[i], Try(t)).s.ops| == 1
  {
    hide RunOf, Inv;
    RunSleeps(l, d0, trace, acts, i);
    var s := trace[i].s;
    IdleControl(l, d0, s);
    assert |s.ops[s.nextOp := {}]| == 1;
  }

  lemma IdleControl(l: Layout, d0: Disk, s: State)
    requires Inv(l, d0, s)
    ensures s.phase == Running ==> !s.committing
  {}
}
