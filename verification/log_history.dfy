/**
 What every run of the redo log guarantees: which writes survive a crash, that
 no operation is split or half-applied, and that end_op never panics.
 */
module LogHistory {
  import opened Blocks
  import opened LogModel
  import opened LogSafety

  // The writes of operation o, in order.
  function Proj(ws: seq<Write>, o: nat): (r: seq<Write>) {
    if ws == [] then []
    else
      var w := ws[|ws| - 1];
      Proj(ws[..|ws| - 1], o) + if w.op == o then [w] else []
  }

  lemma {:induction false} ProjConcat(a: seq<Write>, b: seq<Write>, o: nat)
    ensures Proj(a + b, o) == Proj(a, o) + Proj(b, o)
  {
    if b == [] {
      assert a + b == a;
    } else {
      ProjConcat(a, b[..|b| - 1], o);
      assert (a + b)[..|a + b| - 1] == a + b[..|b| - 1];
    }
  }

  lemma {:induction false} ProjMember(ws: seq<Write>, w: Write)
    requires w in ws
    ensures Proj(ws, w.op) != []
  {
    if w in ws[..|ws| - 1] {
      ProjMember(ws[..|ws| - 1], w);
    }
  }

  lemma {:induction false} FlatMember(groups: seq<seq<Write>>, i: nat, w: Write)
    requires i < |groups| && w in groups[i]
    ensures w in Flat(groups)
  {
    if i < |groups| - 1 {
      FlatMember(groups[..|groups| - 1], i, w);
    }
  }

  // An operation's writes are all durable, all pending, or all lost.
  ghost predicate OpInv(s: State, o: nat) {
    var durable := Proj(Flat(s.durable), o);
    var pending := Proj(s.current, o);
    var issued := Proj(s.issued, o);
    && (o in s.ops ==> durable == [] && pending == issued)
    && (o >= s.nextOp ==> durable == [] && pending == [] && issued == [])
    && ((durable == issued && pending == []) || (durable == [] && (pending == issued || pending == [])))
  }

  // No operation has writes in two groups.
  ghost predicate NoSplit(groups: seq<seq<Write>>) {
    forall i, j, w, v :: 0 <= i < j < |groups| && w in groups[i] && v in groups[j] ==> w.op != v.op
  }

  ghost predicate HistInv(s: State) {
    && (forall o: nat :: OpInv(s, o))
    && NoSplit(s.durable)
    && (forall w :: w in s.current ==> w.op < s.nextOp)
  }

  lemma LogWriteHist(l: Layout, s: State, op: nat, b: int, data: Block)
    requires HistInv(s) && OpsInv(s) && Enabled(l, s, LogWrite(op, b, data))
    ensures HistInv(Next(l, s, LogWrite(op, b, data)))
  {
    var s' := Next(l, s, LogWrite(op, b, data));
    forall o: nat
      ensures OpInv(s', o)
    {
      assert OpInv(s, o);
      ProjConcat(s.current, [Write(op, b, data)], o);
      ProjConcat(s.issued, [Write(op, b, data)], o);
      assert Proj([Write(op, b, data)], o) == if op == o then [Write(op, b, data)] else [];
    }
  }

  // A group shares no operation with the groups before it.
  lemma FreshGroup(s: State, w: Write, v: Write, i: nat)
    requires OpInv(s, v.op) && i < |s.durable| && w in s.durable[i] && v in s.current
    ensures w.op != v.op
  {
    if w.op == v.op {
      FlatMember(s.durable, i, w);
      ProjMember(Flat(s.durable), w);
      ProjMember(s.current, v);
    }
  }

  lemma WriteHeadOp(l: Layout, s: State, o: nat)
    requires OpInv(s, o) && s.phase.WriteHead? && s.ops == map[] && BlockEnabled(l, s)
    ensures OpInv(NextBlock(l, s), o)
  {
    FlatSnoc(s.durable, s.current);
    ProjConcat(Flat(s.durable), s.current, o);
    EmptyConcat(Proj(Flat(s.durable), o), Proj(s.current, o));
  }

  lemma EmptyConcat(a: seq<Write>, b: seq<Write>)
    ensures a == [] ==> a + b == b
    ensures b == [] ==> a + b == a
  {}

  lemma WriteHeadNoSplit(s: State)
    requires HistInv(s)
    ensures NoSplit(s.durable + [s.current])
  {
    var gs := s.durable + [s.current];
    forall i, j, w: Write, v: Write | 0 <= i < j < |gs| && w in gs[i] && v in gs[j]
      ensures w.op != v.op
    {
      if j == |s.durable| {
        assert OpInv(s, v.op);
        FreshGroup(s, w, v, i);
      } else {
        assert w in s.durable[i] && v in s.durable[j];
      }
    }
  }

  lemma WriteHeadHist(l: Layout, s: State)
    requires HistInv(s) && s.phase.WriteHead? && ControlInv(s) && BlockEnabled(l, s)
    ensures HistInv(NextBlock(l, s))
  {
    forall o: nat
      ensures OpInv(NextBlock(l, s), o)
    {
      assert OpInv(s, o);
      WriteHeadOp(l, s, o);
    }
    WriteHeadNoSplit(s);
  }

  lemma StepHist(l: Layout, d0: Disk, s: State, a: Step)
    requires Inv(l, d0, s) && HistInv(s) && Enabled(l, s, a)
    ensures HistInv(Next(l, s, a))
  {
    hide CacheInv, DiskInv, HeaderInv, BlockEnabled, Encode, Apply, Flat, CrashOk;
    var s' := Next(l, s, a);
    if a.LogWrite? {
      LogWriteHist(l, s, a.op, a.block, a.data);
    } else if a.BlockStep? && s.phase.WriteHead? {
      WriteHeadHist(l, s);
    } else {
      forall o: nat
        ensures OpInv(s', o)
      {
        assert OpInv(s, o);
      }
    }
  }

  // --------------------------------------------------------------- all runs

  lemma {:induction false} RunInv(l: Layout, d0: Disk, trace: seq<State>, steps: seq<Step>, i: nat)
    requires IsRun(l, d0, trace, steps) && i < |trace|
    ensures Inv(l, d0, trace[i]) && HistInv(trace[i])
  {
    if i == 0 {
      InitInv(l, d0, trace[0]);
      forall o: nat
        ensures OpInv(trace[0], o)
      {}
    } else {
      RunInv(l, d0, trace, steps, i - 1);
      assert StepOk(l, trace, steps, i - 1);
      StepKeeps(l, d0, trace[i - 1], steps[i - 1]);
      StepHist(l, d0, trace[i - 1], steps[i - 1]);
    }
  }

  // Crash atomicity: at every point of every run, recovery yields exactly the
  // initial home blocks with the durable groups applied, and running recovery
  // again changes nothing more.
  lemma CrashAtomicity(l: Layout, d0: Disk, trace: seq<State>, steps: seq<Step>, i: nat)
    requires IsRun(l, d0, trace, steps) && i < |trace|
    ensures HeadValid(l, trace[i].disk)
    ensures HomeEq(l, Recover(l, trace[i].disk), Apply(d0, Flat(trace[i].durable)))
    ensures HeadValid(l, Recover(l, trace[i].disk))
    ensures HomeEq(l, Recover(l, Recover(l, trace[i].disk)), Apply(d0, Flat(trace[i].durable)))
  {
    RunInv(l, d0, trace, steps, i);
    RecoverRestores(l, trace[i].disk, Durable(d0, trace[i]));
    RecoverRestores(l, Recover(l, trace[i].disk), Durable(d0, trace[i]));
  }

  // Only the header write changes what recovery restores, and it adds the
  // whole current group at once.
  predicate HistoryStep(s: State, s': State, a: Step) {
    match a
    case LogWrite(op, b, data) =>
      && s'.durable == s.durable
      && s'.current == s.current + [Write(op, b, data)]
      && s'.issued == s.issued + [Write(op, b, data)]
    case Crash => s'.durable == s.durable && s'.current == [] && s'.issued == s.issued
    case _ =>
      && s'.issued == s.issued
      && if a == BlockStep && s.phase == WriteHead then s'.durable == s.durable + [s.current] && s'.current == []
         else s'.durable == s.durable && s'.current == s.current
  }

  lemma BlockHistory(l: Layout, s: State)
    requires BlockEnabled(l, s)
    ensures var s' := NextBlock(l, s);
            && s'.issued == s.issued
            && if s.phase == WriteHead then s'.durable == s.durable + [s.current] && s'.current == []
               else s'.durable == s.durable && s'.current == s.current
  {
    hide Encode, View, Decode;
  }

  lemma CommitPoint(l: Layout, s: State, a: Step)
    requires Enabled(l, s, a)
    ensures HistoryStep(s, Next(l, s, a), a)
  {
    hide NextBlock, BlockEnabled, Admits, TooBig, MayLog;
    if a.BlockStep? {
      BlockHistory(l, s);
    }
  }

  lemma {:induction false} DurableGrows(l: Layout, d0: Disk, trace: seq<State>, steps: seq<Step>, i: nat, j: nat)
    requires IsRun(l, d0, trace, steps) && i <= j < |trace|
    ensures trace[i].durable <= trace[j].durable
    decreases j - i
  {
    if i < j {
      assert StepOk(l, trace, steps, i);
      CommitPoint(l, trace[i], steps[i]);
      DurableGrows(l, d0, trace, steps, i + 1, j);
    }
  }

  // Group commit: a crash at i, seen from any later point j, left the effect of
  // a prefix of the groups committed by j.
  lemma CrashLeavesPrefix(l: Layout, d0: Disk, trace: seq<State>, steps: seq<Step>, i: nat, j: nat)
    requires IsRun(l, d0, trace, steps) && i <= j < |trace|
    ensures exists k :: 0 <= k <= |trace[j].durable| && HeadValid(l, trace[i].disk)
                        && HomeEq(l, Recover(l, trace[i].disk), Apply(d0, Flat(trace[j].durable[..k])))
  {
    CrashAtomicity(l, d0, trace, steps, i);
    DurableGrows(l, d0, trace, steps, i, j);
    assert trace[j].durable[..|trace[i].durable|] == trace[i].durable;
  }

  // At every point, either all or none of an operation's writes are durable,
  // none while it is still running, and they sit in a single group.
  lemma AllOrNothing(l: Layout, d0: Disk, trace: seq<State>, steps: seq<Step>, i: nat, o: nat)
    requires IsRun(l, d0, trace, steps) && i < |trace|
    ensures Proj(Flat(trace[i].durable), o) in {[], Proj(trace[i].issued, o)}
    ensures o in trace[i].ops ==> Proj(Flat(trace[i].durable), o) == []
    ensures NoSplit(trace[i].durable)
  {
    RunInv(l, d0, trace, steps, i);
    assert OpInv(trace[i], o);
  }

  // Without a crash in between, an operation admitted at i is durable in full
  // once a later commit has finished.
  lemma CommitIsDurable(l: Layout, d0: Disk, trace: seq<State>, steps: seq<Step>, i: nat, j: nat, o: nat)
    requires IsRun(l, d0, trace, steps) && i < j < |trace|
    requires forall k :: i <= k < j ==> steps[k] != Crash
    requires o in trace[i].ops && trace[j].phase == Committed
    ensures Proj(Flat(trace[j].durable), o) == Proj(trace[j].issued, o)
  {
    RunInv(l, d0, trace, steps, i);
    assert OpInv(trace[i], o);
    NotLost(l, d0, trace, steps, i, j, o);
    RunInv(l, d0, trace, steps, j);
    assert OpInv(trace[j], o);
  }

  ghost predicate Kept(s: State, o: nat) {
    Proj(s.issued, o) in {Proj(s.current, o), Proj(Flat(s.durable), o)}
  }

  lemma KeptLogWrite(s: State, w: Write, o: nat)
    requires OpInv(s, o) && Kept(s, o) && w.op in s.ops
    ensures Kept(s.(current := s.current + [w], issued := s.issued + [w]), o)
  {
    ProjConcat(s.current, [w], o);
    ProjConcat(s.issued, [w], o);
    assert Proj([w], o) == if w.op == o then [w] else [];
    EmptyConcat(Proj(s.current, o), Proj([w], o));
    EmptyConcat(Proj(s.issued, o), Proj([w], o));
  }

  lemma KeptWriteHead(s: State, o: nat)
    requires OpInv(s, o) && Kept(s, o)
    ensures Proj(s.issued, o) == Proj(Flat(s.durable + [s.current]), o)
  {
    FlatSnoc(s.durable, s.current);
    ProjConcat(Flat(s.durable), s.current, o);
    EmptyConcat(Proj(Flat(s.durable), o), Proj(s.current, o));
  }

  lemma KeptStep(s: State, s': State, a: Step, o: nat)
    requires OpInv(s, o) && Kept(s, o) && HistoryStep(s, s', a) && a != Crash
    requires a.LogWrite? ==> a.op in s.ops
    ensures Kept(s', o)
  {
    if a.LogWrite? {
      KeptLogWrite(s, Write(a.op, a.block, a.data), o);
    } else {
      KeptWriteHead(s, o);
    }
  }

  lemma RunStep(l: Layout, d0: Disk, trace: seq<State>, steps: seq<Step>, i: nat, o: nat)
    requires IsRun(l, d0, trace, steps) && i < |steps|
    ensures OpInv(trace[i], o)
    ensures HistoryStep(trace[i], trace[i + 1], steps[i])
    ensures steps[i].LogWrite? ==> steps[i].op in trace[i].ops
  {
    RunInv(l, d0, trace, steps, i);
    assert StepOk(l, trace, steps, i);
    CommitPoint(l, trace[i], steps[i]);
  }

  lemma {:induction false} NotLost(l: Layout, d0: Disk, trace: seq<State>, steps: seq<Step>, i: nat, j: nat, o: nat)
    requires IsRun(l, d0, trace, steps) && i <= j < |trace|
    requires forall k :: i <= k < j ==> steps[k] != Crash
    requires Kept(trace[i], o)
    ensures Kept(trace[j], o)
  {
    if i < j {
      NotLost(l, d0, trace, steps, i, j - 1, o);
      RunStep(l, d0, trace, steps, j - 1, o);
      KeptStep(trace[j - 1], trace[j], steps[j - 1], o);
    }
  }

  // Every write that no crash has lost.
  function Live(s: State): (r: seq<Write>) {
    Flat(s.durable) + s.current
  }

  // A reader gets the last such write of a block.
  lemma ReadsLatest(l: Layout, d0: Disk, trace: seq<State>, steps: seq<Step>, i: nat, b: int)
    requires IsRun(l, d0, trace, steps) && i < |trace| && Home(l, |d0|, b)
    requires trace[i].phase != Down && !trace[i].phase.Install?
    ensures b < |trace[i].disk| && View(trace[i], b) == Apply(d0, Live(trace[i]))[b]
  {
    hide IsRun, Apply, Flat, View, DiskInv;
    RunInv(l, d0, trace, steps, i);
    ApplyConcat(d0, Flat(trace[i].durable), trace[i].current);
  }

  lemma {:induction false} LiveStays(l: Layout, d0: Disk, trace: seq<State>, steps: seq<Step>, i: nat, j: nat)
    requires IsRun(l, d0, trace, steps) && i <= j < |trace|
    requires forall k :: i <= k < j ==> !steps[k].LogWrite? && steps[k] != Crash
    ensures Live(trace[j]) == Live(trace[i])
  {
    hide IsRun, Flat, OpInv;
    if i < j {
      RunIndex(l, d0, trace, steps);
      LiveStays(l, d0, trace, steps, i, j - 1);
      RunStep(l, d0, trace, steps, j - 1, 0);
      FlatSnoc(trace[j - 1].durable, trace[j - 1].current);
    }
  }

  lemma RunIndex(l: Layout, d0: Disk, trace: seq<State>, steps: seq<Step>)
    requires IsRun(l, d0, trace, steps)
    ensures |trace| == |steps| + 1
  {}

  // Once a commit has finished, the disk itself holds what readers saw before.
  lemma CommitInstalls(l: Layout, d0: Disk, trace: seq<State>, steps: seq<Step>, i: nat, j: nat, b: int)
    requires IsRun(l, d0, trace, steps) && i <= j < |trace| && Home(l, |d0|, b)
    requires forall k :: i <= k < j ==> !steps[k].LogWrite? && steps[k] != Crash
    requires trace[i].phase != Down && !trace[i].phase.Install? && trace[j].phase == Committed
    ensures trace[j].dirty == map[] && |trace[i].disk| == |trace[j].disk| == |d0| && trace[j].disk[b] == View(trace[i], b)
  {
    hide IsRun, Apply, Live, DiskInv, CacheInv;
    ReadsLatest(l, d0, trace, steps, i, b);
    ReadsLatest(l, d0, trace, steps, j, b);
    LiveStays(l, d0, trace, steps, i, j);
    RunInv(l, d0, trace, steps, i);
    RunInv(l, d0, trace, steps, j);
    NothingPinned(l, d0, trace[j]);
  }

  lemma NothingPinned(l: Layout, d0: Disk, s: State)
    requires Inv(l, d0, s) && s.phase == Committed
    ensures s.dirty == map[]
  {
    hide DiskInv, Durable, Apply;
    assert s.blocks == [];
    assert forall b :: b !in s.dirty;
  }

  // Recovery, crashing and restarting any number of times, ends with the home
  // blocks as they were durable at the crash.
  predicate Booting(s: State) {
    s.phase == Down || (s.phase.Install? && s.phase.boot) || (s.phase.ClearHead? && s.phase.boot)
  }

  lemma RecoveryStep(l: Layout, d0: Disk, s: State, a: Step)
    requires Inv(l, d0, s) && Booting(s) && Enabled(l, s, a) && (a == Crash || a == BlockStep)
    ensures var s' := Next(l, s, a);
            && s'.durable == s.durable
            && (Booting(s') || (s'.phase == Running && s'.dirty == map[] && s'.blocks == [] && HomeEq(l, s'.disk, Durable(d0, s))))
  {
    if s.phase.ClearHead? {
      ClearWrite(l, s.disk, Durable(d0, s));
      assert forall b :: b !in s.dirty;
    }
  }

  lemma {:induction false} RecoveryConverges(l: Layout, d0: Disk, trace: seq<State>, steps: seq<Step>, i: nat, j: nat)
    requires IsRun(l, d0, trace, steps) && i <= j < |trace|
    requires trace[i].phase == Down
    requires forall k :: i <= k < j ==> (steps[k] == Crash || steps[k] == BlockStep)
    ensures trace[j].durable == trace[i].durable
    ensures Booting(trace[j]) || trace[j].phase == Running
    ensures trace[j].phase == Running ==> HomeEq(l, trace[j].disk, Apply(d0, Flat(trace[i].durable)))
    ensures trace[j].phase == Running ==> trace[j].dirty == map[] && trace[j].blocks == []
    decreases j - i
  {
    if i < j {
      RecoveryConverges(l, d0, trace, steps, i, j - 1);
      RunInv(l, d0, trace, steps, j - 1);
      assert StepOk(l, trace, steps, j - 1);
      if Booting(trace[j - 1]) {
        RecoveryStep(l, d0, trace[j - 1], steps[j - 1]);
      }
    }
  }

  // end_op never finds log.committing set, whatever operation calls it.
  lemma EndNeverPanics(l: Layout, d0: Disk, trace: seq<State>, steps: seq<Step>, i: nat, op: nat)
    requires IsRun(l, d0, trace, steps) && i < |trace| && op in trace[i].ops
    ensures !trace[i].committing && Enabled(l, trace[i], End(op))
  {
    RunInv(l, d0, trace, steps, i);
  }

  lemma RunSnoc(l: Layout, d0: Disk, trace: seq<State>, steps: seq<Step>, a: Step)
    requires IsRun(l, d0, trace, steps) && Enabled(l, trace[|trace| - 1], a)
    ensures IsRun(l, d0, trace + [Next(l, trace[|trace| - 1], a)], steps + [a])
  {
    var trace', steps' := trace + [Next(l, trace[|trace| - 1], a)], steps + [a];
    forall i | 0 <= i < |steps'|
      ensures StepOk(l, trace', steps', i)
    {
      if i < |steps| {
        assert StepOk(l, trace, steps, i);
      }
    }
  }
}
