/**
 Whom kill kills. allocproc does not clear the killed flag of the slot it takes,
 and kill looks at slots that are not in use, so a process may be born killed.
 */
module ProcKill {
  import opened Common
  import opened ProcModel
  import opened ProcSafety

  // Step n is a kill of this pid that found it in slot j, in use.
  predicate OwnKill(trace: seq<State>, steps: seq<Step>, n: nat, j: nat, pid: int) {
    && n < |steps| && n < |trace| && steps[n] == Kill(pid)
    && j < NPROC && FirstPid(trace[n].procs, pid) == j && trace[n].procs[j].state != UNUSED
  }

  // The process in slot j of state i, if killed, has been named by a kill.
  ghost predicate Deserved(trace: seq<State>, steps: seq<Step>, i: nat, j: nat)
    requires i < |trace| && j < NPROC
  {
    var p := trace[i].procs[j];
    p.state != UNUSED && p.killed ==> exists n :: 0 <= n < i && OwnKill(trace, steps, n, j, p.pid)
  }

  // Step k does not make a process in a slot that is marked killed.
  predicate BornClean(trace: seq<State>, steps: seq<Step>, k: nat)
    requires k < |trace| && k < |steps|
  {
    steps[k].Alloc? ==> var j := FirstUnused(trace[k].procs); j < NPROC ==> !trace[k].procs[j].killed
  }

  // ---------------------------------------------------------------- each step

  // A slot in use that is killed after a step was killed before it, or is hit by
  // it, or is made by it from a slot that was marked.
  predicate FlagStep(s: State, s': State, a: Step, j: nat)
    requires j < NPROC
  {
    var p, q := s.procs[j], s'.procs[j];
    q.state != UNUSED && q.killed ==>
      || (p.state != UNUSED && p.killed && q.pid == p.pid)
      || (a == Kill(p.pid) && FirstPid(s.procs, p.pid) == j && p.state != UNUSED && q.pid == p.pid)
      || (a.Alloc? && FirstUnused(s.procs) == j && p.killed)
  }

  lemma ExitFlag(s: State, i: nat, j: nat)
    requires i < NPROC && j < NPROC
    ensures var p, q := s.procs[j], ExitTable(s.procs, i, s.init)[j];
            q.pid == p.pid && q.killed == p.killed && (j != i ==> (q.state == UNUSED <==> p.state == UNUSED))
  {}

  lemma WaitFlag(s: State, i: nat, j: nat)
    requires i < NPROC && j < NPROC
    ensures var p, q := s.procs[j], WaitNext(s, i).procs[j];
            q.state != UNUSED && q.killed ==> p.killed && (q.pid == p.pid) && (j != i ==> p.state == q.state)
  {
    hide FirstZombie, HasKids;
  }

  lemma StepFlag(s: State, a: Step, j: nat)
    requires Inv(s) && Enabled(s, a) && j < NPROC
    ensures FlagStep(s, Next(s, a), a, j)
  {
    hide Inv, ExitTable, WaitNext, FirstUnused, FirstPid;
    match a
    case Exit(i) => ExitFlag(s, i, j);
    case Wait(i) => WaitFlag(s, i, j);
    case Kill(pid) => PidFound(s.procs, pid);
    case ForkDone(i) => ChildInUse(s, i);
    case ForkLink(i) => ChildInUse(s, i);
    case _ =>
  }

  lemma RunStep(trace: seq<State>, steps: seq<Step>, k: nat)
    requires IsRun(trace, steps) && k < |steps|
    ensures |trace| == |steps| + 1 && StepOk(trace, steps, k)
    ensures Enabled(trace[k], steps[k]) && trace[k + 1] == Next(trace[k], steps[k])
  {}

  lemma RunLength(trace: seq<State>, steps: seq<Step>)
    requires IsRun(trace, steps)
    ensures |trace| == |steps| + 1
  {}

  lemma UnusedFound(procs: Table)
    ensures FirstUnused(procs) < NPROC ==> procs[FirstUnused(procs)].state == UNUSED
  {}

  lemma PidFound(procs: Table, pid: int)
    ensures FirstPid(procs, pid) < NPROC ==> procs[FirstPid(procs, pid)].pid == pid
  {}

  lemma ChildInUse(s: State, i: nat)
    requires Inv(s) && i < NPROC && s.procs[i].act.Forking?
    ensures s.procs[i].act.child < NPROC && s.procs[s.procs[i].act.child].state == EMBRYO
  {
    assert SlotInv(s, i);
  }

  // ----------------------------------------------------------------- every run

  lemma {:induction false} CleanDeserved(trace: seq<State>, steps: seq<Step>, i: nat, j: nat)
    requires IsRun(trace, steps) && i < |trace| && j < NPROC
    requires forall k :: 0 <= k < |steps| ==> BornClean(trace, steps, k)
    ensures Deserved(trace, steps, i, j)
  {
    hide Inv, Enabled, Next, FirstPid, FirstUnused;
    if i > 0 {
      CleanDeserved(trace, steps, i - 1, j);
      RunInv(trace, steps, i - 1);
      var s, s', a := trace[i - 1], trace[i], steps[i - 1];
      assert StepOk(trace, steps, i - 1) && BornClean(trace, steps, i - 1);
      StepFlag(s, a, j);
      var q := s'.procs[j];
      if q.state != UNUSED && q.killed {
        if s.procs[j].state != UNUSED && s.procs[j].killed && q.pid == s.procs[j].pid {
          var n :| 0 <= n < i - 1 && OwnKill(trace, steps, n, j, q.pid);
        } else {
          assert OwnKill(trace, steps, i - 1, j, q.pid);
        }
      }
    }
  }

  lemma {:induction false} PidsGrow(trace: seq<State>, steps: seq<Step>, n: nat, k: nat)
    requires IsRun(trace, steps) && n <= k < |trace|
    ensures trace[n].nextpid <= trace[k].nextpid
  {
    hide ExitTable, WakeAll, FirstPid, FirstUnused, FirstZombie, HasKids;
    if n < k {
      PidsGrow(trace, steps, n, k - 1);
      assert StepOk(trace, steps, k - 1);
    }
  }

  // Nobody has been killed under a pid that is yet to be given.
  lemma NotYetKilled(trace: seq<State>, steps: seq<Step>, n: nat, k: nat, j: nat)
    requires IsRun(trace, steps) && n <= k < |trace|
    ensures !OwnKill(trace, steps, n, j, trace[k].nextpid)
  {
    hide IsRun, FirstPid, WaitInv, PairInv, ExitInv;
    PidsGrow(trace, steps, n, k);
    RunInv(trace, steps, n);
    PidFound(trace[n].procs, trace[k].nextpid);
    if j < NPROC {
      assert SlotInv(trace[n], j);
    }
  }

  lemma DeservedClean(trace: seq<State>, steps: seq<Step>, k: nat, i: nat)
    requires IsRun(trace, steps) && k < |steps| && i == k + 1
    requires forall j :: 0 <= j < NPROC ==> Deserved(trace, steps, i, j)
    ensures BornClean(trace, steps, k)
  {
    hide FirstPid, FirstUnused, Init, ExitTable, WaitNext, WakeAll, IsRun;
    RunStep(trace, steps, k);
    var s := trace[k];
    var j := FirstUnused(s.procs);
    if steps[k].Alloc? && j < NPROC {
      UnusedFound(s.procs);
      assert Deserved(trace, steps, i, j);
      assert trace[i].procs[j] == s.procs[j].(state := EMBRYO, pid := s.nextpid);
      forall n: nat | n <= k
        ensures !OwnKill(trace, steps, n, j, s.nextpid)
      {
        NotYetKilled(trace, steps, n, k, j);
      }
    }
  }

  // Every killed process has been named by a kill, throughout a run, exactly if
  // no fork of the run takes a slot that is marked killed.
  lemma KilledByNameIff(trace: seq<State>, steps: seq<Step>)
    requires IsRun(trace, steps)
    ensures (forall i, j :: 0 <= i < |trace| && 0 <= j < NPROC ==> Deserved(trace, steps, i, j))
            <==> (forall k :: 0 <= k < |steps| ==> BornClean(trace, steps, k))
  {
    hide Deserved, BornClean;
    if forall k :: 0 <= k < |steps| ==> BornClean(trace, steps, k) {
      forall i, j | 0 <= i < |trace| && 0 <= j < NPROC
        ensures Deserved(trace, steps, i, j)
      {
        CleanDeserved(trace, steps, i, j);
      }
    }
    if forall i, j :: 0 <= i < |trace| && 0 <= j < NPROC ==> Deserved(trace, steps, i, j) {
      forall k | 0 <= k < |steps|
        ensures BornClean(trace, steps, k)
      {
        DeservedClean(trace, steps, k, k + 1);
      }
    }
  }

  // ------------------------------------------------------------- an example

  function Booted(): (s: State) {
    State(seq(NPROC, j => if j == 0 then Proc(RUNNABLE, 1, None, None, false, User) else Proc(UNUSED, 0, None, None, false, User)),
          0, 2, [], [])
  }

  // init runs and calls kill(0), which marks an unused slot.
  lemma KillNobody(s: State) returns (s2: State)
    requires s == Booted()
    ensures Enabled(s, Schedule(0)) && Enabled(Next(s, Schedule(0)), Kill(0))
    ensures s2 == Next(Next(s, Schedule(0)), Kill(0)) && s2.nextpid == 2
    ensures s2.procs[0] == Proc(RUNNING, 1, None, None, false, User) && s2.procs[1] == Proc(UNUSED, 0, None, None, true, User)
  {
    hide ExitTable, WaitNext, WakeAll, FirstPid, FirstUnused;
    var s1 := Next(s, Schedule(0));
    FirstIs(s1.procs);
    s2 := Next(s1, Kill(0));
  }

  // A fork by init then takes that slot.
  lemma ForkMarked(s: State) returns (s1: State, s2: State, s3: State)
    requires s.procs[0] == Proc(RUNNING, 1, None, None, false, User) && s.procs[1] == Proc(UNUSED, 0, None, None, true, User)
    requires s.nextpid == 2
    ensures Enabled(s, Alloc(0)) && s1 == Next(s, Alloc(0))
    ensures Enabled(s1, ForkLink(0)) && s2 == Next(s1, ForkLink(0))
    ensures Enabled(s2, ForkDone(0)) && s3 == Next(s2, ForkDone(0))
    ensures s3.procs[1].state == RUNNABLE && s3.procs[1].pid == 2 && s3.procs[1].killed
  {
    hide ExitTable, WaitNext, WakeAll, FirstPid, FirstUnused;
    FirstIs(s.procs);
    s1 := Next(s, Alloc(0));
    s2 := Next(s1, ForkLink(0));
    s3 := Next(s2, ForkDone(0));
  }

  // kill(0) marks an unused slot, and the next fork makes a killed child there.
  lemma BornKilled() returns (trace: seq<State>, steps: seq<Step>)
    ensures IsRun(trace, steps) && |steps| == 5
    ensures var p := trace[5].procs[1]; p.state == RUNNABLE && p.pid == 2 && p.killed
    ensures forall k :: 0 <= k < |steps| ==> steps[k] != Kill(2)
  {
    hide Enabled, Next;
    steps := [Schedule(0), Kill(0), Alloc(0), ForkLink(0), ForkDone(0)];
    var s0 := Booted();
    var s2 := KillNobody(s0);
    var s3, s4, s5 := ForkMarked(s2);
    trace := [s0, Next(s0, steps[0]), s2, s3, s4, s5];
    forall i | 0 <= i < 5
      ensures StepOk(trace, steps, i)
    {}
  }

  // Slot 1 is the first that is not in use and the first with pid 0.
  lemma FirstIs(procs: Table)
    requires procs[0].state != UNUSED && procs[0].pid != 0 && procs[1].state == UNUSED && procs[1].pid == 0
    ensures FirstUnused(procs) == 1 && FirstPid(procs, 0) == 1
  {}
}
