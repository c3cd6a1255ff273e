/**
 Who wakes whom: what every run says about sleeping, on any channel.
 */
module ProcSleep {
  import opened Common
  import opened ProcModel
  import opened ProcSafety
  import opened ProcKill

  predicate Asleep(s: State, j: nat)
    requires j < NPROC
  {
    s.procs[j].state == SLEEPING
  }

  // A step that puts slot j to sleep is that process's own sleep or wait.
  lemma FallsAsleep(s: State, a: Step, j: nat)
    requires Enabled(s, a) && j < NPROC && !Asleep(s, j) && Asleep(Next(s, a), j)
    ensures s.procs[j].state == RUNNING && (a.Sleep? || a.Wait?) && a.i == j
  {
    hide FirstPid, FirstZombie, FirstUnused, HasKids;
  }

  // kill wakes the process it hits, whatever it sleeps on.
  lemma KillWakes(trace: seq<State>, steps: seq<Step>, n: nat, j: nat)
    requires IsRun(trace, steps) && n < |steps| && j < NPROC
    requires steps[n].Kill? && trace[n].procs[j].pid == steps[n].pid
    requires forall k :: 0 <= k < j ==> trace[n].procs[k].pid != steps[n].pid
    ensures n + 1 < |trace| && trace[n + 1].procs[j].killed && !Asleep(trace[n + 1], j)
    ensures Asleep(trace[n], j) ==> trace[n + 1].procs[j].state == RUNNABLE
  {
    RunStep(trace, steps, n);
  }

  // A process that a kill has hit is asleep later only if it went to sleep again
  // itself in between.
  lemma {:induction false} SleepsAgain(trace: seq<State>, steps: seq<Step>, n: nat, j: nat, i: nat)
    requires IsRun(trace, steps) && n < i < |trace| && j < NPROC
    requires steps[n].Kill? && trace[n].procs[j].pid == steps[n].pid
    requires forall k :: 0 <= k < j ==> trace[n].procs[k].pid != steps[n].pid
    requires Asleep(trace[i], j)
    ensures exists m :: n < m < i && (steps[m].Sleep? || steps[m].Wait?) && steps[m].i == j
    decreases i
  {
    hide IsRun, Enabled, Next;
    RunLength(trace, steps);
    RunStep(trace, steps, i - 1);
    KillWakes(trace, steps, n, j);
    if Asleep(trace[i - 1], j) {
      SleepsAgain(trace, steps, n, j, i - 1);
    } else {
      FallsAsleep(trace[i - 1], steps[i - 1], j);
    }
  }

  // After wakeup nobody sleeps on its channel.
  lemma WakeupWakes(trace: seq<State>, steps: seq<Step>, n: nat, j: nat)
    requires IsRun(trace, steps) && n < |steps| && j < NPROC && steps[n].Wakeup?
    ensures n + 1 < |trace| && !(Asleep(trace[n + 1], j) && trace[n + 1].procs[j].chan == Some(Other(steps[n].id)))
  {
    RunStep(trace, steps, n);
  }

  // Who sleeps on a channel of its own wakes only by a wakeup on that channel or
  // by a kill of its pid.
  lemma WokenBy(trace: seq<State>, steps: seq<Step>, n: nat, j: nat)
    requires IsRun(trace, steps) && n < |steps| && n + 1 < |trace| && j < NPROC
    requires Asleep(trace[n], j) && trace[n].procs[j].chan.Some? && trace[n].procs[j].chan.value.Other?
    requires !Asleep(trace[n + 1], j)
    ensures steps[n] == Wakeup(trace[n].procs[j].chan.value.id) || steps[n] == Kill(trace[n].procs[j].pid)
  {
    hide IsRun, Inv;
    RunStep(trace, steps, n);
    RunInv(trace, steps, n);
    Wakers(trace[n], steps[n], j);
  }

  lemma Wakers(s: State, a: Step, j: nat)
    requires Inv(s) && Enabled(s, a) && j < NPROC && Asleep(s, j)
    requires s.procs[j].chan.Some? && s.procs[j].chan.value.Other? && !Asleep(Next(s, a), j)
    ensures a == Wakeup(s.procs[j].chan.value.id) || a == Kill(s.procs[j].pid)
  {
    hide Inv, ExitTable, WaitNext, FirstUnused, FirstPid;
    match a
    case Exit(i) => ExitLeaves(s, i, j);
    case Wait(i) => WaitLeaves(s, i, j);
    case Kill(pid) => PidFound(s.procs, pid);
    case Alloc(_) => UnusedFound(s.procs);
    case ForkFail(i) => ChildInUse(s, i);
    case ForkDone(i) => ChildInUse(s, i);
    case _ =>
  }

  lemma ExitLeaves(s: State, i: nat, j: nat)
    requires i < NPROC && j < NPROC && Asleep(s, j) && s.procs[i].state == RUNNING
    requires s.procs[j].chan.Some? && s.procs[j].chan.value.Other?
    ensures ExitTable(s.procs, i, s.init)[j].state == SLEEPING
  {}

  lemma WaitLeaves(s: State, i: nat, j: nat)
    requires i < NPROC && j < NPROC && Asleep(s, j) && s.procs[i].state == RUNNING
    ensures WaitNext(s, i).procs[j].state == SLEEPING
  {}

  // ------------------------------------------------------------------ how long

  // Slot j sleeps on channel id under this pid.
  predicate SleepsOn(s: State, j: nat, id: int, pid: int)
    requires j < NPROC
  {
    Asleep(s, j) && s.procs[j].chan == Some(Other(id)) && s.procs[j].pid == pid
  }

  lemma SleepKeeps(s: State, a: Step, j: nat, id: int, pid: int)
    requires Inv(s) && Enabled(s, a) && j < NPROC && SleepsOn(s, j, id, pid) && Asleep(Next(s, a), j)
    ensures SleepsOn(Next(s, a), j, id, pid)
  {
    hide Inv, ExitTable, WaitNext, FirstUnused, FirstPid;
    match a
    case Exit(i) => ExitStays(s, i, j);
    case Wait(i) => WaitStays(s, i, j);
    case Kill(p) => PidFound(s.procs, p);
    case Alloc(_) => UnusedFound(s.procs);
    case ForkFail(i) => ChildInUse(s, i);
    case ForkLink(i) => ChildInUse(s, i);
    case ForkDone(i) => ChildInUse(s, i);
    case _ =>
  }

  lemma ExitStays(s: State, i: nat, j: nat)
    requires i < NPROC && j < NPROC
    ensures ExitTable(s.procs, i, s.init)[j].chan == s.procs[j].chan && ExitTable(s.procs, i, s.init)[j].pid == s.procs[j].pid
  {}

  lemma WaitStays(s: State, i: nat, j: nat)
    requires i < NPROC && j < NPROC && Asleep(s, j) && s.procs[i].state == RUNNING
    ensures WaitNext(s, i).procs[j].chan == s.procs[j].chan && WaitNext(s, i).procs[j].pid == s.procs[j].pid
  {}

  // A process that goes to sleep on a channel is asleep on it until the first
  // wakeup of that channel or kill of its pid.
  lemma {:induction false} SleepLasts(trace: seq<State>, steps: seq<Step>, n: nat, j: nat, id: int, m: nat)
    requires IsRun(trace, steps) && n < m < |trace| && j < NPROC && steps[n] == Sleep(j, id)
    requires forall k :: n < k < m ==> steps[k] != Wakeup(id) && steps[k] != Kill(trace[n].procs[j].pid)
    ensures SleepsOn(trace[m], j, id, trace[n].procs[j].pid)
    decreases m
  {
    hide IsRun, Enabled, Next, Inv;
    RunLength(trace, steps);
    if m == n + 1 {
      GoesToSleep(trace, steps, n, j, id);
    } else {
      SleepLasts(trace, steps, n, j, id, m - 1);
      RunInv(trace, steps, m - 1);
      RunStep(trace, steps, m - 1);
      if !Asleep(trace[m], j) {
        WokenBy(trace, steps, m - 1, j);
      }
      SleepKeeps(trace[m - 1], steps[m - 1], j, id, trace[n].procs[j].pid);
    }
  }

  lemma GoesToSleep(trace: seq<State>, steps: seq<Step>, n: nat, j: nat, id: int)
    requires IsRun(trace, steps) && n < |steps| && n + 1 < |trace| && j < NPROC && steps[n] == Sleep(j, id)
    ensures SleepsOn(trace[n + 1], j, id, trace[n].procs[j].pid)
  {
    RunStep(trace, steps, n);
  }

  // The scheduler runs a runnable process and no other slot changes; a process
  // that yields is runnable again.
  lemma Switches(trace: seq<State>, steps: seq<Step>, n: nat)
    requires IsRun(trace, steps) && n < |steps| && (steps[n].Schedule? || steps[n].Yield?)
    ensures n + 1 < |trace| && steps[n].i < NPROC
    ensures var s, s', i := trace[n], trace[n + 1], steps[n].i;
            && (if steps[n].Schedule? then s.procs[i].state == RUNNABLE && s'.procs[i].state == RUNNING
                else s.procs[i].state == RUNNING && s'.procs[i].state == RUNNABLE)
            && forall k :: 0 <= k < NPROC && k != i ==> s'.procs[k] == s.procs[k]
  {
    RunStep(trace, steps, n);
  }
}
