/**
 The process table of proc.c as a machine. Each step is one critical section
 under ptable.lock (or one of the few single stores made without it), taken by
 a running process, by the scheduler or by an interrupt. `exited` and `reaped`
 record the pids that exit and wait have handled.
 */
module ProcModel {
  import opened Common

  const NPROC := 64

  datatype ProcState = UNUSED | EMBRYO | SLEEPING | RUNNABLE | RUNNING | ZOMBIE

  // wait sleeps on the address of its own slot; everything else is Other.
  datatype Chan = Slot(index: nat) | Other(id: int)

  // What a process is doing in the kernel.
  datatype Activity =
    | User                               // anything but fork and wait
    | Forking(child: nat, linked: bool)  // in fork, with its parent field stored or not
    | Waiting                            // asleep in wait, or about to scan again

  datatype Proc = Proc(
    state: ProcState,
    pid: int,
    parent: Option<nat>,
    chan: Option<Chan>,
    killed: bool,
    act: Activity)

  type Table = t: seq<Proc> | |t| == NPROC witness seq(NPROC, _ => Proc(UNUSED, 0, None, None, false, User))

  datatype State = State(
    procs: Table,
    init: nat,                 // slot of initproc
    nextpid: nat,
    exited: seq<int>,
    reaped: seq<int>)

  datatype Step =
    | Alloc(i: nat)            // fork calls allocproc
    | ForkFail(i: nat)         // no kernel stack, or the address space cannot be copied
    | ForkLink(i: nat)         // np->parent = curproc
    | ForkDone(i: nat)         // np->state = RUNNABLE
    | Exit(i: nat)
    | Wait(i: nat)             // one scan of wait's loop
    | Sleep(i: nat, id: int)
    | Wakeup(id: int)
    | Kill(pid: int)
    | Schedule(i: nat)
    | Yield(i: nat)

  predicate Alive(p: Proc) {
    p.state == SLEEPING || p.state == RUNNABLE || p.state == RUNNING
  }

  predicate IsChild(procs: Table, i: nat, j: nat) {
    j < NPROC && procs[j].parent == Some(i)
  }

  // ------------------------------------------------- effects on the whole table

  // wakeup1.
  function Woken(p: Proc, c: Chan): (r: Proc) {
    if p.state == SLEEPING && p.chan == Some(c) then p.(state := RUNNABLE) else p
  }

  function WakeAll(procs: Table, c: Chan): (r: Table)
    ensures forall j :: 0 <= j < NPROC ==> r[j] == Woken(procs[j], c)
  {
    seq(NPROC, j requires 0 <= j < NPROC => Woken(procs[j], c))
  }

  // The first slot from k on whose process satisfies f, or NPROC.
  function First(procs: Table, f: Proc -> bool, k: nat): (r: nat)
    requires k <= NPROC
    ensures k <= r <= NPROC
    ensures r < NPROC ==> f(procs[r])
    ensures forall j :: k <= j < r ==> !f(procs[j])
    decreases NPROC - k
  {
    if k == NPROC || f(procs[k]) then k else First(procs, f, k + 1)
  }

  function FirstUnused(procs: Table): (r: nat)
    ensures r <= NPROC
  {
    First(procs, (p: Proc) => p.state == UNUSED, 0)
  }

  function FirstZombie(procs: Table, i: nat): (r: nat)
    ensures r <= NPROC
  {
    First(procs, (p: Proc) => p.parent == Some(i) && p.state == ZOMBIE, 0)
  }

  function FirstPid(procs: Table, pid: int): (r: nat)
    ensures r <= NPROC
  {
    First(procs, (p: Proc) => p.pid == pid, 0)
  }

  predicate HasKids(procs: Table, i: nat) {
    exists j :: 0 <= j < NPROC && IsChild(procs, i, j)
  }

  // exit, for one slot: the parent is woken, children go to init, and init is
  // woken if one of them is already a zombie.
  function Reparented(p: Proc, i: nat, init: nat): (r: Proc) {
    if p.parent == Some(i) then p.(parent := Some(init)) else p
  }

  predicate OrphansZombie(procs: Table, i: nat) {
    exists j :: 0 <= j < NPROC && IsChild(procs, i, j) && procs[j].state == ZOMBIE
  }

  function ExitWakes(procs: Table, i: nat, init: nat): (r: Table)
    requires i < NPROC
  {
    var woken := if procs[i].parent.Some? then WakeAll(procs, Slot(procs[i].parent.value)) else procs;
    if OrphansZombie(procs, i) then WakeAll(woken, Slot(init)) else woken
  }

  function ExitTable(procs: Table, i: nat, init: nat): (r: Table)
    requires i < NPROC
  {
    var w := ExitWakes(procs, i, init);
    var r := seq(NPROC, j requires 0 <= j < NPROC => Reparented(w[j], i, init));
    r[i := r[i].(state := ZOMBIE)]
  }

  // wait, once it has found a zombie child.
  function Cleared(p: Proc): (r: Proc) {
    p.(pid := 0, parent := None, killed := false, state := UNUSED)
  }

  // ------------------------------------------------------------------ steps

  predicate Running(s: State, i: nat) {
    i < NPROC && s.procs[i].state == RUNNING
  }

  predicate Enabled(s: State, a: Step) {
    match a
    case Alloc(i) => Running(s, i) && s.procs[i].act == User
    case ForkFail(i) => Running(s, i) && s.procs[i].act.Forking? && !s.procs[i].act.linked && s.procs[i].act.child < NPROC
    case ForkLink(i) => Running(s, i) && s.procs[i].act.Forking? && !s.procs[i].act.linked && s.procs[i].act.child < NPROC
    case ForkDone(i) => Running(s, i) && s.procs[i].act.Forking? && s.procs[i].act.linked && s.procs[i].act.child < NPROC
    case Exit(i) => Running(s, i) && s.procs[i].act == User && i != s.init
    case Wait(i) => Running(s, i) && !s.procs[i].act.Forking?
    case Sleep(i, _) => Running(s, i) && !s.procs[i].act.Waiting?
    case Schedule(i) => i < NPROC && s.procs[i].state == RUNNABLE
    case Yield(i) => Running(s, i)
    case Wakeup(_) => true
    case Kill(_) => true
  }

  function WaitNext(s: State, i: nat): (r: State)
    requires i < NPROC
  {
    var p, z := s.procs[i], FirstZombie(s.procs, i);
    if z < NPROC then
      s.(procs := s.procs[z := Cleared(s.procs[z])][i := p.(act := User)],
         reaped := s.reaped + [s.procs[z].pid])
    else if !HasKids(s.procs, i) || p.killed then
      s.(procs := s.procs[i := p.(act := User)])
    else
      s.(procs := s.procs[i := p.(act := Waiting, chan := Some(Slot(i)), state := SLEEPING)])
  }

  function Next(s: State, a: Step): (r: State)
    requires Enabled(s, a)
  {
    match a
    case Alloc(i) =>
      var j := FirstUnused(s.procs);
      if j == NPROC then s
      else
        s.(procs := s.procs[j := s.procs[j].(state := EMBRYO, pid := s.nextpid)][i := s.procs[i].(act := Forking(j, false))],
           nextpid := s.nextpid + 1)
    case ForkFail(i) =>
      var j := s.procs[i].act.child;
      s.(procs := s.procs[i := s.procs[i].(act := User)][j := s.procs[j].(state := UNUSED)])
    case ForkLink(i) =>
      var j := s.procs[i].act.child;
      s.(procs := s.procs[i := s.procs[i].(act := Forking(j, true))][j := s.procs[j].(parent := Some(i))])
    case ForkDone(i) =>
      var j := s.procs[i].act.child;
      s.(procs := s.procs[i := s.procs[i].(act := User)][j := s.procs[j].(state := RUNNABLE, act := User)])
    case Exit(i) =>
      s.(procs := ExitTable(s.procs, i, s.init), exited := s.exited + [s.procs[i].pid])
    case Wait(i) => WaitNext(s, i)
    case Sleep(i, id) => s.(procs := s.procs[i := s.procs[i].(state := SLEEPING, chan := Some(Other(id)))])
    case Wakeup(id) => s.(procs := WakeAll(s.procs, Other(id)))
    case Kill(pid) =>
      var j := FirstPid(s.procs, pid);
      if j == NPROC then s
      else
        var p := s.procs[j];
        s.(procs := s.procs[j := p.(killed := true, state := if p.state == SLEEPING then RUNNABLE else p.state)])
    case Schedule(i) => s.(procs := s.procs[i := s.procs[i].(state := RUNNING, chan := None)])
    case Yield(i) => s.(procs := s.procs[i := s.procs[i].(state := RUNNABLE)])
  }

  // userinit has made the first process.
  ghost predicate Init(s: State) {
    && s.init < NPROC && s.nextpid == 2 && s.exited == [] && s.reaped == []
    && forall j :: 0 <= j < NPROC ==>
         s.procs[j] == if j == s.init then Proc(RUNNABLE, 1, None, None, false, User) else Proc(UNUSED, 0, None, None, false, User)
  }

  predicate StepOk(trace: seq<State>, steps: seq<Step>, i: nat)
    requires |trace| == |steps| + 1 && i < |steps|
  {
    Enabled(trace[i], steps[i]) && trace[i + 1] == Next(trace[i], steps[i])
  }

  ghost predicate IsRun(trace: seq<State>, steps: seq<Step>) {
    && |trace| == |steps| + 1
    && Init(trace[0])
    && forall i {:trigger StepOk(trace, steps, i)} :: 0 <= i < |steps| ==> StepOk(trace, steps, i)
  }
}
