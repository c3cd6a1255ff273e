/**
 pipe.c with the sleep and wakeup of proc.c, as a machine whose steps are those
 between two lock operations. Any number of processes are inside pipewrite,
 piperead and pipeclose on one pipe; each step is taken by one of them, or is a
 kill from outside. `written` and `taken` record every byte deposited and
 returned so far, in order.
 */
module PipeModel {
  import opened Common

  const PIPESIZE := 512
  const UINT := 0x1_0000_0000

  type Buffer = b: seq<int> | |b| == PIPESIZE witness seq(PIPESIZE, _ => 0)

  // p->data, p->nread and p->nwrite.
  datatype Ring = Ring(data: Buffer, nread: nat, nwrite: nat)

  predicate Full(r: Ring) {
    r.nwrite == (r.nread + PIPESIZE) % UINT
  }

  predicate IsEmpty(r: Ring) {
    r.nread == r.nwrite
  }

  function Put(r: Ring, c: int): (q: Ring) {
    r.(data := r.data[r.nwrite % PIPESIZE := c], nwrite := (r.nwrite + 1) % UINT)
  }

  function Head(r: Ring): (c: int) {
    r.data[r.nread % PIPESIZE]
  }

  function Drop(r: Ring): (q: Ring) {
    r.(nread := (r.nread + 1) % UINT)
  }

  // The ring holds exactly the bytes written and not yet taken, however often
  // the 32-bit counters have wrapped.
  ghost predicate Holds(r: Ring, written: seq<int>, taken: seq<int>) {
    && taken <= written
    && |written| - |taken| <= PIPESIZE
    && r.nwrite == |written| % UINT
    && r.nread == |taken| % UINT
    && forall i :: |taken| <= i < |written| ==> r.data[i % PIPESIZE] == written[i]
  }

  // 512 divides 2^32, so the counters index the ring like the byte numbers.
  lemma Wraps(n: nat)
    ensures n % UINT % PIPESIZE == n % PIPESIZE
    ensures (n % UINT + 1) % UINT == (n + 1) % UINT
    ensures (n % UINT + PIPESIZE) % UINT == (n + PIPESIZE) % UINT
  {
    var q := n / UINT;
    assert n == q * UINT + n % UINT;
    assert n == (q * 8388608) * PIPESIZE + n % UINT;
  }

  lemma Near(m: nat, n: nat)
    requires m <= n < m + UINT
    ensures n % UINT == m % UINT <==> n == m
  {
    if n % UINT == m % UINT {
      var a, b := m / UINT, n / UINT;
      assert n - m == (b - a) * UINT;
      assert b - a < 1 && b - a > -1;
    }
  }

  lemma FullIff(r: Ring, written: seq<int>, taken: seq<int>)
    requires Holds(r, written, taken)
    ensures Full(r) <==> |written| - |taken| == PIPESIZE
    ensures IsEmpty(r) <==> written == taken
  {
    Wraps(|taken|);
    Near(|written|, |taken| + PIPESIZE);
    Near(|taken|, |written|);
    assert |written| == |taken| ==> written == taken;
  }

  lemma PutKeeps(r: Ring, written: seq<int>, taken: seq<int>, c: int)
    requires Holds(r, written, taken) && !Full(r)
    ensures Holds(Put(r, c), written + [c], taken)
  {
    FullIff(r, written, taken);
    Wraps(|written|);
    var w := written + [c];
    forall i | |taken| <= i < |w|
      ensures Put(r, c).data[i % PIPESIZE] == w[i]
    {
      if i < |written| {
        Apart(i, |written|);
      }
    }
  }

  lemma Apart(i: nat, n: nat)
    requires i < n < i + PIPESIZE
    ensures i % PIPESIZE != n % PIPESIZE
  {}

  lemma DropKeeps(r: Ring, written: seq<int>, taken: seq<int>)
    requires Holds(r, written, taken) && !IsEmpty(r)
    ensures Holds(Drop(r), written, taken + [Head(r)])
  {
    FullIff(r, written, taken);
    Wraps(|taken|);
    assert Head(r) == written[|taken|];
  }

  // -------------------------------------------------------------- processes

  datatype Chan = NRead | NWrite       // &p->nread, &p->nwrite

  datatype Job =
    | Read(n: int, got: seq<int>)      // piperead, with what it has copied so far
    | Write(src: seq<int>, i: nat)     // pipewrite, about to deposit src[i]
    | Close(writable: bool)            // pipeclose

  datatype Pc =
    | Acquire                          // about to acquire p->lock
    | Loop                             // p->lock held: test the condition, or deposit one byte
    | Copy                             // p->lock held: piperead's copy loop
    | Wake(again: bool)                // p->lock held: wakeup is about to acquire ptable.lock
    | Waking(again: bool)              // both held: wakeup1 comes next; `again` if sleep follows
    | SleepEnter                       // p->lock held: sleep is about to acquire ptable.lock
    | SleepRelease                     // both held: sleep is about to release p->lock
    | SleepSet                         // ptable.lock held: chan and state are about to be set
    | Asleep                           // off the CPU, SLEEPING or RUNNABLE
    | Woken                            // rescheduled with ptable.lock held
    | Release                          // p->lock held: about to release it and return

  // `asleep` says that the state is SLEEPING on the channel of the job.
  datatype Thread = Thread(job: Job, pc: Pc, killed: bool, asleep: bool)

  datatype State = State(
    ring: Ring,
    readopen: bool, writeopen: bool,
    readref: bool, writeref: bool,     // whether each end may still be used
    plock: Option<nat>, tlock: Option<nat>,   // holders of p->lock and ptable.lock
    threads: map<nat, Thread>,         // the calls in progress, by call number
    calls: nat,                        // the next call's number
    written: seq<int>, taken: seq<int>,
    authors: seq<nat>)                 // the call that wrote each byte

  datatype Step =
    | Enter(t: nat, job: Job)          // a process calls pipewrite, piperead or pipeclose
    | Run(t: nat)                      // the next step of process t
    | Kill(t: nat)

  // The channel a job sleeps on, and the one it wakes.
  function SleepChan(job: Job): (c: Chan) {
    if job.Read? then NRead else NWrite
  }

  function WakeChan(job: Job): (c: Chan) {
    if job.Write? || (job.Close? && job.writable) then NRead else NWrite
  }

  predicate HoldsPipe(pc: Pc) {
    pc.Loop? || pc.Copy? || pc.Wake? || pc.Waking? || pc.SleepEnter? || pc.SleepRelease? || pc.Release?
  }

  predicate HoldsTable(pc: Pc) {
    pc.Waking? || pc.SleepRelease? || pc.SleepSet? || pc.Woken?
  }

  function Wakeup(threads: map<nat, Thread>, c: Chan): (r: map<nat, Thread>) {
    map t | t in threads ::
      if threads[t].asleep && SleepChan(threads[t].job) == c then threads[t].(asleep := false) else threads[t]
  }

  function Goto(s: State, t: nat, pc: Pc): (r: State)
    requires t in s.threads
  {
    s.(threads := s.threads[t := s.threads[t].(pc := pc)])
  }

  function Leave(s: State, t: nat): (r: State) {
    s.(threads := s.threads - {t}, plock := None)
  }

  // ------------------------------------------------------------------ steps

  predicate Enabled(s: State, a: Step) {
    match a
    case Enter(t, job) =>
      && t == s.calls
      && (match job
          case Read(_, got) => s.readref && got == []
          case Write(_, i) => s.writeref && i == 0
          // An end is closed when its last reference goes, so no call on it is
          // in progress and none will start.
          case Close(w) =>
            && (if w then s.writeref else s.readref)
            && forall u :: u in s.threads ==> if w then !s.threads[u].job.Write? else !s.threads[u].job.Read?)
    case Run(t) =>
      && t in s.threads
      && (match s.threads[t].pc
          case Acquire => s.plock == None
          case Wake(_) => s.tlock == None
          case SleepEnter => s.tlock == None
          case Asleep => !s.threads[t].asleep && s.tlock == None
          case _ => true)
    case Kill(t) => t in s.threads && s.tlock == None
  }

  // One pass of pipewrite's loops: full, deposit a byte, or done.
  function WriteStep(s: State, t: nat): (r: State)
    requires t in s.threads && s.threads[t].job.Write?
  {
    var th := s.threads[t];
    if th.job.i >= |th.job.src| then Goto(s, t, Wake(false))
    else if Full(s.ring) then
      if !s.readopen || th.killed then Leave(s, t) else Goto(s, t, Wake(true))
    else
      var c := th.job.src[th.job.i];
      s.(ring := Put(s.ring, c), written := s.written + [c], authors := s.authors + [t],
         threads := s.threads[t := th.(job := th.job.(i := th.job.i + 1))])
  }

  function ReadStep(s: State, t: nat): (r: State)
    requires t in s.threads && s.threads[t].job.Read?
  {
    if IsEmpty(s.ring) && s.writeopen then
      if s.threads[t].killed then Leave(s, t) else Goto(s, t, SleepEnter)
    else Goto(s, t, Copy)
  }

  function CopyStep(s: State, t: nat): (r: State)
    requires t in s.threads && s.threads[t].job.Read?
  {
    var th := s.threads[t];
    if |th.job.got| >= th.job.n || IsEmpty(s.ring) then Goto(s, t, Wake(false))
    else
      var c := Head(s.ring);
      s.(ring := Drop(s.ring), taken := s.taken + [c],
         threads := s.threads[t := th.(job := th.job.(got := th.job.got + [c]))])
  }

  function CloseStep(s: State, t: nat): (r: State)
    requires t in s.threads && s.threads[t].job.Close?
  {
    Goto(if s.threads[t].job.writable then s.(writeopen := false) else s.(readopen := false), t, Wake(false))
  }

  function RunNext(s: State, t: nat): (r: State)
    requires t in s.threads
  {
    var th := s.threads[t];
    match th.pc
    case Acquire => Goto(s, t, Loop).(plock := Some(t))
    case Loop =>
      (match th.job
       case Read(_, _) => ReadStep(s, t)
       case Write(_, _) => WriteStep(s, t)
       case Close(_) => CloseStep(s, t))
    case Copy => if th.job.Read? then CopyStep(s, t) else s
    case Wake(again) => Goto(s, t, Waking(again)).(tlock := Some(t))
    case Waking(again) =>
      Goto(s.(threads := Wakeup(s.threads, WakeChan(th.job))), t, if again then SleepEnter else Release).(tlock := None)
    case SleepEnter => Goto(s, t, SleepRelease).(tlock := Some(t))
    case SleepRelease => Goto(s, t, SleepSet).(plock := None)
    case SleepSet => s.(threads := s.threads[t := th.(pc := Asleep, asleep := true)], tlock := None)
    case Asleep => Goto(s, t, Woken).(tlock := Some(t))
    case Woken => Goto(s, t, Acquire).(tlock := None)
    case Release => Leave(s, t)
  }

  function Next(s: State, a: Step): (r: State)
    requires Enabled(s, a)
  {
    match a
    case Enter(t, job) =>
      s.(threads := s.threads[t := Thread(job, Acquire, false, false)], calls := s.calls + 1,
         readref := s.readref && !(job.Close? && !job.writable),
         writeref := s.writeref && !(job.Close? && job.writable))
    case Run(t) => RunNext(s, t)
    case Kill(t) => s.(threads := s.threads[t := s.threads[t].(killed := true, asleep := false)])
  }

  // The bytes call t has deposited, in order.
  function Sent(written: seq<int>, authors: seq<nat>, t: nat): (r: seq<int>)
    requires |written| == |authors|
  {
    if written == [] then []
    else
      var n := |written| - 1;
      Sent(written[..n], authors[..n], t) + if authors[n] == t then [written[n]] else []
  }

  // A pipe as pipealloc leaves it.
  ghost predicate Init(s: State) {
    && s.ring.nread == 0 && s.ring.nwrite == 0
    && s.readopen && s.writeopen && s.readref && s.writeref
    && s.plock == None && s.tlock == None && s.threads == map[]
    && s.calls == 0 && s.written == [] && s.taken == [] && s.authors == []
  }

  predicate StepOk(trace: seq<State>, steps: seq<Step>, i: nat)
    requires |trace| == |steps| + 1 && i < |steps|
  {
    Enabled(trace[i], steps[i]) && trace[i + 1] == Next(trace[i], steps[i])
  }

  ghost predicate IsRun(trace: seq<State>, steps: seq<Step>) {
    && |trace| == |steps| + 1
    && Init(trace[0])
    && forall i {:trigger StepOk(trace, steps, i)} :: 0 <= i < |steps| ==> StepOk(trace, steps, i)
  }
}
