/**
 What every interleaving of readers, writers and closers keeps: the locks
 exclude, the pipe is a FIFO, and no wakeup is lost unless a killed writer
 leaves while a reader sleeps.
 */
module PipeSafety {
  import opened Common
  import opened PipeModel

  // --------------------------------------------------------------- invariant

  // Only the matching kind of process is at each point.
  predicate ThreadOk(th: Thread) {
    && (th.asleep ==> th.pc == Asleep)
    && (th.job.Close? ==> th.pc.Acquire? || th.pc.Loop? || th.pc == Wake(false) || th.pc == Waking(false) || th.pc.Release?)
    && (th.pc.Copy? ==> th.job.Read?)
    && (th.pc == Wake(true) || th.pc == Waking(true) ==> th.job.Write?)
    && (th.job.Write? ==> th.job.i <= |th.job.src|)
  }

  // Ends are closed only when no call on them is in progress.
  predicate RefOk(s: State, job: Job) {
    match job
    case Write(_, _) => s.writeref
    case Read(_, _) => s.readref
    case Close(w) => if w then !s.writeref else !s.readref
  }

  // Why a process may sleep on channel c.
  predicate Reason(s: State, c: Chan) {
    match c
    case NRead => IsEmpty(s.ring) && s.writeopen
    case NWrite => Full(s.ring) && s.readopen
  }

  // Asleep, or past the point where sleep gave up p->lock.
  predicate Committed(th: Thread) {
    th.asleep || th.pc.SleepSet?
  }

  // On the way to sleep, still holding p->lock.
  predicate Going(th: Thread) {
    th.pc.SleepEnter? || th.pc.SleepRelease? || th.pc == Wake(true) || th.pc == Waking(true)
  }

  // The holder of p->lock may have changed the pipe and will still run
  // wakeup1 on channel c.
  predicate Owes(th: Thread, c: Chan) {
    WakeChan(th.job) == c && (th.pc.Wake? || th.pc.Waking? || th.pc.Copy? || (th.pc.Loop? && th.job.Write?))
  }

  predicate Owed(s: State, c: Chan) {
    s.plock.Some? && s.plock.value in s.threads && Owes(s.threads[s.plock.value], c)
  }

  // Where a call's own bytes are: a writer's are in the stream in order, and
  // what a reader has copied is the end of what has been taken.
  ghost predicate StreamOk(s: State, t: nat, th: Thread)
    requires |s.written| == |s.authors|
  {
    match th.job
    case Write(src, i) => i <= |src| && Sent(s.written, s.authors, t) == src[..i]
    case Read(_, got) =>
      if th.pc.Copy? || th.pc.Wake? || th.pc.Waking? || th.pc.Release?
      then |got| <= |s.taken| && s.taken[|s.taken| - |got|..] == got
      else got == []
    case Close(_) => true
  }

  // Each lock is held by the process whose program counter says so, and who is
  // going to sleep has a reason to.
  ghost predicate CoreAt(s: State, t: nat)
    requires t in s.threads && |s.written| == |s.authors|
  {
    var th := s.threads[t];
    && t < s.calls
    && (HoldsPipe(th.pc) <==> s.plock == Some(t))
    && (HoldsTable(th.pc) <==> s.tlock == Some(t))
    && ThreadOk(th)
    && RefOk(s, th.job)
    && (Going(th) ==> Reason(s, SleepChan(th.job)))
    && StreamOk(s, t, th)
  }

  ghost predicate Core(s: State) {
    && (s.plock.Some? ==> s.plock.value in s.threads)
    && (s.tlock.Some? ==> s.tlock.value in s.threads)
    && (!s.writeopen ==> !s.writeref) && (!s.readopen ==> !s.readref)
    && PipeModel.Holds(s.ring, s.written, s.taken)
    && |s.written| == |s.authors|
    && (forall k :: 0 <= k < |s.authors| ==> s.authors[k] < s.calls)
    && forall t {:trigger CoreAt(s, t)} :: t in s.threads ==> CoreAt(s, t)
  }

  // Who sleeps has a reason to, or is about to be woken.
  predicate SleepAt(s: State, t: nat)
    requires t in s.threads
  {
    var th := s.threads[t];
    Committed(th) ==> Reason(s, SleepChan(th.job)) || Owed(s, SleepChan(th.job))
  }

  ghost predicate Sleepers(s: State) {
    forall t {:trigger SleepAt(s, t)} :: t in s.threads ==> SleepAt(s, t)
  }

  // The exit of pipewrite that skips the wakeup, with a reader asleep or on
  // its way to sleep.
  predicate LosesWakeup(s: State, a: Step) {
    && a.Run? && a.t in s.threads && s.threads[a.t].pc.Loop? && s.threads[a.t].job.Write?
    && s.threads[a.t].job.i < |s.threads[a.t].job.src|
    && Full(s.ring) && s.threads[a.t].killed
    && exists t :: t in s.threads && Committed(s.threads[t]) && s.threads[t].job.Read?
  }

  // ------------------------------------------------------------------ streams

  lemma {:induction false} SentNone(written: seq<int>, authors: seq<nat>, t: nat)
    requires |written| == |authors| && forall k :: 0 <= k < |authors| ==> authors[k] != t
    ensures Sent(written, authors, t) == []
  {
    if written != [] {
      SentNone(written[..|written| - 1], authors[..|written| - 1], t);
    }
  }

  lemma SentSnoc(written: seq<int>, authors: seq<nat>, c: int, a: nat, t: nat)
    requires |written| == |authors|
    ensures Sent(written + [c], authors + [a], t) == Sent(written, authors, t) + if a == t then [c] else []
  {
    assert (written + [c])[..|written|] == written && (authors + [a])[..|authors|] == authors;
  }

  lemma SuffixSnoc(taken: seq<int>, got: seq<int>, c: int)
    requires |got| <= |taken| && taken[|taken| - |got|..] == got
    ensures (taken + [c])[|taken + [c]| - |got + [c]|..] == got + [c]
  {}

  // ------------------------------------------------ each step, for each call u

  lemma EnterAt(s: State, a: Step, u: nat)
    requires Core(s) && Enabled(s, a) && a.Enter? && u in Next(s, a).threads
    ensures CoreAt(Next(s, a), u)
    ensures Sleepers(s) ==> SleepAt(Next(s, a), u)
  {
    hide PipeModel.Holds, Sent;
    assert s.plock.Some? ==> CoreAt(s, s.plock.value);
    assert s.tlock.Some? ==> CoreAt(s, s.tlock.value);
    if u != a.t {
      assert CoreAt(s, u);
      assert Sleepers(s) ==> SleepAt(s, u);
    } else {
      SentNone(s.written, s.authors, u);
    }
  }

  lemma KillAt(s: State, a: Step, u: nat)
    requires Core(s) && Enabled(s, a) && a.Kill? && u in s.threads
    ensures CoreAt(Next(s, a), u)
    ensures Sleepers(s) ==> SleepAt(Next(s, a), u)
  {
    hide PipeModel.Holds, Sent;
    assert CoreAt(s, u) && CoreAt(s, a.t);
    assert Sleepers(s) ==> SleepAt(s, u);
  }

  lemma AcquireAt(s: State, t: nat, u: nat)
    requires Core(s) && Enabled(s, Run(t)) && s.threads[t].pc.Acquire?
    requires u in RunNext(s, t).threads
    ensures CoreAt(RunNext(s, t), u)
    ensures Sleepers(s) && !LosesWakeup(s, Run(t)) ==> SleepAt(RunNext(s, t), u)
  {
    hide PipeModel.Holds, Sent;
    assert CoreAt(s, t) && CoreAt(s, u);
    assert Sleepers(s) ==> SleepAt(s, u);
  }

  lemma WriteAt(s: State, t: nat, u: nat)
    requires Core(s) && Enabled(s, Run(t)) && s.threads[t].pc.Loop? && s.threads[t].job.Write?
    requires u in WriteStep(s, t).threads
    ensures CoreAt(WriteStep(s, t), u)
    ensures Sleepers(s) && !LosesWakeup(s, Run(t)) ==> SleepAt(WriteStep(s, t), u)
  {
    hide PipeModel.Holds, Sent;
    assert CoreAt(s, t) && CoreAt(s, u);
    assert Sleepers(s) ==> SleepAt(s, u);
    var th := s.threads[t];
    if th.job.i < |th.job.src| && !Full(s.ring) {
      SentSnoc(s.written, s.authors, th.job.src[th.job.i], t, u);
      if u == t {
        assert th.job.src[..th.job.i] + [th.job.src[th.job.i]] == th.job.src[..th.job.i + 1];
      }
    }
  }

  lemma ReadAt(s: State, t: nat, u: nat)
    requires Core(s) && Enabled(s, Run(t)) && s.threads[t].pc.Loop? && s.threads[t].job.Read?
    requires u in ReadStep(s, t).threads
    ensures CoreAt(ReadStep(s, t), u)
    ensures Sleepers(s) && !LosesWakeup(s, Run(t)) ==> SleepAt(ReadStep(s, t), u)
  {
    hide PipeModel.Holds, Sent;
    assert CoreAt(s, t) && CoreAt(s, u);
    assert Sleepers(s) ==> SleepAt(s, u);
  }

  lemma CloseAt(s: State, t: nat, u: nat)
    requires Core(s) && Enabled(s, Run(t)) && s.threads[t].pc.Loop? && s.threads[t].job.Close?
    requires u in CloseStep(s, t).threads
    ensures CoreAt(CloseStep(s, t), u)
    ensures Sleepers(s) && !LosesWakeup(s, Run(t)) ==> SleepAt(CloseStep(s, t), u)
  {
    hide PipeModel.Holds, Sent;
    assert CoreAt(s, t) && CoreAt(s, u);
    assert Sleepers(s) ==> SleepAt(s, u);
  }

  lemma CopyStream(s: State, t: nat)
    requires Core(s) && t in s.threads && s.threads[t].pc.Copy? && s.threads[t].job.Read?
    ensures StreamOk(CopyStep(s, t), t, CopyStep(s, t).threads[t])
  {
    hide PipeModel.Holds, Sent;
    assert CoreAt(s, t);
    SuffixSnoc(s.taken, s.threads[t].job.got, Head(s.ring));
  }

  lemma CopySelf(s: State, t: nat)
    requires Core(s) && t in s.threads && s.threads[t].pc.Copy? && s.threads[t].job.Read?
    ensures CoreAt(CopyStep(s, t), t) && SleepAt(CopyStep(s, t), t)
  {
    hide PipeModel.Holds, StreamOk;
    assert CoreAt(s, t);
    CopyStream(s, t);
  }

  lemma CopyAt(s: State, t: nat, u: nat)
    requires Core(s) && Enabled(s, Run(t)) && s.threads[t].pc.Copy? && s.threads[t].job.Read?
    requires u in CopyStep(s, t).threads
    ensures CoreAt(CopyStep(s, t), u)
    ensures Sleepers(s) && !LosesWakeup(s, Run(t)) ==> SleepAt(CopyStep(s, t), u)
  {
    if u == t {
      CopySelf(s, t);
    } else {
      hide PipeModel.Holds, Sent;
      assert CoreAt(s, t) && CoreAt(s, u);
      assert Sleepers(s) ==> SleepAt(s, u);
      assert !HoldsPipe(s.threads[u].pc);
    }
  }

  lemma WakeAt(s: State, t: nat, u: nat)
    requires Core(s) && Enabled(s, Run(t)) && s.threads[t].pc.Wake?
    requires u in RunNext(s, t).threads
    ensures CoreAt(RunNext(s, t), u)
    ensures Sleepers(s) && !LosesWakeup(s, Run(t)) ==> SleepAt(RunNext(s, t), u)
  {
    hide PipeModel.Holds, Sent;
    assert CoreAt(s, t) && CoreAt(s, u);
    assert Sleepers(s) ==> SleepAt(s, u);
  }

  lemma WakingAt(s: State, t: nat, u: nat)
    requires Core(s) && Enabled(s, Run(t)) && s.threads[t].pc.Waking?
    requires u in RunNext(s, t).threads
    ensures CoreAt(RunNext(s, t), u)
    ensures Sleepers(s) && !LosesWakeup(s, Run(t)) ==> SleepAt(RunNext(s, t), u)
  {
    hide PipeModel.Holds, Sent;
    assert CoreAt(s, t) && CoreAt(s, u);
    assert Sleepers(s) ==> SleepAt(s, u);
  }

  lemma SleepEnterAt(s: State, t: nat, u: nat)
    requires Core(s) && Enabled(s, Run(t)) && (s.threads[t].pc.SleepEnter? || s.threads[t].pc.SleepRelease?)
    requires u in RunNext(s, t).threads
    ensures CoreAt(RunNext(s, t), u)
    ensures Sleepers(s) && !LosesWakeup(s, Run(t)) ==> SleepAt(RunNext(s, t), u)
  {
    hide PipeModel.Holds, Sent;
    assert CoreAt(s, t) && CoreAt(s, u);
    assert Sleepers(s) ==> SleepAt(s, u);
  }

  lemma SleepSetAt(s: State, t: nat, u: nat)
    requires Core(s) && Enabled(s, Run(t)) && (s.threads[t].pc.SleepSet? || s.threads[t].pc.Asleep?)
    requires u in RunNext(s, t).threads
    ensures CoreAt(RunNext(s, t), u)
    ensures Sleepers(s) && !LosesWakeup(s, Run(t)) ==> SleepAt(RunNext(s, t), u)
  {
    hide PipeModel.Holds, Sent;
    assert CoreAt(s, t) && CoreAt(s, u);
    assert Sleepers(s) ==> SleepAt(s, u);
  }

  lemma WokenAt(s: State, t: nat, u: nat)
    requires Core(s) && Enabled(s, Run(t)) && (s.threads[t].pc.Woken? || s.threads[t].pc.Release?)
    requires u in RunNext(s, t).threads
    ensures CoreAt(RunNext(s, t), u)
    ensures Sleepers(s) && !LosesWakeup(s, Run(t)) ==> SleepAt(RunNext(s, t), u)
  {
    hide PipeModel.Holds, Sent;
    assert CoreAt(s, t) && CoreAt(s, u);
    assert Sleepers(s) ==> SleepAt(s, u);
  }

  // ---------------------------------------------------------------- every step

  lemma StepAt(s: State, a: Step, u: nat)
    requires Core(s) && Enabled(s, a) && u in Next(s, a).threads && |Next(s, a).written| == |Next(s, a).authors|
    ensures CoreAt(Next(s, a), u)
    ensures Sleepers(s) && !LosesWakeup(s, a) ==> SleepAt(Next(s, a), u)
  {
    hide CoreAt, SleepAt, Sleepers, LosesWakeup, PipeModel.Holds;
    match a
    case Enter(_, _) => EnterAt(s, a, u);
    case Kill(_) => KillAt(s, a, u);
    case Run(t) =>
      CopyIsRead(s, t);
      match s.threads[t].pc
      case Acquire => AcquireAt(s, t, u);
      case Loop =>
        match s.threads[t].job {
          case Read(_, _) => ReadAt(s, t, u);
          case Write(_, _) => WriteAt(s, t, u);
          case Close(_) => CloseAt(s, t, u);
        }
      case Copy => CopyAt(s, t, u);
      case Wake(_) => WakeAt(s, t, u);
      case Waking(_) => WakingAt(s, t, u);
      case SleepEnter => SleepEnterAt(s, t, u);
      case SleepRelease => SleepEnterAt(s, t, u);
      case SleepSet => SleepSetAt(s, t, u);
      case Asleep => SleepSetAt(s, t, u);
      case Woken => WokenAt(s, t, u);
      case Release => WokenAt(s, t, u);
  }

  lemma CopyIsRead(s: State, t: nat)
    requires Core(s) && t in s.threads
    ensures s.threads[t].pc.Copy? ==> s.threads[t].job.Read?
    ensures s.threads[t].pc.Loop? || s.threads[t].pc.Release? ==> s.tlock != Some(t)
  {
    assert CoreAt(s, t);
  }

  // What a step can do to the streams: nothing, deposit one byte, take one.
  ghost predicate StreamStep(s: State, s': State) {
    || (s'.ring == s.ring && s'.written == s.written && s'.taken == s.taken && s'.authors == s.authors)
    || (!Full(s.ring) && s'.taken == s.taken
        && exists c, t :: t in s.threads && s'.ring == Put(s.ring, c) && s'.written == s.written + [c] && s'.authors == s.authors + [t])
    || (!IsEmpty(s.ring) && s'.written == s.written && s'.authors == s.authors
        && s'.ring == Drop(s.ring) && s'.taken == s.taken + [Head(s.ring)])
  }

  // What every step does to the parts that belong to no single call.
  ghost predicate StateStep(s: State, s': State) {
    && StreamStep(s, s')
    && s'.calls >= s.calls
    && (s'.plock.Some? ==> s'.plock.value in s'.threads)
    && (s'.tlock.Some? ==> s'.tlock.value in s'.threads)
    && (!s'.writeopen ==> !s'.writeref) && (!s'.readopen ==> !s'.readref)
  }

  lemma GainPart(s: State, t: nat)
    requires Core(s) && Enabled(s, Run(t))
    requires s.threads[t].pc.Acquire? || s.threads[t].pc.Wake? || s.threads[t].pc.SleepEnter? || s.threads[t].pc.Asleep?
    ensures StateStep(s, RunNext(s, t))
  {
    hide PipeModel.Holds, StreamOk, Full, IsEmpty, Put, Drop, Head, Reason;
    assert CoreAt(s, t);
  }

  lemma DropPart(s: State, t: nat)
    requires Core(s) && Enabled(s, Run(t)) && (s.threads[t].pc.SleepRelease? || s.threads[t].pc.SleepSet? || s.threads[t].pc.Woken?)
    ensures StateStep(s, RunNext(s, t))
  {
    hide PipeModel.Holds, StreamOk, Full, IsEmpty, Put, Drop, Head, Reason;
    assert CoreAt(s, t);
  }

  lemma WakingPart(s: State, t: nat)
    requires Core(s) && Enabled(s, Run(t)) && (s.threads[t].pc.Waking? || s.threads[t].pc.Release?)
    ensures StateStep(s, RunNext(s, t))
  {
    hide PipeModel.Holds, StreamOk, Full, IsEmpty, Put, Drop, Head, Reason;
    assert CoreAt(s, t);
  }

  lemma ReadPart(s: State, t: nat)
    requires Core(s) && Enabled(s, Run(t)) && s.threads[t].pc.Loop? && s.threads[t].job.Read?
    ensures StateStep(s, ReadStep(s, t))
  {
    hide PipeModel.Holds, StreamOk, Full, IsEmpty, Put, Drop, Head, Reason;
    assert CoreAt(s, t);
  }

  lemma ClosePart(s: State, t: nat)
    requires Core(s) && Enabled(s, Run(t)) && s.threads[t].pc.Loop? && s.threads[t].job.Close?
    ensures StateStep(s, CloseStep(s, t))
  {
    hide PipeModel.Holds, StreamOk, Full, IsEmpty, Put, Drop, Head, Reason;
    assert CoreAt(s, t);
  }

  lemma WritePart(s: State, t: nat)
    requires Core(s) && Enabled(s, Run(t)) && s.threads[t].pc.Loop? && s.threads[t].job.Write?
    ensures StateStep(s, WriteStep(s, t))
  {
    hide PipeModel.Holds, StreamOk, Full, IsEmpty, Put, Drop, Head, Reason;
    assert CoreAt(s, t);
    var job := s.threads[t].job;
    if job.i < |job.src| && !Full(s.ring) {
      assert WriteStep(s, t).written == s.written + [job.src[job.i]];
    }
  }

  lemma CopyPart(s: State, t: nat)
    requires Core(s) && Enabled(s, Run(t)) && s.threads[t].pc.Copy? && s.threads[t].job.Read?
    ensures StateStep(s, CopyStep(s, t))
  {
    hide PipeModel.Holds, StreamOk, Full, IsEmpty, Put, Drop, Head, Reason;
    assert CoreAt(s, t);
  }

  lemma OutsidePart(s: State, a: Step)
    requires Core(s) && Enabled(s, a) && !a.Run?
    ensures StateStep(s, Next(s, a))
  {
    hide PipeModel.Holds, StreamOk, Full, IsEmpty, Put, Drop, Head, Reason;
  }

  lemma StepParts(s: State, a: Step)
    requires Core(s) && Enabled(s, a)
    ensures StateStep(s, Next(s, a))
  {
    hide Core, StateStep, Goto, Wakeup, WriteStep, ReadStep, CopyStep, CloseStep;
    match a
    case Enter(_, _) => OutsidePart(s, a);
    case Kill(_) => OutsidePart(s, a);
    case Run(t) =>
      CopyIsRead(s, t);
      match s.threads[t].pc
      case Loop =>
        match s.threads[t].job {
          case Read(_, _) => ReadPart(s, t);
          case Write(_, _) => WritePart(s, t);
          case Close(_) => ClosePart(s, t);
        }
      case Copy => CopyPart(s, t);
      case Acquire => GainPart(s, t);
      case Wake(_) => GainPart(s, t);
      case SleepEnter => GainPart(s, t);
      case Asleep => GainPart(s, t);
      case Waking(_) => WakingPart(s, t);
      case Release => WakingPart(s, t);
      case SleepRelease => DropPart(s, t);
      case SleepSet => DropPart(s, t);
      case Woken => DropPart(s, t);
  }

  // The parts of Core that speak of no single call.
  lemma GlobalKeeps(s: State, a: Step)
    requires Core(s) && Enabled(s, a)
    ensures var s' := Next(s, a);
            && (s'.plock.Some? ==> s'.plock.value in s'.threads)
            && (s'.tlock.Some? ==> s'.tlock.value in s'.threads)
            && (!s'.writeopen ==> !s'.writeref) && (!s'.readopen ==> !s'.readref)
            && PipeModel.Holds(s'.ring, s'.written, s'.taken)
            && |s'.written| == |s'.authors|
            && (forall k :: 0 <= k < |s'.authors| ==> s'.authors[k] < s'.calls)
  {
    hide PipeModel.Holds, Next, Enabled, Full, IsEmpty, Put, Drop, Head;
    var s' := Next(s, a);
    StepParts(s, a);
    if s'.written != s.written {
      var c, t :| t in s.threads && s'.ring == Put(s.ring, c) && s'.written == s.written + [c] && s'.authors == s.authors + [t];
      PutKeeps(s.ring, s.written, s.taken, c);
      assert CoreAt(s, t);
    } else if s'.taken != s.taken {
      DropKeeps(s.ring, s.written, s.taken);
    }
  }

  // A step that is not the lossy exit keeps every sleeper's reason to sleep;
  // the lossy exit breaks a reader's.
  lemma StepKeeps(s: State, a: Step)
    requires Core(s) && Enabled(s, a)
    ensures Core(Next(s, a))
    ensures Sleepers(s) ==> (Sleepers(Next(s, a)) <==> !LosesWakeup(s, a))
  {
    hide CoreAt, SleepAt, LosesWakeup, Next, Enabled, PipeModel.Holds;
    var s' := Next(s, a);
    GlobalKeeps(s, a);
    forall u | u in s'.threads
      ensures CoreAt(s', u)
      ensures Sleepers(s) && !LosesWakeup(s, a) ==> SleepAt(s', u)
    {
      StepAt(s, a, u);
    }
    if LosesWakeup(s, a) {
      Lost(s, a);
    }
  }

  lemma FullNotEmpty(r: Ring, written: seq<int>, taken: seq<int>)
    requires PipeModel.Holds(r, written, taken) && Full(r)
    ensures !IsEmpty(r)
  {
    FullIff(r, written, taken);
  }

  lemma Lost(s: State, a: Step)
    requires Core(s) && LosesWakeup(s, a)
    ensures Enabled(s, a) && Next(s, a).plock == None && !Sleepers(Next(s, a))
  {
    hide PipeModel.Holds, StreamOk;
    var t :| t in s.threads && Committed(s.threads[t]) && s.threads[t].job.Read?;
    FullNotEmpty(s.ring, s.written, s.taken);
    assert CoreAt(s, t) && CoreAt(s, a.t);
    assert !SleepAt(Next(s, a), t);
  }

  // ---------------------------------------------------------------- every run

  lemma InitKeeps(s: State)
    requires Init(s)
    ensures Core(s) && Sleepers(s)
  {}

  lemma {:induction false} RunCore(trace: seq<State>, steps: seq<Step>, i: nat)
    requires IsRun(trace, steps) && i < |trace|
    ensures Core(trace[i])
  {
    if i == 0 {
      InitKeeps(trace[0]);
    } else {
      hide Core, Enabled, Next, Sleepers;
      RunCore(trace, steps, i - 1);
      assert StepOk(trace, steps, i - 1);
      StepKeeps(trace[i - 1], steps[i - 1]);
    }
  }

  lemma {:induction false} RunSleepers(trace: seq<State>, steps: seq<Step>, i: nat)
    requires IsRun(trace, steps) && i < |trace|
    requires forall k :: 0 <= k < i ==> !LosesWakeup(trace[k], steps[k])
    ensures Sleepers(trace[i])
  {
    if i == 0 {
      InitKeeps(trace[0]);
    } else {
      hide Core, Enabled, Next, Sleepers, LosesWakeup;
      RunCore(trace, steps, i - 1);
      RunSleepers(trace, steps, i - 1);
      assert StepOk(trace, steps, i - 1);
      StepKeeps(trace[i - 1], steps[i - 1]);
    }
  }

  // With the pipe lock free, a sleeping reader has nothing to read from an
  // open pipe, a sleeping writer has no room in an open pipe, and there are
  // not both.
  ghost predicate NoneLost(s: State) {
    && (forall t :: t in s.threads && s.threads[t].asleep && s.threads[t].job.Read? ==> s.written == s.taken && s.writeopen)
    && (forall t :: t in s.threads && s.threads[t].asleep && s.threads[t].job.Write? ==>
          |s.written| - |s.taken| == PIPESIZE && s.readopen)
    && (forall t, u :: t in s.threads && u in s.threads && s.threads[t].asleep && s.threads[u].asleep ==>
          SleepChan(s.threads[t].job) == SleepChan(s.threads[u].job))
  }

  lemma NoLostWakeup(trace: seq<State>, steps: seq<Step>, i: nat)
    requires IsRun(trace, steps) && i < |trace| && trace[i].plock == None
    requires forall k :: 0 <= k < i ==> !LosesWakeup(trace[k], steps[k])
    ensures NoneLost(trace[i])
  {
    hide IsRun, LosesWakeup, StreamOk;
    RunCore(trace, steps, i);
    RunSleepers(trace, steps, i);
    var s := trace[i];
    FullIff(s.ring, s.written, s.taken);
    forall t | t in s.threads && s.threads[t].asleep
      ensures Reason(s, SleepChan(s.threads[t].job))
    {
      assert SleepAt(s, t) && CoreAt(s, t);
    }
  }

  // A run is free of lost wakeups exactly when no step of it is the lossy exit.
  lemma SleepersIff(trace: seq<State>, steps: seq<Step>)
    requires IsRun(trace, steps)
    ensures (forall i :: 0 <= i < |trace| ==> Sleepers(trace[i])) <==> (forall k :: 0 <= k < |steps| ==> !LosesWakeup(trace[k], steps[k]))
  {
    hide LosesWakeup, Sleepers, Core, Enabled, Next;
    if forall k :: 0 <= k < |steps| ==> !LosesWakeup(trace[k], steps[k]) {
      forall i | 0 <= i < |trace|
        ensures Sleepers(trace[i])
      {
        RunSleepers(trace, steps, i);
      }
    } else {
      var k :| 0 <= k < |steps| && LosesWakeup(trace[k], steps[k]);
      RunCore(trace, steps, k);
      Lost(trace[k], steps[k]);
      assert StepOk(trace, steps, k);
      assert !Sleepers(trace[k + 1]);
    }
  }

  // The pipe is a FIFO stream in every run: what has been read is a prefix of
  // what has been written, the ring holds the rest, each writer's bytes are in
  // the stream in order, and a reader returns the bytes it took.
  lemma FifoStream(trace: seq<State>, steps: seq<Step>, i: nat)
    requires IsRun(trace, steps) && i < |trace|
    ensures var s := trace[i];
            && s.taken <= s.written
            && |s.written| - |s.taken| <= PIPESIZE
            && (forall k :: |s.taken| <= k < |s.written| ==> s.ring.data[k % PIPESIZE] == s.written[k])
            && |s.written| == |s.authors|
            && (forall t :: t in s.threads ==> StreamOk(s, t, s.threads[t]))
  {
    RunCore(trace, steps, i);
    assert forall t :: t in trace[i].threads ==> CoreAt(trace[i], t);
  }

  // Both streams of s begin those of s'.
  ghost predicate Grown(s: State, s': State) {
    s.written <= s'.written && s.taken <= s'.taken
  }

  lemma StepGrows(s: State, a: Step)
    requires Core(s) && Enabled(s, a)
    ensures Grown(s, Next(s, a))
  {
    hide Core, Next, Enabled, Put, Drop, Head, Full, IsEmpty;
    StepParts(s, a);
  }

  lemma GrownAgain(s: State, s': State, s'': State)
    requires Grown(s, s') && Grown(s', s'')
    ensures Grown(s, s'')
  {}

  lemma {:induction false} StreamsGrow(trace: seq<State>, steps: seq<Step>, i: nat, j: nat)
    requires IsRun(trace, steps) && i <= j < |trace|
    ensures Grown(trace[i], trace[j])
    decreases j - i
  {
    if i < j {
      hide Next, Enabled, Core, Init, Grown;
      StreamsGrow(trace, steps, i, j - 1);
      assert StepOk(trace, steps, j - 1);
      RunCore(trace, steps, j - 1);
      StepGrows(trace[j - 1], steps[j - 1]);
      GrownAgain(trace[i], trace[j - 1], trace[j]);
    }
  }

  // ----------------------------------------------------------- a lost wakeup

  lemma RunSnoc(trace: seq<State>, steps: seq<Step>, a: Step)
    requires IsRun(trace, steps) && Enabled(trace[|trace| - 1], a)
    ensures IsRun(trace + [Next(trace[|trace| - 1], a)], steps + [a])
  {
    hide Next, Enabled;
    var trace', steps' := trace + [Next(trace[|trace| - 1], a)], steps + [a];
    forall i | 0 <= i < |steps'|
      ensures StepOk(trace', steps', i)
    {
      if i < |steps| {
        assert StepOk(trace, steps, i);
      }
    }
  }

  // A reader sleeps on an empty pipe and a writer of 513 bytes has deposited k.
  ghost predicate Filling(s: State, k: nat) {
    && s.threads == map[0 := Thread(Read(1, []), Asleep, false, true),
                        1 := Thread(Write(seq(PIPESIZE + 1, _ => 0), k), Loop, false, false)]
    && s.tlock == None && s.plock == Some(1)
    && s.readopen && s.writeopen && |s.written| == k && s.taken == []
  }

  ghost predicate ReaderSleeps(s: State) {
    && s.threads == map[0 := Thread(Read(1, []), Asleep, false, true)]
    && s.tlock == None && s.plock == None && s.calls == 1
    && s.readopen && s.writeopen && s.readref && s.writeref && s.written == [] && s.taken == []
  }

  lemma FirstSleep() returns (trace: seq<State>, steps: seq<Step>)
    ensures IsRun(trace, steps) && ReaderSleeps(trace[|trace| - 1])
  {
    var s0 := State(Ring(seq(PIPESIZE, _ => 0), 0, 0), true, true, true, true, None, None, map[], 0, [], [], []);
    var s1 := Next(s0, Enter(0, Read(1, [])));
    var th := Thread(Read(1, []), Acquire, false, false);
    assert s1.threads == map[0 := th];
    var s2 := Next(s1, Run(0));
    assert s2.threads == map[0 := th.(pc := Loop)];
    var s3 := Next(s2, Run(0));
    assert s3.threads == map[0 := th.(pc := SleepEnter)];
    var s4 := Next(s3, Run(0));
    assert s4.threads == map[0 := th.(pc := SleepRelease)];
    var s5 := Next(s4, Run(0));
    assert s5.threads == map[0 := th.(pc := SleepSet)];
    var s6 := Next(s5, Run(0));
    assert s6.threads == map[0 := th.(pc := Asleep, asleep := true)];
    trace := [s0, s1, s2, s3, s4, s5, s6];
    steps := [Enter(0, Read(1, [])), Run(0), Run(0), Run(0), Run(0), Run(0)];
    assert Init(s0);
  }

  // One deposit.
  lemma FillStep(s: State, k: nat)
    requires Core(s) && Filling(s, k) && k < PIPESIZE
    ensures Enabled(s, Run(1)) && Filling(Next(s, Run(1)), k + 1)
  {
    FullIff(s.ring, s.written, s.taken);
    var th := s.threads[1];
    assert s.threads[1 := th.(job := Write(th.job.src, k + 1))]
        == map[0 := s.threads[0], 1 := Thread(Write(th.job.src, k + 1), Loop, false, false)];
  }

  lemma {:induction false} Fill(k: nat) returns (trace: seq<State>, steps: seq<Step>)
    requires k <= PIPESIZE
    ensures |trace| > 0 && IsRun(trace, steps) && Filling(trace[|trace| - 1], k)
  {
    if k == 0 {
      trace, steps := FirstSleep();
      var s, src := trace[|trace| - 1], seq(PIPESIZE + 1, _ => 0);
      var a := Enter(1, Write(src, 0));
      RunSnoc(trace, steps, a);
      var s' := Next(s, a);
      assert s'.threads == map[0 := s.threads[0], 1 := Thread(Write(src, 0), Acquire, false, false)];
      RunSnoc(trace + [s'], steps + [a], Run(1));
      var s'' := Next(s', Run(1));
      assert s''.threads == map[0 := s.threads[0], 1 := Thread(Write(src, 0), Loop, false, false)];
      trace, steps := trace + [s'] + [s''], steps + [a] + [Run(1)];
    } else {
      hide IsRun, Filling;
      trace, steps := Fill(k - 1);
      RunCore(trace, steps, |trace| - 1);
      FillStep(trace[|trace| - 1], k - 1);
      RunSnoc(trace, steps, Run(1));
      trace, steps := trace + [Next(trace[|trace| - 1], Run(1))], steps + [Run(1)];
    }
  }

  lemma KillFull(s: State)
    requires Core(s) && Filling(s, PIPESIZE)
    ensures Enabled(s, Kill(1)) && LosesWakeup(Next(s, Kill(1)), Run(1))
    ensures var s' := Next(Next(s, Kill(1)), Run(1));
            && s'.plock == None && 0 in s'.threads && s'.threads[0].asleep && s'.threads[0].job.Read?
            && Full(s'.ring)
  {
    FullIff(s.ring, s.written, s.taken);
    var s1 := Next(s, Kill(1));
    assert s1.threads[0] == s.threads[0] && Committed(s1.threads[0]);
  }

  // The lossy exit can happen: a run that ends with the pipe full and a reader
  // asleep on it, with nobody left to wake it.
  lemma KilledWriterLosesWakeup() returns (trace: seq<State>, steps: seq<Step>)
    ensures IsRun(trace, steps)
    ensures var s := trace[|trace| - 1];
            && s.plock == None && Full(s.ring)
            && 0 in s.threads && s.threads[0].asleep && s.threads[0].job.Read?
  {
    hide IsRun, Core, Next, LosesWakeup, Filling, Enabled;
    trace, steps := Fill(PIPESIZE);
    var s := trace[|trace| - 1];
    RunCore(trace, steps, |trace| - 1);
    KillFull(s);
    RunSnoc(trace, steps, Kill(1));
    trace, steps := trace + [Next(s, Kill(1))], steps + [Kill(1)];
    RunCore(trace, steps, |trace| - 1);
    Lost(trace[|trace| - 1], Run(1));
    RunSnoc(trace, steps, Run(1));
    trace, steps := trace + [Next(trace[|trace| - 1], Run(1))], steps + [Run(1)];
  }
}
