/**
 What the calls on a pipe return: how many bytes a read takes, when a write has
 put its bytes in the stream, and when either gives up with -1.
 */
module PipeResults {
  import opened Common
  import opened PipeModel
  import opened PipeSafety

  // How many bytes piperead may copy.
  function Want(n: int): (r: nat) {
    if n < 0 then 0 else n
  }

  function Min(a: nat, b: nat): (r: nat) {
    if a < b then a else b
  }

  // Past the copy loop of piperead or the deposits of pipewrite.
  predicate Done(pc: Pc) {
    pc == Wake(false) || pc == Waking(false) || pc == Release
  }

  // Past the wait of piperead.
  predicate Copying(pc: Pc) {
    pc.Copy? || Done(pc)
  }

  // What call t returns on leaving in state s.
  function Returned(s: State, t: nat): (r: int)
    requires t in s.threads
  {
    var th := s.threads[t];
    if th.pc.Loop? then -1
    else match th.job
         case Read(_, got) => |got|
         case Write(src, _) => |src|
         case Close(_) => 0
  }

  // The unread bytes.
  function Unread(s: State): (r: seq<int>) {
    if |s.taken| <= |s.written| then s.written[|s.taken|..] else []
  }

  // --------------------------------------------------------------- each step

  // Where t is next, away from the loops and from wakeup1.
  predicate Plain(pc: Pc) {
    !pc.Loop? && !pc.Copy? && !pc.Waking? && !pc.Release?
  }

  function After(pc: Pc): (r: Pc) {
    match pc
    case Acquire => Loop
    case Wake(again) => Waking(again)
    case SleepEnter => SleepRelease
    case SleepRelease => SleepSet
    case SleepSet => Asleep
    case Asleep => Woken
    case _ => Acquire
  }

  // The step changes the call t alone, to th, and not the pipe.
  ghost predicate Only(s: State, s': State, t: nat, th: Thread) {
    s'.threads == s.threads[t := th] && s'.written == s.written && s'.taken == s.taken
  }

  ghost predicate Gone(s: State, s': State, t: nat) {
    s'.threads == s.threads - {t} && s'.written == s.written && s'.taken == s.taken
  }

  // Taking a lock.
  lemma GainStep(s: State, t: nat)
    requires t in s.threads
    requires var pc := s.threads[t].pc; pc.Acquire? || pc.Wake? || pc.SleepEnter? || pc.Asleep?
    ensures Only(s, RunNext(s, t), t, s.threads[t].(pc := After(s.threads[t].pc)))
  {
    hide Wakeup, WriteStep, ReadStep, CopyStep, CloseStep, Leave;
  }

  // Giving one up.
  lemma DropStep(s: State, t: nat)
    requires t in s.threads
    requires var pc := s.threads[t].pc; pc.SleepRelease? || pc.SleepSet? || pc.Woken?
    ensures var th := s.threads[t]; Only(s, RunNext(s, t), t, th.(pc := After(th.pc), asleep := th.asleep || th.pc.SleepSet?))
  {
    hide Wakeup, WriteStep, ReadStep, CopyStep, CloseStep, Leave;
  }

  lemma PlainStep(s: State, t: nat)
    requires t in s.threads && Plain(s.threads[t].pc)
    ensures var th := s.threads[t]; Only(s, RunNext(s, t), t, th.(pc := After(th.pc), asleep := th.asleep || th.pc.SleepSet?))
  {
    hide RunNext;
    var pc := s.threads[t].pc;
    if pc.SleepRelease? || pc.SleepSet? || pc.Woken? {
      DropStep(s, t);
    } else {
      GainStep(s, t);
    }
  }

  lemma ReleaseStep(s: State, t: nat)
    requires t in s.threads && s.threads[t].pc.Release?
    ensures Gone(s, RunNext(s, t), t)
  {
    hide Wakeup, WriteStep, ReadStep, CopyStep, CloseStep, Goto;
  }

  lemma WakingStep(s: State, t: nat)
    requires t in s.threads && s.threads[t].pc.Waking?
    ensures var s', th := RunNext(s, t), s.threads[t];
            && s'.threads.Keys == s.threads.Keys && s'.written == s.written && s'.taken == s.taken
            && s'.threads[t].job == th.job && s'.threads[t].pc == (if th.pc.again then SleepEnter else Release)
            && forall u :: u in s.threads && u != t ==> s'.threads[u].job == s.threads[u].job && s'.threads[u].pc == s.threads[u].pc
  {
    hide WriteStep, ReadStep, CopyStep, CloseStep, Leave;
  }

  lemma ReadLoop(s: State, t: nat)
    requires t in s.threads && s.threads[t].pc.Loop? && s.threads[t].job.Read?
    ensures var s', th := RunNext(s, t), s.threads[t];
            if IsEmpty(s.ring) && s.writeopen then
              if th.killed then Gone(s, s', t) else Only(s, s', t, th.(pc := SleepEnter))
            else Only(s, s', t, th.(pc := Copy))
  {
    hide Wakeup, WriteStep, CopyStep, CloseStep, IsEmpty;
  }

  lemma CloseLoop(s: State, t: nat)
    requires t in s.threads && s.threads[t].pc.Loop? && s.threads[t].job.Close?
    ensures Only(s, RunNext(s, t), t, s.threads[t].(pc := Wake(false)))
  {
    hide Wakeup, WriteStep, ReadStep, CopyStep, Leave;
  }

  lemma WriteLoop(s: State, t: nat)
    requires t in s.threads && s.threads[t].pc.Loop? && s.threads[t].job.Write?
    ensures var s', th := RunNext(s, t), s.threads[t];
            if th.job.i >= |th.job.src| then Only(s, s', t, th.(pc := Wake(false)))
            else if Full(s.ring) then
              if !s.readopen || th.killed then Gone(s, s', t) else Only(s, s', t, th.(pc := Wake(true)))
            else
              && s'.threads == s.threads[t := th.(job := th.job.(i := th.job.i + 1))]
              && s'.written == s.written + [th.job.src[th.job.i]]
  {
    hide Wakeup, ReadStep, CopyStep, CloseStep, Full, Put;
  }

  lemma CopyLoop(s: State, t: nat)
    requires t in s.threads && s.threads[t].pc.Copy? && s.threads[t].job.Read?
    ensures var s', th := RunNext(s, t), s.threads[t];
            if |th.job.got| >= th.job.n || IsEmpty(s.ring) then Only(s, s', t, th.(pc := Wake(false)))
            else
              && s'.threads == s.threads[t := th.(job := th.job.(got := th.job.got + [Head(s.ring)]))]
              && s'.taken == s.taken + [Head(s.ring)] && s'.written == s.written
  {
    hide Wakeup, ReadStep, WriteStep, CloseStep, IsEmpty, Head, Drop, Leave;
  }

  // Steps of others leave a call where it is, and the pipe too while it holds
  // p->lock.
  ghost predicate Stays(s: State, s': State, t: nat) {
    && t in s.threads && t in s'.threads
    && s'.threads[t].job == s.threads[t].job && s'.threads[t].pc == s.threads[t].pc
    && (s.plock == Some(t) ==> s'.written == s.written && s'.taken == s.taken)
  }

  ghost predicate Kept(s: State, s': State, u: nat) {
    && (u in s'.threads <==> u in s.threads)
    && (u in s.threads ==> s'.threads[u].job == s.threads[u].job && s'.threads[u].pc == s.threads[u].pc)
  }

  lemma RunOther(s: State, t: nat, u: nat)
    requires Core(s) && t in s.threads && u != t
    ensures Kept(s, RunNext(s, t), u)
    ensures !HoldsPipe(s.threads[t].pc) ==> RunNext(s, t).written == s.written && RunNext(s, t).taken == s.taken
  {
    hide RunNext, Core, IsEmpty, Full, Head;
    CopyIsRead(s, t);
    match s.threads[t].pc
    case Loop =>
      match s.threads[t].job {
        case Read(_, _) => ReadLoop(s, t);
        case Write(_, _) => WriteLoop(s, t);
        case Close(_) => CloseLoop(s, t);
      }
    case Copy => CopyLoop(s, t);
    case Waking(_) => WakingStep(s, t);
    case Release => ReleaseStep(s, t);
    case _ => PlainStep(s, t);
  }

  lemma OutsideOther(s: State, a: Step, u: nat)
    requires Enabled(s, a) && !a.Run? && (a.Enter? ==> u != a.t)
    ensures Kept(s, Next(s, a), u) && Next(s, a).written == s.written && Next(s, a).taken == s.taken
  {}

  lemma Others(s: State, a: Step, t: nat)
    requires Core(s) && Enabled(s, a) && t in s.threads && a != Run(t)
    ensures Stays(s, Next(s, a), t)
  {
    hide Core, RunNext;
    CorePart(s, t);
    if a.Run? {
      CorePart(s, a.t);
      RunOther(s, a.t, t);
    } else {
      OutsideOther(s, a, t);
    }
  }

  lemma CorePart(s: State, t: nat)
    requires Core(s) && t in s.threads
    ensures |s.written| == |s.authors| && CoreAt(s, t) && s.taken <= s.written
  {}

  // ------------------------------------------------------------------- reads

  // Call t is about to leave piperead's wait, because there are bytes or no
  // writer is left.
  predicate Begins(s: State, t: nat) {
    && t in s.threads && s.threads[t].job.Read?
    && (Unread(s) != [] || !s.writeopen)
  }

  // What call t has copied since state s: the oldest bytes unread then.
  ghost predicate Copied(s: State, s': State, t: nat) {
    && t in s.threads && s.threads[t].job.Read? && t in s'.threads && s'.threads[t].job.Read?
    && s'.threads[t].job.n == s.threads[t].job.n
    && var n, got := s.threads[t].job.n, s'.threads[t].job.got;
       && s'.written == s.written && s'.taken == s.taken + got
       && |got| <= Want(n) && got <= Unread(s)
       && (Done(s'.threads[t].pc) ==> |got| == Min(Want(n), |Unread(s)|))
  }

  lemma CopyOne(s0: State, s: State, t: nat)
    requires Core(s) && Copied(s0, s, t) && s.threads[t].pc.Copy? && s0.taken <= s0.written
    ensures Copied(s0, RunNext(s, t), t)
  {
    hide Core, RunNext, IsEmpty, Head;
    CoreRing(s);
    CopyLoop(s, t);
    EmptyIff(s);
    var got := s.threads[t].job.got;
    assert |s.written| - |s.taken| == |Unread(s0)| - |got|;
    if |got| < s.threads[t].job.n && !IsEmpty(s.ring) {
      HeadIs(s.ring, s.written, s.taken);
      MoreCopied(s0.written, s0.taken, got);
    }
  }

  lemma EmptyIff(s: State)
    requires PipeModel.Holds(s.ring, s.written, s.taken)
    ensures s.taken <= s.written && (IsEmpty(s.ring) <==> |s.taken| == |s.written|)
  {
    FullIff(s.ring, s.written, s.taken);
  }

  lemma MoreCopied(written: seq<int>, taken: seq<int>, got: seq<int>)
    requires taken <= written && got <= written[|taken|..] && |taken + got| < |written|
    ensures taken + (got + [written[|taken + got|]]) == taken + got + [written[|taken + got|]]
    ensures got + [written[|taken + got|]] <= written[|taken|..]
  {}

  lemma CoreRing(s: State)
    requires Core(s)
    ensures PipeModel.Holds(s.ring, s.written, s.taken)
  {}

  lemma HeadIs(r: Ring, written: seq<int>, taken: seq<int>)
    requires PipeModel.Holds(r, written, taken) && !IsEmpty(r)
    ensures |taken| < |written| && Head(r) == written[|taken|]
  {
    FullIff(r, written, taken);
    Wraps(|taken|);
  }

  lemma FinishCopy(s0: State, s: State, t: nat)
    requires Copied(s0, s, t) && Done(s.threads[t].pc) && s.threads[t].pc != Release
    ensures Copied(s0, RunNext(s, t), t)
  {
    hide RunNext, Unread;
    if s.threads[t].pc.Waking? {
      WakingStep(s, t);
    } else {
      PlainStep(s, t);
    }
  }

  lemma BeginCopy(s: State, t: nat)
    requires Core(s) && t in s.threads && s.threads[t].job.Read? && s.threads[t].pc.Loop?
    requires t in RunNext(s, t).threads && Copying(RunNext(s, t).threads[t].pc)
    ensures Begins(s, t) && Copied(s, RunNext(s, t), t)
  {
    hide Core, RunNext, IsEmpty;
    CorePart(s, t);
    CoreRing(s);
    EmptyIff(s);
    ReadLoop(s, t);
    assert s.taken + [] == s.taken;
  }

  lemma ThreadPart(s: State, t: nat)
    requires Core(s) && t in s.threads
    ensures ThreadOk(s.threads[t])
  {
    CorePart(s, t);
  }

  // The step of t itself that leaves it past its loop.
  lemma Self(s: State, t: nat)
    requires Core(s) && t in s.threads && t in RunNext(s, t).threads && Copying(RunNext(s, t).threads[t].pc)
    ensures s.threads[t].pc.Loop? || (Copying(s.threads[t].pc) && s.threads[t].pc != Release)
    ensures RunNext(s, t).threads[t].job.Read? <==> s.threads[t].job.Read?
    ensures RunNext(s, t).threads[t].job.Write? <==> s.threads[t].job.Write?
    ensures s.threads[t].job.Write? ==>
              && RunNext(s, t).threads[t].job == s.threads[t].job
              && (if s.threads[t].pc.Loop? then s.threads[t].job.i == |s.threads[t].job.src| else Done(s.threads[t].pc))
  {
    hide Core, RunNext, IsEmpty, Full, Head;
    ThreadPart(s, t);
    match s.threads[t].pc
    case Loop =>
      match s.threads[t].job {
        case Read(_, _) => ReadLoop(s, t);
        case Write(_, _) => WriteLoop(s, t);
        case Close(_) => CloseLoop(s, t);
      }
    case Copy => CopyLoop(s, t);
    case Waking(_) => WakingStep(s, t);
    case Release => ReleaseStep(s, t);
    case _ => PlainStep(s, t);
  }

  // A read past its wait has copied the oldest bytes unread when the wait ended.
  lemma {:induction false} ReadTakes(trace: seq<State>, steps: seq<Step>, k: nat, t: nat) returns (i: nat)
    requires IsRun(trace, steps) && k < |trace| && t in trace[k].threads
    requires trace[k].threads[t].job.Read? && Copying(trace[k].threads[t].pc)
    ensures i < k && Begins(trace[i], t) && Copied(trace[i], trace[k], t)
  {
    hide Core, Next, Enabled, Copied, Begins, Init;
    NotAtFirst(trace, steps, k, t);
    var s, a := trace[k - 1], steps[k - 1];
    RunCore(trace, steps, k - 1);
    assert StepOk(trace, steps, k - 1);
    if a == Run(t) {
      RunIs(s, t);
      Self(s, t);
      if s.threads[t].pc.Loop? {
        i := k - 1;
        BeginCopy(s, t);
      } else {
        i := ReadTakes(trace, steps, k - 1, t);
        RunCore(trace, steps, i);
        CorePart(trace[i], t) by {
          CopiedFrom(trace[i], s, t);
        }
        if s.threads[t].pc.Copy? {
          CopyOne(trace[i], s, t);
        } else {
          FinishCopy(trace[i], s, t);
        }
      }
    } else {
      JustEntered(s, a, t);
      Others(s, a, t);
      CorePart(s, t);
      i := ReadTakes(trace, steps, k - 1, t);
      CopiedStays(trace[i], s, trace[k], t);
    }
  }

  lemma NotAtFirst(trace: seq<State>, steps: seq<Step>, k: nat, t: nat)
    requires IsRun(trace, steps) && k < |trace| && t in trace[k].threads
    ensures k > 0
  {}

  lemma RunIs(s: State, t: nat)
    requires Enabled(s, Run(t))
    ensures t in s.threads && Next(s, Run(t)) == RunNext(s, t)
  {
    hide RunNext;
  }

  lemma JustEntered(s: State, a: Step, t: nat)
    requires Core(s) && Enabled(s, a) && a != Run(t) && t in Next(s, a).threads && Copying(Next(s, a).threads[t].pc)
    ensures t in s.threads
  {
    hide Core, RunNext;
    if a.Run? {
      RunOther(s, a.t, t);
    }
  }

  lemma CopiedFrom(s: State, s': State, t: nat)
    requires Copied(s, s', t)
    ensures t in s.threads
  {}

  lemma CopiedStays(s0: State, s: State, s': State, t: nat)
    requires Copied(s0, s, t) && Stays(s, s', t) && s.plock == Some(t)
    ensures Copied(s0, s', t)
  {}

  // piperead returns -1 only to a killed process that finds the pipe empty and
  // a writer left. Otherwise it returns the oldest unread bytes, n of them or
  // as many as there were, and none only at the end of the stream or for no n.
  lemma ReadReturns(trace: seq<State>, steps: seq<Step>, k: nat, t: nat)
    requires IsRun(trace, steps) && k < |steps| && t in trace[k].threads && trace[k].threads[t].job.Read?
    requires t !in trace[k + 1].threads
    ensures steps[k] == Run(t)
    ensures var s := trace[k];
            if Returned(s, t) == -1 then s.threads[t].killed && Unread(s) == [] && s.writeopen && s.threads[t].job.got == []
            else exists i :: 0 <= i < k && Begins(trace[i], t)
                             && trace[i].threads[t].job.n == s.threads[t].job.n
                             && Returned(s, t) == Min(Want(s.threads[t].job.n), |Unread(trace[i])|)
                             && s.threads[t].job.got == Unread(trace[i])[..Returned(s, t)]
  {
    hide Core, Next, Enabled, Copied, Begins, Init;
    RunCore(trace, steps, k);
    assert StepOk(trace, steps, k);
    LeavesBy(trace[k], steps[k], t);
    CoreRing(trace[k]);
    FullIff(trace[k].ring, trace[k].written, trace[k].taken);
    if trace[k].threads[t].pc.Release? {
      var i := ReadTakes(trace, steps, k, t);
      CopiedMeans(trace[i], trace[k], t);
    }
  }

  lemma CopiedMeans(s: State, s': State, t: nat)
    requires Copied(s, s', t) && Done(s'.threads[t].pc)
    ensures t in s.threads && s.threads[t].job.Read? && s'.threads[t].job.Read?
    ensures s.threads[t].job.n == s'.threads[t].job.n
    ensures var k := Min(Want(s.threads[t].job.n), |Unread(s)|); |s'.threads[t].job.got| == k && s'.threads[t].job.got == Unread(s)[..k]
  {}

  lemma LeavesBy(s: State, a: Step, t: nat)
    requires Core(s) && Enabled(s, a) && t in s.threads && t !in Next(s, a).threads
    ensures a == Run(t) && (s.threads[t].pc.Loop? || s.threads[t].pc.Release?)
    ensures s.threads[t].pc.Loop? && s.threads[t].job.Read? ==> s.threads[t].killed && IsEmpty(s.ring) && s.writeopen && s.threads[t].job.got == []
    ensures s.threads[t].pc.Loop? && s.threads[t].job.Write? ==>
              Full(s.ring) && (!s.readopen || s.threads[t].killed) && s.threads[t].job.i < |s.threads[t].job.src|
  {
    hide Core, RunNext, IsEmpty, Full, Head;
    CorePart(s, t);
    if a != Run(t) {
      Others(s, a, t);
    } else {
      match s.threads[t].pc
      case Loop =>
        match s.threads[t].job {
          case Read(_, _) => ReadLoop(s, t);
          case Write(_, _) => WriteLoop(s, t);
          case Close(_) => CloseLoop(s, t);
        }
      case Copy => CopyLoop(s, t);
      case Waking(_) => WakingStep(s, t);
      case Release =>
      case _ => PlainStep(s, t);
    }
  }

  // ------------------------------------------------------------------ writes

  lemma {:induction false} WriteDone(trace: seq<State>, steps: seq<Step>, k: nat, t: nat)
    requires IsRun(trace, steps) && k < |trace| && t in trace[k].threads
    requires trace[k].threads[t].job.Write? && Done(trace[k].threads[t].pc)
    ensures trace[k].threads[t].job.i == |trace[k].threads[t].job.src|
  {
    hide Core, Next, Enabled, Init;
    NotAtFirst(trace, steps, k, t);
    var s, a := trace[k - 1], steps[k - 1];
    RunCore(trace, steps, k - 1);
    assert StepOk(trace, steps, k - 1);
    if a == Run(t) {
      RunIs(s, t);
      Self(s, t);
      if Done(s.threads[t].pc) {
        WriteDone(trace, steps, k - 1, t);
      }
    } else {
      JustEntered(s, a, t);
      Others(s, a, t);
      WriteDone(trace, steps, k - 1, t);
    }
  }

  // pipewrite returns -1 only with the pipe full and no reader left or the
  // writer killed. Otherwise all its bytes are in the stream, in order.
  lemma WriteReturns(trace: seq<State>, steps: seq<Step>, k: nat, t: nat)
    requires IsRun(trace, steps) && k < |steps| && t in trace[k].threads && trace[k].threads[t].job.Write?
    requires t !in trace[k + 1].threads
    ensures steps[k] == Run(t)
    ensures var s := trace[k];
            var src := s.threads[t].job.src;
            if Returned(s, t) == -1 then
              |Unread(s)| == PIPESIZE && (!s.readopen || s.threads[t].killed) && s.threads[t].job.i < |src|
            else
              Returned(s, t) == |src| && |s.written| == |s.authors| && Sent(s.written, s.authors, t) == src
  {
    hide Core, Next, Enabled, Init;
    RunCore(trace, steps, k);
    assert StepOk(trace, steps, k);
    LeavesBy(trace[k], steps[k], t);
    CoreRing(trace[k]);
    FullIff(trace[k].ring, trace[k].written, trace[k].taken);
    CorePart(trace[k], t);
    if trace[k].threads[t].pc.Release? {
      WriteDone(trace, steps, k, t);
    }
  }

  // -------------------------------------------------------------------- waits

  // What a reader does at its test: it sleeps exactly on an empty pipe with a
  // writer left, unless it has been killed and leaves.
  lemma ReaderDecides(trace: seq<State>, steps: seq<Step>, k: nat, t: nat)
    requires IsRun(trace, steps) && k < |steps| && steps[k] == Run(t)
    requires t in trace[k].threads && trace[k].threads[t].pc.Loop? && trace[k].threads[t].job.Read?
    ensures var s, s' := trace[k], trace[k + 1];
            var th := s.threads[t];
            var wait := Unread(s) == [] && s.writeopen;
            && (t !in s'.threads <==> wait && th.killed)
            && (t in s'.threads ==> s'.threads[t] == th.(pc := if wait then SleepEnter else Copy))
  {
    hide Core, RunNext, Init, IsEmpty;
    RunCore(trace, steps, k);
    assert StepOk(trace, steps, k);
    CoreRing(trace[k]);
    EmptyIff(trace[k]);
    ReadLoop(trace[k], t);
  }

  // What a writer does: it deposits its next byte while there is room, and on a
  // full pipe sleeps, after a wakeup, unless it has no reader or has been killed.
  lemma WriterDecides(trace: seq<State>, steps: seq<Step>, k: nat, t: nat)
    requires IsRun(trace, steps) && k < |steps| && steps[k] == Run(t)
    requires t in trace[k].threads && trace[k].threads[t].pc.Loop? && trace[k].threads[t].job.Write?
    ensures var s, s' := trace[k], trace[k + 1];
            var th := s.threads[t];
            var more, full := th.job.i < |th.job.src|, |Unread(s)| == PIPESIZE;
            && (t !in s'.threads <==> more && full && (!s.readopen || th.killed))
            && (more && !full ==> s'.written == s.written + [th.job.src[th.job.i]]
                                  && s'.threads[t] == th.(job := th.job.(i := th.job.i + 1)))
            && (t in s'.threads && (!more || full) ==> s'.written == s.written && s'.threads[t] == th.(pc := Wake(more)))
  {
    hide Core, RunNext, Init, Full;
    RunCore(trace, steps, k);
    assert StepOk(trace, steps, k);
    CoreRing(trace[k]);
    FullIff(trace[k].ring, trace[k].written, trace[k].taken);
    WriteLoop(trace[k], t);
  }
}
