/**
 What every run of fork, exit, wait, sleep, wakeup and kill keeps.
 */
module ProcSafety {
  import opened Common
  import opened ProcModel

  // The slot's own state: who its parent is, and what a forker holds.
  ghost predicate SlotInv(s: State, j: nat)
    requires j < NPROC && s.init < NPROC
  {
    var p := s.procs[j];
    && (p.state == UNUSED ==> p.parent == None)
    // Every parent is alive, and only init has none.
    && (p.parent.Some? ==> p.parent.value < NPROC && p.parent.value != j && Alive(s.procs[p.parent.value]))
    && (Alive(p) || p.state == ZOMBIE ==> p.parent.Some? || j == s.init)
    && (j == s.init ==> Alive(p) && p.parent == None)
    // A forker is alive and its child is an embryo, linked to it or to none.
    && (!Alive(p) ==> p.act == User)
    && (p.act.Forking? ==>
          && p.act.child < NPROC && p.act.child != j && s.procs[p.act.child].state == EMBRYO
          && s.procs[p.act.child].parent == if p.act.linked then Some(j) else None)
    && (p.state == EMBRYO && p.parent.Some? ==> s.procs[p.parent.value].act == Forking(j, true))
    // pids in use are below nextpid.
    && (p.state != UNUSED ==> 0 < p.pid < s.nextpid)
    && p.pid < s.nextpid
    && (p.chan == Some(Slot(j)) && p.state == SLEEPING ==> p.act == Waiting)
    && (p.act == Waiting && p.state == SLEEPING ==> p.chan == Some(Slot(j)))
    && (p.chan.Some? && p.chan.value.Slot? ==> p.chan.value == Slot(j))
  }

  // A sleeper in wait has a child, has not been killed, and has no zombie child.
  ghost predicate WaitInv(s: State, j: nat)
    requires j < NPROC
  {
    var p := s.procs[j];
    p.state == SLEEPING && p.act == Waiting ==>
      && HasKids(s.procs, j) && !p.killed
      && forall k :: 0 <= k < NPROC && IsChild(s.procs, j, k) ==> s.procs[k].state != ZOMBIE
  }

  // No two slots in use share a pid; no two forkers share a child.
  ghost predicate PairInv(s: State, j: nat, k: nat)
    requires j < NPROC && k < NPROC
  {
    var p, q := s.procs[j], s.procs[k];
    j != k ==>
      && (p.state != UNUSED && q.state != UNUSED ==> p.pid != q.pid)
      && (p.act.Forking? && q.act.Forking? ==> p.act.child != q.act.child)
  }

  // An exited process is a zombie or has been returned by one wait.
  ghost predicate ExitInv(s: State) {
    && Distinct(s.exited) && Distinct(s.reaped)
    && (forall x :: x in s.reaped ==> x in s.exited)
    && (forall x :: x in s.exited ==> 0 < x < s.nextpid)
    && (forall j :: 0 <= j < NPROC && s.procs[j].state == ZOMBIE ==> s.procs[j].pid in s.exited && s.procs[j].pid !in s.reaped)
    && (forall j :: 0 <= j < NPROC && (Alive(s.procs[j]) || s.procs[j].state == EMBRYO) ==> s.procs[j].pid !in s.exited)
    && (forall x :: x in s.exited && x !in s.reaped ==> IsZombie(s, x))
  }

  ghost predicate IsZombie(s: State, x: int) {
    exists j :: 0 <= j < NPROC && s.procs[j].state == ZOMBIE && s.procs[j].pid == x
  }

  ghost predicate Inv(s: State) {
    && s.init < NPROC && s.nextpid > 0
    && (forall j {:trigger SlotInv(s, j)} :: 0 <= j < NPROC ==> SlotInv(s, j))
    && (forall j {:trigger WaitInv(s, j)} :: 0 <= j < NPROC ==> WaitInv(s, j))
    && (forall j, k {:trigger PairInv(s, j, k)} :: 0 <= j < NPROC && 0 <= k < NPROC ==> PairInv(s, j, k))
    && ExitInv(s)
  }

  lemma InitInv(s: State)
    requires Init(s)
    ensures Inv(s)
  {}

  // -------------------------------------------------------------------- exit

  predicate WokenByExit(procs: Table, i: nat, init: nat, p: Proc)
    requires i < NPROC
  {
    p.state == SLEEPING && p.chan.Some?
    && ((procs[i].parent.Some? && p.chan.value == Slot(procs[i].parent.value)) || (OrphansZombie(procs, i) && p.chan.value == Slot(init)))
  }

  // exit's effect on one slot.
  lemma ExitAt(procs: Table, i: nat, init: nat, j: nat)
    requires i < NPROC && j < NPROC
    ensures var p, q := procs[j], ExitTable(procs, i, init)[j];
            && q == p.(state := q.state, parent := q.parent)
            && q.parent == (if p.parent == Some(i) then Some(init) else p.parent)
            && q.state == if j == i then ZOMBIE else if WokenByExit(procs, i, init, p) then RUNNABLE else p.state
  {}

  lemma ExitSlot(s: State, i: nat, j: nat)
    requires Inv(s) && Enabled(s, Exit(i)) && j < NPROC
    ensures SlotInv(Next(s, Exit(i)), j)
  {
    hide ExitTable, ExitInv, WaitInv, PairInv;
    assert SlotInv(s, j) && SlotInv(s, i) && SlotInv(s, s.init);
    ExitAt(s.procs, i, s.init, j);
    ExitAt(s.procs, i, s.init, s.init);
    if s.procs[j].parent.Some? {
      assert SlotInv(s, s.procs[j].parent.value);
      ExitAt(s.procs, i, s.init, s.procs[j].parent.value);
    }
    if s.procs[j].act.Forking? {
      ExitAt(s.procs, i, s.init, s.procs[j].act.child);
    }
  }

  // A waiter stays asleep only if none of its children, old or inherited,
  // is a zombie.
  lemma ExitWait(s: State, i: nat, j: nat)
    requires Inv(s) && Enabled(s, Exit(i)) && j < NPROC
    ensures WaitInv(Next(s, Exit(i)), j)
  {
    hide ExitTable, ExitInv, PairInv;
    var s' := Next(s, Exit(i));
    ExitAt(s.procs, i, s.init, j);
    assert SlotInv(s, j) && SlotInv(s, i) && WaitInv(s, j);
    if s'.procs[j].state == SLEEPING && s'.procs[j].act == Waiting {
      var k :| 0 <= k < NPROC && IsChild(s.procs, j, k);
      ExitAt(s.procs, i, s.init, k);
      assert IsChild(s'.procs, j, k);
      forall k | 0 <= k < NPROC && IsChild(s'.procs, j, k)
        ensures s'.procs[k].state != ZOMBIE
      {
        ExitAt(s.procs, i, s.init, k);
        assert IsChild(s.procs, j, k) || IsChild(s.procs, i, k);
      }
    }
  }

  lemma ExitPair(s: State, i: nat, j: nat, k: nat)
    requires Inv(s) && Enabled(s, Exit(i)) && j < NPROC && k < NPROC
    ensures PairInv(Next(s, Exit(i)), j, k)
  {
    hide ExitTable, ExitInv, WaitInv, SlotInv;
    assert PairInv(s, j, k);
    ExitAt(s.procs, i, s.init, j);
    ExitAt(s.procs, i, s.init, k);
  }

  lemma DistinctSnoc(s: seq<int>, x: int)
    requires Distinct(s) && x !in s
    ensures Distinct(s + [x])
  {}

  lemma ExitExit(s: State, i: nat)
    requires Inv(s) && Enabled(s, Exit(i))
    ensures ExitInv(Next(s, Exit(i)))
  {
    hide ExitTable, WaitInv;
    var s', pid := Next(s, Exit(i)), s.procs[i].pid;
    DistinctSnoc(s.exited, pid);
    assert SlotInv(s, i);
    forall j | 0 <= j < NPROC
      ensures s'.procs[j].pid == s.procs[j].pid
      ensures s'.procs[j].state == ZOMBIE <==> s.procs[j].state == ZOMBIE || j == i
      ensures Alive(s'.procs[j]) || s'.procs[j].state == EMBRYO ==>
                s'.procs[j].pid !in s'.exited
    {
      ExitAt(s.procs, i, s.init, j);
      assert PairInv(s, i, j);
    }
    forall x | x in s'.exited && x !in s'.reaped
      ensures IsZombie(s', x)
    {
      if x == pid {
        assert s'.procs[i].state == ZOMBIE && s'.procs[i].pid == x;
      } else {
        var j :| 0 <= j < NPROC && s.procs[j].state == ZOMBIE && s.procs[j].pid == x;
        assert s'.procs[j].state == ZOMBIE && s'.procs[j].pid == x;
      }
    }
    assert pid !in s.reaped;
  }

  lemma ExitKeeps(s: State, i: nat)
    requires Inv(s) && Enabled(s, Exit(i))
    ensures Inv(Next(s, Exit(i)))
  {
    hide ExitTable, ExitInv, SlotInv, WaitInv, PairInv;
    var s' := Next(s, Exit(i));
    ExitExit(s, i);
    forall j | 0 <= j < NPROC
      ensures SlotInv(s', j) && WaitInv(s', j)
    {
      ExitSlot(s, i, j);
      ExitWait(s, i, j);
    }
    forall j, k | 0 <= j < NPROC && 0 <= k < NPROC
      ensures PairInv(s', j, k)
    {
      ExitPair(s, i, j, k);
    }
  }

  // ------------------------- sleep, wakeup, kill, scheduling: no tie changes

  ghost predicate QuietAt(p: Proc, q: Proc, j: nat) {
    && q == p.(state := q.state, chan := q.chan, killed := q.killed)
    && (Alive(p) <==> Alive(q))
    && (!Alive(p) ==> q.state == p.state)
    && (q.state == SLEEPING && q.act == Waiting ==> p.state == SLEEPING && q.killed == p.killed && q.chan == p.chan)
    && (q.chan.Some? && q.chan.value.Slot? ==> q.chan == p.chan && (q.state == SLEEPING ==> p.state == SLEEPING))
  }

  ghost predicate Quiet(s: State, s': State) {
    && s'.init == s.init && s'.nextpid == s.nextpid && s'.exited == s.exited && s'.reaped == s.reaped
    && forall j {:trigger QuietAt(s.procs[j], s'.procs[j], j)} :: 0 <= j < NPROC ==> QuietAt(s.procs[j], s'.procs[j], j)
  }

  lemma QuietSlot(s: State, s': State, j: nat)
    requires Inv(s) && Quiet(s, s') && j < NPROC
    ensures SlotInv(s', j)
  {
    hide ExitInv, WaitInv, PairInv;
    assert SlotInv(s, j) && QuietAt(s.procs[j], s'.procs[j], j);
    var p := s.procs[j];
    if p.parent.Some? {
      assert QuietAt(s.procs[p.parent.value], s'.procs[p.parent.value], p.parent.value);
    }
    if p.act.Forking? {
      assert QuietAt(s.procs[p.act.child], s'.procs[p.act.child], p.act.child);
    }
  }

  lemma QuietWait(s: State, s': State, j: nat)
    requires Inv(s) && Quiet(s, s') && j < NPROC
    ensures WaitInv(s', j)
  {
    hide ExitInv, SlotInv, PairInv;
    assert WaitInv(s, j) && QuietAt(s.procs[j], s'.procs[j], j);
    forall k | 0 <= k < NPROC
      ensures IsChild(s'.procs, j, k) <==> IsChild(s.procs, j, k)
      ensures s'.procs[k].state == ZOMBIE <==> s.procs[k].state == ZOMBIE
    {
      assert QuietAt(s.procs[k], s'.procs[k], k);
    }
  }

  lemma QuietExit(s: State, s': State)
    requires Inv(s) && Quiet(s, s')
    ensures ExitInv(s')
  {
    hide SlotInv, PairInv, WaitInv;
    forall j | 0 <= j < NPROC
      ensures s'.procs[j].pid == s.procs[j].pid && (s'.procs[j].state == ZOMBIE <==> s.procs[j].state == ZOMBIE)
      ensures Alive(s'.procs[j]) || s'.procs[j].state == EMBRYO <==> Alive(s.procs[j]) || s.procs[j].state == EMBRYO
    {
      assert QuietAt(s.procs[j], s'.procs[j], j);
    }
    forall x | x in s'.exited && x !in s'.reaped
      ensures IsZombie(s', x)
    {
      var j :| 0 <= j < NPROC && s.procs[j].state == ZOMBIE && s.procs[j].pid == x;
      assert s'.procs[j].state == ZOMBIE && s'.procs[j].pid == x;
    }
  }

  lemma QuietKeeps(s: State, s': State)
    requires Inv(s) && Quiet(s, s')
    ensures Inv(s')
  {
    hide ExitInv, SlotInv, WaitInv;
    QuietExit(s, s');
    forall j | 0 <= j < NPROC
      ensures SlotInv(s', j) && WaitInv(s', j)
    {
      QuietSlot(s, s', j);
      QuietWait(s, s', j);
    }
    forall j, k | 0 <= j < NPROC && 0 <= k < NPROC
      ensures PairInv(s', j, k)
    {
      assert PairInv(s, j, k) && QuietAt(s.procs[j], s'.procs[j], j) && QuietAt(s.procs[k], s'.procs[k], k);
    }
  }

  lemma QuietSteps(s: State, a: Step)
    requires Inv(s) && Enabled(s, a)
    requires a.Sleep? || a.Wakeup? || a.Kill? || a.Schedule? || a.Yield?
    ensures Quiet(s, Next(s, a))
  {
    hide ExitInv, WaitInv, PairInv;
    var s' := Next(s, a);
    forall j | 0 <= j < NPROC
      ensures QuietAt(s.procs[j], s'.procs[j], j)
    {
      assert SlotInv(s, j);
    }
  }

  // -------------------------------------------------------------------- wait

  // wait returns the pid of zombie child z.
  function Reap(s: State, i: nat, z: nat): (r: State)
    requires i < NPROC && z < NPROC
  {
    s.(procs := s.procs[z := Cleared(s.procs[z])][i := s.procs[i].(act := User)], reaped := s.reaped + [s.procs[z].pid])
  }

  predicate CanReap(s: State, i: nat, z: nat) {
    Running(s, i) && z < NPROC && IsChild(s.procs, i, z) && s.procs[z].state == ZOMBIE
  }

  lemma ReapSlot(s: State, i: nat, z: nat, j: nat)
    requires Inv(s) && CanReap(s, i, z) && !s.procs[i].act.Forking? && j < NPROC
    ensures SlotInv(Reap(s, i, z), j)
  {
    hide ExitInv, WaitInv, PairInv;
    assert SlotInv(s, j) && SlotInv(s, i) && SlotInv(s, z);
    var p := s.procs[j];
    if p.parent.Some? {
      assert SlotInv(s, p.parent.value);
    }
  }

  lemma ReapWait(s: State, i: nat, z: nat, j: nat)
    requires Inv(s) && CanReap(s, i, z) && j < NPROC
    ensures WaitInv(Reap(s, i, z), j)
  {
    hide ExitInv, PairInv;
    var s' := Reap(s, i, z);
    assert SlotInv(s, z) && WaitInv(s, j);
    if s'.procs[j].state == SLEEPING && s'.procs[j].act == Waiting {
      var k :| 0 <= k < NPROC && IsChild(s.procs, j, k);
      assert IsChild(s'.procs, j, k);
      forall k | 0 <= k < NPROC && IsChild(s'.procs, j, k)
        ensures s'.procs[k].state != ZOMBIE
      {
        assert IsChild(s.procs, j, k);
      }
    }
  }

  lemma ReapPair(s: State, i: nat, z: nat, j: nat, k: nat)
    requires Inv(s) && CanReap(s, i, z) && j < NPROC && k < NPROC
    ensures PairInv(Reap(s, i, z), j, k)
  {
    hide ExitInv, WaitInv, SlotInv;
    assert PairInv(s, j, k);
  }

  lemma ReapExit(s: State, i: nat, z: nat)
    requires Inv(s) && CanReap(s, i, z)
    ensures ExitInv(Reap(s, i, z))
  {
    hide WaitInv, SlotInv;
    var s' := Reap(s, i, z);
    DistinctSnoc(s.reaped, s.procs[z].pid);
    forall j | 0 <= j < NPROC && j != z
      ensures s'.procs[j].pid == s.procs[j].pid && s'.procs[j].state == s.procs[j].state
      ensures s.procs[j].state == ZOMBIE ==> s.procs[j].pid != s.procs[z].pid
    {
      assert PairInv(s, j, z);
    }
    forall x | x in s'.exited && x !in s'.reaped
      ensures IsZombie(s', x)
    {
      var j :| 0 <= j < NPROC && s.procs[j].state == ZOMBIE && s.procs[j].pid == x;
      assert s'.procs[j].state == ZOMBIE && s'.procs[j].pid == x;
    }
  }

  lemma ReapKeeps(s: State, i: nat, z: nat)
    requires Inv(s) && CanReap(s, i, z) && !s.procs[i].act.Forking?
    ensures Inv(Reap(s, i, z))
  {
    hide ExitInv, SlotInv, WaitInv, PairInv;
    var s' := Reap(s, i, z);
    ReapExit(s, i, z);
    forall j | 0 <= j < NPROC
      ensures SlotInv(s', j) && WaitInv(s', j)
    {
      ReapSlot(s, i, z, j);
      ReapWait(s, i, z, j);
    }
    forall j, k | 0 <= j < NPROC && 0 <= k < NPROC
      ensures PairInv(s', j, k)
    {
      ReapPair(s, i, z, j, k);
    }
  }

  // wait returns -1, or goes to sleep: only the caller's slot changes.
  ghost predicate OnlyCaller(s: State, s': State, i: nat) {
    && Running(s, i)
    && s' == s.(procs := s.procs[i := s'.procs[i]])
    && !s.procs[i].act.Forking?
    && s'.procs[i] == s.procs[i].(act := s'.procs[i].act, state := s'.procs[i].state, chan := s'.procs[i].chan)
    && ((s'.procs[i].act == User && s'.procs[i].state == RUNNING && s'.procs[i].chan == s.procs[i].chan)
        || (s'.procs[i].act == Waiting && s'.procs[i].state == SLEEPING && s'.procs[i].chan == Some(Slot(i))
            && HasKids(s.procs, i) && !s.procs[i].killed
            && forall k :: 0 <= k < NPROC && IsChild(s.procs, i, k) ==> s.procs[k].state != ZOMBIE))
  }

  lemma CallerSlot(s: State, s': State, i: nat, j: nat)
    requires Inv(s) && OnlyCaller(s, s', i) && j < NPROC
    ensures SlotInv(s', j)
  {
    hide ExitInv, WaitInv, PairInv, HasKids;
    assert SlotInv(s, j) && SlotInv(s, i);
    var p := s.procs[j];
    if p.parent.Some? {
      assert SlotInv(s, p.parent.value);
    }
  }

  lemma CallerWait(s: State, s': State, i: nat, j: nat)
    requires Inv(s) && OnlyCaller(s, s', i) && j < NPROC
    ensures WaitInv(s', j)
  {
    hide ExitInv, PairInv, SlotInv;
    assert WaitInv(s, j);
    forall k | 0 <= k < NPROC
      ensures IsChild(s'.procs, j, k) <==> IsChild(s.procs, j, k)
      ensures s'.procs[k].state == ZOMBIE <==> s.procs[k].state == ZOMBIE
    {}
    if s'.procs[j].state == SLEEPING && s'.procs[j].act == Waiting {
      var k :| 0 <= k < NPROC && IsChild(s.procs, j, k);
      assert IsChild(s'.procs, j, k);
    }
  }

  lemma CallerExit(s: State, s': State, i: nat)
    requires Inv(s) && OnlyCaller(s, s', i)
    ensures ExitInv(s')
  {
    hide SlotInv, PairInv, WaitInv, HasKids;
    forall x | x in s'.exited && x !in s'.reaped
      ensures IsZombie(s', x)
    {
      var j :| 0 <= j < NPROC && s.procs[j].state == ZOMBIE && s.procs[j].pid == x;
      assert s'.procs[j].state == ZOMBIE && s'.procs[j].pid == x;
    }
  }

  lemma CallerKeeps(s: State, s': State, i: nat)
    requires Inv(s) && OnlyCaller(s, s', i)
    ensures Inv(s')
  {
    hide ExitInv, SlotInv, WaitInv, HasKids;
    CallerExit(s, s', i);
    forall j | 0 <= j < NPROC
      ensures SlotInv(s', j) && WaitInv(s', j)
    {
      CallerSlot(s, s', i, j);
      CallerWait(s, s', i, j);
    }
    forall j, k | 0 <= j < NPROC && 0 <= k < NPROC
      ensures PairInv(s', j, k)
    {
      assert PairInv(s, j, k);
    }
  }

  lemma ZombieFound(procs: Table, i: nat)
    requires FirstZombie(procs, i) < NPROC
    ensures IsChild(procs, i, FirstZombie(procs, i)) && procs[FirstZombie(procs, i)].state == ZOMBIE
  {}

  lemma NoZombie(procs: Table, i: nat)
    requires FirstZombie(procs, i) == NPROC
    ensures forall k :: 0 <= k < NPROC && IsChild(procs, i, k) ==> procs[k].state != ZOMBIE
  {}

  lemma WaitKeeps(s: State, i: nat)
    requires Inv(s) && Enabled(s, Wait(i))
    ensures Inv(WaitNext(s, i))
  {
    hide Inv, First;
    var z := FirstZombie(s.procs, i);
    if z < NPROC {
      ZombieFound(s.procs, i);
      ReapKeeps(s, i, z);
    } else {
      NoZombie(s.procs, i);
      hide FirstZombie;
      CallerKeeps(s, WaitNext(s, i), i);
    }
  }

  // -------------------------------------------------------------------- fork

  // The steps of fork by i on the embryo c: allocate, fail, link, finish.
  ghost predicate ForkTo(s: State, s': State, i: nat, c: nat, a: Step) {
    && i < NPROC && c < NPROC && i != c
    && s.procs[i].state == RUNNING
    && s'.init == s.init && s'.exited == s.exited && s'.reaped == s.reaped
    && s'.procs == s.procs[i := s.procs[i].(act := s'.procs[i].act)][c := s'.procs[c]]
    && match a
       case Alloc(_) =>
         && s.procs[i].act == User && s.procs[c].state == UNUSED && s'.nextpid == s.nextpid + 1
         && s'.procs[c] == s.procs[c].(state := EMBRYO, pid := s.nextpid) && s'.procs[i].act == Forking(c, false)
       case ForkFail(_) =>
         && s.procs[i].act == Forking(c, false) && s'.nextpid == s.nextpid
         && s'.procs[c] == s.procs[c].(state := UNUSED) && s'.procs[i].act == User
       case ForkLink(_) =>
         && s.procs[i].act == Forking(c, false) && s'.nextpid == s.nextpid
         && s'.procs[c] == s.procs[c].(parent := Some(i)) && s'.procs[i].act == Forking(c, true)
       case ForkDone(_) =>
         && s.procs[i].act == Forking(c, true) && s'.nextpid == s.nextpid
         && s'.procs[c] == s.procs[c].(state := RUNNABLE, act := User) && s'.procs[i].act == User
       case _ => false
  }

  lemma ForkSlot(s: State, s': State, i: nat, c: nat, a: Step, j: nat)
    requires Inv(s) && ForkTo(s, s', i, c, a) && j < NPROC
    ensures SlotInv(s', j)
  {
    hide ExitInv, WaitInv;
    assert SlotInv(s, j) && SlotInv(s, i) && SlotInv(s, c) && PairInv(s, i, j);
    var p := s.procs[j];
    if p.parent.Some? {
      assert SlotInv(s, p.parent.value);
    }
  }

  lemma ForkWait(s: State, s': State, i: nat, c: nat, a: Step, j: nat)
    requires Inv(s) && ForkTo(s, s', i, c, a) && j < NPROC
    ensures WaitInv(s', j)
  {
    hide ExitInv, PairInv;
    assert WaitInv(s, j) && SlotInv(s, j) && SlotInv(s, c) && SlotInv(s, i);
    if s'.procs[j].state == SLEEPING && s'.procs[j].act == Waiting {
      var k :| 0 <= k < NPROC && IsChild(s.procs, j, k);
      assert IsChild(s'.procs, j, k);
      forall k | 0 <= k < NPROC && IsChild(s'.procs, j, k)
        ensures s'.procs[k].state != ZOMBIE
      {
        assert IsChild(s.procs, j, k);
      }
    }
  }

  lemma ForkPair(s: State, s': State, i: nat, c: nat, a: Step, j: nat, k: nat)
    requires Inv(s) && ForkTo(s, s', i, c, a) && j < NPROC && k < NPROC
    ensures PairInv(s', j, k)
  {
    hide ExitInv, WaitInv;
    assert PairInv(s, j, k) && SlotInv(s, j) && SlotInv(s, k) && SlotInv(s, c) && SlotInv(s, i);
  }

  lemma ForkExit(s: State, s': State, i: nat, c: nat, a: Step)
    requires Inv(s) && ForkTo(s, s', i, c, a)
    ensures ExitInv(s')
  {
    hide WaitInv, PairInv;
    assert SlotInv(s, c) && SlotInv(s, i);
    forall x | x in s'.exited && x !in s'.reaped
      ensures IsZombie(s', x)
    {
      var j :| 0 <= j < NPROC && s.procs[j].state == ZOMBIE && s.procs[j].pid == x;
      assert s'.procs[j].state == ZOMBIE && s'.procs[j].pid == x;
    }
  }

  lemma ForkKeeps(s: State, s': State, i: nat, c: nat, a: Step)
    requires Inv(s) && ForkTo(s, s', i, c, a)
    ensures Inv(s')
  {
    hide ExitInv, SlotInv, WaitInv, PairInv;
    ForkExit(s, s', i, c, a);
    forall j | 0 <= j < NPROC
      ensures SlotInv(s', j) && WaitInv(s', j)
    {
      ForkSlot(s, s', i, c, a, j);
      ForkWait(s, s', i, c, a, j);
    }
    forall j, k | 0 <= j < NPROC && 0 <= k < NPROC
      ensures PairInv(s', j, k)
    {
      ForkPair(s, s', i, c, a, j, k);
    }
  }

  lemma ForkSteps(s: State, a: Step)
    requires Inv(s) && Enabled(s, a) && (a.Alloc? || a.ForkFail? || a.ForkLink? || a.ForkDone?)
    ensures Inv(Next(s, a))
  {
    hide ExitInv, WaitInv, PairInv;
    assert SlotInv(s, a.i);
    var c := if a.Alloc? then FirstUnused(s.procs) else s.procs[a.i].act.child;
    if c < NPROC {
      ForkKeeps(s, Next(s, a), a.i, c, a);
    }
  }

  // ---------------------------------------------------------------- every run

  lemma StepKeeps(s: State, a: Step)
    requires Inv(s) && Enabled(s, a)
    ensures Inv(Next(s, a))
  {
    hide Inv, ExitTable, WaitNext;
    match a
    case Exit(i) => ExitKeeps(s, i);
    case Wait(i) => WaitKeeps(s, i);
    case Alloc(_) => ForkSteps(s, a);
    case ForkFail(_) => ForkSteps(s, a);
    case ForkLink(_) => ForkSteps(s, a);
    case ForkDone(_) => ForkSteps(s, a);
    case _ =>
      QuietSteps(s, a);
      QuietKeeps(s, Next(s, a));
  }

  lemma {:induction false} RunInv(trace: seq<State>, steps: seq<Step>, i: nat)
    requires IsRun(trace, steps) && i < |trace|
    ensures Inv(trace[i])
  {
    hide Inv, Enabled, Next, Init;
    if i == 0 {
      InitInv(trace[0]);
    } else {
      RunInv(trace, steps, i - 1);
      assert StepOk(trace, steps, i - 1);
      StepKeeps(trace[i - 1], steps[i - 1]);
    }
  }

  // With ptable.lock free, who sleeps in wait has a child to wait for, and none
  // of its children has exited.
  lemma SleepingWaiters(trace: seq<State>, steps: seq<Step>, i: nat, j: nat)
    requires IsRun(trace, steps) && i < |trace| && j < NPROC
    requires trace[i].procs[j].state == SLEEPING && trace[i].procs[j].chan == Some(Slot(j))
    ensures exists k :: 0 <= k < NPROC && IsChild(trace[i].procs, j, k)
    ensures forall k :: 0 <= k < NPROC && trace[i].procs[k].parent == Some(j) ==> trace[i].procs[k].state != ZOMBIE
  {
    hide IsRun, ExitInv, PairInv;
    RunInv(trace, steps, i);
    assert SlotInv(trace[i], j) && WaitInv(trace[i], j);
    forall k | 0 <= k < NPROC && trace[i].procs[k].parent == Some(j)
      ensures trace[i].procs[k].state != ZOMBIE
    {
      assert IsChild(trace[i].procs, j, k);
    }
  }

  // Nobody's parent is an unused, embryonic or dead slot; nobody but init is
  // without a parent once it runs or has exited.
  lemma ParentsAlive(trace: seq<State>, steps: seq<Step>, i: nat, j: nat)
    requires IsRun(trace, steps) && i < |trace| && j < NPROC
    ensures var p := trace[i].procs[j];
            && (p.parent.Some? ==> p.parent.value < NPROC && Alive(trace[i].procs[p.parent.value]))
            && (Alive(p) || p.state == ZOMBIE ==> p.parent.Some? || j == trace[i].init)
  {
    hide IsRun, ExitInv, PairInv, WaitInv;
    RunInv(trace, steps, i);
    assert SlotInv(trace[i], j);
  }

  // Each pid that exits is returned by at most one wait, and until then it is a
  // zombie that its living parent can still reap.
  lemma ReapedOnce(trace: seq<State>, steps: seq<Step>, i: nat)
    requires IsRun(trace, steps) && i < |trace|
    ensures var s := trace[i];
            && Distinct(s.exited) && Distinct(s.reaped)
            && (forall x :: x in s.reaped ==> x in s.exited)
            && (forall x :: x in s.exited && x !in s.reaped ==>
                  exists j :: 0 <= j < NPROC && s.procs[j].state == ZOMBIE && s.procs[j].pid == x)
            && (forall j :: 0 <= j < NPROC && s.procs[j].state == ZOMBIE ==>
                  s.procs[j].pid in s.exited && s.procs[j].pid !in s.reaped && s.procs[j].parent.Some?)
  {
    hide IsRun, PairInv, WaitInv;
    RunInv(trace, steps, i);
    var s := trace[i];
    forall x | x in s.exited && x !in s.reaped
      ensures exists j :: 0 <= j < NPROC && s.procs[j].state == ZOMBIE && s.procs[j].pid == x
    {
      assert IsZombie(s, x);
    }
    forall j | 0 <= j < NPROC && s.procs[j].state == ZOMBIE
      ensures s.procs[j].parent.Some?
    {
      assert SlotInv(s, j);
    }
  }

  // When fork finishes, its child is runnable, has the caller for a parent and a
  // pid of its own, and nothing else has changed but the caller's return.
  lemma ForkedChild(trace: seq<State>, steps: seq<Step>, n: nat, i: nat)
    requires IsRun(trace, steps) && n < |steps| && steps[n] == ForkDone(i)
    ensures i < NPROC && trace[n].procs[i].act.Forking? && trace[n].procs[i].act.child < NPROC
    ensures var s, s', j := trace[n], trace[n + 1], trace[n].procs[i].act.child;
            && j != i && s.procs[j].state == EMBRYO
            && s'.procs[j].state == RUNNABLE && s'.procs[j].parent == Some(i) && s'.procs[j].act == User
            && 0 < s'.procs[j].pid < s'.nextpid
            && (forall k :: 0 <= k < NPROC && k != j && s'.procs[k].state != UNUSED ==> s'.procs[k].pid != s'.procs[j].pid)
            && s'.procs[i] == s.procs[i].(act := User)
            && (forall k :: 0 <= k < NPROC && k != i && k != j ==> s'.procs[k] == s.procs[k])
  {
    hide ExitInv, WaitInv, WaitNext, ExitTable;
    assert StepOk(trace, steps, n);
    RunInv(trace, steps, n);
    RunInv(trace, steps, n + 1);
    var s', j := trace[n + 1], trace[n].procs[i].act.child;
    assert SlotInv(trace[n], i) && SlotInv(s', j);
    forall k | 0 <= k < NPROC && k != j && s'.procs[k].state != UNUSED
      ensures s'.procs[k].pid != s'.procs[j].pid
    {
      assert PairInv(s', j, k);
    }
  }
}
