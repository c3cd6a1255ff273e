/**
 The process table of proc.c as an object: an array of slots scanned and
 updated in place, with ptable.lock held by the caller of each method.
 */
module ProcTable {
  import opened Common
  import opened ProcModel

  class Ptable {
    const procs: array<Proc>
    const init: nat
    var nextpid: nat
    ghost var exited: seq<int>
    ghost var reaped: seq<int>

    ghost predicate Valid()
      reads this, procs
    {
      procs.Length == NPROC && init < NPROC
    }

    ghost function Abs(): (s: State)
      requires Valid()
      reads this, procs
    {
      State(procs[..], init, nextpid, exited, reaped)
    }

    constructor (init: nat)
      requires init < NPROC
      ensures Valid() && fresh(procs) && this.init == init && Init(Abs())
    {
      this.init := init;
      procs := new Proc[NPROC](
        j => if j == init then Proc(RUNNABLE, 1, None, None, false, User) else Proc(UNUSED, 0, None, None, false, User));
      nextpid := 2;
      exited, reaped := [], [];
    }

    method Wakeup1(c: Chan)
      requires Valid()
      modifies procs
      ensures procs[..] == WakeAll(old(procs[..]), c)
      ensures forall k :: 0 <= k < NPROC ==>
                procs[k] == if old(procs[k]).state == SLEEPING && old(procs[k]).chan == Some(c)
                            then old(procs[k]).(state := RUNNABLE) else old(procs[k])
    {
      var j := 0;
      while j < NPROC
        invariant 0 <= j <= NPROC
        invariant forall k :: 0 <= k < j ==> procs[k] == Woken(old(procs[k]), c)
        invariant forall k :: j <= k < NPROC ==> procs[k] == old(procs[k])
      {
        if procs[j].state == SLEEPING && procs[j].chan == Some(c) {
          procs[j] := procs[j].(state := RUNNABLE);
        }
        j := j + 1;
      }
    }

    // exit's scan: the children of slot i become init's, which is woken for a dead one.
    method Abandon(i: nat)
      requires Valid()
      modifies procs
      ensures forall k :: 0 <= k < NPROC ==> procs[k] == ExitSlot(old(procs[..]), i, init, NPROC, k)
    {
      ghost var woken: Table := procs[..];
      var j := 0;
      while j < NPROC
        invariant 0 <= j <= NPROC
        invariant forall k :: 0 <= k < NPROC ==> procs[k] == ExitSlot(woken, i, init, j, k)
      {
        if procs[j].parent == Some(i) {
          procs[j] := procs[j].(parent := Some(init));
          if procs[j].state == ZOMBIE {
            Wakeup1(Slot(init));
          }
        }
        j := j + 1;
      }
    }

    // The table part of exit.
    method Exit(i: nat)
      requires Valid() && Enabled(Abs(), ProcModel.Exit(i))
      modifies procs, this`exited
      ensures Abs() == Next(old(Abs()), ProcModel.Exit(i))
      ensures exited == old(exited) + [old(procs[i]).pid]
      ensures forall k :: 0 <= k < NPROC ==> Departed(old(procs[..]), i, init, k, procs[k])
    {
      hide ExitTable, ExitSlot, Departed;
      ghost var before: Table := procs[..];
      exited := exited + [procs[i].pid];
      if procs[i].parent.Some? {
        Wakeup1(Slot(procs[i].parent.value));
      }
      ghost var woken: Table := procs[..];
      Abandon(i);
      ghost var after: Table := procs[..];
      procs[i] := procs[i].(state := ZOMBIE);
      ExitMatches(before, woken, after, i, init);
      forall k | 0 <= k < NPROC
        ensures Departed(before, i, init, k, procs[k])
      {
        ExitMeans(before, i, init, k);
      }
    }

    // allocproc's scan, for fork by i.
    method AllocProc(i: nat) returns (j: nat)
      requires Valid() && Enabled(Abs(), Alloc(i))
      modifies procs, this`nextpid
      ensures Abs() == Next(old(Abs()), Alloc(i)) && j == FirstUnused(old(procs[..]))
      ensures j <= NPROC && forall k :: 0 <= k < j ==> old(procs[k]).state != UNUSED
      ensures j == NPROC ==> procs[..] == old(procs[..]) && nextpid == old(nextpid)
      ensures j < NPROC ==>
                && old(procs[j]).state == UNUSED && nextpid == old(nextpid) + 1
                && procs[j] == old(procs[j]).(state := EMBRYO, pid := old(nextpid))
                && procs[i] == old(procs[i]).(act := Forking(j, false))
                && forall k :: 0 <= k < NPROC && k != i && k != j ==> procs[k] == old(procs[k])
    {
      hide First, FirstUnused;
      j := 0;
      while j < NPROC && procs[j].state != UNUSED
        invariant 0 <= j <= NPROC
        invariant forall k :: 0 <= k < j ==> procs[k].state != UNUSED
      {
        j := j + 1;
      }
      UnusedIs(procs[..], j);
      if j < NPROC {
        procs[j] := procs[j].(state := EMBRYO, pid := nextpid);
        nextpid := nextpid + 1;
        procs[i] := procs[i].(act := Forking(j, false));
      }
    }

    // One scan of wait's loop, up to returning or going to sleep.
    method Wait(i: nat) returns (r: WaitResult)
      requires Valid() && Enabled(Abs(), ProcModel.Wait(i))
      modifies procs, this`reaped
      ensures Abs() == Next(old(Abs()), ProcModel.Wait(i))
      ensures match r
              case Reaped(pid) => reaped == old(reaped) + [pid] && Reaps(old(procs[..]), i, pid, procs[..])
              case Failed =>
                && reaped == old(reaped)
                && (forall k :: 0 <= k < NPROC && old(procs[k]).parent == Some(i) ==>
                      old(procs[k]).state != ZOMBIE && old(procs[i]).killed)
                && procs[..] == old(procs[..])[i := old(procs[i]).(act := User)]
              case Slept =>
                && reaped == old(reaped) && !old(procs[i]).killed
                && (exists k :: 0 <= k < NPROC && IsChild(old(procs[..]), i, k))
                && (forall k :: 0 <= k < NPROC && old(procs[k]).parent == Some(i) ==> old(procs[k]).state != ZOMBIE)
                && procs[..] == old(procs[..])[i := old(procs[i]).(act := Waiting, chan := Some(Slot(i)), state := SLEEPING)]
    {
      hide First, FirstZombie, Reaps;
      ghost var before: Table := procs[..];
      var havekids, j := false, 0;
      while j < NPROC && !(procs[j].parent == Some(i) && procs[j].state == ZOMBIE)
        invariant 0 <= j <= NPROC && procs[..] == before
        invariant forall k :: 0 <= k < j ==> !(before[k].parent == Some(i) && before[k].state == ZOMBIE)
        invariant havekids <==> exists k :: 0 <= k < j && IsChild(before, i, k)
      {
        if procs[j].parent == Some(i) {
          assert IsChild(before, i, j);
          havekids := true;
        }
        j := j + 1;
      }
      ZombieIs(before, i, j);
      if j < NPROC {
        var me := procs[i].(act := User);
        r := Reaped(procs[j].pid);
        reaped := reaped + [procs[j].pid];
        procs[j] := procs[j].(pid := 0, parent := None, killed := false, state := UNUSED);
        procs[i] := me;
        ReapMeans(before, i, j);
      } else if !havekids || procs[i].killed {
        assert forall k :: 0 <= k < NPROC && before[k].parent == Some(i) ==> IsChild(before, i, k);
        procs[i] := procs[i].(act := User);
        r := Failed;
      } else {
        procs[i] := procs[i].(act := Waiting, chan := Some(Slot(i)), state := SLEEPING);
        r := Slept;
      }
    }

    method Kill(pid: int) returns (found: bool)
      requires Valid()
      modifies procs
      ensures Abs() == Next(old(Abs()), ProcModel.Kill(pid))
      ensures found <==> exists j :: 0 <= j < NPROC && old(procs[j]).pid == pid
      ensures !found ==> procs[..] == old(procs[..])
      ensures found ==> exists j :: 0 <= j < NPROC && KillsSlot(old(procs[..]), pid, j, procs[..])
    {
      hide First, FirstPid;
      ghost var before: Table := procs[..];
      var j := 0;
      while j < NPROC && procs[j].pid != pid
        invariant 0 <= j <= NPROC
        invariant forall k :: 0 <= k < j ==> procs[k].pid != pid
      {
        j := j + 1;
      }
      PidIs(procs[..], pid, j);
      found := j < NPROC;
      if found {
        procs[j] := procs[j].(killed := true, state := if procs[j].state == SLEEPING then RUNNABLE else procs[j].state);
        assert KillsSlot(before, pid, j, procs[..]);
      }
    }
  }

  // The first slot with the pid is marked and, if it slept on any channel, made
  // runnable; nothing else changes.
  predicate KillsSlot(before: Table, pid: int, j: nat, after: Table)
    requires j < NPROC
  {
    && before[j].pid == pid && (forall k :: 0 <= k < j ==> before[k].pid != pid)
    && after[j].killed && after[j].state == (if before[j].state == SLEEPING then RUNNABLE else before[j].state)
    && after[j] == before[j].(killed := true, state := after[j].state)
    && forall k :: 0 <= k < NPROC && k != j ==> after[k] == before[k]
  }

  // The first zombie child of i, of this pid, is gone and its slot is free; i is back
  // from wait, and nothing else changes.
  ghost predicate Reaps(before: Table, i: nat, pid: int, after: Table)
    requires i < NPROC
  {
    exists z :: 0 <= z < NPROC && ReapsSlot(before, i, pid, after, z)
  }

  predicate ReapsSlot(before: Table, i: nat, pid: int, after: Table, z: nat)
    requires i < NPROC && z < NPROC
  {
    && before[z].parent == Some(i) && before[z].state == ZOMBIE && before[z].pid == pid
    && (forall k :: 0 <= k < z ==> !(before[k].parent == Some(i) && before[k].state == ZOMBIE))
    && (z != i ==> after[z].state == UNUSED && after[z].parent == None && after[z].pid == 0 && !after[z].killed)
    && after[i] == before[i].(act := User)
    && forall k :: 0 <= k < NPROC && k != i && k != z ==> after[k] == before[k]
  }

  lemma ReapMeans(before: Table, i: nat, z: nat)
    requires i < NPROC && z < NPROC && before[z].parent == Some(i) && before[z].state == ZOMBIE
    requires forall k :: 0 <= k < z ==> !(before[k].parent == Some(i) && before[k].state == ZOMBIE)
    ensures Reaps(before, i, before[z].pid, before[z := Cleared(before[z])][i := before[i].(act := User)])
  {
    assert ReapsSlot(before, i, before[z].pid, before[z := Cleared(before[z])][i := before[i].(act := User)], z);
  }

  // exit of slot i, seen from slot k: a child goes to init, i itself is a zombie,
  // and a sleeper is woken if it is i's parent in wait, or init in wait while i
  // has a zombie child.
  ghost predicate Departed(before: Table, i: nat, init: nat, k: nat, q: Proc)
    requires i < NPROC && k < NPROC
  {
    var p := before[k];
    && q.pid == p.pid && q.chan == p.chan && q.killed == p.killed && q.act == p.act
    && q.parent == (if p.parent == Some(i) then Some(init) else p.parent)
    && (k == i ==> q.state == ZOMBIE)
    && (k != i ==> q.state == if p.state == SLEEPING && WakesOnExit(before, i, init, p.chan) then RUNNABLE else p.state)
  }

  ghost predicate WakesOnExit(before: Table, i: nat, init: nat, chan: Option<Chan>)
    requires i < NPROC
  {
    || (before[i].parent.Some? && chan == Some(Slot(before[i].parent.value)))
    || (chan == Some(Slot(init)) && exists j :: 0 <= j < NPROC && IsChild(before, i, j) && before[j].state == ZOMBIE)
  }

  lemma ExitMeans(before: Table, i: nat, init: nat, k: nat)
    requires i < NPROC && k < NPROC
    ensures Departed(before, i, init, k, ExitTable(before, i, init)[k])
  {}

  datatype WaitResult = Reaped(pid: int) | Failed | Slept

  lemma ZombieIs(procs: Table, i: nat, j: nat)
    requires j <= NPROC && forall k :: 0 <= k < j ==> !(procs[k].parent == Some(i) && procs[k].state == ZOMBIE)
    requires j < NPROC ==> procs[j].parent == Some(i) && procs[j].state == ZOMBIE
    ensures FirstZombie(procs, i) == j
  {}

  lemma PidIs(procs: Table, pid: int, j: nat)
    requires j <= NPROC && forall k :: 0 <= k < j ==> procs[k].pid != pid
    requires j < NPROC ==> procs[j].pid == pid
    ensures FirstPid(procs, pid) == j
  {}

  lemma UnusedIs(procs: Table, j: nat)
    requires j <= NPROC && forall k :: 0 <= k < j ==> procs[k].state != UNUSED
    requires j < NPROC ==> procs[j].state == UNUSED
    ensures FirstUnused(procs) == j
  {}

  // A child of i below slot j has exited.
  predicate ZombieBelow(procs: Table, i: nat, j: nat) {
    exists k :: 0 <= k < j && k < NPROC && IsChild(procs, i, k) && procs[k].state == ZOMBIE
  }

  // Slot k once exit's loop has handled the slots below j.
  function ExitSlot(procs: Table, i: nat, init: nat, j: nat, k: nat): (r: Proc)
    requires k < NPROC
  {
    var p := if ZombieBelow(procs, i, j) then Woken(procs[k], Slot(init)) else procs[k];
    if k < j then Reparented(p, i, init) else p
  }

  lemma ExitMatches(before: Table, woken: Table, after: Table, i: nat, init: nat)
    requires i < NPROC
    requires woken == if before[i].parent.Some? then WakeAll(before, Slot(before[i].parent.value)) else before
    requires forall k :: 0 <= k < NPROC ==> after[k] == ExitSlot(woken, i, init, NPROC, k)
    ensures after[i := after[i].(state := ZOMBIE)] == ExitTable(before, i, init)
  {
    assert forall k :: 0 <= k < NPROC ==>
        woken[k].parent == before[k].parent && (woken[k].state == ZOMBIE <==> before[k].state == ZOMBIE);
    assert ZombieBelow(woken, i, NPROC) == OrphansZombie(before, i) by {
      if k :| 0 <= k < NPROC && IsChild(woken, i, k) && woken[k].state == ZOMBIE {
        assert IsChild(before, i, k);
      }
      if k :| 0 <= k < NPROC && IsChild(before, i, k) && before[k].state == ZOMBIE {
        assert IsChild(woken, i, k);
      }
    }
  }
}
