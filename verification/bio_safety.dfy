/**
 What every run of the buffer cache keeps.
 */
module BioSafety {
  import opened Common
  import opened BioModel

  // The uses of buffer b.
  function Users(refs: map<nat, Ref>, b: nat): (r: set<nat>) {
    set t | t in refs && refs[t].buf == b
  }

  // The list names every buffer once.
  ghost predicate OrderInv(order: seq<nat>) {
    && |order| == NBUF && Distinct(order)
    && (forall i :: 0 <= i < NBUF ==> order[i] < NBUF)
    && (forall b :: 0 <= b < NBUF ==> b in order)
  }

  // One buffer: its users are counted, its holder is one of them, an idle or
  // unlocked one has no change pending, and a clean one agrees with the disk.
  ghost predicate BufInv(s: State, b: nat)
    requires b < NBUF
  {
    var p := s.bufs[b];
    && p.refcnt == |Users(s.refs, b)|
    && (p.holder.Some? ==> p.holder.value in s.refs && s.refs[p.holder.value] == Ref(b, Holding))
    && (p.touched ==> p.holder.Some? && p.valid)
    && (p.dirty ==> p.valid)
    && (p.valid ==> p.dev == ROOTDEV && p.block < |s.disk|)
    && (p.valid && !p.dirty && !p.touched ==> p.data == s.disk[p.block])
  }

  ghost predicate RefInv(s: State, t: nat)
    requires t in s.refs
  {
    && s.refs[t].buf < NBUF
    && (s.refs[t].phase == Holding ==> s.bufs[s.refs[t].buf].holder == Some(t))
  }

  // No two buffers hold one block of a device.
  predicate OneCopy(p: Buf, q: Buf) {
    p.dev != 0 ==> !(p.dev == q.dev && p.block == q.block)
  }

  ghost predicate Inv(s: State) {
    && OrderInv(s.order)
    && (forall b {:trigger BufInv(s, b)} :: 0 <= b < NBUF ==> BufInv(s, b))
    && (forall t {:trigger RefInv(s, t)} :: t in s.refs ==> RefInv(s, t))
    && (forall b, c {:trigger OneCopy(s.bufs[b], s.bufs[c])} :: 0 <= b < NBUF && 0 <= c < NBUF && b != c ==> OneCopy(s.bufs[b], s.bufs[c]))
  }

  lemma InitInv(s: State)
    requires Init(s)
    ensures Inv(s)
  {
    forall b | 0 <= b < NBUF
      ensures b in s.order
    {
      assert s.order[NBUF - 1 - b] == b;
    }
    forall b | 0 <= b < NBUF
      ensures BufInv(s, b)
    {
      assert Users(s.refs, b) == {};
    }
  }

  // ------------------------------------------- steps of the holder on its buffer

  // Only buffer b and the phase of its user t change, and not what it holds.
  ghost predicate Local(s: State, s': State, t: nat, b: nat) {
    && t in s.refs && s.refs[t].buf == b && b < NBUF
    && s'.order == s.order && |s'.disk| == |s.disk|
    && t in s'.refs && s'.refs == s.refs[t := s'.refs[t]] && s'.refs[t].buf == b
    && s'.bufs == s.bufs[b := s'.bufs[b]]
    && s'.bufs[b].dev == s.bufs[b].dev && s'.bufs[b].block == s.bufs[b].block
    && s'.bufs[b].refcnt == s.bufs[b].refcnt
    && (forall x :: 0 <= x < |s.disk| && !(s.bufs[b].dev == ROOTDEV && x == s.bufs[b].block) ==> s'.disk[x] == s.disk[x])
  }

  lemma LocalUsers(s: State, s': State, t: nat, b: nat, c: nat)
    requires Local(s, s', t, b)
    ensures Users(s'.refs, c) == Users(s.refs, c)
  {}

  lemma LocalOther(s: State, s': State, t: nat, b: nat, c: nat)
    requires Inv(s) && Local(s, s', t, b) && c < NBUF && c != b
    requires forall u :: u in s.refs && s.refs[u].buf != b ==> s'.refs[u] == s.refs[u]
    ensures BufInv(s', c)
  {
    hide OrderInv;
    LocalUsers(s, s', t, b, c);
    assert BufInv(s, c) && OneCopy(s.bufs[c], s.bufs[b]);
    if s.bufs[c].holder.Some? {
      assert s.bufs[c].holder.value != t;
    }
  }

  lemma LocalKeeps(s: State, s': State, t: nat, b: nat)
    requires Inv(s) && Local(s, s', t, b)
    requires BufInv(s', b) && RefInv(s', t)
    requires forall u :: u in s.refs && u != t ==> s.refs[u] != Ref(b, Holding)
    ensures Inv(s')
  {
    hide BufInv;
    assert OrderInv(s'.order);
    forall c | 0 <= c < NBUF
      ensures BufInv(s', c)
    {
      if c != b {
        LocalOther(s, s', t, b, c);
      }
    }
    forall u | u in s'.refs
      ensures RefInv(s', u)
    {
      if u != t {
        assert RefInv(s, u);
      }
    }
    forall c, e | 0 <= c < NBUF && 0 <= e < NBUF && c != e
      ensures OneCopy(s'.bufs[c], s'.bufs[e])
    {
      assert OneCopy(s.bufs[c], s.bufs[e]);
    }
  }

  lemma HolderSteps(s: State, a: Step)
    requires Inv(s) && Enabled(s, a) && !a.Get? && !a.Drop?
    ensures Inv(Next(s, a))
  {
    hide OrderInv, Users, OneCopy;
    var b, s' := s.refs[a.t].buf, Next(s, a);
    assert RefInv(s, a.t) && BufInv(s, b);
    LocalUsers(s, s', a.t, b, b);
    forall u | u in s.refs && u != a.t
      ensures s.refs[u] != Ref(b, Holding)
    {
      assert RefInv(s, u);
    }
    LocalKeeps(s, s', a.t, b);
  }

  // ------------------------------------------------------------------- bget

  lemma HolderCounts(s: State, b: nat)
    requires b < NBUF && BufInv(s, b)
    ensures s.bufs[b].holder.Some? ==> s.bufs[b].refcnt > 0
  {
    if s.bufs[b].holder.Some? {
      assert s.bufs[b].holder.value in Users(s.refs, b);
    }
  }

  // A buffer nobody uses is unlocked and has no change pending.
  lemma UnusedIsFree(s: State, b: nat)
    requires Inv(s) && b < NBUF && s.bufs[b].refcnt == 0
    ensures Users(s.refs, b) == {} && s.bufs[b].holder == None && !s.bufs[b].touched
  {
    hide OrderInv, OneCopy;
    assert BufInv(s, b);
    HolderCounts(s, b);
    assert Users(s.refs, b) == {};
  }

  // No buffer at all holds a block that the scan did not find.
  lemma NotCached(s: State, dev: nat, block: nat, c: nat)
    requires Inv(s) && Find(s.bufs, s.order, dev, block).None? && c < NBUF
    ensures !Matches(s.bufs[c], dev, block)
  {
    hide BufInv, RefInv, OneCopy;
    assert c in s.order;
  }

  // What bget does to the chosen buffer b.
  ghost predicate Gets(s: State, s': State, t: nat, b: nat, dev: nat, block: nat) {
    && t !in s.refs && b < NBUF
    && s'.order == s.order && s'.disk == s.disk
    && s'.refs == s.refs[t := Ref(b, Waiting)]
    && (|| (Matches(s.bufs[b], dev, block) && s'.bufs == s.bufs[b := s.bufs[b].(refcnt := s.bufs[b].refcnt + 1)])
        || (Idle(s.bufs[b]) && (forall c :: 0 <= c < NBUF ==> !Matches(s.bufs[c], dev, block))
            && s'.bufs == s.bufs[b := s.bufs[b].(dev := dev, block := block, valid := false, dirty := false, refcnt := 1)]))
  }

  lemma GetsBuf(s: State, s': State, t: nat, b: nat, dev: nat, block: nat, c: nat)
    requires Inv(s) && Gets(s, s', t, b, dev, block) && c < NBUF
    ensures BufInv(s', c)
  {
    hide OrderInv, OneCopy;
    assert BufInv(s, c);
    if c == b {
      assert Users(s'.refs, b) == Users(s.refs, b) + {t};
      if s.bufs[b].refcnt == 0 {
        UnusedIsFree(s, b);
      }
    } else {
      assert Users(s'.refs, c) == Users(s.refs, c);
    }
  }

  lemma GetsKeeps(s: State, s': State, t: nat, b: nat, dev: nat, block: nat)
    requires Inv(s) && Gets(s, s', t, b, dev, block)
    ensures Inv(s')
  {
    hide BufInv;
    assert OrderInv(s'.order);
    forall c | 0 <= c < NBUF
      ensures BufInv(s', c)
    {
      GetsBuf(s, s', t, b, dev, block, c);
    }
    forall u | u in s'.refs
      ensures RefInv(s', u)
    {
      if u != t {
        assert RefInv(s, u);
      }
    }
    forall c, e | 0 <= c < NBUF && 0 <= e < NBUF && c != e
      ensures OneCopy(s'.bufs[c], s'.bufs[e])
    {
      assert OneCopy(s.bufs[c], s.bufs[e]);
    }
  }

  lemma GetKeeps(s: State, t: nat, dev: nat, block: nat)
    requires Inv(s) && Enabled(s, Get(t, dev, block))
    ensures Inv(Next(s, Get(t, dev, block)))
  {
    hide Inv;
    var b := GetBuf(s, dev, block).value;
    if Find(s.bufs, s.order, dev, block).None? {
      forall c | 0 <= c < NBUF
        ensures !Matches(s.bufs[c], dev, block)
      {
        NotCached(s, dev, block, c);
      }
    }
    GetsKeeps(s, Next(s, Get(t, dev, block)), t, b, dev, block);
  }

  // ----------------------------------------------------------------- brelse

  lemma {:induction false} WithoutAt(order: seq<nat>, b: nat, k: nat)
    requires k < |order| && order[k] == b && forall i :: 0 <= i < k ==> order[i] != b
    ensures Without(order, b) == order[..k] + order[k + 1..]
  {
    if k > 0 {
      WithoutAt(order[1..], b, k - 1);
      assert order[1..][..k - 1] == order[1..k] && order[1..][k..] == order[k + 1..];
      assert [order[0]] + order[1..k] == order[..k];
    }
  }

  // Element i of the list with b moved to the front from position k.
  lemma MovedAt(order: seq<nat>, b: nat, k: nat, i: nat)
    requires k < |order| && order[k] == b && (forall j :: 0 <= j < k ==> order[j] != b) && i < |order|
    ensures |[b] + Without(order, b)| == |order|
    ensures ([b] + Without(order, b))[i] == if i == 0 then b else if i <= k then order[i - 1] else order[i]
  {
    WithoutAt(order, b, k);
  }

  // order' is order with b taken out of its place and put in front.
  ghost predicate MovedFront(order: seq<nat>, order': seq<nat>, b: nat) {
    exists k :: 0 <= k < |order| && order[k] == b && order' == [b] + order[..k] + order[k + 1..]
  }

  lemma MoveMoves(order: seq<nat>, b: nat)
    requires b in order && Distinct(order)
    ensures MovedFront(order, [b] + Without(order, b), b)
  {
    var k :| 0 <= k < |order| && order[k] == b;
    WithoutAt(order, b, k);
    assert [b] + (order[..k] + order[k + 1..]) == [b] + order[..k] + order[k + 1..];
  }

  lemma MoveKeeps(order: seq<nat>, b: nat)
    requires OrderInv(order) && b < NBUF
    ensures OrderInv([b] + Without(order, b))
  {
    hide Without;
    assert b in order;
    var k :| 0 <= k < |order| && order[k] == b;
    var r := [b] + Without(order, b);
    MovedAt(order, b, k, 0);
    forall i | 0 <= i < NBUF
      ensures r[i] < NBUF
    {
      MovedAt(order, b, k, i);
    }
    forall c | 0 <= c < NBUF
      ensures c in r
    {
      assert c in order;
      var i :| 0 <= i < |order| && order[i] == c;
      MovedAt(order, b, k, i);
      if i < k {
        MovedAt(order, b, k, i + 1);
        assert r[i + 1] == c;
      }
    }
    forall i, j | 0 <= i < j < NBUF
      ensures r[i] != r[j]
    {
      MovedAt(order, b, k, i);
      MovedAt(order, b, k, j);
    }
  }

  ghost predicate Drops(s: State, s': State, t: nat, b: nat) {
    && t in s.refs && s.refs[t] == Ref(b, Leaving) && b < NBUF && s.bufs[b].refcnt > 0
    && s'.disk == s.disk && s'.refs == s.refs - {t}
    && s'.bufs == s.bufs[b := s.bufs[b].(refcnt := s.bufs[b].refcnt - 1)]
    && OrderInv(s'.order)
  }

  lemma DropsKeeps(s: State, s': State, t: nat, b: nat)
    requires Inv(s) && Drops(s, s', t, b)
    ensures Inv(s')
  {
    hide OrderInv;
    forall c | 0 <= c < NBUF
      ensures BufInv(s', c)
    {
      assert BufInv(s, c);
      if c == b {
        assert Users(s'.refs, b) == Users(s.refs, b) - {t};
      } else {
        assert Users(s'.refs, c) == Users(s.refs, c);
      }
    }
    forall u | u in s'.refs
      ensures RefInv(s', u)
    {
      assert RefInv(s, u);
    }
    forall c, e | 0 <= c < NBUF && 0 <= e < NBUF && c != e
      ensures OneCopy(s'.bufs[c], s'.bufs[e])
    {
      assert OneCopy(s.bufs[c], s.bufs[e]);
    }
  }

  lemma DropKeeps(s: State, t: nat)
    requires Inv(s) && Enabled(s, Drop(t))
    ensures Inv(Next(s, Drop(t)))
  {
    hide BufInv, RefInv, OneCopy;
    var b := s.refs[t].buf;
    var p := s.bufs[b].(refcnt := s.bufs[b].refcnt - 1);
    if p.refcnt == 0 {
      MoveKeeps(s.order, b);
    }
    DropsKeeps(s, Next(s, Drop(t)), t, b);
  }

  // ---------------------------------------------------------------- every run

  lemma StepKeeps(s: State, a: Step)
    requires Inv(s) && Enabled(s, a)
    ensures Inv(Next(s, a))
  {
    hide Inv;
    match a
    case Get(t, dev, block) => GetKeeps(s, t, dev, block);
    case Drop(t) => DropKeeps(s, t);
    case _ => HolderSteps(s, a);
  }

  lemma {:induction false} RunInv(trace: seq<State>, steps: seq<Step>, i: nat)
    requires IsRun(trace, steps) && i < |trace|
    ensures Inv(trace[i])
  {
    hide Inv, Enabled, Next, Init;
    if i == 0 {
      InitInv(trace[0]);
    } else {
      RunInv(trace, steps, i - 1);
      assert StepOk(trace, steps, i - 1);
      StepKeeps(trace[i - 1], steps[i - 1]);
    }
  }

  // The list names every buffer once; no block has two buffers; a valid buffer
  // that is clean and unlocked holds its disk block.
  lemma CacheAgrees(trace: seq<State>, steps: seq<Step>, i: nat)
    requires IsRun(trace, steps) && i < |trace|
    ensures var s := trace[i];
            && |s.order| == NBUF && (forall b :: 0 <= b < NBUF ==> b in s.order)
            && (forall b, c :: 0 <= b < NBUF && 0 <= c < NBUF && b != c && s.bufs[b].dev != 0 ==>
                  !(s.bufs[b].dev == s.bufs[c].dev && s.bufs[b].block == s.bufs[c].block))
            && (forall b :: 0 <= b < NBUF && s.bufs[b].valid && !s.bufs[b].dirty && s.bufs[b].holder == None ==>
                  s.bufs[b].block < |s.disk| && s.bufs[b].data == s.disk[s.bufs[b].block])
  {
    RunInv(trace, steps, i);
    var s := trace[i];
    forall b | 0 <= b < NBUF && s.bufs[b].valid && !s.bufs[b].dirty && s.bufs[b].holder == None
      ensures s.bufs[b].block < |s.disk| && s.bufs[b].data == s.disk[s.bufs[b].block]
    {
      assert BufInv(s, b);
    }
    forall b, c | 0 <= b < NBUF && 0 <= c < NBUF && b != c && s.bufs[b].dev != 0
      ensures !(s.bufs[b].dev == s.bufs[c].dev && s.bufs[b].block == s.bufs[c].block)
    {
      assert OneCopy(s.bufs[b], s.bufs[c]);
    }
  }

  lemma {:induction false} VictimLast(bufs: Bufs, order: seq<nat>)
    requires forall i :: 0 <= i < |order| ==> order[i] < NBUF
    requires Victim(bufs, order).Some?
    ensures exists k :: 0 <= k < |order| && order[k] == Victim(bufs, order).value && forall i :: k < i < |order| ==> !Idle(bufs[order[i]])
  {
    var n := |order| - 1;
    if !Idle(bufs[order[n]]) {
      VictimLast(bufs, order[..n]);
      var k :| 0 <= k < n && order[k] == Victim(bufs, order).value && forall i :: k < i < n ==> !Idle(bufs[order[..n][i]]);
      assert forall i :: k < i < |order| ==> !Idle(bufs[order[i]]);
    }
  }

  // ------------------------------------------------- least recently released

  // Step k is a brelse after which nobody uses buffer b.
  predicate LetsGo(trace: seq<State>, steps: seq<Step>, k: nat, b: nat)
    requires k < |steps| && k < |trace| && b < NBUF
  {
    && steps[k].Drop? && steps[k].t in trace[k].refs && trace[k].refs[steps[k].t].buf == b
    && trace[k].bufs[b].refcnt == 1
  }

  // The step before state i that last let buffer b go. Buffers never used count
  // from before the run, in the order in which binit links them.
  function Released(trace: seq<State>, steps: seq<Step>, i: nat, b: nat): (r: int)
    requires i <= |steps| && i <= |trace| && b < NBUF
    ensures -NBUF <= r < i
  {
    if i == 0 then b - NBUF
    else if LetsGo(trace, steps, i - 1, b) then i - 1
    else Released(trace, steps, i - 1, b)
  }

  // What a step does to the list.
  lemma OrderStep(s: State, a: Step)
    requires Inv(s) && Enabled(s, a)
    ensures if a.Drop? && s.bufs[s.refs[a.t].buf].refcnt == 1 then MovedFront(s.order, Next(s, a).order, s.refs[a.t].buf)
            else Next(s, a).order == s.order
  {
    hide BufInv, RefInv, OneCopy, Without, Find, Victim;
    if a.Drop? {
      assert s.refs[a.t].buf in s.order;
      MoveMoves(s.order, s.refs[a.t].buf);
    }
  }

  // In every run the list is sorted by the time of release, latest first.
  lemma {:induction false} SortedByRelease(trace: seq<State>, steps: seq<Step>, i: nat, p: nat, q: nat)
    requires IsRun(trace, steps) && i < |trace| && p < q < NBUF
    ensures |trace[i].order| == NBUF && trace[i].order[p] < NBUF && trace[i].order[q] < NBUF
    ensures Released(trace, steps, i, trace[i].order[p]) > Released(trace, steps, i, trace[i].order[q])
    decreases i
  {
    hide IsRun, Enabled, Next, Inv, Released, MovedFront;
    RunLength(trace, steps);
    RunInv(trace, steps, i);
    OrderKnown(trace[i]);
    if i == 0 {
      FirstOrder(trace, steps, p);
      FirstOrder(trace, steps, q);
    } else {
      RunStep(trace, steps, i - 1);
      RunInv(trace, steps, i - 1);
      var s, a := trace[i - 1], steps[i - 1];
      OrderKnown(s);
      OrderStep(s, a);
      ReleasedStep(trace, steps, i, trace[i].order[p]);
      ReleasedStep(trace, steps, i, trace[i].order[q]);
      if a.Drop? && s.bufs[s.refs[a.t].buf].refcnt == 1 {
        var b := s.refs[a.t].buf;
        var k := FrontPlace(s.order, trace[i].order, b);
        assert trace[i].order[q] == s.order[if q <= k then q - 1 else q];
        if p > 0 {
          assert trace[i].order[p] == s.order[if p <= k then p - 1 else p];
          SortedByRelease(trace, steps, i - 1, if p <= k then p - 1 else p, if q <= k then q - 1 else q);
        }
      } else {
        SortedByRelease(trace, steps, i - 1, p, q);
      }
    }
  }

  lemma FrontPlace(order: seq<nat>, order': seq<nat>, b: nat) returns (k: nat)
    requires MovedFront(order, order', b) && Distinct(order)
    ensures k < |order| == |order'| && order[k] == b && order'[0] == b
    ensures forall i :: 0 < i < |order| ==> order'[i] == order[if i <= k then i - 1 else i] && order'[i] != b
  {
    k :| 0 <= k < |order| && order[k] == b && order' == [b] + order[..k] + order[k + 1..];
  }

  lemma OrderKnown(s: State)
    requires Inv(s)
    ensures OrderInv(s.order)
  {}

  lemma FirstOrder(trace: seq<State>, steps: seq<Step>, p: nat)
    requires IsRun(trace, steps) && p < NBUF
    ensures |trace[0].order| == NBUF && trace[0].order[p] == NBUF - 1 - p && Released(trace, steps, 0, NBUF - 1 - p) == -1 - p
  {}

  lemma ReleasedStep(trace: seq<State>, steps: seq<Step>, i: nat, b: nat)
    requires 0 < i <= |steps| && i <= |trace| && b < NBUF
    ensures Released(trace, steps, i, b) == if LetsGo(trace, steps, i - 1, b) then i - 1 else Released(trace, steps, i - 1, b)
  {}

  lemma RunStep(trace: seq<State>, steps: seq<Step>, k: nat)
    requires IsRun(trace, steps) && k < |steps|
    ensures |trace| == |steps| + 1 && Enabled(trace[k], steps[k]) && trace[k + 1] == Next(trace[k], steps[k])
    ensures steps[k].Drop? ==> steps[k].t in trace[k].refs && trace[k].refs[steps[k].t].buf < NBUF
  {
    assert StepOk(trace, steps, k);
  }

  // A recycled buffer is neither referenced nor dirty, nobody has it locked, and
  // of all such buffers it is the one let go longest ago.
  lemma RecyclesOldest(trace: seq<State>, steps: seq<Step>, i: nat, dev: nat, block: nat)
    requires IsRun(trace, steps) && i < |trace|
    requires Find(trace[i].bufs, trace[i].order, dev, block).None? && GetBuf(trace[i], dev, block).Some?
    ensures var s, b := trace[i], GetBuf(trace[i], dev, block).value;
            && b < NBUF && Idle(s.bufs[b]) && s.bufs[b].holder == None
            && (forall t :: t in s.refs ==> s.refs[t].buf != b)
            && (forall c :: 0 <= c < NBUF && c != b && Idle(s.bufs[c]) ==>
                  Released(trace, steps, i, b) < Released(trace, steps, i, c))
  {
    hide IsRun, Released;
    RunInv(trace, steps, i);
    RunLength(trace, steps);
    var s, b := trace[i], GetBuf(trace[i], dev, block).value;
    UnusedIsFree(s, b);
    forall t | t in s.refs
      ensures s.refs[t].buf != b
    {
      assert t !in Users(s.refs, b);
    }
    VictimLast(s.bufs, s.order);
    var k :| 0 <= k < |s.order| && s.order[k] == b && forall i :: k < i < |s.order| ==> !Idle(s.bufs[s.order[i]]);
    forall c | 0 <= c < NBUF && c != b && Idle(s.bufs[c])
      ensures Released(trace, steps, i, b) < Released(trace, steps, i, c)
    {
      assert c in s.order;
      var j :| 0 <= j < |s.order| && s.order[j] == c;
      SortedByRelease(trace, steps, i, j, k);
    }
  }

  lemma RunLength(trace: seq<State>, steps: seq<Step>)
    requires IsRun(trace, steps)
    ensures |trace| == |steps| + 1
  {}

  // bget panics only when every buffer is in use or pinned.
  lemma PanicsWhenAllUsed(trace: seq<State>, steps: seq<Step>, i: nat, dev: nat, block: nat)
    requires IsRun(trace, steps) && i < |trace|
    ensures GetBuf(trace[i], dev, block).None? <==>
            forall b :: 0 <= b < NBUF ==> !Idle(trace[i].bufs[b]) && !Matches(trace[i].bufs[b], dev, block)
  {
    hide IsRun, BufInv, RefInv, OneCopy;
    RunInv(trace, steps, i);
    var s := trace[i];
    if GetBuf(s, dev, block).None? {
      forall b | 0 <= b < NBUF
        ensures !Idle(s.bufs[b]) && !Matches(s.bufs[b], dev, block)
      {
        assert b in s.order;
      }
    }
  }
}
