/**
 How many buffers the log pins, and when commit finds one for its next bread.
 */
module LogPins {
  import opened Blocks
  import opened Common
  import opened LogBuffers
  import L = LogModel
  import LS = LogSafety
  import LR = LogReserve
  import B = BioModel
  import BS = BioSafety

  // The buffers pinned by the log, and the clean ones in use.
  function Dirty(c: B.State): (r: set<int>) {
    set b | 0 <= b < B.NBUF && c.bufs[b].dirty
  }

  function Busy(c: B.State): (r: set<int>) {
    set b | 0 <= b < B.NBUF && !c.bufs[b].dirty && c.bufs[b].refcnt > 0
  }

  function BlocksIn(c: B.State, bs: set<int>): (r: set<int>) {
    set b | b in bs && 0 <= b < B.NBUF :: c.bufs[b].block
  }

  lemma {:induction false} BlockCount(c: B.State, bs: set<int>)
    requires BS.Inv(c) && bs <= Dirty(c)
    ensures |BlocksIn(c, bs)| == |bs|
  {
    hide BS.Inv;
    if bs == {} {
      assert BlocksIn(c, bs) == {};
    } else {
      var k :| k in bs;
      var rest := bs - {k};
      BlockCount(c, rest);
      assert k in Dirty(c);
      assert BlocksIn(c, bs) == BlocksIn(c, rest) + {c.bufs[k].block};
      if c.bufs[k].block in BlocksIn(c, rest) {
        var b :| b in rest && 0 <= b < B.NBUF && c.bufs[b].block == c.bufs[k].block;
        assert b in Dirty(c);
        DirtyOnDisk(c, k);
        OneBuffer(c, k, b);
      }
    }
  }

  lemma DirtyOnDisk(c: B.State, k: nat)
    requires BS.Inv(c) && k < B.NBUF && c.bufs[k].dirty
    ensures c.bufs[k].dev == B.ROOTDEV
  {
    assert BS.BufInv(c, k);
  }

  // As many buffers are dirty as blocks are pinned.
  lemma PinnedCount(l: L.Layout, d0: L.Disk, j: State)
    requires Inv(l, d0, j)
    ensures |Dirty(j.cache)| == |j.log.dirty|
  {
    hide LS.Inv, BS.Inv;
    var c := j.cache;
    BlockCount(c, Dirty(c));
    forall x
      ensures x in BlocksIn(c, Dirty(c)) <==> x in j.log.dirty
    {
      assert DirtyAt(c, x) <==> x in BlocksIn(c, Dirty(c)) by {
        if DirtyAt(c, x) {
          var b :| 0 <= b < B.NBUF && c.bufs[b].dirty && c.bufs[b].block == x;
          assert b in Dirty(c);
        }
      }
    }
    assert BlocksIn(c, Dirty(c)) == j.log.dirty.Keys;
  }

  ghost predicate Cached(c: B.State, dev: nat, x: nat) {
    exists b :: 0 <= b < B.NBUF && B.Matches(c.bufs[b], dev, x)
  }

  // Every buffer is dirty, busy or idle.
  lemma Room(c: B.State)
    ensures |Dirty(c)| + |Busy(c)| < B.NBUF <==> exists b :: 0 <= b < B.NBUF && B.Idle(c.bufs[b])
  {
    hide Interval;
    var all, used := Interval(0, B.NBUF), Dirty(c) + Busy(c);
    assert Dirty(c) * Busy(c) == {};
    assert |used| == |Dirty(c)| + |Busy(c)|;
    assert |all| == B.NBUF;
    if b :| 0 <= b < B.NBUF && B.Idle(c.bufs[b]) {
      SmallerSet(used, all, b);
    } else {
      assert used == all;
    }
  }

  lemma SmallerSet(a: set<int>, b: set<int>, x: int)
    requires a <= b && x in b && x !in a
    ensures |a| < |b|
  {
    assert b == a + (b - a);
    assert x in b - a;
  }

  lemma GetIff(c: B.State, dev: nat, x: nat)
    requires BS.Inv(c)
    ensures B.GetBuf(c, dev, x).Some? <==> Cached(c, dev, x) || |Dirty(c)| + |Busy(c)| < B.NBUF
  {
    hide BS.BufInv, BS.RefInv, BS.OneCopy, Dirty, Busy;
    Room(c);
    if B.GetBuf(c, dev, x).None? {
      forall b | 0 <= b < B.NBUF
        ensures !B.Matches(c.bufs[b], dev, x) && !B.Idle(c.bufs[b])
      {
        assert b in c.order;
      }
    }
  }

  // Outside install_trans the pinned blocks are the n logged ones.
  lemma PinnedAreLogged(l: L.Layout, d0: L.Disk, s: L.State)
    requires LS.Inv(l, d0, s) && !s.phase.Install?
    ensures |s.dirty| == |s.blocks|
  {
    hide LS.DiskInv;
    DistinctSize(s.blocks);
    forall x
      ensures x in s.dirty.Keys <==> x in Elements(s.blocks)
    {
      assert x in s.dirty <==> x in s.blocks;
    }
    assert s.dirty.Keys == Elements(s.blocks);
  }

  // In every joint run, bread of block x finds a buffer if and only if x is
  // cached, or the pinned buffers and the clean ones in use are fewer than
  // NBUF. While operations run and while write_log copies, the pinned ones
  // are as many as the blocks in the log.
  lemma BreadFindsBuffer(l: L.Layout, d0: L.Disk, trace: seq<State>, steps: seq<Step>, i: nat, x: nat)
    requires IsRun(l, d0, trace, steps) && i < |trace|
    ensures var s, c := trace[i].log, trace[i].cache;
            && (B.GetBuf(c, B.ROOTDEV, x).Some? <==> Cached(c, B.ROOTDEV, x) || |s.dirty| + |Busy(c)| < B.NBUF)
            && (!s.phase.Install? ==> |s.dirty| == |s.blocks|)
  {
    hide IsRun, LS.Inv, BS.Inv, Cached, Busy, B.GetBuf, DataOk, TouchOk;
    RunInv(l, d0, trace, steps, i);
    GetIff(trace[i].cache, B.ROOTDEV, x);
    PinnedCount(l, d0, trace[i]);
    if !trace[i].log.phase.Install? {
      PinnedAreLogged(l, d0, trace[i].log);
    }
  }

  // ------------------------------------------- a commit that finds no buffer

  ghost predicate EndsIn(l: L.Layout, d0: L.Disk, trace: seq<State>, steps: seq<Step>, j: State) {
    IsRun(l, d0, trace, steps) && trace[|steps|] == j
  }

  lemma Extend(l: L.Layout, d0: L.Disk, trace: seq<State>, steps: seq<Step>, j: State, a: Step)
    returns (trace': seq<State>, steps': seq<Step>)
    requires EndsIn(l, d0, trace, steps, j) && Enabled(l, j, a)
    ensures EndsIn(l, d0, trace', steps', Next(l, j, a)) && Inv(l, d0, Next(l, j, a))
  {
    hide Enabled, Next, Inv;
    trace', steps' := trace + [Next(l, j, a)], steps + [a];
    forall i | 0 <= i < |steps'|
      ensures StepOk(l, trace', steps', i)
    {
      if i < |steps| {
        assert StepOk(l, trace, steps, i);
      }
    }
    RunInv(l, d0, trace', steps', |steps'|);
  }

  // Nobody uses a buffer.
  ghost predicate Quiet(l: L.Layout, d0: L.Disk, j: State) {
    Inv(l, d0, j) && j.cache.refs == map[]
  }

  // Use 0 alone has a buffer, locked and read, that holds block x.
  ghost predicate HasBlock(l: L.Layout, d0: L.Disk, j: State, x: nat) {
    && Inv(l, d0, j) && j.cache.refs.Keys == {0} && B.Holds(j.cache, 0)
    && var p := j.cache.bufs[j.cache.refs[0].buf];
       p.dev == B.ROOTDEV && p.block == x && p.valid && !p.touched && p.refcnt > 0
  }

  lemma QuietBuffers(c: B.State, b: nat)
    requires BS.Inv(c) && c.refs == map[] && b < B.NBUF
    ensures c.bufs[b].refcnt == 0 && c.bufs[b].holder == None && !c.bufs[b].touched
  {
    assert BS.BufInv(c, b);
    assert BS.Users(c.refs, b) == {};
  }

  lemma QuietLogged(l: L.Layout, d0: L.Disk, j: State)
    requires Quiet(l, d0, j)
    ensures AllLogged(j.cache)
  {
    hide LS.Inv, BS.Inv;
    forall b | 0 <= b < B.NBUF
      ensures !j.cache.bufs[b].touched
    {
      QuietBuffers(j.cache, b);
    }
  }

  // With no buffer in use, only a log of NBUF blocks leaves none free.
  lemma QuietGets(l: L.Layout, d0: L.Disk, j: State, x: nat)
    requires Quiet(l, d0, j) && |j.log.dirty| < B.NBUF
    ensures B.Enabled(j.cache, B.Get(0, B.ROOTDEV, x))
  {
    hide LS.Inv, BS.Inv, Cached;
    GetIff(j.cache, B.ROOTDEV, x);
    PinnedCount(l, d0, j);
    forall b | 0 <= b < B.NBUF
      ensures j.cache.bufs[b].refcnt == 0
    {
      QuietBuffers(j.cache, b);
    }
    assert Busy(j.cache) == {};
  }

  // bget of block x with no other buffer in use.
  lemma GetsBlock(c: B.State, x: nat)
    requires BS.Inv(c) && c.refs == map[] && B.Enabled(c, B.Get(0, B.ROOTDEV, x))
    ensures var c' := B.Next(c, B.Get(0, B.ROOTDEV, x));
            && c'.refs.Keys == {0} && c'.refs[0].phase == B.Waiting && c'.refs[0].buf < B.NBUF
            && var p := c'.bufs[c'.refs[0].buf];
               p.dev == B.ROOTDEV && p.block == x && p.holder == None && p.refcnt > 0 && !p.touched
  {
    hide B.Find, B.Victim;
    QuietBuffers(c, B.GetBuf(c, B.ROOTDEV, x).value);
  }

  // bread of block x.
  lemma Acquire(l: L.Layout, d0: L.Disk, trace: seq<State>, steps: seq<Step>, j: State, x: nat)
    returns (trace': seq<State>, steps': seq<Step>, j': State)
    requires EndsIn(l, d0, trace, steps, j) && Quiet(l, d0, j) && |j.log.dirty| < B.NBUF && x < |d0|
    ensures EndsIn(l, d0, trace', steps', j') && HasBlock(l, d0, j', x) && j'.log == j.log
  {
    hide EndsIn, LS.Inv, BS.Inv, B.GetBuf, Pinned;
    QuietGets(l, d0, j, x);
    GetsBlock(j.cache, x);
    trace', steps' := Extend(l, d0, trace, steps, j, Cache(B.Get(0, B.ROOTDEV, x)));
    j' := Next(l, j, Cache(B.Get(0, B.ROOTDEV, x)));
    var a := Cache(B.Lock(0));
    trace', steps' := Extend(l, d0, trace', steps', j', a);
    j' := Next(l, j', a);
    if !j'.cache.bufs[j'.cache.refs[0].buf].valid {
      InvParts(l, d0, j');
      a := Cache(B.Fetch(0));
      trace', steps' := Extend(l, d0, trace', steps', j', a);
      j' := Next(l, j', a);
    }
  }

  // brelse by use 0.
  lemma Release(l: L.Layout, d0: L.Disk, trace: seq<State>, steps: seq<Step>, j: State, x: nat)
    returns (trace': seq<State>, steps': seq<Step>, j': State)
    requires EndsIn(l, d0, trace, steps, j) && HasBlock(l, d0, j, x)
    ensures EndsIn(l, d0, trace', steps', j') && Quiet(l, d0, j') && j'.log == j.log
  {
    hide EndsIn, LS.Inv, BS.Inv, B.GetBuf, Pinned, B.Without;
    var a := Cache(B.Unlock(0));
    trace', steps' := Extend(l, d0, trace, steps, j, a);
    j' := Next(l, j, a);
    a := Cache(B.Drop(0));
    trace', steps' := Extend(l, d0, trace', steps', j', a);
    j' := Next(l, j', a);
  }

  // A log step taken with no buffer in use.
  lemma Moves(l: L.Layout, d0: L.Disk, trace: seq<State>, steps: seq<Step>, j: State, b: L.Step)
    returns (trace': seq<State>, steps': seq<Step>, j': State)
    requires EndsIn(l, d0, trace, steps, j) && Quiet(l, d0, j) && Enabled(l, j, Log(b))
    ensures L.Enabled(l, j.log, b)
    ensures EndsIn(l, d0, trace', steps', j') && Quiet(l, d0, j') && j'.log == L.Next(l, j.log, b)
  {
    hide EndsIn, Inv, L.Next, L.Enabled;
    trace', steps' := Extend(l, d0, trace, steps, j, Log(b));
    j' := Next(l, j, Log(b));
  }

  lemma Start(l: L.Layout, d0: L.Disk) returns (trace: seq<State>, steps: seq<Step>, j: State)
    requires L.LayoutOk(l, |d0|) && L.HeadOk(d0[l.start]) && L.Decode(d0[l.start]) == []
    ensures EndsIn(l, d0, trace, steps, j) && Quiet(l, d0, j)
    ensures j.log == L.State(d0, map[], [], map[], false, L.Down, 0, [], [], [])
  {
    hide LS.Inv, BS.Inv;
    j := State(L.State(d0, map[], [], map[], false, L.Down, 0, [], [], []), Empty(d0));
    trace, steps := [j], [];
    InitInv(l, d0, j);
  }

  // write_head on the buffer in hand, with the log empty.
  lemma Clears(l: L.Layout, d0: L.Disk, trace: seq<State>, steps: seq<Step>, j: State)
    returns (trace': seq<State>, steps': seq<Step>, j': State)
    requires EndsIn(l, d0, trace, steps, j) && HasBlock(l, d0, j, l.start)
    requires j.log.phase.ClearHead? && L.Enabled(l, j.log, L.BlockStep)
    ensures EndsIn(l, d0, trace', steps', j') && HasBlock(l, d0, j', l.start) && j'.log == L.Next(l, j.log, L.BlockStep)
  {
    hide EndsIn, LS.Inv, BS.Inv, L.Encode, L.Decode, Pinned, DataOk, TouchOk, L.Next;
    var a := Cache(B.Modify(0, L.Encode(j.log.disk[l.start], j.log.blocks)));
    trace', steps' := Extend(l, d0, trace, steps, j, a);
    j' := Next(l, j, a);
    trace', steps' := Extend(l, d0, trace', steps', j', Transfer(0, 0));
    j' := Next(l, j', Transfer(0, 0));
  }

  // Recovery of an empty log.
  lemma BootJoint(l: L.Layout, d0: L.Disk) returns (trace: seq<State>, steps: seq<Step>, j: State)
    requires L.LayoutOk(l, |d0|) && L.HeadOk(d0[l.start]) && L.Decode(d0[l.start]) == []
    ensures EndsIn(l, d0, trace, steps, j) && Quiet(l, d0, j)
    ensures j.log.phase == L.Running && j.log.blocks == [] && j.log.ops == map[] && !j.log.committing
            && j.log.nextOp == 0 && |j.log.disk| == |d0|
  {
    hide EndsIn, Inv, L.Encode, L.Decode;
    trace, steps, j := Start(l, d0);
    trace, steps, j := Moves(l, d0, trace, steps, j, L.BlockStep);
    trace, steps, j := Acquire(l, d0, trace, steps, j, l.start);
    trace, steps, j := Clears(l, d0, trace, steps, j);
    trace, steps, j := Release(l, d0, trace, steps, j, l.start);
  }

  lemma BeginThree(l: L.Layout, d0: L.Disk) returns (trace: seq<State>, steps: seq<Step>, j: State)
    requires L.LayoutOk(l, |d0|) && |d0| >= l.start + l.size + L.LOGSIZE
    requires L.HeadOk(d0[l.start]) && L.Decode(d0[l.start]) == []
    ensures EndsIn(l, d0, trace, steps, j) && Quiet(l, d0, j) && LR.Filled(l, j.log, 0)
  {
    hide EndsIn, Quiet;
    trace, steps, j := BootJoint(l, d0);
    trace, steps, j := Moves(l, d0, trace, steps, j, L.Begin);
    assert j.log.ops == map[0 := {}];
    trace, steps, j := Moves(l, d0, trace, steps, j, L.Begin);
    assert j.log.ops == map[0 := {}, 1 := {}];
    trace, steps, j := Moves(l, d0, trace, steps, j, L.Begin);
    assert j.log.ops.Keys == {0, 1, 2};
  }

  // bread, log_write and brelse of one more block.
  lemma {:induction false} FillJoint(l: L.Layout, d0: L.Disk, k: nat) returns (trace: seq<State>, steps: seq<Step>, j: State)
    requires L.LayoutOk(l, |d0|) && |d0| >= l.start + l.size + L.LOGSIZE
    requires L.HeadOk(d0[l.start]) && L.Decode(d0[l.start]) == []
    requires k <= L.LOGSIZE && k < l.size
    ensures EndsIn(l, d0, trace, steps, j) && Quiet(l, d0, j) && LR.Filled(l, j.log, k)
  {
    hide EndsIn, Quiet, HasBlock, LR.Filled, L.Enabled, L.Next;
    if k == 0 {
      trace, steps, j := BeginThree(l, d0);
    } else {
      trace, steps, j := FillJoint(l, d0, k - 1);
      var x := l.start + l.size + (k - 1);
      QuietPins(l, d0, j, k - 1);
      trace, steps, j := Acquire(l, d0, trace, steps, j, x);
      var a := LR.FillStep(l, j.log, k - 1, BufOf(j.cache, 0).data);
      trace, steps, j := Pins(l, d0, trace, steps, j, x, a.op);
      trace, steps, j := Release(l, d0, trace, steps, j, x);
    }
  }

  lemma QuietPins(l: L.Layout, d0: L.Disk, j: State, k: nat)
    requires Quiet(l, d0, j) && LR.Filled(l, j.log, k)
    ensures |j.log.dirty| == k
  {
    PinnedAreLogged(l, d0, j.log);
  }

  // log_write of the buffer in hand.
  lemma Pins(l: L.Layout, d0: L.Disk, trace: seq<State>, steps: seq<Step>, j: State, x: nat, op: nat)
    returns (trace': seq<State>, steps': seq<Step>, j': State)
    requires EndsIn(l, d0, trace, steps, j) && HasBlock(l, d0, j, x)
    requires L.Enabled(l, j.log, L.LogWrite(op, x, BufOf(j.cache, 0).data))
    ensures EndsIn(l, d0, trace', steps', j') && HasBlock(l, d0, j', x)
    ensures j'.log == L.Next(l, j.log, L.LogWrite(op, x, BufOf(j.cache, 0).data))
  {
    hide EndsIn, LS.Inv, BS.Inv, Pinned, L.Enabled, L.Next, DataOk, TouchOk;
    trace', steps' := Extend(l, d0, trace, steps, j, LogWrite(0, op));
    j' := Next(l, j, LogWrite(0, op));
  }

  // With every buffer dirty, no block of the log area is cached.
  lemma AllPinned(l: L.Layout, d0: L.Disk, j: State, x: nat)
    requires Inv(l, d0, j) && |j.log.dirty| == B.NBUF && l.start <= x < l.start + l.size
    ensures B.GetBuf(j.cache, B.ROOTDEV, x).None?
  {
    hide LS.Inv, BS.Inv;
    var c := j.cache;
    GetIff(c, B.ROOTDEV, x);
    PinnedCount(l, d0, j);
    assert Dirty(c) <= Interval(0, B.NBUF);
    if Cached(c, B.ROOTDEV, x) {
      var b :| 0 <= b < B.NBUF && B.Matches(c.bufs[b], B.ROOTDEV, x);
      if !c.bufs[b].dirty {
        SmallerSet(Dirty(c), Interval(0, B.NBUF), b);
      }
      assert DirtyAt(c, x);
      PinnedHome(l, d0, j.log, x);
    }
  }

  lemma EndThree(l: L.Layout, d0: L.Disk, trace: seq<State>, steps: seq<Step>, j: State)
    returns (trace': seq<State>, steps': seq<Step>, j': State)
    requires EndsIn(l, d0, trace, steps, j) && Quiet(l, d0, j) && LR.Filled(l, j.log, L.LOGSIZE)
    ensures EndsIn(l, d0, trace', steps', j') && Quiet(l, d0, j')
    ensures j'.log.phase == L.WriteLog(0) && j'.log.blocks == j.log.blocks
  {
    hide EndsIn, Quiet, AllLogged;
    QuietLogged(l, d0, j);
    trace', steps', j' := Moves(l, d0, trace, steps, j, L.End(0));
    assert j'.log.ops.Keys == {1, 2};
    QuietLogged(l, d0, j');
    trace', steps', j' := Moves(l, d0, trace', steps', j', L.End(1));
    assert j'.log.ops.Keys == {2};
    QuietLogged(l, d0, j');
    trace', steps', j' := Moves(l, d0, trace', steps', j', L.End(2));
    assert j'.log.ops.Keys == {};
  }

  // With a log area above LOGSIZE, three operations may pin all NBUF buffers;
  // the first bread of write_log then panics, though nobody uses a buffer.
  lemma CommitWithoutBuffer(l: L.Layout, d0: L.Disk) returns (trace: seq<State>, steps: seq<Step>)
    requires L.LayoutOk(l, |d0|) && |d0| >= l.start + l.size + L.LOGSIZE
    requires L.HeadOk(d0[l.start]) && L.Decode(d0[l.start]) == []
    requires l.size > L.LOGSIZE
    ensures IsRun(l, d0, trace, steps)
    ensures var j := trace[|steps|];
            && j.log.phase == L.WriteLog(0) && j.cache.refs == map[]
            && B.GetBuf(j.cache, B.ROOTDEV, l.start + 1).None?
  {
    hide LS.Inv, BS.Inv, B.GetBuf, LR.Filled, Pinned;
    var j;
    trace, steps, j := FillJoint(l, d0, L.LOGSIZE);
    FilledBlocks(l, j.log);
    trace, steps, j := EndThree(l, d0, trace, steps, j);
    PinnedAreLogged(l, d0, j.log);
    AllPinned(l, d0, j, l.start + 1);
  }

  lemma FilledBlocks(l: L.Layout, s: L.State)
    requires LR.Filled(l, s, L.LOGSIZE)
    ensures |s.blocks| == L.LOGSIZE
  {}
}
