/**
 The redo log and the buffer cache run together on one disk: operations change
 buffers and pin them by log_write, and commit and recovery fill buffers and
 write them by bwrite. Ties what readers find in the cache to what the log
 promises.
 */
module LogBuffers {
  import opened Blocks
  import opened Common
  import L = LogModel
  import LS = LogSafety
  import LH = LogHistory
  import LR = LogReserve
  import B = BioModel
  import BS = BioSafety

  datatype State = State(log: L.State, cache: B.State)

  datatype Step =
    | Cache(use: B.Step)           // bget, locking, reading, changing, brelse
    | Log(move: L.Step)            // a log step that writes no block
    | LogWrite(t: nat, op: nat)    // log_write on the buffer of use t
    | Transfer(t: nat, u: nat)     // bwrite of the block that commit or recovery is at, copied from use u
    | Crash

  // The block that the next step of commit or recovery writes.
  function Target(l: L.Layout, s: L.State): (r: Option<int>)
    requires L.BlockEnabled(l, s)
  {
    match s.phase
    case WriteLog(k) => Some(l.start + 1 + k)
    case WriteHead => Some(l.start)
    case Install(k, _) => Some(s.blocks[k])
    case ClearHead(_) => Some(l.start)
    case _ => None
  }

  // The buffer of use t.
  function BufOf(c: B.State, t: nat): (r: B.Buf) {
    if t in c.refs && c.refs[t].buf < B.NBUF then c.bufs[c.refs[t].buf] else c.bufs[0]
  }

  // Buffers are changed by operations under way, and by commit and recovery on
  // the block that they are about to write.
  predicate MayChange(l: L.Layout, s: L.State, x: int) {
    (L.Home(l, |s.disk|, x) && s.ops != map[]) || (L.BlockEnabled(l, s) && Target(l, s) == Some(x))
  }

  // The buffer of use t holds what write_log, write_head or install_trans put in
  // it, which the first and the last copy from the buffer of use u.
  predicate Filled(l: L.Layout, j: State, t: nat, u: nat)
    requires L.BlockEnabled(l, j.log)
  {
    var s, data := j.log, BufOf(j.cache, t).data;
    match s.phase
    case WriteLog(k) => Reads(j.cache, u, s.blocks[k]) && data == BufOf(j.cache, u).data
    case Install(k, _) => Reads(j.cache, u, l.start + 1 + k) && data == BufOf(j.cache, u).data
    case _ => data == L.Encode(s.disk[l.start], s.blocks)
  }

  // Use u has a buffer that bread returned for block x.
  predicate Reads(c: B.State, u: nat, x: int) {
    B.Holds(c, u) && BufOf(c, u).valid && BufOf(c, u).block == x
  }

  // No buffer has been changed without log_write or bwrite.
  ghost predicate AllLogged(c: B.State) {
    forall b :: 0 <= b < B.NBUF ==> !c.bufs[b].touched
  }

  ghost predicate Enabled(l: L.Layout, j: State, a: Step) {
    match a
    case Cache(b) =>
      && B.Enabled(j.cache, b) && !b.LogWrite? && !b.Write?
      && (b.Modify? ==> MayChange(l, j.log, BufOf(j.cache, b.t).block))
    case Log(b) =>
      && L.Enabled(l, j.log, b) && (b.Begin? || b.End? || (b.BlockStep? && Target(l, j.log).None?))
      // Operations log what they change before they end.
      && (b.End? && j.log.ops - {b.op} == map[] ==> AllLogged(j.cache))
    case LogWrite(t, op) =>
      && B.Enabled(j.cache, B.LogWrite(t))
      && L.Enabled(l, j.log, L.LogWrite(op, BufOf(j.cache, t).block, BufOf(j.cache, t).data))
    case Transfer(t, u) =>
      && L.Enabled(l, j.log, L.BlockStep) && B.Enabled(j.cache, B.Write(t))
      && Target(l, j.log) == Some(BufOf(j.cache, t).block) && Filled(l, j, t, u)
    case Crash => true
  }

  // The buffers as binit leaves them.
  function Blanks(n: nat): (r: seq<B.Buf>)
    ensures |r| == n && forall b :: 0 <= b < n ==> r[b] == B.Buf(0, 0, 0, false, false, Zeros(), None, false)
  {
    if n == 0 then [] else Blanks(n - 1) + [B.Buf(0, 0, 0, false, false, Zeros(), None, false)]
  }

  function Empty(disk: L.Disk): (r: B.State) {
    B.State(Blanks(B.NBUF),
            seq(B.NBUF, i requires 0 <= i < B.NBUF => B.NBUF - 1 - i), map[], disk)
  }

  ghost function Next(l: L.Layout, j: State, a: Step): (r: State)
    requires Enabled(l, j, a)
  {
    match a
    case Cache(b) => j.(cache := B.Next(j.cache, b))
    case Log(b) => j.(log := L.Next(l, j.log, b))
    case LogWrite(t, op) =>
      State(L.Next(l, j.log, L.LogWrite(op, BufOf(j.cache, t).block, BufOf(j.cache, t).data)), B.Next(j.cache, B.LogWrite(t)))
    case Transfer(t, _) => State(L.Next(l, j.log, L.BlockStep), B.Next(j.cache, B.Write(t)))
    case Crash => State(L.Next(l, j.log, L.Crash), Empty(j.cache.disk))
  }

  ghost predicate Init(l: L.Layout, d0: L.Disk, j: State) {
    L.Init(l, d0, j.log) && j.cache == Empty(j.log.disk)
  }

  ghost predicate StepOk(l: L.Layout, trace: seq<State>, steps: seq<Step>, i: nat)
    requires |trace| == |steps| + 1 && i < |steps|
  {
    Enabled(l, trace[i], steps[i]) && trace[i + 1] == Next(l, trace[i], steps[i])
  }

  ghost predicate IsRun(l: L.Layout, d0: L.Disk, trace: seq<State>, steps: seq<Step>) {
    && |trace| == |steps| + 1
    && Init(l, d0, trace[0])
    && forall i {:trigger StepOk(l, trace, steps, i)} :: 0 <= i < |steps| ==> StepOk(l, trace, steps, i)
  }

  // ------------------------------------------------------------- invariant

  // A dirty buffer holds block x.
  ghost predicate DirtyAt(c: B.State, x: int) {
    exists b :: 0 <= b < B.NBUF && c.bufs[b].dirty && c.bufs[b].block == x
  }

  // The dirty buffers are the blocks that the log has pinned.
  ghost predicate Pinned(j: State) {
    forall x {:trigger DirtyAt(j.cache, x)} :: x in j.log.dirty <==> DirtyAt(j.cache, x)
  }

  // A valid buffer with no change pending holds what the log's readers see.
  ghost predicate DataOk(j: State, b: nat)
    requires b < B.NBUF
  {
    var p := j.cache.bufs[b];
    p.valid && !p.touched && p.block < |j.log.disk| ==> p.data == L.View(j.log, p.block)
  }

  // A pending change is one that may be made.
  ghost predicate TouchOk(l: L.Layout, j: State, b: nat)
    requires b < B.NBUF
  {
    j.cache.bufs[b].touched ==> MayChange(l, j.log, j.cache.bufs[b].block)
  }

  ghost predicate Inv(l: L.Layout, d0: L.Disk, j: State) {
    && LS.Inv(l, d0, j.log) && BS.Inv(j.cache) && j.cache.disk == j.log.disk && Pinned(j)
    && (forall b {:trigger DataOk(j, b)} :: 0 <= b < B.NBUF ==> DataOk(j, b))
    && (forall b {:trigger TouchOk(l, j, b)} :: 0 <= b < B.NBUF ==> TouchOk(l, j, b))
  }

  lemma InvParts(l: L.Layout, d0: L.Disk, j: State)
    requires Inv(l, d0, j)
    ensures LS.Inv(l, d0, j.log) && BS.Inv(j.cache) && j.cache.disk == j.log.disk && |j.log.disk| == |d0|
  {}

  lemma EmptyInv(disk: L.Disk)
    ensures BS.Inv(Empty(disk))
    ensures forall x :: !DirtyAt(Empty(disk), x)
  {
    BS.InitInv(Empty(disk));
  }

  // ---------------------------------------------------- steps of the cache

  // Only log_write and bwrite change which buffers are dirty.
  lemma CacheDirty(c: B.State, a: B.Step, x: int)
    requires B.Enabled(c, a) && !a.LogWrite? && !a.Write?
    ensures DirtyAt(B.Next(c, a), x) <==> DirtyAt(c, x)
  {
    hide B.Find, B.Victim, B.Without;
    var c' := B.Next(c, a);
    assert forall b :: 0 <= b < B.NBUF ==>
             c'.bufs[b].dirty == c.bufs[b].dirty && (c.bufs[b].dirty ==> c'.bufs[b].block == c.bufs[b].block);
    if DirtyAt(c, x) {
      var b :| 0 <= b < B.NBUF && c.bufs[b].dirty && c.bufs[b].block == x;
      assert c'.bufs[b].dirty && c'.bufs[b].block == x;
    }
  }

  lemma LogWriteDirty(c: B.State, t: nat, x: int)
    requires B.Enabled(c, B.LogWrite(t))
    ensures DirtyAt(B.Next(c, B.LogWrite(t)), x) <==> x == BufOf(c, t).block || DirtyAt(c, x)
  {
    var c', k := B.Next(c, B.LogWrite(t)), c.refs[t].buf;
    assert c'.bufs[k].dirty && c'.bufs[k].block == BufOf(c, t).block;
    if DirtyAt(c, x) {
      var b :| 0 <= b < B.NBUF && c.bufs[b].dirty && c.bufs[b].block == x;
      assert c'.bufs[b].dirty && c'.bufs[b].block == x;
    }
  }

  lemma WriteDirty(c: B.State, t: nat, x: int)
    requires BS.Inv(c) && B.Enabled(c, B.Write(t))
    ensures DirtyAt(B.Next(c, B.Write(t)), x) <==> x != BufOf(c, t).block && DirtyAt(c, x)
  {
    var c', k := B.Next(c, B.Write(t)), c.refs[t].buf;
    if DirtyAt(c, x) {
      var b :| 0 <= b < B.NBUF && c.bufs[b].dirty && c.bufs[b].block == x;
      if b != k {
        OneBuffer(c, k, b);
        assert c'.bufs[b].dirty && c'.bufs[b].block == x;
      }
    }
    if DirtyAt(c', x) {
      var b :| 0 <= b < B.NBUF && c'.bufs[b].dirty && c'.bufs[b].block == x;
      OneBuffer(c, k, b);
      assert c.bufs[b].dirty && c.bufs[b].block == x;
    }
  }

  // No valid buffer holds the block of another buffer of the disk.
  lemma OneBuffer(c: B.State, k: nat, b: nat)
    requires BS.Inv(c) && k < B.NBUF && b < B.NBUF && k != b && c.bufs[k].dev == B.ROOTDEV
    ensures c.bufs[b].valid || c.bufs[b].dirty || c.bufs[b].touched ==> c.bufs[k].block != c.bufs[b].block
  {
    assert BS.BufInv(c, b) && BS.OneCopy(c.bufs[k], c.bufs[b]);
  }

  lemma BufFacts(c: B.State, b: nat)
    requires BS.Inv(c) && b < B.NBUF
    ensures var p := c.bufs[b];
            && (p.valid ==> p.dev == B.ROOTDEV && p.block < |c.disk|)
            && (p.dirty || p.touched ==> p.valid)
            && (p.refcnt == 0 ==> !p.touched)
  {
    var p := c.bufs[b];
    assert BS.BufInv(c, b);
    if p.touched {
      assert p.holder.value in BS.Users(c.refs, b);
    }
  }

  // What the other steps do to a buffer: its data stays with its block, or has
  // just been read, or it has just been changed.
  lemma CacheData(c: B.State, a: B.Step, b: nat)
    requires BS.Inv(c) && B.Enabled(c, a) && !a.LogWrite? && !a.Write? && b < B.NBUF
    ensures B.Next(c, a).disk == c.disk
    ensures var p, q := c.bufs[b], B.Next(c, a).bufs[b];
            && (q.valid && !q.touched ==>
                  && (q.block == p.block)
                  && ((p.valid && !p.touched && q.data == p.data)
                      || (!p.valid && p.dev == B.ROOTDEV && q.block < |c.disk| && q.data == c.disk[q.block])))
            && (q.touched ==> (p.touched || (a.Modify? && BufOf(c, a.t) == p)) && q.block == p.block)
  {
    hide B.Find, B.Victim, B.Without, BS.Inv;
    BufFacts(c, b);
  }

  // ------------------------------------------------------ steps of the log

  // The data that the next step of commit or recovery writes.
  function Written(l: L.Layout, s: L.State): (r: Block)
    requires L.BlockEnabled(l, s)
  {
    match s.phase
    case WriteLog(k) => L.View(s, s.blocks[k])
    case Install(k, _) => s.disk[l.start + 1 + k]
    case _ => L.Encode(s.disk[l.start], s.blocks)
  }

  // What each log step does to the pinned blocks.
  lemma LogDirty(l: L.Layout, d0: L.Disk, s: L.State, a: L.Step, x: int)
    requires LS.Inv(l, d0, s) && L.Enabled(l, s, a)
    ensures a.Begin? || a.End? ==> (x in L.Next(l, s, a).dirty <==> x in s.dirty)
    ensures a.LogWrite? ==> (x in L.Next(l, s, a).dirty <==> x == a.block || x in s.dirty)
    ensures a.BlockStep? ==> (x in L.Next(l, s, a).dirty <==> Target(l, s) != Some(x) && x in s.dirty)
  {
    hide LS.DiskInv, L.Encode, L.Decode, L.View, L.Apply, L.Flat;
    if a.BlockStep? && x in s.dirty {
      PinnedHome(l, d0, s, x);
    }
  }

  lemma PinnedHome(l: L.Layout, d0: L.Disk, s: L.State, x: int)
    requires LS.Inv(l, d0, s) && x in s.dirty
    ensures L.Home(l, |s.disk|, x)
  {
    assert x in s.blocks;
    var i :| 0 <= i < |s.blocks| && s.blocks[i] == x;
    assert L.Home(l, |s.disk|, s.blocks[i]);
  }

  // The disk after a step of commit or recovery.
  lemma LogDisk(l: L.Layout, d0: L.Disk, s: L.State)
    requires LS.Inv(l, d0, s) && L.Enabled(l, s, L.BlockStep)
    ensures Target(l, s).Some? ==> 0 <= Target(l, s).value < |s.disk|
    ensures L.Next(l, s, L.BlockStep).disk ==
            if Target(l, s).Some? then s.disk[Target(l, s).value := Written(l, s)] else s.disk
  {
    hide LS.DiskInv, LS.CacheInv, L.Encode, L.Decode, L.View;
  }

  // What each log step does to what readers see.
  lemma LogView(l: L.Layout, d0: L.Disk, s: L.State, a: L.Step, x: int)
    requires LS.Inv(l, d0, s) && L.Enabled(l, s, a) && 0 <= x < |s.disk| && !a.Crash?
    ensures |L.Next(l, s, a).disk| == |s.disk|
    ensures L.View(L.Next(l, s, a), x) ==
            if a.LogWrite? && x == a.block then a.data
            else if a.BlockStep? && Target(l, s) == Some(x) then Written(l, s)
            else L.View(s, x)
  {
    hide LS.Inv, L.Encode, L.Decode, L.BlockEnabled, Written, L.NextBlock, L.TooBig, L.Admits, Target;
    if a.BlockStep? {
      LogDisk(l, d0, s);
      LogDirty(l, d0, s, a, x);
      SamePinned(l, s, x);
    }
  }

  // Commit and recovery change no pinned data.
  lemma SamePinned(l: L.Layout, s: L.State, x: int)
    requires L.Enabled(l, s, L.BlockStep)
    ensures var d := L.Next(l, s, L.BlockStep).dirty; x in d && x in s.dirty ==> d[x] == s.dirty[x]
  {
    hide L.Encode, L.Decode, L.View;
  }

  // ------------------------------------------------------------- both

  lemma PairKeeps(l: L.Layout, d0: L.Disk, j: State, a: Step, x: int)
    requires Inv(l, d0, j) && Enabled(l, j, a) && !a.Crash?
    ensures var j' := Next(l, j, a); x in j'.log.dirty <==> DirtyAt(j'.cache, x)
  {
    hide LS.Inv, BS.Inv, L.Next, B.Next, L.Enabled, B.Enabled, DirtyAt, Target, Filled, DataOk, TouchOk, MayChange;
    assert x in j.log.dirty <==> DirtyAt(j.cache, x);
    match a
    case Cache(b) => CacheDirty(j.cache, b, x);
    case Log(b) => LogDirty(l, d0, j.log, b, x);
    case LogWrite(t, op) =>
      LogDirty(l, d0, j.log, L.LogWrite(op, BufOf(j.cache, t).block, BufOf(j.cache, t).data), x);
      LogWriteDirty(j.cache, t, x);
    case Transfer(t, _) =>
      LogDirty(l, d0, j.log, L.BlockStep, x);
      WriteDirty(j.cache, t, x);
  }

  // Away from running operations nothing but the target is being changed.
  lemma Untouched(l: L.Layout, d0: L.Disk, j: State, b: nat)
    requires Inv(l, d0, j) && b < B.NBUF && j.log.phase != L.Running && L.BlockEnabled(l, j.log)
    ensures j.cache.bufs[b].touched ==> Target(l, j.log) == Some(j.cache.bufs[b].block)
  {
    hide LS.CacheInv, LS.DiskInv, BS.Inv, Target, DataOk;
    assert TouchOk(l, j, b);
  }

  // What commit and recovery put in the buffer is what the log machine writes.
  lemma TransferData(l: L.Layout, d0: L.Disk, j: State, t: nat, u: nat)
    requires Inv(l, d0, j) && Enabled(l, j, Transfer(t, u))
    ensures BufOf(j.cache, t).data == Written(l, j.log)
  {
    hide BS.Inv, LS.DiskInv, B.Enabled, L.Encode, TouchOk;
    var s := j.log;
    if s.phase.WriteLog? || s.phase.Install? {
      var b := j.cache.refs[u].buf;
      SourceApart(l, d0, s);
      Untouched(l, d0, j, b);
      assert DataOk(j, b);
      BufFacts(j.cache, b);
    }
  }

  // The block copied from is not the one copied to, and in install_trans is not
  // pinned.
  lemma SourceApart(l: L.Layout, d0: L.Disk, s: L.State)
    requires LS.Inv(l, d0, s) && L.BlockEnabled(l, s)
    ensures s.phase.WriteLog? ==> Target(l, s) != Some(s.blocks[s.phase.tail])
    ensures s.phase.Install? ==> var x := l.start + 1 + s.phase.tail; Target(l, s) != Some(x) && x !in s.dirty
  {
    hide LS.DiskInv;
    if s.phase.WriteLog? {
      assert L.Home(l, |s.disk|, s.blocks[s.phase.tail]);
    } else if s.phase.Install? {
      assert L.Home(l, |s.disk|, s.blocks[s.phase.tail]);
      var x := l.start + 1 + s.phase.tail;
      assert x !in s.dirty by {
        if x in s.dirty {
          PinnedHome(l, d0, s, x);
        }
      }
    }
  }

  lemma DiskKeeps(l: L.Layout, d0: L.Disk, j: State, a: Step)
    requires Inv(l, d0, j) && Enabled(l, j, a)
    ensures Next(l, j, a).cache.disk == Next(l, j, a).log.disk
  {
    hide LS.Inv, BS.Inv, L.Next, B.Next, L.Enabled, B.Enabled, Target, Filled, DataOk, TouchOk, Pinned;
    hide MayChange, AllLogged, Written, Blanks;
    match a
    case Cache(b) => CacheData(j.cache, b, 0);
    case Log(b) =>
      LogStill(l, j.log, b);
      if b.BlockStep? {
        LogDisk(l, d0, j.log);
      }
    case LogWrite(t, op) =>
      LogStill(l, j.log, L.LogWrite(op, BufOf(j.cache, t).block, BufOf(j.cache, t).data));
      CacheWrites(j.cache, t);
    case Transfer(t, u) =>
      LogDisk(l, d0, j.log);
      TransferData(l, d0, j, t, u);
      CacheWrites(j.cache, t);
    case Crash =>
      CanCrash(l, j.log);
      LogStill(l, j.log, L.Crash);
  }

  lemma LogStill(l: L.Layout, s: L.State, a: L.Step)
    requires L.Enabled(l, s, a)
    ensures !a.BlockStep? ==> L.Next(l, s, a).disk == s.disk
  {
    hide L.NextBlock, L.BlockEnabled;
  }

  lemma CacheWrites(c: B.State, t: nat)
    ensures B.Enabled(c, B.LogWrite(t)) ==> B.Next(c, B.LogWrite(t)).disk == c.disk
    ensures B.Enabled(c, B.Write(t)) ==>
              BufOf(c, t).block < |c.disk| && B.Next(c, B.Write(t)).disk == c.disk[BufOf(c, t).block := BufOf(c, t).data]
  {}

  lemma DataKeeps(l: L.Layout, d0: L.Disk, j: State, a: Step, b: nat)
    requires Inv(l, d0, j) && Enabled(l, j, a) && b < B.NBUF && !a.Crash?
    ensures DataOk(Next(l, j, a), b)
  {
    hide LS.Inv, BS.Inv, L.Next, L.Enabled, Target, Filled, TouchOk, Pinned, AllLogged, Written;
    hide B.Find, B.Victim, B.Without, L.View;
    assert DataOk(j, b);
    BufFacts(j.cache, b);
    var x := j.cache.bufs[b].block;
    match a
    case Cache(c) =>
      CacheData(j.cache, c, b);
      if !j.cache.bufs[b].valid && j.cache.bufs[b].dev == B.ROOTDEV && x < |j.log.disk| {
        ReadIsView(l, d0, j, b);
      }
    case Log(c) =>
      if x < |j.log.disk| {
        LogView(l, d0, j.log, c, x);
      }
    case LogWrite(t, op) =>
      if x < |j.log.disk| {
        LogView(l, d0, j.log, L.LogWrite(op, BufOf(j.cache, t).block, BufOf(j.cache, t).data), x);
      }
      if j.cache.refs[t].buf != b {
        BufFacts(j.cache, j.cache.refs[t].buf);
        OneBuffer(j.cache, j.cache.refs[t].buf, b);
      }
    case Transfer(t, u) =>
      if x < |j.log.disk| {
        LogView(l, d0, j.log, L.BlockStep, x);
      }
      TransferData(l, d0, j, t, u);
      if j.cache.refs[t].buf != b {
        OneBuffer(j.cache, j.cache.refs[t].buf, b);
      }
  }

  // A block without a valid buffer is not pinned, so the disk is what readers see.
  lemma ReadIsView(l: L.Layout, d0: L.Disk, j: State, b: nat)
    requires Inv(l, d0, j) && b < B.NBUF && !j.cache.bufs[b].valid && j.cache.bufs[b].dev == B.ROOTDEV
    requires j.cache.bufs[b].block < |j.log.disk|
    ensures L.View(j.log, j.cache.bufs[b].block) == j.cache.disk[j.cache.bufs[b].block]
  {
    hide LS.Inv, BS.Inv, DataOk, TouchOk;
    var x := j.cache.bufs[b].block;
    assert !DirtyAt(j.cache, x) by {
      forall k | 0 <= k < B.NBUF && j.cache.bufs[k].block == x
        ensures !j.cache.bufs[k].dirty
      {
        BufFacts(j.cache, k);
        if k != b {
          OneBuffer(j.cache, b, k);
        }
      }
    }
  }

  lemma TouchKeeps(l: L.Layout, d0: L.Disk, j: State, a: Step, b: nat)
    requires Inv(l, d0, j) && Enabled(l, j, a) && b < B.NBUF && !a.Crash?
    ensures TouchOk(l, Next(l, j, a), b)
  {
    hide LS.Inv, BS.Inv, L.Next, L.Enabled, Target, Filled, DataOk, Pinned, B.Find, B.Victim, B.Without;
    assert TouchOk(l, j, b);
    BufFacts(j.cache, b);
    var x := j.cache.bufs[b].block;
    match a
    case Cache(c) => CacheData(j.cache, c, b);
    case Log(c) =>
      if j.cache.bufs[b].touched {
        MayStill(l, d0, j.log, c, x);
      }
    case LogWrite(t, op) =>
      if j.cache.bufs[b].touched {
        MayStill(l, d0, j.log, L.LogWrite(op, BufOf(j.cache, t).block, BufOf(j.cache, t).data), x);
      }
    case Transfer(t, _) =>
      CommitPhase(l, j.log);
      Untouched(l, d0, j, b);
      if j.cache.refs[t].buf != b {
        OneBuffer(j.cache, j.cache.refs[t].buf, b);
      }
  }

  lemma CommitPhase(l: L.Layout, s: L.State)
    requires L.Enabled(l, s, L.BlockStep)
    ensures s.phase != L.Running && L.BlockEnabled(l, s)
  {}

  // What may be changed before one of these steps may be changed after it, or
  // the last operation has ended.
  lemma MayStill(l: L.Layout, d0: L.Disk, s: L.State, a: L.Step, x: int)
    requires LS.Inv(l, d0, s) && L.Enabled(l, s, a) && MayChange(l, s, x)
    requires a.Begin? || a.End? || a.LogWrite? || (a.BlockStep? && Target(l, s).None?)
    ensures MayChange(l, L.Next(l, s, a), x) || (a.End? && s.ops - {a.op} == map[])
  {
    hide LS.DiskInv, LS.CacheInv, L.Encode, L.Decode, L.View;
    if a.Begin? {
      assert s.nextOp in L.Next(l, s, a).ops;
    } else if a.LogWrite? {
      assert a.op in L.Next(l, s, a).ops;
    }
  }

  lemma StepKeeps(l: L.Layout, d0: L.Disk, j: State, a: Step)
    requires Inv(l, d0, j) && Enabled(l, j, a)
    ensures Inv(l, d0, Next(l, j, a))
  {
    hide Inv, Enabled, Next, LS.Inv, BS.Inv, DataOk, TouchOk;
    MachinesKeep(l, d0, j, a);
    DiskKeeps(l, d0, j, a);
    if a.Crash? {
      CrashKeeps(l, d0, j);
    } else {
      var j' := Next(l, j, a);
      PinnedKeeps(l, d0, j, a);
      forall b | 0 <= b < B.NBUF
        ensures DataOk(j', b) && TouchOk(l, j', b)
      {
        DataKeeps(l, d0, j, a, b);
        TouchKeeps(l, d0, j, a, b);
      }
      InvIntro(l, d0, j');
    }
  }

  lemma InvIntro(l: L.Layout, d0: L.Disk, j: State)
    requires LS.Inv(l, d0, j.log) && BS.Inv(j.cache) && j.cache.disk == j.log.disk && Pinned(j)
    requires forall b :: 0 <= b < B.NBUF ==> DataOk(j, b) && TouchOk(l, j, b)
    ensures Inv(l, d0, j)
  {}

  lemma MachinesKeep(l: L.Layout, d0: L.Disk, j: State, a: Step)
    requires Inv(l, d0, j) && Enabled(l, j, a)
    ensures LS.Inv(l, d0, Next(l, j, a).log) && BS.Inv(Next(l, j, a).cache)
  {
    hide LS.Inv, BS.Inv, L.Enabled, B.Enabled, L.Next, B.Next, DirtyAt, Target, Filled, MayChange, DataOk, TouchOk;
    match a {
      case Cache(b) => BS.StepKeeps(j.cache, b);
      case Log(b) => LS.StepKeeps(l, d0, j.log, b);
      case LogWrite(t, op) =>
        LS.StepKeeps(l, d0, j.log, L.LogWrite(op, BufOf(j.cache, t).block, BufOf(j.cache, t).data));
        BS.StepKeeps(j.cache, B.LogWrite(t));
      case Transfer(t, _) =>
        LS.StepKeeps(l, d0, j.log, L.BlockStep);
        BS.StepKeeps(j.cache, B.Write(t));
      case Crash =>
        CanCrash(l, j.log);
        LS.StepKeeps(l, d0, j.log, L.Crash);
        EmptyInv(j.cache.disk);
    }
  }

  lemma CanCrash(l: L.Layout, s: L.State)
    ensures L.Enabled(l, s, L.Crash)
  {}

  lemma CrashKeeps(l: L.Layout, d0: L.Disk, j: State)
    requires Inv(l, d0, j) && LS.Inv(l, d0, Next(l, j, Crash).log)
    ensures Inv(l, d0, Next(l, j, Crash))
  {
    hide LS.Inv, BS.Inv, DirtyAt;
    EmptyInv(j.cache.disk);
  }

  lemma PinnedKeeps(l: L.Layout, d0: L.Disk, j: State, a: Step)
    requires Inv(l, d0, j) && Enabled(l, j, a) && !a.Crash?
    ensures Pinned(Next(l, j, a))
  {
    hide Inv, Enabled, Next, DirtyAt;
    var j' := Next(l, j, a);
    forall x
      ensures x in j'.log.dirty <==> DirtyAt(j'.cache, x)
    {
      PairKeeps(l, d0, j, a, x);
    }
  }

  lemma {:induction false} RunInv(l: L.Layout, d0: L.Disk, trace: seq<State>, steps: seq<Step>, i: nat)
    requires IsRun(l, d0, trace, steps) && i < |trace|
    ensures Inv(l, d0, trace[i])
  {
    hide Enabled, Next, Inv;
    if i == 0 {
      InitInv(l, d0, trace[0]);
    } else {
      RunInv(l, d0, trace, steps, i - 1);
      assert StepOk(l, trace, steps, i - 1);
      StepKeeps(l, d0, trace[i - 1], steps[i - 1]);
    }
  }

  lemma InitInv(l: L.Layout, d0: L.Disk, j: State)
    requires Init(l, d0, j)
    ensures Inv(l, d0, j)
  {
    hide BS.Inv, DirtyAt;
    LS.InitInv(l, d0, j.log);
    EmptyInv(j.cache.disk);
  }

  // In every joint run, the log and the cache have one disk, and a valid buffer
  // with no change pending, so every unlocked one, holds what the log's readers
  // see; while operations run, that is the committed groups with the writes of
  // the current group on top.
  lemma CacheIsView(l: L.Layout, d0: L.Disk, trace: seq<State>, steps: seq<Step>, i: nat, b: nat)
    requires IsRun(l, d0, trace, steps) && i < |trace| && b < B.NBUF && trace[i].cache.bufs[b].valid
    ensures var s, p := trace[i].log, trace[i].cache.bufs[b];
            && trace[i].cache.disk == s.disk && |s.disk| == |d0| && p.block < |d0|
            && (p.holder == None ==> !p.touched)
            && (!p.touched ==> p.data == L.View(s, p.block))
            && (!p.touched && s.phase == L.Running && L.Home(l, |d0|, p.block) ==>
                  p.data == L.Apply(L.Durable(d0, s), s.current)[p.block])
  {
    hide IsRun, LS.DiskInv, LS.MemInv, L.Apply, L.Durable, L.View;
    RunInv(l, d0, trace, steps, i);
    BufFacts(trace[i].cache, b);
    assert BS.BufInv(trace[i].cache, b);
    assert DataOk(trace[i], b);
  }
}
