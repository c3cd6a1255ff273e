/**
 Safety of the redo log: what every step of it keeps.
 */
module LogSafety {
  import opened Common
  import opened Blocks
  import opened LogModel

  // ------------------------------------------------------------ invariants

  // The in-memory header: distinct blocks outside the log that fit the log area.
  predicate HeaderInv(l: Layout, s: State) {
    && ((s.phase.Install? && s.phase.boot) || Distinct(s.blocks))
    && |s.blocks| < l.size
    && |s.blocks| <= LOGSIZE
    && forall i :: 0 <= i < |s.blocks| ==> Home(l, |s.disk|, s.blocks[i])
  }

  // Operations run only in phase Running; log.committing spans the commit.
  predicate ControlInv(s: State) {
    && (s.phase != Running ==> s.ops == map[])
    && (s.committing <==> s.phase.WriteLog? || s.phase.WriteHead? || s.phase == Committed
                          || (s.phase.Install? && !s.phase.boot) || (s.phase.ClearHead? && !s.phase.boot))
    && (s.phase == Running || s.phase.WriteLog? || s.phase.WriteHead? || s.phase.Install? || s.blocks == [])
    && (s.phase == Running || s.phase.WriteLog? || s.phase.WriteHead? || s.current == [])
    && (s.phase.WriteLog? ==> s.phase.tail < |s.blocks|)
    && (s.phase.WriteHead? ==> |s.blocks| > 0)
    && (s.phase.Install? ==> s.phase.tail < |s.blocks|)
  }

  // Operations have their numbers from nextOp, and what they logged is listed.
  predicate OpsInv(s: State) {
    && (forall o :: o in s.ops ==> o < s.nextOp)
    && (forall o :: o in s.ops ==> forall b :: b in s.ops[o] ==> b in s.blocks)
  }

  // Exactly the logged blocks are pinned, and readers see the group's writes
  // on top of the durable state.
  ghost predicate CacheInv(l: Layout, d0: Disk, s: State)
    requires |s.disk| == |d0|
  {
    var d := Durable(d0, s);
    if s.phase.Install? then
      && (forall b :: b in s.dirty ==> b in s.blocks && 0 <= b < |d0| && s.dirty[b] == d[b])
      && (forall i :: 0 <= i < s.phase.tail && i < |s.blocks| ==> s.blocks[i] !in s.dirty)
    else
      && (forall b :: b in s.dirty <==> b in s.blocks)
      && (forall i :: 0 <= i < |s.current| ==> s.current[i].block in s.blocks)
      && (s.phase != Down ==> forall b :: Home(l, |d0|, b) ==> View(s, b) == Apply(d, s.current)[b])
  }

  // What each phase has put in the log area and in the home blocks.
  ghost predicate DiskInv(l: Layout, d0: Disk, s: State)
    requires |s.disk| == |d0| && LayoutOk(l, |d0|) && |s.blocks| < l.size
  {
    var d := Durable(d0, s);
    && CrashOk(l, s.disk, d)
    && (s.phase == Running || s.phase.WriteLog? || s.phase.WriteHead? || s.phase == Committed ==>
          Decode(s.disk[l.start]) == [])
    && (s.phase.WriteLog? ==> s.phase.tail <= |s.blocks| && Copied(l, s, s.phase.tail))
    && (s.phase.WriteHead? ==> Copied(l, s, |s.blocks|))
    && (s.phase.Install? ==>
          && Decode(s.disk[l.start]) == s.blocks
          && s.phase.tail <= |s.blocks|
          && forall i :: 0 <= i < s.phase.tail && 0 <= s.blocks[i] < |s.disk| ==> s.disk[s.blocks[i]] == d[s.blocks[i]])
    && (s.phase.ClearHead? ==> HomeEq(l, s.disk, d))
  }

  // write_log has copied the first k logged blocks from the cache.
  predicate Copied(l: Layout, s: State, k: nat)
    requires LayoutOk(l, |s.disk|) && k <= |s.blocks| < l.size
  {
    forall i :: 0 <= i < k ==> s.blocks[i] in s.dirty && s.disk[l.start + 1 + i] == s.dirty[s.blocks[i]]
  }

  ghost predicate Inv(l: Layout, d0: Disk, s: State) {
    && LayoutOk(l, |d0|)
    && |s.disk| == |d0|
    && MemInv(l, s)
    && CacheInv(l, d0, s)
    && DiskInv(l, d0, s)
  }

  predicate MemInv(l: Layout, s: State) {
    HeaderInv(l, s) && ControlInv(s) && OpsInv(s)
  }

  // ------------------------------------------------------------- each step

  lemma InitInv(l: Layout, d0: Disk, s: State)
    requires Init(l, d0, s)
    ensures Inv(l, d0, s)
  {}

  lemma BeginKeeps(l: Layout, d0: Disk, s: State)
    requires Inv(l, d0, s) && Enabled(l, s, Begin)
    ensures Inv(l, d0, Next(l, s, Begin))
  {
    hide CrashOk, Apply, Flat;
  }

  lemma LogWriteMem(l: Layout, s: State, op: nat, b: int, data: Block)
    requires MemInv(l, s) && Enabled(l, s, LogWrite(op, b, data))
    ensures MemInv(l, Next(l, s, LogWrite(op, b, data)))
  {
    var s' := Next(l, s, LogWrite(op, b, data));
    assert Distinct(s'.blocks);
    assert forall i :: 0 <= i < |s.blocks| ==> s'.blocks[i] == s.blocks[i];
    assert b in s'.blocks;
  }

  lemma SameDurable(d0: Disk, s: State, s': State)
    requires s'.durable == s.durable
    ensures Durable(d0, s') == Durable(d0, s)
  {}

  // Pinning block b and appending the write changes what readers see in b only.
  lemma LogWriteView(l: Layout, d0: Disk, s: State, op: nat, b: int, data: Block, x: int)
    requires |s.disk| == |d0| && CacheInv(l, d0, s) && s.phase == Running && Enabled(l, s, LogWrite(op, b, data))
    requires Home(l, |d0|, x)
    ensures View(Next(l, s, LogWrite(op, b, data)), x)
            == Apply(Durable(d0, s), s.current + [Write(op, b, data)])[x]
  {
    hide Apply, Flat, Durable;
    ApplySnoc(Durable(d0, s), s.current, Write(op, b, data));
    assert View(s, x) == Apply(Durable(d0, s), s.current)[x];
  }

  lemma LogWriteCache(l: Layout, d0: Disk, s: State, op: nat, b: int, data: Block)
    requires |s.disk| == |d0| && CacheInv(l, d0, s) && s.phase == Running && Enabled(l, s, LogWrite(op, b, data))
    ensures CacheInv(l, d0, Next(l, s, LogWrite(op, b, data)))
  {
    hide Apply, Flat, Durable, View, TooBig;
    var s' := Next(l, s, LogWrite(op, b, data));
    SameDurable(d0, s, s');
    forall x | Home(l, |d0|, x)
      ensures View(s', x) == Apply(Durable(d0, s'), s'.current)[x]
    {
      LogWriteView(l, d0, s, op, b, data, x);
    }
    assert forall i :: 0 <= i < |s.blocks| ==> s'.blocks[i] == s.blocks[i];
    assert b in s'.blocks && forall x :: x in s.blocks ==> x in s'.blocks;
  }

  lemma LogWriteKeeps(l: Layout, d0: Disk, s: State, op: nat, b: int, data: Block)
    requires Inv(l, d0, s) && Enabled(l, s, LogWrite(op, b, data))
    ensures Inv(l, d0, Next(l, s, LogWrite(op, b, data)))
  {
    hide CacheInv, HeaderInv, OpsInv, CrashOk, Apply, Flat;
    LogWriteMem(l, s, op, b, data);
    LogWriteCache(l, d0, s, op, b, data);
  }

  lemma EndMem(l: Layout, s: State, op: nat)
    requires MemInv(l, s) && Enabled(l, s, End(op)) && (s.blocks == [] ==> s.current == [])
    ensures MemInv(l, Next(l, s, End(op)))
  {
    var s' := Next(l, s, End(op));
    assert |s'.ops| == 0 ==> s'.ops == map[];
    assert s'.phase == Running || s'.phase == WriteLog(0) || s'.phase == Committed;
  }

  lemma EndCurrent(l: Layout, d0: Disk, s: State)
    requires |s.disk| == |d0| && CacheInv(l, d0, s) && s.phase == Running
    ensures s.blocks == [] ==> s.current == []
  {
    if |s.current| > 0 {
      assert s.current[0].block in s.blocks;
    }
  }

  lemma EndCache(l: Layout, d0: Disk, s: State, op: nat)
    requires |s.disk| == |d0| && CacheInv(l, d0, s) && s.phase == Running && Enabled(l, s, End(op))
    ensures CacheInv(l, d0, Next(l, s, End(op)))
  {
    hide Apply, Flat, Durable;
    SameDurable(d0, s, Next(l, s, End(op)));
  }

  lemma EndDisk(l: Layout, d0: Disk, s: State, op: nat)
    requires |s.disk| == |d0| && LayoutOk(l, |d0|) && |s.blocks| < l.size
    requires DiskInv(l, d0, s) && s.phase == Running && Enabled(l, s, End(op))
    ensures DiskInv(l, d0, Next(l, s, End(op)))
  {
    hide Apply, Flat, Durable, CrashOk, Decode;
    SameDurable(d0, s, Next(l, s, End(op)));
  }

  lemma EndKeeps(l: Layout, d0: Disk, s: State, op: nat)
    requires Inv(l, d0, s) && Enabled(l, s, End(op))
    ensures Inv(l, d0, Next(l, s, End(op)))
  {
    hide CacheInv, DiskInv, OpsInv;
    EndCurrent(l, d0, s);
    EndMem(l, s, op);
    EndCache(l, d0, s, op);
    EndDisk(l, d0, s, op);
  }

  lemma WriteLogMem(l: Layout, s: State)
    requires MemInv(l, s) && s.phase.WriteLog? && BlockEnabled(l, s)
    ensures MemInv(l, NextBlock(l, s))
  {}

  lemma WriteLogCache(l: Layout, d0: Disk, s: State)
    requires Inv(l, d0, s) && s.phase.WriteLog? && BlockEnabled(l, s)
    ensures CacheInv(l, d0, NextBlock(l, s))
  {
    var s' := NextBlock(l, s);
    assert Durable(d0, s') == Durable(d0, s);
    forall b | Home(l, |d0|, b)
      ensures View(s', b) == View(s, b)
    {}
  }

  lemma WriteLogDisk(l: Layout, d0: Disk, s: State)
    requires Inv(l, d0, s) && s.phase.WriteLog? && BlockEnabled(l, s)
    ensures CrashOk(l, NextBlock(l, s).disk, Durable(d0, s))
    ensures Decode(NextBlock(l, s).disk[l.start]) == []
    ensures Copied(l, NextBlock(l, s), s.phase.tail + 1)
  {
    var t := s.phase.tail;
    LogAreaWrite(l, s.disk, Durable(d0, s), l.start + 1 + t, View(s, s.blocks[t]));
    assert s.blocks[t] in s.blocks;
  }

  lemma WriteLogKeeps(l: Layout, d0: Disk, s: State)
    requires Inv(l, d0, s) && s.phase.WriteLog? && BlockEnabled(l, s)
    ensures Inv(l, d0, NextBlock(l, s))
  {
    WriteLogMem(l, s);
    WriteLogCache(l, d0, s);
    WriteLogDisk(l, d0, s);
  }

  lemma WriteHeadMem(l: Layout, s: State)
    requires MemInv(l, s) && s.phase.WriteHead? && BlockEnabled(l, s)
    ensures MemInv(l, NextBlock(l, s))
  {}

  // Once every logged block is copied, a header naming them makes replay
  // restore what readers see.
  lemma HeadHolds(l: Layout, s: State, d: Disk)
    requires |s.disk| == |d| && Fits(l, |d|, s.blocks) && |s.blocks| <= LOGSIZE && Copied(l, s, |s.blocks|)
    requires forall b :: b in s.dirty ==> b in s.blocks
    requires forall b :: Home(l, |d|, b) ==> View(s, b) == d[b]
    ensures var r := s.disk[l.start := Encode(s.disk[l.start], s.blocks)];
            CrashOk(l, r, d) && Decode(r[l.start]) == s.blocks
  {
    hide Encode, Decode;
    var r := s.disk[l.start := Encode(s.disk[l.start], s.blocks)];
    DecodeEncode(s.disk[l.start], s.blocks);
    forall i | 0 <= i < |s.blocks|
      ensures r[l.start + 1 + i] == d[s.blocks[i]]
    {
      assert View(s, s.blocks[i]) == d[s.blocks[i]];
    }
    forall b | Home(l, |r|, b) && b !in s.blocks
      ensures r[b] == d[b]
    {
      assert View(s, b) == d[b];
    }
  }

  // The header write commits: replay now restores the durable state with the
  // whole current group on top of it.
  lemma WriteHeadDisk(l: Layout, d0: Disk, s: State)
    requires Inv(l, d0, s) && s.phase.WriteHead? && BlockEnabled(l, s)
    ensures CrashOk(l, NextBlock(l, s).disk, Apply(Durable(d0, s), s.current))
    ensures Decode(NextBlock(l, s).disk[l.start]) == s.blocks
  {
    hide Flat, Apply, Durable, ControlInv, OpsInv, CrashOk, Decode, Encode;
    HeadHolds(l, s, Apply(Durable(d0, s), s.current));
  }

  lemma WriteHeadKeeps(l: Layout, d0: Disk, s: State)
    requires Inv(l, d0, s) && s.phase.WriteHead? && BlockEnabled(l, s)
    ensures Durable(d0, NextBlock(l, s)) == Apply(Durable(d0, s), s.current)
    ensures Inv(l, d0, NextBlock(l, s))
  {
    WriteHeadMem(l, s);
    WriteHeadDisk(l, d0, s);
    FlatSnoc(s.durable, s.current);
    ApplyConcat(d0, Flat(s.durable), s.current);
    forall b | b in s.dirty
      ensures s.dirty[b] == Apply(Durable(d0, s), s.current)[b]
    {
      var i :| 0 <= i < |s.blocks| && s.blocks[i] == b;
      assert View(s, b) == s.dirty[b];
    }
  }

  lemma InstallMem(l: Layout, s: State)
    requires MemInv(l, s) && s.phase.Install? && BlockEnabled(l, s)
    ensures MemInv(l, NextBlock(l, s))
  {}

  lemma InstallCache(l: Layout, d0: Disk, s: State)
    requires |s.disk| == |d0| && CacheInv(l, d0, s) && s.phase.Install? && BlockEnabled(l, s)
    ensures var m := NextBlock(l, s).dirty;
            && (forall b :: b in m ==> b in s.blocks && 0 <= b < |d0| && m[b] == Durable(d0, s)[b])
            && (forall i :: 0 <= i <= s.phase.tail ==> s.blocks[i] !in m)
            && (s.phase.tail + 1 == |s.blocks| ==> m == map[])
  {
    var m := NextBlock(l, s).dirty;
    if s.phase.tail + 1 == |s.blocks| {
      forall b | b in m
        ensures false
      {
        var i :| 0 <= i < |s.blocks| && s.blocks[i] == b;
      }
    }
  }

  lemma InstallDisk(l: Layout, d0: Disk, s: State)
    requires |s.disk| == |d0| && BlockEnabled(l, s) && DiskInv(l, d0, s) && s.phase.Install?
    ensures var d := NextBlock(l, s).disk;
            && CrashOk(l, d, Durable(d0, s))
            && Decode(d[l.start]) == s.blocks
            && (forall i :: 0 <= i <= s.phase.tail ==> d[s.blocks[i]] == Durable(d0, s)[s.blocks[i]])
  {
    hide Durable;
    var t, d := s.phase.tail, NextBlock(l, s).disk;
    InstallOne(l, s.disk, s.blocks, Durable(d0, s), t);
    assert d[l.start] == s.disk[l.start];
    forall i | 0 <= i <= t
      ensures d[s.blocks[i]] == Durable(d0, s)[s.blocks[i]]
    {
      if i < t {
        assert s.disk[s.blocks[i]] == Durable(d0, s)[s.blocks[i]];
      }
    }
  }

  lemma InstallKeeps(l: Layout, d0: Disk, s: State)
    requires Inv(l, d0, s) && s.phase.Install? && BlockEnabled(l, s)
    ensures Inv(l, d0, NextBlock(l, s))
  {
    InstallMem(l, s);
    InstallCache(l, d0, s);
    InstallDisk(l, d0, s);
    var s' := NextBlock(l, s);
    assert Durable(d0, s') == Durable(d0, s);
    if s.phase.tail + 1 == |s.blocks| {
      AllInstalled(l, s'.disk, s.blocks, Durable(d0, s));
    }
  }

  lemma ClearHeadKeeps(l: Layout, d0: Disk, s: State)
    requires Inv(l, d0, s) && (s.phase.ClearHead? || s.phase == Committed) && BlockEnabled(l, s)
    ensures Inv(l, d0, NextBlock(l, s))
  {
    if s.phase.ClearHead? {
      ClearWrite(l, s.disk, Durable(d0, s));
    }
  }

  lemma CrashKeeps(l: Layout, d0: Disk, s: State)
    requires Inv(l, d0, s)
    ensures Inv(l, d0, Next(l, s, Crash))
  {}

  lemma ReadHeadKeeps(l: Layout, d0: Disk, s: State)
    requires Inv(l, d0, s) && s.phase == Down && BlockEnabled(l, s)
    ensures Inv(l, d0, NextBlock(l, s))
  {}

  // Inv is inductive.
  lemma StepKeeps(l: Layout, d0: Disk, s: State, a: Step)
    requires Inv(l, d0, s) && Enabled(l, s, a)
    ensures Inv(l, d0, Next(l, s, a))
  {
    match a
    case Begin => BeginKeeps(l, d0, s);
    case LogWrite(op, b, data) => LogWriteKeeps(l, d0, s, op, b, data);
    case End(op) => EndKeeps(l, d0, s, op);
    case Crash => CrashKeeps(l, d0, s);
    case BlockStep =>
      match s.phase
      case WriteLog(_) => WriteLogKeeps(l, d0, s);
      case WriteHead => WriteHeadKeeps(l, d0, s);
      case Install(_, _) => InstallKeeps(l, d0, s);
      case ClearHead(_) => ClearHeadKeeps(l, d0, s);
      case Committed => ClearHeadKeeps(l, d0, s);
      case Down => ReadHeadKeeps(l, d0, s);
  }
}
