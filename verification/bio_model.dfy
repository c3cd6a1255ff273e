/**
 The buffer cache of bio.c over the in-memory disk of memide.c, as a machine.
 Each step is one critical section of bcache.lock, one operation on a buffer's
 sleep lock, or one transfer between a locked buffer and the disk.
 */
module BioModel {
  import opened Blocks
  import opened Common

  const NBUF := 30
  const ROOTDEV := 1

  // `touched` says that the holder has changed the data and has not yet called
  // log_write or bwrite.
  datatype Buf = Buf(
    dev: nat, block: nat, refcnt: nat, valid: bool, dirty: bool,
    data: Block, holder: Option<nat>, touched: bool)

  type Bufs = b: seq<Buf> | |b| == NBUF witness seq(NBUF, _ => Buf(0, 0, 0, false, false, Zeros(), None, false))

  datatype Phase = Waiting | Holding | Leaving   // in acquiresleep, past it, past releasesleep

  datatype Ref = Ref(buf: nat, phase: Phase)

  datatype State = State(
    bufs: Bufs,
    order: seq<nat>,              // the list from head.next on
    refs: map<nat, Ref>,          // the uses under way, each from one bget to its brelse
    disk: seq<Block>)

  // t numbers a use of a buffer. A process may have several under way at once.
  datatype Step =
    | Get(t: nat, dev: nat, block: nat)   // bget up to acquiresleep
    | Lock(t: nat)                        // acquiresleep succeeds
    | Fetch(t: nat)                       // bread's iderw on an invalid buffer
    | Modify(t: nat, data: Block)
    | LogWrite(t: nat)                    // log_write sets B_DIRTY
    | Write(t: nat)                       // bwrite
    | Unlock(t: nat)                      // brelse's releasesleep
    | Drop(t: nat)                        // the rest of brelse

  predicate Matches(b: Buf, dev: nat, block: nat) {
    b.dev == dev && b.block == block
  }

  // Neither in use nor pinned by the log.
  predicate Idle(b: Buf) {
    b.refcnt == 0 && !b.dirty
  }

  // bget's forward scan: the first buffer of the list that holds the block.
  function Find(bufs: Bufs, order: seq<nat>, dev: nat, block: nat): (r: Option<nat>)
    ensures r.Some? ==> r.value in order && r.value < NBUF && Matches(bufs[r.value], dev, block)
    ensures r.None? ==> forall i :: 0 <= i < |order| && order[i] < NBUF ==> !Matches(bufs[order[i]], dev, block)
  {
    if order == [] then None
    else if order[0] < NBUF && Matches(bufs[order[0]], dev, block) then Some(order[0])
    else Find(bufs, order[1..], dev, block)
  }

  // bget's backward scan: the last idle buffer of the list.
  function Victim(bufs: Bufs, order: seq<nat>): (r: Option<nat>)
    ensures r.Some? ==> r.value in order && r.value < NBUF && Idle(bufs[r.value])
    ensures r.None? ==> forall i :: 0 <= i < |order| && order[i] < NBUF ==> !Idle(bufs[order[i]])
  {
    if order == [] then None
    else
      var n := |order| - 1;
      if order[n] < NBUF && Idle(bufs[order[n]]) then Some(order[n]) else Victim(bufs, order[..n])
  }

  // Some(b) when buffer b is ready to be locked, or None for the panic.
  function GetBuf(s: State, dev: nat, block: nat): (r: Option<nat>) {
    var f := Find(s.bufs, s.order, dev, block);
    if f.Some? then f else Victim(s.bufs, s.order)
  }

  function Without(order: seq<nat>, b: nat): (r: seq<nat>) {
    if order == [] then []
    else if order[0] == b then order[1..]
    else [order[0]] + Without(order[1..], b)
  }

  predicate Holds(s: State, t: nat) {
    t in s.refs && s.refs[t].phase == Holding && s.refs[t].buf < NBUF
  }

  predicate OnDisk(s: State, b: nat)
    requires b < NBUF
  {
    s.bufs[b].dev == ROOTDEV && s.bufs[b].block < |s.disk|
  }

  predicate Enabled(s: State, a: Step) {
    match a
    case Get(t, dev, block) => t !in s.refs && GetBuf(s, dev, block).Some?
    case Lock(t) => t in s.refs && s.refs[t].phase == Waiting && s.refs[t].buf < NBUF && s.bufs[s.refs[t].buf].holder == None
    case Fetch(t) => Holds(s, t) && !s.bufs[s.refs[t].buf].valid && OnDisk(s, s.refs[t].buf)
    case Modify(t, _) => Holds(s, t) && s.bufs[s.refs[t].buf].valid
    case LogWrite(t) => Holds(s, t) && s.bufs[s.refs[t].buf].valid
    case Write(t) => Holds(s, t) && s.bufs[s.refs[t].buf].valid && OnDisk(s, s.refs[t].buf)
    // A holder that changed the data has called log_write or bwrite.
    case Unlock(t) => Holds(s, t) && !s.bufs[s.refs[t].buf].touched
    case Drop(t) => t in s.refs && s.refs[t].phase == Leaving && s.refs[t].buf < NBUF && s.bufs[s.refs[t].buf].refcnt > 0
  }

  function Next(s: State, a: Step): (r: State)
    requires Enabled(s, a)
  {
    match a
    case Get(t, dev, block) =>
      var b := GetBuf(s, dev, block).value;
      var p := s.bufs[b];
      s.(bufs := s.bufs[b := if Find(s.bufs, s.order, dev, block).Some? then p.(refcnt := p.refcnt + 1)
                             else p.(dev := dev, block := block, valid := false, dirty := false, refcnt := 1)],
         refs := s.refs[t := Ref(b, Waiting)])
    case Lock(t) =>
      var b := s.refs[t].buf;
      s.(bufs := s.bufs[b := s.bufs[b].(holder := Some(t))], refs := s.refs[t := Ref(b, Holding)])
    case Fetch(t) =>
      var b := s.refs[t].buf;
      s.(bufs := s.bufs[b := s.bufs[b].(data := s.disk[s.bufs[b].block], valid := true)])
    case Modify(t, data) =>
      var b := s.refs[t].buf;
      s.(bufs := s.bufs[b := s.bufs[b].(data := data, touched := true)])
    case LogWrite(t) =>
      var b := s.refs[t].buf;
      s.(bufs := s.bufs[b := s.bufs[b].(dirty := true, touched := false)])
    case Write(t) =>
      var b := s.refs[t].buf;
      s.(disk := s.disk[s.bufs[b].block := s.bufs[b].data],
         bufs := s.bufs[b := s.bufs[b].(valid := true, dirty := false, touched := false)])
    case Unlock(t) =>
      var b := s.refs[t].buf;
      s.(bufs := s.bufs[b := s.bufs[b].(holder := None)], refs := s.refs[t := Ref(b, Leaving)])
    case Drop(t) =>
      var b := s.refs[t].buf;
      var p := s.bufs[b].(refcnt := s.bufs[b].refcnt - 1);
      if p.refcnt > 0 then s.(bufs := s.bufs[b := p], refs := s.refs - {t})
      else
        s.(bufs := s.bufs[b := p], order := [b] + Without(s.order, b), refs := s.refs - {t})
  }

  // The cache as binit leaves it: the last buffer linked comes first.
  ghost predicate Init(s: State) {
    && (forall b :: 0 <= b < NBUF ==> s.bufs[b] == Buf(0, 0, 0, false, false, Zeros(), None, false))
    && |s.order| == NBUF && (forall i :: 0 <= i < NBUF ==> s.order[i] == NBUF - 1 - i)
    && s.refs == map[]
  }

  predicate StepOk(trace: seq<State>, steps: seq<Step>, i: nat)
    requires |trace| == |steps| + 1 && i < |steps|
  {
    Enabled(trace[i], steps[i]) && trace[i + 1] == Next(trace[i], steps[i])
  }

  ghost predicate IsRun(trace: seq<State>, steps: seq<Step>) {
    && |trace| == |steps| + 1
    && Init(trace[0])
    && forall i {:trigger StepOk(trace, steps, i)} :: 0 <= i < |steps| ==> StepOk(trace, steps, i)
  }
}
