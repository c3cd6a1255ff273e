/**
 The file system over the redo log: what a crash leaves of the image. The log
 sees a block as 32-bit words and the file system as bytes.
 */
module CrashFs {
  import opened FsModel
  import opened FsEffects
  import opened FsImage
  import opened Fs
  import Blocks
  import L = LogModel
  import LS = LogSafety
  import LH = LogHistory

  // Byte k of a little-endian word, the word taken modulo 2^32.
  function WordByte(w: int, k: nat): (r: byte)
    requires k < 4
  {
    var v := w % UINT;
    if k == 0 then v % 0x100
    else if k == 1 then v / 0x100 % 0x100
    else if k == 2 then v / 0x1_0000 % 0x100
    else v / 0x100_0000 % 0x100
  }

  function ByteIn(b: Blocks.Block, i: nat): (r: byte)
    requires i < BSIZE
  {
    WordByte(b.words[i / 4], i % 4)
  }

  function FsBytes(b: Blocks.Block): (r: seq<byte>)
    ensures |r| == BSIZE && forall i :: 0 <= i < BSIZE ==> r[i] == ByteIn(b, i)
  {
    seq(BSIZE, i requires 0 <= i < BSIZE => ByteIn(b, i))
  }

  function FsBlock(b: Blocks.Block): (r: Block) {
    Block(FsBytes(b))
  }

  // The two views of a block agree on its words.
  lemma WordsAgree(b: Blocks.Block, j: nat)
    requires j < Blocks.BLOCKWORDS
    ensures Word(FsBlock(b), j) == b.words[j] % UINT
  {
    hide ByteIn;
    var w := b.words[j];
    WordBytes(w % UINT);
    ByteOfWord(b, j, 0);
    ByteOfWord(b, j, 1);
    ByteOfWord(b, j, 2);
    ByteOfWord(b, j, 3);
  }

  lemma ByteOfWord(b: Blocks.Block, j: nat, k: nat)
    requires j < Blocks.BLOCKWORDS && k < 4
    ensures ByteIn(b, 4 * j + k) == WordByte(b.words[j], k)
  {
    assert (4 * j + k) / 4 == j && (4 * j + k) % 4 == k;
  }

  function Image(d: L.Disk): (r: seq<Block>) {
    seq(|d|, x requires 0 <= x < |d| => FsBlock(d[x]))
  }

  // --------------------------------------------- what an image depends on

  // From the first inode block on, the two images are the same.
  ghost predicate SameFrom(sb: Super, B: seq<Block>, B': seq<Block>) {
    |B| == |B'| && forall x :: sb.inodestart <= x < |B| ==> B'[x] == B[x]
  }

  lemma SameSlot(sb: Super, B: seq<Block>, B': seq<Block>, I: seq<Inode>, i: nat, k: nat)
    requires Consistent(sb, B, I) && SameFrom(sb, B, B') && AddrsOk(B', I) && i < |I| && k < NSLOTS
    ensures SlotAt(B', I, i, k) == SlotAt(B, I, i, k)
  {
    assert Held(sb, B, SlotAt(B, I, i, NDIRECT));
  }

  lemma SameUsed(sb: Super, B: seq<Block>, B': seq<Block>, b: nat)
    requires Fits(sb, B) && SameFrom(sb, B, B') && b < sb.size
    ensures Used(sb, B', b) == Used(sb, B, b)
  {
    BBlockRange(sb, b);
  }

  lemma SameConsistent(sb: Super, B: seq<Block>, B': seq<Block>, I: seq<Inode>)
    requires Consistent(sb, B, I) && SameFrom(sb, B, B')
    ensures Consistent(sb, B', I)
    ensures forall i, k :: 0 <= i < |I| && 0 <= k < NSLOTS ==> SlotAt(B', I, i, k) == SlotAt(B, I, i, k)
  {
    hide Used;
    assert AddrsOk(B', I);
    forall i, k | 0 <= i < |I| && 0 <= k < NSLOTS
      ensures SlotAt(B', I, i, k) == SlotAt(B, I, i, k) && Held(sb, B', SlotAt(B', I, i, k))
    {
      SameSlot(sb, B, B', I, i, k);
      assert Held(sb, B, SlotAt(B, I, i, k));
      if SlotAt(B, I, i, k) != 0 {
        SameUsed(sb, B, B', SlotAt(B, I, i, k));
      }
    }
    forall b | 0 <= b < sb.datastart
      ensures Used(sb, B', b)
    {
      SameUsed(sb, B, B', b);
    }
  }

  lemma SameDinode(sb: Super, B: seq<Block>, B': seq<Block>, i: nat)
    requires Fits(sb, B) && SameFrom(sb, B, B') && i < sb.ninodes
    ensures DiskInode(sb, B', i) == DiskInode(sb, B, i)
  {
    IBlockRange(sb, i);
  }

  lemma SameMapped(sb: Super, B: seq<Block>, B': seq<Block>, I: seq<Inode>)
    requires AddrsOk(B, I) && AddrsOk(B', I) && AllMapped(B, I)
    requires forall i, k :: 0 <= i < |I| && 0 <= k < NSLOTS ==> SlotAt(B', I, i, k) == SlotAt(B, I, i, k)
    ensures AllMapped(B', I)
  {
    forall j | 0 <= j < |I|
      ensures NoHoles(B', I[j])
    {
      assert NoHoles(B, I[j]);
      forall bn | 0 <= bn < MAXFILE && bn * BSIZE < I[j].size
        ensures Slot(B', I[j], SlotFor(bn)) != 0
      {
        assert SlotAt(B', I, j, SlotFor(bn)) == SlotAt(B, I, j, SlotFor(bn));
        assert Slot(B, I[j], SlotFor(bn)) != 0;
      }
    }
  }

  // The invariant of the file system and every file's content depend on the
  // blocks from the first inode block on.
  lemma SameImage(sb: Super, B: seq<Block>, B': seq<Block>, I: seq<Inode>)
    requires ValidImage(sb, B, I) && SameFrom(sb, B, B')
    ensures ValidImage(sb, B', I)
    ensures forall j :: 0 <= j < |I| ==> I[j].size <= MAXBYTES && Content(B', I, j) == Content(B, I, j)
  {
    hide Used, DiskInode, SlotAt, Held;
    SameConsistent(sb, B, B', I);
    SameMapped(sb, B, B', I);
    forall i | 0 <= i < |I|
      ensures DiskInode(sb, B', i) == I[i]
    {
      SameDinode(sb, B, B', i);
    }
    forall j | 0 <= j < |I|
      ensures I[j].size <= MAXBYTES && Content(B', I, j) == Content(B, I, j)
    {
      assert NoHoles(B, I[j]);
      SameBytes(sb, B, B', I, j);
    }
  }

  lemma SameBytes(sb: Super, B: seq<Block>, B': seq<Block>, I: seq<Inode>, j: nat)
    requires Consistent(sb, B, I) && SameFrom(sb, B, B') && AddrsOk(B', I) && j < |I| && NoHoles(B, I[j])
    ensures Content(B', I, j) == Content(B, I, j)
  {
    forall k | 0 <= k < I[j].size
      ensures ByteAt(B', I, j, k) == ByteAt(B, I, j, k)
    {
      SameSlot(sb, B, B', I, j, SlotFor(k / BSIZE));
      assert Held(sb, B, SlotAt(B, I, j, SlotFor(k / BSIZE)));
      assert Slot(B, I[j], SlotFor(k / BSIZE)) != 0;
    }
  }

  // ----------------------------------------------------------- log and image

  // The log area lies before the first inode block, as mkfs lays them out.
  predicate LogBelow(l: L.Layout, sb: Super) {
    l.start + l.size <= sb.inodestart
  }

  lemma HomeImage(l: L.Layout, sb: Super, a: L.Disk, b: L.Disk)
    requires LogBelow(l, sb) && L.HomeEq(l, a, b)
    ensures SameFrom(sb, Image(a), Image(b))
  {
    forall x | sb.inodestart <= x < |a|
      ensures Image(b)[x] == Image(a)[x]
    {
      assert L.Home(l, |a|, x);
    }
  }

  // Some list of inodes makes the image on d a valid file system.
  ghost predicate ValidDisk(sb: Super, d: L.Disk) {
    exists I :: ValidImage(sb, Image(d), I)
  }

  lemma ValidHome(l: L.Layout, sb: Super, a: L.Disk, b: L.Disk)
    requires LogBelow(l, sb) && L.HomeEq(l, a, b) && ValidDisk(sb, a)
    ensures ValidDisk(sb, b)
  {
    hide ValidImage, Image;
    HomeImage(l, sb, a, b);
    var I :| ValidImage(sb, Image(a), I);
    SameImage(sb, Image(a), Image(b), I);
  }

  // What the file system reads in state s, through the cache.
  function Seen(s: L.State): (r: L.Disk) {
    seq(|s.disk|, x requires 0 <= x < |s.disk| => L.View(s, x))
  }

  // No operation is under way.
  predicate Idle(s: L.State) {
    s.phase == L.Running && s.ops == map[]
  }

  // From state i, where no operation is under way, to state j, where the last
  // of a group of operations has just ended.
  ghost predicate Group(trace: seq<L.State>, steps: seq<L.Step>, i: nat, j: nat) {
    && |trace| == |steps| + 1 && i <= j < |trace|
    && Idle(trace[i]) && trace[j].ops == map[]
    && Operating(steps, i, j)
  }

  ghost predicate Operating(steps: seq<L.Step>, i: nat, j: nat)
    requires j <= |steps|
  {
    forall k :: i <= k < j ==> steps[k].Begin? || steps[k].LogWrite? || steps[k].End?
  }

  // Every group of operations takes a valid file system to a valid one.
  ghost predicate GroupsKeep(sb: Super, trace: seq<L.State>, steps: seq<L.Step>) {
    forall i: nat, j: nat :: Group(trace, steps, i, j) && ValidDisk(sb, Seen(trace[i])) ==> ValidDisk(sb, Seen(trace[j]))
  }

  // Outside install_trans and a crash, readers see the durable groups and, on
  // top of them, the writes of the group being collected.
  lemma SeenIs(l: L.Layout, d0: L.Disk, s: L.State)
    requires LS.Inv(l, d0, s) && !s.phase.Install? && s.phase != L.Down
    ensures L.HomeEq(l, Seen(s), L.Apply(L.Durable(d0, s), s.current))
  {
    hide LS.DiskInv, L.Apply, L.Flat, L.Durable, LS.MemInv;
  }

  // An idle state has nothing pending.
  lemma IdleSeen(l: L.Layout, d0: L.Disk, s: L.State)
    requires LS.Inv(l, d0, s) && Idle(s) && s.current == []
    ensures L.HomeEq(l, Seen(s), L.Durable(d0, s))
  {
    hide LS.Inv, L.Flat, L.Durable;
    SeenIs(l, d0, s);
  }

  // --------------------------------------------------------------- all runs

  // Operations have been running since state g, where none was under way.
  ghost predicate Since(sb: Super, trace: seq<L.State>, steps: seq<L.Step>, g: nat, i: nat) {
    && |trace| == |steps| + 1 && g <= i < |trace|
    && Idle(trace[g]) && Operating(steps, g, i)
    && ValidDisk(sb, Seen(trace[g]))
  }

  // What has been committed is a valid file system, and so is what a commit
  // under way is about to make durable.
  ghost predicate Sound(sb: Super, d0: L.Disk, trace: seq<L.State>, steps: seq<L.Step>, i: nat)
    requires i < |trace|
  {
    var s := trace[i];
    && ValidDisk(sb, L.Durable(d0, s))
    && (s.phase == L.Running ==> exists g :: Since(sb, trace, steps, g, i))
    && (s.phase.WriteLog? || s.phase.WriteHead? ==> ValidDisk(sb, L.Apply(L.Durable(d0, s), s.current)))
    && (Idle(s) ==> s.current == [])
  }

  // The last operation of a group ends.
  lemma GroupEnds(l: L.Layout, sb: Super, d0: L.Disk, trace: seq<L.State>, steps: seq<L.Step>, g: nat, i: nat)
    requires LogBelow(l, sb) && GroupsKeep(sb, trace, steps) && Since(sb, trace, steps, g, i) && i < |steps|
    requires steps[i].End? && trace[i + 1].phase.WriteLog? && LS.Inv(l, d0, trace[i + 1])
    ensures ValidDisk(sb, L.Apply(L.Durable(d0, trace[i + 1]), trace[i + 1].current))
  {
    hide ValidDisk, LS.CacheInv, LS.DiskInv, L.Apply, L.Durable;
    var s' := trace[i + 1];
    assert Group(trace, steps, g, i + 1);
    SeenIs(l, d0, s');
    ValidHome(l, sb, Seen(s'), L.Apply(L.Durable(d0, s'), s'.current));
  }

  // A state that readers leave with nothing pending starts the next group.
  lemma GroupStarts(l: L.Layout, sb: Super, d0: L.Disk, trace: seq<L.State>, steps: seq<L.Step>, i: nat)
    requires LogBelow(l, sb) && |trace| == |steps| + 1 && i < |trace|
    requires LS.Inv(l, d0, trace[i]) && Idle(trace[i]) && trace[i].current == [] && ValidDisk(sb, L.Durable(d0, trace[i]))
    ensures Since(sb, trace, steps, i, i)
  {
    hide ValidDisk, LS.Inv, L.Durable, Seen;
    IdleSeen(l, d0, trace[i]);
    HomeSym(l, Seen(trace[i]), L.Durable(d0, trace[i]));
    ValidHome(l, sb, L.Durable(d0, trace[i]), Seen(trace[i]));
  }

  lemma HomeSym(l: L.Layout, a: L.Disk, b: L.Disk)
    requires L.HomeEq(l, a, b)
    ensures L.HomeEq(l, b, a)
  {
    forall x | L.Home(l, |b|, x)
      ensures b[x] == a[x]
    {
      assert L.Home(l, |a|, x);
    }
  }

  // How a step moves between the phases.
  predicate PhaseStep(s: L.State, s': L.State, a: L.Step) {
    match a
    case Begin => s.phase == L.Running && s'.phase == L.Running && s'.ops != map[]
    case LogWrite(_, _, _) => s'.phase == s.phase && s'.ops != map[]
    case End(_) => (s'.phase == s.phase && s'.ops != map[]) || s'.phase.WriteLog? || s'.phase == L.Committed
    case Crash => s'.phase == L.Down
    case BlockStep =>
      match s.phase
      case WriteLog(_) => s'.phase.WriteLog? || s'.phase.WriteHead?
      case ClearHead(boot) => s'.phase == (if boot then L.Running else L.Committed)
      case Committed => s'.phase == L.Running
      case _ => s'.phase.Install? || s'.phase.ClearHead?
  }

  lemma PhaseMoves(l: L.Layout, s: L.State, a: L.Step)
    requires L.Enabled(l, s, a)
    ensures PhaseStep(s, L.Next(l, s, a), a)
  {
    hide L.Encode, L.Decode, L.View;
    if a.Begin? {
      assert s.nextOp in L.Next(l, s, a).ops;
    }
    if a.LogWrite? {
      assert a.op in L.Next(l, s, a).ops;
    }
  }

  // The durable groups and the writes being collected, after one step.
  lemma SoundDurable(l: L.Layout, d0: L.Disk, s: L.State, a: L.Step)
    requires LS.Inv(l, d0, s) && L.Enabled(l, s, a)
    ensures var s' := L.Next(l, s, a);
            if a.BlockStep? && s.phase.WriteHead? then L.Durable(d0, s') == L.Apply(L.Durable(d0, s), s.current)
            else L.Durable(d0, s') == L.Durable(d0, s) && (a.BlockStep? ==> s'.current == s.current)
  {
    hide LS.Inv, L.Enabled, L.Next, L.Durable, L.Apply;
    LH.CommitPoint(l, s, a);
    if a.BlockStep? && s.phase.WriteHead? {
      BlockIs(l, s);
      LS.WriteHeadKeeps(l, d0, s);
    } else {
      LS.SameDurable(d0, s, L.Next(l, s, a));
    }
  }

  lemma BlockIs(l: L.Layout, s: L.State)
    requires L.Enabled(l, s, L.BlockStep)
    ensures L.BlockEnabled(l, s) && L.Next(l, s, L.BlockStep) == L.NextBlock(l, s)
  {}

  // While no operation runs, nothing waits to be committed, except during a commit.
  lemma NothingPending(l: L.Layout, d0: L.Disk, s: L.State)
    requires LS.Inv(l, d0, s) && s.phase != L.Running
    ensures s.ops == map[]
    ensures !s.phase.WriteLog? && !s.phase.WriteHead? ==> s.current == []
  {}

  lemma OperationSound(l: L.Layout, sb: Super, d0: L.Disk, trace: seq<L.State>, steps: seq<L.Step>, i: nat)
    requires LogBelow(l, sb) && GroupsKeep(sb, trace, steps) && |trace| == |steps| + 1 && i < |steps|
    requires LS.Inv(l, d0, trace[i]) && LS.Inv(l, d0, trace[i + 1]) && L.StepOk(l, trace, steps, i)
    requires steps[i].Begin? || steps[i].LogWrite? || steps[i].End?
    requires Sound(sb, d0, trace, steps, i) && trace[i].phase == L.Running
    ensures Sound(sb, d0, trace, steps, i + 1)
  {
    hide ValidDisk, LS.Inv, L.Enabled, L.Next, L.Durable, L.Apply, GroupsKeep, Seen, Idle;
    var s, s', a := trace[i], trace[i + 1], steps[i];
    SoundDurable(l, d0, s, a);
    PhaseMoves(l, s, a);
    var g :| Since(sb, trace, steps, g, i);
    if s'.phase == L.Running {
      assert Since(sb, trace, steps, g, i + 1);
    } else if s'.phase.WriteLog? {
      GroupEnds(l, sb, d0, trace, steps, g, i);
    }
    IdleOps(s');
  }

  lemma IdleOps(s: L.State)
    ensures Idle(s) <==> s.phase == L.Running && s.ops == map[]
  {}

  lemma CommitSound(l: L.Layout, sb: Super, d0: L.Disk, trace: seq<L.State>, steps: seq<L.Step>, i: nat)
    requires LogBelow(l, sb) && |trace| == |steps| + 1 && i < |steps|
    requires LS.Inv(l, d0, trace[i]) && LS.Inv(l, d0, trace[i + 1]) && L.StepOk(l, trace, steps, i)
    requires steps[i].BlockStep? || steps[i].Crash?
    requires Sound(sb, d0, trace, steps, i)
    ensures Sound(sb, d0, trace, steps, i + 1)
  {
    hide ValidDisk, LS.Inv, L.Next, L.BlockEnabled, L.Durable, L.Apply, Seen, Idle;
    var s, s', a := trace[i], trace[i + 1], steps[i];
    SoundDurable(l, d0, s, a);
    PhaseMoves(l, s, a);
    IdleOps(s');
    if s'.phase == L.Running {
      NothingPending(l, d0, s);
      StillNone(l, s);
      GroupStarts(l, sb, d0, trace, steps, i + 1);
    }
  }

  lemma StillNone(l: L.Layout, s: L.State)
    requires L.Enabled(l, s, L.BlockStep) && s.ops == map[]
    ensures L.Next(l, s, L.BlockStep).ops == map[]
  {
    hide L.Encode, L.Decode, L.View;
  }

  lemma {:induction false} RunSound(l: L.Layout, sb: Super, d0: L.Disk, trace: seq<L.State>, steps: seq<L.Step>, i: nat)
    requires L.IsRun(l, d0, trace, steps) && i < |trace|
    requires LogBelow(l, sb) && ValidDisk(sb, d0) && GroupsKeep(sb, trace, steps)
    ensures Sound(sb, d0, trace, steps, i)
  {
    hide ValidDisk, GroupsKeep, LS.Inv, LH.HistInv, L.Enabled, L.Next, Sound;
    if i == 0 {
      StartSound(l, sb, d0, trace, steps);
    } else {
      RunSound(l, sb, d0, trace, steps, i - 1);
      LH.RunInv(l, d0, trace, steps, i - 1);
      LH.RunInv(l, d0, trace, steps, i);
      assert L.StepOk(l, trace, steps, i - 1);
      if steps[i - 1].BlockStep? || steps[i - 1].Crash? {
        CommitSound(l, sb, d0, trace, steps, i - 1);
      } else {
        OperationRuns(l, d0, trace[i - 1], steps[i - 1]);
        OperationSound(l, sb, d0, trace, steps, i - 1);
      }
    }
  }

  lemma StartSound(l: L.Layout, sb: Super, d0: L.Disk, trace: seq<L.State>, steps: seq<L.Step>)
    requires L.IsRun(l, d0, trace, steps) && ValidDisk(sb, d0)
    ensures Sound(sb, d0, trace, steps, 0)
  {
    hide ValidDisk;
  }

  lemma OperationRuns(l: L.Layout, d0: L.Disk, s: L.State, a: L.Step)
    requires LS.Inv(l, d0, s) && L.Enabled(l, s, a) && (a.Begin? || a.LogWrite? || a.End?)
    ensures s.phase == L.Running
  {
    if s.phase != L.Running {
      NothingPending(l, d0, s);
    }
  }

  // After a crash at any point of any run, recovery leaves a file system that
  // satisfies the invariant of the block layer, provided every group of
  // operations keeps it when no crash intervenes.
  lemma ValidAfterCrash(l: L.Layout, sb: Super, d0: L.Disk, trace: seq<L.State>, steps: seq<L.Step>, i: nat)
    requires L.IsRun(l, d0, trace, steps) && i < |trace|
    requires LogBelow(l, sb) && ValidDisk(sb, d0) && GroupsKeep(sb, trace, steps)
    ensures L.HeadValid(l, trace[i].disk) && ValidDisk(sb, L.Recover(l, trace[i].disk))
  {
    hide ValidDisk, GroupsKeep, L.IsRun, L.HeadValid, L.Recover;
    RunSound(l, sb, d0, trace, steps, i);
    LH.CrashAtomicity(l, d0, trace, steps, i);
    HomeSym(l, L.Recover(l, trace[i].disk), L.Durable(d0, trace[i]));
    ValidHome(l, sb, L.Durable(d0, trace[i]), L.Recover(l, trace[i].disk));
  }

  // The commit that made the last durable group durable.
  lemma {:induction false} LastCommit(l: L.Layout, d0: L.Disk, trace: seq<L.State>, steps: seq<L.Step>, i: nat) returns (g: nat)
    requires L.IsRun(l, d0, trace, steps) && i < |trace|
    ensures trace[i].durable != [] ==>
              && g < i && trace[g].ops == map[] && trace[g].phase.WriteHead?
              && L.HomeEq(l, Seen(trace[g]), L.Durable(d0, trace[i]))
  {
    hide LS.Inv, LH.HistInv, L.Enabled, L.Next, L.Durable, Seen, L.HomeEq, L.Apply;
    g := 0;
    if i > 0 {
      g := LastCommit(l, d0, trace, steps, i - 1);
      var s, a := trace[i - 1], steps[i - 1];
      LH.RunInv(l, d0, trace, steps, i - 1);
      assert L.StepOk(l, trace, steps, i - 1);
      SoundDurable(l, d0, s, a);
      LH.CommitPoint(l, s, a);
      if a.BlockStep? && s.phase.WriteHead? {
        g := i - 1;
        NothingPending(l, d0, s);
        SeenIs(l, d0, s);
      }
    }
  }

  // After a crash every file reads as it did at boot or at one earlier moment
  // at which no operation was under way.
  lemma FilesAfterCrash(l: L.Layout, sb: Super, d0: L.Disk, trace: seq<L.State>, steps: seq<L.Step>, i: nat)
    returns (before: L.Disk, I: seq<Inode>)
    requires L.IsRun(l, d0, trace, steps) && i < |trace|
    requires LogBelow(l, sb) && ValidDisk(sb, d0) && GroupsKeep(sb, trace, steps)
    ensures before == d0 || exists g :: 0 <= g < i && trace[g].ops == map[] && before == Seen(trace[g])
    ensures L.HeadValid(l, trace[i].disk)
    ensures var after := L.Recover(l, trace[i].disk);
            && ValidImage(sb, Image(before), I) && ValidImage(sb, Image(after), I)
            && forall j :: 0 <= j < |I| ==> I[j].size <= MAXBYTES && Content(Image(after), I, j) == Content(Image(before), I, j)
  {
    hide GroupsKeep, L.IsRun, L.HeadValid, L.Recover, ValidImage, Image, Content, Seen, L.Apply;
    ValidAfterCrash(l, sb, d0, trace, steps, i);
    LH.CrashAtomicity(l, d0, trace, steps, i);
    NoneDurable(d0, trace[i]);
    var after := L.Recover(l, trace[i].disk);
    var g := LastCommit(l, d0, trace, steps, i);
    before := if trace[i].durable == [] then d0 else Seen(trace[g]);
    Bridge(l, after, L.Durable(d0, trace[i]), before);
    HomeImage(l, sb, after, before);
    I :| ValidImage(sb, Image(after), I);
    SameImage(sb, Image(after), Image(before), I);
    ImageAddrs(sb, Image(after), I);
    ImageAddrs(sb, Image(before), I);
  }

  lemma NoneDurable(d0: L.Disk, s: L.State)
    ensures s.durable == [] ==> L.Durable(d0, s) == d0
  {}

  lemma ImageAddrs(sb: Super, B: seq<Block>, I: seq<Inode>)
    requires ValidImage(sb, B, I)
    ensures AddrsOk(B, I)
  {}

  lemma Bridge(l: L.Layout, a: L.Disk, b: L.Disk, c: L.Disk)
    requires L.HomeEq(l, a, b) && (c == b || L.HomeEq(l, c, b))
    ensures L.HomeEq(l, a, c)
  {
    forall x | L.Home(l, |a|, x)
      ensures a[x] == c[x]
    {
      assert L.Home(l, |c|, x);
    }
  }

  // ------------------------------------------------- groups of writei and itrunc

  // The log_write calls of steps i..j, as the file system sees them.
  function PutsOf(steps: seq<L.Step>, i: nat, j: nat): (r: seq<Put>)
    requires i <= j <= |steps|
    decreases j
  {
    if i == j then []
    else
      var a := steps[j - 1];
      PutsOf(steps, i, j - 1) + if a.LogWrite? && a.block >= 0 then [Put(a.block, FsBlock(a.data))] else []
  }

  // Between two log_write calls readers see no change.
  lemma StepImage(l: L.Layout, s: L.State, a: L.Step)
    requires L.Enabled(l, s, a) && (a.Begin? || a.LogWrite? || a.End?)
    ensures a.LogWrite? ==> 0 <= a.block < |Image(Seen(s))|
    ensures a.LogWrite? ==> Image(Seen(L.Next(l, s, a))) == Image(Seen(s))[a.block := FsBlock(a.data)]
    ensures !a.LogWrite? ==> Image(Seen(L.Next(l, s, a))) == Image(Seen(s))
  {
    hide FsBlock, L.TooBig, L.Admits, Image;
    if a.LogWrite? {
      assert Seen(L.Next(l, s, a)) == Seen(s)[a.block := a.data];
      ImageUpdate(Seen(s), a.block, a.data);
    } else {
      assert Seen(L.Next(l, s, a)) == Seen(s);
    }
  }

  lemma ImageUpdate(d: L.Disk, x: nat, data: Blocks.Block)
    requires x < |d|
    ensures |Image(d)| == |d| && Image(d[x := data]) == Image(d)[x := FsBlock(data)]
  {
    hide FsBlock;
  }

  // While operations run, the image is the one at the start with their writes
  // applied in the order of the log_write calls, however they interleave.
  lemma {:induction false} GroupImage(l: L.Layout, d0: L.Disk, trace: seq<L.State>, steps: seq<L.Step>, i: nat, j: nat)
    requires L.IsRun(l, d0, trace, steps) && i <= j < |trace| && Operating(steps, i, j)
    ensures Image(Seen(trace[j])) == Applied(Image(Seen(trace[i])), PutsOf(steps, i, j))
    decreases j
  {
    hide Image, Seen, FsBlock, L.Enabled, L.Next, Applied;
    FirstPut(Image(Seen(trace[i])));
    if i < j {
      GroupImage(l, d0, trace, steps, i, j - 1);
      assert L.StepOk(l, trace, steps, j - 1);
      var a, s := steps[j - 1], trace[j - 1];
      StepImage(l, s, a);
      ImageLength(s);
      if a.LogWrite? {
        AppliedSnoc(Image(Seen(trace[i])), PutsOf(steps, i, j - 1), Put(a.block, FsBlock(a.data)));
      } else {
        assert PutsOf(steps, i, j - 1) + [] == PutsOf(steps, i, j - 1);
      }
    }
  }

  lemma ImageLength(s: L.State)
    ensures |Image(Seen(s))| == |s.disk|
  {}

  datatype Snapshot = Snapshot(blocks: seq<Block>, inodes: seq<Inode>)

  // Snapshot k becomes snapshot k + 1 by transaction k.
  ghost predicate Chain(sb: Super, snaps: seq<Snapshot>, txns: seq<seq<Put>>) {
    && |snaps| == |txns| + 1
    && forall k {:trigger Linked(sb, snaps, txns, k)} :: 0 <= k < |txns| ==> Linked(sb, snaps, txns, k)
  }

  ghost predicate Linked(sb: Super, snaps: seq<Snapshot>, txns: seq<seq<Put>>, k: nat)
    requires k < |txns| && k + 1 < |snaps|
  {
    Transaction(sb, snaps[k].blocks, snaps[k].inodes, txns[k], snaps[k + 1].blocks, snaps[k + 1].inodes)
  }

  function Joined(txns: seq<seq<Put>>): (r: seq<Put>) {
    if txns == [] then [] else Joined(txns[..|txns| - 1]) + txns[|txns| - 1]
  }

  lemma {:induction false} AppliedConcat(B: seq<Block>, a: seq<Put>, b: seq<Put>)
    ensures Applied(B, a + b) == Applied(Applied(B, a), b)
  {
    if b == [] {
      assert a + b == a;
    } else {
      AppliedConcat(B, a, b[..|b| - 1]);
      assert (a + b)[..|a + b| - 1] == a + b[..|b| - 1];
    }
  }

  // A chain keeps the file system valid and applies all its writes in order.
  lemma {:induction false} ChainKeeps(sb: Super, snaps: seq<Snapshot>, txns: seq<seq<Put>>)
    requires Chain(sb, snaps, txns) && ValidImage(sb, snaps[0].blocks, snaps[0].inodes)
    ensures var n := |txns|;
            && ValidImage(sb, snaps[n].blocks, snaps[n].inodes)
            && snaps[n].blocks == Applied(snaps[0].blocks, Joined(txns))
    decreases |txns|
  {
    hide ValidImage, Transaction, Applied;
    var n := |txns|;
    FirstPut(snaps[0].blocks);
    if n > 0 {
      var snaps', txns' := snaps[..n], txns[..n - 1];
      forall k | 0 <= k < n - 1
        ensures Linked(sb, snaps', txns', k)
      {
        assert Linked(sb, snaps, txns, k);
      }
      ChainKeeps(sb, snaps', txns');
      assert Linked(sb, snaps, txns, n - 1);
      TransactionKeeps(sb, snaps[n - 1], txns[n - 1], snaps[n]);
      AppliedConcat(snaps[0].blocks, Joined(txns'), txns[n - 1]);
    }
  }

  lemma TransactionKeeps(sb: Super, a: Snapshot, puts: seq<Put>, b: Snapshot)
    requires Transaction(sb, a.blocks, a.inodes, puts, b.blocks, b.inodes)
    ensures ValidImage(sb, b.blocks, b.inodes) && b.blocks == Applied(a.blocks, puts)
  {}

  // What the group i..j logs is what some writei and itrunc calls log, one after
  // the other; a group of one operation is one such call.
  ghost predicate SerialGroup(sb: Super, trace: seq<L.State>, steps: seq<L.Step>, i: nat, j: nat)
    requires i <= j <= |steps| && i < |trace|
  {
    forall I :: ValidImage(sb, Image(Seen(trace[i])), I) ==> IsSerial(sb, Snapshot(Image(Seen(trace[i])), I), PutsOf(steps, i, j))
  }

  ghost predicate IsSerial(sb: Super, first: Snapshot, puts: seq<Put>) {
    exists snaps: seq<Snapshot>, txns :: Chain(sb, snaps, txns) && snaps[0] == first && Joined(txns) == puts
  }

  lemma SerialKeeps(l: L.Layout, sb: Super, d0: L.Disk, trace: seq<L.State>, steps: seq<L.Step>, i: nat, j: nat)
    requires L.IsRun(l, d0, trace, steps) && Group(trace, steps, i, j) && SerialGroup(sb, trace, steps, i, j)
    requires ValidDisk(sb, Seen(trace[i]))
    ensures ValidDisk(sb, Seen(trace[j]))
  {
    hide ValidImage, Image, L.IsRun, Joined, Applied, PutsOf, Seen, Linked;
    var I :| ValidImage(sb, Image(Seen(trace[i])), I);
    assert IsSerial(sb, Snapshot(Image(Seen(trace[i])), I), PutsOf(steps, i, j));
    var snaps: seq<Snapshot>, txns :|
      Chain(sb, snaps, txns) && snaps[0] == Snapshot(Image(Seen(trace[i])), I) && Joined(txns) == PutsOf(steps, i, j);
    ChainKeeps(sb, snaps, txns);
    GroupImage(l, d0, trace, steps, i, j);
    assert ValidImage(sb, Image(Seen(trace[j])), snaps[|txns|].inodes);
  }

  // Runs whose groups log what writei and itrunc calls log, one call after the
  // other, meet the condition of ValidAfterCrash.
  lemma SerialGroupsKeep(l: L.Layout, sb: Super, d0: L.Disk, trace: seq<L.State>, steps: seq<L.Step>)
    requires L.IsRun(l, d0, trace, steps)
    requires forall i: nat, j: nat :: Group(trace, steps, i, j) ==> SerialGroup(sb, trace, steps, i, j)
    ensures GroupsKeep(sb, trace, steps)
  {
    hide ValidDisk, SerialGroup, Seen, L.IsRun;
    forall i: nat, j: nat | Group(trace, steps, i, j) && ValidDisk(sb, Seen(trace[i]))
      ensures ValidDisk(sb, Seen(trace[j]))
    {
      SerialKeeps(l, sb, d0, trace, steps, i, j);
    }
  }

  // A group that logs what one call logs.
  lemma OneCallIsSerial(sb: Super, trace: seq<L.State>, steps: seq<L.Step>, i: nat, j: nat)
    requires i <= j <= |steps| && i < |trace|
    requires forall I :: ValidImage(sb, Image(Seen(trace[i])), I) ==>
               exists B', I' :: Transaction(sb, Image(Seen(trace[i])), I, PutsOf(steps, i, j), B', I')
    ensures SerialGroup(sb, trace, steps, i, j)
  {
    hide ValidImage, Image, Transaction, PutsOf, Seen;
    forall I | ValidImage(sb, Image(Seen(trace[i])), I)
      ensures IsSerial(sb, Snapshot(Image(Seen(trace[i])), I), PutsOf(steps, i, j))
    {
      var puts := PutsOf(steps, i, j);
      var B', I' :| Transaction(sb, Image(Seen(trace[i])), I, puts, B', I');
      var snaps, txns := [Snapshot(Image(Seen(trace[i])), I), Snapshot(B', I')], [puts];
      assert Linked(sb, snaps, txns, 0);
      assert Joined(txns) == puts by {
        assert Joined([]) == [] && txns[..0] == [];
      }
      assert Chain(sb, snaps, txns);
    }
  }
}
