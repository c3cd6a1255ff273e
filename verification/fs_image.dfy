/**
 Images of a whole volume: the empty one that mkfs lays out, and one whose
 truncation overruns the log's reservation.
 */
module FsImage {
  import opened Common
  import opened FsModel
  import opened FsEffects
  import opened FsTrunc

  // A byte whose n lowest bits are set.
  function Ones(n: nat): (r: nat)
    ensures forall j: nat :: Bit(r, j) <==> j < n
  {
    if n == 0 then ZeroBits(); 0 else 2 * Ones(n - 1) + 1
  }

  lemma ZeroBits()
    ensures forall j: nat :: !Bit(0, j)
  {
    forall j: nat
      ensures !Bit(0, j)
    {
      NoBit(j);
    }
  }

  lemma NoBit(j: nat)
    ensures !Bit(0, j)
  {}

  lemma {:induction false} OnesRange(n: nat)
    ensures Ones(n) == Pow2(n) - 1
  {
    if n > 0 {
      OnesRange(n - 1);
    }
  }

  // Bits 8y to 8y + 7 of a bitmap in which exactly the first `used` bits are set.
  function BitmapByte(used: int, y: nat): (r: byte)
    ensures forall j: nat :: j < 8 ==> (Bit(r, j) <==> 8 * y + j < used)
  {
    var n := if used <= 8 * y then 0 else if used >= 8 * y + 8 then 8 else used - 8 * y;
    OnesRange(n);
    assert Pow2(8) == 256 by {
      assert Pow2(2) == 4 && Pow2(4) == 16 && Pow2(6) == 64;
    }
    Pow2Grows(n, 8);
    Ones(n)
  }

  lemma {:induction false} Pow2Grows(a: nat, b: nat)
    requires a <= b
    ensures Pow2(a) <= Pow2(b)
  {
    if a < b {
      Pow2Grows(a, b - 1);
    }
  }

  function BitmapBytes(used: int, y: nat, n: nat): (r: seq<byte>)
    ensures |r| == n && forall i :: 0 <= i < n ==> r[i] == BitmapByte(used, y + i)
    decreases n
  {
    if n == 0 then [] else [BitmapByte(used, y)] + BitmapBytes(used, y + 1, n - 1)
  }

  // The bitmap of an empty volume: every block before the data region is in use.
  function BitmapBlock(sb: Super, x: nat): (r: Block)
    requires sb.bmapstart <= x
  {
    Block(BitmapBytes(sb.datastart, (x - sb.bmapstart) * BSIZE, BSIZE))
  }

  function FreshBlock(sb: Super, x: nat): (r: Block) {
    if sb.bmapstart <= x < sb.datastart then BitmapBlock(sb, x) else ZeroBlock()
  }

  // What mkfs leaves when it has stored no file.
  function FreshImage(sb: Super): (r: seq<Block>)
    requires LayoutOk(sb)
    ensures Fits(sb, r)
  {
    seq(sb.size, x requires 0 <= x < sb.size => FreshBlock(sb, x))
  }

  function FreshInodes(sb: Super): (r: seq<Inode>) {
    seq(sb.ninodes, _ => EmptyInode())
  }

  lemma FreshUsed(sb: Super, b: nat)
    requires LayoutOk(sb) && b < sb.size
    ensures Used(sb, FreshImage(sb), b) <==> b < sb.datastart
  {
    hide Bit, BitmapByte, BitmapBytes;
    BBlockRange(sb, b);
    BitPlace(b);
    var x, y := BBlock(sb, b), b % BPB / 8;
    assert FreshImage(sb)[x] == BitmapBlock(sb, x);
    assert FreshImage(sb)[x].data[y] == BitmapByte(sb.datastart, b / BPB * BSIZE + y);
  }

  // Where the bit of block b lies in the bitmap.
  lemma BitPlace(b: nat)
    ensures 8 * (b / BPB * BSIZE + b % BPB / 8) + b % BPB % 8 == b
  {}

  lemma ZeroWords()
    ensures forall j :: 0 <= j < BSIZE / 4 ==> Word(ZeroBlock(), j) == 0
  {}

  lemma FreshDinode(sb: Super, i: nat)
    requires LayoutOk(sb) && i < sb.ninodes
    ensures DiskInode(sb, FreshImage(sb), i) == EmptyInode()
  {
    hide Bit, BitmapBlock, Word, IBlock;
    IBlockRange(sb, i);
    ZeroWords();
    assert FreshImage(sb)[IBlock(sb, i)] == ZeroBlock();
    assert DiskInode(sb, FreshImage(sb), i).addrs == EmptyInode().addrs;
  }

  // Every layout has a volume that meets the invariant; mkfs's is one.
  lemma FreshValid(sb: Super)
    requires LayoutOk(sb)
    ensures ValidImage(sb, FreshImage(sb), FreshInodes(sb))
  {
    var B, I := FreshImage(sb), FreshInodes(sb);
    forall b | 0 <= b < sb.datastart
      ensures Used(sb, B, b)
    {
      FreshUsed(sb, b);
    }
    forall i, k | 0 <= i < |I| && 0 <= k < NSLOTS
      ensures SlotAt(B, I, i, k) == 0
    {}
    forall i | 0 <= i < |I|
      ensures DiskInode(sb, B, i) == I[i]
    {
      FreshDinode(sb, i);
    }
  }

  // FSSIZE 1000 and NINODES 200: 2 + 30 log blocks, 26 inode blocks, 1 bitmap block.
  function MkfsSuper(): (r: Super) {
    Super(1000, 200, 32, 58, 59)
  }

  lemma MkfsValid()
    ensures LayoutOk(MkfsSuper()) && ValidImage(MkfsSuper(), FreshImage(MkfsSuper()), FreshInodes(MkfsSuper()))
    ensures forall b :: 0 <= b < 1000 ==> (Used(MkfsSuper(), FreshImage(MkfsSuper()), b) <==> b < 59)
  {
    hide Used;
    FreshValid(MkfsSuper());
    forall b | 0 <= b < 1000
      ensures Used(MkfsSuper(), FreshImage(MkfsSuper()), b) <==> b < 59
    {
      FreshUsed(MkfsSuper(), b);
    }
  }

  // ------------------------------------------------- a truncation too large

  // Boot and super block, 31 log blocks, one inode block, ten bitmap blocks.
  function WideSuper(): (r: Super) {
    Super(40000, 2, 33, 34, 44)
  }

  // Ten direct blocks, each under a bitmap block of its own.
  function WideInode(): (r: Inode) {
    Inode(10 * BSIZE, seq(NDIRECT + 1, k requires 0 <= k <= NDIRECT => if k < 10 then BPB * k + 100 else 0))
  }

  // Inode 0 is never handed out.
  function WideInodes(): (r: seq<Inode>) {
    [EmptyInode(), WideInode()]
  }

  function FullBlock(): (r: Block) {
    Block(seq(BSIZE, _ => 255))
  }

  // Every block in use and no inode written yet.
  function FullImage(): (r: seq<Block>)
    ensures |r| == WideSuper().size
  {
    seq(WideSuper().size, x => if x == WideSuper().inodestart then ZeroBlock() else FullBlock())
  }

  lemma FullUsed(b: nat)
    requires b < WideSuper().size
    ensures Used(WideSuper(), FullImage(), b)
  {
    BBlockRange(WideSuper(), b);
    assert FullImage()[BBlock(WideSuper(), b)] == FullBlock();
    OnesRange(8);
    assert Pow2(8) == 256 by {
      assert Pow2(2) == 4 && Pow2(4) == 16 && Pow2(6) == 64;
    }
    assert Bit(Ones(8), b % BPB % 8);
  }

  // What the slots of the two inodes hold.
  ghost predicate WideSlots(B: seq<Block>)
    requires AddrsOk(B, WideInodes())
  {
    forall i, k :: 0 <= i < 2 && 0 <= k < NSLOTS ==>
      SlotAt(B, WideInodes(), i, k) == if i == 1 && k < 10 then BPB * k + 100 else 0
  }

  lemma WideConsistent()
    ensures Consistent(WideSuper(), FullImage(), WideInodes()) && WideSlots(FullImage())
  {
    hide Used, BBlock, FullImage;
    var sb, B, I := WideSuper(), FullImage(), WideInodes();
    forall b | 0 <= b < sb.size
      ensures Used(sb, B, b)
    {
      FullUsed(b);
    }
    assert AddrsOk(B, I);
    assert WideSlots(B);
  }

  lemma WideDinodes(i: nat)
    requires i < 2
    ensures DiskInode(WideSuper(), PutInode(WideSuper(), FullImage(), 1, WideInode()), i) == WideInodes()[i]
  {
    hide Word, PutInode;
    PutInodeReadBack(WideSuper(), FullImage(), 1, WideInode(), i);
    ZeroWords();
    if i == 0 {
      assert FullImage()[IBlock(WideSuper(), 0)] == ZeroBlock();
      assert DiskInode(WideSuper(), FullImage(), 0).addrs == EmptyInode().addrs;
    }
  }

  lemma WideMapped(B: seq<Block>)
    requires AddrsOk(B, WideInodes()) && WideSlots(B)
    ensures AllMapped(B, WideInodes())
  {
    hide SlotAt;
    var I := WideInodes();
    forall i, bn | 0 <= i < 2 && 0 <= bn < MAXFILE && bn * BSIZE < I[i].size
      ensures Slot(B, I[i], SlotFor(bn)) != 0
    {
      SlotIs(B, I, i, SlotFor(bn));
      assert SlotAt(B, I, i, SlotFor(bn)) != 0;
    }
  }

  lemma SlotIs(B: seq<Block>, I: seq<Inode>, i: nat, k: nat)
    requires AddrsOk(B, I) && i < |I| && k < NSLOTS
    ensures Slot(B, I[i], k) == SlotAt(B, I, i, k)
  {}

  // itrunc of inode 1 logs ten bitmap blocks and then the inode block, on a
  // volume that has room for a log of more than LOGSIZE blocks.
  lemma TruncExceeds() returns (sb: Super, B: seq<Block>, I: seq<Inode>)
    ensures ValidImage(sb, B, I) && |I| == 2 && |Bitmaps(sb, B, I, 1)| == MAXOPBLOCKS && sb.inodestart == 2 + 31
  {
    hide PutInode, Used, Bitmaps, DiskInode, BBlock, NoHoles, SlotAt, FullImage, Held;
    sb, I := WideSuper(), WideInodes();
    B := PutInode(sb, FullImage(), 1, WideInode());
    WideConsistent();
    PutInodeKeeps(sb, FullImage(), I, 1, WideInode());
    WideDinodes(0);
    WideDinodes(1);
    WideMapped(B);
    WideBitmaps(B);
  }

  lemma WideBBlock(k: nat)
    ensures BBlock(WideSuper(), BPB * k + 100) == k + 34
  {}

  lemma WideMember(B: seq<Block>, x: nat)
    requires AddrsOk(B, WideInodes()) && WideSlots(B)
    ensures x in Bitmaps(WideSuper(), B, WideInodes(), 1) <==> 34 <= x < 44
  {
    hide SlotAt, BBlock;
    var sb, I := WideSuper(), WideInodes();
    if x in Bitmaps(sb, B, I, 1) {
      var k :| 0 <= k < NSLOTS && SlotAt(B, I, 1, k) != 0 && x == BBlock(sb, SlotAt(B, I, 1, k));
      WideBBlock(k);
    }
    if 34 <= x < 44 {
      var k := x - 34;
      WideBBlock(k);
      assert SlotAt(B, I, 1, k) == BPB * k + 100;
      assert BBlock(sb, SlotAt(B, I, 1, k)) == x;
    }
  }

  lemma WideBitmaps(B: seq<Block>)
    requires AddrsOk(B, WideInodes()) && WideSlots(B)
    ensures |Bitmaps(WideSuper(), B, WideInodes(), 1)| == 10
  {
    hide Bitmaps, SlotAt;
    forall x: nat
      ensures x in Bitmaps(WideSuper(), B, WideInodes(), 1) <==> 34 <= x < 44
    {
      WideMember(B, x);
    }
    assert Bitmaps(WideSuper(), B, WideInodes(), 1) == Interval(34, 44);
  }
}
