/**
 The on-disk structures of fs.c as values: bitmap bits, 32-bit words, inodes
 with direct and indirect blocks, and the bytes of a file.
 */
module FsModel {

  const BSIZE := 512
  const NDIRECT := 12
  const NINDIRECT := 128
  const MAXFILE := 140
  const BPB := 4096
  const IPB := 8
  const UINT := 0x1_0000_0000

  type byte = x: int | 0 <= x < 256
  type uint = x: int | 0 <= x < UINT
  type Bytes = s: seq<byte> | |s| == BSIZE witness seq(BSIZE, _ => 0)
  datatype Block = Block(data: Bytes)

  // The super block: sizes and the first block of each region.
  datatype Super = Super(size: nat, ninodes: nat, inodestart: nat, bmapstart: nat, datastart: nat)

  type Addrs = s: seq<uint> | |s| == NDIRECT + 1 witness seq(NDIRECT + 1, _ => 0)
  datatype Inode = Inode(size: uint, addrs: Addrs)

  predicate LayoutOk(sb: Super) {
    && 0 < sb.inodestart
    && sb.inodestart + sb.ninodes / IPB + 1 <= sb.bmapstart
    && sb.bmapstart + sb.size / BPB + 1 <= sb.datastart
    && sb.datastart <= sb.size < UINT
  }

  // What bzero leaves in a block.
  function ZeroBlock(): (r: Block)
    ensures forall i :: 0 <= i < BSIZE ==> r.data[i] == 0
  {
    Block(seq(BSIZE, _ => 0))
  }

  // --------------------------------------------------------- logged writes

  // One call of log_write: the block and what its buffer holds.
  datatype Put = Put(block: nat, data: Block)

  // The image with a transaction's writes applied in order.
  function Applied(B: seq<Block>, puts: seq<Put>): (r: seq<Block>)
    ensures |r| == |B|
  {
    if puts == [] then B
    else
      var p := puts[|puts| - 1];
      var r := Applied(B, puts[..|puts| - 1]);
      if p.block < |B| then r[p.block := p.data] else r
  }

  lemma AppliedSnoc(B: seq<Block>, puts: seq<Put>, p: Put)
    ensures Applied(B, puts + [p]) == if p.block < |B| then Applied(B, puts)[p.block := p.data] else Applied(B, puts)
  {
    assert (puts + [p])[..|puts|] == puts;
  }

  function Numbers(puts: seq<Put>): (r: seq<nat>)
    ensures |r| == |puts| && forall k :: 0 <= k < |puts| ==> r[k] == puts[k].block
  {
    seq(|puts|, k requires 0 <= k < |puts| => puts[k].block)
  }

  // ------------------------------------------------------------------- bits

  // x & (1 << k)
  predicate Bit(x: nat, k: nat) {
    if k == 0 then x % 2 == 1 else Bit(x / 2, k - 1)
  }

  // x | (1 << k)
  function SetBit(x: nat, k: nat): (r: nat)
    ensures forall j: nat :: Bit(r, j) <==> j == k || Bit(x, j)
  {
    if k == 0 then x / 2 * 2 + 1 else SetBit(x / 2, k - 1) * 2 + x % 2
  }

  // x & ~(1 << k)
  function ClearBit(x: nat, k: nat): (r: nat)
    ensures r <= x
    ensures forall j: nat :: Bit(r, j) <==> j != k && Bit(x, j)
  {
    if k == 0 then x / 2 * 2 else ClearBit(x / 2, k - 1) * 2 + x % 2
  }

  function Pow2(k: nat): (r: nat) {
    if k == 0 then 1 else 2 * Pow2(k - 1)
  }

  lemma Pow2Step(k: nat)
    requires k > 0
    ensures Pow2(k) == 2 * Pow2(k - 1)
  {}

  lemma SetBitStep(x: nat, k: nat)
    ensures SetBit(x, k) == if k == 0 then x / 2 * 2 + 1 else SetBit(x / 2, k - 1) * 2 + x % 2
  {
    hide Bit;
  }

  lemma {:induction false} SetBitRange(x: nat, k: nat, width: nat)
    requires x < Pow2(width) && k < width
    ensures SetBit(x, k) < Pow2(width)
  {
    hide Bit, SetBit, Pow2;
    Pow2Step(width);
    SetBitStep(x, k);
    if k > 0 {
      SetBitRange(x / 2, k - 1, width - 1);
    }
  }

  function SetByteBit(x: byte, k: nat): (r: byte)
    requires k < 8
    ensures r == SetBit(x, k)
  {
    assert Pow2(8) == 256 by {
      assert Pow2(2) == 4 && Pow2(4) == 16 && Pow2(6) == 64;
    }
    SetBitRange(x, k, 8);
    SetBit(x, k)
  }

  // ------------------------------------------------------------------ words

  // The j-th 32-bit little-endian word of a block, ((uint*)bp->data)[j].
  function Word(b: Block, j: nat): (r: uint)
    requires j < BSIZE / 4
  {
    (b.data[4 * j] as int) + 0x100 * (b.data[4 * j + 1] as int)
    + 0x1_0000 * (b.data[4 * j + 2] as int) + 0x100_0000 * (b.data[4 * j + 3] as int)
  }

  lemma WordBytes(v: uint)
    ensures v % 0x100 + 0x100 * (v / 0x100 % 0x100) + 0x1_0000 * (v / 0x1_0000 % 0x100) + 0x100_0000 * (v / 0x100_0000) == v
    ensures 0 <= v / 0x100_0000 < 0x100
  {
    var a := v / 0x100;
    var b := a / 0x100;
    assert v / 0x1_0000 == b && v / 0x100_0000 == b / 0x100;
  }

  function PutWord(b: Block, j: nat, v: uint): (r: Block)
    requires j < BSIZE / 4
    ensures forall i :: 0 <= i < BSIZE / 4 ==> Word(r, i) == if i == j then v else Word(b, i)
  {
    WordBytes(v);
    Block(b.data[4 * j := v % 0x100][4 * j + 1 := v / 0x100 % 0x100]
                [4 * j + 2 := v / 0x1_0000 % 0x100][4 * j + 3 := v / 0x100_0000])
  }

  // memmove of a run of words.
  function PutWords(b: Block, j: nat, vs: seq<uint>): (r: Block)
    requires j + |vs| <= BSIZE / 4
    ensures forall i :: 0 <= i < BSIZE / 4 ==> Word(r, i) == if j <= i < j + |vs| then vs[i - j] else Word(b, i)
    decreases |vs|
  {
    if vs == [] then b else PutWords(PutWord(b, j, vs[0]), j + 1, vs[1..])
  }

  function GetWords(b: Block, j: nat, n: nat): (r: seq<uint>)
    requires j + n <= BSIZE / 4
    ensures |r| == n && forall i :: 0 <= i < n ==> r[i] == Word(b, j + i)
    decreases n
  {
    if n == 0 then [] else [Word(b, j)] + GetWords(b, j + 1, n - 1)
  }

  // ----------------------------------------------------------------- bitmap

  function BBlock(sb: Super, b: nat): (r: nat) {
    b / BPB + sb.bmapstart
  }

  predicate Fits(sb: Super, blocks: seq<Block>) {
    LayoutOk(sb) && |blocks| == sb.size
  }

  lemma BBlockRange(sb: Super, b: nat)
    requires LayoutOk(sb) && b < sb.size
    ensures sb.bmapstart <= BBlock(sb, b) < sb.datastart
  {}

  // The bitmap bit of block b.
  predicate Used(sb: Super, blocks: seq<Block>, b: nat)
    requires Fits(sb, blocks) && b < sb.size
  {
    BBlockRange(sb, b);
    Bit(blocks[BBlock(sb, b)].data[b % BPB / 8], b % BPB % 8)
  }

  // The bitmap changed only at b, and no block outside the bitmap changed.
  ghost predicate OnlyBit(sb: Super, blocks: seq<Block>, blocks': seq<Block>, b: nat, v: bool)
    requires Fits(sb, blocks) && Fits(sb, blocks') && b < sb.size
  {
    && (forall x :: 0 <= x < sb.size ==> Used(sb, blocks', x) == if x == b then v else Used(sb, blocks, x))
    && (forall x :: 0 <= x < sb.size && x != BBlock(sb, b) ==> blocks'[x] == blocks[x])
  }

  lemma PutBit(sb: Super, blocks: seq<Block>, b: nat, y: byte, v: bool)
    requires Fits(sb, blocks) && b < sb.size
    requires BBlock(sb, b) < sb.size
    requires y == var x := blocks[BBlock(sb, b)].data[b % BPB / 8]; if v then SetBit(x, b % BPB % 8) else ClearBit(x, b % BPB % 8)
    ensures OnlyBit(sb, blocks, blocks[BBlock(sb, b) := Block(blocks[BBlock(sb, b)].data[b % BPB / 8 := y])], b, v)
  {
    var blocks' := blocks[BBlock(sb, b) := Block(blocks[BBlock(sb, b)].data[b % BPB / 8 := y])];
    forall x | 0 <= x < sb.size
      ensures Used(sb, blocks', x) == if x == b then v else Used(sb, blocks, x)
    {
      BBlockRange(sb, x);
      if BBlock(sb, x) == BBlock(sb, b) && x % BPB / 8 == b % BPB / 8 && x % BPB % 8 == b % BPB % 8 {
        assert x == b;
      }
    }
  }

  // ------------------------------------------------------------------ slots

  const NSLOTS := NDIRECT + 1 + NINDIRECT

  // Every place of an inode that can hold a block number: the direct
  // addresses, the indirect address (slot NDIRECT) and the indirect entries.
  function Slot(blocks: seq<Block>, ip: Inode, k: nat): (r: uint)
    requires k < NSLOTS && ip.addrs[NDIRECT] < |blocks|
  {
    if k <= NDIRECT then ip.addrs[k]
    else if ip.addrs[NDIRECT] == 0 then 0
    else Word(blocks[ip.addrs[NDIRECT]], k - NDIRECT - 1)
  }

  // The slot that bmap consults for file block bn.
  function SlotFor(bn: nat): (r: nat) {
    if bn < NDIRECT then bn else bn + 1
  }

  predicate AddrsOk(blocks: seq<Block>, inodes: seq<Inode>) {
    forall i :: 0 <= i < |inodes| ==> inodes[i].addrs[NDIRECT] < |blocks|
  }

  function SlotAt(blocks: seq<Block>, inodes: seq<Inode>, i: nat, k: nat): (r: uint)
    requires AddrsOk(blocks, inodes) && i < |inodes| && k < NSLOTS
  {
    Slot(blocks, inodes[i], k)
  }

  // A block number in use lies in the data region and has its bit set.
  predicate Held(sb: Super, blocks: seq<Block>, b: uint)
    requires Fits(sb, blocks)
  {
    b != 0 ==> sb.datastart <= b < sb.size && Used(sb, blocks, b)
  }

  // No block number occurs in two slots of all inodes, every one that occurs
  // is held, and the metadata blocks are never free.
  ghost predicate Consistent(sb: Super, blocks: seq<Block>, inodes: seq<Inode>) {
    && Fits(sb, blocks)
    && AddrsOk(blocks, inodes)
    && (forall b :: 0 <= b < sb.datastart ==> Used(sb, blocks, b))
    && (forall i, k :: 0 <= i < |inodes| && 0 <= k < NSLOTS ==> Held(sb, blocks, SlotAt(blocks, inodes, i, k)))
    && (forall i, k, j, m :: 0 <= i < |inodes| && 0 <= k < NSLOTS && 0 <= j < |inodes| && 0 <= m < NSLOTS
                             && SlotAt(blocks, inodes, i, k) != 0 && SlotAt(blocks, inodes, i, k) == SlotAt(blocks, inodes, j, m)
                             ==> i == j && k == m)
  }

  // b occurs in no slot.
  ghost predicate Unowned(blocks: seq<Block>, inodes: seq<Inode>, b: nat)
    requires AddrsOk(blocks, inodes)
  {
    forall i, k :: 0 <= i < |inodes| && 0 <= k < NSLOTS ==> SlotAt(blocks, inodes, i, k) != b
  }

  // blocks' keeps every slot of every inode.
  ghost predicate SameSlots(blocks: seq<Block>, blocks': seq<Block>, inodes: seq<Inode>)
    requires AddrsOk(blocks, inodes) && AddrsOk(blocks', inodes)
  {
    forall i, k :: 0 <= i < |inodes| && 0 <= k < NSLOTS ==> SlotAt(blocks', inodes, i, k) == SlotAt(blocks, inodes, i, k)
  }

  // balloc's effect: b was free, is now used and zeroed; besides b only its
  // bitmap block changed.
  ghost predicate Alloced(sb: Super, blocks: seq<Block>, blocks': seq<Block>, b: nat) {
    && Fits(sb, blocks) && Fits(sb, blocks')
    && b < sb.size
    && !Used(sb, blocks, b)
    && (forall x :: 0 <= x < sb.size ==> Used(sb, blocks', x) == (x == b || Used(sb, blocks, x)))
    && blocks'[b] == ZeroBlock()
    && (forall x :: 0 <= x < sb.size && x != b && x != BBlock(sb, b) ==> blocks'[x] == blocks[x])
  }

  lemma AllocSlots(sb: Super, blocks: seq<Block>, blocks': seq<Block>, inodes: seq<Inode>, b: nat)
    requires Consistent(sb, blocks, inodes) && Alloced(sb, blocks, blocks', b)
    ensures sb.datastart <= b && Unowned(blocks, inodes, b)
    ensures SameSlots(blocks, blocks', inodes)
  {
    BBlockRange(sb, b);
    forall i, k | 0 <= i < |inodes| && 0 <= k < NSLOTS
      ensures SlotAt(blocks', inodes, i, k) == SlotAt(blocks, inodes, i, k) && SlotAt(blocks, inodes, i, k) != b
    {
      assert Held(sb, blocks, SlotAt(blocks, inodes, i, k));
      assert Held(sb, blocks, SlotAt(blocks, inodes, i, NDIRECT));
    }
  }

  lemma AllocKeeps(sb: Super, blocks: seq<Block>, blocks': seq<Block>, inodes: seq<Inode>, b: nat)
    requires Consistent(sb, blocks, inodes) && Alloced(sb, blocks, blocks', b)
    ensures Consistent(sb, blocks', inodes)
  {
    AllocSlots(sb, blocks, blocks', inodes, b);
    forall i, k | 0 <= i < |inodes| && 0 <= k < NSLOTS
      ensures Held(sb, blocks', SlotAt(blocks', inodes, i, k))
    {
      assert Held(sb, blocks, SlotAt(blocks, inodes, i, k));
    }
  }

  // ip->addrs[k] = b
  function SetAddr(inodes: seq<Inode>, i: nat, k: nat, b: uint): (r: seq<Inode>)
    requires i < |inodes| && k <= NDIRECT
  {
    inodes[i := inodes[i].(addrs := inodes[i].addrs[k := b])]
  }

  // Putting an unowned held block in an empty address keeps the image
  // consistent; a new indirect block must start out zeroed.
  lemma AddAddress(sb: Super, blocks: seq<Block>, inodes: seq<Inode>, i: nat, k: nat, b: uint)
    requires Consistent(sb, blocks, inodes) && i < |inodes| && k <= NDIRECT
    requires inodes[i].addrs[k] == 0
    requires b != 0 && Held(sb, blocks, b) && Unowned(blocks, inodes, b)
    requires k == NDIRECT ==> blocks[b] == ZeroBlock()
    ensures Consistent(sb, blocks, SetAddr(inodes, i, k, b))
    ensures forall j, m :: 0 <= j < |inodes| && 0 <= m < NSLOTS ==>
              SlotAt(blocks, SetAddr(inodes, i, k, b), j, m) == if j == i && m == k then b else SlotAt(blocks, inodes, j, m)
  {
    var inodes' := SetAddr(inodes, i, k, b);
    assert AddrsOk(blocks, inodes');
    forall j, m | 0 <= j < |inodes| && 0 <= m < NSLOTS
      ensures SlotAt(blocks, inodes', j, m) == if j == i && m == k then b else SlotAt(blocks, inodes, j, m)
    {}
  }

  // a[e] = b in indirect block ind
  function SetEntry(blocks: seq<Block>, ind: nat, e: nat, b: uint): (r: seq<Block>)
    requires ind < |blocks| && e < NINDIRECT
  {
    blocks[ind := PutWord(blocks[ind], e, b)]
  }

  // Filling an empty entry of an inode's indirect block.
  lemma AddEntry(sb: Super, blocks: seq<Block>, inodes: seq<Inode>, i: nat, e: nat, b: uint)
    requires Consistent(sb, blocks, inodes) && i < |inodes| && e < NINDIRECT
    requires inodes[i].addrs[NDIRECT] != 0 && SlotAt(blocks, inodes, i, NDIRECT + 1 + e) == 0
    requires b != 0 && Held(sb, blocks, b) && Unowned(blocks, inodes, b)
    ensures Consistent(sb, SetEntry(blocks, inodes[i].addrs[NDIRECT], e, b), inodes)
    ensures forall j, m :: 0 <= j < |inodes| && 0 <= m < NSLOTS ==>
              SlotAt(SetEntry(blocks, inodes[i].addrs[NDIRECT], e, b), inodes, j, m)
              == if j == i && m == NDIRECT + 1 + e then b else SlotAt(blocks, inodes, j, m)
  {
    var ind := inodes[i].addrs[NDIRECT];
    var blocks' := SetEntry(blocks, ind, e, b);
    assert SlotAt(blocks, inodes, i, NDIRECT) == ind;
    forall j, m | 0 <= j < |inodes| && 0 <= m < NSLOTS
      ensures SlotAt(blocks', inodes, j, m) == if j == i && m == NDIRECT + 1 + e then b else SlotAt(blocks, inodes, j, m)
    {
      assert SlotAt(blocks, inodes, j, NDIRECT) == inodes[j].addrs[NDIRECT];
    }
    BitmapUntouched(sb, blocks, blocks', ind);
  }

  // A write at or above datastart leaves every bitmap bit alone.
  lemma BitmapUntouched(sb: Super, blocks: seq<Block>, blocks': seq<Block>, a: nat)
    requires Fits(sb, blocks) && Fits(sb, blocks') && sb.datastart <= a < sb.size
    requires forall x :: 0 <= x < sb.size && x != a ==> blocks'[x] == blocks[x]
    ensures forall x :: 0 <= x < sb.size ==> Used(sb, blocks', x) == Used(sb, blocks, x)
  {
    forall x | 0 <= x < sb.size
      ensures Used(sb, blocks', x) == Used(sb, blocks, x)
    {
      BBlockRange(sb, x);
    }
  }

  // Overwriting a data block changes no slot.
  lemma DataWrite(sb: Super, blocks: seq<Block>, inodes: seq<Inode>, i: nat, k: nat, data: Block)
    requires Consistent(sb, blocks, inodes) && i < |inodes| && k < NSLOTS && k != NDIRECT
    requires SlotAt(blocks, inodes, i, k) != 0
    ensures SlotAt(blocks, inodes, i, k) < |blocks|
    ensures Consistent(sb, blocks[SlotAt(blocks, inodes, i, k) := data], inodes)
    ensures SameSlots(blocks, blocks[SlotAt(blocks, inodes, i, k) := data], inodes)
  {
    var a := SlotAt(blocks, inodes, i, k);
    var blocks' := blocks[a := data];
    assert Held(sb, blocks, a);
    forall j, m | 0 <= j < |inodes| && 0 <= m < NSLOTS
      ensures SlotAt(blocks', inodes, j, m) == SlotAt(blocks, inodes, j, m)
    {
      assert SlotAt(blocks, inodes, j, NDIRECT) == inodes[j].addrs[NDIRECT];
    }
    BitmapUntouched(sb, blocks, blocks', a);
  }

  // ------------------------------------------------------------ file content

  const MAXBYTES := MAXFILE * BSIZE

  // Every block that holds a byte of the file is mapped.
  predicate NoHoles(blocks: seq<Block>, ip: Inode)
    requires ip.addrs[NDIRECT] < |blocks|
  {
    && ip.size <= MAXBYTES
    && forall bn :: 0 <= bn < MAXFILE && bn * BSIZE < ip.size ==> Slot(blocks, ip, SlotFor(bn)) != 0
  }

  // Byte k of a file, through its direct or indirect block.
  function ByteAt(blocks: seq<Block>, inodes: seq<Inode>, i: nat, k: nat): (r: byte)
    requires AddrsOk(blocks, inodes) && i < |inodes| && k < MAXBYTES
  {
    var a := SlotAt(blocks, inodes, i, SlotFor(k / BSIZE));
    if a < |blocks| then blocks[a].data[k % BSIZE] else 0
  }

  function Content(blocks: seq<Block>, inodes: seq<Inode>, i: nat): (r: seq<byte>)
    requires AddrsOk(blocks, inodes) && i < |inodes| && inodes[i].size <= MAXBYTES
    ensures |r| == inodes[i].size
  {
    seq(inodes[i].size, k requires 0 <= k < inodes[i].size => ByteAt(blocks, inodes, i, k))
  }

  // Writing src at off: bytes before off and after off + |src| stay.
  function Splice(c: seq<byte>, off: nat, src: seq<byte>): (r: seq<byte>)
    requires off <= |c|
  {
    c[..off] + src + if off + |src| <= |c| then c[off + |src|..] else []
  }

  // memmove(data + o, chunk)
  function Patch(b: Block, o: nat, chunk: seq<byte>): (r: Block)
    requires o + |chunk| <= BSIZE
    ensures forall x :: 0 <= x < BSIZE ==> r.data[x] == if o <= x < o + |chunk| then chunk[x - o] else b.data[x]
  {
    Block(b.data[..o] + chunk + b.data[o + |chunk|..])
  }

  // --------------------------------------------------------- inodes on disk

  function IBlock(sb: Super, i: nat): (r: nat) {
    i / IPB + sb.inodestart
  }

  lemma IBlockRange(sb: Super, i: nat)
    requires LayoutOk(sb) && i < sb.ninodes
    ensures 0 < IBlock(sb, i) < sb.bmapstart
  {}

  // A struct dinode is 16 words: type and link count, then size, then addrs.
  function DinodeWord(i: nat): (r: nat)
    ensures r + 16 <= BSIZE / 4
  {
    i % IPB * 16
  }

  // The size and addresses that ilock would read back for inode i.
  function DiskInode(sb: Super, blocks: seq<Block>, i: nat): (r: Inode)
    requires Fits(sb, blocks) && i < sb.ninodes
  {
    IBlockRange(sb, i);
    var b := blocks[IBlock(sb, i)];
    Inode(Word(b, DinodeWord(i) + 2), GetWords(b, DinodeWord(i) + 3, NDIRECT + 1))
  }

  ghost predicate OnDisk(sb: Super, blocks: seq<Block>, inodes: seq<Inode>)
    requires Fits(sb, blocks)
  {
    && |inodes| == sb.ninodes
    && forall i :: 0 <= i < |inodes| ==> DiskInode(sb, blocks, i) == inodes[i]
  }

  // iupdate: copy the in-memory inode over its place in the inode block.
  function PutInode(sb: Super, blocks: seq<Block>, i: nat, ip: Inode): (r: seq<Block>)
    requires Fits(sb, blocks) && i < sb.ninodes
    ensures |r| == |blocks|
  {
    IBlockRange(sb, i);
    var b := blocks[IBlock(sb, i)];
    blocks[IBlock(sb, i) := PutWords(PutWord(b, DinodeWord(i) + 2, ip.size), DinodeWord(i) + 3, ip.addrs)]
  }

  lemma PutInodeReadBack(sb: Super, blocks: seq<Block>, i: nat, ip: Inode, j: nat)
    requires Fits(sb, blocks) && i < sb.ninodes && j < sb.ninodes
    ensures DiskInode(sb, PutInode(sb, blocks, i, ip), j) == if j == i then ip else DiskInode(sb, blocks, j)
  {
    IBlockRange(sb, i);
    IBlockRange(sb, j);
    var r := DiskInode(sb, PutInode(sb, blocks, i, ip), j);
    if i == j {
      assert r.addrs == ip.addrs;
    } else {
      assert IBlock(sb, i) == IBlock(sb, j) ==> i % IPB != j % IPB;
      assert r.addrs == DiskInode(sb, blocks, j).addrs;
    }
  }

  // An inode block is neither a bitmap block nor a data block.
  lemma PutInodeKeeps(sb: Super, blocks: seq<Block>, inodes: seq<Inode>, i: nat, ip: Inode)
    requires Consistent(sb, blocks, inodes) && i < sb.ninodes
    ensures Consistent(sb, PutInode(sb, blocks, i, ip), inodes)
    ensures SameSlots(blocks, PutInode(sb, blocks, i, ip), inodes)
    ensures forall x :: sb.datastart <= x < sb.size ==> PutInode(sb, blocks, i, ip)[x] == blocks[x]
  {
    var blocks' := PutInode(sb, blocks, i, ip);
    IBlockRange(sb, i);
    forall x | 0 <= x < sb.size
      ensures Used(sb, blocks', x) == Used(sb, blocks, x)
    {
      BBlockRange(sb, x);
    }
    forall j, m | 0 <= j < |inodes| && 0 <= m < NSLOTS
      ensures SlotAt(blocks', inodes, j, m) == SlotAt(blocks, inodes, j, m)
    {
      assert Held(sb, blocks, SlotAt(blocks, inodes, j, NDIRECT));
    }
  }
}
