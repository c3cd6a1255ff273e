/**
 Where the fields of the on-disk structures lie, counted from the sizes of the
 fields before them.
 */
module Layouts {
  import Blocks
  import FsModel
  import LogModel

  // struct dinode: type, major, minor, nlink, size, addrs.
  const DINODE: seq<nat> := [2, 2, 2, 2, 4, 4 * 13]

  // struct logheader: n, block.
  const LOGHEADER: seq<nat> := [4, 4 * 30]

  // The byte offset of field k; with k the number of fields, the size.
  function Offset(sizes: seq<nat>, k: nat): (r: nat)
    requires k <= |sizes|
  {
    if k == 0 then 0 else Offset(sizes, k - 1) + sizes[k - 1]
  }

  lemma Offsets()
    ensures Offset(DINODE, 4) == 8 && Offset(DINODE, 5) == 12 && Offset(DINODE, 6) == 64
    ensures Offset(LOGHEADER, 1) == 4 && Offset(LOGHEADER, 2) == 124
  {
    assert Offset(DINODE, 2) == 4;
  }

  // The word number of a byte offset in inode i's block.
  function DinodeField(i: nat, k: nat): (r: nat)
    requires k <= 6
  {
    (i % FsModel.IPB * Offset(DINODE, 6) + Offset(DINODE, k)) / 4
  }

  lemma DinodeFields(i: nat)
    ensures DinodeField(i, 4) == FsModel.DinodeWord(i) + 2 && DinodeField(i, 5) == FsModel.DinodeWord(i) + 3
    ensures DinodeField(i, 6) == FsModel.DinodeWord(i) + 16
  {
    Offsets();
    var b := i % FsModel.IPB;
    assert (b * 64 + 8) / 4 == b * 16 + 2 && (b * 64 + 12) / 4 == b * 16 + 3 && (b * 64 + 64) / 4 == b * 16 + 16;
  }

  // iupdate puts the size and the addresses in their fields of dinode i and
  // leaves every other word of the disk alone.
  lemma DinodeLayout(sb: FsModel.Super, blocks: seq<FsModel.Block>, i: nat, ip: FsModel.Inode)
    requires FsModel.Fits(sb, blocks) && i < sb.ninodes
    ensures FsModel.IPB == FsModel.BSIZE / Offset(DINODE, 6) && FsModel.IBlock(sb, i) < |blocks|
    ensures var x := FsModel.IBlock(sb, i);
            var r := FsModel.PutInode(sb, blocks, i, ip);
            && (forall y :: 0 <= y < |blocks| && y != x ==> r[y] == blocks[y])
            && forall w :: 0 <= w < FsModel.BSIZE / 4 ==>
                 FsModel.Word(r[x], w) ==
                 if w == DinodeField(i, 4) then ip.size
                 else if DinodeField(i, 5) <= w < DinodeField(i, 6) then ip.addrs[w - DinodeField(i, 5)]
                 else FsModel.Word(blocks[x], w)
  {
    hide DinodeField;
    Offsets();
    FsModel.IBlockRange(sb, i);
    DinodeFields(i);
  }

  // ilock reads them from the same fields.
  lemma DinodeRead(sb: FsModel.Super, blocks: seq<FsModel.Block>, i: nat, k: nat)
    requires FsModel.Fits(sb, blocks) && i < sb.ninodes && k < 13
    ensures FsModel.IBlock(sb, i) < |blocks| && DinodeField(i, 5) + k < FsModel.BSIZE / 4
    ensures var b, ip := blocks[FsModel.IBlock(sb, i)], FsModel.DiskInode(sb, blocks, i);
            ip.size == FsModel.Word(b, DinodeField(i, 4)) && ip.addrs[k] == FsModel.Word(b, DinodeField(i, 5) + k)
  {
    hide DinodeField, FsModel.Word, FsModel.GetWords;
    FsModel.IBlockRange(sb, i);
    DinodeFields(i);
  }

  // write_head puts n and the first n block numbers in their fields; read_head
  // takes them from there.
  lemma HeaderLayout(prev: Blocks.Block, bs: seq<int>, w: nat)
    requires |bs| <= LogModel.LOGSIZE && w < Blocks.BLOCKWORDS
    ensures Offset(LOGHEADER, 2) == 4 + 4 * LogModel.LOGSIZE < 4 * Blocks.BLOCKWORDS
    ensures LogModel.Encode(prev, bs).words[w] ==
            if w == Offset(LOGHEADER, 0) / 4 then |bs|
            else if w - Offset(LOGHEADER, 1) / 4 < |bs| then bs[w - Offset(LOGHEADER, 1) / 4]
            else prev.words[w]
    ensures LogModel.HeadOk(prev) ==>
              && |LogModel.Decode(prev)| == prev.words[Offset(LOGHEADER, 0) / 4]
              && forall k :: 0 <= k < |LogModel.Decode(prev)| ==> LogModel.Decode(prev)[k] == prev.words[Offset(LOGHEADER, 1) / 4 + k]
  {
    Offsets();
  }
}
