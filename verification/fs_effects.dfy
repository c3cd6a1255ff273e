/**
 What bmap and writei do to an image, as relations between two images: which
 slots and which bytes may change, and which blocks are logged on the way.
 */
module FsEffects {
  import opened Common
  import opened FsModel

  // bmap(ip, bn) returned with block bn of inode i mapped.
  ghost predicate BmapRel(sb: Super, B: seq<Block>, I: seq<Inode>, B': seq<Block>, I': seq<Inode>, i: nat, bn: nat) {
    && Consistent(sb, B, I) && Consistent(sb, B', I')
    && i < |I| == |I'| && bn < MAXFILE
    && (forall j :: 0 <= j < |I| ==> I'[j].size == I[j].size && (j != i ==> I'[j] == I[j]))
    && (forall j, m :: 0 <= j < |I| && 0 <= m < NSLOTS ==>
          || SlotAt(B', I', j, m) == SlotAt(B, I, j, m)
          || (j == i && SlotAt(B, I, j, m) == 0 && (m == SlotFor(bn) || (m == NDIRECT && bn >= NDIRECT))))
    && SlotAt(B', I', i, SlotFor(bn)) != 0
    && (bn >= NDIRECT ==> SlotAt(B', I', i, NDIRECT) != 0)
    && (forall j, m :: 0 <= j < |I| && 0 <= m < NSLOTS && m != NDIRECT && SlotAt(B, I, j, m) != 0 ==>
          SlotAt(B, I, j, m) < |B| && B'[SlotAt(B, I, j, m)] == B[SlotAt(B, I, j, m)])
    && (SlotAt(B, I, i, SlotFor(bn)) != 0 ==> B' == B && I' == I)
    && (forall x :: 0 <= x < sb.bmapstart ==> B'[x] == B[x])
  }

  // The log_write calls bmap makes, in order.
  function BmapCalls(sb: Super, B: seq<Block>, I: seq<Inode>, B': seq<Block>, I': seq<Inode>, i: nat, bn: nat): (r: seq<nat>)
    requires AddrsOk(B, I) && AddrsOk(B', I') && i < |I| == |I'| && bn < MAXFILE
  {
    var a := SlotAt(B', I', i, SlotFor(bn));
    var ind := SlotAt(B', I', i, NDIRECT);
    if SlotAt(B, I, i, SlotFor(bn)) != 0 then []
    else if bn < NDIRECT then [BBlock(sb, a), a]
    else (if SlotAt(B, I, i, NDIRECT) == 0 then [BBlock(sb, ind), ind] else []) + [BBlock(sb, a), a, ind]
  }

  // balloc touches no block that a slot holds and no block below the bitmap.
  lemma AllocFrame(sb: Super, B: seq<Block>, B': seq<Block>, I: seq<Inode>, b: nat)
    requires Consistent(sb, B, I) && Alloced(sb, B, B', b)
    ensures Consistent(sb, B', I) && SameSlots(B, B', I)
    ensures 0 < sb.datastart <= b && Held(sb, B', b) && Unowned(B', I, b)
    ensures forall j, m :: 0 <= j < |I| && 0 <= m < NSLOTS && SlotAt(B, I, j, m) != 0 ==>
              SlotAt(B, I, j, m) < |B| && B'[SlotAt(B, I, j, m)] == B[SlotAt(B, I, j, m)]
    ensures forall x :: 0 <= x < sb.bmapstart ==> B'[x] == B[x]
  {
    AllocSlots(sb, B, B', I, b);
    AllocKeeps(sb, B, B', I, b);
    BBlockRange(sb, b);
    forall j, m | 0 <= j < |I| && 0 <= m < NSLOTS && SlotAt(B, I, j, m) != 0
      ensures SlotAt(B, I, j, m) < |B| && B'[SlotAt(B, I, j, m)] == B[SlotAt(B, I, j, m)]
    {
      assert Held(sb, B, SlotAt(B, I, j, m));
    }
    forall j, m | 0 <= j < |I| && 0 <= m < NSLOTS
      ensures SlotAt(B', I, j, m) != b
    {
      assert SlotAt(B', I, j, m) == SlotAt(B, I, j, m);
    }
  }

  lemma DirectRel(sb: Super, B: seq<Block>, I: seq<Inode>, B': seq<Block>, i: nat, bn: nat, b: uint)
    requires Consistent(sb, B, I) && i < |I| && bn < NDIRECT && I[i].addrs[bn] == 0
    requires Alloced(sb, B, B', b)
    ensures BmapRel(sb, B, I, B', SetAddr(I, i, bn, b), i, bn)
    ensures SlotAt(B', SetAddr(I, i, bn, b), i, bn) == b
    ensures BmapCalls(sb, B, I, B', SetAddr(I, i, bn, b), i, bn) == [BBlock(sb, b), b]
  {
    AllocFrame(sb, B, B', I, b);
    AddAddress(sb, B', I, i, bn, b);
  }

  lemma EntryRel(sb: Super, B: seq<Block>, I: seq<Inode>, B': seq<Block>, i: nat, e: nat, b: uint)
    requires Consistent(sb, B, I) && i < |I| && e < NINDIRECT
    requires I[i].addrs[NDIRECT] != 0 && SlotAt(B, I, i, NDIRECT + 1 + e) == 0
    requires Alloced(sb, B, B', b)
    ensures BmapRel(sb, B, I, SetEntry(B', I[i].addrs[NDIRECT], e, b), I, i, NDIRECT + e)
    ensures SlotAt(SetEntry(B', I[i].addrs[NDIRECT], e, b), I, i, NDIRECT + 1 + e) == b
    ensures BmapCalls(sb, B, I, SetEntry(B', I[i].addrs[NDIRECT], e, b), I, i, NDIRECT + e)
            == [BBlock(sb, b), b] + [I[i].addrs[NDIRECT]]
  {
    var ind := I[i].addrs[NDIRECT];
    AllocFrame(sb, B, B', I, b);
    assert SlotAt(B', I, i, NDIRECT + 1 + e) == SlotAt(B, I, i, NDIRECT + 1 + e);
    AddEntry(sb, B', I, i, e, b);
    assert SlotAt(B, I, i, NDIRECT) == ind;
    assert Held(sb, B, SlotAt(B, I, i, NDIRECT));
  }

  // A fresh indirect block followed by its first entry.
  lemma NewIndirectRel(sb: Super, B: seq<Block>, I: seq<Inode>, B1: seq<Block>, B2: seq<Block>, i: nat, e: nat, ind: uint)
    requires Consistent(sb, B, I) && i < |I| && e < NINDIRECT && I[i].addrs[NDIRECT] == 0
    requires Alloced(sb, B, B1, ind)
    requires BmapRel(sb, B1, SetAddr(I, i, NDIRECT, ind), B2, SetAddr(I, i, NDIRECT, ind), i, NDIRECT + e)
    ensures BmapRel(sb, B, I, B2, SetAddr(I, i, NDIRECT, ind), i, NDIRECT + e)
    ensures BmapCalls(sb, B, I, B2, SetAddr(I, i, NDIRECT, ind), i, NDIRECT + e)
            == [BBlock(sb, ind), ind]
               + BmapCalls(sb, B1, SetAddr(I, i, NDIRECT, ind), B2, SetAddr(I, i, NDIRECT, ind), i, NDIRECT + e)
  {
    AllocFrame(sb, B, B1, I, ind);
    AddAddress(sb, B1, I, i, NDIRECT, ind);
    var I1 := SetAddr(I, i, NDIRECT, ind);
    forall j, m | 0 <= j < |I| && 0 <= m < NSLOTS && m != NDIRECT && SlotAt(B, I, j, m) != 0
      ensures SlotAt(B, I, j, m) < |B| && B2[SlotAt(B, I, j, m)] == B[SlotAt(B, I, j, m)]
    {
      assert SlotAt(B1, I1, j, m) == SlotAt(B, I, j, m);
    }
    assert SlotAt(B1, I1, i, NDIRECT + 1 + e) == SlotAt(B, I, i, NDIRECT + 1 + e) == 0;
    assert SlotAt(B1, I1, i, NDIRECT) == SlotAt(B2, I1, i, NDIRECT) == ind;
  }

  lemma MappedRel(sb: Super, B: seq<Block>, I: seq<Inode>, i: nat, bn: nat)
    requires Consistent(sb, B, I) && i < |I| && bn < MAXFILE && SlotAt(B, I, i, SlotFor(bn)) != 0
    ensures BmapRel(sb, B, I, B, I, i, bn)
    ensures BmapCalls(sb, B, I, B, I, i, bn) == []
  {
    forall j, m | 0 <= j < |I| && 0 <= m < NSLOTS && SlotAt(B, I, j, m) != 0
      ensures SlotAt(B, I, j, m) < |B|
    {
      assert Held(sb, B, SlotAt(B, I, j, m));
    }
  }

  // tot bytes of src have been written at off into inode i; sizes and the
  // inode blocks are as they were, and nothing but the file's own bytes moved.
  ghost predicate Progress(sb: Super, B: seq<Block>, I: seq<Inode>, B': seq<Block>, I': seq<Inode>,
                           i: nat, off: nat, src: seq<byte>, tot: nat)
  {
    && Consistent(sb, B, I) && Consistent(sb, B', I')
    && i < |I| == |I'| && tot <= |src| && off <= I[i].size && off + |src| <= MAXBYTES
    && NoHoles(B, I[i])
    && (forall j :: 0 <= j < |I| ==> I'[j].size == I[j].size && (j != i ==> I'[j] == I[j]))
    && Mapping(B, I, B', I', i, off + tot)
    && BytesOther(B, I, B', I', i)
    && BytesSelf(B, I, B', I', i, off, src, tot)
    && (I' == I || off + tot > I[i].size)
    && (forall x :: 0 <= x < sb.bmapstart ==> B'[x] == B[x])
  }

  // Slots only get filled, only for inode i, and exactly up to byte `upto`.
  ghost predicate Mapping(B: seq<Block>, I: seq<Inode>, B': seq<Block>, I': seq<Inode>, i: nat, upto: nat)
    requires AddrsOk(B, I) && AddrsOk(B', I') && i < |I| == |I'|
  {
    && (forall j, m :: 0 <= j < |I| && 0 <= m < NSLOTS ==>
          SlotAt(B', I', j, m) == SlotAt(B, I, j, m) || (j == i && SlotAt(B, I, j, m) == 0))
    && (forall bn :: 0 <= bn < MAXFILE && bn * BSIZE >= upto ==> SlotAt(B', I', i, SlotFor(bn)) == SlotAt(B, I, i, SlotFor(bn)))
    && (forall bn :: 0 <= bn < MAXFILE && bn * BSIZE < upto ==> SlotAt(B', I', i, SlotFor(bn)) != 0)
  }

  ghost predicate BytesOther(B: seq<Block>, I: seq<Inode>, B': seq<Block>, I': seq<Inode>, i: nat)
    requires AddrsOk(B, I) && AddrsOk(B', I') && i < |I| == |I'|
  {
    forall j, k :: 0 <= j < |I| && j != i && 0 <= k < MAXBYTES ==> ByteAt(B', I', j, k) == ByteAt(B, I, j, k)
  }

  ghost predicate BytesSelf(B: seq<Block>, I: seq<Inode>, B': seq<Block>, I': seq<Inode>,
                            i: nat, off: nat, src: seq<byte>, tot: nat)
    requires AddrsOk(B, I) && AddrsOk(B', I') && i < |I| == |I'| && tot <= |src|
  {
    && (forall k :: 0 <= k < MAXBYTES && off <= k < off + tot ==> ByteAt(B', I', i, k) == src[k - off])
    && (forall k :: 0 <= k < MAXBYTES && k < I[i].size && !(off <= k < off + tot) ==>
          ByteAt(B', I', i, k) == ByteAt(B, I, i, k))
  }

  lemma ProgressStart(sb: Super, B: seq<Block>, I: seq<Inode>, i: nat, off: nat, src: seq<byte>)
    requires Consistent(sb, B, I) && i < |I| && off <= I[i].size && off + |src| <= MAXBYTES && NoHoles(B, I[i])
    ensures Progress(sb, B, I, B, I, i, off, src, 0)
  {
    forall bn | 0 <= bn < MAXFILE && bn * BSIZE < off
      ensures SlotAt(B, I, i, SlotFor(bn)) != 0
    {}
  }

  // The image after memmove into file block bn and log_write of that buffer.
  function PatchFile(B: seq<Block>, I: seq<Inode>, i: nat, bn: nat, o: nat, chunk: seq<byte>): (r: seq<Block>)
    requires AddrsOk(B, I) && i < |I| && bn < MAXFILE && SlotAt(B, I, i, SlotFor(bn)) < |B| && o + |chunk| <= BSIZE
    ensures |r| == |B|
  {
    B[SlotAt(B, I, i, SlotFor(bn)) := Patch(B[SlotAt(B, I, i, SlotFor(bn))], o, chunk)]
  }

  lemma BmapTarget(sb: Super, B: seq<Block>, I: seq<Inode>, B': seq<Block>, I': seq<Inode>, i: nat, bn: nat)
    requires BmapRel(sb, B, I, B', I', i, bn)
    ensures sb.datastart <= SlotAt(B', I', i, SlotFor(bn)) < |B'|
  {
    assert Held(sb, B', SlotAt(B', I', i, SlotFor(bn)));
  }

  lemma PatchSlots(sb: Super, B: seq<Block>, I: seq<Inode>, i: nat, bn: nat, o: nat, chunk: seq<byte>)
    requires Consistent(sb, B, I) && i < |I| && bn < MAXFILE && o + |chunk| <= BSIZE
    requires SlotAt(B, I, i, SlotFor(bn)) != 0
    ensures SlotAt(B, I, i, SlotFor(bn)) < |B|
    ensures Consistent(sb, PatchFile(B, I, i, bn, o, chunk), I)
    ensures SameSlots(B, PatchFile(B, I, i, bn, o, chunk), I)
  {
    var a := SlotAt(B, I, i, SlotFor(bn));
    assert Held(sb, B, a);
    DataWrite(sb, B, I, i, SlotFor(bn), Patch(B[a], o, chunk));
  }

  // Patching one file block touches only the patched bytes.
  lemma PatchBytes(sb: Super, B: seq<Block>, I: seq<Inode>, i: nat, bn: nat, o: nat, chunk: seq<byte>, j: nat, k: nat)
    requires Consistent(sb, B, I) && i < |I| && bn < MAXFILE && o + |chunk| <= BSIZE
    requires SlotAt(B, I, i, SlotFor(bn)) != 0 && SlotAt(B, I, i, SlotFor(bn)) < |B|
    requires AddrsOk(PatchFile(B, I, i, bn, o, chunk), I)
    requires j < |I| && k < MAXBYTES
    ensures ByteAt(PatchFile(B, I, i, bn, o, chunk), I, j, k)
            == if j == i && k / BSIZE == bn && o <= k % BSIZE < o + |chunk| then chunk[k % BSIZE - o] else ByteAt(B, I, j, k)
  {
    PatchSlots(sb, B, I, i, bn, o, chunk);
    var B' := PatchFile(B, I, i, bn, o, chunk);
    var a, s := SlotAt(B, I, i, SlotFor(bn)), SlotAt(B, I, j, SlotFor(k / BSIZE));
    assert SlotAt(B', I, j, SlotFor(k / BSIZE)) == s;
    assert Held(sb, B, s);
    if s == a {
      assert j == i && k / BSIZE == bn;
    }
  }

  // bmap keeps every byte of other files and every mapped byte of this one.
  lemma BmapBytes(sb: Super, B: seq<Block>, I: seq<Inode>, B': seq<Block>, I': seq<Inode>, i: nat, bn: nat, j: nat, k: nat)
    requires BmapRel(sb, B, I, B', I', i, bn) && j < |I| && k < MAXBYTES
    requires j != i || SlotAt(B, I, i, SlotFor(k / BSIZE)) != 0
    ensures ByteAt(B', I', j, k) == ByteAt(B, I, j, k)
  {
    var s := SlotAt(B, I, j, SlotFor(k / BSIZE));
    assert SlotAt(B', I', j, SlotFor(k / BSIZE)) == s;
  }

  // The bn, offset and length of one iteration of writei's loop.
  ghost predicate Chunk(off: nat, src: seq<byte>, tot: nat, bn: nat, o: nat, m: nat) {
    && tot < |src|
    && bn == (off + tot) / BSIZE
    && o == (off + tot) % BSIZE
    && m == (if |src| - tot < BSIZE - o then |src| - tot else BSIZE - o)
  }

  lemma StepMapping(sb: Super, B: seq<Block>, I: seq<Inode>, B1: seq<Block>, I1: seq<Inode>, B2: seq<Block>, I2: seq<Inode>,
                    i: nat, off: nat, src: seq<byte>, tot: nat, bn: nat, o: nat, m: nat)
    requires Progress(sb, B, I, B1, I1, i, off, src, tot) && Chunk(off, src, tot, bn, o, m)
    requires BmapRel(sb, B1, I1, B2, I2, i, bn)
    ensures Mapping(B, I, B2, I2, i, off + tot + m)
    ensures I2 == I || off + tot + m > I[i].size
  {
    forall b | 0 <= b < MAXFILE && b * BSIZE >= off + tot + m
      ensures SlotAt(B2, I2, i, SlotFor(b)) == SlotAt(B, I, i, SlotFor(b))
    {
      assert b != bn;
    }
    forall b | 0 <= b < MAXFILE && b * BSIZE < off + tot + m
      ensures SlotAt(B2, I2, i, SlotFor(b)) != 0
    {
      if b != bn {
        assert b * BSIZE < off + tot;
        assert SlotAt(B1, I1, i, SlotFor(b)) != 0;
      }
    }
    if SlotAt(B1, I1, i, SlotFor(bn)) == 0 {
      assert bn * BSIZE >= off + tot;
      assert SlotAt(B, I, i, SlotFor(bn)) == 0;
      assert bn * BSIZE >= I[i].size;
    }
  }

  lemma MappingSame(B: seq<Block>, I: seq<Inode>, B2: seq<Block>, B3: seq<Block>, I2: seq<Inode>, i: nat, upto: nat)
    requires AddrsOk(B, I) && AddrsOk(B2, I2) && AddrsOk(B3, I2) && i < |I| == |I2|
    requires Mapping(B, I, B2, I2, i, upto) && SameSlots(B2, B3, I2)
    ensures Mapping(B, I, B3, I2, i, upto)
  {}

  // Which file offsets a chunk covers.
  lemma InChunk(off: nat, src: seq<byte>, tot: nat, bn: nat, o: nat, m: nat, k: nat)
    requires Chunk(off, src, tot, bn, o, m)
    ensures k / BSIZE == bn && o <= k % BSIZE < o + m <==> off + tot <= k < off + (tot + m)
    ensures k / BSIZE == bn ==> k % BSIZE - o == k - off - tot
  {}

  // A byte of the old file or of the written part lies in a mapped block.
  lemma StillMapped(sb: Super, B: seq<Block>, I: seq<Inode>, B': seq<Block>, I': seq<Inode>,
                    i: nat, off: nat, src: seq<byte>, tot: nat, k: nat)
    requires Progress(sb, B, I, B', I', i, off, src, tot)
    requires k < MAXBYTES && (k < I[i].size || k < off + tot)
    ensures SlotAt(B', I', i, SlotFor(k / BSIZE)) != 0
  {
    hide BytesOther, BytesSelf;
    var bn := k / BSIZE;
    assert bn * BSIZE <= k && bn < MAXFILE;
    if bn * BSIZE >= off + tot {
      assert Slot(B, I[i], SlotFor(bn)) != 0;
      assert SlotAt(B, I, i, SlotFor(bn)) == Slot(B, I[i], SlotFor(bn));
    }
  }

  lemma StepByte(sb: Super, B: seq<Block>, I: seq<Inode>, B1: seq<Block>, I1: seq<Inode>, B2: seq<Block>, I2: seq<Inode>,
                 i: nat, off: nat, src: seq<byte>, tot: nat, bn: nat, o: nat, m: nat, k: nat)
    requires Progress(sb, B, I, B1, I1, i, off, src, tot) && Chunk(off, src, tot, bn, o, m)
    requires BmapRel(sb, B1, I1, B2, I2, i, bn)
    requires SlotAt(B2, I2, i, SlotFor(bn)) < |B2|
    requires AddrsOk(PatchFile(B2, I2, i, bn, o, src[tot..tot + m]), I2)
    requires k < MAXBYTES && (k < I[i].size || off <= k < off + (tot + m))
    ensures ByteAt(PatchFile(B2, I2, i, bn, o, src[tot..tot + m]), I2, i, k)
            == if off <= k < off + (tot + m) then src[k - off] else ByteAt(B, I, i, k)
  {
    hide BytesOther, NoHoles, PatchFile, Mapping;
    PatchBytes(sb, B2, I2, i, bn, o, src[tot..tot + m], i, k);
    InChunk(off, src, tot, bn, o, m, k);
    if !(off + tot <= k < off + (tot + m)) {
      StillMapped(sb, B, I, B1, I1, i, off, src, tot, k);
      BmapBytes(sb, B1, I1, B2, I2, i, bn, i, k);
    }
  }

  lemma StepBytes(sb: Super, B: seq<Block>, I: seq<Inode>, B1: seq<Block>, I1: seq<Inode>, B2: seq<Block>, I2: seq<Inode>,
                  i: nat, off: nat, src: seq<byte>, tot: nat, bn: nat, o: nat, m: nat)
    requires Progress(sb, B, I, B1, I1, i, off, src, tot) && Chunk(off, src, tot, bn, o, m)
    requires BmapRel(sb, B1, I1, B2, I2, i, bn)
    requires SlotAt(B2, I2, i, SlotFor(bn)) < |B2|
    requires AddrsOk(PatchFile(B2, I2, i, bn, o, src[tot..tot + m]), I2)
    ensures BytesSelf(B, I, PatchFile(B2, I2, i, bn, o, src[tot..tot + m]), I2, i, off, src, tot + m)
  {
    hide BytesOther, NoHoles, Mapping, ByteAt;
    var B3 := PatchFile(B2, I2, i, bn, o, src[tot..tot + m]);
    forall k | 0 <= k < MAXBYTES && (k < I[i].size || off <= k < off + (tot + m))
      ensures ByteAt(B3, I2, i, k) == if off <= k < off + (tot + m) then src[k - off] else ByteAt(B, I, i, k)
    {
      StepByte(sb, B, I, B1, I1, B2, I2, i, off, src, tot, bn, o, m, k);
    }
  }

  lemma StepOther(sb: Super, B: seq<Block>, I: seq<Inode>, B1: seq<Block>, I1: seq<Inode>, B2: seq<Block>, I2: seq<Inode>,
                  i: nat, bn: nat, o: nat, chunk: seq<byte>)
    requires AddrsOk(B, I) && AddrsOk(B1, I1) && i < |I| == |I1| && BytesOther(B, I, B1, I1, i)
    requires BmapRel(sb, B1, I1, B2, I2, i, bn) && o + |chunk| <= BSIZE
    requires SlotAt(B2, I2, i, SlotFor(bn)) < |B2|
    requires AddrsOk(PatchFile(B2, I2, i, bn, o, chunk), I2)
    ensures BytesOther(B, I, PatchFile(B2, I2, i, bn, o, chunk), I2, i)
  {
    var B3 := PatchFile(B2, I2, i, bn, o, chunk);
    forall j, k | 0 <= j < |I| && j != i && 0 <= k < MAXBYTES
      ensures ByteAt(B3, I2, j, k) == ByteAt(B, I, j, k)
    {
      PatchBytes(sb, B2, I2, i, bn, o, chunk, j, k);
      BmapBytes(sb, B1, I1, B2, I2, i, bn, j, k);
    }
  }

  lemma ProgressStep(sb: Super, B: seq<Block>, I: seq<Inode>, B1: seq<Block>, I1: seq<Inode>, B2: seq<Block>, I2: seq<Inode>,
                     i: nat, off: nat, src: seq<byte>, tot: nat, bn: nat, o: nat, m: nat)
    requires Progress(sb, B, I, B1, I1, i, off, src, tot) && Chunk(off, src, tot, bn, o, m)
    requires BmapRel(sb, B1, I1, B2, I2, i, bn)
    ensures SlotAt(B2, I2, i, SlotFor(bn)) < |B2|
    ensures Progress(sb, B, I, PatchFile(B2, I2, i, bn, o, src[tot..tot + m]), I2, i, off, src, tot + m)
  {
    hide BytesSelf, BytesOther, Mapping, NoHoles;
    var chunk := src[tot..tot + m];
    BmapTarget(sb, B1, I1, B2, I2, i, bn);
    PatchSlots(sb, B2, I2, i, bn, o, chunk);
    StepMapping(sb, B, I, B1, I1, B2, I2, i, off, src, tot, bn, o, m);
    MappingSame(B, I, B2, PatchFile(B2, I2, i, bn, o, chunk), I2, i, off + tot + m);
    StepBytes(sb, B, I, B1, I1, B2, I2, i, off, src, tot, bn, o, m);
    StepOther(sb, B, I, B1, I1, B2, I2, i, bn, o, chunk);
  }

  // Setting a size moves no slot and no byte.
  lemma SizeOnly(sb: Super, B: seq<Block>, I: seq<Inode>, i: nat, size: nat)
    requires Consistent(sb, B, I) && i < |I| && size <= MAXBYTES
    ensures var I' := I[i := I[i].(size := size)];
            && Consistent(sb, B, I')
            && (forall j, m :: 0 <= j < |I| && 0 <= m < NSLOTS ==> SlotAt(B, I', j, m) == SlotAt(B, I, j, m))
            && (forall k :: 0 <= k < MAXBYTES ==> ByteAt(B, I', i, k) == ByteAt(B, I, i, k))
  {
    var I' := I[i := I[i].(size := size)];
    assert AddrsOk(B, I');
    forall j, m | 0 <= j < |I| && 0 <= m < NSLOTS
      ensures SlotAt(B, I', j, m) == SlotAt(B, I, j, m)
    {}
  }

  // When the loop is done the file has no hole up to its new size.
  lemma DoneMapped(sb: Super, B: seq<Block>, I: seq<Inode>, B': seq<Block>, I': seq<Inode>,
                   i: nat, off: nat, src: seq<byte>, I'': seq<Inode>)
    requires Progress(sb, B, I, B', I', i, off, src, |src|) && AddrsOk(B', I'')
    requires I'' == I'[i := I'[i].(size := if off + |src| > I[i].size then off + |src| else I[i].size)]
    ensures NoHoles(B', I''[i])
  {
    hide BytesSelf, BytesOther, Consistent;
    ConsistentAddrs(sb, B, I);
    ConsistentAddrs(sb, B', I');
    forall bn | 0 <= bn < MAXFILE && bn * BSIZE < I''[i].size
      ensures Slot(B', I''[i], SlotFor(bn)) != 0
    {
      assert Slot(B', I''[i], SlotFor(bn)) == SlotAt(B', I', i, SlotFor(bn));
      if bn * BSIZE >= off + |src| {
        assert Slot(B, I[i], SlotFor(bn)) != 0;
        assert SlotAt(B, I, i, SlotFor(bn)) == Slot(B, I[i], SlotFor(bn));
      }
    }
  }

  lemma ConsistentAddrs(sb: Super, B: seq<Block>, I: seq<Inode>)
    requires Consistent(sb, B, I)
    ensures AddrsOk(B, I)
  {}

  // When the loop is done: the file's content is spliced and has no hole.
  lemma ProgressDone(sb: Super, B: seq<Block>, I: seq<Inode>, B': seq<Block>, I': seq<Inode>,
                     i: nat, off: nat, src: seq<byte>, I'': seq<Inode>)
    requires Progress(sb, B, I, B', I', i, off, src, |src|) && |src| > 0
    requires I'' == I'[i := I'[i].(size := if off + |src| > I[i].size then off + |src| else I[i].size)]
    ensures Consistent(sb, B', I'') && NoHoles(B', I''[i])
    ensures Content(B', I'', i) == Splice(Content(B, I, i), off, src)
  {
    hide BytesOther, Mapping, NoHoles, Consistent, ByteAt;
    ConsistentAddrs(sb, B, I);
    ConsistentAddrs(sb, B', I');
    DoneSize(sb, B, I, B', I', i, off, src);
    SizeOnly(sb, B', I', i, I''[i].size);
    ConsistentAddrs(sb, B', I'');
    DoneMapped(sb, B, I, B', I', i, off, src, I'');
    var c, c' := Content(B, I, i), Content(B', I'', i);
    forall k | 0 <= k < I''[i].size
      ensures c'[k] == Splice(c, off, src)[k]
    {
      assert ByteAt(B', I'', i, k) == ByteAt(B', I', i, k);
    }
  }

  lemma DoneSize(sb: Super, B: seq<Block>, I: seq<Inode>, B': seq<Block>, I': seq<Inode>, i: nat, off: nat, src: seq<byte>)
    requires Progress(sb, B, I, B', I', i, off, src, |src|)
    ensures I[i].size <= MAXBYTES && off + |src| <= MAXBYTES
  {}

  lemma OtherContent(B: seq<Block>, I: seq<Inode>, B': seq<Block>, I': seq<Inode>, i: nat, j: nat)
    requires AddrsOk(B, I) && AddrsOk(B', I') && i < |I| == |I'| && j < |I| && j != i
    requires BytesOther(B, I, B', I', i) && I'[j] == I[j] && I[j].size <= MAXBYTES
    ensures Content(B', I', j) == Content(B, I, j)
  {
    forall k | 0 <= k < I[j].size
      ensures Content(B', I', j)[k] == Content(B, I, j)[k]
    {
      assert ByteAt(B', I', j, k) == ByteAt(B, I, j, k);
    }
  }

  lemma SameDinodes(sb: Super, B: seq<Block>, I: seq<Inode>, B': seq<Block>)
    requires Fits(sb, B) && Fits(sb, B') && OnDisk(sb, B, I)
    requires forall x :: 0 <= x < sb.bmapstart ==> B'[x] == B[x]
    ensures OnDisk(sb, B', I)
  {
    forall j | 0 <= j < |I|
      ensures DiskInode(sb, B', j) == I[j]
    {
      IBlockRange(sb, j);
      assert DiskInode(sb, B, j) == I[j];
    }
  }

  ghost predicate AllMapped(B: seq<Block>, I: seq<Inode>)
    requires AddrsOk(B, I)
  {
    forall j :: 0 <= j < |I| ==> NoHoles(B, I[j])
  }

  // The invariant between file-system operations.
  ghost predicate ValidImage(sb: Super, B: seq<Block>, I: seq<Inode>) {
    Consistent(sb, B, I) && OnDisk(sb, B, I) && AllMapped(B, I)
  }

  lemma OthersMapped(sb: Super, B: seq<Block>, I: seq<Inode>, B': seq<Block>, I': seq<Inode>,
                     i: nat, off: nat, src: seq<byte>, tot: nat, j: nat)
    requires Progress(sb, B, I, B', I', i, off, src, tot) && j < |I| && j != i && NoHoles(B, I[j])
    ensures NoHoles(B', I'[j])
  {
    forall bn | 0 <= bn < MAXFILE && bn * BSIZE < I[j].size
      ensures Slot(B', I'[j], SlotFor(bn)) != 0
    {
      assert SlotAt(B', I', j, SlotFor(bn)) == SlotAt(B, I, j, SlotFor(bn));
      assert Slot(B, I[j], SlotFor(bn)) != 0;
    }
  }

  // A write that does not grow the file allocates nothing, so the inodes on
  // disk are still current.
  lemma WroteInPlace(sb: Super, B: seq<Block>, I: seq<Inode>, B': seq<Block>, I': seq<Inode>, i: nat, off: nat, src: seq<byte>)
    requires Progress(sb, B, I, B', I', i, off, src, |src|) && AllMapped(B, I) && OnDisk(sb, B, I)
    requires off + |src| <= I[i].size
    ensures I' == I && OnDisk(sb, B', I') && AllMapped(B', I')
    ensures Content(B', I', i) == Splice(Content(B, I, i), off, src)
  {
    SameDinodes(sb, B, I, B');
    forall j | 0 <= j < |I|
      ensures NoHoles(B', I'[j])
    {
      if j != i {
        OthersMapped(sb, B, I, B', I', i, off, src, |src|, j);
      } else {
        SelfMapped(sb, B, I, B', I', i, off, src);
      }
    }
    if |src| > 0 {
      assert I'[i := I'[i].(size := I[i].size)] == I';
      ProgressDone(sb, B, I, B', I', i, off, src, I');
    } else {
      var c, c' := Content(B, I, i), Content(B', I', i);
      forall k | 0 <= k < I[i].size
        ensures c'[k] == c[k]
      {
        assert ByteAt(B', I', i, k) == ByteAt(B, I, i, k);
      }
      assert c' == Splice(c, off, src);
    }
  }

  lemma SelfMapped(sb: Super, B: seq<Block>, I: seq<Inode>, B': seq<Block>, I': seq<Inode>, i: nat, off: nat, src: seq<byte>)
    requires Progress(sb, B, I, B', I', i, off, src, |src|) && NoHoles(B, I[i])
    ensures NoHoles(B', I'[i])
  {
    forall bn | 0 <= bn < MAXFILE && bn * BSIZE < I[i].size
      ensures Slot(B', I'[i], SlotFor(bn)) != 0
    {
      assert Slot(B, I[i], SlotFor(bn)) != 0;
      assert SlotAt(B, I, i, SlotFor(bn)) != 0;
      assert SlotAt(B', I', i, SlotFor(bn)) == SlotAt(B, I, i, SlotFor(bn));
    }
  }

  function Resize(I: seq<Inode>, i: nat, size: uint): (r: seq<Inode>)
    requires i < |I|
  {
    I[i := I[i].(size := size)]
  }

  // Writing an inode back moves no byte of any file and unmaps nothing.
  lemma PutInodeNeutral(sb: Super, B: seq<Block>, I: seq<Inode>, i: nat, ip: Inode)
    requires Consistent(sb, B, I) && i < sb.ninodes
    ensures Consistent(sb, PutInode(sb, B, i, ip), I)
    ensures forall j, k :: 0 <= j < |I| && 0 <= k < MAXBYTES ==> ByteAt(PutInode(sb, B, i, ip), I, j, k) == ByteAt(B, I, j, k)
    ensures forall j :: 0 <= j < |I| && NoHoles(B, I[j]) ==> NoHoles(PutInode(sb, B, i, ip), I[j])
  {
    PutInodeKeeps(sb, B, I, i, ip);
    IBlockRange(sb, i);
    var B' := PutInode(sb, B, i, ip);
    forall j, k | 0 <= j < |I| && 0 <= k < MAXBYTES
      ensures ByteAt(B', I, j, k) == ByteAt(B, I, j, k)
    {
      assert SlotAt(B', I, j, SlotFor(k / BSIZE)) == SlotAt(B, I, j, SlotFor(k / BSIZE));
      assert Held(sb, B, SlotAt(B, I, j, SlotFor(k / BSIZE)));
    }
    forall j | 0 <= j < |I| && NoHoles(B, I[j])
      ensures NoHoles(B', I[j])
    {
      forall bn | 0 <= bn < MAXFILE && bn * BSIZE < I[j].size
        ensures Slot(B', I[j], SlotFor(bn)) != 0
      {
        assert SlotAt(B', I, j, SlotFor(bn)) == SlotAt(B, I, j, SlotFor(bn));
        assert Slot(B, I[j], SlotFor(bn)) != 0;
      }
    }
  }

  lemma SameContent(B: seq<Block>, B': seq<Block>, I: seq<Inode>, j: nat)
    requires AddrsOk(B, I) && AddrsOk(B', I) && j < |I| && I[j].size <= MAXBYTES
    requires forall k :: 0 <= k < MAXBYTES ==> ByteAt(B', I, j, k) == ByteAt(B, I, j, k)
    ensures Content(B', I, j) == Content(B, I, j)
  {}

  // Changing sizes alone moves no byte.
  lemma ResizeBytes(B: seq<Block>, I: seq<Inode>, i: nat, size: uint, j: nat, k: nat)
    requires AddrsOk(B, I) && i < |I| && j < |I| && k < MAXBYTES
    ensures AddrsOk(B, Resize(I, i, size)) && ByteAt(B, Resize(I, i, size), j, k) == ByteAt(B, I, j, k)
  {
    assert SlotAt(B, Resize(I, i, size), j, SlotFor(k / BSIZE)) == SlotAt(B, I, j, SlotFor(k / BSIZE));
  }

  // A write that grows the file ends by writing the inode back.
  lemma WroteGrown(sb: Super, B: seq<Block>, I: seq<Inode>, B': seq<Block>, I': seq<Inode>, i: nat, off: nat, src: seq<byte>,
                   I2: seq<Inode>, B2: seq<Block>)
    requires Progress(sb, B, I, B', I', i, off, src, |src|) && AllMapped(B, I) && OnDisk(sb, B, I)
    requires off + |src| > I[i].size
    requires I2 == Resize(I', i, off + |src|) && B2 == PutInode(sb, B', i, I2[i])
    ensures Consistent(sb, B2, I2) && OnDisk(sb, B2, I2) && AllMapped(B2, I2)
    ensures Content(B2, I2, i) == Splice(Content(B, I, i), off, src)
    ensures BytesOther(B, I, B2, I2, i)
  {
    hide Mapping, BytesSelf, Splice, Content;
    ProgressDone(sb, B, I, B', I', i, off, src, I2);
    PutInodeNeutral(sb, B', I2, i, I2[i]);
    GrownDinodes(sb, B, I, B', I', i, off, src);
    SameContent(B', B2, I2, i);
    forall j | 0 <= j < |I|
      ensures NoHoles(B2, I2[j])
    {
      if j != i {
        OthersMapped(sb, B, I, B', I', i, off, src, |src|, j);
      }
    }
    forall j, k | 0 <= j < |I| && j != i && 0 <= k < MAXBYTES
      ensures ByteAt(B2, I2, j, k) == ByteAt(B, I, j, k)
    {
      ResizeBytes(B', I', i, off + |src|, j, k);
      assert ByteAt(B', I', j, k) == ByteAt(B, I, j, k);
    }
  }

  lemma GrownDinodes(sb: Super, B: seq<Block>, I: seq<Inode>, B': seq<Block>, I': seq<Inode>, i: nat, off: nat, src: seq<byte>)
    requires Progress(sb, B, I, B', I', i, off, src, |src|) && OnDisk(sb, B, I)
    ensures OnDisk(sb, PutInode(sb, B', i, Resize(I', i, off + |src|)[i]), Resize(I', i, off + |src|))
  {
    SameDinodes(sb, B, I, B');
    var I2 := Resize(I', i, off + |src|);
    forall j | 0 <= j < |I2|
      ensures DiskInode(sb, PutInode(sb, B', i, I2[i]), j) == I2[j]
    {
      PutInodeReadBack(sb, B', i, I2[i], j);
      assert DiskInode(sb, B', j) == I[j];
    }
  }

  // --------------------------------------------------------- log_write calls

  const MAXOPBLOCKS := 10

  // Every log_write of the operation is made while it has logged fewer than
  // MAXOPBLOCKS distinct blocks, which is what the log reserves for it.
  ghost predicate WithinBudget(calls: seq<nat>) {
    forall k :: 0 <= k < |calls| ==> |Elements(calls[..k])| < MAXOPBLOCKS
  }

  lemma ElementsSnoc(calls: seq<nat>, x: nat)
    ensures Elements(calls + [x]) == Elements(calls) + {x}
    ensures |Elements(calls + [x])| <= |Elements(calls)| + 1
    ensures x in calls ==> Elements(calls + [x]) == Elements(calls)
  {
    assert Elements(calls + [x]) == Elements(calls) + {x};
  }

  lemma SubsetSize(a: set<nat>, b: set<nat>)
    requires a <= b
    ensures |a| <= |b|
  {
    assert b == a + (b - a);
  }

  lemma ElementsPrefix(calls: seq<nat>, k: nat)
    requires k <= |calls|
    ensures |Elements(calls[..k])| <= |Elements(calls)|
  {
    SubsetSize(Elements(calls[..k]), Elements(calls));
  }

  // Staying below the limit, and possibly reaching it with one last call.
  lemma BudgetMet(calls: seq<nat>, last: seq<nat>)
    requires |Elements(calls)| < MAXOPBLOCKS && |last| <= 1
    ensures WithinBudget(calls + last) && |Elements(calls + last)| <= MAXOPBLOCKS
  {
    forall k | 0 <= k < |calls + last|
      ensures |Elements((calls + last)[..k])| < MAXOPBLOCKS
    {
      assert (calls + last)[..k] == calls[..k];
      ElementsPrefix(calls, k);
    }
    if |last| == 1 {
      ElementsSnoc(calls, last[0]);
      assert last == [last[0]];
    } else {
      assert calls + last == calls;
    }
  }

  // How many distinct blocks writei has logged so far: one per file block
  // visited, one bitmap block per allocation, and the indirect block once.
  datatype Count = Count(visited: nat, allocs: nat, newIndirect: nat, indirect: nat)

  ghost predicate Tally(calls0: seq<nat>, calls: seq<nat>, ind: uint, c: Count) {
    && |Elements(calls)| <= |Elements(calls0)| + c.visited + c.allocs + c.newIndirect + c.indirect
    && c.newIndirect <= c.indirect <= 1
    && (c.indirect == 1 ==> ind != 0 && ind in calls)
  }

  function NextCount(B: seq<Block>, I: seq<Inode>, i: nat, bn: nat, c: Count): (r: Count)
    requires AddrsOk(B, I) && i < |I| && bn < MAXFILE
  {
    var alloc := SlotAt(B, I, i, SlotFor(bn)) == 0;
    Count(c.visited + 1,
          c.allocs + if alloc then 1 else 0,
          if alloc && bn >= NDIRECT && SlotAt(B, I, i, NDIRECT) == 0 then 1 else c.newIndirect,
          if alloc && bn >= NDIRECT then 1 else c.indirect)
  }

  lemma TallyVisit(calls0: seq<nat>, calls: seq<nat>, ind: uint, c: Count, a: nat)
    requires Tally(calls0, calls, ind, c)
    ensures Tally(calls0, calls + [a], ind, c.(visited := c.visited + 1))
  {
    ElementsSnoc(calls, a);
  }

  // An allocation logs a bitmap block and the new block, which is then visited.
  lemma TallyAlloc(calls0: seq<nat>, calls: seq<nat>, ind: uint, c: Count, bb: nat, a: nat)
    requires Tally(calls0, calls, ind, c)
    ensures Tally(calls0, calls + [bb, a], ind, c.(visited := c.visited + 1, allocs := c.allocs + 1))
  {
    ElementsSnoc(calls, bb);
    ElementsSnoc(calls + [bb], a);
    assert calls + [bb, a] == calls + [bb] + [a];
  }

  lemma TallyAgain(calls0: seq<nat>, calls: seq<nat>, ind: uint, c: Count, a: nat)
    requires Tally(calls0, calls, ind, c) && a in calls
    ensures Tally(calls0, calls + [a], ind, c)
  {
    ElementsSnoc(calls, a);
  }

  lemma TallyIndirect(calls0: seq<nat>, calls: seq<nat>, ind: uint, c: Count)
    requires Tally(calls0, calls, ind, c) && ind != 0
    ensures Tally(calls0, calls + [ind], ind, c.(indirect := 1))
  {
    ElementsSnoc(calls, ind);
  }

  lemma TallyNewIndirect(calls0: seq<nat>, calls: seq<nat>, c: Count, bb: nat, ind: uint)
    requires Tally(calls0, calls, 0, c) && ind != 0
    ensures Tally(calls0, calls + [bb, ind], ind, c.(newIndirect := 1, indirect := 1))
  {
    ElementsSnoc(calls, bb);
    ElementsSnoc(calls + [bb], ind);
    assert calls + [bb, ind] == calls + [bb] + [ind];
  }

  lemma EntryCalls(calls: seq<nat>, first: seq<nat>, bb: nat, a: nat, ind: nat)
    ensures calls + (first + [bb, a, ind]) + [a] == calls + first + [bb, a] + [ind] + [a]
  {}

  // A direct block: its bitmap block, itself zeroed, itself written.
  lemma TallyDirect(calls0: seq<nat>, calls: seq<nat>, ind: uint, c: Count, bb: nat, a: nat)
    requires Tally(calls0, calls, ind, c)
    ensures Tally(calls0, calls + [bb, a] + [a], ind, c.(visited := c.visited + 1, allocs := c.allocs + 1))
  {
    hide Tally;
    TallyAlloc(calls0, calls, ind, c, bb, a);
    TallyAgain(calls0, calls + [bb, a], ind, c.(visited := c.visited + 1, allocs := c.allocs + 1), a);
  }

  // An indirect entry, with the indirect block itself allocated if it is missing.
  lemma TallyEntry(calls0: seq<nat>, calls: seq<nat>, ind0: uint, ind: uint, c: Count, bbi: nat, bb: nat, a: nat)
    requires Tally(calls0, calls, ind0, c) && ind != 0 && (ind0 == 0 || ind0 == ind)
    ensures var first := if ind0 == 0 then [bbi, ind] else [];
            Tally(calls0, calls + (first + [bb, a, ind]) + [a], ind,
                  Count(c.visited + 1, c.allocs + 1, if ind0 == 0 then 1 else c.newIndirect, 1))
  {
    hide Tally;
    var first, d := [], c;
    if ind0 == 0 {
      TallyNewIndirect(calls0, calls, c, bbi, ind);
      first, d := [bbi, ind], c.(newIndirect := 1, indirect := 1);
    } else {
      assert calls + first == calls;
    }
    var pre, e := calls + first + [bb, a], d.(visited := d.visited + 1, allocs := d.allocs + 1);
    TallyAlloc(calls0, calls + first, ind, d, bb, a);
    TallyIndirect(calls0, pre, ind, e);
    TallyAgain(calls0, pre + [ind], ind, e.(indirect := 1), a);
    EntryCalls(calls, first, bb, a, ind);
  }

  lemma TallyStep(sb: Super, B: seq<Block>, I: seq<Inode>, B': seq<Block>, I': seq<Inode>,
                  i: nat, bn: nat, calls0: seq<nat>, calls: seq<nat>, c: Count)
    requires BmapRel(sb, B, I, B', I', i, bn)
    requires Tally(calls0, calls, I[i].addrs[NDIRECT], c)
    ensures Tally(calls0, calls + BmapCalls(sb, B, I, B', I', i, bn) + [SlotAt(B', I', i, SlotFor(bn))],
                  I'[i].addrs[NDIRECT], NextCount(B, I, i, bn, c))
  {
    hide Tally;
    var a, ind, ind0 := SlotAt(B', I', i, SlotFor(bn)), SlotAt(B', I', i, NDIRECT), SlotAt(B, I, i, NDIRECT);
    assert ind0 != 0 || bn < NDIRECT ==> ind == ind0;
    if SlotAt(B, I, i, SlotFor(bn)) != 0 {
      TallyVisit(calls0, calls, ind0, c, a);
      assert calls + [] == calls;
    } else if bn < NDIRECT {
      TallyDirect(calls0, calls, ind, c, BBlock(sb, a), a);
    } else {
      TallyEntry(calls0, calls, ind0, ind, c, BBlock(sb, ind), BBlock(sb, a), a);
    }
  }
}
