/**
 The block layer of fs.c and the chunk loop of filewrite (file.c), updating the
 blocks and the in-memory inodes in place.
 */
module Fs {
  import opened Common
  import opened FsModel
  import opened FsEffects
  import opened FsTrunc

  datatype WriteResult = Wrote | Refused | OutOfBlocks

  // No block is free.
  predicate Full(sb: Super, B: seq<Block>)
    requires Fits(sb, B)
  {
    forall x :: 0 <= x < sb.size ==> Used(sb, B, x)
  }

  // balloc's two writes.
  lemma TakeEffect(sb: Super, B: seq<Block>, I: seq<Inode>, b: nat, bi: nat)
    requires Consistent(sb, B, I) && b % BPB == 0 && bi < BPB && b + bi < sb.size && !Used(sb, B, b + bi)
    ensures BBlock(sb, b) == BBlock(sb, b + bi) < |B|
    ensures var bp := B[BBlock(sb, b)];
            var marked := B[BBlock(sb, b) := Block(bp.data[bi / 8 := SetByteBit(bp.data[bi / 8], bi % 8)])];
            Alloced(sb, B, marked[b + bi := ZeroBlock()], b + bi)
  {
    BBlockRange(sb, b + bi);
    assert BBlock(sb, b + bi) == BBlock(sb, b) && (b + bi) % BPB == bi;
    assert sb.datastart <= b + bi;
    var bp := B[BBlock(sb, b)];
    PutBit(sb, B, b + bi, SetByteBit(bp.data[bi / 8], bi % 8), true);
    var marked := B[BBlock(sb, b) := Block(bp.data[bi / 8 := SetByteBit(bp.data[bi / 8], bi % 8)])];
    BitmapUntouched(sb, marked, marked[b + bi := ZeroBlock()], b + bi);
  }

  lemma CallsConcat(a: seq<nat>, b: seq<nat>, c: seq<nat>)
    ensures a + b + c == a + (b + c)
  {}

  class Volume {
    const sb: Super
    var blocks: seq<Block>
    var inodes: seq<Inode>
    // The block numbers passed to log_write in the current transaction, and
    // in each transaction that has ended.
    var calls: seq<nat>
    var ended: seq<seq<nat>>
    // The image when the transaction began, and its log_write calls in full.
    ghost var start: seq<Block>
    ghost var puts: seq<Put>

    // The blocks changed by nothing but those calls.
    ghost predicate Traced()
      reads this
    {
      blocks == Applied(start, puts) && calls == Numbers(puts)
    }

    ghost predicate Valid()
      reads this
    {
      ValidImage(sb, blocks, inodes)
    }

    constructor (sb: Super, blocks: seq<Block>, inodes: seq<Inode>)
      requires ValidImage(sb, blocks, inodes)
      ensures Valid() && this.sb == sb && this.blocks == blocks && this.inodes == inodes && calls == [] && ended == []
      ensures Traced()
    {
      this.sb, this.blocks, this.inodes, this.calls, this.ended := sb, blocks, inodes, [], [];
      this.start, this.puts := blocks, [];
    }

    method LogWrite(b: nat, data: Block)
      requires b < |blocks|
      requires Traced()
      modifies this`blocks, this`calls, this`puts
      ensures Traced()
      ensures blocks == old(blocks)[b := data] && calls == old(calls) + [b]
    {
      AppliedSnoc(start, puts, Put(b, data));
      puts := puts + [Put(b, data)];
      blocks := blocks[b := data];
      calls := calls + [b];
    }

    // Mark the free block b + bi in its bitmap block and zero it (bzero).
    method Take(b: nat, bi: nat)
      requires Consistent(sb, blocks, inodes) && b % BPB == 0 && bi < BPB && b + bi < sb.size
      requires !Used(sb, blocks, b + bi)
      requires Traced()
      modifies this`blocks, this`calls, this`puts
      ensures Traced()
      ensures Alloced(sb, old(blocks), blocks, b + bi)
      ensures calls == old(calls) + [BBlock(sb, b + bi), b + bi]
    {
      hide Applied, Numbers, Consistent, Alloced, Used, SetByteBit;
      ConsistentBasics(sb, blocks, inodes);
      TakeEffect(sb, blocks, inodes, b, bi);
      var bp := blocks[BBlock(sb, b)];
      LogWrite(BBlock(sb, b), Block(bp.data[bi / 8 := SetByteBit(bp.data[bi / 8], bi % 8)]));
      LogWrite(b + bi, ZeroBlock());
      CallsConcat(old(calls), [BBlock(sb, b)], [b + bi]);
    }

    // balloc's scan of the bitmap block that covers b: the first clear bit.
    method ScanBits(b: nat) returns (r: Option<nat>)
      requires Fits(sb, blocks) && b % BPB == 0 && b < sb.size
      ensures r.Some? ==> r.value < BPB && b + r.value < sb.size && !Used(sb, blocks, b + r.value)
      ensures forall x :: b <= x < sb.size && x < b + (if r.Some? then r.value else BPB) ==> Used(sb, blocks, x)
    {
      BBlockRange(sb, b);
      var bp := blocks[BBlock(sb, b)];
      var bi := 0;
      while bi < BPB && b + bi < sb.size
        invariant 0 <= bi <= BPB
        invariant forall x :: b <= x < sb.size && x < b + bi ==> Used(sb, blocks, x)
      {
        assert BBlock(sb, b + bi) == BBlock(sb, b) && (b + bi) % BPB == bi;
        if !Bit(bp.data[bi / 8], bi % 8) {
          return Some(bi);
        }
        bi := bi + 1;
      }
      r := None;
    }

    // Allocate the lowest-numbered free block, zeroed; None is the panic
    // "balloc: out of blocks".
    method Balloc() returns (r: Option<uint>)
      requires Consistent(sb, blocks, inodes)
      requires Traced()
      modifies this`blocks, this`calls, this`puts
      ensures Traced()
      ensures r.None? <==> Full(sb, old(blocks))
      ensures r.None? ==> blocks == old(blocks) && calls == old(calls)
      ensures r.Some? ==>
                && Alloced(sb, old(blocks), blocks, r.value)
                && (forall x :: 0 <= x < r.value ==> Used(sb, old(blocks), x))
                && calls == old(calls) + [BBlock(sb, r.value), r.value]
    {
      hide Applied, Numbers, Consistent, Alloced, Used;
      ConsistentBasics(sb, blocks, inodes);
      var b := 0;
      while b < sb.size
        invariant Traced()
        invariant b % BPB == 0 && 0 <= b
        invariant blocks == old(blocks) && calls == old(calls)
        invariant forall x :: 0 <= x < sb.size && x < b ==> Used(sb, blocks, x)
      {
        var bi := ScanBits(b);
        if bi.Some? {
          Take(b, bi.value);
          return Some(b + bi.value);
        }
        b := b + BPB;
      }
      r := None;
    }

    // Clear the bit of block b; false is the panic "freeing free block".
    method Bfree(b: nat) returns (ok: bool)
      requires Fits(sb, blocks) && b < sb.size
      requires Traced()
      modifies this`blocks, this`calls, this`puts
      ensures Traced()
      ensures Fits(sb, blocks)
      ensures ok == Used(sb, old(blocks), b)
      ensures ok ==> OnlyBit(sb, old(blocks), blocks, b, false) && calls == old(calls) + [BBlock(sb, b)]
      ensures !ok ==> blocks == old(blocks) && calls == old(calls)
    {
      BBlockRange(sb, b);
      var bp := blocks[BBlock(sb, b)];
      var bi := b % BPB;
      if !Bit(bp.data[bi / 8], bi % 8) {
        return false;
      }
      PutBit(sb, blocks, b, ClearBit(bp.data[bi / 8], bi % 8), false);
      LogWrite(BBlock(sb, b), Block(bp.data[bi / 8 := ClearBit(bp.data[bi / 8], bi % 8)]));
      ok := true;
    }

    // bmap for a direct block.
    method BmapDirect(i: nat, bn: nat) returns (r: Option<uint>)
      requires Consistent(sb, blocks, inodes) && i < |inodes| && bn < NDIRECT
      requires Traced()
      modifies this`blocks, this`inodes, this`calls, this`puts
      ensures Traced()
      ensures r.Some? == BmapRel(sb, old(blocks), old(inodes), blocks, inodes, i, bn)
      ensures r.Some? ==>
                && r.value == SlotAt(blocks, inodes, i, bn)
                && calls == old(calls) + BmapCalls(sb, old(blocks), old(inodes), blocks, inodes, i, bn)
      ensures r.None? ==> blocks == old(blocks) && Full(sb, blocks)
      ensures SlotAt(old(blocks), old(inodes), i, bn) != 0 ==>
                r.Some? && blocks == old(blocks) && inodes == old(inodes) && calls == old(calls)
    {
      var addr := inodes[i].addrs[bn];
      if addr != 0 {
        assert SlotAt(blocks, inodes, i, bn) == addr;
        MappedRel(sb, blocks, inodes, i, bn);
        return Some(addr);
      }
      r := Balloc();
      if r.Some? {
        DirectRel(sb, old(blocks), inodes, blocks, i, bn, r.value);
        inodes := SetAddr(inodes, i, bn, r.value);
      }
    }

    // a[e] = b; log_write of the indirect block.
    method LogEntry(ind: nat, e: nat, b: uint)
      requires ind < |blocks| && e < NINDIRECT
      requires Traced()
      modifies this`blocks, this`calls, this`puts
      ensures Traced()
      ensures blocks == SetEntry(old(blocks), ind, e, b) && calls == old(calls) + [ind]
    {
      LogWrite(ind, PutWord(blocks[ind], e, b));
    }

    // bmap once the inode has an indirect block.
    method BmapEntry(i: nat, e: nat) returns (r: Option<uint>)
      requires Consistent(sb, blocks, inodes) && i < |inodes| && e < NINDIRECT && inodes[i].addrs[NDIRECT] != 0
      requires Traced()
      modifies this`blocks, this`calls, this`puts
      ensures Traced()
      ensures r.Some? == BmapRel(sb, old(blocks), inodes, blocks, inodes, i, NDIRECT + e)
      ensures r.Some? ==>
                && r.value == SlotAt(blocks, inodes, i, NDIRECT + 1 + e)
                && calls == old(calls) + BmapCalls(sb, old(blocks), inodes, blocks, inodes, i, NDIRECT + e)
      ensures r.None? ==> blocks == old(blocks) && Full(sb, blocks)
      ensures SlotAt(old(blocks), inodes, i, NDIRECT + 1 + e) != 0 ==>
                r.Some? && blocks == old(blocks) && calls == old(calls)
    {
      hide Applied, Numbers, Consistent, BmapRel, Alloced, BmapCalls, SetEntry;
      ConsistentBasics(sb, blocks, inodes);
      var ind := inodes[i].addrs[NDIRECT];
      var addr := Word(blocks[ind], e);
      assert addr == SlotAt(blocks, inodes, i, NDIRECT + 1 + e);
      if addr != 0 {
        MappedRel(sb, blocks, inodes, i, NDIRECT + e);
        return Some(addr);
      }
      r := Balloc();
      if r.Some? {
        AllocBasics(sb, old(blocks), blocks, r.value);
        EntryRel(sb, old(blocks), inodes, blocks, i, e, r.value);
        LogEntry(ind, e, r.value);
        CallsConcat(old(calls), [BBlock(sb, r.value), r.value], [ind]);
      } else {
        NotMapped(sb, old(blocks), inodes, blocks, inodes, i, NDIRECT + e);
      }
    }

    // bmap for an indirect entry of an inode that has no indirect block yet.
    method BmapNewIndirect(i: nat, e: nat) returns (r: Option<uint>)
      requires Consistent(sb, blocks, inodes) && i < |inodes| && e < NINDIRECT && inodes[i].addrs[NDIRECT] == 0
      requires Traced()
      modifies this`blocks, this`inodes, this`calls, this`puts
      ensures Traced()
      ensures r.Some? == BmapRel(sb, old(blocks), old(inodes), blocks, inodes, i, NDIRECT + e)
      ensures r.Some? ==>
                && r.value == SlotAt(blocks, inodes, i, NDIRECT + 1 + e)
                && calls == old(calls) + BmapCalls(sb, old(blocks), old(inodes), blocks, inodes, i, NDIRECT + e)
      ensures r.None? ==> Fits(sb, blocks) && Full(sb, blocks)
    {
      hide Applied, Numbers, Consistent, BmapRel, Alloced, BmapCalls;
      ConsistentBasics(sb, blocks, inodes);
      r := Balloc();
      if r.None? {
        assert SlotAt(blocks, inodes, i, NDIRECT + 1 + e) == 0;
        NotMapped(sb, blocks, inodes, blocks, inodes, i, NDIRECT + e);
        return;
      }
      var ind := r.value;
      NewIndirectOk(sb, old(blocks), blocks, inodes, i, ind);
      inodes := SetAddr(inodes, i, NDIRECT, ind);
      ghost var mid := blocks;
      r := BmapEntry(i, e);
      if r.Some? {
        NewIndirectRel(sb, old(blocks), old(inodes), mid, blocks, i, e, ind);
        ConsistentBasics(sb, mid, inodes);
        BmapBasics(sb, mid, inodes, blocks, inodes, i, NDIRECT + e);
        ConsistentBasics(sb, blocks, inodes);
        CallsConcat(old(calls), [BBlock(sb, ind), ind], BmapCalls(sb, mid, inodes, blocks, inodes, i, NDIRECT + e));
      } else {
        ConsistentBasics(sb, mid, inodes);
        NotMapped(sb, old(blocks), old(inodes), blocks, inodes, i, NDIRECT + e);
      }
    }

    // The disk block of file block bn, allocating it when missing; None is one
    // of the panics "bmap: out of range" and "balloc: out of blocks".
    method Bmap(i: nat, bn: nat) returns (r: Option<uint>)
      requires Consistent(sb, blocks, inodes) && i < |inodes|
      requires Traced()
      modifies this`blocks, this`inodes, this`calls, this`puts
      ensures Traced()
      ensures r.Some? == BmapRel(sb, old(blocks), old(inodes), blocks, inodes, i, bn)
      ensures r.Some? ==>
                && r.value == SlotAt(blocks, inodes, i, SlotFor(bn))
                && calls == old(calls) + BmapCalls(sb, old(blocks), old(inodes), blocks, inodes, i, bn)
      ensures r.None? && bn < MAXFILE ==> Fits(sb, blocks) && Full(sb, blocks)
      ensures bn >= MAXFILE ==> r.None?
      ensures bn < MAXFILE && SlotAt(old(blocks), old(inodes), i, SlotFor(bn)) != 0 ==>
                r.Some? && blocks == old(blocks) && inodes == old(inodes) && calls == old(calls)
    {
      hide Applied, Numbers, Consistent, BmapRel, BmapCalls, Full;
      ConsistentBasics(sb, blocks, inodes);
      if bn < NDIRECT {
        r := BmapDirect(i, bn);
      } else if bn - NDIRECT < NINDIRECT {
        if inodes[i].addrs[NDIRECT] == 0 {
          r := BmapNewIndirect(i, bn - NDIRECT);
        } else {
          r := BmapEntry(i, bn - NDIRECT);
        }
      } else {
        NotMapped(sb, blocks, inodes, blocks, inodes, i, bn);
        r := None;
      }
    }

    // Copy the in-memory inode to its inode block.
    method Iupdate(i: nat)
      requires Fits(sb, blocks) && i < |inodes| && |inodes| == sb.ninodes
      requires Traced()
      modifies this`blocks, this`calls, this`puts
      ensures Traced()
      ensures blocks == PutInode(sb, old(blocks), i, inodes[i]) && calls == old(calls) + [IBlock(sb, i)]
    {
      IBlockRange(sb, i);
      var bp := blocks[IBlock(sb, i)];
      LogWrite(IBlock(sb, i), PutWords(PutWord(bp, DinodeWord(i) + 2, inodes[i].size), DinodeWord(i) + 3, inodes[i].addrs));
    }

    // One iteration of writei's loop; next is tot + m.
    method WriteChunk(i: nat, src: seq<byte>, off: nat, tot: nat,
                      ghost B: seq<Block>, ghost I: seq<Inode>, ghost calls0: seq<nat>, ghost c: Count)
      returns (next: nat, ok: bool, ghost c': Count)
      requires Progress(sb, B, I, blocks, inodes, i, off, src, tot) && tot < |src|
      requires Tally(calls0, calls, inodes[i].addrs[NDIRECT], c)
      requires CountOk(off, tot, I[i].size, c) && (tot == 0 || (off + tot) % BSIZE == 0)
      requires Traced()
      modifies this`blocks, this`inodes, this`calls, this`puts
      ensures Traced()
      ensures ok ==> tot < next <= |src| && (next < |src| ==> (off + next) % BSIZE == 0)
      ensures ok ==> Progress(sb, B, I, blocks, inodes, i, off, src, next) == true
      ensures ok ==> Tally(calls0, calls, inodes[i].addrs[NDIRECT], c') == true
      ensures ok ==> CountOk(off, next, I[i].size, c')
      ensures !ok ==> Fits(sb, blocks) && Full(sb, blocks)
    {
      hide Applied, Numbers, Progress, BmapRel, Tally, CountOk;
      ProgressBasics(sb, B, I, blocks, inodes, i, off, src, tot);
      var bn, o := (off + tot) / BSIZE, (off + tot) % BSIZE;
      var a := Bmap(i, bn);
      var m := if |src| - tot < BSIZE - o then |src| - tot else BSIZE - o;
      if a.None? {
        return tot, false, c;
      }
      next := tot + m;
      ghost var B1, I1 := old(blocks), old(inodes);
      c' := NextCount(B1, I1, i, bn, c);
      ChunkDone(sb, B, I, B1, I1, blocks, inodes, i, off, src, tot, next, bn, o, calls0, old(calls), c);
      LogWrite(a.value, Patch(blocks[a.value], o, src[tot..next]));
      ok := true;
    }

    // writei's loop over the blocks that src covers.
    method WriteLoop(i: nat, src: seq<byte>, off: nat) returns (ok: bool, ghost c: Count)
      requires Valid() && i < |inodes| && off <= inodes[i].size && off + |src| <= MAXBYTES
      requires Traced()
      modifies this`blocks, this`inodes, this`calls, this`puts
      ensures Traced()
      ensures ok ==> Progress(sb, old(blocks), old(inodes), blocks, inodes, i, off, src, |src|) == true
      ensures ok ==> Tally(old(calls), calls, inodes[i].addrs[NDIRECT], c) == true
      ensures ok ==> CountOk(off, |src|, old(inodes)[i].size, c)
      ensures !ok ==> Fits(sb, blocks) && Full(sb, blocks)
    {
      ghost var B, I, calls0 := blocks, inodes, calls;
      ProgressStart(sb, B, I, i, off, src);
      c := Count(0, 0, 0, 0);
      var tot := 0;
      while tot < |src|
        invariant Traced()
        invariant 0 <= tot <= |src|
        invariant Progress(sb, B, I, blocks, inodes, i, off, src, tot) == true
        invariant Tally(calls0, calls, inodes[i].addrs[NDIRECT], c) == true
        invariant tot < |src| ==> tot == 0 || (off + tot) % BSIZE == 0
        invariant CountOk(off, tot, I[i].size, c)
      {
        tot, ok, c := WriteChunk(i, src, off, tot, B, I, calls0, c);
        if !ok {
          return;
        }
      }
      ok := true;
    }

    // The end of writei: update the size and the inode when the file grew.
    method FinishWrite(i: nat, src: seq<byte>, off: nat, ghost B: seq<Block>, ghost I: seq<Inode>) returns (ghost last: seq<nat>)
      requires Progress(sb, B, I, blocks, inodes, i, off, src, |src|) && AllMapped(B, I) && OnDisk(sb, B, I)
      requires Traced()
      modifies this`blocks, this`inodes, this`calls, this`puts
      ensures Traced()
      ensures Written(sb, B, I, blocks, inodes, i, off, src) == true
      ensures calls == old(calls) + last && |last| <= 1
    {
      hide Applied, Numbers, Progress, Consistent;
      ghost var B', I' := blocks, inodes;
      ProgressBasics(sb, B, I, B', I', i, off, src, |src|);
      if |src| > 0 && off + |src| > inodes[i].size {
        inodes := Resize(inodes, i, off + |src|);
        Iupdate(i);
        GrownWritten(sb, B, I, B', I', i, off, src, inodes, blocks);
        last := [IBlock(sb, i)];
      } else {
        InPlaceWritten(sb, B, I, B', I', i, off, src);
        last := [];
        assert calls == old(calls) + [];
      }
    }

    // Write src at off. Refused is the -1 return, in the source's 32-bit
    // arithmetic; OutOfBlocks is balloc's panic.
    method Writei(i: nat, src: seq<byte>, off: uint) returns (r: WriteResult)
      requires Valid() && i < |inodes| && |src| < UINT
      requires Traced()
      modifies this`blocks, this`inodes, this`calls, this`puts
      ensures Traced()
      ensures r.Refused? <==> off > old(inodes)[i].size || off + |src| > MAXBYTES
      ensures r.Refused? ==> blocks == old(blocks) && inodes == old(inodes) && calls == old(calls)
      ensures r.Wrote? ==> Written(sb, old(blocks), old(inodes), blocks, inodes, i, off, src) == true
      ensures r.Wrote? && old(puts) == [] ==> Transaction(sb, old(blocks), old(inodes), puts, blocks, inodes)
      ensures r.Wrote? && |src| <= MAXCHUNK && old(calls) == [] ==> WithinBudget(calls) && |Elements(calls)| <= MAXOPBLOCKS
      ensures r.OutOfBlocks? ==> Fits(sb, blocks) && Full(sb, blocks)
    {
      hide Applied, Numbers, Progress, Tally, CountOk, Consistent, Written;
      var n := |src|;
      if off > inodes[i].size || (off + n) % UINT < off {
        return Refused;
      }
      if (off + n) % UINT > MAXFILE * BSIZE {
        return Refused;
      }
      ghost var B, I := blocks, inodes;
      var ok;
      ghost var c;
      ok, c := WriteLoop(i, src, off);
      if !ok {
        return OutOfBlocks;
      }
      ProgressBasics(sb, B, I, blocks, inodes, i, off, src, |src|);
      ghost var calls', ind := calls, inodes[i].addrs[NDIRECT];
      ghost var last := FinishWrite(i, src, off, B, I);
      if n <= MAXCHUNK && old(calls) == [] {
        ChunkBudget(off, n, I[i].size, calls', ind, c, last);
      }
      FirstPut(start);
      return Wrote;
    }

    // Read up to n bytes at off; None is the -1 return. With no holes nothing
    // is allocated, so nothing changes.
    method Readi(i: nat, off: uint, n: uint) returns (r: Option<seq<byte>>)
      requires Valid() && i < |inodes|
      requires Traced()
      modifies this`blocks, this`inodes, this`calls, this`puts
      ensures Traced()
      ensures blocks == old(blocks) && inodes == old(inodes) && calls == old(calls)
      ensures r.None? <==> off > inodes[i].size || off + n >= UINT
      ensures r.Some? ==>
                r.value == Content(blocks, inodes, i)[off..if off + n > inodes[i].size then inodes[i].size else off + n]
    {
      hide Applied, Numbers, Consistent, OnDisk, AllMapped, Content, BmapCalls, Slot;
      ValidBasics(sb, blocks, inodes);
      if off > inodes[i].size || (off + n) % UINT < off {
        return None;
      }
      var end := if off + n > inodes[i].size then inodes[i].size else off + n;
      var dst: seq<byte> := [];
      var pos := off;
      ghost var c := Content(blocks, inodes, i);
      while pos < end
        invariant Traced()
        invariant off <= pos <= end
        invariant blocks == old(blocks) && inodes == old(inodes) && calls == old(calls)
        invariant dst == c[off..pos]
      {
        ReadMapped(sb, blocks, inodes, i, pos / BSIZE);
        var a := Bmap(i, pos / BSIZE);
        var m := if end - pos < BSIZE - pos % BSIZE then end - pos else BSIZE - pos % BSIZE;
        ReadChunk(sb, blocks, inodes, i, pos, m);
        dst := dst + blocks[a.value].data[pos % BSIZE..pos % BSIZE + m];
        SliceJoin(c, off, pos, pos + m);
        pos := pos + m;
      }
      r := Some(dst);
    }

    // Free the block in slot k of inode i, if there is one.
    method FreeSlot(b: uint, ghost B: seq<Block>, ghost I: seq<Inode>, ghost i: nat, ghost done: set<nat>, ghost k: nat,
                    ghost calls0: seq<nat>)
      requires Consistent(sb, B, I) && i < |I| && Freed(sb, B, I, i, done, blocks)
      requires LoggedFor(sb, B, I, i, done, calls0, calls)
      requires k < NSLOTS && k !in done && b == SlotAt(B, I, i, k)
      requires Traced()
      modifies this`blocks, this`calls, this`puts
      ensures Traced()
      ensures Freed(sb, B, I, i, done + {k}, blocks)
      ensures LoggedFor(sb, B, I, i, done + {k}, calls0, calls)
    {
      hide Applied, Numbers, Consistent, Freed, LoggedFor, SlotAt;
      FreedBasics(sb, B, I, i, done, blocks);
      LoggedStep(sb, B, I, i, done, calls0, calls, k);
      if b != 0 {
        StillUsed(sb, B, I, i, done, blocks, k);
        var ok := Bfree(b);
        assert ok;
      }
      FreedStep(sb, B, I, i, done, old(blocks), blocks, k);
    }

    // itrunc's loop over the direct addresses.
    method FreeDirect(i: nat) returns (ghost done: set<nat>)
      requires Consistent(sb, blocks, inodes) && i < |inodes|
      requires Traced()
      modifies this`blocks, this`inodes, this`calls, this`puts
      ensures Traced()
      ensures Freed(sb, old(blocks), old(inodes), i, done, blocks)
      ensures LoggedFor(sb, old(blocks), old(inodes), i, done, old(calls), calls)
      ensures forall k :: k in done <==> 0 <= k < NDIRECT
      ensures |inodes| == |old(inodes)| && inodes == old(inodes)[i := inodes[i]]
      ensures inodes[i].size == old(inodes)[i].size && inodes[i].addrs[NDIRECT] == old(inodes)[i].addrs[NDIRECT]
      ensures forall k :: 0 <= k < NDIRECT ==> inodes[i].addrs[k] == 0
    {
      hide Applied, Numbers, Consistent, Freed, LoggedFor;
      ghost var B, I := blocks, inodes;
      ConsistentBasics(sb, B, I);
      FreedNone(sb, B, I, i);
      LoggedNone(sb, B, I, i, calls);
      done := {};
      var k := 0;
      while k < NDIRECT
        invariant Traced()
        invariant 0 <= k <= NDIRECT
        invariant Freed(sb, B, I, i, done, blocks) && LoggedFor(sb, B, I, i, done, old(calls), calls)
        invariant forall m :: m in done <==> 0 <= m < k
        invariant |inodes| == |I| && inodes == I[i := inodes[i]] && inodes[i].size == I[i].size
        invariant forall m :: 0 <= m <= NDIRECT ==> inodes[i].addrs[m] == if m < k then 0 else I[i].addrs[m]
      {
        assert SlotAt(B, I, i, k) == inodes[i].addrs[k];
        FreeSlot(inodes[i].addrs[k], B, I, i, done, k, old(calls));
        inodes := SetAddr(inodes, i, k, 0);
        done := done + {k};
        k := k + 1;
      }
    }

    // itrunc's loop over the entries of the indirect block ind.
    method FreeEntries(ind: uint, ghost B: seq<Block>, ghost I: seq<Inode>, ghost i: nat, ghost before: set<nat>,
                       ghost calls0: seq<nat>) returns (ghost done: set<nat>)
      requires Consistent(sb, B, I) && i < |I| && Freed(sb, B, I, i, before, blocks)
      requires LoggedFor(sb, B, I, i, before, calls0, calls)
      requires ind != 0 && ind == I[i].addrs[NDIRECT]
      requires forall k :: k in before <==> 0 <= k < NDIRECT
      requires Traced()
      modifies this`blocks, this`calls, this`puts
      ensures Traced()
      ensures Freed(sb, B, I, i, done, blocks) && LoggedFor(sb, B, I, i, done, calls0, calls)
      ensures forall k :: k in done <==> 0 <= k < NSLOTS && k != NDIRECT
    {
      hide Applied, Numbers, Consistent, Freed, LoggedFor;
      ConsistentBasics(sb, B, I);
      FreedBasics(sb, B, I, i, before, blocks);
      IndirectUntouched(sb, B, I, i, before, blocks);
      var a := blocks[ind];
      done := before;
      var j := 0;
      while j < NINDIRECT
        invariant Traced()
        invariant 0 <= j <= NINDIRECT
        invariant Freed(sb, B, I, i, done, blocks) && LoggedFor(sb, B, I, i, done, calls0, calls)
        invariant forall k :: k in done <==> 0 <= k < NDIRECT + 1 + j && k != NDIRECT
      {
        assert Word(a, j) == SlotAt(B, I, i, NDIRECT + 1 + j);
        FreeSlot(Word(a, j), B, I, i, done, NDIRECT + 1 + j, calls0);
        done := done + {NDIRECT + 1 + j};
        j := j + 1;
      }
    }

    // itrunc up to its iupdate: every block is freed and the inode is empty.
    method FreeAll(i: nat) returns (ghost done: set<nat>)
      requires Consistent(sb, blocks, inodes) && i < |inodes|
      requires Traced()
      modifies this`blocks, this`inodes, this`calls, this`puts
      ensures Traced()
      ensures Freed(sb, old(blocks), old(inodes), i, done, blocks)
      ensures LoggedFor(sb, old(blocks), old(inodes), i, done, old(calls), calls)
      ensures forall k :: 0 <= k < NSLOTS && SlotAt(old(blocks), old(inodes), i, k) != 0 ==> k in done
      ensures inodes == old(inodes)[i := EmptyInode()]
    {
      hide Applied, Numbers, Consistent, Freed, LoggedFor;
      ghost var B, I := blocks, inodes;
      ConsistentBasics(sb, B, I);
      done := FreeDirect(i);
      if inodes[i].addrs[NDIRECT] != 0 {
        done := FreeEntries(inodes[i].addrs[NDIRECT], B, I, i, done, old(calls));
        assert SlotAt(B, I, i, NDIRECT) == inodes[i].addrs[NDIRECT];
        FreeSlot(inodes[i].addrs[NDIRECT], B, I, i, done, NDIRECT, old(calls));
        inodes := SetAddr(inodes, i, NDIRECT, 0);
        done := done + {NDIRECT};
      }
      inodes := Resize(inodes, i, 0);
      assert inodes[i].addrs == EmptyInode().addrs;
      assert inodes == I[i := EmptyInode()];
    }

    // Discard the content of inode i. bfree never finds a bit already clear.
    // The last clause: it stays within the reservation of one operation
    // exactly when at most nine bitmap blocks cover the inode's blocks.
    method Itrunc(i: nat)
      requires Valid() && i < |inodes|
      requires Traced()
      modifies this`blocks, this`inodes, this`calls, this`puts
      ensures Traced()
      ensures Truncated(sb, old(blocks), old(inodes), blocks, inodes, i) == true
      ensures old(puts) == [] ==> Transaction(sb, old(blocks), old(inodes), puts, blocks, inodes)
      ensures Elements(calls) == Elements(old(calls)) + Bitmaps(sb, old(blocks), old(inodes), i) + {IBlock(sb, i)}
      ensures old(calls) == [] ==> (WithinBudget(calls) <==> |Bitmaps(sb, old(blocks), old(inodes), i)| < MAXOPBLOCKS)
    {
      hide Applied, Numbers, Consistent, Freed, AllMapped, Truncated, LoggedFor, Elements, Bitmaps;
      hide WithinBudget, IBlock, PutInode, OnDisk, SlotAt;
      ghost var B, I := blocks, inodes;
      ConsistentBasics(sb, B, I);
      DiskCount(sb, B, I);
      ghost var done := FreeAll(i);
      FreedBasics(sb, B, I, i, done, blocks);
      ghost var B' := blocks;
      if old(calls) == [] {
        TruncBudget(sb, B, I, i, done, calls);
      }
      TruncLogged(sb, B, I, i, done, old(calls), calls);
      Iupdate(i);
      TruncDone(sb, B, I, B', i, done);
      FirstPut(start);
    }

    // One transaction of filewrite: begin_op, writei, end_op.
    method WriteTxn(i: nat, chunk: seq<byte>, off: uint) returns (r: WriteResult)
      requires Valid() && i < |inodes| && |chunk| <= MAXCHUNK
      requires Traced()
      modifies this`blocks, this`inodes, this`calls, this`ended, this`puts, this`start
      ensures Traced()
      ensures r.Refused? <==> off > old(inodes)[i].size || off + |chunk| > MAXBYTES
      ensures r.Refused? ==> blocks == old(blocks) && inodes == old(inodes)
      ensures r.Wrote? ==> Written(sb, old(blocks), old(inodes), blocks, inodes, i, off, chunk) == true
      ensures !r.OutOfBlocks? ==> ended == old(ended) + [calls] && WithinBudget(calls) && |Elements(calls)| <= MAXOPBLOCKS
    {
      hide Consistent, AllMapped, OnDisk, Written;
      calls, start, puts := [], blocks, [];
      r := Writei(i, chunk, off);
      ended := ended + [calls];
      assert Elements<nat>([]) == {};
    }

    // Write addr[..n] at off in chunks, one transaction each. r is filewrite's
    // result and done the number of bytes written, by which f->off advances;
    // ok is false when balloc panicked.
    method Filewrite(i: nat, addr: seq<byte>, n: int, off: uint) returns (r: int, done: nat, ok: bool)
      requires Valid() && i < |inodes| && n <= |addr| && |addr| < UINT
      requires Traced()
      modifies this`blocks, this`inodes, this`calls, this`ended, this`puts, this`start
      ensures Traced()
      ensures ok ==> Valid() && |inodes| == |old(inodes)| && done <= |addr|
      ensures ok ==> Appended(Content(old(blocks), old(inodes), i), off, addr[..done], Content(blocks, inodes, i))
      ensures ok ==> forall j :: 0 <= j < |inodes| && j != i ==> Content(blocks, inodes, j) == Content(old(blocks), old(inodes), j)
      ensures ok ==> r == (if done == n then n else -1)
      ensures ok && done != n && n > 0 ==>
                done < n && (off > old(inodes)[i].size || off + done + (if n - done > MAXCHUNK then MAXCHUNK else n - done) > MAXBYTES)
      ensures ok && n <= 0 ==> done == 0
      ensures ok ==> |old(ended)| <= |ended| && forall t :: |old(ended)| <= t < |ended| ==>
                WithinBudget(ended[t]) && |Elements(ended[t])| <= MAXOPBLOCKS
    {
      hide Applied, Numbers, Consistent, AllMapped, OnDisk, Written, Content, Splice, WithinBudget, Elements, Appended;
      ghost var B, I := blocks, inodes;
      ValidBasics(sb, B, I);
      ghost var c0 := Content(B, I, i);
      AppendNone(c0, off);
      done := 0;
      while done < n
        invariant Traced()
        invariant 0 <= done <= (if n > 0 then n else 0)
        invariant Valid() && AddrsOk(blocks, inodes) && |inodes| == |I| && forall j :: 0 <= j < |I| ==> inodes[j].size <= MAXBYTES
        invariant Appended(c0, off, addr[..done], Content(blocks, inodes, i))
        invariant forall j :: 0 <= j < |I| && j != i ==> Content(blocks, inodes, j) == Content(B, I, j)
        invariant |old(ended)| <= |ended| && forall t :: |old(ended)| <= t < |ended| ==>
                    WithinBudget(ended[t]) && |Elements(ended[t])| <= MAXOPBLOCKS
      {
        var n1 := if n - done > MAXCHUNK then MAXCHUNK else n - done;
        var chunk := addr[done..done + n1];
        ghost var c := Content(blocks, inodes, i);
        AppendBound(c0, off, addr[..done], c);
        ghost var B1, I1 := blocks, inodes;
        var w := WriteTxn(i, chunk, off + done);
        if w.OutOfBlocks? {
          return -1, done, false;
        }
        if w.Refused? {
          return -1, done, true;
        }
        WrittenBasics(sb, B1, I1, blocks, inodes, i, off + done, chunk);
        AppendMore(c0, off, addr[..done], chunk, c, Content(blocks, inodes, i));
        assert addr[..done] + chunk == addr[..done + n1];
        done := done + n1;
      }
      r, ok := if done == n then n else -1, true;
    }
  }

  // c' is c with data written at off.
  ghost predicate Appended(c: seq<byte>, off: nat, data: seq<byte>, c': seq<byte>) {
    if data == [] then c' == c else off <= |c| && c' == Splice(c, off, data)
  }

  lemma AppendNone(c: seq<byte>, off: nat)
    ensures Appended(c, off, [], c)
  {}

  lemma AppendBound(c: seq<byte>, off: nat, data: seq<byte>, c': seq<byte>)
    requires Appended(c, off, data, c')
    ensures if data == [] then c' == c else off + |data| <= |c'|
  {}

  lemma AppendMore(c0: seq<byte>, off: nat, a: seq<byte>, b: seq<byte>, c: seq<byte>, c': seq<byte>)
    requires Appended(c0, off, a, c) && b != [] && off + |a| <= |c| && c' == Splice(c, off + |a|, b)
    ensures Appended(c0, off, a + b, c')
  {
    if a == [] {
      assert a + b == b;
    }
    assert c' == Splice(c0, off, a + b);
  }

  lemma WrittenBasics(sb: Super, B: seq<Block>, I: seq<Inode>, B': seq<Block>, I': seq<Inode>, i: nat, off: nat, src: seq<byte>)
    requires Written(sb, B, I, B', I', i, off, src)
    ensures i < |I| == |I'| && off <= I[i].size
    ensures Consistent(sb, B', I') && OnDisk(sb, B', I') && AllMapped(B', I') && AddrsOk(B, I) && AddrsOk(B', I')
    ensures forall j :: 0 <= j < |I| ==> I[j].size <= MAXBYTES && I'[j].size <= MAXBYTES
    ensures Content(B', I', i) == Splice(Content(B, I, i), off, src)
    ensures forall j :: 0 <= j < |I| && j != i ==> Content(B', I', j) == Content(B, I, j)
  {}

  lemma FreedBasics(sb: Super, B: seq<Block>, I: seq<Inode>, i: nat, done: set<nat>, B': seq<Block>)
    requires Consistent(sb, B, I) && i < |I| && Freed(sb, B, I, i, done, B')
    ensures Fits(sb, B) && AddrsOk(B, I) && Fits(sb, B')
  {}

  lemma IndirectUntouched(sb: Super, B: seq<Block>, I: seq<Inode>, i: nat, done: set<nat>, B': seq<Block>)
    requires Consistent(sb, B, I) && i < |I| && Freed(sb, B, I, i, done, B') && I[i].addrs[NDIRECT] != 0
    ensures I[i].addrs[NDIRECT] < |B'| && B'[I[i].addrs[NDIRECT]] == B[I[i].addrs[NDIRECT]]
  {
    assert Held(sb, B, SlotAt(B, I, i, NDIRECT));
  }

  lemma SliceJoin(c: seq<byte>, a: nat, b: nat, d: nat)
    requires a <= b <= d <= |c|
    ensures c[a..b] + c[b..d] == c[a..d]
  {}

  lemma ConsistentBasics(sb: Super, B: seq<Block>, I: seq<Inode>)
    requires Consistent(sb, B, I)
    ensures Fits(sb, B) && AddrsOk(B, I)
  {}

  lemma DiskCount(sb: Super, B: seq<Block>, I: seq<Inode>)
    requires Fits(sb, B) && OnDisk(sb, B, I)
    ensures |I| == sb.ninodes
  {}

  lemma AllocBasics(sb: Super, B: seq<Block>, B': seq<Block>, b: nat)
    requires Alloced(sb, B, B', b)
    ensures |B'| == |B|
  {}

  // A fresh indirect block in an inode that had none.
  lemma NewIndirectOk(sb: Super, B: seq<Block>, B': seq<Block>, I: seq<Inode>, i: nat, ind: uint)
    requires Consistent(sb, B, I) && i < |I| && I[i].addrs[NDIRECT] == 0 && Alloced(sb, B, B', ind)
    ensures ind != 0 && Consistent(sb, B', SetAddr(I, i, NDIRECT, ind))
  {
    AllocFrame(sb, B, B', I, ind);
    AddAddress(sb, B', I, i, NDIRECT, ind);
  }

  // An unmapped block means bmap has not succeeded.
  lemma NotMapped(sb: Super, B: seq<Block>, I: seq<Inode>, B': seq<Block>, I': seq<Inode>, i: nat, bn: nat)
    requires AddrsOk(B', I') && i < |I'| && (bn < MAXFILE ==> SlotAt(B', I', i, SlotFor(bn)) == 0)
    ensures !BmapRel(sb, B, I, B', I', i, bn)
  {}

  lemma ValidBasics(sb: Super, B: seq<Block>, I: seq<Inode>)
    requires Consistent(sb, B, I) && AllMapped(B, I)
    ensures Fits(sb, B) && AddrsOk(B, I)
    ensures forall i :: 0 <= i < |I| ==> NoHoles(B, I[i])
  {}

  lemma ReadMapped(sb: Super, B: seq<Block>, I: seq<Inode>, i: nat, bn: nat)
    requires Consistent(sb, B, I) && i < |I| && NoHoles(B, I[i]) && bn * BSIZE < I[i].size
    ensures bn < MAXFILE && SlotAt(B, I, i, SlotFor(bn)) != 0 && SlotAt(B, I, i, SlotFor(bn)) < |B|
  {
    assert Slot(B, I[i], SlotFor(bn)) != 0;
    assert Held(sb, B, SlotAt(B, I, i, SlotFor(bn)));
  }

  // The part of one block that a read takes is a slice of the content.
  lemma ReadChunk(sb: Super, B: seq<Block>, I: seq<Inode>, i: nat, k: nat, m: nat)
    requires AddrsOk(B, I) && i < |I| && I[i].size <= MAXBYTES
    requires 0 < m <= BSIZE - k % BSIZE && k + m <= I[i].size
    requires SlotAt(B, I, i, SlotFor(k / BSIZE)) < |B|
    ensures B[SlotAt(B, I, i, SlotFor(k / BSIZE))].data[k % BSIZE..k % BSIZE + m] == Content(B, I, i)[k..k + m]
  {
    var d := B[SlotAt(B, I, i, SlotFor(k / BSIZE))].data;
    var got, want := d[k % BSIZE..k % BSIZE + m], Content(B, I, i)[k..k + m];
    forall x | 0 <= x < m
      ensures got[x] == want[x]
    {
      assert (k + x) / BSIZE == k / BSIZE && (k + x) % BSIZE == k % BSIZE + x;
    }
  }

  // writei's effect: inode i's content is spliced, no other file changes, and
  // the invariant between operations holds again. A write within the file
  // leaves the inode alone; a growing one sets the size and writes it back.
  ghost predicate Written(sb: Super, B: seq<Block>, I: seq<Inode>, B': seq<Block>, I': seq<Inode>, i: nat, off: nat, src: seq<byte>)
  {
    && Consistent(sb, B, I) && AllMapped(B, I)
    && i < |I| == |I'| && off <= I[i].size
    && Consistent(sb, B', I') && OnDisk(sb, B', I') && AllMapped(B', I')
    && Content(B', I', i) == Splice(Content(B, I, i), off, src)
    && (forall j :: 0 <= j < |I| && j != i ==> I'[j] == I[j] && Content(B', I', j) == Content(B, I, j))
    && (off + |src| <= I[i].size ==> I' == I)
  }

  // One writei or itrunc, with the log_write calls that it makes.
  ghost predicate Transaction(sb: Super, B: seq<Block>, I: seq<Inode>, puts: seq<Put>, B': seq<Block>, I': seq<Inode>) {
    && B' == Applied(B, puts)
    && ((exists i, off, src :: Written(sb, B, I, B', I', i, off, src)) || (exists i :: Truncated(sb, B, I, B', I', i)))
  }

  lemma FirstPut(B: seq<Block>)
    ensures Applied(B, []) == B
  {}

  lemma InPlaceWritten(sb: Super, B: seq<Block>, I: seq<Inode>, B': seq<Block>, I': seq<Inode>, i: nat, off: nat, src: seq<byte>)
    requires Progress(sb, B, I, B', I', i, off, src, |src|) && AllMapped(B, I) && OnDisk(sb, B, I)
    requires off + |src| <= I[i].size
    ensures Written(sb, B, I, B', I', i, off, src)
  {
    WroteInPlace(sb, B, I, B', I', i, off, src);
    forall j | 0 <= j < |I| && j != i
      ensures Content(B', I', j) == Content(B, I, j)
    {
      OtherContent(B, I, B', I', i, j);
    }
  }

  lemma GrownWritten(sb: Super, B: seq<Block>, I: seq<Inode>, B': seq<Block>, I': seq<Inode>, i: nat, off: nat, src: seq<byte>,
                     I2: seq<Inode>, B2: seq<Block>)
    requires Progress(sb, B, I, B', I', i, off, src, |src|) && AllMapped(B, I) && OnDisk(sb, B, I)
    requires off + |src| > I[i].size
    requires I2 == Resize(I', i, off + |src|) && B2 == PutInode(sb, B', i, I2[i])
    ensures Written(sb, B, I, B2, I2, i, off, src)
  {
    WroteGrown(sb, B, I, B', I', i, off, src, I2, B2);
    forall j | 0 <= j < |I| && j != i
      ensures Content(B2, I2, j) == Content(B, I, j)
    {
      OtherContent(B, I, B2, I2, i, j);
    }
  }

  // The bytes filewrite passes to writei in one transaction.
  const MAXCHUNK := (MAXOPBLOCKS - 1 - 1 - 2) / 2 * 512

  // An unaligned chunk of three blocks' length touches four, but allocates at
  // most three of them: 4 data + 3 bitmap + indirect + its bitmap + inode.
  lemma ChunkBudget(off: nat, n: nat, size: nat, calls: seq<nat>, ind: uint, c: Count, last: seq<nat>)
    requires Tally([], calls, ind, c) && CountOk(off, n, size, c) && n <= MAXCHUNK && |last| <= 1
    ensures WithinBudget(calls + last) && |Elements(calls + last)| <= MAXOPBLOCKS
  {
    assert Elements<nat>([]) == {};
    assert c.visited <= 4 && (off % BSIZE == 0 ==> c.visited <= 3);
    BudgetMet(calls, last);
  }

  // The number of blocks that n bytes at off touch.
  function Visited(off: nat, n: nat): (r: nat) {
    if n == 0 then 0 else (off + n - 1) / BSIZE - off / BSIZE + 1
  }

  // Allocations never outnumber visits; the first block of an unaligned write
  // and every block of a write within the file exist already.
  ghost predicate CountOk(off: nat, tot: nat, size: nat, c: Count) {
    && c.visited == Visited(off, tot)
    && c.allocs <= c.visited
    && (off % BSIZE != 0 && tot > 0 ==> c.allocs < c.visited)
    && (off + tot <= size ==> c.allocs == 0)
  }

  lemma CountStep(off: nat, tot: nat, m: nat, size: nat, c: Count, c': Count, mapped: bool)
    requires CountOk(off, tot, size, c) && (tot == 0 || (off + tot) % BSIZE == 0)
    requires 0 < m <= BSIZE - (off + tot) % BSIZE
    requires c'.visited == c.visited + 1 && c'.allocs == c.allocs + if mapped then 0 else 1
    requires off + tot < size || (off + tot) % BSIZE != 0 ==> mapped
    ensures CountOk(off, tot + m, size, c')
    ensures m == BSIZE - (off + tot) % BSIZE ==> (off + (tot + m)) % BSIZE == 0
  {
    hide Visited;
    VisitedStep(off, tot, m);
  }

  lemma VisitedStep(off: nat, tot: nat, m: nat)
    requires tot == 0 || (off + tot) % BSIZE == 0
    requires 0 < m <= BSIZE - (off + tot) % BSIZE
    ensures Visited(off, tot + m) == Visited(off, tot) + 1 && (tot == 0 ==> Visited(off, tot) == 0)
    ensures m == BSIZE - (off + tot) % BSIZE ==> (off + (tot + m)) % BSIZE == 0
  {
    assert (off + (tot + m) - 1) / BSIZE == (off + tot) / BSIZE;
    if tot > 0 {
      assert (off + tot - 1) / BSIZE == (off + tot) / BSIZE - 1;
    }
  }

  // A block that holds a byte below the old size was mapped all along.
  lemma FirstMapped(sb: Super, B: seq<Block>, I: seq<Inode>, B': seq<Block>, I': seq<Inode>, i: nat, off: nat, src: seq<byte>, tot: nat)
    requires Progress(sb, B, I, B', I', i, off, src, tot) && tot < |src|
    ensures off + tot < I[i].size ==> SlotAt(B', I', i, SlotFor((off + tot) / BSIZE)) != 0
    ensures (off + tot) % BSIZE != 0 ==> SlotAt(B', I', i, SlotFor((off + tot) / BSIZE)) != 0
  {
    var bn := (off + tot) / BSIZE;
    if off + tot < I[i].size {
      assert Slot(B, I[i], SlotFor(bn)) != 0;
      assert SlotAt(B, I, i, SlotFor(bn)) != 0;
    }
  }

  lemma ChunkDone(sb: Super, B: seq<Block>, I: seq<Inode>, B1: seq<Block>, I1: seq<Inode>, B2: seq<Block>, I2: seq<Inode>,
                  i: nat, off: nat, src: seq<byte>, tot: nat, next: nat, bn: nat, o: nat, calls0: seq<nat>, calls: seq<nat>, c: Count)
    requires tot <= next && Progress(sb, B, I, B1, I1, i, off, src, tot) && Chunk(off, src, tot, bn, o, next - tot)
    requires BmapRel(sb, B1, I1, B2, I2, i, bn)
    requires Tally(calls0, calls, I1[i].addrs[NDIRECT], c)
    requires CountOk(off, tot, I[i].size, c) && (tot == 0 || (off + tot) % BSIZE == 0)
    ensures SlotAt(B2, I2, i, SlotFor(bn)) < |B2|
    ensures Progress(sb, B, I, PatchFile(B2, I2, i, bn, o, src[tot..next]), I2, i, off, src, next) == true
    ensures Tally(calls0, calls + BmapCalls(sb, B1, I1, B2, I2, i, bn) + [SlotAt(B2, I2, i, SlotFor(bn))],
                  I2[i].addrs[NDIRECT], NextCount(B1, I1, i, bn, c))
    ensures CountOk(off, next, I[i].size, NextCount(B1, I1, i, bn, c))
    ensures next < |src| ==> (off + next) % BSIZE == 0
  {
    hide Progress, BmapRel, Consistent, Tally, CountOk;
    var m := next - tot;
    ProgressBasics(sb, B, I, B1, I1, i, off, src, tot);
    BmapBasics(sb, B1, I1, B2, I2, i, bn);
    FirstMapped(sb, B, I, B1, I1, i, off, src, tot);
    TallyStep(sb, B1, I1, B2, I2, i, bn, calls0, calls, c);
    ProgressStep(sb, B, I, B1, I1, B2, I2, i, off, src, tot, bn, o, m);
    PatchSlots(sb, B2, I2, i, bn, o, src[tot..next]);
    CountStep(off, tot, m, I[i].size, c, NextCount(B1, I1, i, bn, c), SlotAt(B1, I1, i, SlotFor(bn)) != 0);
  }

  lemma ProgressBasics(sb: Super, B: seq<Block>, I: seq<Inode>, B': seq<Block>, I': seq<Inode>, i: nat, off: nat, src: seq<byte>, tot: nat)
    requires Progress(sb, B, I, B', I', i, off, src, tot)
    ensures Consistent(sb, B, I) && Consistent(sb, B', I') && AddrsOk(B', I') && Fits(sb, B')
    ensures i < |I| == |I'| && tot <= |src| && off + |src| <= MAXBYTES && off <= I[i].size == I'[i].size
  {}

  lemma BmapBasics(sb: Super, B: seq<Block>, I: seq<Inode>, B': seq<Block>, I': seq<Inode>, i: nat, bn: nat)
    requires BmapRel(sb, B, I, B', I', i, bn)
    ensures Consistent(sb, B', I') && i < |I'| && bn < MAXFILE && SlotAt(B', I', i, SlotFor(bn)) != 0
  {}
}
