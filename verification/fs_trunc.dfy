/** What itrunc does to an image: exactly the bits its inode owned are cleared. */
module FsTrunc {
  import opened Common
  import opened FsModel
  import opened FsEffects

  // b occurs in a slot of inode i.
  ghost predicate OwnedBy(B: seq<Block>, I: seq<Inode>, i: nat, b: nat)
    requires AddrsOk(B, I) && i < |I|
  {
    b != 0 && exists k :: 0 <= k < NSLOTS && SlotAt(B, I, i, k) == b
  }

  // b occurs in one of the slots `done` of inode i.
  ghost predicate OwnedIn(B: seq<Block>, I: seq<Inode>, i: nat, done: set<nat>, b: nat)
    requires AddrsOk(B, I) && i < |I|
  {
    b != 0 && exists k :: k in done && 0 <= k < NSLOTS && SlotAt(B, I, i, k) == b
  }

  // Only bitmap blocks changed, and exactly the blocks in the slots `done`
  // of inode i were freed.
  ghost predicate Freed(sb: Super, B: seq<Block>, I: seq<Inode>, i: nat, done: set<nat>, B': seq<Block>)
    requires AddrsOk(B, I) && i < |I|
  {
    && Fits(sb, B) && Fits(sb, B')
    && (forall x :: 0 <= x < sb.size && !(sb.bmapstart <= x < sb.datastart) ==> B'[x] == B[x])
    && (forall x :: 0 <= x < sb.size ==> (Used(sb, B', x) <==> Used(sb, B, x) && !OwnedIn(B, I, i, done, x)))
  }

  lemma FreedNone(sb: Super, B: seq<Block>, I: seq<Inode>, i: nat)
    requires Consistent(sb, B, I) && i < |I|
    ensures Freed(sb, B, I, i, {}, B)
  {}

  // The block about to be freed is still marked in use.
  lemma StillUsed(sb: Super, B: seq<Block>, I: seq<Inode>, i: nat, done: set<nat>, B': seq<Block>, k: nat)
    requires Consistent(sb, B, I) && i < |I| && Freed(sb, B, I, i, done, B')
    requires k < NSLOTS && k !in done && SlotAt(B, I, i, k) != 0
    ensures sb.datastart <= SlotAt(B, I, i, k) < sb.size && Used(sb, B', SlotAt(B, I, i, k))
  {
    assert Held(sb, B, SlotAt(B, I, i, k));
  }

  lemma FreedStep(sb: Super, B: seq<Block>, I: seq<Inode>, i: nat, done: set<nat>, B': seq<Block>, B'': seq<Block>, k: nat)
    requires Consistent(sb, B, I) && i < |I| && Freed(sb, B, I, i, done, B')
    requires k < NSLOTS && Fits(sb, B'')
    requires SlotAt(B, I, i, k) != 0 ==> SlotAt(B, I, i, k) < sb.size && OnlyBit(sb, B', B'', SlotAt(B, I, i, k), false)
    requires SlotAt(B, I, i, k) == 0 ==> B'' == B'
    ensures Freed(sb, B, I, i, done + {k}, B'')
  {
    var b := SlotAt(B, I, i, k);
    forall x | 0 <= x < sb.size
      ensures OwnedIn(B, I, i, done + {k}, x) <==> OwnedIn(B, I, i, done, x) || (x == b && b != 0)
    {
      if OwnedIn(B, I, i, done, x) {
        var m :| m in done && 0 <= m < NSLOTS && SlotAt(B, I, i, m) == x;
        assert m in done + {k};
      }
      if x == b {
        assert k in done + {k};
      }
    }
    if b != 0 {
      BBlockRange(sb, b);
    }
  }

  // The bitmap blocks that cover the blocks in the slots `done` of inode i.
  function BitmapsOf(sb: Super, B: seq<Block>, I: seq<Inode>, i: nat, done: set<nat>): (r: set<nat>)
    requires AddrsOk(B, I) && i < |I|
  {
    set k | k in done && k < NSLOTS && SlotAt(B, I, i, k) != 0 :: BBlock(sb, SlotAt(B, I, i, k))
  }

  lemma BitmapsStep(sb: Super, B: seq<Block>, I: seq<Inode>, i: nat, done: set<nat>, k: nat)
    requires AddrsOk(B, I) && i < |I| && k < NSLOTS
    ensures BitmapsOf(sb, B, I, i, done + {k})
            == BitmapsOf(sb, B, I, i, done) + if SlotAt(B, I, i, k) != 0 then {BBlock(sb, SlotAt(B, I, i, k))} else {}
  {
    hide SlotAt, BBlock;
    var s := BitmapsOf(sb, B, I, i, done + {k});
    forall x | x in BitmapsOf(sb, B, I, i, done)
      ensures x in s
    {
      var m :| m in done && m < NSLOTS && SlotAt(B, I, i, m) != 0 && x == BBlock(sb, SlotAt(B, I, i, m));
      assert m in done + {k};
    }
    if SlotAt(B, I, i, k) != 0 {
      assert k in done + {k};
    }
  }

  // Besides calls0, log_write was called for exactly those bitmap blocks.
  ghost predicate LoggedFor(sb: Super, B: seq<Block>, I: seq<Inode>, i: nat, done: set<nat>, calls0: seq<nat>, calls: seq<nat>)
    requires AddrsOk(B, I) && i < |I|
  {
    Elements(calls) == Elements(calls0) + BitmapsOf(sb, B, I, i, done)
  }

  lemma LoggedNone(sb: Super, B: seq<Block>, I: seq<Inode>, i: nat, calls: seq<nat>)
    requires AddrsOk(B, I) && i < |I|
    ensures LoggedFor(sb, B, I, i, {}, calls, calls)
  {}

  lemma LoggedStep(sb: Super, B: seq<Block>, I: seq<Inode>, i: nat, done: set<nat>, calls0: seq<nat>, calls: seq<nat>, k: nat)
    requires AddrsOk(B, I) && i < |I| && k < NSLOTS && LoggedFor(sb, B, I, i, done, calls0, calls)
    ensures SlotAt(B, I, i, k) == 0 ==> LoggedFor(sb, B, I, i, done + {k}, calls0, calls)
    ensures SlotAt(B, I, i, k) != 0 ==> LoggedFor(sb, B, I, i, done + {k}, calls0, calls + [BBlock(sb, SlotAt(B, I, i, k))])
  {
    hide SlotAt, BBlock, BitmapsOf, Elements;
    BitmapsStep(sb, B, I, i, done, k);
    ElementsSnoc(calls, BBlock(sb, SlotAt(B, I, i, k)));
  }

  // The bitmap blocks that cover inode i's blocks.
  function Bitmaps(sb: Super, B: seq<Block>, I: seq<Inode>, i: nat): (r: set<nat>)
    requires AddrsOk(B, I) && i < |I|
  {
    set k | 0 <= k < NSLOTS && SlotAt(B, I, i, k) != 0 :: BBlock(sb, SlotAt(B, I, i, k))
  }

  lemma BitmapsAll(sb: Super, B: seq<Block>, I: seq<Inode>, i: nat, done: set<nat>)
    requires AddrsOk(B, I) && i < |I|
    requires forall k :: 0 <= k < NSLOTS && SlotAt(B, I, i, k) != 0 ==> k in done
    ensures BitmapsOf(sb, B, I, i, done) == Bitmaps(sb, B, I, i)
  {
    hide SlotAt, BBlock;
  }

  // itrunc's calls of log_write stay within one operation's reservation
  // exactly when the blocks of the inode lie under at most nine bitmap blocks.
  lemma TruncBudget(sb: Super, B: seq<Block>, I: seq<Inode>, i: nat, done: set<nat>, calls: seq<nat>)
    requires AddrsOk(B, I) && i < |I| && LoggedFor(sb, B, I, i, done, [], calls)
    requires forall k :: 0 <= k < NSLOTS && SlotAt(B, I, i, k) != 0 ==> k in done
    ensures WithinBudget(calls + [IBlock(sb, i)]) <==> |Bitmaps(sb, B, I, i)| < MAXOPBLOCKS
  {
    hide SlotAt, BitmapsOf, Bitmaps, IBlock;
    BitmapsAll(sb, B, I, i, done);
    assert Elements<nat>([]) == {};
    var all := calls + [IBlock(sb, i)];
    if |Bitmaps(sb, B, I, i)| < MAXOPBLOCKS {
      BudgetMet(calls, [IBlock(sb, i)]);
    } else {
      assert all[..|calls|] == calls;
      assert !WithinBudget(all);
    }
  }

  lemma TruncLogged(sb: Super, B: seq<Block>, I: seq<Inode>, i: nat, done: set<nat>, calls0: seq<nat>, calls: seq<nat>)
    requires AddrsOk(B, I) && i < |I| && LoggedFor(sb, B, I, i, done, calls0, calls)
    requires forall k :: 0 <= k < NSLOTS && SlotAt(B, I, i, k) != 0 ==> k in done
    ensures Elements(calls + [IBlock(sb, i)]) == Elements(calls0) + Bitmaps(sb, B, I, i) + {IBlock(sb, i)}
  {
    hide SlotAt, BitmapsOf, Bitmaps, IBlock, Elements;
    BitmapsAll(sb, B, I, i, done);
    ElementsSnoc(calls, IBlock(sb, i));
  }

  function EmptyInode(): (r: Inode) {
    Inode(0, seq(NDIRECT + 1, _ => 0))
  }

  lemma TruncSlots(sb: Super, B: seq<Block>, I: seq<Inode>, B': seq<Block>, i: nat, done: set<nat>)
    requires Consistent(sb, B, I) && i < |I| && Freed(sb, B, I, i, done, B')
    ensures AddrsOk(B', I[i := EmptyInode()])
    ensures forall j, m :: 0 <= j < |I| && 0 <= m < NSLOTS ==>
              SlotAt(B', I[i := EmptyInode()], j, m) == if j == i then 0 else SlotAt(B, I, j, m)
  {
    var I' := I[i := EmptyInode()];
    assert AddrsOk(B', I');
    forall j, m | 0 <= j < |I| && 0 <= m < NSLOTS
      ensures SlotAt(B', I', j, m) == if j == i then 0 else SlotAt(B, I, j, m)
    {
      assert Held(sb, B, SlotAt(B, I, j, NDIRECT));
    }
  }

  // What another inode holds is not among the freed blocks.
  lemma OtherHeld(sb: Super, B: seq<Block>, I: seq<Inode>, B': seq<Block>, i: nat, done: set<nat>, j: nat, m: nat)
    requires Consistent(sb, B, I) && i < |I| && Freed(sb, B, I, i, done, B')
    requires j < |I| && j != i && m < NSLOTS
    ensures Held(sb, B', SlotAt(B, I, j, m))
  {
    assert Held(sb, B, SlotAt(B, I, j, m));
  }

  lemma TruncConsistent(sb: Super, B: seq<Block>, I: seq<Inode>, B': seq<Block>, i: nat, done: set<nat>)
    requires Consistent(sb, B, I) && i < |I| && Freed(sb, B, I, i, done, B')
    ensures Consistent(sb, B', I[i := EmptyInode()])
  {
    TruncSlots(sb, B, I, B', i, done);
    var I' := I[i := EmptyInode()];
    assert AddrsOk(B', I');
    forall j, m | 0 <= j < |I'| && 0 <= m < NSLOTS
      ensures Held(sb, B', SlotAt(B', I', j, m))
    {
      if j != i {
        OtherHeld(sb, B, I, B', i, done, j, m);
      }
    }
    forall b | 0 <= b < sb.datastart
      ensures Used(sb, B', b)
    {}
    forall j, k, l, m | 0 <= j < |I'| && 0 <= k < NSLOTS && 0 <= l < |I'| && 0 <= m < NSLOTS
                        && SlotAt(B', I', j, k) != 0 && SlotAt(B', I', j, k) == SlotAt(B', I', l, m)
      ensures j == l && k == m
    {
      assert SlotAt(B, I, j, k) == SlotAt(B, I, l, m);
    }
  }

  // itrunc's effect, once the empty inode has been written back.
  ghost predicate Truncated(sb: Super, B: seq<Block>, I: seq<Inode>, B': seq<Block>, I': seq<Inode>, i: nat) {
    && Consistent(sb, B, I) && AllMapped(B, I) && i < |I|
    && I' == I[i := EmptyInode()]
    && Consistent(sb, B', I') && OnDisk(sb, B', I') && AllMapped(B', I')
    && (forall x :: 0 <= x < sb.size ==> (Used(sb, B', x) <==> Used(sb, B, x) && !OwnedBy(B, I, i, x)))
    && (forall j :: 0 <= j < |I| && j != i ==> Content(B', I', j) == Content(B, I, j))
  }

  lemma TruncBytes(sb: Super, B: seq<Block>, I: seq<Inode>, B': seq<Block>, i: nat, done: set<nat>, j: nat)
    requires Consistent(sb, B, I) && i < |I| && Freed(sb, B, I, i, done, B') && j < |I| && j != i && NoHoles(B, I[j])
    requires AddrsOk(B', I[i := EmptyInode()])
    ensures NoHoles(B', I[i := EmptyInode()][j])
    ensures Content(B', I[i := EmptyInode()], j) == Content(B, I, j)
  {
    TruncSlots(sb, B, I, B', i, done);
    var I' := I[i := EmptyInode()];
    forall bn | 0 <= bn < MAXFILE && bn * BSIZE < I[j].size
      ensures Slot(B', I'[j], SlotFor(bn)) != 0
    {
      assert SlotAt(B', I', j, SlotFor(bn)) == SlotAt(B, I, j, SlotFor(bn));
      assert Slot(B, I[j], SlotFor(bn)) != 0;
    }
    forall k | 0 <= k < I[j].size
      ensures ByteAt(B', I', j, k) == ByteAt(B, I, j, k)
    {
      assert SlotAt(B', I', j, SlotFor(k / BSIZE)) == SlotAt(B, I, j, SlotFor(k / BSIZE));
      assert Held(sb, B, SlotAt(B, I, j, SlotFor(k / BSIZE)));
    }
  }

  lemma TruncDinodes(sb: Super, B: seq<Block>, I: seq<Inode>, B': seq<Block>, i: nat, done: set<nat>)
    requires Consistent(sb, B, I) && OnDisk(sb, B, I) && i < |I| && Freed(sb, B, I, i, done, B')
    ensures OnDisk(sb, PutInode(sb, B', i, EmptyInode()), I[i := EmptyInode()])
  {
    SameDinodes(sb, B, I, B');
    forall j | 0 <= j < |I|
      ensures DiskInode(sb, PutInode(sb, B', i, EmptyInode()), j) == I[i := EmptyInode()][j]
    {
      PutInodeReadBack(sb, B', i, EmptyInode(), j);
      assert DiskInode(sb, B', j) == I[j];
    }
  }

  lemma PutInodeBits(sb: Super, B: seq<Block>, i: nat, ip: Inode)
    requires Fits(sb, B) && i < sb.ninodes
    ensures forall x :: 0 <= x < sb.size ==> Used(sb, PutInode(sb, B, i, ip), x) == Used(sb, B, x)
  {
    IBlockRange(sb, i);
    forall x | 0 <= x < sb.size
      ensures Used(sb, PutInode(sb, B, i, ip), x) == Used(sb, B, x)
    {
      BBlockRange(sb, x);
    }
  }

  lemma TruncDone(sb: Super, B: seq<Block>, I: seq<Inode>, B': seq<Block>, i: nat, done: set<nat>)
    requires Consistent(sb, B, I) && OnDisk(sb, B, I) && AllMapped(B, I) && i < |I|
    requires Freed(sb, B, I, i, done, B')
    requires forall k :: 0 <= k < NSLOTS && SlotAt(B, I, i, k) != 0 ==> k in done
    ensures Truncated(sb, B, I, PutInode(sb, B', i, EmptyInode()), I[i := EmptyInode()], i)
  {
    var I', B'' := I[i := EmptyInode()], PutInode(sb, B', i, EmptyInode());
    TruncConsistent(sb, B, I, B', i, done);
    TruncDinodes(sb, B, I, B', i, done);
    PutInodeNeutral(sb, B', I', i, EmptyInode());
    PutInodeBits(sb, B', i, EmptyInode());
    forall j | 0 <= j < |I|
      ensures NoHoles(B'', I'[j]) && (j != i ==> Content(B'', I', j) == Content(B, I, j))
    {
      if j != i {
        TruncBytes(sb, B, I, B', i, done, j);
        SameContent(B', B'', I', j);
      } else {
        assert NoHoles(B', I'[i]);
      }
    }
    forall x | 0 <= x < sb.size
      ensures OwnedIn(B, I, i, done, x) <==> OwnedBy(B, I, i, x)
    {}
  }
}
