/**
 bio.c as an object: buffers on a doubly linked ring, scanned forwards and
 backwards and relinked in place, with bcache.lock held by each method.
 */
module Bio {
  import opened Blocks
  import opened Common
  import opened BioModel
  import opened BioSafety

  const HEAD: nat := NBUF        // &bcache.head

  type Links = s: seq<nat> | |s| == NBUF + 1 witness seq(NBUF + 1, _ => 0)

  function After(nodes: seq<nat>, i: nat): (r: nat) {
    if i + 1 < |nodes| then i + 1 else 0
  }

  predicate LinkAt(next: Links, prev: Links, nodes: seq<nat>, i: nat)
    requires i < |nodes|
  {
    && nodes[i] <= NBUF && nodes[After(nodes, i)] <= NBUF
    && next[nodes[i]] == nodes[After(nodes, i)]
    && prev[nodes[After(nodes, i)]] == nodes[i]
  }

  // The nodes form one ring in both directions.
  ghost predicate Ring(next: Links, prev: Links, nodes: seq<nat>) {
    && nodes != [] && Distinct(nodes)
    && forall i :: 0 <= i < |nodes| ==> LinkAt(next, prev, nodes, i)
  }

  // The four stores that put b after the head.
  lemma LinkFront(next: Links, prev: Links, nodes: seq<nat>, b: nat)
    requires Ring(next, prev, nodes) && nodes[0] == HEAD && b < NBUF && b !in nodes
    ensures next[HEAD] <= NBUF
    ensures Ring(next[b := next[HEAD]][HEAD := b], prev[b := HEAD][next[HEAD] := b], [HEAD, b] + nodes[1..])
  {
    assert LinkAt(next, prev, nodes, 0);
    var r := [HEAD, b] + nodes[1..];
    var next', prev' := next[b := next[HEAD]][HEAD := b], prev[b := HEAD][next[HEAD] := b];
    assert forall i :: 2 <= i < |r| ==> r[i] == nodes[i - 1];
    forall i | 0 <= i < |r|
      ensures LinkAt(next', prev', r, i)
    {
      if i >= 2 {
        assert LinkAt(next, prev, nodes, i - 1);
      }
    }
  }

  // The two stores that take node k out.
  lemma Unlink(next: Links, prev: Links, nodes: seq<nat>, k: nat)
    requires Ring(next, prev, nodes) && 0 < k < |nodes|
    ensures nodes[k] <= NBUF && prev[nodes[k]] <= NBUF && next[nodes[k]] <= NBUF
    ensures Ring(next[prev[nodes[k]] := next[nodes[k]]], prev[next[nodes[k]] := prev[nodes[k]]], nodes[..k] + nodes[k + 1..])
  {
    assert LinkAt(next, prev, nodes, k) && LinkAt(next, prev, nodes, k - 1);
    var r := nodes[..k] + nodes[k + 1..];
    var next', prev' := next[nodes[k - 1] := next[nodes[k]]], prev[next[nodes[k]] := nodes[k - 1]];
    forall i | 0 <= i < |r|
      ensures LinkAt(next', prev', r, i)
    {
      var j := if i < k then i else i + 1;
      assert LinkAt(next, prev, nodes, j);
      assert r[i] == nodes[j];
    }
  }

  // The list of bcache.head as a ring of nodes.
  ghost predicate Listed(next: Links, prev: Links, order: seq<nat>) {
    Ring(next, prev, [HEAD] + order)
  }

  lemma ListAt(next: Links, prev: Links, order: seq<nat>, i: nat)
    requires Listed(next, prev, order) && i <= |order|
    ensures var x := if i == 0 then HEAD else order[i - 1];
            && x <= NBUF && (if i < |order| then order[i] else HEAD) <= NBUF
            && next[x] == (if i < |order| then order[i] else HEAD)
            && prev[if i < |order| then order[i] else HEAD] == x
  {
    assert LinkAt(next, prev, [HEAD] + order, i);
  }

  lemma ListApart(next: Links, prev: Links, order: seq<nat>, i: nat, k: nat)
    requires Listed(next, prev, order) && i < |order| && k < |order| && i != k
    ensures order[i] != order[k] && order[k] != HEAD
  {
    var nodes := [HEAD] + order;
    assert nodes[i + 1] != nodes[k + 1] && nodes[0] != nodes[k + 1];
  }

  // The list names no buffer twice, and without b it does not name b.
  lemma ListOnce(next: Links, prev: Links, order: seq<nat>, k: nat)
    requires Listed(next, prev, order) && k < |order| && order[k] < NBUF
    ensures forall i :: 0 <= i < k ==> order[i] != order[k]
    ensures [HEAD] + Without(order, order[k]) == ([HEAD] + order)[..k + 1] + ([HEAD] + order)[k + 2..]
    ensures order[k] !in [HEAD] + Without(order, order[k])
  {
    hide Listed, Without;
    forall i | 0 <= i < |order| && i != k
      ensures order[i] != order[k]
    {
      ListApart(next, prev, order, i, k);
    }
    WithoutAt(order, order[k], k);
    HeadSplit(order, k);
  }

  lemma HeadSplit(order: seq<nat>, k: nat)
    requires k < |order|
    ensures [HEAD] + (order[..k] + order[k + 1..]) == ([HEAD] + order)[..k + 1] + ([HEAD] + order)[k + 2..]
  {}

  // brelse's relinking of an unreferenced buffer.
  lemma Relink(next: Links, prev: Links, order: seq<nat>, b: nat)
    requires Listed(next, prev, order) && b in order && b < NBUF
    ensures next[b] <= NBUF && prev[b] <= NBUF
    ensures var next1, prev1 := next[prev[b] := next[b]], prev[next[b] := prev[b]];
            && next1[HEAD] <= NBUF
            && Listed(next1[b := next1[HEAD]][HEAD := b], prev1[b := HEAD][next1[HEAD] := b], [b] + Without(order, b))
  {
    hide Ring, Without;
    var k :| 0 <= k < |order| && order[k] == b;
    ListOnce(next, prev, order, k);
    var nodes, rest := [HEAD] + order, [HEAD] + Without(order, b);
    assert nodes[k + 1] == b;
    Unlink(next, prev, nodes, k + 1);
    LinkFront(next[prev[b] := next[b]], prev[next[b] := prev[b]], rest, b);
    assert [HEAD, b] + rest[1..] == [HEAD] + ([b] + Without(order, b));
  }

  class Bcache {
    const bufs: array<Buf>
    const next: array<nat>
    const prev: array<nat>
    var disk: seq<Block>
    ghost var order: seq<nat>
    ghost var refs: map<nat, Ref>

    ghost predicate Shape()
      reads this, bufs, next, prev
    {
      && bufs.Length == NBUF && next.Length == NBUF + 1 && prev.Length == NBUF + 1
      && next != prev
      && Listed(next[..], prev[..], order)
      && forall i :: 0 <= i < |order| ==> order[i] < NBUF
    }

    ghost function Abs(): (s: State)
      requires bufs.Length == NBUF
      reads this, bufs
    {
      State(bufs[..], order, refs, disk)
    }

    ghost predicate Valid()
      reads this, bufs, next, prev
    {
      Shape() && Inv(Abs())
    }

    method InsertFront(b: nat)
      requires Shape() && b < NBUF && b !in order
      modifies next, prev, this`order
      ensures Shape() && order == [b] + old(order)
    {
      hide Ring, Distinct;
      ghost var nodes := [HEAD] + order;
      LinkFront(next[..], prev[..], nodes, b);
      assert [HEAD, b] + nodes[1..] == [HEAD] + ([b] + order);
      ghost var next0: Links, prev0: Links := next[..], prev[..];
      next[b] := next[NBUF];
      prev[b] := NBUF;
      prev[next[NBUF]] := b;
      next[NBUF] := b;
      assert next[..] == next0[b := next0[HEAD]][HEAD := b];
      assert prev[..] == prev0[b := HEAD][next0[HEAD] := b];
      order := [b] + order;
    }

    constructor Binit(disk: seq<Block>)
      ensures Valid() && fresh(bufs) && fresh(next) && fresh(prev)
      ensures this.disk == disk && Init(Abs())
    {
      bufs := new Buf[NBUF](_ => Buf(0, 0, 0, false, false, Zeros(), None, false));
      next := new nat[NBUF + 1](_ => NBUF);
      prev := new nat[NBUF + 1](_ => NBUF);
      this.disk := disk;
      order, refs := [], map[];
      new;
      assert LinkAt(next[..], prev[..], [HEAD], 0);
      assert [HEAD] + [] == [HEAD];
      var b := 0;
      while b < NBUF
        invariant 0 <= b <= NBUF && Shape() && |order| == b
        invariant fresh(bufs) && fresh(next) && fresh(prev)
        invariant forall i :: 0 <= i < b ==> order[i] == b - 1 - i
        invariant forall i :: 0 <= i < NBUF ==> bufs[i] == Buf(0, 0, 0, false, false, Zeros(), None, false)
        invariant refs == map[] && this.disk == disk
      {
        InsertFront(b);
        b := b + 1;
      }
      InitInv(Abs());
    }

    // The first buffer along the next pointers that holds the block.
    method ScanForward(dev: nat, block: nat) returns (r: Option<nat>)
      requires Shape()
      ensures r == Find(bufs[..], order, dev, block)
    {
      hide Listed, Find;
      ListAt(next[..], prev[..], order, 0);
      var b := next[NBUF];
      ghost var i := 0;
      assert order[i..] == order;
      while b != NBUF
        invariant 0 <= i <= |order| && b == if i < |order| then order[i] else HEAD
        invariant Find(bufs[..], order, dev, block) == Find(bufs[..], order[i..], dev, block)
        decreases |order| - i
      {
        FindStep(bufs[..], order, i, dev, block);
        if bufs[b].dev == dev && bufs[b].block == block {
          return Some(b);
        }
        i := i + 1;
        ListAt(next[..], prev[..], order, i);
        b := next[b];
      }
      FindEnd(bufs[..], order, i, dev, block);
      r := None;
    }

    // The least recently released buffer that is idle.
    method ScanBackward() returns (r: Option<nat>)
      requires Shape()
      ensures r == Victim(bufs[..], order)
    {
      hide Listed, Victim;
      ListAt(next[..], prev[..], order, |order|);
      var b := prev[NBUF];
      ghost var n := |order|;
      assert order[..n] == order;
      while b != NBUF
        invariant 0 <= n <= |order| && b == if n > 0 then order[n - 1] else HEAD
        invariant Victim(bufs[..], order) == Victim(bufs[..], order[..n])
        decreases n
      {
        VictimStep(bufs[..], order, n);
        if bufs[b].refcnt == 0 && !bufs[b].dirty {
          return Some(b);
        }
        n := n - 1;
        ListAt(next[..], prev[..], order, n);
        b := prev[b];
      }
      VictimEnd(bufs[..], order, n);
      r := None;
    }

    // The buffer for the block, referenced but not yet locked; None is the panic.
    method Bget(t: nat, dev: nat, block: nat) returns (r: Option<nat>)
      requires Valid() && t !in refs
      modifies bufs, this`refs
      ensures Valid()
      ensures r == GetBuf(old(Abs()), dev, block)
      ensures r.None? ==> Abs() == old(Abs())
      ensures r.Some? ==> Enabled(old(Abs()), Get(t, dev, block)) && Abs() == Next(old(Abs()), Get(t, dev, block))
      ensures r.None? <==> forall c :: 0 <= c < NBUF ==> !Matches(old(bufs[c]), dev, block) && !Idle(old(bufs[c]))
      ensures r.Some? ==> r.value < NBUF && refs == old(refs)[t := Ref(r.value, Waiting)]
      ensures r.Some? && Matches(old(bufs[r.value]), dev, block) ==>
                bufs[..] == old(bufs[..])[r.value := old(bufs[r.value]).(refcnt := old(bufs[r.value]).refcnt + 1)]
      ensures r.Some? && !Matches(old(bufs[r.value]), dev, block) ==>
                && (forall c :: 0 <= c < NBUF ==> !Matches(old(bufs[c]), dev, block))
                && LastIdle(old(bufs[..]), order, r.value)
                && bufs[..] == old(bufs[..])[r.value := old(bufs[r.value]).(dev := dev, block := block, valid := false, refcnt := 1)]
    {
      hide Inv, Listed, Find, Victim, LastIdle;
      ghost var s := Abs();
      GetMeans(s, dev, block);
      r := ScanForward(dev, block);
      if r.Some? {
        GetKeeps(s, t, dev, block);
        bufs[r.value] := bufs[r.value].(refcnt := bufs[r.value].refcnt + 1);
        refs := refs[t := Ref(r.value, Waiting)];
        return;
      }
      r := ScanBackward();
      if r.Some? {
        GetKeeps(s, t, dev, block);
        bufs[r.value] := bufs[r.value].(dev := dev, block := block, valid := false, dirty := false, refcnt := 1);
        refs := refs[t := Ref(r.value, Waiting)];
      }
    }

    // iderw by use t: write a dirty buffer, read an invalid one; false stands for
    // its panics, which are the buffer not locked by t, one that is valid and
    // clean, another device, and a block past the end of the disk.
    method Iderw(t: nat, b: nat) returns (ok: bool)
      requires Shape() && b < NBUF
      modifies bufs, this`disk
      ensures Shape()
      ensures ok <==> old(bufs[b].holder == Some(t) && (bufs[b].dirty || !bufs[b].valid) && OnDisk(Abs(), b))
      ensures !ok ==> disk == old(disk) && bufs[..] == old(bufs[..])
      ensures ok && old(bufs[b]).dirty ==>
                && disk == old(disk)[old(bufs[b]).block := old(bufs[b]).data]
                && bufs[..] == old(bufs[..])[b := old(bufs[b]).(dirty := false, valid := true)]
      ensures ok && !old(bufs[b]).dirty ==>
                && disk == old(disk)
                && bufs[..] == old(bufs[..])[b := old(bufs[b]).(data := disk[old(bufs[b]).block], valid := true)]
    {
      if bufs[b].holder != Some(t) {
        return false;
      }
      if bufs[b].valid && !bufs[b].dirty {
        return false;
      }
      if bufs[b].dev != ROOTDEV || bufs[b].block >= |disk| {
        return false;
      }
      if bufs[b].dirty {
        disk := disk[bufs[b].block := bufs[b].data];
        bufs[b] := bufs[b].(dirty := false);
      } else {
        bufs[b] := bufs[b].(data := disk[bufs[b].block]);
      }
      bufs[b] := bufs[b].(valid := true);
      ok := true;
    }

    // bread's second half, by the holder t of the buffer; false is a panic of iderw.
    method Fetch(t: nat, b: nat) returns (ok: bool)
      requires Valid() && Holds(Abs(), t) && refs[t].buf == b
      modifies bufs, this`disk
      ensures Valid()
      ensures ok <==> old(bufs[b].valid || OnDisk(Abs(), b))
      ensures ok ==> bufs[b].valid
      ensures Abs() == if ok && !old(bufs[b].valid) then Next(old(Abs()), BioModel.Fetch(t)) else old(Abs())
      ensures disk == old(disk) && order == old(order) && refs == old(refs)
      ensures ok && !old(bufs[b].valid) ==>
                bufs[..] == old(bufs[..])[b := old(bufs[b]).(data := disk[old(bufs[b]).block], valid := true)]
    {
      hide Inv, Listed;
      ghost var s := Abs();
      BufKnown(s, b);
      HolderKnown(s, t);
      ok := true;
      if !bufs[b].valid {
        if OnDisk(s, b) {
          HolderSteps(s, BioModel.Fetch(t));
        }
        ok := Iderw(t, b);
      }
    }

    // bwrite by use t of a buffer that bread returned; false is its panic.
    method Bwrite(t: nat, b: nat) returns (ok: bool)
      requires Valid() && b < NBUF && (bufs[b].holder == Some(t) ==> bufs[b].valid)
      modifies bufs, this`disk
      ensures Valid()
      ensures ok <==> old(bufs[b]).holder == Some(t)
      ensures !ok ==> Abs() == old(Abs())
      ensures ok ==> Enabled(old(Abs()), Write(t)) && Abs() == Next(old(Abs()), Write(t))
      ensures ok ==> old(bufs[b]).block < |old(disk)| && disk == old(disk)[old(bufs[b]).block := old(bufs[b]).data]
      ensures ok ==> bufs[..] == old(bufs[..])[b := old(bufs[b]).(dirty := false, touched := false)]
    {
      hide Inv, Listed;
      if bufs[b].holder != Some(t) {
        return false;
      }
      ghost var s := Abs();
      BufKnown(s, b);
      HolderSteps(s, Write(t));
      bufs[b] := bufs[b].(dirty := true, touched := false);
      ok := Iderw(t, b);
      assert bufs[..] == s.bufs[b := s.bufs[b].(valid := true, dirty := false, touched := false)];
    }

    // brelse after releasesleep.
    method Brelse(t: nat, b: nat)
      requires Valid() && Enabled(Abs(), Drop(t)) && refs[t].buf == b
      modifies bufs, next, prev, this`order, this`refs
      ensures Valid() && Abs() == Next(old(Abs()), Drop(t))
      ensures bufs[..] == old(bufs[..])[b := old(bufs[b]).(refcnt := old(bufs[b]).refcnt - 1)]
      ensures refs == old(refs) - {t} && disk == old(disk)
      ensures if bufs[b].refcnt == 0 then MovedFront(old(order), order, b) else order == old(order)
    {
      hide Inv, Listed, Without;
      ghost var s := Abs();
      DropKeeps(s, t);
      InOrder(s, b);
      bufs[b] := bufs[b].(refcnt := bufs[b].refcnt - 1);
      refs := refs - {t};
      if bufs[b].refcnt == 0 {
        ListMoves(s, b);
        MoveFront(b);
      }
      assert bufs[..] == s.bufs[b := s.bufs[b].(refcnt := s.bufs[b].refcnt - 1)];
    }

    method MoveFront(b: nat)
      requires Shape() && b < NBUF && b in order
      modifies next, prev, this`order
      ensures Shape() && order == [b] + Without(old(order), b)
    {
      hide Listed;
      Relink(next[..], prev[..], order, b);
      WithoutSub(order, b);
      ghost var next0: Links, prev0: Links := next[..], prev[..];
      ghost var next1: Links, prev1: Links := next0[prev0[b] := next0[b]], prev0[next0[b] := prev0[b]];
      prev[next[b]] := prev[b];
      next[prev[b]] := next[b];
      assert next[..] == next1 && prev[..] == prev1;
      next[b] := next[NBUF];
      prev[b] := NBUF;
      prev[next[NBUF]] := b;
      next[NBUF] := b;
      assert next[..] == next1[b := next1[HEAD]][HEAD := b];
      assert prev[..] == prev1[b := HEAD][next1[HEAD] := b];
      order := [b] + Without(order, b);
    }
  }

  // b is idle and no buffer behind it in the list is.
  ghost predicate LastIdle(bufs: Bufs, order: seq<nat>, b: nat) {
    && b < NBUF && Idle(bufs[b])
    && exists k :: 0 <= k < |order| && order[k] == b && forall i :: k < i < |order| && order[i] < NBUF ==> !Idle(bufs[order[i]])
  }

  // Which buffer bget takes.
  lemma GetMeans(s: State, dev: nat, block: nat)
    requires Inv(s)
    ensures var f, v, g := Find(s.bufs, s.order, dev, block), Victim(s.bufs, s.order), GetBuf(s, dev, block);
            && (f.Some? ==> f.value < NBUF && Matches(s.bufs[f.value], dev, block))
            && (f.None? ==> forall c :: 0 <= c < NBUF ==> !Matches(s.bufs[c], dev, block))
            && (f.None? && v.Some? ==> LastIdle(s.bufs, s.order, v.value))
            && (g.None? <==> forall c :: 0 <= c < NBUF ==> !Matches(s.bufs[c], dev, block) && !Idle(s.bufs[c]))
  {
    hide BufInv, RefInv, OneCopy;
    var v := Victim(s.bufs, s.order);
    if v.Some? {
      VictimLast(s.bufs, s.order);
    } else {
      forall c | 0 <= c < NBUF
        ensures !Idle(s.bufs[c])
      {
        assert c in s.order;
      }
    }
    if Find(s.bufs, s.order, dev, block).None? {
      forall c | 0 <= c < NBUF
        ensures !Matches(s.bufs[c], dev, block)
      {
        NotCached(s, dev, block, c);
      }
    }
  }

  lemma ListMoves(s: State, b: nat)
    requires Inv(s) && b < NBUF
    ensures MovedFront(s.order, [b] + Without(s.order, b), b)
  {
    assert b in s.order;
    MoveMoves(s.order, b);
  }

  lemma InOrder(s: State, b: nat)
    requires Inv(s) && b < NBUF
    ensures b in s.order
  {}

  lemma FindStep(bufs: Bufs, order: seq<nat>, i: nat, dev: nat, block: nat)
    requires i < |order| && order[i] < NBUF
    ensures Matches(bufs[order[i]], dev, block) ==> Find(bufs, order[i..], dev, block) == Some(order[i])
    ensures !Matches(bufs[order[i]], dev, block) ==> Find(bufs, order[i..], dev, block) == Find(bufs, order[i + 1..], dev, block)
  {
    assert order[i..][1..] == order[i + 1..];
  }

  lemma FindEnd(bufs: Bufs, order: seq<nat>, i: nat, dev: nat, block: nat)
    requires i == |order|
    ensures Find(bufs, order[i..], dev, block) == None
  {}

  lemma VictimStep(bufs: Bufs, order: seq<nat>, n: nat)
    requires 0 < n <= |order| && order[n - 1] < NBUF
    ensures Idle(bufs[order[n - 1]]) ==> Victim(bufs, order[..n]) == Some(order[n - 1])
    ensures !Idle(bufs[order[n - 1]]) ==> Victim(bufs, order[..n]) == Victim(bufs, order[..n - 1])
  {
    assert order[..n][..n - 1] == order[..n - 1];
  }

  lemma VictimEnd(bufs: Bufs, order: seq<nat>, n: nat)
    requires n == 0
    ensures Victim(bufs, order[..n]) == None
  {}

  lemma BufKnown(s: State, b: nat)
    requires Inv(s) && b < NBUF
    ensures s.bufs[b].dirty ==> s.bufs[b].valid
    ensures s.bufs[b].valid ==> OnDisk(s, b)
    ensures s.bufs[b].holder.Some? ==> var t := s.bufs[b].holder.value; Holds(s, t) && s.refs[t].buf == b
  {
    assert BufInv(s, b);
  }

  lemma HolderKnown(s: State, t: nat)
    requires Inv(s) && Holds(s, t)
    ensures s.bufs[s.refs[t].buf].holder == Some(t)
  {
    assert RefInv(s, t);
  }

  lemma {:induction false} WithoutSub(order: seq<nat>, b: nat)
    ensures forall i :: 0 <= i < |Without(order, b)| ==> Without(order, b)[i] in order
  {
    if order != [] && order[0] != b {
      WithoutSub(order[1..], b);
    }
  }
}
