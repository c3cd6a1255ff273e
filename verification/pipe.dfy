/**
 The pipe of pipe.c as an object: the byte loops of pipewrite and piperead that
 run between two waits, with p->lock held.
 */
module Pipe {
  import opened PipeModel

  class PipeBuffer {
    const data: array<int>
    var nread: nat
    var nwrite: nat
    var readopen: bool
    var writeopen: bool
    ghost var written: seq<int>      // every byte deposited so far
    ghost var taken: seq<int>        // every byte read so far

    ghost predicate Valid()
      reads this, data
    {
      data.Length == PIPESIZE && Holds(Ring(data[..], nread, nwrite), written, taken)
    }

    constructor ()
      ensures Valid() && fresh(data) && written == [] && taken == [] && readopen && writeopen
    {
      data := new int[PIPESIZE](_ => 0);
      nread, nwrite := 0, 0;
      readopen, writeopen := true, true;
      written, taken := [], [];
    }

    // pipewrite from byte i on, until everything is deposited or the pipe is full.
    method Deposit(src: seq<int>, start: nat) returns (i: nat)
      requires Valid() && start <= |src|
      modifies this`nwrite, this`written, data
      ensures Valid() && start <= i <= |src|
      ensures written == old(written) + src[start..i]
      ensures i == |src| || |written| - |taken| == PIPESIZE
    {
      i := start;
      while i < |src| && nwrite != (nread + PIPESIZE) % UINT
        invariant start <= i <= |src|
        invariant Valid() && written == old(written) + src[start..i]
      {
        PutKeeps(Ring(data[..], nread, nwrite), written, taken, src[i]);
        data[nwrite % PIPESIZE] := src[i];
        nwrite := (nwrite + 1) % UINT;
        written := written + [src[i]];
        assert src[start..i + 1] == src[start..i] + [src[i]];
        i := i + 1;
      }
      FullIff(Ring(data[..], nread, nwrite), written, taken);
    }

    // The copy loop of piperead: up to n bytes, as many as there are.
    method Collect(n: int) returns (got: seq<int>)
      requires Valid()
      modifies this`nread, this`taken
      ensures Valid() && taken == old(taken) + got
      ensures got <= old(written[|taken|..])
      ensures |got| == if n < 0 then 0 else if n < |written| - |old(taken)| then n else |written| - |old(taken)|
    {
      got := [];
      var i := 0;
      while i < n && nread != nwrite
        invariant Valid() && taken == old(taken) + got
        invariant |got| == i && (i <= n || i == 0)
      {
        ghost var ring := Ring(data[..], nread, nwrite);
        FullIff(ring, written, taken);
        DropKeeps(ring, written, taken);
        var c := data[nread % PIPESIZE];
        got := got + [c];
        taken := taken + [c];
        nread := (nread + 1) % UINT;
        i := i + 1;
      }
      FullIff(Ring(data[..], nread, nwrite), written, taken);
      assert taken[|old(taken)|..] == got;
    }

    // pipeclose's effect on the pipe.
    method CloseEnd(writable: bool)
      requires Valid()
      modifies this`readopen, this`writeopen
      ensures Valid()
      ensures writeopen == (old(writeopen) && !writable) && readopen == (old(readopen) && writable)
    {
      if writable {
        writeopen := false;
      } else {
        readopen := false;
      }
    }
  }
}
