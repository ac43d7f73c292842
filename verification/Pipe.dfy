/**
The pipe of src/pipe.c: a ring of 512 bytes with two 32-bit counters. Each stretch a process runs
between taking the pipe's lock and dropping or sleeping on it is one method, so every interleaving of
readers and writers is a sequence of calls.
*/
module Pipe {
  import opened Common

  const PIPESIZE: nat := 512

  /** How a stretch of pipewrite or piperead ends. */
  datatype WriteEnd = Wrote | WriteAsleep | WriteFailed
  datatype ReadEnd = Read(n: nat) | ReadAsleep | ReadFailed

  class RingPipe {
    const data: array<byte>
    var nread: nat
    var nwrite: nat
    var readopen: bool
    var writeopen: bool
    /** All bytes ever written, and all bytes ever read. */
    ghost var sent: seq<byte>
    ghost var got: seq<byte>

    /** What was read is what was written, in order, and at most PIPESIZE bytes are in transit; the
        counters are the lengths modulo 2^32. */
    ghost predicate Valid()
      reads this, data
    {
      && data.Length == PIPESIZE && got <= sent && |sent| - |got| <= PIPESIZE
      && nread == |got| % TWO32 && nwrite == |sent| % TWO32
      && forall k :: |got| <= k < |sent| ==> data[k % PIPESIZE] == sent[k]
    }

    constructor ()
      ensures Valid() && fresh(data) && readopen && writeopen && sent == got == []
    {
      data := new byte[PIPESIZE];
      nread, nwrite := 0, 0;
      readopen, writeopen := true, true;
      sent, got := [], [];
    }

    /** pipewrite from byte i of src on, until it has written all, must sleep on a full pipe, or gives
        up. */
    method Write(src: seq<byte>, i: nat, killed: bool) returns (r: WriteEnd, done: nat)
      requires Valid() && i <= |src| < 0x8000_0000
      modifies this`nwrite, this`sent, data
      ensures Valid() && i <= done <= |src| && sent == old(sent) + src[i..done] && got == old(got)
      ensures r == Wrote <==> done == |src|
      ensures r != Wrote ==> |sent| - |got| == PIPESIZE
      ensures r == WriteFailed <==> done < |src| && (!readopen || killed)
    {
      done := i;
      while done < |src|
        invariant Valid() && i <= done <= |src| && sent == old(sent) + src[i..done] && got == old(got)
      {
        Full(|sent|, |got|);
        if nwrite == (nread + PIPESIZE) % TWO32 {
          if !readopen || killed {
            return WriteFailed, done;
          }
          return WriteAsleep, done;
        }
        Put(src[done]);
        assert src[i..done + 1] == src[i..done] + [src[done]];
        done := done + 1;
      }
      return Wrote, done;
    }

    /** data[nwrite++ % PIPESIZE] = c. */
    method Put(c: byte)
      requires Valid() && |sent| - |got| < PIPESIZE
      modifies this`nwrite, this`sent, data
      ensures Valid() && sent == old(sent) + [c]
    {
      ghost var n := |sent|;
      Slot(n);
      data[nwrite % PIPESIZE] := c;
      forall k | |got| <= k < n ensures k % PIPESIZE != n % PIPESIZE {
        Apart(k, n);
      }
      nwrite := (nwrite + 1) % TWO32;
      sent := sent + [c];
      Wraps(n, 1);
    }

    /** piperead, until it has read, must sleep on an empty pipe, or gives up. */
    method ReadSome(n: nat, killed: bool) returns (r: ReadEnd, dst: seq<byte>)
      requires Valid() && n < 0x8000_0000
      modifies this`nread, this`got
      ensures Valid() && got == old(got) + dst && sent == old(sent)
      ensures r.Read? <==> old(got) != sent || !writeopen
      ensures r.Read? ==> r.n == |dst| && |dst| == if |sent| - |old(got)| < n then |sent| - |old(got)| else n
      ensures !r.Read? ==> dst == [] && (r == ReadFailed <==> killed)
      ensures r.Read? && n > 0 && dst == [] ==> old(got) == sent && !writeopen
    {
      dst := [];
      Empty(|sent|, |got|);
      if nread == nwrite && writeopen {
        assert got == sent;
        return if killed then ReadFailed else ReadAsleep, [];
      }
      var i := 0;
      while i < n
        invariant 0 <= i == |dst| <= n && Valid() && got == old(got) + dst && |got| <= |sent|
      {
        Empty(|sent|, |got|);
        if nread == nwrite {
          break;
        }
        Slot(|got|);
        Wraps(|got|, 1);
        dst := dst + [data[nread % PIPESIZE]];
        got := got + [data[nread % PIPESIZE]];
        nread := (nread + 1) % TWO32;
        i := i + 1;
      }
      return Read(i), dst;
    }

    /** pipeclose; freed says that both ends are closed and the pipe is given back. */
    method Close(writable: bool) returns (freed: bool)
      requires Valid()
      modifies this`readopen, this`writeopen
      ensures Valid() && freed == (!readopen && !writeopen)
      ensures writeopen == (old(writeopen) && !writable) && readopen == (old(readopen) && writable)
    {
      if writable {
        writeopen := false;
      } else {
        readopen := false;
      }
      return !readopen && !writeopen;
    }
  }

  // ---------- counters that wrap ----------

  /** 512 divides 2^32, so the wrapped counter picks the same slot. */
  lemma Slot(n: nat)
    ensures n % TWO32 % PIPESIZE == n % PIPESIZE
  {
    assert n == TWO32 * (n / TWO32) + n % TWO32;
    assert TWO32 == PIPESIZE * 0x80_0000;
    assert n == PIPESIZE * (0x80_0000 * (n / TWO32)) + n % TWO32;
  }

  lemma Apart(k: nat, n: nat)
    requires k < n < k + PIPESIZE
    ensures k % PIPESIZE != n % PIPESIZE
  {
  }

  /** What adding a few bytes does to a wrapped counter. */
  lemma Wraps(n: nat, d: nat)
    requires d <= PIPESIZE
    ensures var x := n % TWO32; (n + d) % TWO32 == (x + d) % TWO32 == if x + d < TWO32 then x + d else x + d - TWO32
  {
    var q, x := n / TWO32, n % TWO32;
    if x + d < TWO32 {
      Mod(q, x + d);
    } else {
      Mod(q + 1, x + d - TWO32);
      Mod(1, x + d - TWO32);
    }
  }

  lemma Mod(q: nat, x: nat)
    requires x < TWO32
    ensures (TWO32 * q + x) % TWO32 == x
  {
  }

  /** The wrapped counters are 512 apart exactly when 512 bytes are in transit. */
  lemma Full(sent: nat, got: nat)
    requires got <= sent <= got + PIPESIZE
    ensures sent % TWO32 == (got % TWO32 + PIPESIZE) % TWO32 <==> sent == got + PIPESIZE
  {
    Wraps(got, sent - got);
    Wraps(got, PIPESIZE);
  }

  lemma Empty(sent: nat, got: nat)
    requires got <= sent <= got + PIPESIZE
    ensures got % TWO32 == sent % TWO32 <==> got == sent
  {
    Wraps(got, sent - got);
  }
}
