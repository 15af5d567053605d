// Pipes: a ring of PIPESIZE bytes with free-running 32-bit counters.  A method is what one process
// does between taking the pipe's lock and giving it up, to return or to sleep; a process that
// has been woken calls again from where it stopped.  Every interleaving is a sequence of such calls.
module Pipe {
  import opened Blocks

  const PIPESIZE := 512

  const WRAP := 0x1_0000_0000

  datatype WriteResult = Wrote(n: int) | WriteFailed | WriteAsleep(next: nat)

  datatype ReadResult = Read(bytes: seq<Byte>) | ReadFailed | ReadAsleep

  // the slot of the k-th byte of the stream, and the counter after k bytes
  function Slot(k: nat): (r: nat)
    ensures r < PIPESIZE
  {
    k % 512
  }

  function Counter(k: nat): (r: nat)
    ensures r < WRAP
  {
    k % 0x1_0000_0000
  }

  lemma CounterSlot(k: nat)
    ensures Counter(k) % PIPESIZE == Slot(k)
    ensures (Counter(k) + 1) % WRAP == Counter(k + 1)
  {
  }

  // the tests for an empty and a full pipe tell those states apart although the counters wrap
  lemma CountersTell(r: nat, w: nat)
    requires r <= w <= r + PIPESIZE
    ensures Counter(r) == Counter(w) <==> r == w
    ensures Counter(w) == (Counter(r) + PIPESIZE) % WRAP <==> w == r + PIPESIZE
  {
  }

  lemma SlotsApart(j: nat, k: nat)
    requires j < k < j + PIPESIZE
    ensures Slot(j) != Slot(k)
  {
  }

  ghost predicate Holds(data: seq<Byte>, written: seq<Byte>, k: nat) {
    k < |written| && |data| == PIPESIZE && data[Slot(k)] == written[k]
  }

  class Pipe {
    const data: array<Byte>
    var nread: nat
    var nwrite: nat
    var readopen: bool
    var writeopen: bool
    var readers: set<nat>          // the processes asleep on nread
    var writers: set<nat>          // the processes asleep on nwrite
    ghost var written: seq<Byte>   // everything written so far
    ghost var received: seq<Byte>  // everything read so far

    /** The counters and the ring hold the bytes of the stream that have been written and not read. */
    ghost predicate Valid()
      reads this, data
    {
      && data.Length == PIPESIZE
      && received <= written && |written| <= |received| + PIPESIZE
      && nread == Counter(|received|) && nwrite == Counter(|written|)
      && (forall k: nat {:trigger Holds(data[..], written, k)} :: |received| <= k < |written| ==>
        Holds(data[..], written, k))
      && (readers != {} ==> readopen) && (writers != {} ==> writeopen)
    }

    ghost predicate Empty()
      reads this
    {
      |received| == |written|
    }

    ghost predicate Full()
      reads this
    {
      |written| == |received| + PIPESIZE
    }

    /** Nobody sleeps for nothing. */
    ghost predicate NoneForgotten()
      reads this
    {
      && (readers != {} ==> Empty() && writeopen)
      && (writers != {} ==> Full() && readopen)
    }

    constructor ()
      ensures Valid() && fresh(data) && NoneForgotten() && written == [] && readers == {} && writers == {}
      ensures readopen && writeopen
    {
      data := new Byte[PIPESIZE](_ => 0);
      nread, nwrite, readopen, writeopen, readers, writers := 0, 0, true, true, {}, {};
      written, received := [], [];
    }

    method Put(b: Byte)
      requires Valid() && !Full()
      modifies data, this`nwrite, this`written
      ensures Valid() && written == old(written) + [b]
    {
      CounterSlot(|written|);
      ghost var d0, w0 := data[..], written;
      data[nwrite % PIPESIZE] := b;
      nwrite := (nwrite + 1) % WRAP;
      written := written + [b];
      forall k: nat | |received| <= k < |written| ensures Holds(data[..], written, k) {
        if k < |w0| {
          assert Holds(d0, w0, k);
          SlotsApart(k, |w0|);
        }
      }
    }

    method Get() returns (b: Byte)
      requires Valid() && !Empty()
      modifies this`nread, this`received
      ensures Valid() && b == written[|old(received)|] && received == old(received) + [b]
    {
      CounterSlot(|received|);
      assert Holds(data[..], written, |received|);
      b := data[nread % PIPESIZE];
      nread := (nread + 1) % WRAP;
      received := received + [b];
    }

    /**
     pipewrite by process p from byte start on: the bytes that go in are addr[start..next], in order.
     The wakeup property survives exactly when it is not a killed writer that fills an empty pipe
     that a reader waits for.
     */
    method Write(p: nat, addr: seq<Byte>, n: int, start: nat, killed: bool) returns (r: WriteResult, ghost next: nat)
      requires Valid() && n <= |addr| && start <= |addr|
      requires p !in readers && p !in writers && writeopen
      modifies data, this`nwrite, this`written, this`readers, this`writers
      ensures Valid() && start <= next <= |addr| && written == old(written) + addr[start..next]
      ensures r.Wrote? ==> r.n == n && next == (if start < n then n else start) && readers == {}
                           && writers == old(writers)
      ensures r.WriteFailed? ==>
                next < n && Full() && (!readopen || killed) && readers == old(readers) && writers == old(writers)
      ensures r.WriteAsleep? ==>
                r.next == next < n && Full() && readopen && !killed && readers == {} && writers == old(writers) + {p}
      ensures old(NoneForgotten()) ==> (NoneForgotten() <==> !(killed && old(readers) != {} && n - start > PIPESIZE))
    {
      var i := start;
      next := start;
      while i < n
        invariant Valid() && start <= i == next <= |addr| && (if start < n then i <= n else i == start)
        invariant written == old(written) + addr[start..i]
        invariant readers == old(readers) && writers == old(writers)
        invariant old(NoneForgotten()) && readers != {} ==> |written| == |received| + (i - start)
        invariant old(NoneForgotten()) && writers != {} ==> i == start && Full()
      {
        CountersTell(|received|, |written|);
        if nwrite == (nread + PIPESIZE) % WRAP {
          if !readopen || killed {
            return WriteFailed, i;
          }
          readers := {};
          writers := writers + {p};
          return WriteAsleep(i), i;
        }
        Put(addr[i]);
        i, next := i + 1, i + 1;
      }
      readers := {};
      r := Wrote(n);
    }

    /** piperead: the next bytes of the stream, none only when there will be no more. */
    method Read(p: nat, n: int, killed: bool) returns (r: ReadResult)
      requires Valid() && p !in readers && p !in writers && readopen
      modifies this`nread, this`received, this`readers, this`writers
      ensures Valid() && received == old(received) + (if r.Read? then r.bytes else [])
      ensures r.Read? ==>
                && |r.bytes| == (if n <= 0 then 0 else if n <= |written| - |old(received)| then n
                else |written| - |old(received)|)
                && (n > 0 && r.bytes == [] ==> Empty() && !writeopen)
                && readers == old(readers) && writers == {}
      ensures r.ReadFailed? ==> killed && Empty() && writeopen && readers == old(readers) && writers == old(writers)
      ensures r.ReadAsleep? ==> !killed && Empty() && writeopen && readers == old(readers) + {p}
                                && writers == old(writers)
      ensures old(NoneForgotten()) ==> NoneForgotten()
    {
      CountersTell(|received|, |written|);
      if nread == nwrite && writeopen {
        if killed {
          return ReadFailed;
        }
        readers := readers + {p};
        return ReadAsleep;
      }
      var bytes := [];
      while |bytes| < n
        invariant Valid() && received == old(received) + bytes && (n > 0 ==> |bytes| <= n) && (n <= 0 ==> bytes == [])
        invariant readers == old(readers)
      {
        CountersTell(|received|, |written|);
        if nread == nwrite {
          break;
        }
        var b := Get();
        bytes := bytes + [b];
      }
      writers := {};
      return ReadResult.Read(bytes);
    }

    /** pipeclose: everyone asleep at the other end wakes up; the pipe is freed when both ends are closed. */
    method Close(writable: bool) returns (freed: bool)
      requires Valid() && (if writable then writers == {} else readers == {})
      modifies this`readopen, this`writeopen, this`readers, this`writers
      ensures Valid() && (old(NoneForgotten()) ==> NoneForgotten())
      ensures writable ==> !writeopen && readopen == old(readopen) && readers == {} && writers == {}
      ensures !writable ==> !readopen && writeopen == old(writeopen) && writers == {} && readers == {}
      ensures freed <==> !readopen && !writeopen
    {
      if writable {
        writeopen := false;
        readers := {};
      } else {
        readopen := false;
        writers := {};
      }
      freed := !readopen && !writeopen;
    }

    /** kill makes process p runnable. */
    method Kill(p: nat)
      requires Valid()
      modifies this`readers, this`writers
      ensures Valid() && (old(NoneForgotten()) ==> NoneForgotten())
      ensures readers == old(readers) - {p} && writers == old(writers) - {p}
    {
      readers, writers := readers - {p}, writers - {p};
    }
  }

  /** Process 1 sleeps for bytes; process 2, killed, writes 513 of them and fails without waking it. */
  method KilledWriter() returns (q: Pipe)
    ensures q.Valid() && 1 in q.readers && q.Full() && !q.NoneForgotten()
  {
    q := new Pipe();
    var r := q.Read(1, 1, false);
    var w, _ := q.Write(2, seq(513, _ => 0), 513, 0, true);
  }
}
