/** pipe.c: the ring of PIPESIZE bytes with its 32-bit counters. */
module PipeRing {
  import opened Common
  import opened Bytes

  const PIPESIZE := 512

  /** What has gone into the pipe and come out of it so far. */
  datatype Flow = Flow(accepted: seq<byte>, delivered: seq<byte>)

  predicate FlowOk(w: Flow) {
    |w.delivered| <= |w.accepted| <= |w.delivered| + PIPESIZE && w.delivered <= w.accepted
  }

  function Waiting(w: Flow): int {
    |w.accepted| - |w.delivered|
  }

  function Put(w: Flow, s: seq<byte>): Flow {
    w.(accepted := w.accepted + s)
  }

  function Min(a: int, b: int): int {
    if a < b then a else b
  }

  /** The next bytes out, at most n. */
  function Next(w: Flow, n: nat): (s: seq<byte>)
    requires FlowOk(w)
    ensures |s| == Min(n, Waiting(w))
  {
    w.accepted[|w.delivered|..|w.delivered| + Min(n, Waiting(w))]
  }

  function Take(w: Flow, n: nat): Flow
    requires FlowOk(w)
  {
    w.(delivered := w.delivered + Next(w, n))
  }

  // ------------------------------------------------ wrap-around

  lemma CountersTell(w: nat, r: nat)
    requires r <= w <= r + PIPESIZE
    ensures w % UINT_LIMIT == (r % UINT_LIMIT + PIPESIZE) % UINT_LIMIT <==> w == r + PIPESIZE
    ensures w % UINT_LIMIT == r % UINT_LIMIT <==> w == r
    ensures (w % UINT_LIMIT - r % UINT_LIMIT) % UINT_LIMIT == w - r
  {
  }

  lemma SlotOfCounter(w: nat)
    ensures (w % UINT_LIMIT) % PIPESIZE == w % PIPESIZE
    ensures (w % UINT_LIMIT + 1) % UINT_LIMIT == (w + 1) % UINT_LIMIT
  {
  }

  lemma SlotsApart(w: nat, k: nat)
    requires k < w < k + PIPESIZE
    ensures w % PIPESIZE != k % PIPESIZE
  {
  }

  /** pipewrite() goes to sleep, gives up, or has written everything. */
  datatype WriteEnd = Blocked(done: nat) | Failed(done: nat) | Done(done: nat)

  /** piperead() goes to sleep, gives up, or returns some bytes. */
  datatype ReadEnd = Empty | Killed | Got(bytes: seq<byte>)

  class Pipe {
    const data: array<byte>
    var nread: uint
    var nwrite: uint
    var readopen: bool
    var writeopen: bool
    ghost var flow: Flow

    ghost predicate Valid()
      reads this, data
    {
      && data.Length == PIPESIZE && FlowOk(flow)
      && nread == |flow.delivered| % UINT_LIMIT && nwrite == |flow.accepted| % UINT_LIMIT
      && forall k :: |flow.delivered| <= k < |flow.accepted| ==> data[k % PIPESIZE] == flow.accepted[k]
    }

    /** pipealloc(). */
    constructor ()
      ensures Valid() && flow == Flow([], []) && readopen && writeopen && fresh(data)
    {
      data := new byte[PIPESIZE](_ => 0);
      nread, nwrite, readopen, writeopen := 0, 0, true, true;
      flow := Flow([], []);
    }

    /** The counters, as the code compares them, tell how many bytes wait: nwrite - nread is at most PIPESIZE. */
    lemma CountersInRange()
      requires Valid()
      ensures nwrite == (nread + PIPESIZE) % UINT_LIMIT <==> Waiting(flow) == PIPESIZE
      ensures nwrite == nread <==> Waiting(flow) == 0
      ensures 0 <= (nwrite - nread) % UINT_LIMIT <= PIPESIZE && (nwrite - nread) % UINT_LIMIT == Waiting(flow)
    {
      CountersTell(|flow.accepted|, |flow.delivered|);
    }

    /** p->data[p->nwrite++ % PIPESIZE] = b. */
    method PutByte(b: byte)
      requires Valid() && Waiting(flow) < PIPESIZE
      modifies this`nwrite, this`flow, data
      ensures Valid() && flow == Put(old(flow), [b])
    {
      ghost var w, r := |flow.accepted|, |flow.delivered|;
      SlotOfCounter(w);
      data[nwrite % PIPESIZE] := b;
      nwrite := (nwrite + 1) % UINT_LIMIT;
      flow := Put(flow, [b]);
      forall k | r <= k < w + 1 ensures data[k % PIPESIZE] == flow.accepted[k] {
        if k < w {
          SlotsApart(w, k);
        }
      }
    }

    /** addr[i] = p->data[p->nread++ % PIPESIZE]. */
    method TakeByte() returns (b: byte)
      requires Valid() && Waiting(flow) > 0
      modifies this`nread, this`flow
      ensures Valid() && b == old(flow).accepted[|old(flow).delivered|]
      ensures flow == old(flow).(delivered := old(flow).delivered + [b])
    {
      ghost var r := |flow.delivered|;
      SlotOfCounter(r);
      b := data[nread % PIPESIZE];
      nread := (nread + 1) % UINT_LIMIT;
      flow := flow.(delivered := flow.delivered + [b]);
    }

    /** pipeclose() of one end; true if it was the last one, and the pipe is freed. */
    method Close(writable: bool) returns (freed: bool)
      requires Valid()
      modifies this`readopen, this`writeopen
      ensures Valid()
      ensures writeopen == (old(writeopen) && !writable) && readopen == (old(readopen) && writable)
      ensures freed <==> !readopen && !writeopen
    {
      if writable {
        writeopen := false;
      } else {
        readopen := false;
      }
      return !readopen && !writeopen;
    }

    /** pipewrite() from byte i on, until it sleeps, gives up or is done. */
    method WriteOn(src: seq<byte>, i: nat, killed: bool) returns (r: WriteEnd)
      requires Valid() && i <= |src|
      modifies this`nwrite, this`flow, data
      ensures Valid() && i <= r.done <= |src| && flow == Put(old(flow), src[i..r.done])
      ensures r.done == i + Min(|src| - i, PIPESIZE - Waiting(old(flow)))
      ensures r.Done? <==> r.done == |src|
      ensures r.Failed? <==> r.done < |src| && (!readopen || killed)
    {
      var k := i;
      assert src[i..k] == [];
      while k < |src|
        invariant i <= k <= |src| && Valid() && flow == Put(old(flow), src[i..k])
      {
        CountersInRange();
        if nwrite == (nread + PIPESIZE) % UINT_LIMIT {
          return if !readopen || killed then Failed(k) else Blocked(k);
        }
        PutByte(src[k]);
        assert src[i..k] + [src[k]] == src[i..k + 1];
        k := k + 1;
      }
      return Done(k);
    }

    /** piperead() once it may look: it sleeps, gives up, or copies what there is. */
    method ReadOn(n: nat, killed: bool) returns (r: ReadEnd)
      requires Valid()
      modifies this`nread, this`flow
      ensures Valid()
      ensures r.Got? <==> Waiting(old(flow)) > 0 || !writeopen
      ensures r.Killed? <==> !r.Got? && killed
      ensures r.Got? ==> r.bytes == Next(old(flow), n) && flow == Take(old(flow), n)
      ensures !r.Got? ==> flow == old(flow)
    {
      CountersInRange();
      if nread == nwrite && writeopen {
        return if killed then Killed else Empty;
      }
      var dst := Drain(n);
      return Got(dst);
    }

    /** piperead()'s copying loop. */
    method Drain(n: nat) returns (dst: seq<byte>)
      requires Valid()
      modifies this`nread, this`flow
      ensures Valid() && dst == Next(old(flow), n) && flow == Take(old(flow), n)
    {
      ghost var w := flow;
      dst := [];
      var i := 0;
      while i < n
        invariant i <= n && i <= Waiting(w) && Valid()
        invariant dst == w.accepted[|w.delivered|..|w.delivered| + i] && flow == w.(delivered := w.delivered + dst)
      {
        CountersInRange();
        if nread == nwrite {
          break;
        }
        var b := TakeByte();
        dst := dst + [b];
        i := i + 1;
      }
    }
  }
}
