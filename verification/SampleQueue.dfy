/**
 The queue between a data channel and the session: `LockFreeBuffer` (lockfree_buffer.h) with every
 operation one atomic step, and the two loops that drain it (redac/session.py).
 */
module SampleQueue {
  import opened Common

  function Total(q: seq<seq<byte>>): nat {
    if q == [] then 0 else |q[0]| + Total(q[1..])
  }

  lemma {:induction false} TotalOfAppend(q: seq<seq<byte>>, item: seq<byte>)
    ensures Total(q + [item]) == Total(q) + |item|
  {
    if q != [] {
      assert (q + [item])[1..] == q[1..] + [item];
      TotalOfAppend(q[1..], item);
    }
  }

  /** What one `get` with room for `cap` bytes returns; the empty item stands for a result of zero. */
  function Got(q: seq<seq<byte>>, cap: nat): seq<byte> {
    if q == [] || |q[0]| > cap then [] else q[0]
  }

  /** What it leaves: an item too large for the caller goes to the back of the queue. */
  function Left(q: seq<seq<byte>>, cap: nat): seq<seq<byte>> {
    if q == [] then [] else if |q[0]| > cap then q[1..] + [q[0]] else q[1..]
  }

  class LockFreeBuffer {
    const slotSize: nat
    var queue: seq<seq<byte>>
    var len: nat
    var size: nat

    ghost predicate Valid()
      reads this
    {
      len == |queue| && size == Total(queue) && forall item :: item in queue ==> |item| <= slotSize
    }

    constructor (slotSize: nat)
      ensures Valid() && queue == [] && this.slotSize == slotSize
    {
      this.slotSize, queue, len, size := slotSize, [], 0, 0;
    }

    method TryPut(item: seq<byte>) returns (ok: bool)
      requires Valid()
      modifies this
      ensures Valid() && ok == (|item| <= slotSize)
      ensures queue == if ok then old(queue) + [item] else old(queue)
    {
      if |item| > slotSize {
        return false;
      }
      TotalOfAppend(queue, item);
      queue := queue + [item];
      len := len + 1;
      size := size + |item|;
      ok := true;
    }

    method Get(bufferSize: nat) returns (item: seq<byte>)
      requires Valid()
      modifies this
      ensures Valid() && item == Got(old(queue), bufferSize) && queue == Left(old(queue), bufferSize)
    {
      if queue == [] {
        return [];
      }
      var slot := queue[0];
      queue := queue[1..];
      if |slot| > bufferSize {
        TotalOfAppend(queue, slot);
        queue := queue + [slot];
        return [];
      }
      len := len - 1;
      size := size - |slot|;
      item := slot;
    }

    /** `_drain_output_queue` and the inner loop of `_continuous_drain`: get until the first zero. */
    method Drain(bufferSize: nat) returns (blobs: seq<seq<byte>>)
      requires Valid()
      modifies this
      ensures Valid()
      ensures blobs == old(queue)[..Taken(old(queue), bufferSize)]
      ensures queue == Left(old(queue)[|blobs|..], bufferSize)
    {
      hide Taken, Total;
      blobs := [];
      ghost var was := queue;
      while true
        invariant Valid() && was == blobs + queue
        invariant Taken(was, bufferSize) == |blobs| + Taken(queue, bufferSize)
        decreases |queue|
      {
        ghost var before := queue;
        var item := Get(bufferSize);
        if |item| == 0 {
          DrainEnds(blobs, before, bufferSize);
          break;
        }
        DrainGoesOn(blobs, before, bufferSize);
        blobs := blobs + [item];
      }
    }
  }

  lemma DrainEnds(blobs: seq<seq<byte>>, queue: seq<seq<byte>>, cap: nat)
    requires Got(queue, cap) == []
    ensures Taken(queue, cap) == 0 && (blobs + queue)[..|blobs|] == blobs && (blobs + queue)[|blobs|..] == queue
  {
  }

  lemma DrainGoesOn(blobs: seq<seq<byte>>, queue: seq<seq<byte>>, cap: nat)
    requires Got(queue, cap) != []
    ensures queue != [] && Taken(queue, cap) == 1 + Taken(queue[1..], cap) && Got(queue, cap) == queue[0]
    ensures blobs + queue == (blobs + [queue[0]]) + queue[1..]
  {
  }

  /** How many items a drain delivers: the leading ones that are neither empty nor too large. */
  function Taken(q: seq<seq<byte>>, cap: nat): (n: nat)
    ensures n <= |q|
    ensures forall k :: 0 <= k < n ==> 0 < |q[k]| <= cap
    ensures n < |q| ==> |q[n]| == 0 || |q[n]| > cap
  {
    if q == [] || |q[0]| == 0 || |q[0]| > cap then 0 else 1 + Taken(q[1..], cap)
  }

  /** A drain delivers the whole queue, and empties it, exactly when every item is non-empty and fits the
      scratch buffer. */
  lemma DrainsEverything(q: seq<seq<byte>>, cap: nat)
    ensures Taken(q, cap) == |q| <==> forall item :: item in q ==> 0 < |item| <= cap
  {
    if Taken(q, cap) < |q| {
      assert q[Taken(q, cap)] in q;
    }
  }

  /** One item that does not fit goes to the back and hides everything queued behind it from this drain. */
  lemma OversizeHides(a: seq<seq<byte>>, big: seq<byte>, b: seq<seq<byte>>, cap: nat)
    requires |big| > cap && forall item :: item in a ==> 0 < |item| <= cap
    ensures var q := a + [big] + b;
            q[..Taken(q, cap)] == a && Left(q[Taken(q, cap)..], cap) == b + [big]
  {
    var q := a + [big] + b;
    assert forall k :: 0 <= k < |a| ==> q[k] == a[k] && 0 < |q[k]| <= cap;
    assert q[|a|] == big && q[|a|..] == [big] + b;
    assert Taken(q, cap) == |a|;
    assert ([big] + b)[1..] == b;
  }
}
