/**
 * FixedSizedQueue: a FIFO with a limit, used for plot histories. Adding an
 * element or lowering the limit drops the oldest elements until the count is
 * back within the limit. The three copies in the repository behave alike, so
 * one class models them; the queue's contents are a sequence, oldest first.
 */
module Queues {

  function Max(a: int, b: int): int { if a < b then b else a }

  /**
   * Reference definition of what survives a shrink: the newest `limit`
   * elements, all of them when there are fewer, none when `limit` is not
   * positive (dequeueing stops only once the queue is empty).
   */
  function Newest<T>(s: seq<T>, limit: int): (r: seq<T>)
    ensures |r| <= Max(limit, 0) && |r| <= |s|
    ensures r == s[|s| - |r|..]
  {
    if limit <= 0 then []
    else if |s| <= limit then s
    else s[|s| - limit..]
  }

  /** Nothing is dropped while the sequence fits, and only the surplus is dropped otherwise. */
  lemma NewestKeepsAllThatFits<T>(s: seq<T>, limit: int)
    ensures |Newest(s, limit)| == if limit <= 0 then 0 else if |s| <= limit then |s| else limit
    ensures |s| <= limit ==> Newest(s, limit) == s
  {
  }

  /**
   * A bounded queue is the unbounded history cut to the limit: shrinking before
   * an append and shrinking once after it give the same contents.
   */
  lemma NewestAppend<T>(s: seq<T>, x: T, limit: int)
    ensures Newest(Newest(s, limit) + [x], limit) == Newest(s + [x], limit)
  {
    if 0 < limit && limit < |s| {
      var t := s[|s| - limit..];
      assert (t + [x])[1..] == (s + [x])[|s| + 1 - limit..];
    }
  }

  /** Shrinking twice keeps the newest elements under the smaller of the two limits. */
  lemma NewestTwice<T>(s: seq<T>, a: int, b: int)
    ensures Newest(Newest(s, a), b) == Newest(s, if a < b then a else b)
  {
  }

  class FixedSizedQueue<T> {
    /** The underlying Queue, front (oldest) first. */
    var queue: seq<T>
    var limit: int

    ghost predicate Valid()
      reads this
    {
      |queue| <= Max(limit, 0)
    }

    /** `new FixedSizedQueue(limit)` assigns the Limit property, which shrinks the (empty) queue. */
    constructor (limit: int)
      ensures Valid()
      ensures this.limit == limit && queue == []
    {
      queue := [];
      this.limit := limit;
    }

    function Count(): (n: nat)
      reads this
      ensures n == |queue|
    {
      |queue|
    }

    /** Enumeration and ToArray: the elements oldest first. */
    function Elements(): (es: seq<T>)
      reads this
      ensures |es| == Count()
      ensures forall i :: 0 <= i < |es| ==> es[i] == queue[i]
    {
      queue
    }

    /** Queue.TryDequeue: drop the front element if there is one. */
    method TryDequeue() returns (ok: bool)
      modifies this
      ensures ok <==> old(queue) != []
      ensures queue == if ok then old(queue)[1..] else old(queue)
      ensures limit == old(limit)
    {
      if queue == [] {
        ok := false;
      } else {
        queue := queue[1..];
        ok := true;
      }
    }

    /** Dequeue while the count exceeds the limit and a dequeue succeeds. */
    method Shrink()
      modifies this
      ensures Valid()
      ensures queue == Newest(old(queue), limit)
      ensures limit == old(limit)
    {
      while |queue| > limit
        invariant limit == old(limit)
        invariant |queue| <= |old(queue)|
        invariant queue == old(queue)[|old(queue)| - |queue|..]
        invariant |Newest(old(queue), limit)| <= |queue|
        decreases |queue|
      {
        var dequeued := TryDequeue();
        if !dequeued {
          break;
        }
      }
    }

    /** Limit setter: store the new limit, then shrink. */
    method SetLimit(value: int)
      modifies this
      ensures Valid()
      ensures limit == value
      ensures queue == Newest(old(queue), value)
    {
      limit := value;
      Shrink();
    }

    /** Append at the back, then shrink. */
    method Enqueue(x: T)
      modifies this
      ensures Valid()
      ensures limit == old(limit)
      ensures queue == Newest(old(queue) + [x], limit)
    {
      queue := queue + [x];
      Shrink();
    }

    method Clear()
      modifies this
      ensures Valid()
      ensures queue == [] && limit == old(limit)
    {
      queue := [];
    }
  }

  /** The contents after enqueueing `xs` one by one into a queue holding `s`. */
  function Fed<T>(s: seq<T>, xs: seq<T>, limit: int): seq<T>
    decreases |xs|
  {
    if xs == [] then s else Fed(Newest(s + [xs[0]], limit), xs[1..], limit)
  }

  /**
   * Feeding a queue a stream of values leaves exactly the newest `limit`
   * values of everything it was ever given.
   */
  lemma {:induction false} FedKeepsNewest<T>(s: seq<T>, xs: seq<T>, limit: int)
    ensures Fed(Newest(s, limit), xs, limit) == Newest(s + xs, limit)
    decreases |xs|
  {
    if xs == [] {
      NewestTwice(s, limit, limit);
      assert s + xs == s;
    } else {
      var s' := s + [xs[0]];
      calc {
        Fed(Newest(s, limit), xs, limit);
        Fed(Newest(Newest(s, limit) + [xs[0]], limit), xs[1..], limit);
        { NewestAppend(s, xs[0], limit); }
        Fed(Newest(s', limit), xs[1..], limit);
        { FedKeepsNewest(s', xs[1..], limit); }
        Newest(s' + xs[1..], limit);
        { assert s' + xs[1..] == s + xs; }
        Newest(s + xs, limit);
      }
    }
  }
}
