/** The bounded queues between the LAN side and the upstream socket. put_nowait and get_nowait
    are atomic, as the queue's own lock makes them; a put that evicts is several of them. */
module Queueing {
  import opened Wrappers

  function LastN<T>(s: seq<T>, n: nat): seq<T> {
    if |s| <= n then s else s[|s| - n..]
  }

  /** Python's queue.Queue with put_nowait and get_nowait. */
  class BoundedQueue<T> {
    const cap: nat
    var items: seq<T>

    ghost predicate Valid()
      reads this
    {
      1 <= cap && |items| <= cap
    }

    constructor (maxSize: int)
      ensures Valid() && items == []
      ensures cap == if maxSize < 1 then 1 else maxSize
    {
      cap := if maxSize < 1 then 1 else maxSize;
      items := [];
    }

    /** False stands for queue.Full. */
    method PutNowait(item: T) returns (ok: bool)
      requires Valid()
      modifies this
      ensures Valid()
      ensures ok <==> |old(items)| < cap
      ensures items == if ok then old(items) + [item] else old(items)
    {
      ok := |items| < cap;
      if ok {
        items := items + [item];
      }
    }

    /** None stands for queue.Empty. */
    method GetNowait() returns (item: Option<T>)
      requires Valid()
      modifies this
      ensures Valid()
      ensures item == if old(items) == [] then None else Some(old(items)[0])
      ensures items == if old(items) == [] then [] else old(items)[1..]
    {
      if items == [] { return None; }
      item := Some(items[0]);
      items := items[1..];
    }
  }

  /** The lossy queue for sensor packets. */
  class DropOldestQueue<T> {
    const queue: BoundedQueue<T>
    var dropped: nat

    constructor (maxSize: int)
      ensures fresh(queue) && queue.Valid() && queue.items == [] && dropped == 0
    {
      queue := new BoundedQueue(maxSize);
      dropped := 0;
    }

    /** A put that no get comes in between of. */
    method Put(item: T)
      requires queue.Valid()
      modifies this, queue
      ensures queue.Valid()
      ensures (queue.items, dropped) == PutStep(queue.cap, old(queue.items), old(dropped), item)
    {
      ghost var gone := 0;
      while true
        invariant queue.Valid() && gone <= |old(queue.items)| && gone <= 1
        invariant queue.items == old(queue.items)[gone..] && dropped == old(dropped) + gone
        invariant gone > 0 ==> |old(queue.items)| == queue.cap
        decreases |queue.items|
      {
        var ok := queue.PutNowait(item);
        if ok {
          assert (old(queue.items) + [item])[gone..] == old(queue.items)[gone..] + [item];
          return;
        }
        var oldest := queue.GetNowait();
        if oldest.None? { return; }
        dropped := dropped + 1;
        gone := gone + 1;
      }
    }

    method Get() returns (item: Option<T>)
      requires queue.Valid()
      modifies queue
      ensures queue.Valid() && dropped == old(dropped)
      ensures item == if old(queue.items) == [] then None else Some(old(queue.items)[0])
      ensures queue.items == if old(queue.items) == [] then [] else old(queue.items)[1..]
    {
      item := queue.GetNowait();
    }
  }

  /** Content and drop count after a put. */
  function PutStep<T>(cap: nat, items: seq<T>, dropped: nat, item: T): (seq<T>, nat) {
    (LastN(items + [item], cap), if |items| < cap then dropped else dropped + 1)
  }

  // ---------------------------------------------------------------------
  // Runs of whole puts and gets

  datatype Op<T> = Put(item: T) | Get

  /** `arrived` is every item ever put; `taken` holds the positions, in `arrived`, of the
      items that gets returned. */
  datatype Log<T> = Log(items: seq<T>, dropped: nat, arrived: seq<T>, taken: seq<nat>)

  function StepOp<T>(cap: nat, l: Log<T>, op: Op<T>): Log<T> {
    match op
    case Put(x) =>
      var (items, dropped) := PutStep(cap, l.items, l.dropped, x);
      Log(items, dropped, l.arrived + [x], l.taken)
    case Get =>
      if l.items == [] then l
      else Log(l.items[1..], l.dropped, l.arrived, l.taken + [|l.taken| + l.dropped])
  }

  function Run<T>(cap: nat, ops: seq<Op<T>>): Log<T> {
    if ops == [] then Log([], 0, [], []) else StepOp(cap, Run(cap, ops[..|ops| - 1]), ops[|ops| - 1])
  }

  ghost predicate InOrder(taken: seq<nat>, bound: nat) {
    && (forall i, j :: 0 <= i < j < |taken| ==> taken[i] < taken[j])
    && (forall i :: 0 <= i < |taken| ==> taken[i] < bound)
  }

  /** The positions in `arrived` before the held items. */
  function Passed<T>(l: Log<T>): int { |l.arrived| - |l.items| }

  ghost predicate Conserved<T>(cap: nat, l: Log<T>) {
    && |l.items| <= cap
    && |l.arrived| == |l.taken| + l.dropped + |l.items|
    && l.items == l.arrived[Passed(l)..]
    && InOrder(l.taken, Passed(l))
    && (forall i: nat :: i < Passed(l) && i !in l.taken ==> |l.arrived| - i > cap)
  }

  lemma PutConserves<T>(cap: nat, l: Log<T>, x: T)
    requires cap >= 1 && Conserved(cap, l)
    ensures Conserved(cap, StepOp(cap, l, Put(x)))
  {
    assert (l.arrived + [x])[Passed(l)..] == l.items + [x];
  }

  lemma GetConserves<T>(cap: nat, l: Log<T>)
    requires Conserved(cap, l)
    ensures Conserved(cap, StepOp(cap, l, Get))
  {
    var l' := StepOp(cap, l, Get);
    if l.items != [] {
      assert l.arrived[Passed(l) + 1..] == l.items[1..];
      forall i: nat | i < Passed(l') && i !in l'.taken
        ensures |l'.arrived| - i > cap
      {
        assert l'.taken[|l.taken|] == Passed(l);
        assert forall t :: t in l.taken ==> t in l'.taken;
      }
    }
  }

  /** Main result: puts = gets + dropped + held; what is held is the newest items, in
      order; gets come in arrival order; an item is lost only once `cap` newer arrived. */
  lemma {:induction false} DataQueueConserves<T>(cap: nat, ops: seq<Op<T>>)
    requires cap >= 1
    ensures Conserved(cap, Run(cap, ops))
  {
    if ops != [] {
      var front, last := ops[..|ops| - 1], ops[|ops| - 1];
      DataQueueConserves(cap, front);
      match last
      case Put(x) => PutConserves(cap, Run(cap, front), x);
      case Get => GetConserves(cap, Run(cap, front));
    }
  }
}
