/** The lossy queue with gets coming in between the steps of a put. */
module InterleavedPut {
  import opened Queueing

  /** Where the producer is: about to put its item, or about to evict the oldest after it
      found the queue full, `gets` items having been taken since. */
  datatype Producer<T> = Idle | Putting(item: T) | Evicting(item: T, gets: nat)

  /** `stored` is every item that got into the queue, `taken` the positions in it of those
      that gets returned; `lost` counts the puts that returned without storing. */
  datatype Line<T> = Line(
    items: seq<T>,
    dropped: nat,
    producer: Producer<T>,
    begun: nat,
    lost: nat,
    stored: seq<T>,
    taken: seq<nat>)

  datatype Act<T> = Begin(item: T) | PutNowait | EvictNowait | GetNowait

  function Step<T>(cap: nat, l: Line<T>, a: Act<T>): Line<T> {
    match (a, l.producer)
    case (Begin(x), Idle) => l.(producer := Putting(x), begun := l.begun + 1)
    case (PutNowait, Putting(x)) =>
      if |l.items| < cap then l.(items := l.items + [x], stored := l.stored + [x], producer := Idle)
      else l.(producer := Evicting(x, 0))
    case (EvictNowait, Evicting(x, _)) =>
      if l.items == [] then l.(lost := l.lost + 1, producer := Idle)
      else l.(items := l.items[1..], dropped := l.dropped + 1, producer := Putting(x))
    case (GetNowait, p) =>
      if l.items == [] then l
      else
        l.(items := l.items[1..], taken := l.taken + [|l.taken| + l.dropped],
           producer := if p.Evicting? then p.(gets := p.gets + 1) else p)
    case _ => l
  }

  function Run<T>(cap: nat, acts: seq<Act<T>>): Line<T> {
    if acts == [] then Line([], 0, Idle, 0, 0, [], [])
    else Step(cap, Run(cap, acts[..|acts| - 1]), acts[|acts| - 1])
  }

  ghost predicate Balanced<T>(cap: nat, l: Line<T>) {
    && |l.items| <= cap
    && l.begun == |l.stored| + l.lost + (if l.producer.Idle? then 0 else 1)
    && |l.stored| == |l.taken| + l.dropped + |l.items|
    && l.items == l.stored[|l.stored| - |l.items|..]
    && InOrder(l.taken, |l.stored| - |l.items|)
    && (l.producer.Evicting? ==> |l.items| + l.producer.gets == cap)
  }

  lemma StepBalances<T>(cap: nat, l: Line<T>, a: Act<T>)
    requires Balanced(cap, l)
    ensures Balanced(cap, Step(cap, l, a))
  {
    var l' := Step(cap, l, a);
    var held := |l.stored| - |l.items|;
    match (a, l.producer) {
      case (PutNowait, Putting(x)) =>
        assert (l.stored + [x])[held..] == l.items + [x];
      case (EvictNowait, Evicting(_, _)) =>
        assert l.items != [] ==> l.stored[held + 1..] == l.items[1..];
      case (GetNowait, _) =>
        assert l.items != [] ==> l.stored[held + 1..] == l.items[1..];
      case _ =>
    }
  }

  /** Main result, gets interleaved with the steps of a put: puts = gets + dropped + held +
      lost + the one under way; what is held is the newest stored items, in order. */
  lemma {:induction false} InterleavedConserves<T>(cap: nat, acts: seq<Act<T>>)
    ensures Balanced(cap, Run(cap, acts))
  {
    if acts != [] {
      InterleavedConserves(cap, acts[..|acts| - 1]);
      StepBalances(cap, Run(cap, acts[..|acts| - 1]), acts[|acts| - 1]);
    }
  }

  /** An item is lost without being counted exactly when its put found the queue full and gets
      then emptied it, all `cap` items, before the put could evict one. */
  lemma LostExactly<T>(cap: nat, acts: seq<Act<T>>, a: Act<T>)
    ensures var l := Run(cap, acts);
            && Step(cap, l, a).lost <= l.lost + 1
            && (Step(cap, l, a).lost == l.lost + 1 <==>
                a.EvictNowait? && l.producer.Evicting? && l.producer.gets == cap)
  {
    InterleavedConserves(cap, acts);
  }
}
