/** The control queue and the rate counters of the upstream client. */
module Upstream {
  import opened Wrappers
  import opened Queueing

  const GATEWAY_STATUS := "gateway_status"

  /** `stamp` numbers the status puts from 1; the program keeps no such number, and no
      decision depends on it. */
  datatype Message = Message(kind: string, body: string, stamp: nat)

  function Without(q: seq<Message>, kind: string): (r: seq<Message>)
    ensures |r| <= |q|
  {
    if q == [] then []
    else (if q[0].kind == kind then [] else [q[0]]) + Without(q[1..], kind)
  }

  /** The queue after a put; an empty `coalesce` replaces nothing. */
  function PutControl(cap: nat, q: seq<Message>, m: Message, coalesce: string): seq<Message> {
    LastN((if coalesce == "" then q else Without(q, coalesce)) + [m], cap)
  }

  class ControlQueue {
    const queue: BoundedQueue<Message>

    constructor (size: int)
      ensures fresh(queue) && queue.Valid() && queue.items == []
    {
      queue := new BoundedQueue(size);
    }

    /** Empties the queue, returning what is not of this kind. */
    method Drain(kind: string) returns (retained: seq<Message>)
      requires queue.Valid()
      modifies queue
      ensures queue.Valid() && queue.items == [] && retained == Without(old(queue.items), kind)
    {
      retained := [];
      while true
        invariant queue.Valid()
        invariant retained + Without(queue.items, kind) == Without(old(queue.items), kind)
        decreases |queue.items|
      {
        var item := queue.GetNowait();
        if item.None? { break; }
        if item.value.kind == kind { continue; }
        ghost var rest := Without(queue.items, kind);
        assert retained + ([item.value] + rest) == retained + [item.value] + rest;
        retained := retained + [item.value];
      }
    }

    /** Drains the queue and puts back what is to be kept. The refill never finds the
        queue full: were it to stop early, the content could not be the whole filter. */
    method DropQueuedControlType(kind: string)
      requires queue.Valid()
      modifies queue
      ensures queue.Valid() && queue.items == Without(old(queue.items), kind)
    {
      var retained := Drain(kind);
      var i := 0;
      while i < |retained|
        invariant queue.Valid() && i <= |retained| <= queue.cap && queue.items == retained[..i]
      {
        var ok := queue.PutNowait(retained[i]);
        if !ok { break; }
        i := i + 1;
      }
    }

    method Put(m: Message, coalesce: string)
      requires queue.Valid()
      modifies queue
      ensures queue.Valid() && queue.items == PutControl(queue.cap, old(queue.items), m, coalesce)
    {
      if coalesce != "" {
        DropQueuedControlType(coalesce);
      }
      ghost var start := queue.items;
      ghost var gone := 0;
      while true
        invariant queue.Valid() && gone <= |start| && gone <= 1 && queue.items == start[gone..]
        invariant gone > 0 ==> |start| == queue.cap
        decreases |queue.items|
      {
        var ok := queue.PutNowait(m);
        if ok { return; }
        var oldest := queue.GetNowait();
        if oldest.None? { return; }
        gone := gone + 1;
      }
    }

    /** The sender's first half; its second is nothing, or Put(m, "") if the socket failed. */
    method Take() returns (m: Option<Message>)
      requires queue.Valid()
      modifies queue
      ensures queue.Valid()
      ensures m == if old(queue.items) == [] then None else Some(old(queue.items)[0])
      ensures queue.items == if old(queue.items) == [] then [] else old(queue.items)[1..]
    {
      m := queue.GetNowait();
    }
  }

  // ---------------------------------------------------------------------
  // What a put keeps

  /** Dropping a type keeps the others, in order. */
  lemma {:induction false} WithoutJoins(a: seq<Message>, b: seq<Message>, kind: string)
    ensures Without(a + b, kind) == Without(a, kind) + Without(b, kind)
    ensures |a| == 1 ==> Without(a, kind) == if a[0].kind == kind then [] else a
  {
    if a == [] {
      assert a + b == b;
    } else {
      assert (a + b)[1..] == a[1..] + b;
      WithoutJoins(a[1..], b, kind);
    }
  }

  /** Main result: a put leaves the new message last, and before it the newest of the others that
      are kept, in order and as many as there is room for; only a coalescing put drops any
      that there is room for, and only of its own type. */
  lemma PutKeepsNewest(cap: nat, q: seq<Message>, m: Message, coalesce: string)
    requires cap >= 1
    ensures var kept := if coalesce == "" then q else Without(q, coalesce);
            var r := PutControl(cap, q, m, coalesce);
            && r != [] && r[|r| - 1] == m
            && |r| == (if |kept| + 1 <= cap then |kept| + 1 else cap)
            && r[..|r| - 1] == kept[|kept| + 1 - |r|..]
  {
    var kept := if coalesce == "" then q else Without(q, coalesce);
    assert (kept + [m])[..|kept|] == kept;
  }

  // ---------------------------------------------------------------------
  // One status at a time

  function Count(q: seq<Message>, kind: string): nat {
    if q == [] then 0 else (if q[0].kind == kind then 1 else 0) + Count(q[1..], kind)
  }

  lemma {:induction false} CountAppend(a: seq<Message>, b: seq<Message>, kind: string)
    ensures Count(a + b, kind) == Count(a, kind) + Count(b, kind)
  {
    if a == [] {
      assert a + b == b;
    } else {
      assert (a + b)[1..] == a[1..] + b;
      CountAppend(a[1..], b, kind);
    }
  }

  lemma {:induction false} WithoutCountsNone(q: seq<Message>, kind: string)
    ensures Count(Without(q, kind), kind) == 0
  {
    if q != [] {
      WithoutCountsNone(q[1..], kind);
      CountAppend(if q[0].kind == kind then [] else [q[0]], Without(q[1..], kind), kind);
    }
  }

  lemma LastNCounts(q: seq<Message>, n: nat, kind: string)
    ensures Count(LastN(q, n), kind) <= Count(q, kind)
  {
    if |q| > n {
      CountAppend(q[..|q| - n], LastN(q, n), kind);
      assert q[..|q| - n] + LastN(q, n) == q;
    }
  }

  /** Main result: whatever the queue held, a status put leaves exactly one status, the
      new one, at the end. */
  lemma StatusPutLeavesNewest(cap: nat, q: seq<Message>, m: Message)
    requires cap >= 1 && m.kind == GATEWAY_STATUS
    ensures var r := PutControl(cap, q, m, GATEWAY_STATUS);
            && Count(r, GATEWAY_STATUS) == 1 && r != [] && r[|r| - 1] == m
            && |r| <= cap
  {
    var kept := Without(q, GATEWAY_STATUS);
    WithoutCountsNone(q, GATEWAY_STATUS);
    var r := LastN(kept + [m], cap);
    var front := r[..|r| - 1];
    assert r == front + [m] && front == LastN(kept, cap - 1);
    LastNCounts(kept, cap - 1, GATEWAY_STATUS);
    CountAppend(front, [m], GATEWAY_STATUS);
  }

  /** A put that does not coalesce, such as the one that returns an unsent message,
      leaves one status more than the newest cap - 1 messages held. */
  lemma PlainPutCounts(cap: nat, q: seq<Message>, m: Message)
    requires cap >= 1
    ensures Count(PutControl(cap, q, m, ""), GATEWAY_STATUS)
         == Count(LastN(q, cap - 1), GATEWAY_STATUS) + if m.kind == GATEWAY_STATUS then 1 else 0
  {
    assert LastN(q + [m], cap) == LastN(q, cap - 1) + [m];
    CountAppend(LastN(q, cap - 1), [m], GATEWAY_STATUS);
  }

  /** The queue, the message the sender has taken but not yet disposed of, and how many
      statuses have been put. */
  datatype Line = Line(queue: seq<Message>, flight: Option<Message>, puts: nat)

  datatype Op = Status(body: string) | Other(m: Message) | Take | Sent | Failed

  function Step(cap: nat, l: Line, op: Op): Line {
    match op
    case Status(body) =>
      var m := Message(GATEWAY_STATUS, body, l.puts + 1);
      l.(queue := PutControl(cap, l.queue, m, GATEWAY_STATUS), puts := l.puts + 1)
    case Other(m) => l.(queue := PutControl(cap, l.queue, m, ""))
    case Take => if l.flight.Some? || l.queue == [] then l else l.(queue := l.queue[1..], flight := Some(l.queue[0]))
    case Sent => l.(flight := None)
    case Failed =>
      if l.flight.None? then l
      else l.(queue := PutControl(cap, l.queue, l.flight.value, ""), flight := None)
  }

  function Run(cap: nat, ops: seq<Op>): Line {
    if ops == [] then Line([], None, 0) else Step(cap, Run(cap, ops[..|ops| - 1]), ops[|ops| - 1])
  }

  /** The client's other control messages are no statuses. */
  predicate Proper(op: Op) { op.Other? ==> op.m.kind != GATEWAY_STATUS }

  ghost predicate ProperRun(ops: seq<Op>) { forall k :: 0 <= k < |ops| ==> Proper(ops[k]) }

  predicate StatusInFlight(l: Line) { l.flight.Some? && l.flight.value.kind == GATEWAY_STATUS }

  function Statuses(l: Line): nat { Count(l.queue, GATEWAY_STATUS) + if StatusInFlight(l) then 1 else 0 }

  lemma StepStatuses(cap: nat, l: Line, op: Op)
    requires cap >= 1 && |l.queue| <= cap && Proper(op)
    ensures var l' := Step(cap, l, op);
            && |l'.queue| <= cap
            && (op.Status? ==> Statuses(l') == 1 + if StatusInFlight(l) then 1 else 0)
            && (!op.Status? ==> Statuses(l') <= Statuses(l))
  {
    match op {
      case Status(body) => StatusPutLeavesNewest(cap, l.queue, Message(GATEWAY_STATUS, body, l.puts + 1));
      case Other(m) =>
        PlainPutCounts(cap, l.queue, m);
        LastNCounts(l.queue, cap - 1, GATEWAY_STATUS);
      case Failed =>
        if l.flight.Some? {
          PlainPutCounts(cap, l.queue, l.flight.value);
          LastNCounts(l.queue, cap - 1, GATEWAY_STATUS);
        }
      case _ =>
    }
  }

  /** No status is put while the sender is busy with an earlier one. */
  ghost predicate NoOverlap(cap: nat, ops: seq<Op>) {
    forall k :: 0 <= k < |ops| && ops[k].Status? ==> !StatusInFlight(Run(cap, ops[..k]))
  }

  lemma NoOverlapBefore(cap: nat, ops: seq<Op>)
    requires ops != []
    ensures NoOverlap(cap, ops) ==> NoOverlap(cap, ops[..|ops| - 1])
    ensures NoOverlap(cap, ops) && ops[|ops| - 1].Status? ==> !StatusInFlight(Run(cap, ops[..|ops| - 1]))
  {
    var front := ops[..|ops| - 1];
    forall k | 0 <= k < |front|
      ensures front[..k] == ops[..k] && front[k] == ops[k]
    {}
  }

  /** Main result: over every run, failed sends included, at most two statuses are queued
      or in flight; at most one if no status is put while another is being sent. */
  lemma {:induction false} FewStatuses(cap: nat, ops: seq<Op>)
    requires cap >= 1 && ProperRun(ops)
    ensures |Run(cap, ops).queue| <= cap && Statuses(Run(cap, ops)) <= 2
    ensures NoOverlap(cap, ops) ==> Statuses(Run(cap, ops)) <= 1
  {
    if ops != [] {
      var n := |ops| - 1;
      var front := ops[..n];
      FewStatuses(cap, front);
      StepStatuses(cap, Run(cap, front), ops[n]);
      NoOverlapBefore(cap, ops);
    }
  }

  // ---------------------------------------------------------------------
  // Only the newest status is ever queued

  /** The newest status of the queue, or `older` when it holds none. */
  function Newest(q: seq<Message>, older: Message): Message {
    if q == [] then older
    else if q[|q| - 1].kind == GATEWAY_STATUS then q[|q| - 1]
    else Newest(q[..|q| - 1], older)
  }

  lemma {:induction false} NewestIsQueued(q: seq<Message>, older: Message)
    ensures if Count(q, GATEWAY_STATUS) == 0 then Newest(q, older) == older
            else Newest(q, older) in q && Newest(q, older).kind == GATEWAY_STATUS
  {
    if q != [] {
      var front, last := q[..|q| - 1], q[|q| - 1];
      assert q == front + [last];
      CountAppend(front, [last], GATEWAY_STATUS);
      NewestIsQueued(front, older);
      assert forall m :: m in front ==> m in q;
    }
  }

  lemma {:induction false} CountIsSome(q: seq<Message>, kind: string)
    ensures Count(q, kind) > 0 <==> exists m :: m in q && m.kind == kind
  {
    if q != [] {
      CountIsSome(q[1..], kind);
      assert q == [q[0]] + q[1..];
      assert q[0] in q;
      assert forall m :: m in q[1..] ==> m in q;
    }
  }

  /** When a status comes back from a failed send, the queue then holds one status and that
      is the newest there was, exactly when the queue held none at that moment. A newer one
      is either left in front of the older, or evicted by it. */
  lemma LateReturnExactly(cap: nat, q: seq<Message>, older: Message)
    requires cap >= 1 && older.kind == GATEWAY_STATUS && older !in q
    ensures var r := PutControl(cap, q, older, "");
            Count(r, GATEWAY_STATUS) == 1 && Newest(q, older) in r <==> Count(q, GATEWAY_STATUS) == 0
  {
    PlainPutCounts(cap, q, older);
    LastNCounts(q, cap - 1, GATEWAY_STATUS);
    NewestIsQueued(q, older);
    var front, newest := LastN(q, cap - 1), Newest(q, older);
    assert PutControl(cap, q, older, "") == front + [older];
    CountIsSome(front, GATEWAY_STATUS);
    if Count(q, GATEWAY_STATUS) > 0 && newest in front + [older] {
      assert newest in front;
    }
  }

  /** Every queued status is the latest put, so that there is at most one. */
  ghost predicate OnlyLatest(l: Line) {
    && Count(l.queue, GATEWAY_STATUS) <= 1
    && forall m :: m in l.queue && m.kind == GATEWAY_STATUS ==> m.stamp == l.puts
  }

  /** A status was put since the message in flight was taken. */
  predicate PutSinceTake(cap: nat, ops: seq<Op>) {
    if ops == [] then false
    else
      var front, last := ops[..|ops| - 1], ops[|ops| - 1];
      match last
      case Status(_) => true
      case Take => Run(cap, front).flight.Some? && PutSinceTake(cap, front)
      case _ => PutSinceTake(cap, front)
  }

  /** The k-th operation returns a status that a newer put has overtaken. */
  ghost predicate ReturnsOvertaken(cap: nat, ops: seq<Op>, k: int) {
    0 <= k < |ops| && ops[k].Failed? && StatusInFlight(Run(cap, ops[..k])) && PutSinceTake(cap, ops[..k])
  }

  /** What holds of the stamps on every run: none is from the future, and a status in
      flight is the latest put unless another was put since. */
  ghost predicate Stamped(l: Line, since: bool) {
    && (forall m :: m in l.queue && m.kind == GATEWAY_STATUS ==> m.stamp <= l.puts)
    && (StatusInFlight(l) ==> l.flight.value.stamp <= l.puts && (since ==> l.flight.value.stamp < l.puts))
  }

  lemma LastNHolds(q: seq<Message>, n: nat)
    ensures forall m :: m in LastN(q, n) ==> m in q
  {}

  lemma {:induction false} WithoutHolds(q: seq<Message>, kind: string)
    ensures forall m :: m in Without(q, kind) <==> m in q && m.kind != kind
  {
    if q != [] {
      WithoutHolds(q[1..], kind);
      assert q == [q[0]] + q[1..];
    }
  }

  /** What a put leaves in the queue. */
  lemma PutHolds(cap: nat, q: seq<Message>, m: Message, coalesce: string)
    requires cap >= 1
    ensures m in PutControl(cap, q, m, coalesce)
    ensures forall x :: x in PutControl(cap, q, m, coalesce) ==>
        x == m || (x in q && (coalesce == "" || x.kind != coalesce))
  {
    var kept := if coalesce == "" then q else Without(q, coalesce);
    WithoutHolds(q, coalesce);
    LastNHolds(kept + [m], cap);
    var r := PutControl(cap, q, m, coalesce);
    assert r[|r| - 1] == m;
  }

  lemma PutStamped(cap: nat, q: seq<Message>, m: Message, coalesce: string, puts: nat)
    requires cap >= 1 && forall x :: x in q + [m] && x.kind == GATEWAY_STATUS ==> x.stamp <= puts
    ensures forall x :: x in PutControl(cap, q, m, coalesce) && x.kind == GATEWAY_STATUS ==> x.stamp <= puts
  {
    PutHolds(cap, q, m, coalesce);
  }

  lemma StepStamped(cap: nat, l: Line, op: Op, since: bool)
    requires cap >= 1 && Proper(op) && Stamped(l, since)
    ensures Stamped(Step(cap, l, op), op.Status? || (since && (op.Take? ==> l.flight.Some?)))
  {
    match op {
      case Status(body) =>
        PutStamped(cap, l.queue, Message(GATEWAY_STATUS, body, l.puts + 1), GATEWAY_STATUS, l.puts + 1);
      case Other(m) => PutStamped(cap, l.queue, m, "", l.puts);
      case Failed =>
        if l.flight.Some? {
          PutStamped(cap, l.queue, l.flight.value, "", l.puts);
        }
      case _ =>
    }
  }

  lemma {:induction false} RunStamped(cap: nat, ops: seq<Op>)
    requires cap >= 1 && ProperRun(ops)
    ensures Stamped(Run(cap, ops), PutSinceTake(cap, ops))
  {
    if ops != [] {
      var front := ops[..|ops| - 1];
      RunStamped(cap, front);
      StepStamped(cap, Run(cap, front), ops[|ops| - 1], PutSinceTake(cap, front));
    }
  }

  /** With a status in flight that no newer one has overtaken, none is queued. */
  ghost predicate Alone(l: Line, since: bool) {
    OnlyLatest(l) &&
        (StatusInFlight(l) && !since ==> l.flight.value.stamp == l.puts && Count(l.queue, GATEWAY_STATUS) == 0)
  }

  lemma StepAlone(cap: nat, l: Line, op: Op, since: bool)
    requires cap >= 1 && Proper(op) && Alone(l, since) && !(op.Failed? && StatusInFlight(l) && since)
    ensures Alone(Step(cap, l, op), op.Status? || (since && (op.Take? ==> l.flight.Some?)))
  {
    hide PutControl;
    match op {
      case Status(body) =>
        PutHolds(cap, l.queue, Message(GATEWAY_STATUS, body, l.puts + 1), GATEWAY_STATUS);
        StatusPutLeavesNewest(cap, l.queue, Message(GATEWAY_STATUS, body, l.puts + 1));
      case Other(m) =>
        PutHolds(cap, l.queue, m, "");
        PlainPutCounts(cap, l.queue, m);
        LastNCounts(l.queue, cap - 1, GATEWAY_STATUS);
      case Take =>
        if l.queue != [] {
          assert l.queue == [l.queue[0]] + l.queue[1..];
          assert l.queue[0] in l.queue;
        }
      case Failed =>
        if l.flight.Some? {
          PutHolds(cap, l.queue, l.flight.value, "");
          PlainPutCounts(cap, l.queue, l.flight.value);
          LastNCounts(l.queue, cap - 1, GATEWAY_STATUS);
        }
      case _ =>
    }
  }

  lemma {:induction false} RunAlone(cap: nat, ops: seq<Op>)
    requires cap >= 1 && ProperRun(ops) && forall k :: !ReturnsOvertaken(cap, ops, k)
    ensures Alone(Run(cap, ops), PutSinceTake(cap, ops))
  {
    if ops != [] {
      var n := |ops| - 1;
      var front := ops[..n];
      forall k
        ensures !ReturnsOvertaken(cap, front, k)
      {
        assert 0 <= k < n ==> front[..k] == ops[..k];
        assert !ReturnsOvertaken(cap, ops, k);
      }
      RunAlone(cap, front);
      assert !ReturnsOvertaken(cap, ops, n);
      StepAlone(cap, Run(cap, front), ops[n], PutSinceTake(cap, front));
    }
  }

  lemma ReturnShows(cap: nat, ops: seq<Op>, k: nat)
    requires cap >= 1 && ProperRun(ops) && ReturnsOvertaken(cap, ops, k)
    ensures !OnlyLatest(Run(cap, ops[..k + 1]))
  {
    assert ops[..k + 1][..k] == ops[..k];
    RunStamped(cap, ops[..k]);
    var l := Run(cap, ops[..k]);
    PutHolds(cap, l.queue, l.flight.value, "");
  }

  /** Main result: over every run, what is queued is at all times no status but the latest
      put, if and only if no failed send ever returns a status that was overtaken by a put
      while it was being sent. */
  lemma NewestExactly(cap: nat, ops: seq<Op>)
    requires cap >= 1 && ProperRun(ops)
    ensures (forall n :: 0 <= n <= |ops| ==> OnlyLatest(Run(cap, ops[..n]))) <==>
        (forall k :: !ReturnsOvertaken(cap, ops, k))
  {
    if k :| ReturnsOvertaken(cap, ops, k) {
      ReturnShows(cap, ops, k);
    } else {
      forall n | 0 <= n <= |ops|
        ensures OnlyLatest(Run(cap, ops[..n]))
      {
        forall k
          ensures !ReturnsOvertaken(cap, ops[..n], k)
        {
          assert 0 <= k < n ==> ops[..n][..k] == ops[..k];
          assert !ReturnsOvertaken(cap, ops, k);
        }
        RunAlone(cap, ops[..n]);
      }
    }
  }

  /** The overlap does happen: a status put during a send that fails ends up ahead of the
      older one. */
  lemma LateReturnExample(newer: string, older: string)
    ensures Run(512, [Status(older), Take, Status(newer), Failed]).queue
         == [Message(GATEWAY_STATUS, newer, 2), Message(GATEWAY_STATUS, older, 1)]
  {
    var ops := [Status(older), Take, Status(newer), Failed];
    var first := Message(GATEWAY_STATUS, older, 1);
    assert ops[..3] == [Status(older), Take, Status(newer)];
    assert ops[..3][..2] == [Status(older), Take];
    assert ops[..3][..2][..1] == [Status(older)];
    assert ops[..3][..2][..1][..0] == [];
    assert Run(512, ops[..3][..2][..1]) == Line([first], None, 1);
    assert Run(512, ops[..3][..2]) == Line([], Some(first), 1);
    assert Run(512, ops[..3]) == Line([Message(GATEWAY_STATUS, newer, 2)], Some(first), 2);
  }

  // ---------------------------------------------------------------------
  // Rate windows

  function PurgeFront(w: seq<real>, cutoff: real): seq<real> {
    if w != [] && w[0] < cutoff then PurgeFront(w[1..], cutoff) else w
  }

  /** The events of the last second. */
  function Recent(history: seq<real>, now: real): seq<real> {
    if history == [] then []
    else
      var front, last := history[..|history| - 1], history[|history| - 1];
      Recent(front, now) + if last >= now - 1.0 then [last] else []
  }

  class RateWindow {
    var window: seq<real>

    constructor ()
      ensures window == []
    {
      window := [];
    }

    method Purge(now: real)
      modifies this
      ensures window == PurgeFront(old(window), now - 1.0)
    {
      var cutoff := now - 1.0;
      while window != [] && window[0] < cutoff
        invariant PurgeFront(window, cutoff) == PurgeFront(old(window), cutoff)
        decreases |window|
      {
        window := window[1..];
      }
    }

    method Note(now: real)
      modifies this
      ensures window == PurgeFront(old(window) + [now], now - 1.0)
    {
      window := window + [now];
      Purge(now);
    }

    method Rate(now: real) returns (fps: nat)
      modifies this
      ensures window == PurgeFront(old(window), now - 1.0) && fps == |window|
    {
      Purge(now);
      fps := |window|;
    }
  }

  datatype Mark = Event(at: real) | Look(at: real)

  function Window(marks: seq<Mark>): seq<real> {
    if marks == [] then []
    else
      var w, last := Window(marks[..|marks| - 1]), marks[|marks| - 1];
      PurgeFront(if last.Event? then w + [last.at] else w, last.at - 1.0)
  }

  function Events(marks: seq<Mark>): seq<real> {
    if marks == [] then []
    else Events(marks[..|marks| - 1]) + if marks[|marks| - 1].Event? then [marks[|marks| - 1].at] else []
  }

  ghost predicate Sorted(w: seq<real>) {
    forall i, j :: 0 <= i <= j < |w| ==> w[i] <= w[j]
  }

  lemma {:induction false} RecentStays(history: seq<real>, before: real, now: real)
    requires before <= now
    ensures Recent(Recent(history, before), now) == Recent(history, now)
  {
    if history != [] {
      var front, last := history[..|history| - 1], history[|history| - 1];
      RecentStays(front, before, now);
      var r := Recent(front, before);
      if last >= before - 1.0 {
        assert (r + [last])[..|r|] == r;
      } else {
        assert r + [] == r;
      }
    }
  }

  lemma {:induction false} RecentOfSorted(w: seq<real>, now: real)
    requires Sorted(w)
    ensures w == [] || w[0] >= now - 1.0 ==> Recent(w, now) == w
    ensures w != [] && w[0] < now - 1.0 ==> Recent(w, now) == Recent(w[1..], now)
  {
    if w != [] {
      var front := w[..|w| - 1];
      RecentOfSorted(front, now);
      assert w == front + [w[|w| - 1]];
      if |w| > 1 {
        assert w[1..][..|w| - 2] == front[1..];
      } else {
        assert w[1..] == [];
      }
    }
  }

  /** Popping old events off the front keeps exactly the recent ones. */
  lemma {:induction false} PurgeIsRecent(w: seq<real>, now: real)
    requires Sorted(w)
    ensures PurgeFront(w, now - 1.0) == Recent(w, now)
  {
    RecentOfSorted(w, now);
    if w != [] && w[0] < now - 1.0 {
      PurgeIsRecent(w[1..], now);
    }
  }

  lemma {:induction false} RecentIsSorted(history: seq<real>, now: real, bound: real)
    requires Sorted(history) && forall i :: 0 <= i < |history| ==> history[i] <= bound
    ensures Sorted(Recent(history, now)) && forall i :: 0 <= i < |Recent(history, now)| ==>
        Recent(history, now)[i] <= bound
  {
    if history != [] {
      RecentIsSorted(history[..|history| - 1], now, history[|history| - 1]);
    }
  }

  lemma {:induction false} EventsAreSorted(marks: seq<Mark>, bound: real)
    requires forall i, j :: 0 <= i <= j < |marks| ==> marks[i].at <= marks[j].at
    requires forall i :: 0 <= i < |marks| ==> marks[i].at <= bound
    ensures Sorted(Events(marks)) && forall i :: 0 <= i < |Events(marks)| ==> Events(marks)[i] <= bound
  {
    if marks != [] {
      EventsAreSorted(marks[..|marks| - 1], marks[|marks| - 1].at);
    }
  }

  lemma RecentSnoc(h: seq<real>, x: real, now: real)
    requires x >= now - 1.0
    ensures Recent(h + [x], now) == Recent(h, now) + [x]
  {
    assert (h + [x])[..|h|] == h;
  }

  lemma WindowStep(h: seq<real>, before: real, last: Mark)
    requires Sorted(h) && before <= last.at && forall i :: 0 <= i < |h| ==> h[i] <= last.at
    ensures var w := Recent(h, before);
            PurgeFront(if last.Event? then w + [last.at] else w, last.at - 1.0)
            == Recent(if last.Event? then h + [last.at] else h, last.at)
  {
    var w := Recent(h, before);
    RecentIsSorted(h, before, last.at);
    RecentStays(h, before, last.at);
    if last.Event? {
      PurgeIsRecent(w + [last.at], last.at);
      RecentSnoc(w, last.at, last.at);
      RecentSnoc(h, last.at, last.at);
    } else {
      PurgeIsRecent(w, last.at);
    }
  }

  /** Main result: at every reading the window holds exactly the events of the whole
      history that are at most one second old, so its length is the rate. */
  lemma {:induction false} WindowIsRecent(marks: seq<Mark>)
    requires marks != [] && forall i, j :: 0 <= i <= j < |marks| ==> marks[i].at <= marks[j].at
    ensures Window(marks) == Recent(Events(marks), marks[|marks| - 1].at)
  {
    var front, last := marks[..|marks| - 1], marks[|marks| - 1];
    EventsAreSorted(front, last.at);
    assert Events(front) + [] == Events(front);
    if front == [] {
      WindowStep([], last.at, last);
    } else {
      WindowIsRecent(front);
      WindowStep(Events(front), front[|front| - 1].at, last);
    }
  }
}
