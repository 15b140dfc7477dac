/** Delivery guarantees that follow from the ledger invariant. */
module UdpDelivery {
  import opened Wrappers
  import opened Text
  import opened UdpControl
  import opened UdpLedger

  // ---------------------------------------------------------------------
  // Conservation

  ghost function Gone(s: State, fate: Fate): set<nat> {
    set t | t in s.history.fates && s.history.fates[t] == fate
  }

  ghost function TicketsOf(p: seq<Entry>): set<nat> {
    set i | 0 <= i < |p| :: p[i].ticket
  }

  lemma {:induction false} TicketsCount(p: seq<Entry>)
    requires Distinct(p)
    ensures |TicketsOf(p)| == |p|
  {
    if p != [] {
      var front, last := p[..|p| - 1], p[|p| - 1];
      TicketsCount(front);
      assert TicketsOf(p) == TicketsOf(front) + {last.ticket};
    }
  }

  function Upto(n: nat): (r: set<nat>)
    ensures forall t: nat :: t in r <==> t < n
    ensures |r| == n
  {
    if n == 0 then {} else Upto(n - 1) + {n - 1}
  }

  lemma {:induction false} DistinctCount(xs: seq<nat>, elements: set<nat>)
    requires forall i, j :: 0 <= i < j < |xs| ==> xs[i] != xs[j]
    requires forall t :: t in elements <==> t in xs
    ensures |elements| == |xs|
  {
    if xs != [] {
      var front, last := xs[..|xs| - 1], xs[|xs| - 1];
      assert xs == front + [last];
      assert last in xs;
      DistinctCount(front, elements - {last});
    }
  }

  lemma TimeoutsCount(s: State)
    requires Inv(s)
    ensures |Gone(s, TimedOut)| == |s.history.callbacks|
  {
    DistinctCount(s.history.callbacks, Gone(s, TimedOut));
  }

  lemma FatesCount(s: State)
    ensures |s.history.fates| ==
        |Gone(s, Answered)| + |Gone(s, DroppedAcked)| + |Gone(s, TimedOut)| + |Gone(s, Overwritten)|
  {
    var a, d, x, o := Gone(s, Answered), Gone(s, DroppedAcked), Gone(s, TimedOut), Gone(s, Overwritten);
    FourParts(a, d, x, o);
    assert s.history.fates.Keys == a + (d + (x + o));
  }

  lemma FourParts(a: set<nat>, b: set<nat>, c: set<nat>, d: set<nat>)
    requires a !! b && a !! c && a !! d && b !! c && b !! d && c !! d
    ensures |a + (b + (c + d))| == |a| + |b| + |c| + |d|
  {}

  lemma TwoParts(n: nat, p: set<nat>, q: set<nat>)
    requires p !! q
    requires forall t: nat :: t in p || t in q <==> t < n
    ensures n == |p| + |q|
  {
    assert Upto(n) == p + q;
  }

  lemma LedgerBalances(s: State)
    requires Inv(s)
    ensures s.history.queued == |s.pending| + |s.history.fates|
  {
    var p := TicketsOf(s.pending);
    forall t: nat
      ensures t in p <==> IsPending(s, t)
      ensures t in p ==> t < s.history.queued
    {
      if t in p {
        var i :| 0 <= i < |s.pending| && s.pending[i].ticket == t;
        assert EntryOk(s, s.pending[i]);
      }
    }
    TicketsCount(s.pending);
    TwoParts(s.history.queued, p, s.history.fates.Keys);
  }

  /** Main result: over every run, each queued command is either still pending or went
      exactly one way, and the program's counters count exactly that. */
  lemma Ledger(ttl: real, calls: seq<Call>)
    ensures var s := Run(EMPTY, ttl, calls);
            && s.history.queued ==
                 |s.pending| + |Gone(s, Answered)| + |Gone(s, DroppedAcked)|
                 + |Gone(s, TimedOut)| + |Gone(s, Overwritten)|
            && s.timeouts == |s.history.callbacks| == |Gone(s, TimedOut)|
            && s.acked == |s.history.ackedTickets|
            && s.seqNo == SeqOf(s.history.queued)
  {
    EmptyInv();
    RunKeeps(EMPTY, ttl, calls);
    LedgerBalances(Run(EMPTY, ttl, calls));
    FatesCount(Run(EMPTY, ttl, calls));
    TimeoutsCount(Run(EMPTY, ttl, calls));
  }

  // ---------------------------------------------------------------------
  // What is settled stays settled

  ghost predicate Later(s: State, s': State) {
    && s.history.queued <= s'.history.queued
    && s.history.ackedTickets <= s'.history.ackedTickets
    && s.history.callbacks <= s'.history.callbacks
    && (forall t :: t in s.history.fates ==> t in s'.history.fates && s'.history.fates[t] == s.history.fates[t])
    && (forall t :: t in s.history.fates || t in s.history.ackedTickets ==> s'.history.tries[t] == s.history.tries[t])
  }

  lemma QueueIsLater(s: State, uid: string, addr: Address, payload: Payload, ok: bool, now: real)
    requires Inv(s)
    ensures Later(s, QueueCommand(s, uid, addr, payload, ok, now))
  {
    QueueIsQueued(s, uid, addr, payload, ok, now);
    NothingFromTheFuture(s);
    var i := Place(s, uid, payload);
    if i < |s.pending| {
      assert IsPending(s, s.pending[i].ticket);
    }
  }

  lemma RetireIsLater(s: State, i: nat, fate: Fate)
    requires Inv(s) && i < |s.pending|
    ensures Later(s, Retire(s, i, fate)) && Later(s, GiveUpOn(s, i))
  {
    assert IsPending(s, s.pending[i].ticket);
  }

  lemma RetryIsLater(s: State, i: nat, ok: bool, now: real)
    requires Inv(s) && i < |s.pending| && !s.pending[i].acked
    ensures Later(s, Transmit(s, i, true, ok, now))
  {
    var t := s.pending[i].ticket;
    assert EntryOk(s, s.pending[i]) && IsPending(s, t);
    assert SameTable(Try(s, i, now), Transmit(s, i, true, ok, now));
  }

  lemma VisitIsLater(s: State, key: Key, stale: set<string>, ok: set<nat>, now: real)
    requires Inv(s)
    ensures Later(s, Visit(s, key, stale, ok, now))
  {
    var i := IndexOfKey(s.pending, key);
    if i < |s.pending| {
      match Decide(s.pending[i], stale, now)
      case Keep =>
      case Drop => RetireIsLater(s, i, DroppedAcked);
      case GiveUp => RetireIsLater(s, i, TimedOut);
      case Resend => RetryIsLater(s, i, s.pending[i].ticket in ok, now);
    }
  }

  lemma {:induction false} VisitAllIsLater(s: State, keys: seq<Key>, stale: set<string>, ok: set<nat>, now: real)
    requires Inv(s)
    ensures Later(s, VisitAll(s, keys, stale, ok, now))
  {
    if keys != [] {
      var front := keys[..|keys| - 1];
      VisitAllIsLater(s, front, stale, ok, now);
      VisitAllKeeps(s, front, stale, ok, now);
      VisitIsLater(VisitAll(s, front, stale, ok, now), keys[|keys| - 1], stale, ok, now);
    }
  }

  lemma SendIsLater(s: State, ttl: real, call: Call)
    requires Inv(s) && call.event.Send?
    ensures Later(s, Apply(s, ttl, call))
  {
    var pruned := Prune(s, ttl, call.time);
    SameTableKeeps(s, pruned);
    if call.uid in pruned.sessions {
      QueueIsLater(pruned, call.uid, pruned.sessions[call.uid], call.event.payload, call.event.ok, call.time);
    }
  }

  lemma SendToIsLater(s: State, ttl: real, call: Call)
    requires Inv(s) && call.event.SendTo?
    ensures Later(s, Apply(s, ttl, call))
  {
    QueueIsLater(s, call.uid, call.event.to, call.event.payload, call.event.ok, call.time);
  }

  lemma LaterFrom(s: State, pruned: State, s': State)
    requires pruned.history == s.history && Later(pruned, s')
    ensures Later(s, s')
  {}

  lemma ServiceIsLater(s: State, ttl: real, ok: set<nat>, now: real)
    requires Inv(s)
    ensures Later(s, Service(s, ttl, ok, now))
  {
    var pruned := Prune(s, ttl, now);
    assert Later(pruned, Service(s, ttl, ok, now)) by {
      SameTableKeeps(s, pruned);
      VisitAllIsLater(pruned, Keys(s.pending), StaleUids(s, ttl, now), ok, now);
    }
    LaterFrom(s, pruned, Service(s, ttl, ok, now));
  }

  lemma TickIsLater(s: State, ttl: real, call: Call)
    requires Inv(s) && call.event.Tick?
    ensures Later(s, Apply(s, ttl, call))
  {
    ServiceIsLater(s, ttl, call.event.delivered, call.time);
  }

  lemma ResultIsLater(s: State, ttl: real, call: Call)
    requires Inv(s) && call.event.Result?
    ensures Later(s, Apply(s, ttl, call))
  {
    var i := IndexOfKey(s.pending, (call.uid, call.event.requestId));
    if i < |s.pending| {
      RetireIsLater(s, i, Answered);
    }
  }

  lemma QuietIsLater(s: State, ttl: real, call: Call)
    requires call.event.Session? || call.event.Leave? || call.event.Snapshot? || call.event.Ack?
    ensures Later(s, Apply(s, ttl, call))
  {}

  lemma ApplyIsLater(s: State, ttl: real, call: Call)
    requires Inv(s)
    ensures Later(s, Apply(s, ttl, call))
  {
    match call.event
    case Send(_, _) => SendIsLater(s, ttl, call);
    case SendTo(_, _, _) => SendToIsLater(s, ttl, call);
    case Tick(_) => TickIsLater(s, ttl, call);
    case Result(_) => ResultIsLater(s, ttl, call);
    case _ => QuietIsLater(s, ttl, call);
  }

  /** Main result: fates are final, and a command once acked is never transmitted again
      and never reported as timed out, whatever follows. */
  lemma {:induction false} SettledStaysSettled(s: State, ttl: real, calls: seq<Call>)
    requires Inv(s)
    ensures Later(s, Run(s, ttl, calls))
    ensures forall t :: t in s.history.ackedTickets ==> t !in Run(s, ttl, calls).history.callbacks
  {
    if calls != [] {
      var front := calls[..|calls| - 1];
      SettledStaysSettled(s, ttl, front);
      RunKeeps(s, ttl, front);
      ApplyIsLater(Run(s, ttl, front), ttl, calls[|calls| - 1]);
    }
    RunKeeps(s, ttl, calls);
  }

  // ---------------------------------------------------------------------
  // What one service call does to each command

  /** The entry after the service call; None when it has left the table. */
  function Outcome(e: Entry, stale: set<string>, now: real): Option<Entry> {
    match Decide(e, stale, now)
    case Keep => Some(e)
    case Resend => Some(e.(attempts := e.attempts + 1, lastSentAt := now))
    case _ => None
  }

  function Find(p: seq<Entry>, key: Key): Option<Entry> {
    var i := IndexOfKey(p, key);
    if i < |p| then Some(p[i]) else None
  }

  lemma FindIs(p: seq<Entry>, i: nat)
    requires Distinct(p) && i < |p|
    ensures IndexOfKey(p, p[i].key) == i && Find(p, p[i].key) == Some(p[i])
  {}

  lemma FindAfterRemove(p: seq<Entry>, i: nat, key: Key)
    requires Distinct(p) && i < |p|
    ensures Find(RemoveAt(p, i), key) == if key == p[i].key then None else Find(p, key)
  {
    var q := RemoveAt(p, i);
    RetireDistinct(p, i);
    var k := IndexOfKey(p, key);
    if key == p[i].key {
      forall m | 0 <= m < |q|
        ensures q[m].key != key
      {
        assert q[m] == if m < i then p[m] else p[m + 1];
      }
    } else if k < |p| {
      var at := if k < i then k else k - 1;
      assert q[at] == p[k];
      FindIs(q, at);
    } else {
      forall m | 0 <= m < |q|
        ensures q[m].key != key
      {
        assert q[m] == if m < i then p[m] else p[m + 1];
      }
    }
  }

  lemma FindAfterReplace(p: seq<Entry>, i: nat, e: Entry, key: Key)
    requires Distinct(p) && i < |p| && e.key == p[i].key && e.ticket == p[i].ticket
    ensures Find(p[i := e], key) == if key == e.key then Some(e) else Find(p, key)
  {
    var q := p[i := e];
    assert forall k :: 0 <= k < |p| ==> q[k].key == p[k].key && q[k].ticket == p[k].ticket;
    assert Distinct(q);
    var k := IndexOfKey(p, key);
    if k < |p| {
      FindIs(q, k);
    }
  }

  /** A visit leaves the table with one entry decided and the rest alone. */
  lemma VisitTable(s: State, visited: Key, stale: set<string>, ok: set<nat>, now: real)
    ensures var i := IndexOfKey(s.pending, visited);
            var q := if i == |s.pending| then s.pending
                     else match Outcome(s.pending[i], stale, now)
                          case None => RemoveAt(s.pending, i)
                          case Some(e) => s.pending[i := e];
            Visit(s, visited, stale, ok, now).pending == q
  {}

  lemma DecideTable(p: seq<Entry>, i: nat, stale: set<string>, now: real, key: Key)
    requires Distinct(p) && i < |p|
    ensures var q := match Outcome(p[i], stale, now) case None => RemoveAt(p, i) case Some(e) => p[i := e];
            Find(q, key) == if key == p[i].key then Outcome(p[i], stale, now) else Find(p, key)
  {
    match Outcome(p[i], stale, now)
    case None => FindAfterRemove(p, i, key);
    case Some(e) => FindAfterReplace(p, i, e, key);
  }

  lemma VisitOutcome(s: State, visited: Key, stale: set<string>, ok: set<nat>, now: real, key: Key)
    requires Distinct(s.pending)
    ensures Find(Visit(s, visited, stale, ok, now).pending, key)
         == if visited == key && Find(s.pending, key).Some? then Outcome(Find(s.pending, key).value, stale, now)
            else Find(s.pending, key)
  {
    var i := IndexOfKey(s.pending, visited);
    VisitTable(s, visited, stale, ok, now);
    if i < |s.pending| {
      DecideTable(s.pending, i, stale, now, key);
    }
  }

  lemma {:induction false} VisitAllOutcome(s: State, keys: seq<Key>, stale: set<string>, ok: set<nat>, now: real,
                                        key: Key)
    requires Inv(s) && forall i, j :: 0 <= i < j < |keys| ==> keys[i] != keys[j]
    ensures Find(VisitAll(s, keys, stale, ok, now).pending, key)
         == if key in keys && Find(s.pending, key).Some? then Outcome(Find(s.pending, key).value, stale, now)
            else Find(s.pending, key)
  {
    if keys != [] {
      var front, last := keys[..|keys| - 1], keys[|keys| - 1];
      assert keys == front + [last];
      VisitAllOutcome(s, front, stale, ok, now, key);
      VisitAllKeeps(s, front, stale, ok, now);
      VisitOutcome(VisitAll(s, front, stale, ok, now), last, stale, ok, now, key);
    }
  }

  /** Main result: one service call decides every pending command from its own entry and
      the sessions found stale at that call, whatever else the loop changes. */
  lemma ServiceDecidesEach(s: State, ttl: real, ok: set<nat>, now: real, key: Key)
    requires Inv(s)
    ensures Find(Service(s, ttl, ok, now).pending, key)
         == match Find(s.pending, key)
            case None => None
            case Some(e) => Outcome(e, StaleUids(s, ttl, now), now)
  {
    var keys := Keys(s.pending);
    SameTableKeeps(s, Prune(s, ttl, now));
    VisitAllOutcome(Prune(s, ttl, now), keys, StaleUids(s, ttl, now), ok, now, key);
    if Find(s.pending, key).Some? {
      assert keys[IndexOfKey(s.pending, key)] == key;
    }
  }

  /** An acked command with no expiry stays until its result comes; any other command
      is gone at the first service call past its expiry; short of that, an explicit
      expiry means retrying without any cap on attempts. */
  lemma ExpiryRules(s: State, ttl: real, ok: set<nat>, now: real, i: nat)
    requires Inv(s) && i < |s.pending|
    ensures var e := s.pending[i];
            var after := Find(Service(s, ttl, ok, now).pending, e.key);
            && (e.acked && e.payload.expiresAtMs == 0 ==> after == Some(e))
            && (Expired(e, now) ==> after == None)
            && (!e.acked && HasExplicitExpiry(e) && !Expired(e, now) && e.uid !in StaleUids(s, ttl, now)
                && now - e.lastSentAt >= RESEND_INTERVAL_SEC
                ==> after == Some(e.(attempts := e.attempts + 1, lastSentAt := now)))
  {
    FindIs(s.pending, i);
    ServiceDecidesEach(s, ttl, ok, now, s.pending[i].key);
  }

  /** Only the service call's own pruning fails commands: if a snapshot or a send has pruned
      before, just the sessions that lapsed since count. */
  lemma SnapshotHidesStaleness(s: State, ttl: real, ok: set<nat>, earlier: real, now: real, i: nat)
    requires Inv(s) && i < |s.pending| && earlier <= now
    requires Undecided(s.pending[i], now)
    ensures var e := s.pending[i];
            && (Find(Service(s, ttl, ok, now).pending, e.key) == None <==> e.uid in StaleUids(s, ttl, now))
            && (Find(Service(Prune(s, ttl, earlier), ttl, ok, now).pending, e.key) == None
                <==> e.uid in StaleUids(s, ttl, now) && e.uid !in StaleUids(s, ttl, earlier))
  {
    FindIs(s.pending, i);
    ServiceDecidesEach(s, ttl, ok, now, s.pending[i].key);
    SameTableKeeps(s, Prune(s, ttl, earlier));
    ServiceDecidesEach(Prune(s, ttl, earlier), ttl, ok, now, s.pending[i].key);
  }

  /** Neither acked, expired nor out of attempts: only its session can fail the command. */
  predicate Undecided(e: Entry, now: real) {
    !e.acked && !Expired(e, now) && (HasExplicitExpiry(e) || e.attempts < MAX_UNACKED_ATTEMPTS)
  }

  // ---------------------------------------------------------------------
  // Retries

  /** Bounds on every pending command after every run: transmissions are at least half
      a second apart, and without an explicit expiry there are at most 30. */
  lemma RetryBounds(ttl: real, calls: seq<Call>, i: nat)
    requires i < |Run(EMPTY, ttl, calls).pending|
    ensures var s := Run(EMPTY, ttl, calls);
            var e := s.pending[i];
            && e.lastSentAt - e.createdAt >= 0.5 * (e.attempts - 1) as real
            && 1 <= e.attempts == s.history.tries[e.ticket]
            && (!HasExplicitExpiry(e) ==> e.attempts <= 30)
  {
    EmptyInv();
    RunKeeps(EMPTY, ttl, calls);
    assert EntryOk(Run(EMPTY, ttl, calls), Run(EMPTY, ttl, calls).pending[i]);
  }

  function Ticks(calls: seq<Call>): nat {
    if calls == [] then 0
    else Ticks(calls[..|calls| - 1]) + if calls[|calls| - 1].event.Tick? then 1 else 0
  }

  function LastTick(calls: seq<Call>, start: real): real {
    if calls == [] then start
    else if calls[|calls| - 1].event.Tick? then calls[|calls| - 1].time
    else LastTick(calls[..|calls| - 1], start)
  }

  /** Every service call comes at least the resend interval after the one before it. */
  ghost predicate Spaced(calls: seq<Call>, start: real) {
    calls != [] ==>
      var front, last := calls[..|calls| - 1], calls[|calls| - 1];
      Spaced(front, start) && (last.event.Tick? ==> last.time >= LastTick(front, start) + RESEND_INTERVAL_SEC)
  }

  /** Entries of q that are unacked and were in p already are as they were in p. */
  ghost predicate Undisturbed(p: seq<Entry>, q: seq<Entry>) {
    forall i, j :: 0 <= i < |p| && 0 <= j < |q| && q[j].ticket == p[i].ticket && !q[j].acked ==> q[j] == p[i]
  }

  lemma PutUndisturbed(p: seq<Entry>, q: seq<Entry>, at: nat, e: Entry)
    requires at <= |p| && q == if at < |p| then p[at := e] else p + [e]
    requires forall i :: 0 <= i < |p| ==> p[i].ticket != e.ticket
    requires forall i, j :: 0 <= i < j < |p| ==> p[i].ticket != p[j].ticket
    ensures Undisturbed(p, q)
  {
    forall i, j | 0 <= i < |p| && 0 <= j < |q| && q[j].ticket == p[i].ticket
      ensures q[j] == p[i]
    {
      assert q[at] == e && (j != at ==> q[j] == p[j]);
    }
  }

  lemma QueueUndisturbed(s: State, uid: string, addr: Address, payload: Payload, ok: bool, now: real)
    requires Inv(s)
    ensures Undisturbed(s.pending, QueueCommand(s, uid, addr, payload, ok, now).pending)
  {
    QueueIsQueued(s, uid, addr, payload, ok, now);
    var q, at := Queued(s, uid, addr, payload, now).pending, Place(s, uid, payload);
    forall i | 0 <= i < |s.pending|
      ensures s.pending[i].ticket < s.history.queued
    {
      assert EntryOk(s, s.pending[i]);
    }
    PutUndisturbed(s.pending, q, at, q[at]);
  }

  lemma RemoveUndisturbed(p: seq<Entry>, at: nat)
    requires Distinct(p) && at < |p|
    ensures Undisturbed(p, RemoveAt(p, at))
  {
    var q := RemoveAt(p, at);
    forall i, j | 0 <= i < |p| && 0 <= j < |q| && q[j].ticket == p[i].ticket
      ensures q[j] == p[i]
    {
      var from := if j < at then j else j + 1;
      assert q[j] == p[from];
    }
  }

  lemma ResultUndisturbed(s: State, ttl: real, call: Call)
    requires Distinct(s.pending) && call.event.Result?
    ensures Undisturbed(s.pending, Apply(s, ttl, call).pending)
  {
    var at := IndexOfKey(s.pending, (call.uid, call.event.requestId));
    if at < |s.pending| {
      RemoveUndisturbed(s.pending, at);
    }
  }

  lemma SendUndisturbed(s: State, ttl: real, call: Call)
    requires Inv(s) && call.event.Send?
    ensures Undisturbed(s.pending, Apply(s, ttl, call).pending)
  {
    hide QueueCommand;
    var pruned := Prune(s, ttl, call.time);
    SameTableKeeps(s, pruned);
    if call.uid in pruned.sessions {
      QueueUndisturbed(pruned, call.uid, pruned.sessions[call.uid], call.event.payload, call.event.ok, call.time);
    }
  }

  lemma SendToUndisturbed(s: State, ttl: real, call: Call)
    requires Inv(s) && call.event.SendTo?
    ensures Undisturbed(s.pending, Apply(s, ttl, call).pending)
  {
    if call.uid != "" && call.event.to.host != "" && call.event.to.port > 0 {
      QueueUndisturbed(s, call.uid, call.event.to, call.event.payload, call.event.ok, call.time);
    }
  }

  lemma QuietUndisturbed(s: State, ttl: real, call: Call)
    requires Distinct(s.pending) &&
        (call.event.Session? || call.event.Leave? || call.event.Snapshot? || call.event.Ack?)
    ensures Undisturbed(s.pending, Apply(s, ttl, call).pending)
  {}

  lemma StepUndisturbed(s: State, ttl: real, call: Call)
    requires Inv(s) && !call.event.Tick?
    ensures Undisturbed(s.pending, Apply(s, ttl, call).pending)
  {
    match call.event
    case Send(_, _) => SendUndisturbed(s, ttl, call);
    case SendTo(_, _, _) => SendToUndisturbed(s, ttl, call);
    case Result(_) => ResultUndisturbed(s, ttl, call);
    case _ => QuietUndisturbed(s, ttl, call);
  }

  /** A survivor of a service call is the outcome decided for its own earlier self. */
  lemma TickOnEntry(s: State, ttl: real, ok: set<nat>, now: real, i: nat, j: nat)
    requires Inv(s) && i < |s.pending| && j < |Service(s, ttl, ok, now).pending|
    requires Service(s, ttl, ok, now).pending[j].ticket == s.pending[i].ticket
    ensures Outcome(s.pending[i], StaleUids(s, ttl, now), now) == Some(Service(s, ttl, ok, now).pending[j])
  {
    var s' := Service(s, ttl, ok, now);
    var key := s'.pending[j].key;
    ServiceKeeps(s, ttl, ok, now);
    FindIs(s'.pending, j);
    ServiceDecidesEach(s, ttl, ok, now, key);
    var k := IndexOfKey(s.pending, key);
    assert s.pending[k].ticket == s.pending[i].ticket;
    assert k == i;
  }

  /** An unacked survivor of a step is the same entry, retried if the step was a due service call. */
  lemma StepOnEntry(s: State, ttl: real, call: Call, i: nat, j: nat)
    requires Inv(s) && i < |s.pending| && j < |Apply(s, ttl, call).pending|
    requires Apply(s, ttl, call).pending[j].ticket == s.pending[i].ticket && !Apply(s, ttl, call).pending[j].acked
    ensures var e, e' := s.pending[i], Apply(s, ttl, call).pending[j];
            if call.event.Tick? then Outcome(e, StaleUids(s, ttl, call.time), call.time) == Some(e') else e' == e
  {
    hide Inv, Outcome;
    if call.event.Tick? {
      TickOnEntry(s, ttl, call.event.delivered, call.time, i, j);
    } else {
      StepUndisturbed(s, ttl, call);
    }
  }

  /** Tickets enter the table once: one pending after a step and handed out before it
      was pending before it. */
  lemma PendingBefore(s: State, ttl: real, call: Call, t: nat, j: nat) returns (i: nat)
    requires Inv(s) && t < s.history.queued
    requires j < |Apply(s, ttl, call).pending| && Apply(s, ttl, call).pending[j].ticket == t
    ensures i < |s.pending| && s.pending[i].ticket == t
  {
    ApplyKeeps(s, ttl, call);
    ApplyIsLater(s, ttl, call);
    assert IsPending(Apply(s, ttl, call), t);
    assert t !in s.history.fates;
    i :| 0 <= i < |s.pending| && s.pending[i].ticket == t;
  }

  lemma TicketsPersist(s: State, ttl: real, calls: seq<Call>, i: nat)
    requires Inv(s) && i < |s.pending|
    ensures Inv(Run(s, ttl, calls)) && s.pending[i].ticket < Run(s, ttl, calls).history.queued
  {
    RunKeeps(s, ttl, calls);
    SettledStaysSettled(s, ttl, calls);
    assert EntryOk(s, s.pending[i]);
  }

  lemma AttemptsStep(e: Entry, call: Call, stale: set<string>, e': Entry)
    requires if call.event.Tick? then Outcome(e, stale, call.time) == Some(e') else e' == e
    requires call.event.Tick? ==> call.time >= e.lastSentAt + RESEND_INTERVAL_SEC
    requires !e'.acked
    ensures !e.acked && e'.payload == e.payload
    ensures e'.attempts == e.attempts + if call.event.Tick? then 1 else 0
    ensures e'.lastSentAt == if call.event.Tick? then call.time else e.lastSentAt
  {}

  lemma {:induction false} AttemptsCountTicks(s: State, ttl: real, calls: seq<Call>, i: nat, j: nat)
    requires Inv(s) && i < |s.pending| && Spaced(calls, s.pending[i].lastSentAt)
    requires j < |Run(s, ttl, calls).pending| && Run(s, ttl, calls).pending[j].ticket == s.pending[i].ticket
    requires !Run(s, ttl, calls).pending[j].acked
    ensures var e, e' := s.pending[i], Run(s, ttl, calls).pending[j];
            && e'.attempts == e.attempts + Ticks(calls)
            && e'.lastSentAt == LastTick(calls, e.lastSentAt)
            && e'.payload == e.payload
  {
    if calls == [] {
      assert i == j;
    } else {
      var front, last := calls[..|calls| - 1], calls[|calls| - 1];
      var mid := Run(s, ttl, front);
      TicketsPersist(s, ttl, front, i);
      var k := PendingBefore(mid, ttl, last, s.pending[i].ticket, j);
      StepOnEntry(mid, ttl, last, k, j);
      if !mid.pending[k].acked {
        AttemptsCountTicks(s, ttl, front, i, k);
      }
      AttemptsStep(mid.pending[k], last, StaleUids(mid, ttl, last.time), Run(s, ttl, calls).pending[j]);
    }
  }

  /** Main result: a command without an explicit expiry is acked or gone after
      31 - attempts service calls half a second apart: 30 for one just queued. */
  lemma UnackedIsGone(s: State, ttl: real, calls: seq<Call>, i: nat, j: nat)
    requires Inv(s) && i < |s.pending| && !HasExplicitExpiry(s.pending[i])
    requires Spaced(calls, s.pending[i].lastSentAt) && Ticks(calls) >= 31 - s.pending[i].attempts
    requires j < |Run(s, ttl, calls).pending| && Run(s, ttl, calls).pending[j].ticket == s.pending[i].ticket
    ensures Run(s, ttl, calls).pending[j].acked
  {
    RunKeeps(s, ttl, calls);
    assert EntryOk(Run(s, ttl, calls), Run(s, ttl, calls).pending[j]);
    if !Run(s, ttl, calls).pending[j].acked {
      AttemptsCountTicks(s, ttl, calls, i, j);
    }
  }

  // ---------------------------------------------------------------------
  // Sequence numbers

  /** Every pending command was queued fewer than 65535 commands ago. */
  ghost predicate Recent(s: State) {
    forall i :: 0 <= i < |s.pending| ==> s.history.queued - s.pending[i].ticket <= 65535
  }

  /** Numbers start at 1 and wrap past 0. */
  lemma SeqNeverZero(ttl: real, calls: seq<Call>)
    ensures var s := Run(EMPTY, ttl, calls);
            s.history.queued > 0 ==> 1 <= s.seqNo <= 65535 && s.seqNo == (s.history.queued - 1) % 65535 + 1
  {
    Ledger(ttl, calls);
  }

  lemma SeqsDiffer(s: State, i: nat, j: nat)
    requires Inv(s) && Recent(s) && i < |s.pending| && j < |s.pending| && i != j
    ensures s.pending[i].seqNo != s.pending[j].seqNo
  {
    var a, b := s.pending[i].ticket, s.pending[j].ticket;
    assert EntryOk(s, s.pending[i]) && EntryOk(s, s.pending[j]);
    assert a != b && -65535 < a - b < 65535;
    SeqsRepeatExactly(a, b);
    if s.pending[i].seqNo == s.pending[j].seqNo {
      SmallDifference(a - b);
    }
  }

  lemma SmallDifference(d: int)
    requires -65535 < d < 65535 && d % 65535 == 0
    ensures d == 0
  {}

  /** Numbers repeat exactly every 65535 commands. */
  lemma SeqsRepeatExactly(a: nat, b: nat)
    ensures SeqOf(a + 1) == SeqOf(b + 1) <==> (a - b) % 65535 == 0
  {
    var d := a / 65535 - b / 65535;
    assert a - b == 65535 * d + (a % 65535 - b % 65535);
  }

  /** Main result: inside the window an ack that echoes a command's request id, its
      sequence number, or both, marks that command and no other. */
  lemma AckMarksItsCommand(s: State, i: nat, requestId: string, ack: int)
    requires Inv(s) && Recent(s) && i < |s.pending|
    requires requestId == "" || requestId == s.pending[i].payload.requestId
    requires ack == 0 || ack == s.pending[i].seqNo
    requires requestId != "" || ack != 0
    ensures AckIndex(s.pending, s.pending[i].uid, requestId, ack) == i
    ensures s.pending[i].uid != "" ==> HandleAck(s, s.pending[i].uid, requestId, ack) == MarkAcked(s, i)
  {
    var uid := s.pending[i].uid;
    var k := AckIndex(s.pending, uid, requestId, ack);
    assert AckMatches(s.pending[i], uid, requestId, ack);
    if k != i {
      assert EntryOk(s, s.pending[i]) && EntryOk(s, s.pending[k]);
      SeqsDiffer(s, k, i);
    }
  }
}
