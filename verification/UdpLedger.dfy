/** What becomes of every queued command, over all runs of the dispatcher. */
module UdpLedger {
  import opened Wrappers
  import opened Text
  import opened UdpControl

  // ---------------------------------------------------------------------
  // The invariant

  /** Sequence number of the n-th queued command, counting from 1. */
  function SeqOf(n: nat): nat { if n == 0 then 0 else (n - 1) % 65535 + 1 }

  /** Keys and tickets identify entries. */
  ghost predicate Distinct(p: seq<Entry>) {
    forall i, j :: 0 <= i < j < |p| ==> p[i].key != p[j].key && p[i].ticket != p[j].ticket
  }

  ghost predicate IsPending(s: State, t: nat) {
    exists i :: 0 <= i < |s.pending| && s.pending[i].ticket == t
  }

  /** Each ticket handed out is either pending or has exactly one recorded fate. */
  ghost predicate Partitioned(s: State) {
    && (forall t :: t in s.history.fates ==> t < s.history.queued && !IsPending(s, t))
    && (forall t: nat :: t < s.history.queued ==> t in s.history.fates || IsPending(s, t))
  }

  ghost predicate EntryOk(s: State, e: Entry) {
    && e.ticket < s.history.queued
    && e.seqNo == SeqOf(e.ticket + 1)
    && e.key == MakeKey(e.uid, e.payload.requestId, e.seqNo)
    && e.attempts >= 1
    && e.lastSentAt - e.createdAt >= RESEND_INTERVAL_SEC * (e.attempts - 1) as real
    && (!HasExplicitExpiry(e) ==> e.attempts <= MAX_UNACKED_ATTEMPTS)
    && (e.acked <==> e.ticket in s.history.ackedTickets)
    && s.history.tries[e.ticket] == e.attempts
  }

  ghost predicate EntriesOk(s: State) {
    forall i :: 0 <= i < |s.pending| ==> EntryOk(s, s.pending[i])
  }

  ghost predicate CountsOk(s: State) {
    && s.seqNo == SeqOf(s.history.queued)
    && s.acked == |s.history.ackedTickets|
    && s.timeouts == |s.history.callbacks|
    && (forall i, j :: 0 <= i < j < |s.history.callbacks| ==> s.history.callbacks[i] != s.history.callbacks[j])
    && (forall t :: t in s.history.callbacks <==> t in s.history.fates && s.history.fates[t] == TimedOut)
    && (forall t :: t in s.history.ackedTickets ==> t < s.history.queued && t !in s.history.callbacks)
    && (forall t :: t in s.history.fates && s.history.fates[t] == DroppedAcked ==> t in s.history.ackedTickets)
    && (forall t :: t in s.history.tries ==> t < s.history.queued)
  }

  ghost predicate Inv(s: State) {
    Distinct(s.pending) && Partitioned(s) && EntriesOk(s) && CountsOk(s)
  }

  lemma EmptyInv()
    ensures Inv(EMPTY)
  {}

  // ---------------------------------------------------------------------
  // Every step keeps it

  /** The two states differ at most in sessions and in the sent and retried counters. */
  ghost predicate SameTable(s: State, s': State) {
    && s'.pending == s.pending && s'.history == s.history
    && s'.seqNo == s.seqNo && s'.acked == s.acked && s'.timeouts == s.timeouts
  }

  lemma SameTableKeeps(s: State, s': State)
    requires Inv(s) && SameTable(s, s')
    ensures Inv(s')
  {
    assert forall t :: IsPending(s', t) <==> IsPending(s, t);
    forall i | 0 <= i < |s.pending|
      ensures EntryOk(s', s.pending[i])
    {
      assert EntryOk(s, s.pending[i]);
    }
  }

  lemma RetireKeeps(s: State, i: nat, fate: Fate)
    requires Inv(s) && i < |s.pending|
    requires fate == DroppedAcked ==> s.pending[i].acked
    requires fate != TimedOut
    ensures Inv(Retire(s, i, fate))
  {
    var s', gone := Retire(s, i, fate), s.pending[i].ticket;
    RetireMoves(s, i, fate);
    assert forall t :: t in s'.history.fates <==> t in s.history.fates || t == gone;
  }

  lemma RetireDistinct(p: seq<Entry>, i: nat)
    requires Distinct(p) && i < |p|
    ensures Distinct(RemoveAt(p, i))
    ensures forall k :: 0 <= k < |RemoveAt(p, i)| ==> RemoveAt(p, i)[k].ticket != p[i].ticket
  {}

  lemma RetirePending(s: State, i: nat, fate: Fate, t: nat)
    requires i < |s.pending| && forall k :: 0 <= k < |s.pending| && k != i ==>
        s.pending[k].ticket != s.pending[i].ticket
    ensures IsPending(Retire(s, i, fate), t) <==> IsPending(s, t) && t != s.pending[i].ticket
  {
    var p, q := s.pending, RemoveAt(s.pending, i);
    if IsPending(s, t) && t != p[i].ticket {
      var k :| 0 <= k < |p| && p[k].ticket == t;
      var at := if k < i then k else k - 1;
      assert q[at] == p[k];
    }
    if IsPending(Retire(s, i, fate), t) {
      var k :| 0 <= k < |q| && q[k].ticket == t;
      var at := if k < i then k else k + 1;
      assert p[at] == q[k];
    }
  }

  lemma RetireMoves(s: State, i: nat, fate: Fate)
    requires Distinct(s.pending) && Partitioned(s) && EntriesOk(s) && i < |s.pending|
    ensures var s' := Retire(s, i, fate);
            Distinct(s'.pending) && Partitioned(s') && EntriesOk(s')
    ensures s.pending[i].ticket !in s.history.fates && s.pending[i].ticket < s.history.queued
    ensures forall t :: IsPending(Retire(s, i, fate), t) <==> IsPending(s, t) && t != s.pending[i].ticket
  {
    var s', gone := Retire(s, i, fate), s.pending[i].ticket;
    RetireDistinct(s.pending, i);
    forall t
      ensures IsPending(s', t) <==> IsPending(s, t) && t != gone
    {
      RetirePending(s, i, fate, t);
    }
    assert IsPending(s, gone) && EntryOk(s, s.pending[i]);
    forall k | 0 <= k < |s'.pending|
      ensures EntryOk(s', s'.pending[k])
    {
      var from := if k < i then k else k + 1;
      assert s'.pending[k] == s.pending[from] && EntryOk(s, s.pending[from]);
    }
  }

  lemma GiveUpCounts(s: State, i: nat)
    requires CountsOk(s) && i < |s.pending| && s.pending[i].ticket !in s.history.fates &&
        s.pending[i].ticket < s.history.queued
    requires s.pending[i].ticket !in s.history.ackedTickets
    ensures CountsOk(GiveUpOn(s, i))
  {
    var t, cs, cs' := s.pending[i].ticket, s.history.callbacks, GiveUpOn(s, i).history.callbacks;
    assert t !in cs && cs' == cs + [t];
    assert forall u :: u in cs' <==> u in cs || u == t;
  }

  lemma GiveUpKeeps(s: State, i: nat)
    requires Inv(s) && i < |s.pending| && !s.pending[i].acked
    ensures Inv(GiveUpOn(s, i))
  {
    var gone, s' := Retire(s, i, TimedOut), GiveUpOn(s, i);
    RetireMoves(s, i, TimedOut);
    assert EntryOk(s, s.pending[i]);
    GiveUpCounts(s, i);
    assert forall u :: IsPending(s', u) <==> IsPending(gone, u);
    forall k | 0 <= k < |s'.pending|
      ensures EntryOk(s', s'.pending[k])
    {
      assert EntryOk(gone, gone.pending[k]);
    }
  }

  /** Entry i is replaced by a version of itself. */
  lemma ReplaceKeeps(s: State, s': State, i: nat)
    requires Inv(s) && i < |s.pending| && |s'.pending| == |s.pending|
    requires s'.pending == s.pending[i := s'.pending[i]]
    requires s'.pending[i].ticket == s.pending[i].ticket && s'.pending[i].key == s.pending[i].key
    requires EntryOk(s', s'.pending[i])
    requires s'.history.fates == s.history.fates && s'.history.queued == s.history.queued
    requires forall t :: t != s.pending[i].ticket ==>
               s'.history.tries[t] == s.history.tries[t] &&
                   (t in s'.history.ackedTickets <==> t in s.history.ackedTickets)
    ensures Distinct(s'.pending) && Partitioned(s') && EntriesOk(s')
  {
    var p, p' := s.pending, s'.pending;
    forall t
      ensures IsPending(s', t) <==> IsPending(s, t)
    {
      assert forall k :: 0 <= k < |p| ==> p'[k].ticket == p[k].ticket;
    }
    forall k | 0 <= k < |p'|
      ensures EntryOk(s', p'[k])
    {
      assert EntryOk(s, p[k]);
    }
  }

  lemma RetryKeeps(s: State, i: nat, ok: bool, now: real)
    requires Inv(s) && i < |s.pending|
    requires !HasExplicitExpiry(s.pending[i]) ==> s.pending[i].attempts < MAX_UNACKED_ATTEMPTS
    requires now - s.pending[i].lastSentAt >= RESEND_INTERVAL_SEC
    ensures Inv(Transmit(s, i, true, ok, now))
  {
    assert EntryOk(s, s.pending[i]);
    ReplaceKeeps(s, Try(s, i, now), i);
    SameTableKeeps(Try(s, i, now), Transmit(s, i, true, ok, now));
  }

  lemma AckKeeps(s: State, i: nat)
    requires Inv(s) && i < |s.pending|
    ensures Inv(MarkAcked(s, i))
  {
    var e := s.pending[i];
    assert EntryOk(s, e);
    if !e.acked {
      var s' := MarkAcked(s, i);
      ReplaceKeeps(s, s', i);
      assert IsPending(s, e.ticket);
    }
  }

  lemma VisitKeeps(s: State, key: Key, stale: set<string>, ok: set<nat>, now: real)
    requires Inv(s)
    ensures Inv(Visit(s, key, stale, ok, now))
  {
    var i := IndexOfKey(s.pending, key);
    if i < |s.pending| {
      match Decide(s.pending[i], stale, now)
      case Keep =>
      case Drop => RetireKeeps(s, i, DroppedAcked);
      case GiveUp => GiveUpKeeps(s, i);
      case Resend => RetryKeeps(s, i, s.pending[i].ticket in ok, now);
    }
  }

  lemma {:induction false} VisitAllKeeps(s: State, keys: seq<Key>, stale: set<string>, ok: set<nat>, now: real)
    requires Inv(s)
    ensures Inv(VisitAll(s, keys, stale, ok, now))
  {
    if keys != [] {
      var front := keys[..|keys| - 1];
      VisitAllKeeps(s, front, stale, ok, now);
      VisitKeeps(VisitAll(s, front, stale, ok, now), keys[|keys| - 1], stale, ok, now);
    }
  }

  /** The state once a new command has been queued and sent, sessions aside. */
  ghost function Queued(s: State, uid: string, addr: Address, payload: Payload, now: real): State {
    var key := MakeKey(uid, payload.requestId, NextSeq(s.seqNo));
    var e := Entry(s.history.queued, key, uid, addr, payload, NextSeq(s.seqNo), 1, false, now, now);
    var i := IndexOfKey(s.pending, key);
    var h := s.history.(queued := s.history.queued + 1, tries := s.history.tries + multiset{e.ticket});
    if i < |s.pending| then
      s.(seqNo := e.seqNo, pending := s.pending[i := e],
          history := h.(fates := h.fates[s.pending[i].ticket := Overwritten]))
    else
      s.(seqNo := e.seqNo, pending := s.pending + [e], history := h)
  }

  lemma SeqAdvances(n: nat)
    ensures NextSeq(SeqOf(n)) == SeqOf(n + 1)
  {}

  /** The tickets pending once ticket n has gone in at position i. */
  lemma QueuedPending(s: State, s': State, i: nat, e: Entry)
    requires Distinct(s.pending) && i <= |s.pending|
    requires s'.pending == if i < |s.pending| then s.pending[i := e] else s.pending + [e]
    requires forall k :: 0 <= k < |s.pending| && k != i ==> s.pending[k].key != e.key
    requires !IsPending(s, e.ticket)
    ensures Distinct(s'.pending)
    ensures forall t :: IsPending(s', t) <==>
        t == e.ticket || (IsPending(s, t) && !(i < |s.pending| && t == s.pending[i].ticket))
  {
    var p, q := s.pending, s'.pending;
    assert q[i] == e && forall k :: 0 <= k < |p| && k != i ==> q[k] == p[k];
    forall k | 0 <= k < |p|
      ensures p[k].ticket != e.ticket
    {
      assert IsPending(s, p[k].ticket);
    }
    forall t
      ensures IsPending(s', t) <==> t == e.ticket || (IsPending(s, t) && !(i < |p| && t == p[i].ticket))
    {
      if IsPending(s, t) {
        var k :| 0 <= k < |p| && p[k].ticket == t;
        assert k != i ==> q[k].ticket == t;
      }
      if t == e.ticket {
        assert q[i].ticket == t;
      }
    }
  }

  /** What the history says of an entry stays so while others are queued. */
  lemma EntryStays(s: State, e: Entry, uid: string, addr: Address, payload: Payload, now: real)
    requires EntryOk(s, e)
    ensures EntryOk(Queued(s, uid, addr, payload, now), e)
  {}

  lemma QueuedEntries(s: State, uid: string, addr: Address, payload: Payload, now: real)
    requires Inv(s)
    ensures EntriesOk(Queued(s, uid, addr, payload, now))
  {
    var s' := Queued(s, uid, addr, payload, now);
    var i := Place(s, uid, payload);
    NothingFromTheFuture(s);
    SeqAdvances(s.history.queued);
    assert EntryOk(s', s'.pending[i]);
    forall k | 0 <= k < |s'.pending| && k != i
      ensures EntryOk(s', s'.pending[k])
    {
      assert s'.pending[k] == s.pending[k];
      EntryStays(s, s.pending[k], uid, addr, payload, now);
    }
  }

  lemma QueuedCounts(s: State, uid: string, addr: Address, payload: Payload, now: real)
    requires Inv(s)
    ensures CountsOk(Queued(s, uid, addr, payload, now))
  {
    var i := Place(s, uid, payload);
    NothingFromTheFuture(s);
    SeqAdvances(s.history.queued);
    if i < |s.pending| {
      assert EntryOk(s, s.pending[i]) && IsPending(s, s.pending[i].ticket);
    }
  }

  lemma QueuedKeeps(s: State, uid: string, addr: Address, payload: Payload, now: real)
    requires Inv(s)
    ensures Inv(Queued(s, uid, addr, payload, now))
  {
    var s' := Queued(s, uid, addr, payload, now);
    var i := Place(s, uid, payload);
    QueuedEntries(s, uid, addr, payload, now);
    QueuedCounts(s, uid, addr, payload, now);
    NothingFromTheFuture(s);
    QueuedPending(s, s', i, s'.pending[i]);
    if i < |s.pending| {
      assert EntryOk(s, s.pending[i]) && IsPending(s, s.pending[i].ticket);
    }
  }

  lemma NothingFromTheFuture(s: State)
    requires Inv(s)
    ensures var n := s.history.queued;
            !IsPending(s, n) && n !in s.history.tries && n !in s.history.ackedTickets && n !in s.history.fates &&
                n !in s.history.callbacks
  {
    forall k | 0 <= k < |s.pending|
      ensures s.pending[k].ticket != s.history.queued
    {
      assert EntryOk(s, s.pending[k]);
    }
  }

  lemma QueueKeeps(s: State, uid: string, addr: Address, payload: Payload, ok: bool, now: real)
    requires Inv(s)
    ensures Inv(QueueCommand(s, uid, addr, payload, ok, now))
  {
    QueuedKeeps(s, uid, addr, payload, now);
    QueueIsQueued(s, uid, addr, payload, ok, now);
    SameTableKeeps(Queued(s, uid, addr, payload, now), QueueCommand(s, uid, addr, payload, ok, now));
  }

  lemma QueueIsQueued(s: State, uid: string, addr: Address, payload: Payload, ok: bool, now: real)
    ensures SameTable(Queued(s, uid, addr, payload, now), QueueCommand(s, uid, addr, payload, ok, now))
  {
    var i := Place(s, uid, payload);
    var s1 := Insert(s, uid, addr, payload, now);
    assert i < |s1.pending|;
    assert Try(s1, i, now).pending == Queued(s, uid, addr, payload, now).pending;
    assert SameTable(Try(s1, i, now), QueueCommand(s, uid, addr, payload, ok, now));
  }

  lemma SendKeeps(s: State, ttl: real, uid: string, payload: Payload, ok: bool, now: real)
    requires Inv(s)
    ensures Inv(SendCommand(s, ttl, uid, payload, ok, now))
  {
    var pruned := Prune(s, ttl, now);
    SameTableKeeps(s, pruned);
    if uid in pruned.sessions {
      QueueKeeps(pruned, uid, pruned.sessions[uid], payload, ok, now);
    }
  }

  lemma SendToKeeps(s: State, uid: string, addr: Address, payload: Payload, ok: bool, now: real)
    requires Inv(s)
    ensures Inv(SendCommandTo(s, uid, addr, payload, ok, now))
  {
    QueueKeeps(s, uid, addr, payload, ok, now);
  }

  lemma ServiceKeeps(s: State, ttl: real, ok: set<nat>, now: real)
    requires Inv(s)
    ensures Inv(Service(s, ttl, ok, now))
  {
    SameTableKeeps(s, Prune(s, ttl, now));
    VisitAllKeeps(Prune(s, ttl, now), Keys(s.pending), StaleUids(s, ttl, now), ok, now);
  }

  lemma HandleAckKeeps(s: State, uid: string, requestId: string, ack: int)
    requires Inv(s)
    ensures Inv(HandleAck(s, uid, requestId, ack))
  {
    var i := AckIndex(s.pending, uid, requestId, ack);
    if i < |s.pending| {
      AckKeeps(s, i);
    }
  }

  lemma HandleResultKeeps(s: State, uid: string, requestId: string)
    requires Inv(s)
    ensures Inv(HandleResult(s, uid, requestId))
  {
    var i := IndexOfKey(s.pending, (uid, requestId));
    if i < |s.pending| {
      RetireKeeps(s, i, Answered);
    }
  }

  lemma SessionCallKeeps(s: State, ttl: real, call: Call)
    requires Inv(s) && (call.event.Session? || call.event.Leave? || call.event.Snapshot?)
    ensures Inv(Apply(s, ttl, call))
  {
    SameTableKeeps(s, Apply(s, ttl, call));
  }

  lemma SendCallKeeps(s: State, ttl: real, call: Call)
    requires Inv(s) && (call.event.Send? || call.event.SendTo?)
    ensures Inv(Apply(s, ttl, call))
  {
    if call.event.Send? {
      SendKeeps(s, ttl, call.uid, call.event.payload, call.event.ok, call.time);
    } else {
      SendToKeeps(s, call.uid, call.event.to, call.event.payload, call.event.ok, call.time);
    }
  }

  lemma ApplyKeeps(s: State, ttl: real, call: Call)
    requires Inv(s)
    ensures Inv(Apply(s, ttl, call))
  {
    match call.event
    case Send(_, _) => SendCallKeeps(s, ttl, call);
    case SendTo(_, _, _) => SendCallKeeps(s, ttl, call);
    case Ack(requestId, ack) => HandleAckKeeps(s, call.uid, requestId, ack);
    case Result(requestId) => HandleResultKeeps(s, call.uid, requestId);
    case Tick(delivered) => ServiceKeeps(s, ttl, delivered, call.time);
    case _ => SessionCallKeeps(s, ttl, call);
  }

  lemma {:induction false} RunKeeps(s: State, ttl: real, calls: seq<Call>)
    requires Inv(s)
    ensures Inv(Run(s, ttl, calls))
  {
    if calls != [] {
      RunKeeps(s, ttl, calls[..|calls| - 1]);
      ApplyKeeps(Run(s, ttl, calls[..|calls| - 1]), ttl, calls[|calls| - 1]);
    }
  }
}
