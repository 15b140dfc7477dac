/** What single calls on the dispatcher do to the table of commands, said of the table alone,
    and what that means over runs. */
module UdpLaws {
  import opened Wrappers
  import opened Text
  import opened UdpControl
  import opened UdpLedger
  import opened UdpDelivery
  import opened UdpSessions

  // ---------------------------------------------------------------------
  // Acks

  /** An ack frame fits a command of the device by request id or by number. */
  predicate Fits(e: Entry, uid: string, requestId: string, ack: int) {
    && e.uid == uid
    && ((requestId != "" && requestId == e.payload.requestId) || (ack != 0 && ack == e.seqNo))
  }

  ghost predicate FirstFit(p: seq<Entry>, uid: string, requestId: string, ack: int, i: int) {
    && 0 <= i < |p| && Fits(p[i], uid, requestId, ack)
    && forall k :: 0 <= k < i ==> !Fits(p[k], uid, requestId, ack)
  }

  /** The table with entry i acked: nothing else of it changes. */
  ghost predicate OnlyAcked(p: seq<Entry>, p': seq<Entry>, i: int) {
    && |p'| == |p| && 0 <= i < |p| && p'[i].acked && p'[i] == p[i].(acked := p'[i].acked)
    && forall k :: 0 <= k < |p| && k != i ==> p'[k] == p[k]
  }

  /** An ack marks the first command it fits, and counts it if it was not acked before; an ack
      that fits none does nothing. */
  lemma AckDoes(s: State, uid: string, requestId: string, ack: int)
    requires uid != ""
    ensures forall i :: FirstFit(s.pending, uid, requestId, ack, i) ==>
              var s', t := HandleAck(s, uid, requestId, ack), s.pending[i].ticket;
              && OnlyAcked(s.pending, s'.pending, i)
              && (!s.pending[i].acked ==> s'.acked == s.acked + 1 && t in s'.history.ackedTickets)
              && (s.pending[i].acked ==> s'.acked == s.acked)
    ensures (forall k :: 0 <= k < |s.pending| ==> !Fits(s.pending[k], uid, requestId, ack)) ==>
              HandleAck(s, uid, requestId, ack) == s
  {
    var at := AckIndex(s.pending, uid, requestId, ack);
    forall i | FirstFit(s.pending, uid, requestId, ack, i)
      ensures at == i
    {
      assert AckMatches(s.pending[i], uid, requestId, ack);
      assert at < |s.pending| ==> Fits(s.pending[at], uid, requestId, ack);
    }
    assert at < |s.pending| ==> Fits(s.pending[at], uid, requestId, ack);
  }

  lemma FitIsFirst(s: State, i: nat, requestId: string, ack: int)
    requires Inv(s) && Recent(s) && i < |s.pending|
    requires requestId == "" || requestId == s.pending[i].payload.requestId
    requires ack == 0 || ack == s.pending[i].seqNo
    requires requestId != "" || ack != 0
    ensures FirstFit(s.pending, s.pending[i].uid, requestId, ack, i)
  {
    var uid := s.pending[i].uid;
    forall k | 0 <= k < i
      ensures !Fits(s.pending[k], uid, requestId, ack)
    {
      AckMarksItsCommand(s, i, requestId, ack);
      assert !AckMatches(s.pending[k], uid, requestId, ack);
    }
  }

  /** Main result: inside the window of 65535 commands, an ack that echoes a pending command's
      request id, its number or both acks that command, counts it if it is the first to, and
      changes no other. From then on it is never transmitted again and never reported as
      timed out, whatever happens. */
  lemma AckSettlesItsCommand(s: State, ttl: real, i: nat, requestId: string, ack: int, later: seq<Call>)
    requires Inv(s) && Recent(s) && i < |s.pending| && s.pending[i].uid != ""
    requires requestId == "" || requestId == s.pending[i].payload.requestId
    requires ack == 0 || ack == s.pending[i].seqNo
    requires requestId != "" || ack != 0
    ensures var s', t := HandleAck(s, s.pending[i].uid, requestId, ack), s.pending[i].ticket;
            && OnlyAcked(s.pending, s'.pending, i) && t in s'.history.ackedTickets
            && s'.acked == s.acked + (if s.pending[i].acked then 0 else 1)
            && Run(s', ttl, later).history.tries[t] == s.history.tries[t]
            && t !in Run(s', ttl, later).history.callbacks
  {
    var uid := s.pending[i].uid;
    var s' := HandleAck(s, uid, requestId, ack);
    FitIsFirst(s, i, requestId, ack);
    AckDoes(s, uid, requestId, ack);
    HandleAckKeeps(s, uid, requestId, ack);
    assert EntryOk(s', s'.pending[i]) && EntryOk(s, s.pending[i]);
    SettledStaysSettled(s', ttl, later);
  }

  // ---------------------------------------------------------------------
  // Results

  lemma RemovedIsGone(p: seq<Entry>, i: nat)
    requires i < |p| && forall k :: 0 <= k < |p| && k != i ==> p[k].key != p[i].key
    ensures forall k :: 0 <= k < |RemoveAt(p, i)| ==> RemoveAt(p, i)[k].key != p[i].key
  {
    forall k | 0 <= k < |RemoveAt(p, i)|
      ensures RemoveAt(p, i)[k].key != p[i].key
    {
      assert RemoveAt(p, i)[k] == p[if k < i then k else k + 1];
    }
  }

  /** A result takes its command out of the table, and no other, and nobody hears of it as
      timed out. */
  lemma ResultRemoves(s: State, i: nat)
    requires Distinct(s.pending) && i < |s.pending| && s.pending[i].key.0 != "" && s.pending[i].key.1 != ""
    ensures var s' := HandleResult(s, s.pending[i].key.0, s.pending[i].key.1);
            && s'.pending == s.pending[..i] + s.pending[i + 1..]
            && (forall k :: 0 <= k < |s'.pending| ==> s'.pending[k].key != s.pending[i].key)
            && s'.history.fates == s.history.fates[s.pending[i].ticket := Answered]
            && s'.history.callbacks == s.history.callbacks && s'.sessions == s.sessions
  {
    FindIs(s.pending, i);
    RemovedIsGone(s.pending, i);
  }

  /** A result for no pending command does nothing. */
  lemma StrayResultDoesNothing(s: State, uid: string, requestId: string)
    requires forall k :: 0 <= k < |s.pending| ==> s.pending[k].key != (uid, requestId)
    ensures HandleResult(s, uid, requestId) == s
  {}

  /** The key of a command with a request id is that of its result; commands without one are
      told apart by number. */
  lemma KeyOfCommand(s: State, i: nat)
    requires Inv(s) && i < |s.pending|
    ensures var e := s.pending[i];
            e.key == (e.uid, if e.payload.requestId == "" then ToDecimal(e.seqNo) else e.payload.requestId)
  {
    assert EntryOk(s, s.pending[i]);
  }

  // ---------------------------------------------------------------------
  // Sending

  /** The new entry: the command as it was given, tried once just now. */
  predicate Sent(e: Entry, uid: string, addr: Address, payload: Payload, seqNo: nat, now: real) {
    && e.uid == uid && e.addr == addr && e.payload == payload && e.seqNo == seqNo
    && e.attempts == 1 && !e.acked && e.createdAt == now && e.lastSentAt == now
  }

  /** The table with a command put under its key: at the end, or in the place of the command
      that had the key. No other entry changes. */
  ghost predicate PutUnderKey(p: seq<Entry>, p': seq<Entry>, key: Key, e: Entry) {
    exists at :: 0 <= at < |p'| && |p| <= |p'| && p'[at] == e && e.key == key
                 && (forall k :: 0 <= k < |p| && k != at ==> p'[k] == p[k])
                 && if at < |p| then |p'| == |p| && p[at].key == key
                    else at == |p| == |p'| - 1 && forall k :: 0 <= k < |p| ==> p[k].key != key
  }

  /** A queued command goes into the table as it was given, tried once. */
  lemma QueueingDoes(s: State, uid: string, addr: Address, payload: Payload, ok: bool, now: real)
    requires s.seqNo == SeqOf(s.history.queued)
    ensures var s' := QueueCommand(s, uid, addr, payload, ok, now);
            && s'.seqNo == s.history.queued % 65535 + 1
            && exists e :: Sent(e, uid, addr, payload, s'.seqNo, now)
                 && PutUnderKey(s.pending, s'.pending,
                                (uid, if payload.requestId == "" then ToDecimal(s'.seqNo) else payload.requestId), e)
  {
    var s', at := QueueCommand(s, uid, addr, payload, ok, now), Place(s, uid, payload);
    QueueIsQueued(s, uid, addr, payload, ok, now);
    SeqAdvances(s.history.queued);
    var e := s'.pending[at];
    assert Sent(e, uid, addr, payload, s'.seqNo, now);
    assert e.key == (uid, if payload.requestId == "" then ToDecimal(s'.seqNo) else payload.requestId);
    assert PutUnderKey(s.pending, s'.pending, e.key, e);
  }

  /** It counts as sent if the socket took it; if not, the session at that address is dropped. */
  lemma QueueingCounts(s: State, uid: string, addr: Address, payload: Payload, ok: bool, now: real)
    requires uid != ""
    ensures var s' := QueueCommand(s, uid, addr, payload, ok, now);
            && s'.sent == s.sent + (if ok then 1 else 0) && s'.retried == s.retried
            && s'.sessions == (if !ok && uid in s.sessions && s.sessions[uid] == addr then s.sessions - {uid}
                               else s.sessions)
  {
    var at := Place(s, uid, payload);
    var s1 := Insert(s, uid, addr, payload, now);
    assert s1.pending[at].uid == uid && s1.pending[at].addr == addr && s1.sessions == s.sessions;
  }

  /** A retry counts apart, and drops the session likewise if it fails. */
  lemma RetryDoes(s: State, i: nat, ok: bool, now: real)
    requires i < |s.pending| && s.pending[i].uid != ""
    ensures var e, s' := s.pending[i], Transmit(s, i, true, ok, now);
            && s'.pending == s.pending[i := e.(attempts := e.attempts + 1, lastSentAt := now)]
            && s'.sent == s.sent && s'.retried == s.retried + (if ok then 1 else 0)
            && s'.sessions == (if !ok && e.uid in s.sessions && s.sessions[e.uid] == e.addr then s.sessions - {e.uid}
                               else s.sessions)
  {}

  /** A device that leaves loses its session, unless it leaves an address that is not its own. */
  lemma LeavingDoes(s: State, uid: string, from: Option<Address>)
    requires uid != "" && uid in s.sessions
    ensures uid in DropSession(s, uid, from).sessions <==> from.Some? && from.value != s.sessions[uid]
    ensures forall u :: u != uid ==>
              && (u in DropSession(s, uid, from).sessions <==> u in s.sessions)
              && (u in s.sessions ==> DropSession(s, uid, from).sessions[u] == s.sessions[u])
  {}

  // ---------------------------------------------------------------------
  // Where commands go

  /** The sessions of s' are among those of s, at the same addresses. */
  ghost predicate SameAddresses(s: State, s': State) {
    forall u :: u in s'.sessions ==> u in s.sessions && s'.sessions[u] == s.sessions[u]
  }

  lemma QueueAddress(s: State, uid: string, addr: Address, payload: Payload, ok: bool, now: real)
    ensures SameAddresses(s, QueueCommand(s, uid, addr, payload, ok, now))
  {}

  lemma SendAddress(s: State, ttl: real, uid: string, payload: Payload, ok: bool, now: real)
    ensures SameAddresses(s, SendCommand(s, ttl, uid, payload, ok, now))
  {
    var pruned := Prune(s, ttl, now);
    if uid in pruned.sessions {
      QueueAddress(pruned, uid, pruned.sessions[uid], payload, ok, now);
    }
  }

  lemma VisitAddress(s: State, key: Key, stale: set<string>, ok: set<nat>, now: real)
    ensures SameAddresses(s, Visit(s, key, stale, ok, now))
  {}

  lemma {:induction false} VisitAllAddress(s: State, keys: seq<Key>, stale: set<string>, ok: set<nat>, now: real)
    ensures SameAddresses(s, VisitAll(s, keys, stale, ok, now))
  {
    if keys != [] {
      var front := keys[..|keys| - 1];
      VisitAllAddress(s, front, stale, ok, now);
      VisitAddress(VisitAll(s, front, stale, ok, now), keys[|keys| - 1], stale, ok, now);
    }
  }

  /** What a call that hears nothing of the device leaves of its session, it leaves as it was. */
  lemma AddressStays(s: State, ttl: real, call: Call, uid: string)
    requires !Hears(call, uid)
    ensures uid in Apply(s, ttl, call).sessions ==>
              uid in s.sessions && Apply(s, ttl, call).sessions[uid] == s.sessions[uid]
  {
    match call.event
    case Send(payload, ok) => SendAddress(s, ttl, call.uid, payload, ok, call.time);
    case SendTo(to, payload, ok) => QueueAddress(s, call.uid, to, payload, ok, call.time);
    case Tick(delivered) =>
      VisitAllAddress(Prune(s, ttl, call.time), Keys(s.pending), StaleUids(s, ttl, call.time), delivered, call.time);
    case _ =>
  }

  /** Main result: over every run, a device's session is at the address it was last heard from. */
  lemma {:induction false} NewestAddressIsUsed(ttl: real, calls: seq<Call>, uid: string, j: int)
    requires HeardLast(ttl, calls, uid, j) && uid in Run(EMPTY, ttl, calls).sessions
    ensures Run(EMPTY, ttl, calls).sessions[uid] == calls[j].event.addr
  {
    var n := |calls| - 1;
    if j < n {
      var front, last := calls[..n], calls[n];
      assert calls == front + [last];
      HeardBefore(ttl, front, last, uid, j);
      AddressStays(Run(EMPTY, ttl, front), ttl, last, uid);
      NewestAddressIsUsed(ttl, front, uid, j);
    }
  }

  /** Main result: over every run, a command to a device heard of within the TTL is queued for
      the address it was last heard from, given that no lapse was found before and nothing
      lost the session; otherwise nothing is queued. */
  lemma SendGoesToNewest(ttl: real, calls: seq<Call>, uid: string, j: int, payload: Payload, ok: bool, now: real)
    requires HeardLast(ttl, calls, uid, j)
    ensures var s := Run(EMPTY, ttl, calls);
            var pruned := Prune(s, ttl, now);
            SendCommand(s, ttl, uid, payload, ok, now)
            == if now - calls[j].time <= ttl && !FoundLapsed(ttl, calls, j)
               then QueueCommand(pruned, uid, calls[j].event.addr, payload, ok, now) else pruned
  {
    AcceptedExactly(ttl, calls, uid, j, now);
    SessionMatchesHistory(ttl, calls, uid, j);
    SessionsAreHeardOf(ttl, calls);
    if uid in Prune(Run(EMPTY, ttl, calls), ttl, now).sessions {
      NewestAddressIsUsed(ttl, calls, uid, j);
    }
  }

  /** A command sent to a given address is queued for it, session or not; one without uid,
      host or port is not queued. */
  lemma SendToDoes(s: State, uid: string, addr: Address, payload: Payload, ok: bool, now: real)
    ensures SendCommandTo(s, uid, addr, payload, ok, now)
         == if uid != "" && addr.host != "" && addr.port > 0 then QueueCommand(s, uid, addr, payload, ok, now) else s
  {}

  // ---------------------------------------------------------------------
  // Service

  /** A command is expired from the first whole millisecond past its expiry on. */
  lemma ExpiredExactly(e: Entry, now: real)
    requires now >= 0.0 && e.payload.expiresAtMs >= 0
    ensures Expired(e, now) <==> e.payload.expiresAtMs != 0 && now * 1000.0 >= (e.payload.expiresAtMs + 1) as real
  {}

  /** Short of an ack, an expiry, a lapsed session and thirty attempts, a service call keeps a
      command, and sends it again exactly if its last transmission is half a second old. */
  lemma ServiceKeepsTrying(s: State, ttl: real, ok: set<nat>, now: real, i: nat)
    requires Inv(s) && i < |s.pending| && !s.pending[i].acked && !Expired(s.pending[i], now)
    requires s.pending[i].uid !in s.seenAt || now - s.seenAt[s.pending[i].uid] <= ttl
    requires s.pending[i].attempts < 30 || s.pending[i].payload.expiresAtMs > 0
    ensures var e := s.pending[i];
            Find(Service(s, ttl, ok, now).pending, e.key)
            == Some(if now - e.lastSentAt >= 0.5 then e.(attempts := e.attempts + 1, lastSentAt := now) else e)
  {
    FindIs(s.pending, i);
    ServiceDecidesEach(s, ttl, ok, now, s.pending[i].key);
  }

  lemma VisitReports(s: State, e: Entry, stale: set<string>, ok: set<nat>, now: real)
    requires Find(s.pending, e.key) == Some(e) && Decide(e, stale, now) == GiveUp
    ensures e.ticket in Visit(s, e.key, stale, ok, now).history.callbacks
  {}

  lemma StaysReported(s: State, keys: seq<Key>, last: Key, stale: set<string>, ok: set<nat>, now: real, t: nat)
    requires Inv(s) && t in VisitAll(s, keys, stale, ok, now).history.callbacks
    ensures t in VisitAll(s, keys + [last], stale, ok, now).history.callbacks
  {
    assert (keys + [last])[..|keys|] == keys;
    VisitAllKeeps(s, keys, stale, ok, now);
    VisitIsLater(VisitAll(s, keys, stale, ok, now), last, stale, ok, now);
  }

  lemma FirstReported(s: State, keys: seq<Key>, e: Entry, stale: set<string>, ok: set<nat>, now: real)
    requires Inv(s) && Find(s.pending, e.key) == Some(e) && Decide(e, stale, now) == GiveUp && e.key !in keys
    requires forall i, j :: 0 <= i < j < |keys| ==> keys[i] != keys[j]
    ensures e.ticket in VisitAll(s, keys + [e.key], stale, ok, now).history.callbacks
  {
    assert (keys + [e.key])[..|keys|] == keys;
    VisitAllOutcome(s, keys, stale, ok, now, e.key);
    VisitReports(VisitAll(s, keys, stale, ok, now), e, stale, ok, now);
  }

  /** A command that a pass gives up on is reported. */
  lemma {:induction false} PassReports(s: State, keys: seq<Key>, e: Entry, stale: set<string>, ok: set<nat>, now: real)
    requires Inv(s) && Find(s.pending, e.key) == Some(e) && Decide(e, stale, now) == GiveUp && e.key in keys
    requires forall i, j :: 0 <= i < j < |keys| ==> keys[i] != keys[j]
    ensures e.ticket in VisitAll(s, keys, stale, ok, now).history.callbacks
  {
    hide Inv, Find, Decide, VisitAll;
    var front, last := keys[..|keys| - 1], keys[|keys| - 1];
    assert keys == front + [last];
    if e.key in front {
      PassReports(s, front, e, stale, ok, now);
      StaysReported(s, front, last, stale, ok, now, e.ticket);
    } else {
      FirstReported(s, front, e, stale, ok, now);
    }
  }

  /** And it gives an unacked one up in each of the other cases, and reports it. */
  lemma ServiceGivesUp(s: State, ttl: real, ok: set<nat>, now: real, i: nat)
    requires Inv(s) && i < |s.pending| && !s.pending[i].acked
    requires || Expired(s.pending[i], now)
             || (s.pending[i].uid in s.seenAt && now - s.seenAt[s.pending[i].uid] > ttl)
             || (s.pending[i].attempts >= 30 && s.pending[i].payload.expiresAtMs <= 0)
    ensures Find(Service(s, ttl, ok, now).pending, s.pending[i].key) == None
    ensures s.pending[i].ticket in Service(s, ttl, ok, now).history.callbacks
  {
    FindIs(s.pending, i);
    ServiceDecidesEach(s, ttl, ok, now, s.pending[i].key);
    SameTableKeeps(s, Prune(s, ttl, now));
    assert Keys(s.pending)[i] == s.pending[i].key;
    PassReports(Prune(s, ttl, now), Keys(s.pending), s.pending[i], StaleUids(s, ttl, now), ok, now);
  }

  lemma VisitRetries(s: State, key: Key, stale: set<string>, ok: set<nat>, now: real)
    ensures Visit(s, key, stale, ok, now).sent == s.sent
    ensures forall i :: 0 <= i < |s.pending| && i == IndexOfKey(s.pending, key) ==>
              Visit(s, key, stale, ok, now).retried
              == s.retried + if Decide(s.pending[i], stale, now) == Resend && s.pending[i].ticket in ok then 1 else 0
  {}

  /** What a pass transmits counts as retried, not as sent. */
  lemma {:induction false} PassRetries(s: State, keys: seq<Key>, stale: set<string>, ok: set<nat>, now: real)
    ensures VisitAll(s, keys, stale, ok, now).sent == s.sent
  {
    if keys != [] {
      var front := keys[..|keys| - 1];
      PassRetries(s, front, stale, ok, now);
      VisitRetries(VisitAll(s, front, stale, ok, now), keys[|keys| - 1], stale, ok, now);
    }
  }
}
