/** Sessions over whole runs of the dispatcher, and the commands that depend on them. */
module UdpSessions {
  import opened Wrappers
  import opened UdpControl
  import opened UdpLedger
  import opened UdpDelivery

  /** The calls that prune lapsed sessions. */
  predicate Prunes(call: Call) { call.event.Tick? || call.event.Snapshot? || (call.event.Send? && call.uid != "") }

  predicate Hears(call: Call, uid: string) { call.event.Session? && call.uid == uid && uid != "" }

  predicate Lapsed(s: State, ttl: real, uid: string, now: real) {
    uid in s.seenAt && now - s.seenAt[uid] > ttl
  }

  /** The call ends the session of `uid` for another reason than a lapse: the device is
      dropped, or a transmission to it fails. */
  predicate Loses(s: State, ttl: real, call: Call, uid: string) {
    uid in s.seenAt && uid !in Apply(s, ttl, call).seenAt && !(Prunes(call) && Lapsed(s, ttl, uid, call.time))
  }

  // ---------------------------------------------------------------------
  // One call

  /** The sessions of s' are among those of s, heard of at the same times. */
  ghost predicate FewerSessions(s: State, s': State) {
    && (forall u :: u in s'.seenAt ==> u in s.seenAt && s'.seenAt[u] == s.seenAt[u])
    && (s.sessions.Keys == s.seenAt.Keys ==> s'.sessions.Keys == s'.seenAt.Keys)
  }

  lemma VisitSessions(s: State, key: Key, stale: set<string>, ok: set<nat>, now: real)
    ensures FewerSessions(s, Visit(s, key, stale, ok, now))
  {}

  lemma {:induction false} VisitAllSessions(s: State, keys: seq<Key>, stale: set<string>, ok: set<nat>, now: real)
    ensures FewerSessions(s, VisitAll(s, keys, stale, ok, now))
  {
    if keys != [] {
      VisitAllSessions(s, keys[..|keys| - 1], stale, ok, now);
      VisitSessions(VisitAll(s, keys[..|keys| - 1], stale, ok, now), keys[|keys| - 1], stale, ok, now);
    }
  }

  lemma QueueSessions(s: State, uid: string, addr: Address, payload: Payload, ok: bool, now: real)
    ensures FewerSessions(s, QueueCommand(s, uid, addr, payload, ok, now))
  {}

  lemma PruneSessions(s: State, ttl: real, now: real)
    ensures FewerSessions(s, Prune(s, ttl, now))
    ensures forall u :: u in Prune(s, ttl, now).seenAt <==> u in s.seenAt && now - s.seenAt[u] <= ttl
  {}

  /** What a call that hears nothing of the device does to its session. */
  lemma SessionStep(s: State, ttl: real, call: Call, uid: string)
    requires !Hears(call, uid)
    ensures var s' := Apply(s, ttl, call);
            && (uid in s'.seenAt ==> uid in s.seenAt && s'.seenAt[uid] == s.seenAt[uid])
            && (Prunes(call) && Lapsed(s, ttl, uid, call.time) ==> uid !in s'.seenAt)
  {
    PruneSessions(s, ttl, call.time);
    var pruned := Prune(s, ttl, call.time);
    match call.event
    case Send(payload, ok) =>
      if call.uid in pruned.sessions {
        QueueSessions(pruned, call.uid, pruned.sessions[call.uid], payload, ok, call.time);
      }
    case SendTo(to, payload, ok) => QueueSessions(s, call.uid, to, payload, ok, call.time);
    case Tick(delivered) =>
      VisitAllSessions(pruned, Keys(s.pending), StaleUids(s, ttl, call.time), delivered, call.time);
    case _ =>
  }

  // ---------------------------------------------------------------------
  // Runs

  /** Call j is the last the gateway heard of the device, and no call since lost the session. */
  ghost predicate HeardLast(ttl: real, calls: seq<Call>, uid: string, j: int) {
    && 0 <= j < |calls| && Hears(calls[j], uid)
    && forall k :: j < k < |calls| ==> !Hears(calls[k], uid) && !Loses(Run(EMPTY, ttl, calls[..k]), ttl, calls[k], uid)
  }

  /** A call since j pruned sessions when this one had already lapsed. */
  ghost predicate FoundLapsed(ttl: real, calls: seq<Call>, j: int) {
    exists k :: 0 <= j < k < |calls| && Prunes(calls[k]) && calls[k].time - calls[j].time > ttl
  }

  lemma HeardBefore(ttl: real, front: seq<Call>, last: Call, uid: string, j: int)
    requires HeardLast(ttl, front + [last], uid, j) && j < |front|
    ensures HeardLast(ttl, front, uid, j)
    ensures !Hears(last, uid) && !Loses(Run(EMPTY, ttl, front), ttl, last, uid)
  {
    var calls := front + [last];
    assert calls[..|front|] == front && calls[|front|] == last;
    forall k | j < k < |front|
      ensures !Hears(front[k], uid) && !Loses(Run(EMPTY, ttl, front[..k]), ttl, front[k], uid)
    {
      assert front[..k] == calls[..k] && front[k] == calls[k];
    }
  }

  lemma FoundExtends(ttl: real, front: seq<Call>, last: Call, j: int)
    requires 0 <= j < |front|
    ensures FoundLapsed(ttl, front + [last], j)
        <==> FoundLapsed(ttl, front, j) || (Prunes(last) && last.time - front[j].time > ttl)
  {
    var calls := front + [last];
    assert calls[|front|] == last && forall k :: 0 <= k < |front| ==> calls[k] == front[k];
  }

  lemma {:induction false} SessionMatchesHistory(ttl: real, calls: seq<Call>, uid: string, j: int)
    requires HeardLast(ttl, calls, uid, j)
    ensures uid in Run(EMPTY, ttl, calls).seenAt <==> !FoundLapsed(ttl, calls, j)
    ensures uid in Run(EMPTY, ttl, calls).seenAt ==> Run(EMPTY, ttl, calls).seenAt[uid] == calls[j].time
  {
    var n := |calls| - 1;
    if j < n {
      var front, last := calls[..n], calls[n];
      assert calls == front + [last];
      HeardBefore(ttl, front, last, uid, j);
      FoundExtends(ttl, front, last, j);
      SessionMatchesHistory(ttl, front, uid, j);
      SessionStep(Run(EMPTY, ttl, front), ttl, last, uid);
    }
  }

  lemma {:induction false} SessionsAreHeardOf(ttl: real, calls: seq<Call>)
    ensures Run(EMPTY, ttl, calls).sessions.Keys == Run(EMPTY, ttl, calls).seenAt.Keys
  {
    if calls != [] {
      var front, last := calls[..|calls| - 1], calls[|calls| - 1];
      var s := Run(EMPTY, ttl, front);
      SessionsAreHeardOf(ttl, front);
      SessionsKept(s, ttl, last);
    }
  }

  lemma SessionsKept(s: State, ttl: real, call: Call)
    requires s.sessions.Keys == s.seenAt.Keys
    ensures Apply(s, ttl, call).sessions.Keys == Apply(s, ttl, call).seenAt.Keys
  {
    PruneSessions(s, ttl, call.time);
    var pruned := Prune(s, ttl, call.time);
    match call.event
    case Send(payload, ok) =>
      if call.uid in pruned.sessions {
        QueueSessions(pruned, call.uid, pruned.sessions[call.uid], payload, ok, call.time);
      }
    case SendTo(to, payload, ok) => QueueSessions(s, call.uid, to, payload, ok, call.time);
    case Tick(delivered) =>
      VisitAllSessions(pruned, Keys(s.pending), StaleUids(s, ttl, call.time), delivered, call.time);
    case _ =>
  }

  /** Main result: over every run, a silent device's commands fail at a service call past the
      TTL if and only if no snapshot, send or service call after the lapse came before it;
      otherwise they go on being retried. */
  lemma LapsedSessionFailsExactly(ttl: real, calls: seq<Call>, j: int, ok: set<nat>, now: real, i: nat)
    requires i < |Run(EMPTY, ttl, calls).pending| && Undecided(Run(EMPTY, ttl, calls).pending[i], now)
    requires HeardLast(ttl, calls, Run(EMPTY, ttl, calls).pending[i].uid, j) && now - calls[j].time > ttl
    ensures var s := Run(EMPTY, ttl, calls);
            Find(Service(s, ttl, ok, now).pending, s.pending[i].key) == None <==> !FoundLapsed(ttl, calls, j)
  {
    var s := Run(EMPTY, ttl, calls);
    EmptyInv();
    RunKeeps(EMPTY, ttl, calls);
    SessionMatchesHistory(ttl, calls, s.pending[i].uid, j);
    SnapshotHidesStaleness(s, ttl, ok, now, now, i);
  }

  /** Main result: over every run, a command to a device is accepted exactly when it was
      heard of within the TTL, given that no lapse was found before and nothing lost the
      session. */
  lemma AcceptedExactly(ttl: real, calls: seq<Call>, uid: string, j: int, now: real)
    requires HeardLast(ttl, calls, uid, j)
    ensures uid in Prune(Run(EMPTY, ttl, calls), ttl, now).sessions
        <==> now - calls[j].time <= ttl && !FoundLapsed(ttl, calls, j)
  {
    SessionMatchesHistory(ttl, calls, uid, j);
    SessionsAreHeardOf(ttl, calls);
  }

  // ---------------------------------------------------------------------
  // A concrete run

  lemma RunSnoc(ttl: real, calls: seq<Call>, call: Call)
    ensures Run(EMPTY, ttl, calls + [call]) == Apply(Run(EMPTY, ttl, calls), ttl, call)
  {
    assert (calls + [call])[..|calls|] == calls;
  }

  const SENSOR := Address("192.168.1.7", 9000)
  const ASK := Payload("r1", "status", 0, "")
  const HELLO := Call("D", 0.0, Session(SENSOR))
  const QUESTION := Call("D", 0.0, Send(ASK, true))

  /** The question, put to a device just heard of. */
  const ASKED := Entry(0, ("D", "r1"), "D", SENSOR, ASK, 1, 1, false, 0.0, 0.0)

  lemma QuietRun()
    ensures var s := Run(EMPTY, 90.0, [HELLO, QUESTION]);
            s.pending == [ASKED] && s.seenAt == map["D" := 0.0]
  {
    RunSnoc(90.0, [], HELLO);
    assert [] + [HELLO] == [HELLO];
    RunSnoc(90.0, [HELLO], QUESTION);
    assert [HELLO] + [QUESTION] == [HELLO, QUESTION];
    var s := SetSession(EMPTY, "D", SENSOR, 0.0);
    assert Run(EMPTY, 90.0, [HELLO]) == s;
    assert StaleUids(s, 90.0, 0.0) == {};
    assert Prune(s, 90.0, 0.0) == s;
    assert Run(EMPTY, 90.0, [HELLO, QUESTION]) == QueueCommand(s, "D", SENSOR, ASK, true, 0.0);
  }

  lemma PolledRun()
    ensures Run(EMPTY, 90.0, [HELLO, QUESTION, Call("", 91.0, Snapshot)]) ==
        Prune(Run(EMPTY, 90.0, [HELLO, QUESTION]), 90.0, 91.0)
  {
    RunSnoc(90.0, [HELLO, QUESTION], Call("", 91.0, Snapshot));
    assert [HELLO, QUESTION] + [Call("", 91.0, Snapshot)] == [HELLO, QUESTION, Call("", 91.0, Snapshot)];
  }

  lemma AskedOutcomes(s: State, ok: set<nat>)
    requires Inv(s) && s.pending == [ASKED] && s.seenAt == map["D" := 0.0]
    ensures Find(Service(s, 90.0, ok, 92.0).pending, ASKED.key) == None
    ensures Find(Service(Prune(s, 90.0, 91.0), 90.0, ok, 92.0).pending, ASKED.key) != None
  {
    assert s.pending[0] == ASKED && Undecided(ASKED, 92.0);
    SnapshotHidesStaleness(s, 90.0, ok, 91.0, 92.0, 0);
  }

  /** A status snapshot taken after the device fell silent for the TTL keeps the next
      service call from failing its command. */
  lemma SnapshotChangesTheOutcome(ok: set<nat>)
    ensures var quiet, polled := [HELLO, QUESTION], [HELLO, QUESTION, Call("", 91.0, Snapshot)];
            && Find(Service(Run(EMPTY, 90.0, quiet), 90.0, ok, 92.0).pending, ASKED.key) == None
            && Find(Service(Run(EMPTY, 90.0, polled), 90.0, ok, 92.0).pending, ASKED.key) != None
  {
    QuietRun();
    PolledRun();
    EmptyInv();
    RunKeeps(EMPTY, 90.0, [HELLO, QUESTION]);
    AskedOutcomes(Run(EMPTY, 90.0, [HELLO, QUESTION]), ok);
  }
}
