/** What the presence table means over whole runs from start-up. */
module PresenceHistory {
  import opened Wrappers
  import opened Presence
  import Claims

  ghost predicate Sound(c: Config) { c.pruneAfterSec >= c.controlStaleSec >= 1.0 }

  // ---------------------------------------------------------------------
  // Serving, characterised by the calls that were made

  /** Some evidence among `calls` is at most controlStaleSec old at `t`. */
  ghost predicate FreshAt(c: Config, g: string, calls: seq<Call>, uid: string, t: real) {
    exists e :: 0 <= e < |calls| && Evidence(g, calls[e], uid) && t - calls[e].time <= c.controlStaleSec
  }

  /** Call j attached the device, nothing released it since, and every sweep
      since then found fresh evidence. */
  ghost predicate HeldSince(c: Config, g: string, calls: seq<Call>, uid: string, j: int) {
    && 0 <= j < |calls|
    && Attaches(g, calls[j], uid)
    && forall i :: j < i < |calls| ==> KeptBy(c, g, calls, uid, i)
  }

  ghost predicate KeptBy(c: Config, g: string, calls: seq<Call>, uid: string, i: int)
    requires 0 <= i < |calls|
  {
    && !Releases(g, calls[i], uid)
    && (calls[i].event.Query? ==> FreshAt(c, g, calls[..i], uid, calls[i].time))
  }

  ghost predicate SeenWithin(c: Config, s: State, uid: string, t: real) {
    uid in s.devices && s.devices[uid].lastSeen.Some? && t - s.devices[uid].lastSeen.value <= c.controlStaleSec
  }

  /** Every connected device has been seen, and no empty uid is ever stored. */
  ghost predicate Consistent(s: State) {
    forall uid :: uid in s.devices ==> uid != "" && (s.devices[uid].connected ==> s.devices[uid].lastSeen.Some?)
  }

  lemma ApplyKeepsConsistent(c: Config, g: string, s: State, call: Call)
    requires Consistent(s)
    ensures Consistent(Apply(c, g, s, call))
  {
    match call.event {
      case Query =>
      case Control(_, _, _) =>
      case _ =>
    }
  }

  lemma {:induction false} RunIsConsistent(c: Config, g: string, calls: seq<Call>)
    ensures Consistent(Run(c, g, EMPTY, calls))
  {
    if calls != [] {
      RunIsConsistent(c, g, calls[..|calls| - 1]);
      ApplyKeepsConsistent(c, g, Run(c, g, EMPTY, calls[..|calls| - 1]), calls[|calls| - 1]);
    }
  }

  lemma FreshExtends(c: Config, g: string, calls: seq<Call>, call: Call, uid: string, t: real)
    ensures FreshAt(c, g, calls + [call], uid, t)
        <==> FreshAt(c, g, calls, uid, t) || (Evidence(g, call, uid) && t - call.time <= c.controlStaleSec)
  {
    var all := calls + [call];
    assert all[|calls|] == call;
    assert forall e :: 0 <= e < |calls| ==> all[e] == calls[e];
  }

  ghost predicate SeenBy(s: State, now: real) {
    forall u :: u in s.devices && s.devices[u].lastSeen.Some? ==> s.devices[u].lastSeen.value <= now
  }

  lemma ApplySeen(c: Config, g: string, s: State, call: Call, uid: string, t: real)
    requires Sound(c) && Consistent(s) && call.time <= t && SeenBy(s, call.time)
    ensures SeenWithin(c, Apply(c, g, s, call), uid, t)
        <==> (if Evidence(g, call, uid) then t - call.time <= c.controlStaleSec else SeenWithin(c, s, uid, t))
  {
    match call.event {
      case Query =>
      case Control(_, _, _) =>
      case _ =>
    }
  }

  lemma ApplySeenBy(c: Config, g: string, s: State, call: Call, now: real)
    requires SeenBy(s, now) && call.time <= now
    ensures SeenBy(Apply(c, g, s, call), now)
  {
    match call.event {
      case Query =>
      case Control(_, _, _) =>
      case _ =>
    }
  }

  lemma {:induction false} SeenIsPast(c: Config, g: string, calls: seq<Call>, now: real)
    requires NotAfter(calls, now)
    ensures SeenBy(Run(c, g, EMPTY, calls), now)
  {
    if calls != [] {
      SeenIsPast(c, g, calls[..|calls| - 1], now);
      ApplySeenBy(c, g, Run(c, g, EMPTY, calls[..|calls| - 1]), calls[|calls| - 1], now);
    }
  }

  /** The stored last-seen time decides freshness exactly as the history would,
      even after the device was pruned and forgotten. */
  lemma {:induction false} SeenMatchesHistory(c: Config, g: string, calls: seq<Call>, uid: string, t: real)
    requires Sound(c) && Timely(calls) && NotAfter(calls, t)
    ensures SeenWithin(c, Run(c, g, EMPTY, calls), uid, t) <==> FreshAt(c, g, calls, uid, t)
  {
    if calls != [] {
      var n := |calls| - 1;
      var before, last := calls[..n], calls[n];
      assert calls == before + [last];
      SeenMatchesHistory(c, g, before, uid, t);
      FreshExtends(c, g, before, last, uid, t);
      RunIsConsistent(c, g, before);
      SeenIsPast(c, g, before, last.time);
      ApplySeen(c, g, Run(c, g, EMPTY, before), last, uid, t);
    }
  }

  lemma HeldExtends(c: Config, g: string, calls: seq<Call>, call: Call, uid: string, j: int)
    requires 0 <= j < |calls|
    ensures HeldSince(c, g, calls + [call], uid, j)
        <==> HeldSince(c, g, calls, uid, j) && !Releases(g, call, uid)
             && (call.event.Query? ==> FreshAt(c, g, calls, uid, call.time))
  {
    var all := calls + [call];
    assert all[..|calls|] == calls;
    forall i | j < i < |calls|
      ensures KeptBy(c, g, all, uid, i) <==> KeptBy(c, g, calls, uid, i)
    {
      assert all[..i] == calls[..i];
    }
    assert KeptBy(c, g, all, uid, |calls|)
      <==> !Releases(g, call, uid) && (call.event.Query? ==> FreshAt(c, g, calls, uid, call.time));
    if HeldSince(c, g, all, uid, j) {
      assert KeptBy(c, g, all, uid, |calls|);
    }
  }

  lemma ApplyServes(c: Config, g: string, s: State, call: Call, uid: string)
    requires Sound(c) && Consistent(s)
    ensures Serves(Apply(c, g, s, call), uid)
        <==> Attaches(g, call, uid)
             || (Serves(s, uid) && !Releases(g, call, uid) && (call.event.Query? ==> SeenWithin(c, s, uid, call.time)))
  {}

  lemma {:induction false} ConnectedMatchesHistory(c: Config, g: string, calls: seq<Call>, uid: string)
    requires Sound(c) && Timely(calls)
    ensures Serves(Run(c, g, EMPTY, calls), uid) <==> exists j :: HeldSince(c, g, calls, uid, j)
  {
    if calls != [] {
      var n := |calls| - 1;
      var before, last := calls[..n], calls[n];
      var s := Run(c, g, EMPTY, before);
      assert calls == before + [last];
      ConnectedMatchesHistory(c, g, before, uid);
      RunIsConsistent(c, g, before);
      SeenMatchesHistory(c, g, before, uid, last.time);
      forall j | 0 <= j < n
        ensures HeldSince(c, g, calls, uid, j)
            <==> HeldSince(c, g, before, uid, j) && !Releases(g, last, uid)
                 && (last.event.Query? ==> FreshAt(c, g, before, uid, last.time))
      {
        HeldExtends(c, g, before, last, uid, j);
      }
      assert HeldSince(c, g, calls, uid, n) <==> Attaches(g, last, uid);
      ApplyServes(c, g, s, last, uid);
      assert forall j :: HeldSince(c, g, calls, uid, j) ==> j < n || j == n;
    }
  }

  /** Main result: a gateway serves a device exactly when some call attached it,
      no call released it since, and evidence never lapsed at a sweep. */
  lemma ServedExactly(c: Config, g: string, calls: seq<Call>, uid: string, now: real)
    requires Sound(c) && Timely(calls) && NotAfter(calls, now)
    ensures IsServing(c, Run(c, g, EMPTY, calls), uid, now)
        <==> (exists j :: HeldSince(c, g, calls, uid, j)) && FreshAt(c, g, calls, uid, now)
  {
    ConnectedMatchesHistory(c, g, calls, uid);
    SeenMatchesHistory(c, g, calls, uid, now);
    RunIsConsistent(c, g, calls);
  }

  /** Position `i` has a heartbeat of `uid` at most controlStaleSec before time `t`. */
  ghost predicate BeatWithin(c: Config, calls: seq<Call>, uid: string, i: int, t: real) {
    exists b :: 0 <= b < i <= |calls| && calls[b].uid == uid && calls[b].event.Heartbeat? &&
        t - calls[b].time <= c.controlStaleSec
  }

  /** A device whose heartbeats are never more than controlStaleSec apart, and
      which nothing releases, is served throughout. */
  lemma SteadyHeartbeatsServe(c: Config, g: string, calls: seq<Call>, uid: string, first: nat, now: real)
    requires Sound(c) && Timely(calls) && NotAfter(calls, now) && uid != ""
    requires first < |calls| && calls[first].uid == uid && calls[first].event.Heartbeat?
    requires forall i :: first < i < |calls| ==>
        !Releases(g, calls[i], uid) && BeatWithin(c, calls, uid, i, calls[i].time)
    requires BeatWithin(c, calls, uid, |calls|, now)
    ensures IsServing(c, Run(c, g, EMPTY, calls), uid, now)
  {
    forall i | first < i < |calls|
      ensures KeptBy(c, g, calls, uid, i)
    {
      var b :| 0 <= b < i && calls[b].uid == uid && calls[b].event.Heartbeat? &&
          calls[i].time - calls[b].time <= c.controlStaleSec;
      assert calls[..i][b] == calls[b];
    }
    assert HeldSince(c, g, calls, uid, first);
    var b :| 0 <= b < |calls| && calls[b].uid == uid && calls[b].event.Heartbeat? &&
        now - calls[b].time <= c.controlStaleSec;
    assert Evidence(g, calls[b], uid);
    ServedExactly(c, g, calls, uid, now);
  }

  /** The number a sweep leaves connected is the number of served uids. */
  lemma CountIsServed(c: Config, s: State, now: real, served: set<string>)
    requires forall uid :: uid in served <==> IsServing(c, s, uid, now)
    ensures ServedSet(Sweep(c, s, now)) == served
    ensures |ServedSet(Sweep(c, s, now))| == |served|
  {
    assert ServedSet(Sweep(c, s, now)) == served;
  }

  // ---------------------------------------------------------------------
  // Lazy sweeps

  lemma SweepsCompose(c: Config, s: State, t1: real, t2: real)
    requires t1 <= t2
    ensures Sweep(c, Sweep(c, s, t1), t2) == Sweep(c, s, t2)
  {
    assert SweepDevices(c, SweepDevices(c, s.devices, t1), t2) == SweepDevices(c, s.devices, t2);
  }

  /** A device still connected after staleness marking is never pruned. */
  lemma SweepKeepsConnected(c: Config, s: State, uid: string, now: real)
    requires Sound(c) && Consistent(s) && uid in s.devices
    ensures MarkStale(c, s.devices[uid], now).connected ==> uid in Sweep(c, s, now).devices
  {}

  /** A device is forgotten exactly when both activity times are overdue; one that
      has neither (say, known only from command results) is kept forever. */
  lemma ForgottenExactly(c: Config, s: State, uid: string, now: real)
    requires uid in s.devices
    ensures uid !in Sweep(c, s, now).devices
        <==> var d := s.devices[uid];
             && (d.lastSeen.Some? || d.lastFindme.Some?)
             && (d.lastSeen.Some? ==> now - d.lastSeen.value > c.pruneAfterSec)
             && (d.lastFindme.Some? ==> now - d.lastFindme.value > c.pruneAfterSec)
  {}

  /** A forwarded packet keeps a served device alive but never revives one that a
      sweep has already dropped, so an extra poll can change what comes later. */
  lemma PollCanChangeTheFuture(c: Config, g: string, uid: string)
    requires Sound(c) && uid != ""
    ensures var lapse := c.controlStaleSec + 1.0;
            var beat := Call(uid, 0.0, 0, Heartbeat);
            var poll := Call(uid, lapse, 0, Query);
            var packet := Call(uid, lapse, 0, UdpPacket(true));
            && IsServing(c, Run(c, g, EMPTY, [beat, packet]), uid, lapse)
            && !IsServing(c, Run(c, g, EMPTY, [beat, poll, packet]), uid, lapse)
  {
    var lapse := c.controlStaleSec + 1.0;
    var beat := Call(uid, 0.0, 0, Heartbeat);
    var poll := Call(uid, lapse, 0, Query);
    var packet := Call(uid, lapse, 0, UdpPacket(true));
    var s1 := RecordHeartbeat(EMPTY, uid, 0.0, 0);
    assert [beat][..0] == [];
    assert Run(c, g, EMPTY, [beat]) == s1;
    assert [beat, packet][..1] == [beat];
    assert Run(c, g, EMPTY, [beat, packet]) == RecordUdpPacket(s1, uid, true, lapse);
    assert [beat, poll][..1] == [beat];
    assert [beat, poll, packet][..2] == [beat, poll];
    assert Run(c, g, EMPTY, [beat, poll]) == Sweep(c, s1, lapse);
    assert !Serves(Run(c, g, EMPTY, [beat, poll]), uid);
  }

  lemma PollIsNoEvidence(c: Config, g: string, pre: seq<Call>, poll: Call, calls: seq<Call>, uid: string, t: real)
    requires poll.event.Query?
    ensures FreshAt(c, g, pre + [poll] + calls, uid, t) <==> FreshAt(c, g, pre + calls, uid, t)
  {
    var with, without := pre + [poll] + calls, pre + calls;
    forall e | 0 <= e < |with| && e != |pre|
      ensures with[e] == without[if e < |pre| then e else e - 1]
    {}
    forall e | 0 <= e < |without|
      ensures without[e] == with[if e < |pre| then e else e + 1]
    {}
  }

  lemma TimelySelection(all: seq<Call>, part: seq<Call>, at: seq<nat>)
    requires Timely(all) && |at| == |part|
    requires forall i :: 0 <= i < |at| ==> at[i] < |all| && part[i] == all[at[i]]
    requires forall i, j :: 0 <= i <= j < |at| ==> at[i] <= at[j]
    ensures Timely(part)
  {}

  lemma TimelyParts(pre: seq<Call>, poll: Call, calls: seq<Call>)
    requires Timely(pre + [poll] + calls)
    ensures Timely(pre + calls) && Timely(pre) && NotAfter(pre, poll.time)
  {
    var with := pre + [poll] + calls;
    TimelySelection(with, pre + calls, seq(|pre + calls|, i requires 0 <= i => if i < |pre| then i else i + 1));
    TimelySelection(with, pre, seq(|pre|, i requires 0 <= i => i));
    assert with[|pre|] == poll && forall i :: 0 <= i < |pre| ==> pre[i] == with[i];
  }

  lemma TimelyFront(calls: seq<Call>, last: Call)
    requires Timely(calls + [last])
    ensures Timely(calls) && NotAfter(calls, last.time)
  {
    var all := calls + [last];
    assert all[|calls|] == last && forall i :: 0 <= i < |calls| ==> calls[i] == all[i];
  }

  ghost predicate AttachedDuring(g: string, calls: seq<Call>, uid: string) {
    exists k :: 0 <= k < |calls| && Attaches(g, calls[k], uid)
  }

  lemma AttachedExtends(g: string, calls: seq<Call>, call: Call, uid: string)
    ensures AttachedDuring(g, calls + [call], uid) <==> AttachedDuring(g, calls, uid) || Attaches(g, call, uid)
  {
    var all := calls + [call];
    assert all[|calls|] == call;
    assert forall k :: 0 <= k < |calls| ==> all[k] == calls[k];
  }

  lemma {:induction false} PollDisconnects(c: Config, g: string, pre: seq<Call>, poll: Call, calls: seq<Call>,
                                        uid: string)
    requires Sound(c) && Timely(pre + [poll] + calls) && poll.event.Query?
    ensures Serves(Run(c, g, EMPTY, pre + [poll] + calls), uid)
        <==> Serves(Run(c, g, EMPTY, pre + calls), uid)
             && (FreshAt(c, g, pre, uid, poll.time) || AttachedDuring(g, calls, uid))
  {
    var with, without := pre + [poll] + calls, pre + calls;
    TimelyParts(pre, poll, calls);
    if calls == [] {
      assert without == pre && with == pre + [poll] && with[..|pre|] == pre;
      RunIsConsistent(c, g, pre);
      SeenMatchesHistory(c, g, pre, uid, poll.time);
      ApplyServes(c, g, Run(c, g, EMPTY, pre), poll, uid);
    } else {
      var front, last := calls[..|calls| - 1], calls[|calls| - 1];
      var a, b := pre + front, pre + [poll] + front;
      assert calls == front + [last] && without == a + [last] && with == b + [last];
      TimelyFront(a, last);
      TimelyFront(b, last);
      PollDisconnects(c, g, pre, poll, front, uid);
      AttachedExtends(g, front, last, uid);
      PollIsNoEvidence(c, g, pre, poll, front, uid, last.time);
      StepServes(c, g, a, last, uid);
      StepServes(c, g, b, last, uid);
    }
  }

  lemma StepServes(c: Config, g: string, calls: seq<Call>, call: Call, uid: string)
    requires Sound(c) && Timely(calls) && NotAfter(calls, call.time)
    ensures Serves(Run(c, g, EMPTY, calls + [call]), uid)
        <==> Attaches(g, call, uid)
             || (Serves(Run(c, g, EMPTY, calls), uid) && !Releases(g, call, uid)
                 && (call.event.Query? ==> FreshAt(c, g, calls, uid, call.time)))
  {
    assert (calls + [call])[..|calls|] == calls;
    RunIsConsistent(c, g, calls);
    SeenMatchesHistory(c, g, calls, uid, call.time);
    ApplyServes(c, g, Run(c, g, EMPTY, calls), call, uid);
  }

  /** Main result: exactly what one extra poll changes later. It never adds service, and it
      takes it away exactly when evidence had lapsed at the poll and nothing has attached
      the device since, though what came later kept it alive. */
  lemma PollMattersExactly(c: Config, g: string, pre: seq<Call>, poll: Call, calls: seq<Call>, uid: string, now: real)
    requires Sound(c) && Timely(pre + [poll] + calls) && NotAfter(pre + [poll] + calls, now) && poll.event.Query?
    ensures IsServing(c, Run(c, g, EMPTY, pre + [poll] + calls), uid, now)
        <==> IsServing(c, Run(c, g, EMPTY, pre + calls), uid, now)
             && (FreshAt(c, g, pre, uid, poll.time) || AttachedDuring(g, calls, uid))
  {
    var with, without := pre + [poll] + calls, pre + calls;
    TimelyParts(pre, poll, calls);
    forall i | 0 <= i < |without|
      ensures without[i].time <= now
    {
      assert without[i] == with[if i < |pre| then i else i + 1];
    }
    PollDisconnects(c, g, pre, poll, calls, uid);
    PollIsNoEvidence(c, g, pre, poll, calls, uid, now);
    ServedExactly(c, g, with, uid, now);
    ServedExactly(c, g, without, uid, now);
    ConnectedMatchesHistory(c, g, with, uid);
    ConnectedMatchesHistory(c, g, without, uid);
  }

  // ---------------------------------------------------------------------
  // FindMe admission

  /** The log is newest first and a device's own record is its newest request. */
  ghost predicate LogOrdered(s: State, now: real) {
    && |s.log| <= LOG_CAP
    && (forall i, j :: 0 <= i <= j < |s.log| ==> s.log[j].receivedAt <= s.log[i].receivedAt)
    && (forall i :: 0 <= i < |s.log| ==> s.log[i].receivedAt <= now)
  }

  lemma {:induction false} LogStaysOrdered(c: Config, g: string, calls: seq<Call>, now: real)
    requires Timely(calls) && NotAfter(calls, now)
    ensures LogOrdered(Run(c, g, EMPTY, calls), now)
  {
    if calls != [] {
      var before, last := calls[..|calls| - 1], calls[|calls| - 1];
      LogStaysOrdered(c, g, before, last.time);
    }
  }

  /** Stopping at the newest match is right on a time-ordered log. */
  lemma {:induction false} FirstMatchDecides(c: Config, log: seq<FindmeRequest>, uid: string, host: string, now: real)
    requires forall i, j :: 0 <= i <= j < |log| ==> log[j].receivedAt <= log[i].receivedAt
    ensures LogAllows(c, log, uid, host, now) <==> exists r :: r in log && Grants(c, r, uid, host, now)
  {
    if log != [] {
      var rest := log[1..];
      assert log == [log[0]] + rest;
      FirstMatchDecides(c, rest, uid, host, now);
      forall r | r in log
        ensures r == log[0] || (r in rest && r.receivedAt <= log[0].receivedAt)
      {
        var k :| 0 <= k < |log| && log[k] == r;
        assert k > 0 ==> rest[k - 1] == r;
      }
      assert log[0] in log;
      assert forall r :: r in rest ==> r in log;
    }
  }

  /** Main result: a stream is admitted exactly when some request the gateway still
      holds, in the device's record or in the log, was accepted recently enough. */
  lemma AdmissionExactly(c: Config, g: string, calls: seq<Call>, uid: string, host: string, now: real)
    requires Timely(calls) && NotAfter(calls, now)
    ensures AllowsStream(c, Run(c, g, EMPTY, calls), uid, host, now)
        <==> DeviceGrants(c, DeviceOf(Run(c, g, EMPTY, calls), uid), host, now)
             || exists r :: r in Run(c, g, EMPTY, calls).log && Grants(c, r, uid, host, now)
  {
    LogStaysOrdered(c, g, calls, now);
    FirstMatchDecides(c, Run(c, g, EMPTY, calls).log, uid, host, now);
  }

  ghost predicate Requested(call: Call, uid: string, host: string) {
    call.uid == uid && call.event.Findme? && call.event.accepted && call.event.addr == host
  }

  /** One call adds to the log only its own request. */
  lemma LogAfter(c: Config, g: string, s: State, call: Call)
    ensures forall r :: r in Apply(c, g, s, call).log && r.accepted ==>
              r in s.log || (Requested(call, r.uid, r.addr) && call.time == r.receivedAt)
  {}

  /** And to a device's record likewise. */
  lemma RecordAfter(c: Config, g: string, s: State, call: Call, uid: string)
    ensures var d, d' := DeviceOf(s, uid), DeviceOf(Apply(c, g, s, call), uid);
            d'.findmeAccepted && d'.lastFindme.Some? ==>
              || (d.findmeAccepted && d.lastFindme == d'.lastFindme && d.findmeAddr == d'.findmeAddr)
              || (Requested(call, uid, d'.findmeAddr) && call.time == d'.lastFindme.value)
  {
    match call.event {
      case Query =>
      case Control(_, _, _) =>
      case _ =>
    }
  }

  lemma {:induction false} HeldRequestsAreReal(c: Config, g: string, calls: seq<Call>, uid: string)
    ensures forall r :: r in Run(c, g, EMPTY, calls).log && r.accepted ==>
              exists k :: 0 <= k < |calls| && Requested(calls[k], r.uid, r.addr) && calls[k].time == r.receivedAt
    ensures var d := DeviceOf(Run(c, g, EMPTY, calls), uid);
            d.findmeAccepted && d.lastFindme.Some? ==>
              exists k :: 0 <= k < |calls| && Requested(calls[k], uid, d.findmeAddr) &&
                  calls[k].time == d.lastFindme.value
  {
    if calls != [] {
      var n := |calls| - 1;
      var before := calls[..n];
      HeldRequestsAreReal(c, g, before, uid);
      LogAfter(c, g, Run(c, g, EMPTY, before), calls[n]);
      RecordAfter(c, g, Run(c, g, EMPTY, before), calls[n], uid);
      assert forall k :: 0 <= k < n ==> before[k] == calls[k];
    }
  }

  /** No stream is admitted without a matching accepted request inside the window. */
  lemma AdmissionNeedsRequest(c: Config, g: string, calls: seq<Call>, uid: string, host: string, now: real)
    requires Timely(calls) && NotAfter(calls, now)
    requires AllowsStream(c, Run(c, g, EMPTY, calls), uid, host, now)
    ensures exists k :: 0 <= k < |calls| && Requested(calls[k], uid, host) && now - calls[k].time <= c.attachWindowSec
  {
    AdmissionExactly(c, g, calls, uid, host, now);
    HeldRequestsAreReal(c, g, calls, uid);
  }
}
