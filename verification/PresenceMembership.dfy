/** Which devices the presence table holds, over whole runs from start-up. */
module PresenceMembership {
  import opened Wrappers
  import opened Presence

  /** The calls that enter a device into the table. */
  predicate Mentions(call: Call, uid: string) {
    && uid != "" && call.uid == uid
    && match call.event
       case Findme(_, _) => true
       case Control(_, _, _) => true
       case Heartbeat => true
       case Disconnect => true
       case UdpPacket(_) => true
       case _ => false
  }

  /** The calls that count as activity of a device: evidence, or a FindMe request. */
  predicate Active(g: string, call: Call, uid: string) {
    Evidence(g, call, uid) || Requests(call, uid)
  }

  ghost predicate ActiveSince(g: string, calls: seq<Call>, uid: string, m: int) {
    exists a :: 0 <= m <= a < |calls| && Active(g, calls[a], uid)
  }

  /** Some activity from call m on is at most pruneAfterSec old at t. */
  ghost predicate RecentSince(c: Config, g: string, calls: seq<Call>, uid: string, m: int, t: real) {
    exists a :: 0 <= m <= a < |calls| && Active(g, calls[a], uid) && t - calls[a].time <= c.pruneAfterSec
  }

  /** Call m made the table's current record of the device. */
  ghost predicate Created(c: Config, g: string, calls: seq<Call>, uid: string, m: int) {
    0 <= m < |calls| && Mentions(calls[m], uid) && uid !in Run(c, g, EMPTY, calls[..m]).devices
  }

  /** Sweep k finds that the device was active since call m, but all of that overdue. */
  ghost predicate Forgets(c: Config, g: string, calls: seq<Call>, uid: string, m: int, k: int) {
    && 0 <= m < k < |calls| && calls[k].event.Query?
    && ActiveSince(g, calls[..k], uid, m) && !RecentSince(c, g, calls[..k], uid, m, calls[k].time)
  }

  ghost predicate NeverForgotten(c: Config, g: string, calls: seq<Call>, uid: string, m: int) {
    forall k :: !Forgets(c, g, calls, uid, m, k)
  }

  // ---------------------------------------------------------------------

  predicate HasActivity(d: Device) { d.lastSeen.Some? || d.lastFindme.Some? }

  predicate ActiveWithin(c: Config, d: Device, t: real) {
    || (d.lastSeen.Some? && t - d.lastSeen.value <= c.pruneAfterSec)
    || (d.lastFindme.Some? && t - d.lastFindme.value <= c.pruneAfterSec)
  }

  predicate NotAhead(d: Device, now: real) {
    (d.lastSeen.Some? ==> d.lastSeen.value <= now) && (d.lastFindme.Some? ==> d.lastFindme.value <= now)
  }

  predicate Requests(call: Call, uid: string) { uid != "" && call.uid == uid && call.event.Findme? }

  /** The sweep that forgets the device, if `call` is one. */
  predicate Drops(c: Config, s: State, call: Call, uid: string) {
    call.event.Query? && uid in s.devices && Prunable(c, s.devices[uid], call.time)
  }

  /** What a call does to the two activity times of a device. */
  lemma StepTimes(c: Config, g: string, s: State, call: Call, uid: string)
    ensures var d, d' := DeviceOf(s, uid), DeviceOf(Apply(c, g, s, call), uid);
            if Drops(c, s, call, uid) then d' == UNKNOWN
            else
              && d'.lastSeen == (if Evidence(g, call, uid) then Some(call.time) else d.lastSeen)
              && d'.lastFindme == (if Requests(call, uid) then Some(call.time) else d.lastFindme)
  {
    match call.event {
      case Query =>
      case Control(_, _, _) =>
      case Heartbeat =>
      case _ =>
    }
  }

  /** A call keeps a device in the table unless it is a sweep that finds it overdue, and
      enters none that it does not mention. */
  lemma StepMembers(c: Config, g: string, s: State, call: Call, uid: string)
    ensures uid in Apply(c, g, s, call).devices <==>
        Mentions(call, uid) || (uid in s.devices && !Drops(c, s, call, uid))
  {}

  lemma StepActivity(c: Config, g: string, s: State, call: Call, uid: string, t: real)
    requires call.time <= t && NotAhead(DeviceOf(s, uid), call.time) && !Drops(c, s, call, uid)
    ensures var d, d' := DeviceOf(s, uid), DeviceOf(Apply(c, g, s, call), uid);
            && (HasActivity(d') <==> HasActivity(d) || Active(g, call, uid))
            && (ActiveWithin(c, d', t) <==>
                ActiveWithin(c, d, t) || (Active(g, call, uid) && t - call.time <= c.pruneAfterSec))
  {
    StepTimes(c, g, s, call, uid);
  }

  lemma StepNotAhead(c: Config, g: string, s: State, call: Call, uid: string, now: real)
    requires NotAhead(DeviceOf(s, uid), now) && call.time <= now
    ensures NotAhead(DeviceOf(Apply(c, g, s, call), uid), now)
  {
    StepTimes(c, g, s, call, uid);
  }

  lemma {:induction false} RunNotAhead(c: Config, g: string, calls: seq<Call>, uid: string, now: real)
    requires NotAfter(calls, now)
    ensures NotAhead(DeviceOf(Run(c, g, EMPTY, calls), uid), now)
  {
    if calls != [] {
      RunNotAhead(c, g, calls[..|calls| - 1], uid, now);
      StepNotAhead(c, g, Run(c, g, EMPTY, calls[..|calls| - 1]), calls[|calls| - 1], uid, now);
    }
  }

  lemma ActivityExtends(c: Config, g: string, calls: seq<Call>, call: Call, uid: string, m: int, t: real)
    requires 0 <= m <= |calls|
    ensures ActiveSince(g, calls + [call], uid, m) <==> ActiveSince(g, calls, uid, m) || Active(g, call, uid)
    ensures RecentSince(c, g, calls + [call], uid, m, t)
        <==> RecentSince(c, g, calls, uid, m, t) || (Active(g, call, uid) && t - call.time <= c.pruneAfterSec)
  {
    var all := calls + [call];
    assert all[|calls|] == call && forall a :: 0 <= a < |calls| ==> all[a] == calls[a];
  }

  lemma ForgettingExtends(c: Config, g: string, calls: seq<Call>, call: Call, uid: string, m: int)
    requires 0 <= m < |calls|
    ensures NeverForgotten(c, g, calls + [call], uid, m)
        <==> NeverForgotten(c, g, calls, uid, m) && !Forgets(c, g, calls + [call], uid, m, |calls|)
    ensures Created(c, g, calls + [call], uid, m) <==> Created(c, g, calls, uid, m)
  {
    var all := calls + [call];
    assert all[..m] == calls[..m];
    forall k | 0 <= k < |calls|
      ensures Forgets(c, g, all, uid, m, k) <==> Forgets(c, g, calls, uid, m, k)
    {
      assert all[..k] == calls[..k];
    }
  }

  /** The record made by call m, never forgotten since, knows of just the activity since m. */
  lemma {:induction false} RecordMatchesHistory(c: Config, g: string, calls: seq<Call>, uid: string, m: int, t: real)
    requires Timely(calls) && NotAfter(calls, t) && Created(c, g, calls, uid, m) && NeverForgotten(c, g, calls, uid, m)
    ensures var d := DeviceOf(Run(c, g, EMPTY, calls), uid);
            && uid in Run(c, g, EMPTY, calls).devices
            && (HasActivity(d) <==> ActiveSince(g, calls, uid, m))
            && (ActiveWithin(c, d, t) <==> RecentSince(c, g, calls, uid, m, t))
  {
    var n := |calls| - 1;
    var front, last := calls[..n], calls[n];
    assert calls == front + [last];
    RunNotAhead(c, g, front, uid, last.time);
    ActivityExtends(c, g, front, last, uid, m, t);
    if m < n {
      ForgettingExtends(c, g, front, last, uid, m);
      RecordMatchesHistory(c, g, front, uid, m, t);
      RecordMatchesHistory(c, g, front, uid, m, last.time);
      assert !Forgets(c, g, calls, uid, m, n);
    }
    StepMembers(c, g, Run(c, g, EMPTY, front), last, uid);
    StepActivity(c, g, Run(c, g, EMPTY, front), last, uid, t);
  }

  lemma {:induction false} MembersWereCreated(c: Config, g: string, calls: seq<Call>, uid: string)
    requires Timely(calls) && uid in Run(c, g, EMPTY, calls).devices
    ensures exists m :: Created(c, g, calls, uid, m) && NeverForgotten(c, g, calls, uid, m)
  {
    var n := |calls| - 1;
    var front, last := calls[..n], calls[n];
    var s := Run(c, g, EMPTY, front);
    assert calls == front + [last];
    StepMembers(c, g, s, last, uid);
    if uid in s.devices {
      MembersWereCreated(c, g, front, uid);
      var m :| Created(c, g, front, uid, m) && NeverForgotten(c, g, front, uid, m);
      ForgettingExtends(c, g, front, last, uid, m);
      RecordMatchesHistory(c, g, front, uid, m, last.time);
    } else {
      assert Created(c, g, calls, uid, n) && NeverForgotten(c, g, calls, uid, n);
    }
  }

  /** Main result: a device is in the table exactly when some call entered it and no sweep
      since has found activity of it that is all overdue. One with no activity since it
      was entered, such as a device known only from command results, stays until it has. */
  lemma MembersExactly(c: Config, g: string, calls: seq<Call>, uid: string)
    requires Timely(calls)
    ensures uid in Run(c, g, EMPTY, calls).devices
        <==> exists m :: Created(c, g, calls, uid, m) && NeverForgotten(c, g, calls, uid, m)
  {
    if m :| Created(c, g, calls, uid, m) && NeverForgotten(c, g, calls, uid, m) {
      RecordMatchesHistory(c, g, calls, uid, m, calls[|calls| - 1].time);
    } else if uid in Run(c, g, EMPTY, calls).devices {
      MembersWereCreated(c, g, calls, uid);
    }
  }
}
