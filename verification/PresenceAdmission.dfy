/** FindMe admission, characterised by the calls that were made. */
module PresenceAdmission {
  import opened Wrappers
  import opened Presence
  import opened PresenceHistory
  import opened PresenceMembership

  function RequestOf(call: Call): FindmeRequest
    requires call.event.Findme?
  {
    FindmeRequest(call.uid, call.event.addr, call.event.accepted, call.time)
  }

  /** How many FindMe calls, of any device, came after call k. */
  function FindmesAfter(calls: seq<Call>, k: nat): nat {
    if k + 1 >= |calls| then 0
    else FindmesAfter(calls[..|calls| - 1], k) + if calls[|calls| - 1].event.Findme? then 1 else 0
  }

  /** Every request ever made, newest first. */
  function AllRequests(calls: seq<Call>): seq<FindmeRequest> {
    if calls == [] then []
    else
      var front, last := AllRequests(calls[..|calls| - 1]), calls[|calls| - 1];
      if last.event.Findme? then [RequestOf(last)] + front else front
  }

  lemma StepLog(c: Config, g: string, s: State, call: Call)
    ensures Apply(c, g, s, call).log == if call.event.Findme? then PushLog(s.log, RequestOf(call)) else s.log
  {}

  /** The log is the newest 120 of them. */
  lemma {:induction false} LogIsNewest(c: Config, g: string, calls: seq<Call>)
    ensures var all := AllRequests(calls);
            Run(c, g, EMPTY, calls).log == if |all| <= 120 then all else all[..120]
  {
    if calls != [] {
      LogIsNewest(c, g, calls[..|calls| - 1]);
      StepLog(c, g, Run(c, g, EMPTY, calls[..|calls| - 1]), calls[|calls| - 1]);
    }
  }

  lemma {:induction false} RequestAt(calls: seq<Call>, k: nat)
    requires k < |calls| && calls[k].event.Findme?
    ensures FindmesAfter(calls, k) < |AllRequests(calls)| &&
        AllRequests(calls)[FindmesAfter(calls, k)] == RequestOf(calls[k])
  {
    if k + 1 < |calls| {
      RequestAt(calls[..|calls| - 1], k);
    }
  }

  lemma {:induction false} RequestFrom(calls: seq<Call>, p: nat) returns (k: nat)
    requires p < |AllRequests(calls)|
    ensures k < |calls| && calls[k].event.Findme? && FindmesAfter(calls, k) == p &&
        RequestOf(calls[k]) == AllRequests(calls)[p]
  {
    var n := |calls| - 1;
    var last := calls[n];
    if last.event.Findme? && p == 0 {
      k := n;
    } else {
      k := RequestFrom(calls[..n], if last.event.Findme? then p - 1 else p);
    }
  }

  // ---------------------------------------------------------------------

  /** Call k is the device's latest request, and no sweep has forgotten the device since. */
  ghost predicate LatestKept(c: Config, g: string, calls: seq<Call>, uid: string, k: int) {
    && 0 <= k < |calls| && Requests(calls[k], uid)
    && forall j :: k < j < |calls| ==>
        !Requests(calls[j], uid) && !Drops(c, Run(c, g, EMPTY, calls[..j]), calls[j], uid)
  }

  /** The device's own record of its latest request. */
  ghost predicate Recorded(d: Device, call: Call)
    requires call.event.Findme?
  {
    d.lastFindme == Some(call.time) && d.findmeAccepted == call.event.accepted && d.findmeAddr == call.event.addr
  }

  lemma StepRecord(c: Config, g: string, s: State, call: Call, uid: string)
    ensures var d, d' := DeviceOf(s, uid), DeviceOf(Apply(c, g, s, call), uid);
            if Drops(c, s, call, uid) then d' == UNKNOWN
            else if Requests(call, uid) then Recorded(d', call)
            else (d'.lastFindme, d'.findmeAccepted, d'.findmeAddr) == (d.lastFindme, d.findmeAccepted, d.findmeAddr)
  {
    match call.event {
      case Query =>
      case Control(_, _, _) =>
      case Heartbeat =>
      case _ =>
    }
  }

  lemma LatestExtends(c: Config, g: string, calls: seq<Call>, call: Call, uid: string, k: int)
    requires 0 <= k < |calls|
    ensures LatestKept(c, g, calls + [call], uid, k)
        <==> LatestKept(c, g, calls, uid, k) && !Requests(call, uid) && !Drops(c, Run(c, g, EMPTY, calls), call, uid)
  {
    var all := calls + [call];
    assert all[..|calls|] == calls && all[|calls|] == call;
    forall j | 0 <= j < |calls|
      ensures all[..j] == calls[..j] && all[j] == calls[j]
    {}
  }

  lemma {:induction false} RecordIsLatest(c: Config, g: string, calls: seq<Call>, uid: string)
    ensures var d := DeviceOf(Run(c, g, EMPTY, calls), uid);
            && (d.lastFindme.Some? ==> exists k :: LatestKept(c, g, calls, uid, k))
            && forall k :: LatestKept(c, g, calls, uid, k) ==> Recorded(d, calls[k])
  {
    if calls != [] {
      var n := |calls| - 1;
      var front, last := calls[..n], calls[n];
      var s := Run(c, g, EMPTY, front);
      assert calls == front + [last];
      RecordIsLatest(c, g, front, uid);
      StepRecord(c, g, s, last, uid);
      forall k | 0 <= k < n
        ensures LatestKept(c, g, calls, uid, k)
            <==> LatestKept(c, g, front, uid, k) && !Requests(last, uid) && !Drops(c, s, last, uid)
      {
        LatestExtends(c, g, front, last, uid, k);
      }
      assert Requests(last, uid) ==> LatestKept(c, g, calls, uid, n);
    }
  }

  /** Call k is an accepted request of this device and host inside the window, among the
      newest 120 requests of all, or the device's latest and not forgotten. */
  ghost predicate GrantedBy(c: Config, g: string, calls: seq<Call>, uid: string, host: string, now: real, k: int) {
    && 0 <= k < |calls| && Requested(calls[k], uid, host) && now - calls[k].time <= c.attachWindowSec
    && (FindmesAfter(calls, k) < 120 || LatestKept(c, g, calls, uid, k))
  }

  /** Main result: over every run, a stream is admitted exactly when some accepted request
      inside the window was followed by fewer than 120 others, or is the device's latest
      and no sweep forgot the device since. */
  lemma AdmittedExactly(c: Config, g: string, calls: seq<Call>, uid: string, host: string, now: real)
    requires Timely(calls) && NotAfter(calls, now)
    ensures AllowsStream(c, Run(c, g, EMPTY, calls), uid, host, now)
        <==> exists k :: GrantedBy(c, g, calls, uid, host, now, k)
  {
    if k :| GrantedBy(c, g, calls, uid, host, now, k) {
      GrantAdmits(c, g, calls, uid, host, now, k);
    } else if AllowsStream(c, Run(c, g, EMPTY, calls), uid, host, now) {
      AdmittedHasGrant(c, g, calls, uid, host, now);
    }
  }

  lemma GrantAdmits(c: Config, g: string, calls: seq<Call>, uid: string, host: string, now: real, k: nat)
    requires Timely(calls) && NotAfter(calls, now) && GrantedBy(c, g, calls, uid, host, now, k)
    ensures AllowsStream(c, Run(c, g, EMPTY, calls), uid, host, now)
  {
    AdmissionExactly(c, g, calls, uid, host, now);
    if FindmesAfter(calls, k) < 120 {
      LogIsNewest(c, g, calls);
      RequestAt(calls, k);
      assert RequestOf(calls[k]) in Run(c, g, EMPTY, calls).log;
    } else {
      RecordIsLatest(c, g, calls, uid);
    }
  }

  lemma AdmittedHasGrant(c: Config, g: string, calls: seq<Call>, uid: string, host: string, now: real)
    requires Timely(calls) && NotAfter(calls, now) && AllowsStream(c, Run(c, g, EMPTY, calls), uid, host, now)
    ensures exists k :: GrantedBy(c, g, calls, uid, host, now, k)
  {
    var s := Run(c, g, EMPTY, calls);
    AdmissionExactly(c, g, calls, uid, host, now);
    if DeviceGrants(c, DeviceOf(s, uid), host, now) {
      RecordIsLatest(c, g, calls, uid);
      var k :| LatestKept(c, g, calls, uid, k);
      assert GrantedBy(c, g, calls, uid, host, now, k);
    } else {
      LogIsNewest(c, g, calls);
      var r :| r in s.log && Grants(c, r, uid, host, now);
      var p: nat :| p < |s.log| && s.log[p] == r;
      var k := RequestFrom(calls, p);
      assert GrantedBy(c, g, calls, uid, host, now, k);
    }
  }
}
