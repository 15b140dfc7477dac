/** What single calls mean for a device, said of their payloads alone. */
module PresenceLaws {
  import opened Wrappers
  import opened Presence
  import opened PresenceHistory

  /** The answer to a command to switch gateways. */
  predicate AnswersSwitch(p: Payload) {
    "findme_switch_gateway" == if p.command != "" then p.command else p.cmd
  }

  /** An answer whose FindMe block says: attached to gateway g. */
  predicate AnswersHere(g: string, p: Payload) {
    && !AnswersSwitch(p) && g != ""
    && p.findme.Some? && p.findme.value.gatewayId == g && p.findme.value.state == "attached"
  }

  /** An answer whose FindMe block names a gateway, and does not say: attached to g. */
  predicate AnswersAway(g: string, p: Payload) {
    && !AnswersSwitch(p) && g != ""
    && p.findme.Some? && p.findme.value.gatewayId != ""
    && (p.findme.value.gatewayId != g || p.findme.value.state != "attached")
  }

  /** An answer connects the device if it says so, disconnects it if it says otherwise, and
      changes nothing if it says nothing; only the first is a sign of life. */
  lemma AnswerDecides(s: State, g: string, uid: string, p: Payload, now: real, nowMs: int)
    requires uid != ""
    ensures var s' := RecordControl(s, g, uid, "result", true, p, now, nowMs);
            var d, d' := DeviceOf(s, uid), DeviceOf(s', uid);
            && uid in s'.devices
            && (AnswersHere(g, p) ==> d'.connected && d'.lastSeen == Some(now))
            && (AnswersAway(g, p) ==> !d'.connected && d'.lastSeen == d.lastSeen)
            && (!AnswersHere(g, p) && !AnswersAway(g, p) ==> d'.connected == d.connected && d'.lastSeen == d.lastSeen)
            && (!AnswersHere(g, p) ==> s'.claims == s.claims)
  {}

  /** A report of another kind always is a sign of life, and connects as it is told to. */
  lemma ReportDecides(s: State, g: string, uid: string, kind: string, connected: bool, p: Payload,
                      now: real, nowMs: int)
    requires uid != "" && kind != "result"
    ensures var d' := DeviceOf(RecordControl(s, g, uid, kind, connected, p, now, nowMs), uid);
            d'.connected == connected && d'.lastSeen == Some(now)
  {}

  /** A call about one device leaves every other device and the log alone. */
  lemma OthersUntouched(c: Config, g: string, s: State, call: Call, other: string)
    requires !call.event.Query? && !call.event.Findme? && other != call.uid
    ensures var s' := Apply(c, g, s, call);
            && s'.log == s.log
            && (other in s'.devices <==> other in s.devices) && DeviceOf(s', other) == DeviceOf(s, other)
  {}

  /** The calls that connect a device to gateway g. */
  lemma AttachesMeans(g: string, call: Call, uid: string)
    ensures Attaches(g, call, uid)
        <==> uid != "" && call.uid == uid
             && (call.event.Heartbeat?
                 || (call.event.Control? && call.event.connected
                     && (call.event.kind == "result" ==> AnswersHere(g, call.event.payload))))
  {}

  /** The calls that disconnect it. */
  lemma ReleasesMeans(g: string, call: Call, uid: string)
    ensures Releases(g, call, uid)
        <==> uid != "" && call.uid == uid
             && (call.event.Disconnect?
                 || (call.event.Control? && call.event.kind != "result" && !call.event.connected)
                 || (call.event.Control? && call.event.kind == "result" && !AnswersSwitch(call.event.payload)
                     && (call.event.connected ==> AnswersAway(g, call.event.payload))))
  {}

  /** The calls that are signs of life. */
  lemma EvidenceMeans(g: string, call: Call, uid: string)
    ensures Evidence(g, call, uid)
        <==> uid != "" && call.uid == uid
             && (call.event.Heartbeat?
                 || (call.event.UdpPacket? && call.event.forwarded)
                 || (call.event.Control?
                     && (call.event.kind == "result" ==>
                           call.event.connected && AnswersHere(g, call.event.payload))))
  {}

  /** Main result: from an answer that names another gateway on, or denies being attached, the
      device is not served here until it attaches again. */
  lemma AnswerReleases(c: Config, g: string, calls: seq<Call>, uid: string, k: nat, now: real)
    requires Sound(c) && Timely(calls) && NotAfter(calls, now)
    requires k < |calls| && uid != "" && calls[k].uid == uid && calls[k].event.Control?
    requires calls[k].event.kind == "result" && AnswersAway(g, calls[k].event.payload)
    requires forall i :: k < i < |calls| ==> !Attaches(g, calls[i], uid)
    ensures !IsServing(c, Run(c, g, EMPTY, calls), uid, now)
  {
    ServedExactly(c, g, calls, uid, now);
    ReleasesMeans(g, calls[k], uid);
    AttachesMeans(g, calls[k], uid);
    forall j
      ensures !HeldSince(c, g, calls, uid, j)
    {
      if 0 <= j < k && Attaches(g, calls[j], uid) {
        assert !KeptBy(c, g, calls, uid, k);
      }
    }
  }

  /** The windows asked for are the windows in force, from one second up; no window at all
      means twenty seconds for attaching, and devices are kept as long as they can be stale. */
  lemma WindowsAreKept(stale: real, attach: real, prune: real)
    ensures var c := MakeConfig(stale, attach, prune);
            && (stale >= 1.0 ==> c.controlStaleSec == stale) && (stale < 1.0 ==> c.controlStaleSec == 1.0)
            && (attach >= 1.0 ==> c.attachWindowSec == attach) && (attach == 0.0 ==> c.attachWindowSec == 20.0)
            && (attach < 1.0 && attach != 0.0 ==> c.attachWindowSec == 1.0)
            && (prune >= c.controlStaleSec ==> c.pruneAfterSec == prune)
            && (prune < c.controlStaleSec ==> c.pruneAfterSec == c.controlStaleSec)
  {}
}
