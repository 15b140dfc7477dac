/** Device presence at one gateway, as steps on a value.
    The class GatewayState (GatewayState.dfy) performs these steps in place. */
module Presence {
  import opened Wrappers
  import Claims

  const LOG_CAP := 120

  datatype Config = Config(controlStaleSec: real, attachWindowSec: real, pruneAfterSec: real)

  function MaxReal(a: real, b: real): real { if a >= b then a else b }

  function MakeConfig(controlStale: real, attachWindow: real, pruneAfter: real): (c: Config)
    ensures c.controlStaleSec >= 1.0 && c.attachWindowSec >= 1.0 && c.pruneAfterSec >= c.controlStaleSec
  {
    var stale := MaxReal(1.0, controlStale);
    Config(stale,
           MaxReal(1.0, if attachWindow == 0.0 then 20.0 else attachWindow),
           MaxReal(stale, pruneAfter))
  }

  datatype Device = Device(
    connected: bool,
    lastSeen: Option<real>,
    lastFindme: Option<real>,
    findmeAccepted: bool,
    findmeAddr: string,
    claimId: string)

  /** A device the moment it is first mentioned. */
  const UNKNOWN := Device(false, None, None, false, "", "")

  datatype FindmeRequest = FindmeRequest(uid: string, addr: string, accepted: bool, receivedAt: real)

  datatype State = State(devices: map<string, Device>, log: seq<FindmeRequest>, claims: seq<Claims.Claim>)

  const EMPTY := State(map[], [], [])

  /** The FindMe block of a status reply: where the device says it is attached. */
  datatype FindmeBlock = FindmeBlock(gatewayId: string, state: string)

  datatype Payload = Payload(command: string, cmd: string, findme: Option<FindmeBlock>)

  function CommandOf(p: Payload): string { if p.command != "" then p.command else p.cmd }

  function DeviceOf(s: State, uid: string): Device {
    if uid in s.devices then s.devices[uid] else UNKNOWN
  }

  // ---------------------------------------------------------------------
  // Steps

  function PushLog(log: seq<FindmeRequest>, r: FindmeRequest): seq<FindmeRequest> {
    if |log| < LOG_CAP then [r] + log else [r] + log[..LOG_CAP - 1]
  }

  function RecordFindme(s: State, uid: string, addr: string, accepted: bool, now: real): State {
    var logged := s.(log := PushLog(s.log, FindmeRequest(uid, addr, accepted, now)));
    if uid == "" then logged
    else logged.(devices := s.devices[uid := DeviceOf(s, uid).(
      lastFindme := Some(now), findmeAccepted := accepted, findmeAddr := addr)])
  }

  /** None: the reply does not say where the device is attached. */
  function ReplyAttachment(findme: Option<FindmeBlock>, gatewayId: string): Option<bool> {
    if gatewayId == "" || findme.None? || findme.value.gatewayId == "" then None
    else Some(findme.value.gatewayId == gatewayId && findme.value.state == "attached")
  }

  predicate SwitchStarted(kind: string, payload: Payload) {
    kind == "result" && CommandOf(payload) == "findme_switch_gateway"
  }

  /** What a control frame says about the device's attachment to this gateway:
      None leaves the connected flag alone. */
  function Verdict(kind: string, connected: bool, payload: Payload, gatewayId: string): Option<bool> {
    if SwitchStarted(kind, payload) then None
    else if kind == "result" && connected then ReplyAttachment(payload.findme, gatewayId)
    else Some(connected)
  }

  /** Whether a control frame refreshes the last-seen time. */
  predicate Refreshes(kind: string, connected: bool, payload: Payload, gatewayId: string) {
    || kind != "result"
    || (connected && !SwitchStarted(kind, payload) && ReplyAttachment(payload.findme, gatewayId) == Some(true))
  }

  /** The device after an attachment, its claim settled. */
  function AttachClaim(s: State, uid: string, d: Device, nowMs: int): State {
    var at := Claims.ActiveIndex(s.claims, uid, nowMs);
    var tagged := if at < |s.claims| then d.(claimId := s.claims[at].id) else d;
    s.(devices := s.devices[uid := tagged], claims := Claims.Attach(s.claims, uid, nowMs))
  }

  function RecordControl(s: State, gatewayId: string, uid: string, kind: string, connected: bool,
                         payload: Payload, now: real, nowMs: int): State {
    if uid == "" then s
    else
      var d := DeviceOf(s, uid);
      var seen := if Refreshes(kind, connected, payload, gatewayId) then d.(lastSeen := Some(now)) else d;
      match Verdict(kind, connected, payload, gatewayId)
      case None => s.(devices := s.devices[uid := seen])
      case Some(false) => s.(devices := s.devices[uid := seen.(connected := false)])
      case Some(true) => AttachClaim(s, uid, seen.(connected := true), nowMs)
  }

  function RecordHeartbeat(s: State, uid: string, now: real, nowMs: int): State {
    if uid == "" then s
    else AttachClaim(s, uid, DeviceOf(s, uid).(connected := true, lastSeen := Some(now)), nowMs)
  }

  function RecordDisconnect(s: State, uid: string): State {
    if uid == "" then s else s.(devices := s.devices[uid := DeviceOf(s, uid).(connected := false)])
  }

  function RecordUdpPacket(s: State, uid: string, forwarded: bool, now: real): State {
    if uid == "" then s
    else
      var d := DeviceOf(s, uid);
      s.(devices := s.devices[uid := if forwarded then d.(lastSeen := Some(now)) else d])
  }

  // ---------------------------------------------------------------------
  // Lazy staleness

  predicate Stale(c: Config, d: Device, now: real) {
    d.lastSeen.Some? && now - d.lastSeen.value > c.controlStaleSec
  }

  function MarkStale(c: Config, d: Device, now: real): Device {
    if d.connected && Stale(c, d, now) then d.(connected := false) else d
  }

  /** The newer of the two activity times, if there is one. */
  function LastActivity(d: Device): Option<real> {
    match (d.lastSeen, d.lastFindme)
    case (None, None) => None
    case (Some(a), None) => Some(a)
    case (None, Some(b)) => Some(b)
    case (Some(a), Some(b)) => Some(MaxReal(a, b))
  }

  predicate Prunable(c: Config, d: Device, now: real) {
    LastActivity(d).Some? && now - LastActivity(d).value > c.pruneAfterSec
  }

  function SweepDevices(c: Config, devices: map<string, Device>, now: real): map<string, Device> {
    map uid | uid in devices && !Prunable(c, devices[uid], now) :: MarkStale(c, devices[uid], now)
  }

  function Sweep(c: Config, s: State, now: real): State {
    s.(devices := SweepDevices(c, s.devices, now))
  }

  predicate Serves(s: State, uid: string) {
    uid in s.devices && s.devices[uid].connected
  }

  predicate IsServing(c: Config, s: State, uid: string, now: real) {
    Serves(Sweep(c, s, now), uid)
  }

  function ServedSet(s: State): set<string> {
    set uid | uid in s.devices && s.devices[uid].connected
  }

  // ---------------------------------------------------------------------
  // FindMe admission

  predicate Grants(c: Config, r: FindmeRequest, uid: string, host: string, now: real) {
    r.uid == uid && r.accepted && r.addr == host && now - r.receivedAt <= c.attachWindowSec
  }

  predicate DeviceGrants(c: Config, d: Device, host: string, now: real) {
    d.findmeAccepted && d.findmeAddr == host && d.lastFindme.Some? && now - d.lastFindme.value <= c.attachWindowSec
  }

  /** Only the newest matching request is looked at. */
  predicate LogAllows(c: Config, log: seq<FindmeRequest>, uid: string, host: string, now: real) {
    if log == [] then false
    else if log[0].uid == uid && log[0].accepted && log[0].addr == host then
      now - log[0].receivedAt <= c.attachWindowSec
    else LogAllows(c, log[1..], uid, host, now)
  }

  predicate AllowsStream(c: Config, s: State, uid: string, host: string, now: real) {
    DeviceGrants(c, DeviceOf(s, uid), host, now) || LogAllows(c, s.log, uid, host, now)
  }

  // ---------------------------------------------------------------------
  // Runs

  datatype Event =
    | Findme(addr: string, accepted: bool)
    | Control(kind: string, connected: bool, payload: Payload)
    | Heartbeat
    | Disconnect
    | UdpPacket(forwarded: bool)
    | Query
    | CreateClaim(newId: string, ttlMs: int)
    | LookupClaim
    | FailClaim(failId: string)
    | PatchClaim(patchId: string, state: string)

  /** One locked call: the device it is about, both clock readings, and the call. */
  datatype Call = Call(uid: string, time: real, ms: int, event: Event)

  function Apply(c: Config, gatewayId: string, s: State, call: Call): State {
    match call.event
    case Findme(addr, accepted) => RecordFindme(s, call.uid, addr, accepted, call.time)
    case Control(kind, connected, payload) =>
      RecordControl(s, gatewayId, call.uid, kind, connected, payload, call.time, call.ms)
    case Heartbeat => RecordHeartbeat(s, call.uid, call.time, call.ms)
    case Disconnect => RecordDisconnect(s, call.uid)
    case UdpPacket(forwarded) => RecordUdpPacket(s, call.uid, forwarded, call.time)
    case Query => Sweep(c, s, call.time)
    case CreateClaim(id, ttl) => s.(claims := Claims.Create(s.claims, id, call.uid, ttl, call.ms))
    case LookupClaim => s.(claims := Claims.Lookup(s.claims, call.uid, call.ms))
    case FailClaim(id) => s.(claims := Claims.Fail(s.claims, id))
    case PatchClaim(id, state) => s.(claims := Claims.Patch(s.claims, id, state))
  }

  function Run(c: Config, gatewayId: string, s: State, calls: seq<Call>): State {
    if calls == [] then s
    else Apply(c, gatewayId, Run(c, gatewayId, s, calls[..|calls| - 1]), calls[|calls| - 1])
  }

  /** The clock that presence goes by never steps back. */
  ghost predicate Timely(calls: seq<Call>) {
    forall i, j :: 0 <= i <= j < |calls| ==> calls[i].time <= calls[j].time
  }

  ghost predicate NotAfter(calls: seq<Call>, now: real) {
    forall i :: 0 <= i < |calls| ==> calls[i].time <= now
  }

  /** The call is evidence that `uid` is alive and talking to this gateway. */
  predicate Evidence(gatewayId: string, call: Call, uid: string) {
    && uid != "" && call.uid == uid
    && match call.event
       case Heartbeat => true
       case Control(kind, connected, payload) => Refreshes(kind, connected, payload, gatewayId)
       case UdpPacket(forwarded) => forwarded
       case _ => false
  }

  predicate Attaches(gatewayId: string, call: Call, uid: string) {
    && uid != "" && call.uid == uid
    && match call.event
       case Heartbeat => true
       case Control(kind, connected, payload) => Verdict(kind, connected, payload, gatewayId) == Some(true)
       case _ => false
  }

  predicate Releases(gatewayId: string, call: Call, uid: string) {
    && uid != "" && call.uid == uid
    && match call.event
       case Disconnect => true
       case Control(kind, connected, payload) => Verdict(kind, connected, payload, gatewayId) == Some(false)
       case _ => false
  }
}
