/** Reliable command delivery over UDP, as steps on a value.
    The class UDPCommandDispatcher (UdpDispatcher.dfy) performs these steps in place. */
module UdpControl {
  import opened Wrappers
  import opened Text

  const RESEND_INTERVAL_SEC := 0.5
  const MAX_UNACKED_ATTEMPTS := 30
  const SEQ_MODULUS := 0x10000

  datatype Address = Address(host: string, port: int)

  /** The parts of a command payload that delivery looks at; an expiry that is
      missing or unreadable counts as 0. A switch command names the claim it serves. */
  datatype Payload = Payload(requestId: string, command: string, expiresAtMs: int, claimId: string)

  type Key = (string, string)

  /** An entry together with the dict key it is stored under.
      `ticket` numbers the queued commands from 0. The program keeps no such
      number: it identifies a command across the life of the table. */
  datatype Entry = Entry(
    ticket: nat,
    key: Key,
    uid: string,
    addr: Address,
    payload: Payload,
    seqNo: nat,
    attempts: nat,
    acked: bool,
    createdAt: real,
    lastSentAt: real)

  /** The dict key of a command: its request id, or its sequence number as text. */
  function MakeKey(uid: string, requestId: string, seqNo: nat): Key {
    (uid, if requestId != "" then requestId else ToDecimal(seqNo))
  }

  /** How a command left the table. */
  datatype Fate = Answered | DroppedAcked | TimedOut | Overwritten

  /** What happened so far: commands queued, where the gone ones went, which were
      acked, every transmission, and every delivery-timeout callback in order. */
  datatype History = History(
    queued: nat,
    fates: map<nat, Fate>,
    ackedTickets: set<nat>,
    tries: multiset<nat>,
    callbacks: seq<nat>)

  /** `pending` is a Python dict: keys are unique and order is insertion order. */
  datatype State = State(
    sessions: map<string, Address>,
    seenAt: map<string, real>,
    pending: seq<Entry>,
    seqNo: nat,
    sent: nat,
    retried: nat,
    acked: nat,
    timeouts: nat,
    history: History)

  const EMPTY := State(map[], map[], [], 0, 0, 0, 0, 0, History(0, map[], {}, multiset{}, []))

  function Truncate(x: real): int { if x >= 0.0 then x.Floor else -((-x).Floor) }

  predicate Expired(e: Entry, now: real) {
    e.payload.expiresAtMs != 0 && Truncate(now * 1000.0) > e.payload.expiresAtMs
  }

  predicate HasExplicitExpiry(e: Entry) { e.payload.expiresAtMs > 0 }

  /** Index of the entry under this key, or |pending|. */
  function IndexOfKey(pending: seq<Entry>, key: Key): (i: nat)
    ensures i <= |pending|
    ensures forall k :: 0 <= k < i ==> pending[k].key != key
    ensures i < |pending| ==> pending[i].key == key
  {
    if pending == [] || pending[0].key == key then 0 else 1 + IndexOfKey(pending[1..], key)
  }

  function RemoveAt(pending: seq<Entry>, i: nat): seq<Entry>
    requires i < |pending|
  {
    pending[..i] + pending[i + 1..]
  }

  /** Entry i leaves the table for good. */
  function Retire(s: State, i: nat, fate: Fate): State
    requires i < |s.pending|
  {
    s.(pending := RemoveAt(s.pending, i), history := s.history.(fates := s.history.fates[s.pending[i].ticket := fate]))
  }

  // ---------------------------------------------------------------------
  // Sessions

  function SetSession(s: State, uid: string, addr: Address, now: real): State {
    if uid == "" then s else s.(sessions := s.sessions[uid := addr], seenAt := s.seenAt[uid := now])
  }

  /** Without an address the session goes unconditionally. */
  function DropSession(s: State, uid: string, addr: Option<Address>): State {
    if uid != "" && (addr.None? || (uid in s.sessions && s.sessions[uid] == addr.value)) then
      s.(sessions := s.sessions - {uid}, seenAt := s.seenAt - {uid})
    else s
  }

  function StaleUids(s: State, ttl: real, now: real): set<string> {
    set uid | uid in s.seenAt && now - s.seenAt[uid] > ttl
  }

  function Prune(s: State, ttl: real, now: real): State {
    var stale := StaleUids(s, ttl, now);
    s.(sessions := s.sessions - stale, seenAt := s.seenAt - stale)
  }

  // ---------------------------------------------------------------------
  // Sending

  function NextSeq(seqNo: nat): nat {
    var next := (seqNo + 1) % SEQ_MODULUS;
    if next == 0 then 1 else next
  }

  /** Entry i has been tried once more. */
  function Try(s: State, i: nat, now: real): State
    requires i < |s.pending|
  {
    var e := s.pending[i];
    s.(pending := s.pending[i := e.(attempts := e.attempts + 1, lastSentAt := now)],
       history := s.history.(tries := s.history.tries + multiset{e.ticket}))
  }

  /** One transmission of entry i. A failed one drops the session it went to but
      still counts as an attempt. */
  function Transmit(s: State, i: nat, retry: bool, ok: bool, now: real): (r: State)
    requires i < |s.pending|
    ensures r.pending == Try(s, i, now).pending && r.history == Try(s, i, now).history
  {
    var tried := Try(s, i, now);
    if !ok then DropSession(tried, s.pending[i].uid, Some(s.pending[i].addr))
    else if retry then tried.(retried := s.retried + 1)
    else tried.(sent := s.sent + 1)
  }

  /** A new entry takes the place of one with the same key, or goes to the end. */
  function Insert(s: State, uid: string, addr: Address, payload: Payload, now: real): State {
    var next := NextSeq(s.seqNo);
    var key := MakeKey(uid, payload.requestId, next);
    var e := Entry(s.history.queued, key, uid, addr, payload, next, 0, false, now, 0.0);
    var i := IndexOfKey(s.pending, key);
    var h := s.history.(queued := s.history.queued + 1);
    if i < |s.pending| then
      s.(seqNo := next, pending := s.pending[i := e],
          history := h.(fates := h.fates[s.pending[i].ticket := Overwritten]))
    else
      s.(seqNo := next, pending := s.pending + [e], history := h)
  }

  /** Where Insert puts the new entry. */
  function Place(s: State, uid: string, payload: Payload): (i: nat)
    ensures i <= |s.pending|
  {
    IndexOfKey(s.pending, MakeKey(uid, payload.requestId, NextSeq(s.seqNo)))
  }

  function QueueCommand(s: State, uid: string, addr: Address, payload: Payload, ok: bool, now: real): State {
    Transmit(Insert(s, uid, addr, payload, now), Place(s, uid, payload), false, ok, now)
  }

  function SendCommand(s: State, ttl: real, uid: string, payload: Payload, ok: bool, now: real): State {
    if uid == "" then s
    else
      var pruned := Prune(s, ttl, now);
      if uid in pruned.sessions then QueueCommand(pruned, uid, pruned.sessions[uid], payload, ok, now) else pruned
  }

  function SendCommandTo(s: State, uid: string, addr: Address, payload: Payload, ok: bool, now: real): State {
    if uid == "" || addr.host == "" || addr.port <= 0 then s else QueueCommand(s, uid, addr, payload, ok, now)
  }

  // ---------------------------------------------------------------------
  // Acks and results

  predicate AckMatches(e: Entry, uid: string, requestId: string, ack: int) {
    e.uid == uid && ((requestId != "" && e.payload.requestId == requestId) || (ack != 0 && e.seqNo == ack))
  }

  function AckIndex(pending: seq<Entry>, uid: string, requestId: string, ack: int): (i: nat)
    ensures i <= |pending|
    ensures forall k :: 0 <= k < i ==> !AckMatches(pending[k], uid, requestId, ack)
    ensures i < |pending| ==> AckMatches(pending[i], uid, requestId, ack)
  {
    if pending == [] || AckMatches(pending[0], uid, requestId, ack) then 0
    else 1 + AckIndex(pending[1..], uid, requestId, ack)
  }

  function MarkAcked(s: State, i: nat): State
    requires i < |s.pending|
  {
    var e := s.pending[i];
    if e.acked then s
    else s.(pending := s.pending[i := e.(acked := true)], acked := s.acked + 1,
            history := s.history.(ackedTickets := s.history.ackedTickets + {e.ticket}))
  }

  function HandleAck(s: State, uid: string, requestId: string, ack: int): State {
    var i := AckIndex(s.pending, uid, requestId, ack);
    if uid != "" && i < |s.pending| then MarkAcked(s, i) else s
  }

  function HandleResult(s: State, uid: string, requestId: string): State {
    var i := IndexOfKey(s.pending, (uid, requestId));
    if uid != "" && requestId != "" && i < |s.pending| then Retire(s, i, Answered) else s
  }

  // ---------------------------------------------------------------------
  // Service

  datatype Decision = Keep | Drop | GiveUp | Resend

  function Decide(e: Entry, stale: set<string>, now: real): Decision {
    if e.acked then (if Expired(e, now) then Drop else Keep)
    else if e.uid in stale || Expired(e, now) then GiveUp
    else if !HasExplicitExpiry(e) && e.attempts >= MAX_UNACKED_ATTEMPTS then GiveUp
    else if now - e.lastSentAt >= RESEND_INTERVAL_SEC then Resend
    else Keep
  }

  function GiveUpOn(s: State, i: nat): State
    requires i < |s.pending|
  {
    var gone := Retire(s, i, TimedOut);
    gone.(timeouts := s.timeouts + 1,
        history := gone.history.(callbacks := s.history.callbacks + [s.pending[i].ticket]))
  }

  /** The service loop's body for the entry under `key`; `ok` says which tickets'
      transmissions succeed this time. */
  function Visit(s: State, key: Key, stale: set<string>, ok: set<nat>, now: real): State {
    var i := IndexOfKey(s.pending, key);
    if i == |s.pending| then s
    else
      var e := s.pending[i];
      match Decide(e, stale, now)
      case Keep => s
      case Drop => Retire(s, i, DroppedAcked)
      case GiveUp => GiveUpOn(s, i)
      case Resend => Transmit(s, i, true, e.ticket in ok, now)
  }

  function VisitAll(s: State, keys: seq<Key>, stale: set<string>, ok: set<nat>, now: real): State {
    if keys == [] then s
    else Visit(VisitAll(s, keys[..|keys| - 1], stale, ok, now), keys[|keys| - 1], stale, ok, now)
  }

  function Keys(pending: seq<Entry>): (keys: seq<Key>)
    ensures |keys| == |pending| && forall i :: 0 <= i < |keys| ==> keys[i] == pending[i].key
  {
    seq(|pending|, i requires 0 <= i < |pending| => pending[i].key)
  }

  function Service(s: State, ttl: real, ok: set<nat>, now: real): State {
    VisitAll(Prune(s, ttl, now), Keys(s.pending), StaleUids(s, ttl, now), ok, now)
  }

  // ---------------------------------------------------------------------
  // Runs

  datatype Event =
    | Session(addr: Address)
    | Leave(from: Option<Address>)
    | Send(payload: Payload, ok: bool)
    | SendTo(to: Address, payload: Payload, ok: bool)
    | Ack(requestId: string, ack: int)
    | Result(requestId: string)
    | Tick(delivered: set<nat>)
    | Snapshot

  datatype Call = Call(uid: string, time: real, event: Event)

  function Apply(s: State, ttl: real, call: Call): State {
    match call.event
    case Session(addr) => SetSession(s, call.uid, addr, call.time)
    case Leave(from) => DropSession(s, call.uid, from)
    case Send(payload, ok) => SendCommand(s, ttl, call.uid, payload, ok, call.time)
    case SendTo(to, payload, ok) => SendCommandTo(s, call.uid, to, payload, ok, call.time)
    case Ack(requestId, ack) => HandleAck(s, call.uid, requestId, ack)
    case Result(requestId) => HandleResult(s, call.uid, requestId)
    case Tick(delivered) => Service(s, ttl, delivered, call.time)
    case Snapshot => Prune(s, ttl, call.time)
  }

  function Run(s: State, ttl: real, calls: seq<Call>): State {
    if calls == [] then s
    else Apply(Run(s, ttl, calls[..|calls| - 1]), ttl, calls[|calls| - 1])
  }
}
