/** The command dispatcher, updated in place. Every method performs exactly the step
    of the same name in module UdpControl. */
module UdpDispatcherTable {
  import opened Wrappers
  import opened UdpControl
  import UdpLedger

  class UDPCommandDispatcher {
    const sessionTtlSec: real
    var sessions: map<string, Address>
    var sessionSeenAt: map<string, real>
    var pending: seq<Entry>
    var seqNo: nat
    var commandsSent: nat
    var commandsRetried: nat
    var commandsAcked: nat
    var commandsTimeout: nat
    /** Bookkeeping the program does not keep; nothing but itself depends on it. */
    var history: History

    ghost function Model(): State
      reads this
    {
      State(sessions, sessionSeenAt, pending, seqNo, commandsSent, commandsRetried, commandsAcked, commandsTimeout,
          history)
    }

    /** The ledger invariant holds in every state the methods reach. */
    ghost predicate Valid()
      reads this
    {
      UdpLedger.Inv(Model())
    }

    constructor (ttl: real)
      ensures Valid() && Model() == EMPTY
      ensures sessionTtlSec == if ttl == 0.0 then 90.0 else if ttl < 1.0 then 1.0 else ttl
    {
      sessionTtlSec := if ttl == 0.0 then 90.0 else if ttl < 1.0 then 1.0 else ttl;
      sessions, sessionSeenAt, pending, seqNo := map[], map[], [], 0;
      commandsSent, commandsRetried, commandsAcked, commandsTimeout := 0, 0, 0, 0;
      history := EMPTY.history;
      new;
      UdpLedger.EmptyInv();
    }

    method SetSession(uid: string, addr: Address, now: real)
      modifies this
      ensures Model() == UdpControl.SetSession(old(Model()), uid, addr, now)
      ensures old(Valid()) ==> Valid()
    {
      if uid != "" {
        sessions := sessions[uid := addr];
        sessionSeenAt := sessionSeenAt[uid := now];
      }
      if old(Valid()) {
        UdpLedger.SameTableKeeps(old(Model()), Model());
      }
    }

    method DropSession(uid: string, addr: Option<Address>)
      modifies this`sessions, this`sessionSeenAt
      ensures Model() == UdpControl.DropSession(old(Model()), uid, addr)
      ensures old(Valid()) ==> Valid()
    {
      if uid != "" && (addr.None? || (uid in sessions && sessions[uid] == addr.value)) {
        sessions := sessions - {uid};
        sessionSeenAt := sessionSeenAt - {uid};
      }
      if old(Valid()) {
        UdpLedger.SameTableKeeps(old(Model()), Model());
      }
    }

    /** Drops every session silent for longer than the TTL and says which. */
    method PruneStaleSessions(now: real) returns (stale: set<string>)
      modifies this`sessions, this`sessionSeenAt
      ensures stale == StaleUids(old(Model()), sessionTtlSec, now)
      ensures Model() == Prune(old(Model()), sessionTtlSec, now)
    {
      stale := {};
      var unvisited := sessionSeenAt.Keys;
      while unvisited != {}
        invariant unvisited <= sessionSeenAt.Keys
        invariant forall u :: u in stale <==>
            u in old(sessionSeenAt) && u !in unvisited && now - old(sessionSeenAt)[u] > sessionTtlSec
        invariant sessions == old(sessions) - stale && sessionSeenAt == old(sessionSeenAt) - stale
        decreases unvisited
      {
        var uid :| uid in unvisited;
        unvisited := unvisited - {uid};
        if now - sessionSeenAt[uid] <= sessionTtlSec { continue; }
        stale := stale + {uid};
        sessions := sessions - {uid};
        sessionSeenAt := sessionSeenAt - {uid};
      }
      assert stale == StaleUids(old(Model()), sessionTtlSec, now);
    }

    /** Sends entry i; `ok` is whether the socket took the datagram. */
    method SendEntry(i: nat, retry: bool, ok: bool, now: real)
      requires i < |pending|
      modifies this
      ensures Model() == Transmit(old(Model()), i, retry, ok, now)
    {
      var entry := pending[i];
      if !ok {
        if entry.uid != "" && entry.uid in sessions && sessions[entry.uid] == entry.addr {
          sessions := sessions - {entry.uid};
          sessionSeenAt := sessionSeenAt - {entry.uid};
        }
      } else if retry {
        commandsRetried := commandsRetried + 1;
      } else {
        commandsSent := commandsSent + 1;
      }
      pending := pending[i := entry.(attempts := entry.attempts + 1, lastSentAt := now)];
      history := history.(tries := history.tries + multiset{entry.ticket});
    }

    /** The next number, and a new entry under its key; returns the entry's place. */
    method Enqueue(uid: string, addr: Address, payload: Payload, now: real) returns (at: nat)
      modifies this
      ensures Model() == Insert(old(Model()), uid, addr, payload, now)
      ensures at == Place(old(Model()), uid, payload)
    {
      seqNo := (seqNo + 1) % SEQ_MODULUS;
      if seqNo == 0 {
        seqNo := 1;
      }
      var key := MakeKey(uid, payload.requestId, seqNo);
      var entry := Entry(history.queued, key, uid, addr, payload, seqNo, 0, false, now, 0.0);
      at := IndexOfKey(pending, key);
      if at < |pending| {
        history := history.(fates := history.fates[pending[at].ticket := Overwritten]);
        pending := pending[at := entry];
      } else {
        pending := pending + [entry];
      }
      history := history.(queued := history.queued + 1);
    }

    method QueueCommand(uid: string, addr: Address, payload: Payload, ok: bool, now: real)
      requires Valid()
      modifies this
      ensures Valid() && Model() == UdpControl.QueueCommand(old(Model()), uid, addr, payload, ok, now)
    {
      UdpLedger.QueueKeeps(Model(), uid, addr, payload, ok, now);
      var at := Enqueue(uid, addr, payload, now);
      SendEntry(at, false, ok, now);
    }

    method SendCommand(uid: string, payload: Payload, ok: bool, now: real) returns (accepted: bool)
      requires Valid()
      modifies this
      ensures Valid() && Model() == UdpControl.SendCommand(old(Model()), sessionTtlSec, uid, payload, ok, now)
      ensures accepted <==> uid != "" && uid in Prune(old(Model()), sessionTtlSec, now).sessions
    {
      if uid == "" { return false; }
      var _ := PruneStaleSessions(now);
      UdpLedger.SameTableKeeps(old(Model()), Model());
      if uid !in sessions { return false; }
      QueueCommand(uid, sessions[uid], payload, ok, now);
      return true;
    }

    method SendCommandTo(uid: string, addr: Address, payload: Payload, ok: bool, now: real) returns (accepted: bool)
      requires Valid()
      modifies this
      ensures Valid() && Model() == UdpControl.SendCommandTo(old(Model()), uid, addr, payload, ok, now)
      ensures accepted <==> uid != "" && addr.host != "" && addr.port > 0
    {
      if uid == "" || addr.host == "" || addr.port <= 0 { return false; }
      QueueCommand(uid, addr, payload, ok, now);
      return true;
    }

    method MarkAcked(i: nat)
      requires i < |pending|
      modifies this
      ensures Model() == UdpControl.MarkAcked(old(Model()), i)
    {
      var entry := pending[i];
      if !entry.acked {
        pending := pending[i := entry.(acked := true)];
        commandsAcked := commandsAcked + 1;
        history := history.(ackedTickets := history.ackedTickets + {entry.ticket});
      }
    }

    /** The first entry that the ack frame fits, or |pending|. */
    method FindAcked(uid: string, requestId: string, ack: int) returns (i: nat)
      ensures i == AckIndex(pending, uid, requestId, ack)
    {
      i := 0;
      while i < |pending|
        invariant i <= |pending|
        invariant AckIndex(pending, uid, requestId, ack) == i + AckIndex(pending[i..], uid, requestId, ack)
      {
        var entry := pending[i];
        if entry.uid == uid {
          if requestId != "" && entry.payload.requestId == requestId { return; }
          if ack != 0 && entry.seqNo == ack { return; }
        }
        i := i + 1;
      }
    }

    method HandleAck(uid: string, requestId: string, ack: int)
      requires Valid()
      modifies this
      ensures Valid() && Model() == UdpControl.HandleAck(old(Model()), uid, requestId, ack)
    {
      UdpLedger.HandleAckKeeps(Model(), uid, requestId, ack);
      if uid == "" { return; }
      var i := FindAcked(uid, requestId, ack);
      if i < |pending| {
        MarkAcked(i);
      }
    }

    method HandleResult(uid: string, requestId: string)
      requires Valid()
      modifies this
      ensures Valid() && Model() == UdpControl.HandleResult(old(Model()), uid, requestId)
    {
      UdpLedger.HandleResultKeeps(Model(), uid, requestId);
      if uid == "" || requestId == "" { return; }
      var at := IndexOfKey(pending, (uid, requestId));
      if at < |pending| {
        history := history.(fates := history.fates[pending[at].ticket := Answered]);
        pending := RemoveAt(pending, at);
      }
    }

    /** One pass of the service loop. Returns the commands to report, in the order the
        callbacks are made. */
    method Service(ok: set<nat>, now: real) returns (timedOut: seq<Entry>)
      requires Valid()
      modifies this
      ensures Valid() && Model() == UdpControl.Service(old(Model()), sessionTtlSec, ok, now)
      ensures history.callbacks == old(history.callbacks) + Tickets(timedOut)
    {
      UdpLedger.ServiceKeeps(Model(), sessionTtlSec, ok, now);
      var items := pending;
      var stale := PruneStaleSessions(now);
      timedOut := VisitEach(Keys(items), stale, ok, now);
    }

    /** Visits the entries of a snapshot of the table, which changes on the way. */
    method VisitEach(keys: seq<Key>, stale: set<string>, ok: set<nat>, now: real) returns (timedOut: seq<Entry>)
      modifies this
      ensures Model() == VisitAll(old(Model()), keys, stale, ok, now)
      ensures history.callbacks == old(history.callbacks) + Tickets(timedOut)
    {
      hide Visit;
      timedOut := [];
      for n := 0 to |keys|
        invariant Model() == VisitAll(old(Model()), keys[..n], stale, ok, now)
        invariant history.callbacks == old(history.callbacks) + Tickets(timedOut)
      {
        ghost var before := Model();
        assert keys[..n + 1][..n] == keys[..n];
        assert VisitAll(old(Model()), keys[..n + 1], stale, ok, now) == Visit(before, keys[n], stale, ok, now);
        var given := VisitOne(keys[n], stale, ok, now);
        timedOut := timedOut + given;
      }
      assert keys[..|keys|] == keys;
    }

    /** The loop body. An entry to report is returned as a one-element list. */
    method VisitOne(key: Key, stale: set<string>, ok: set<nat>, now: real) returns (given: seq<Entry>)
      modifies this
      ensures Model() == Visit(old(Model()), key, stale, ok, now)
      ensures history.callbacks == old(history.callbacks) + Tickets(given)
    {
      given := [];
      var at := IndexOfKey(pending, key);
      if at == |pending| { return; }
      var entry := pending[at];
      var expired := Expired(entry, now);
      if entry.acked {
        if expired {
          history := history.(fates := history.fates[entry.ticket := DroppedAcked]);
          pending := RemoveAt(pending, at);
        }
        return;
      }
      if entry.uid in stale || expired || (!HasExplicitExpiry(entry) && entry.attempts >= MAX_UNACKED_ATTEMPTS) {
        history := history.(fates := history.fates[entry.ticket := TimedOut],
            callbacks := history.callbacks + [entry.ticket]);
        pending := RemoveAt(pending, at);
        commandsTimeout := commandsTimeout + 1;
        return [entry];
      }
      if now - entry.lastSentAt >= RESEND_INTERVAL_SEC {
        SendEntry(at, true, entry.ticket in ok, now);
      }
    }

    method Snapshot(now: real) returns (sessionCount: nat, pendingCount: nat)
      requires Valid()
      modifies this`sessions, this`sessionSeenAt
      ensures Valid() && Model() == Prune(old(Model()), sessionTtlSec, now)
      ensures sessionCount == |sessions| && pendingCount == |pending|
    {
      var _ := PruneStaleSessions(now);
      UdpLedger.SameTableKeeps(old(Model()), Model());
      return |sessions|, |pending|;
    }
  }

  function Tickets(entries: seq<Entry>): seq<nat> {
    seq(|entries|, i requires 0 <= i < |entries| => entries[i].ticket)
  }
}
