/** Several gateways on one LAN, and how each turns a datagram into steps of its presence
    table and of its command dispatcher. Main result: a device never flips between gateways. */
module Lan {
  import opened Wrappers
  import opened Presence
  import opened PresenceHistory
  import opened GatewayStateTable
  import opened UdpDispatcherTable
  import Claims
  import U = UdpControl
  import UdpLedger
  import UdpSessions

  /** A datagram as the gateway's parsers see it. */
  datatype Datagram =
    | Packet(uid: string, isArduino: bool, isHeartbeat: bool)
    | Frame(uid: string, kind: string, payload: Payload, requestId: string, ack: int)

  const STREAM_STATUS := Payload("", "", None)

  predicate KnownPeer(hosts: map<string, string>, uid: string, host: string) {
    uid in hosts && hosts[uid] == host
  }

  /** The call, if any, by which a binary packet attaches its device. */
  function AttachCalls(c: Config, s: State, hosts: map<string, string>, p: Datagram, host: string, denied: bool,
                       now: real, ms: int): seq<Call>
    requires p.Packet?
  {
    if p.uid == "" || denied then []
    else if p.isHeartbeat then [Call(p.uid, now, ms, Heartbeat)]
    else if p.isArduino && (AllowsStream(c, s, p.uid, host, now) || KnownPeer(hosts, p.uid, host)) then
      [Call(p.uid, now, ms, Control("status", true, STREAM_STATUS))]
    else []
  }

  /** A packet goes upstream when its device is known, allowed and served here; a
      stream packet counts as served by itself. */
  predicate Forwards(c: Config, s: State, p: Datagram, denied: bool, now: real)
    requires p.Packet?
  {
    p.uid != "" && !denied && !p.isHeartbeat && (p.isArduino || IsServing(c, s, p.uid, now))
  }

  function Settled(c: Config, s: State, p: Datagram, denied: bool, now: real): State
    requires p.Packet?
  {
    var polled := if p.uid == "" || p.isArduino then s else Sweep(c, s, now);
    if p.uid == "" || p.isHeartbeat then polled
    else RecordUdpPacket(polled, p.uid, Forwards(c, s, p, denied, now), now)
  }

  /** Every presence call one binary packet gives rise to, in order. */
  function PacketCalls(c: Config, g: string, s: State, hosts: map<string, string>, p: Datagram, host: string,
                       denied: bool, now: real, ms: int): seq<Call>
    requires p.Packet?
  {
    var attach := AttachCalls(c, s, hosts, p, host, denied, now, ms);
    var polled := if p.uid == "" || p.isArduino then attach else attach + [Call(p.uid, now, ms, Query)];
    if p.uid == "" || p.isHeartbeat then polled
    else polled + [Call(p.uid, now, ms, UdpPacket(Forwards(c, Run(c, g, s, attach), p, denied, now)))]
  }

  lemma RunPacket(c: Config, g: string, s: State, hosts: map<string, string>, p: Datagram, host: string, denied: bool,
                  now: real, ms: int)
    requires p.Packet?
    ensures Run(c, g, s, PacketCalls(c, g, s, hosts, p, host, denied, now, ms))
         == Settled(c, Run(c, g, s, AttachCalls(c, s, hosts, p, host, denied, now, ms)), p, denied, now)
  {
    var attach := AttachCalls(c, s, hosts, p, host, denied, now, ms);
    var query := Call(p.uid, now, ms, Query);
    var packet := Call(p.uid, now, ms, UdpPacket(Forwards(c, Run(c, g, s, attach), p, denied, now)));
    RunSnoc(c, g, s, attach, query);
    RunSnoc(c, g, s, attach, packet);
    RunSnoc(c, g, s, attach + [query], packet);
  }

  predicate CarriesPresence(kind: string) {
    kind == "hello" || kind == "status" || kind == "update_progress" || kind == "result"
  }

  function FrameCalls(f: Datagram, denied: bool, now: real, ms: int): seq<Call>
    requires f.Frame?
  {
    if f.uid == "" || denied || !CarriesPresence(f.kind) then []
    else [Call(f.uid, now, ms, Control(f.kind, true, f.payload))]
  }

  /** The dispatcher's calls: whoever attaches by a binary packet has a session. */
  function PacketUdp(attach: seq<Call>, p: Datagram, addr: U.Address, now: real): seq<U.Call> {
    if attach == [] then [] else [U.Call(p.uid, now, U.Session(addr))]
  }

  /** And so has whoever sends a JSON frame. */
  function FrameUdp(f: Datagram, addr: U.Address, denied: bool, now: real): seq<U.Call>
    requires f.Frame?
  {
    if f.uid == "" || denied then []
    else
      [U.Call(f.uid, now, U.Session(addr))]
      + (if f.kind == "ack" then [U.Call(f.uid, now, U.Ack(f.requestId, f.ack))]
         else if f.kind == "result" then [U.Call(f.uid, now, U.Result(f.requestId))]
         else [])
  }

  /** The claims once the delivery of these commands has been given up. */
  function FailSwitches(claims: seq<Claims.Claim>, entries: seq<U.Entry>): seq<Claims.Claim> {
    if entries == [] then claims
    else
      var front, p := FailSwitches(claims, entries[..|entries| - 1]), entries[|entries| - 1].payload;
      if p.command == "findme_switch_gateway" && p.claimId != "" then Claims.Fail(front, p.claimId) else front
  }

  function HostsAfter(hosts: map<string, string>, attach: seq<Call>, uid: string, host: string): map<string, string> {
    if attach == [] then hosts else hosts[uid := host]
  }

  /** The receiving side of one gateway process. */
  class Gateway {
    const id: string
    const state: GatewayState
    const commands: UDPCommandDispatcher
    var hosts: map<string, string>

    ghost predicate Valid()
      reads this, state, commands
    {
      state.Valid() && commands.Valid()
    }

    constructor (id: string, state: GatewayState, commands: UDPCommandDispatcher)
      ensures this.id == id && this.state == state && this.commands == commands && hosts == map[]
    {
      this.id, this.state, this.commands, hosts := id, state, commands, map[];
    }

    /** The attaching half of a packet's arrival. */
    method Admit(p: Datagram, addr: U.Address, denied: bool, now: real, ms: int)
      requires p.Packet? && Valid()
      modifies this`hosts, state, commands
      ensures Valid()
      ensures var attach := AttachCalls(state.config, old(state.Model()), old(hosts), p, addr.host, denied, now, ms);
              && state.Model() == Run(state.config, id, old(state.Model()), attach)
              && commands.Model() ==
                  U.Run(old(commands.Model()), commands.sessionTtlSec, PacketUdp(attach, p, addr, now))
              && hosts == HostsAfter(old(hosts), attach, p.uid, addr.host)
    {
      RunSteps(state.config, id, state.Model());
      ghost var session := U.Call(p.uid, now, U.Session(addr));
      UdpSteps(commands.Model(), commands.sessionTtlSec, session, session);
      var samePeer := KnownPeer(hosts, p.uid, addr.host);
      if p.isHeartbeat && p.uid != "" && !denied {
        hosts := hosts[p.uid := addr.host];
        commands.SetSession(p.uid, addr, now);
        state.RecordHeartbeat(p.uid, now, ms);
      } else if p.isArduino && p.uid != "" && !denied {
        var allowed := state.FindmeAllowsStream(p.uid, addr.host, now);
        if allowed || samePeer {
          hosts := hosts[p.uid := addr.host];
          commands.SetSession(p.uid, addr, now);
          state.RecordControl(p.uid, "status", STREAM_STATUS, true, "", now, ms);
        }
      }
    }

    /** The forwarding half. */
    method Settle(p: Datagram, denied: bool, now: real) returns (forwarded: bool)
      requires p.Packet? && state.Valid()
      modifies state
      ensures state.Valid()
      ensures forwarded == Forwards(state.config, old(state.Model()), p, denied, now)
      ensures state.Model() == Settled(state.config, old(state.Model()), p, denied, now)
    {
      var serving := p.uid != "" && p.isArduino;
      if p.uid != "" && !p.isArduino {
        serving := state.IsServing(p.uid, now);
      }
      forwarded := p.uid != "" && !denied && serving && !p.isHeartbeat;
      if p.uid != "" && !p.isHeartbeat {
        state.RecordUdpPacket(p.uid, forwarded, now);
      }
    }

    /** Returns whether the packet goes upstream. */
    method OnUdpPacket(p: Datagram, addr: U.Address, denied: bool, now: real, ms: int) returns (forwarded: bool)
      requires p.Packet? && Valid()
      modifies this`hosts, state, commands
      ensures Valid()
      ensures var calls := PacketCalls(state.config, id, old(state.Model()), old(hosts), p, addr.host, denied, now, ms);
              state.Model() == Run(state.config, id, old(state.Model()), calls)
      ensures var attach := AttachCalls(state.config, old(state.Model()), old(hosts), p, addr.host, denied, now, ms);
              && commands.Model() ==
                  U.Run(old(commands.Model()), commands.sessionTtlSec, PacketUdp(attach, p, addr, now))
              && hosts == HostsAfter(old(hosts), attach, p.uid, addr.host)
    {
      RunPacket(state.config, id, state.Model(), hosts, p, addr.host, denied, now, ms);
      Admit(p, addr, denied, now, ms);
      forwarded := Settle(p, denied, now);
    }

    /** The dispatcher's half of a frame's arrival: the session, then the ack or the result. */
    method HearFrame(f: Datagram, addr: U.Address, denied: bool, now: real)
      requires f.Frame? && commands.Valid()
      modifies commands
      ensures commands.Valid()
      ensures commands.Model() == U.Run(old(commands.Model()), commands.sessionTtlSec, FrameUdp(f, addr, denied, now))
    {
      FrameSteps(commands.Model(), commands.sessionTtlSec, f, addr, denied, now);
      if f.uid == "" || denied { return; }
      commands.SetSession(f.uid, addr, now);
      if f.kind == "ack" {
        commands.HandleAck(f.uid, f.requestId, f.ack);
      } else if f.kind == "result" {
        commands.HandleResult(f.uid, f.requestId);
      }
    }

    /** The presence table's half: what an ack or an unknown frame does not reach. */
    method RecordFrame(f: Datagram, denied: bool, now: real, ms: int)
      requires f.Frame? && state.Valid()
      modifies state
      ensures state.Valid()
      ensures state.Model() == Run(state.config, id, old(state.Model()), FrameCalls(f, denied, now, ms))
    {
      RunSteps(state.config, id, state.Model());
      if f.uid == "" || denied { return; }
      if CarriesPresence(f.kind) {
        state.RecordControl(f.uid, f.kind, f.payload, true, id, now, ms);
      }
    }

    method OnControlFrame(f: Datagram, addr: U.Address, denied: bool, now: real, ms: int)
      requires f.Frame? && Valid()
      modifies state, commands
      ensures Valid()
      ensures state.Model() == Run(state.config, id, old(state.Model()), FrameCalls(f, denied, now, ms))
      ensures commands.Model() == U.Run(old(commands.Model()), commands.sessionTtlSec, FrameUdp(f, addr, denied, now))
    {
      HearFrame(f, addr, denied, now);
      RecordFrame(f, denied, now, ms);
    }

    /** Fails the claims of the switch commands among those given up on. */
    method OnDeliveryTimeouts(timedOut: seq<U.Entry>)
      requires state.Valid()
      modifies state
      ensures state.Valid()
      ensures state.Model() == old(state.Model()).(claims := FailSwitches(old(state.claims), timedOut))
    {
      for n := 0 to |timedOut|
        invariant state.Valid()
        invariant state.Model() == old(state.Model()).(claims := FailSwitches(old(state.claims), timedOut[..n]))
      {
        var payload := timedOut[n].payload;
        assert timedOut[..n + 1][..n] == timedOut[..n];
        if payload.command == "findme_switch_gateway" && payload.claimId != "" {
          state.FailClaimDelivery(payload.claimId);
        }
      }
      assert timedOut[..|timedOut|] == timedOut;
    }

    /** The service thread's turn: what the dispatcher gives up on fails the claim that a
        switch command was for. */
    method ServiceCommands(ok: set<nat>, now: real) returns (timedOut: seq<U.Entry>)
      requires Valid()
      modifies state, commands
      ensures Valid()
      ensures commands.Model() == U.Service(old(commands.Model()), commands.sessionTtlSec, ok, now)
      ensures commands.history.callbacks == old(commands.history.callbacks) + Tickets(timedOut)
      ensures state.Model() == old(state.Model()).(claims := FailSwitches(old(state.claims), timedOut))
    {
      timedOut := commands.Service(ok, now);
      OnDeliveryTimeouts(timedOut);
    }
  }

  lemma UdpSteps(s: U.State, ttl: real, a: U.Call, b: U.Call)
    ensures U.Run(s, ttl, []) == s
    ensures U.Run(s, ttl, [a]) == U.Apply(s, ttl, a)
    ensures U.Run(s, ttl, [a] + [b]) == U.Apply(U.Apply(s, ttl, a), ttl, b)
  {
    assert [a][..0] == [];
    assert ([a] + [b])[..1] == [a];
  }

  lemma FrameSteps(s: U.State, ttl: real, f: Datagram, addr: U.Address, denied: bool, now: real)
    requires f.Frame?
    ensures U.Run(s, ttl, FrameUdp(f, addr, denied, now))
         == if f.uid == "" || denied then s
            else
              var heard := U.SetSession(s, f.uid, addr, now);
              if f.kind == "ack" then U.HandleAck(heard, f.uid, f.requestId, f.ack)
              else if f.kind == "result" then U.HandleResult(heard, f.uid, f.requestId)
              else heard
  {
    var session := U.Call(f.uid, now, U.Session(addr));
    var reply := U.Call(f.uid, now, if f.kind == "ack" then U.Ack(f.requestId, f.ack) else U.Result(f.requestId));
    UdpSteps(s, ttl, session, reply);
    assert [session] + [] == [session];
  }

  lemma RunSnoc(c: Config, g: string, s: State, calls: seq<Call>, call: Call)
    ensures Run(c, g, s, calls + [call]) == Apply(c, g, Run(c, g, s, calls), call)
  {
    assert (calls + [call])[..|calls|] == calls;
  }

  lemma RunSteps(c: Config, g: string, s: State)
    ensures Run(c, g, s, []) == s
    ensures forall call :: Run(c, g, s, [call]) == Apply(c, g, s, call)
  {
    forall call
      ensures Run(c, g, s, [call]) == Apply(c, g, s, call)
    {
      assert [call][..0] == [];
    }
  }

  // ---------------------------------------------------------------------
  // The LAN

  /** One gateway's history: the calls made on its table and on its dispatcher since start-up. */
  datatype Node = Node(hosts: map<string, string>, calls: seq<Call>, udp: seq<U.Call>)

  datatype Net = Net(configs: map<string, Config>, delay: real, sessionTtlSec: real)

  datatype Delivery =
    | FromDevice(at: string, time: real, ms: int, sentAt: real, addr: U.Address, denied: bool, dgram: Datagram)
    | Local(at: string, call: Call)
    | Command(at: string, step: U.Call)

  function TimeOf(e: Delivery): real {
    match e
    case Local(_, call) => call.time
    case Command(_, step) => step.time
    case _ => e.time
  }

  /** Everything a gateway does on its own: discovery, polls, snapshots, claims. */
  predicate IsLocal(event: Event) {
    !event.Control? && !event.Heartbeat? && !event.UdpPacket?
  }

  /** Everything the dispatcher does on its own: sending, service, snapshots, drops. */
  predicate IsOwn(event: U.Event) {
    !event.Session? && !event.Ack? && !event.Result?
  }

  ghost function StateAt(net: Net, g: string, n: Node): State
    requires g in net.configs
  {
    Run(net.configs[g], g, EMPTY, n.calls)
  }

  ghost function CallsOf(net: Net, n: Node, e: Delivery): seq<Call>
    requires e.at in net.configs
  {
    match e
    case Local(_, call) => [call]
    case Command(_, _) => []
    case FromDevice(g, now, ms, _, addr, denied, d) =>
      if d.Packet? then PacketCalls(net.configs[g], g, StateAt(net, g, n), n.hosts, d, addr.host, denied, now, ms)
      else FrameCalls(d, denied, now, ms)
  }

  ghost function AttachOf(net: Net, n: Node, e: Delivery): seq<Call>
    requires e.at in net.configs && e.FromDevice? && e.dgram.Packet?
  {
    AttachCalls(net.configs[e.at], StateAt(net, e.at, n), n.hosts, e.dgram, e.addr.host, e.denied, e.time, e.ms)
  }

  ghost function UdpOf(net: Net, n: Node, e: Delivery): seq<U.Call>
    requires e.at in net.configs
  {
    match e
    case Local(_, _) => []
    case Command(_, step) => [step]
    case FromDevice(_, now, _, _, addr, denied, d) =>
      if d.Packet? then PacketUdp(AttachOf(net, n, e), d, addr, now) else FrameUdp(d, addr, denied, now)
  }

  ghost function Deliver(net: Net, n: Node, e: Delivery): Node
    requires e.at in net.configs
  {
    var hosts := if e.FromDevice? && e.dgram.Packet? then
                   HostsAfter(n.hosts, AttachOf(net, n, e), e.dgram.uid, e.addr.host)
                 else n.hosts;
    Node(hosts, n.calls + CallsOf(net, n, e), n.udp + UdpOf(net, n, e))
  }

  /** Gateway g's history after the whole LAN has processed `es`. */
  ghost function NodeAfter(net: Net, es: seq<Delivery>, g: string): Node
    requires forall e :: e in es ==> e.at in net.configs
  {
    if es == [] then Node(map[], [], [])
    else
      var before := NodeAfter(net, es[..|es| - 1], g);
      if es[|es| - 1].at == g then Deliver(net, before, es[|es| - 1]) else before
  }

  /** `attachedTo(t)`: the gateway device d is attached to at time t, if any.
      It streams, beats and reports only to that gateway; it answers anyone, but
      a FindMe block in an answer names its true gateway. */
  ghost predicate Truthful(attachedTo: real -> Option<string>, d: string, g: string, sentAt: real, m: Datagram) {
    m.uid == d ==>
      match m
      case Packet(_, _, _) => attachedTo(sentAt) == Some(g)
      case Frame(_, kind, payload, _, _) =>
        if kind == "result" then
          payload.findme.Some? && payload.findme.value.gatewayId != "" && payload.findme.value.state == "attached"
          ==> attachedTo(sentAt) == Some(payload.findme.value.gatewayId)
        else
          CarriesPresence(kind) ==> attachedTo(sentAt) == Some(g)
  }

  ghost predicate Legal(net: Net, attachedTo: real -> Option<string>, d: string, e: Delivery) {
    && e.at in net.configs
    && (e.Local? ==> IsLocal(e.call.event))
    && (e.Command? ==> IsOwn(e.step.event))
    && (e.FromDevice? ==>
        e.sentAt <= e.time <= e.sentAt + net.delay && Truthful(attachedTo, d, e.at, e.sentAt, e.dgram))
  }

  ghost predicate LegalRun(net: Net, attachedTo: real -> Option<string>, d: string, es: seq<Delivery>) {
    && (forall e :: e in es ==> Legal(net, attachedTo, d, e))
    && (forall i, j :: 0 <= i <= j < |es| ==> TimeOf(es[i]) <= TimeOf(es[j]))
  }

  /** At some moment no more than the delivery delay before t, the device was attached to g. */
  ghost predicate Backed(net: Net, attachedTo: real -> Option<string>, g: string, t: real) {
    exists sent: real :: attachedTo(sent) == Some(g) && sent <= t <= sent + net.delay
  }

  /** Calls made at one instant, each piece of evidence for d backed by an attachment to g. */
  ghost predicate HonestCalls(net: Net, attachedTo: real -> Option<string>, d: string, g: string, calls: seq<Call>,
                              now: real) {
    && Timely(calls) && NotAfter(calls, now)
    && forall k :: 0 <= k < |calls| && Evidence(g, calls[k], d) ==> Backed(net, attachedTo, g, calls[k].time)
  }

  lemma DeliveryIsHonest(net: Net, attachedTo: real -> Option<string>, d: string, n: Node, e: Delivery)
    requires Legal(net, attachedTo, d, e)
    ensures var calls := CallsOf(net, n, e);
            forall k :: 0 <= k < |calls| ==>
              && calls[k].time == TimeOf(e)
              && (Evidence(e.at, calls[k], d) ==> Backed(net, attachedTo, e.at, TimeOf(e)))
  {
    if e.FromDevice? && attachedTo(e.sentAt) == Some(e.at) {
      assert Backed(net, attachedTo, e.at, e.time);
    }
  }

  lemma {:induction false} HistoryIsHonest(net: Net, attachedTo: real -> Option<string>, d: string,
                                        es: seq<Delivery>, g: string, now: real)
    requires LegalRun(net, attachedTo, d, es)
    requires forall e :: e in es ==> TimeOf(e) <= now
    ensures HonestCalls(net, attachedTo, d, g, NodeAfter(net, es, g).calls, now)
  {
    if es != [] {
      var last := es[|es| - 1];
      var before := es[..|es| - 1];
      forall e | e in before
        ensures TimeOf(e) <= TimeOf(last)
      {
        var i :| 0 <= i < |before| && before[i] == e;
        assert es[i] == e;
      }
      HistoryIsHonest(net, attachedTo, d, before, g, TimeOf(last));
      if last.at == g {
        DeliveryIsHonest(net, attachedTo, d, NodeAfter(net, before, g), last);
      }
    }
  }

  /** Main result: once a device has been away from gateway g for the delivery delay
      plus control_stale_sec, nothing g hears or does makes it serve the device. */
  lemma NoFlip(net: Net, attachedTo: real -> Option<string>, d: string, es: seq<Delivery>, g: string, left: real,
               now: real)
    requires LegalRun(net, attachedTo, d, es) && g in net.configs && Sound(net.configs[g])
    requires forall e :: e in es ==> TimeOf(e) <= now
    requires forall t: real :: left <= t <= now ==> attachedTo(t) != Some(g)
    requires now >= left + net.delay + net.configs[g].controlStaleSec
    ensures !IsServing(net.configs[g], StateAt(net, g, NodeAfter(net, es, g)), d, now)
  {
    var c, calls := net.configs[g], NodeAfter(net, es, g).calls;
    HistoryIsHonest(net, attachedTo, d, es, g, now);
    ServedExactly(c, g, calls, d, now);
  }

  /** Main result: while a device stays with gateway h, from the same delay on no other
      gateway of the LAN serves it. */
  lemma AtMostOneServes(net: Net, attachedTo: real -> Option<string>, d: string, es: seq<Delivery>, h: string,
                        since: real, now: real)
    requires LegalRun(net, attachedTo, d, es)
    requires forall e :: e in es ==> TimeOf(e) <= now
    requires forall t: real :: since <= t <= now ==> attachedTo(t) == Some(h)
    requires forall g :: g in net.configs ==>
        Sound(net.configs[g]) && now >= since + net.delay + net.configs[g].controlStaleSec
    ensures forall g :: g in net.configs ==>
              IsServing(net.configs[g], StateAt(net, g, NodeAfter(net, es, g)), d, now) ==> g == h
  {
    forall g | g in net.configs && g != h
      ensures !IsServing(net.configs[g], StateAt(net, g, NodeAfter(net, es, g)), d, now)
    {
      NoFlip(net, attachedTo, d, es, g, since, now);
    }
  }

  // ---------------------------------------------------------------------
  // Presence and delivery together

  /** Whatever attaches a device also opens or refreshes its session, at the same moment. */
  lemma AttachingIsHeard(net: Net, attachedTo: real -> Option<string>, d: string, n: Node, e: Delivery, uid: string)
    requires Legal(net, attachedTo, d, e)
    ensures var calls, udp := CallsOf(net, n, e), UdpOf(net, n, e);
            && (forall k :: 0 <= k < |udp| ==> udp[k].time == TimeOf(e))
            && forall k :: 0 <= k < |calls| && Attaches(e.at, calls[k], uid) ==>
                 calls[k].time == TimeOf(e) && udp != [] && UdpSessions.Hears(udp[0], uid)
  {}

  /** Some call on the dispatcher, no earlier than t, heard of the device. */
  ghost predicate HeardFrom(udp: seq<U.Call>, uid: string, t: real) {
    exists i :: 0 <= i < |udp| && UdpSessions.Hears(udp[i], uid) && udp[i].time >= t
  }

  ghost predicate UdpTimely(udp: seq<U.Call>, now: real) {
    forall i, j :: 0 <= i <= j < |udp| ==> udp[i].time <= udp[j].time <= now
  }

  lemma HeardExtends(udp: seq<U.Call>, more: seq<U.Call>, uid: string, t: real)
    ensures HeardFrom(udp + more, uid, t) <==> HeardFrom(udp, uid, t) || HeardFrom(more, uid, t)
  {
    var all := udp + more;
    assert forall i :: 0 <= i < |udp| ==> all[i] == udp[i];
    assert forall i :: 0 <= i < |more| ==> all[|udp| + i] == more[i];
  }

  /** Whoever attached is in the dispatcher's history at that time or later. */
  ghost predicate AllHeard(n: Node, g: string, uid: string) {
    forall k :: 0 <= k < |n.calls| && Attaches(g, n.calls[k], uid) ==> HeardFrom(n.udp, uid, n.calls[k].time)
  }

  lemma HeardAfter(net: Net, attachedTo: real -> Option<string>, d: string, n: Node, e: Delivery, uid: string)
    requires Legal(net, attachedTo, d, e) && UdpTimely(n.udp, TimeOf(e)) && AllHeard(n, e.at, uid)
    ensures UdpTimely(Deliver(net, n, e).udp, TimeOf(e)) && AllHeard(Deliver(net, n, e), e.at, uid)
  {
    var calls, udp, n' := CallsOf(net, n, e), UdpOf(net, n, e), Deliver(net, n, e);
    AttachingIsHeard(net, attachedTo, d, n, e, uid);
    forall k | 0 <= k < |n'.calls| && Attaches(e.at, n'.calls[k], uid)
      ensures HeardFrom(n'.udp, uid, n'.calls[k].time)
    {
      HeardExtends(n.udp, udp, uid, n'.calls[k].time);
      if k < |n.calls| {
        assert n'.calls[k] == n.calls[k];
      } else {
        assert n'.calls[k] == calls[k - |n.calls|];
        assert UdpSessions.Hears(udp[0], uid) && udp[0].time >= n'.calls[k].time;
        assert HeardFrom(udp, uid, n'.calls[k].time);
      }
    }
  }

  lemma {:induction false} AttachesAreHeard(net: Net, attachedTo: real -> Option<string>, d: string,
                                        es: seq<Delivery>, g: string, uid: string, now: real)
    requires LegalRun(net, attachedTo, d, es)
    requires forall e :: e in es ==> TimeOf(e) <= now
    ensures UdpTimely(NodeAfter(net, es, g).udp, now) && AllHeard(NodeAfter(net, es, g), g, uid)
  {
    if es != [] {
      var last := es[|es| - 1];
      var before := es[..|es| - 1];
      forall e | e in before
        ensures TimeOf(e) <= TimeOf(last)
      {
        var i :| 0 <= i < |before| && before[i] == e;
        assert es[i] == e;
      }
      AttachesAreHeard(net, attachedTo, d, before, g, uid, TimeOf(last));
      assert Legal(net, attachedTo, d, last) && TimeOf(last) <= now;
      if last.at == g {
        HeardAfter(net, attachedTo, d, NodeAfter(net, before, g), last, uid);
      }
    }
  }

  lemma {:induction false} LastHearing(udp: seq<U.Call>, uid: string, i: nat) returns (j: nat)
    requires i < |udp| && UdpSessions.Hears(udp[i], uid)
    ensures i <= j < |udp| && UdpSessions.Hears(udp[j], uid)
    ensures forall k :: j < k < |udp| ==> !UdpSessions.Hears(udp[k], uid)
    decreases |udp| - i
  {
    if k :| i < k < |udp| && UdpSessions.Hears(udp[k], uid) {
      j := LastHearing(udp, uid, k);
    } else {
      j := i;
    }
  }

  /** No call from time t on ends the session of `uid` other than for silence. */
  ghost predicate Unlost(ttl: real, udp: seq<U.Call>, uid: string, t: real) {
    forall i :: 0 <= i < |udp| && udp[i].time >= t ==>
        !UdpSessions.Loses(U.Run(U.EMPTY, ttl, udp[..i]), ttl, udp[i], uid)
  }

  /** Main result: a device that attached to a gateway within the session TTL can be sent
      commands there, unless it was dropped or a transmission to it failed since. */
  lemma AttachedIsReachable(net: Net, attachedTo: real -> Option<string>, d: string, es: seq<Delivery>, g: string,
                            uid: string, k: nat, now: real)
    requires LegalRun(net, attachedTo, d, es)
    requires forall e :: e in es ==> TimeOf(e) <= now
    requires k < |NodeAfter(net, es, g).calls| && Attaches(g, NodeAfter(net, es, g).calls[k], uid)
    requires now - NodeAfter(net, es, g).calls[k].time <= net.sessionTtlSec
    requires Unlost(net.sessionTtlSec, NodeAfter(net, es, g).udp, uid, NodeAfter(net, es, g).calls[k].time)
    ensures var ttl, udp := net.sessionTtlSec, NodeAfter(net, es, g).udp;
            uid in U.Prune(U.Run(U.EMPTY, ttl, udp), ttl, now).sessions
  {
    var ttl, udp, t := net.sessionTtlSec, NodeAfter(net, es, g).udp, NodeAfter(net, es, g).calls[k].time;
    AttachesAreHeard(net, attachedTo, d, es, g, uid, now);
    var i: nat :| i < |udp| && UdpSessions.Hears(udp[i], uid) && udp[i].time >= t;
    var j := LastHearing(udp, uid, i);
    assert UdpSessions.HeardLast(ttl, udp, uid, j);
    UdpSessions.AcceptedExactly(ttl, udp, uid, j, now);
  }
}
