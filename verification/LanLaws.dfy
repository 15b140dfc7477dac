/** What single datagrams do, said of their fields alone, and what that means over runs. */
module LanLaws {
  import opened Wrappers
  import opened Presence
  import opened PresenceHistory
  import opened PresenceLaws
  import opened Lan
  import opened LanService
  import Claims
  import U = UdpControl
  import UdpSessions

  // ---------------------------------------------------------------------
  // One datagram

  /** A datagram of a denied device is no sign of life, attaches nothing, opens no session,
      leaves the known hosts alone and is not forwarded. */
  lemma DeniedDoesNothing(net: Net, n: Node, e: Delivery, uid: string)
    requires e.at in net.configs && e.FromDevice? && e.denied
    ensures forall k :: 0 <= k < |CallsOf(net, n, e)| ==>
              !Evidence(e.at, CallsOf(net, n, e)[k], uid) && !Attaches(e.at, CallsOf(net, n, e)[k], uid)
    ensures UdpOf(net, n, e) == [] && Deliver(net, n, e).hosts == n.hosts
    ensures e.dgram.Packet? ==> !Forwards(net.configs[e.at], StateAt(net, e.at, n), e.dgram, true, e.time)
  {}

  /** A delivery that attaches d to the gateway it comes to. */
  ghost predicate AttachesBy(net: Net, n: Node, e: Delivery, d: string)
    requires e.at in net.configs
  {
    exists k :: 0 <= k < |CallsOf(net, n, e)| && Attaches(e.at, CallsOf(net, n, e)[k], d)
  }

  /** Whether a binary packet attaches its device: a heartbeat, or a stream packet that FindMe
      grants or that comes from the device's known host. */
  ghost predicate Welcome(net: Net, n: Node, e: Delivery)
    requires e.at in net.configs && e.FromDevice? && e.dgram.Packet?
  {
    var p := e.dgram;
    && p.uid != "" && !e.denied
    && (p.isHeartbeat
        || (p.isArduino
            && (AllowsStream(net.configs[e.at], StateAt(net, e.at, n), p.uid, e.addr.host, e.time)
                || (p.uid in n.hosts && n.hosts[p.uid] == e.addr.host))))
  }

  /** A welcome packet attaches its device, opens its session at the packet's address and makes
      its host known; another one attaches nothing, opens nothing and makes nothing known. */
  lemma WelcomeExactly(net: Net, n: Node, e: Delivery)
    requires e.at in net.configs && e.FromDevice? && e.dgram.Packet?
    ensures Welcome(net, n, e) <==> AttachesBy(net, n, e, e.dgram.uid)
    ensures UdpOf(net, n, e) == if Welcome(net, n, e) then [U.Call(e.dgram.uid, e.time, U.Session(e.addr))] else []
    ensures Deliver(net, n, e).hosts == if Welcome(net, n, e) then n.hosts[e.dgram.uid := e.addr.host] else n.hosts
  {
    if Welcome(net, n, e) {
      assert Attaches(e.at, CallsOf(net, n, e)[0], e.dgram.uid);
    }
  }

  /** A packet goes upstream exactly if its device is known by uid and allowed, it is no
      heartbeat, and it is a stream packet or its device is served. */
  lemma ForwardedExactly(c: Config, s: State, p: Datagram, denied: bool, now: real)
    requires p.Packet? && Sound(c) && Consistent(s)
    ensures Forwards(c, s, p, denied, now)
        <==> p.uid != "" && !denied && !p.isHeartbeat
             && (p.isArduino || (p.uid in s.devices && s.devices[p.uid].connected && SeenWithin(c, s, p.uid, now)))
  {}

  /** The sign of life a forwarded packet leaves is the only other call it makes, a poll aside. */
  lemma PacketLeaves(net: Net, n: Node, e: Delivery)
    requires e.at in net.configs && e.FromDevice? && e.dgram.Packet? && e.dgram.uid != "" && !e.dgram.isHeartbeat
    ensures var calls := CallsOf(net, n, e);
            var before := Run(net.configs[e.at], e.at, StateAt(net, e.at, n), AttachOf(net, n, e));
            && calls != [] && calls[|calls| - 1].uid == e.dgram.uid
            && calls[|calls| - 1].event == UdpPacket(Forwards(net.configs[e.at], before, e.dgram, e.denied, e.time))
  {}

  /** A packet that is no stream packet asks whether its device is served, and so has the whole
      table swept, after it attached and before it counts. */
  lemma PacketPolls(net: Net, n: Node, e: Delivery)
    requires e.at in net.configs && e.FromDevice? && e.dgram.Packet?
    ensures var calls, poll := CallsOf(net, n, e), Call(e.dgram.uid, e.time, e.ms, Query);
            && (poll in calls <==> e.dgram.uid != "" && !e.dgram.isArduino)
            && forall j, k :: 0 <= j < k < |calls| ==>
                 !calls[j].event.UdpPacket? && (calls[j] == poll ==> calls[k].event.UdpPacket?)
  {
    var calls, poll := CallsOf(net, n, e), Call(e.dgram.uid, e.time, e.ms, Query);
    if e.dgram.uid != "" && !e.dgram.isArduino {
      assert calls[|AttachOf(net, n, e)|] == poll;
    }
  }

  /** A JSON frame of an allowed device is one presence call if it is a hello, a status, an update
      progress or a result, and none otherwise; it always opens the session, and an ack or a
      result then reaches the dispatcher. */
  lemma FrameExactly(f: Datagram, addr: U.Address, now: real, ms: int)
    requires f.Frame? && f.uid != ""
    ensures FrameCalls(f, false, now, ms)
         == if f.kind in {"hello", "status", "update_progress", "result"}
            then [Call(f.uid, now, ms, Control(f.kind, true, f.payload))] else []
    ensures |FrameUdp(f, addr, false, now)| == if f.kind in {"ack", "result"} then 2 else 1
    ensures FrameUdp(f, addr, false, now)[0] == U.Call(f.uid, now, U.Session(addr))
    ensures f.kind == "ack" ==> FrameUdp(f, addr, false, now)[1] == U.Call(f.uid, now, U.Ack(f.requestId, f.ack))
    ensures f.kind == "result" ==> FrameUdp(f, addr, false, now)[1] == U.Call(f.uid, now, U.Result(f.requestId))
    ensures FrameCalls(f, true, now, ms) == [] && FrameUdp(f, addr, true, now) == []
  {}

  /** Giving up on commands fails a claim exactly if one of them was the switch to it, and it
      has not attached. */
  lemma {:induction false} GivenUpSwitchFails(claims: seq<Claims.Claim>, entries: seq<U.Entry>, i: nat)
    requires i < |claims| && forall k :: 0 <= k < i ==> claims[k].id != claims[i].id
    ensures var after := FailSwitches(claims, entries);
            && |after| == |claims| && (forall k :: 0 <= k < |claims| ==> after[k].id == claims[k].id)
            && after[i] == if claims[i].state != "attached" && SwitchGivenUp(entries, claims[i].id)
                           then claims[i].(state := "failed") else claims[i]
  {
    if entries != [] {
      var front, last := entries[..|entries| - 1], entries[|entries| - 1];
      assert entries == front + [last];
      GivenUpSwitchFails(claims, front, i);
      var mid := FailSwitches(claims, front);
      assert SwitchGivenUp(entries, claims[i].id)
        <==> SwitchGivenUp(front, claims[i].id) || IsSwitchTo(last, claims[i].id);
      var at := Claims.IndexOf(mid, last.payload.claimId);
      if at < |mid| {
        Claims.FailureFails(mid, at);
      }
      if IsSwitchTo(last, claims[i].id) {
        assert at == i;
      }
    }
  }

  predicate IsSwitchTo(e: U.Entry, id: string) {
    e.payload.command == "findme_switch_gateway" && e.payload.claimId == id && id != ""
  }

  predicate SwitchGivenUp(entries: seq<U.Entry>, id: string) {
    exists k :: 0 <= k < |entries| && IsSwitchTo(entries[k], id)
  }

  // ---------------------------------------------------------------------
  // Runs

  ghost predicate Proper(net: Net, es: seq<Delivery>, now: real) {
    && (forall e :: e in es ==>
          && e.at in net.configs && TimeOf(e) <= now
          && (e.Local? ==> IsLocal(e.call.event)) && (e.Command? ==> IsOwn(e.step.event)))
    && forall i, j :: 0 <= i <= j < |es| ==> TimeOf(es[i]) <= TimeOf(es[j])
  }

  /** Every datagram of d at gateway g is denied. */
  ghost predicate AlwaysDenied(es: seq<Delivery>, g: string, d: string) {
    forall e :: e in es && e.FromDevice? && e.at == g && e.dgram.uid == d ==> e.denied
  }

  ghost predicate NeverAttached(calls: seq<Call>, g: string, d: string) {
    forall k :: 0 <= k < |calls| ==> !Attaches(g, calls[k], d)
  }

  ghost predicate NeverHeard(udp: seq<U.Call>, d: string) {
    forall k :: 0 <= k < |udp| ==> !UdpSessions.Hears(udp[k], d)
  }

  lemma {:induction false} DeniedLeavesNothing(net: Net, es: seq<Delivery>, g: string, d: string)
    requires forall e :: e in es ==>
               e.at in net.configs && (e.Local? ==> IsLocal(e.call.event)) && (e.Command? ==> IsOwn(e.step.event))
    requires AlwaysDenied(es, g, d)
    ensures NeverAttached(NodeAfter(net, es, g).calls, g, d) && NeverHeard(NodeAfter(net, es, g).udp, d)
  {
    if es != [] {
      var before, last := es[..|es| - 1], es[|es| - 1];
      DeniedLeavesNothing(net, before, g, d);
      assert last in es;
      if last.at == g {
        DeliveryOfOthers(net, NodeAfter(net, before, g), last, d);
      }
    }
  }

  lemma DeliveryOfOthers(net: Net, n: Node, e: Delivery, d: string)
    requires e.at in net.configs && (e.Local? ==> IsLocal(e.call.event)) && (e.Command? ==> IsOwn(e.step.event))
    requires e.FromDevice? && e.dgram.uid == d ==> e.denied
    ensures NeverAttached(n.calls, e.at, d) ==> NeverAttached(Deliver(net, n, e).calls, e.at, d)
    ensures NeverHeard(n.udp, d) ==> NeverHeard(Deliver(net, n, e).udp, d)
  {
    if e.FromDevice? && e.denied {
      DeniedDoesNothing(net, n, e, d);
    }
    assert NeverAttached(CallsOf(net, n, e), e.at, d) && NeverHeard(UdpOf(net, n, e), d);
  }

  lemma {:induction false} UnheardHasNoSession(ttl: real, udp: seq<U.Call>, d: string)
    requires NeverHeard(udp, d)
    ensures d !in U.Run(U.EMPTY, ttl, udp).sessions
  {
    UdpSessions.SessionsAreHeardOf(ttl, udp);
    if udp != [] {
      var front, last := udp[..|udp| - 1], udp[|udp| - 1];
      assert NeverHeard(front, d) && !UdpSessions.Hears(last, d);
      UnheardHasNoSession(ttl, front, d);
      UdpSessions.SessionsAreHeardOf(ttl, front);
      UdpSessions.SessionStep(U.Run(U.EMPTY, ttl, front), ttl, last, d);
    }
  }

  /** Main result: over every run, a device whose every datagram is denied at a gateway is never
      served there and never has a session there. */
  lemma DeniedIsNeverServed(net: Net, es: seq<Delivery>, g: string, d: string, now: real)
    requires Proper(net, es, now) && AlwaysDenied(es, g, d) && g in net.configs && Sound(net.configs[g])
    ensures var n := NodeAfter(net, es, g);
            && !IsServing(net.configs[g], StateAt(net, g, n), d, now)
            && d !in U.Run(U.EMPTY, net.sessionTtlSec, n.udp).sessions
  {
    var n := NodeAfter(net, es, g);
    CallsAreTimely(net, es, g, now);
    DeniedLeavesNothing(net, es, g, d);
    ServedExactly(net.configs[g], g, n.calls, d, now);
    UnheardHasNoSession(net.sessionTtlSec, n.udp, d);
  }

  /** Delivery n hands gateway g an answer of device d that says it is not attached there. */
  predicate SaysAway(e: Delivery, g: string, d: string) {
    && e.FromDevice? && e.at == g && !e.denied && d != ""
    && e.dgram.Frame? && e.dgram.uid == d && e.dgram.kind == "result" && AnswersAway(g, e.dgram.payload)
  }

  /** Main result: from an answer on that says the device is attached elsewhere or nowhere, the
      gateway does not serve it until it attaches again. */
  lemma AwayUntilAttached(net: Net, es: seq<Delivery>, g: string, d: string, n: nat, now: real)
    requires Proper(net, es, now) && g in net.configs && Sound(net.configs[g])
    requires n < |es| && SaysAway(es[n], g, d)
    requires forall m :: n < m < |es| && es[m].at == g ==> !AttachesBy(net, NodeAfter(net, es[..m], g), es[m], d)
    ensures !IsServing(net.configs[g], StateAt(net, g, NodeAfter(net, es, g)), d, now)
  {
    var calls := NodeAfter(net, es, g).calls;
    var k := |NodeAfter(net, es[..n], g).calls|;
    assert es[n] in es;
    NodeStep(net, es, g, n);
    CallsGrow(net, es, g, n + 1);
    var e := es[n];
    var answer := Call(d, e.time, e.ms, Control("result", true, e.dgram.payload));
    assert CallsOf(net, NodeAfter(net, es[..n], g), e) == [answer];
    assert calls[k] == answer;
    forall i | k < i < |calls|
      ensures !Attaches(g, calls[i], d)
    {
      NotAttachedSince(net, es, g, d, n, i);
    }
    CallsAreTimely(net, es, g, now);
    AnswerReleases(net.configs[g], g, calls, d, k, now);
  }

  lemma NotAttachedSince(net: Net, es: seq<Delivery>, g: string, d: string, n: nat, i: nat)
    requires forall e :: e in es ==> e.at in net.configs
    requires n < |es| && es[n].at == g && i < |NodeAfter(net, es, g).calls|
    requires |NodeAfter(net, es[..n + 1], g).calls| <= i
    requires forall m :: n < m < |es| && es[m].at == g ==> !AttachesBy(net, NodeAfter(net, es[..m], g), es[m], d)
    ensures !Attaches(g, NodeAfter(net, es, g).calls[i], d)
  {
    var m := CallHasDelivery(net, es, g, i);
    if m < n {
      assert es[..n + 1][..m + 1] == es[..m + 1];
      CallsGrow(net, es[..n + 1], g, m + 1);
    }
    assert m > n;
    var before := NodeAfter(net, es[..m], g);
    assert es[m] in es;
    NodeStep(net, es, g, m);
    CallsGrow(net, es, g, m + 1);
    assert NodeAfter(net, es, g).calls[i] == CallsOf(net, before, es[m])[i - |before.calls|];
  }
}
