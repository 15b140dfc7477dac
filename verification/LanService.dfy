/** The other half of service on a LAN: the gateway a device is attached to does serve it. */
module LanService {
  import opened Wrappers
  import opened Presence
  import opened PresenceHistory
  import opened Lan

  /** A heartbeat of device d reaches gateway h and is not turned away. */
  predicate Beat(e: Delivery, h: string, d: string) {
    && e.FromDevice? && e.at == h && !e.denied
    && e.dgram.Packet? && e.dgram.isHeartbeat && e.dgram.uid == d && d != ""
  }

  /** Something happens at the gateway that disconnects d: the gateway drops it, or an answer of
      its own says that it is attached elsewhere or nowhere. */
  predicate Frees(e: Delivery, h: string, d: string) {
    && e.at == h
    && match e
       case Local(_, call) => call.event.Disconnect? && call.uid == d
       case Command(_, _) => false
       case FromDevice(_, _, _, _, _, denied, m) =>
         && m.Frame? && m.uid == d && !denied && CarriesPresence(m.kind)
         && Verdict(m.kind, true, m.payload, h) == Some(false)
  }

  lemma BeatIsCall(net: Net, n: Node, e: Delivery, h: string, d: string)
    requires e.at in net.configs && Beat(e, h, d)
    ensures CallsOf(net, n, e) != [] && CallsOf(net, n, e)[0] == Call(d, TimeOf(e), e.ms, Heartbeat)
  {}

  lemma CallsAreFrom(net: Net, n: Node, e: Delivery, h: string, d: string)
    requires e.at == h && h in net.configs && (e.Local? ==> IsLocal(e.call.event))
    ensures var calls := CallsOf(net, n, e);
            forall k :: 0 <= k < |calls| ==>
              calls[k].time == TimeOf(e) && (Releases(h, calls[k], d) ==> Frees(e, h, d))
  {}

  /** Call i of gateway h was made while delivery n was processed. */
  ghost predicate MadeBy(net: Net, es: seq<Delivery>, h: string, i: int, n: int)
    requires forall e :: e in es ==> e.at in net.configs
  {
    && 0 <= n < |es| && es[n].at == h
    && |NodeAfter(net, es[..n], h).calls| <= i < |NodeAfter(net, es[..n + 1], h).calls|
  }

  lemma NodeStep(net: Net, es: seq<Delivery>, h: string, n: nat)
    requires (forall e :: e in es ==> e.at in net.configs) && n < |es|
    ensures NodeAfter(net, es[..n + 1], h)
         == if es[n].at == h then Deliver(net, NodeAfter(net, es[..n], h), es[n]) else NodeAfter(net, es[..n], h)
  {
    assert es[..n + 1][..n] == es[..n];
  }

  lemma {:induction false} CallsGrow(net: Net, es: seq<Delivery>, h: string, n: nat)
    requires (forall e :: e in es ==> e.at in net.configs) && n <= |es|
    ensures NodeAfter(net, es[..n], h).calls <= NodeAfter(net, es, h).calls
    decreases |es| - n
  {
    if n == |es| {
      assert es[..n] == es;
    } else {
      NodeStep(net, es, h, n);
      CallsGrow(net, es, h, n + 1);
    }
  }

  lemma {:induction false} CallHasDelivery(net: Net, es: seq<Delivery>, h: string, i: nat) returns (n: nat)
    requires forall e :: e in es ==> e.at in net.configs
    requires i < |NodeAfter(net, es, h).calls|
    ensures MadeBy(net, es, h, i, n)
  {
    var last := |es| - 1;
    assert es[..last + 1] == es;
    NodeStep(net, es, h, last);
    if i < |NodeAfter(net, es[..last], h).calls| {
      n := CallHasDelivery(net, es[..last], h, i);
      assert es[..last][..n] == es[..n] && es[..last][..n + 1] == es[..n + 1];
    } else {
      n := last;
    }
  }

  /** A call has its delivery's time, and disconnects d only if its delivery does. */
  lemma CallOfDelivery(net: Net, es: seq<Delivery>, h: string, d: string, i: nat, n: nat)
    requires forall e :: e in es ==> e.at in net.configs && (e.Local? ==> IsLocal(e.call.event))
    requires MadeBy(net, es, h, i, n)
    ensures i < |NodeAfter(net, es, h).calls|
    ensures var call := NodeAfter(net, es, h).calls[i];
            call.time == TimeOf(es[n]) && (Releases(h, call, d) ==> Frees(es[n], h, d))
  {
    var before := NodeAfter(net, es[..n], h);
    NodeStep(net, es, h, n);
    CallsGrow(net, es, h, n + 1);
    assert es[n] in es;
    CallsAreFrom(net, before, es[n], h, d);
    assert NodeAfter(net, es, h).calls[i] == CallsOf(net, before, es[n])[i - |before.calls|];
  }

  /** A beat's heartbeat call, and where it is. */
  lemma BeatPlace(net: Net, es: seq<Delivery>, h: string, d: string, b: nat) returns (i: nat)
    requires forall e :: e in es ==> e.at in net.configs
    requires b < |es| && Beat(es[b], h, d)
    ensures i == |NodeAfter(net, es[..b], h).calls| < |NodeAfter(net, es, h).calls|
    ensures MadeBy(net, es, h, i, b)
    ensures NodeAfter(net, es, h).calls[i] == Call(d, TimeOf(es[b]), es[b].ms, Heartbeat)
  {
    var before := NodeAfter(net, es[..b], h);
    i := |before.calls|;
    assert es[b] in es;
    BeatIsCall(net, before, es[b], h, d);
    NodeStep(net, es, h, b);
    CallsGrow(net, es, h, b + 1);
  }

  lemma CallsOrdered(net: Net, es: seq<Delivery>, h: string, i: nat, m: nat, n: nat)
    requires forall e :: e in es ==> e.at in net.configs
    requires MadeBy(net, es, h, i, m) && n < m
    ensures |NodeAfter(net, es[..n + 1], h).calls| <= i
  {
    assert es[..m][..n + 1] == es[..n + 1];
    CallsGrow(net, es[..m], h, n + 1);
  }

  /** Beat b came before delivery n, at most the stale time before t. */
  ghost predicate BeatBefore(c: Config, es: seq<Delivery>, h: string, d: string, n: int, t: real) {
    exists b :: 0 <= b < n <= |es| && Beat(es[b], h, d) && t - TimeOf(es[b]) <= c.controlStaleSec
  }

  /** From beat `first` on, something happens at h only within control_stale_sec of a beat, and
      nothing frees the device. */
  ghost predicate SteadilyBeats(net: Net, es: seq<Delivery>, h: string, d: string, first: nat, now: real)
    requires h in net.configs
  {
    && first < |es| && Beat(es[first], h, d)
    && (forall n :: first < n < |es| && es[n].at == h ==>
          !Frees(es[n], h, d) && BeatBefore(net.configs[h], es, h, d, n, TimeOf(es[n])))
    && BeatBefore(net.configs[h], es, h, d, |es|, now)
  }

  lemma SteadyCall(net: Net, es: seq<Delivery>, h: string, d: string, first: nat, now: real, i: nat)
    requires forall e :: e in es ==> e.at in net.configs && (e.Local? ==> IsLocal(e.call.event))
    requires h in net.configs && SteadilyBeats(net, es, h, d, first, now) && Sound(net.configs[h])
    requires |NodeAfter(net, es[..first], h).calls| < i < |NodeAfter(net, es, h).calls|
    ensures var calls := NodeAfter(net, es, h).calls;
            !Releases(h, calls[i], d) && BeatWithin(net.configs[h], calls, d, i, calls[i].time)
  {
    var n := CallHasDelivery(net, es, h, i);
    CallOfDelivery(net, es, h, d, i, n);
    if n < first {
      var place := BeatPlace(net, es, h, d, first);
      CallsOrdered(net, es, h, place, first, n);
      assert false;
    } else if n == first {
      var place := BeatPlace(net, es, h, d, first);
      assert !Frees(es[n], h, d);
    } else {
      var b: nat :| b < n && Beat(es[b], h, d) && TimeOf(es[n]) - TimeOf(es[b]) <= net.configs[h].controlStaleSec;
      var place := BeatPlace(net, es, h, d, b);
      CallsOrdered(net, es, h, i, n, b);
    }
  }

  lemma {:induction false} CallsAreTimely(net: Net, es: seq<Delivery>, h: string, now: real)
    requires forall e :: e in es ==> e.at in net.configs && (e.Local? ==> IsLocal(e.call.event)) && TimeOf(e) <= now
    requires forall i, j :: 0 <= i <= j < |es| ==> TimeOf(es[i]) <= TimeOf(es[j])
    ensures Timely(NodeAfter(net, es, h).calls) && NotAfter(NodeAfter(net, es, h).calls, now)
  {
    if es != [] {
      var last := es[|es| - 1];
      var before := es[..|es| - 1];
      forall e | e in before
        ensures TimeOf(e) <= TimeOf(last)
      {
        var i :| 0 <= i < |before| && before[i] == e;
        assert es[i] == e;
      }
      CallsAreTimely(net, before, h, TimeOf(last));
      if last.at == h {
        CallsAreFrom(net, NodeAfter(net, before, h), last, h, "");
      }
    }
  }

  /** Main result: a gateway that hears a device's heartbeats no more than control_stale_sec
      apart, and is not told of its leaving, serves it. */
  lemma SteadyBeatsServe(net: Net, es: seq<Delivery>, h: string, d: string, first: nat, now: real)
    requires forall e :: e in es ==> e.at in net.configs && (e.Local? ==> IsLocal(e.call.event)) && TimeOf(e) <= now
    requires forall i, j :: 0 <= i <= j < |es| ==> TimeOf(es[i]) <= TimeOf(es[j])
    requires h in net.configs && Sound(net.configs[h]) && SteadilyBeats(net, es, h, d, first, now)
    ensures IsServing(net.configs[h], StateAt(net, h, NodeAfter(net, es, h)), d, now)
  {
    var calls := NodeAfter(net, es, h).calls;
    var start := BeatPlace(net, es, h, d, first);
    CallsAreTimely(net, es, h, now);
    forall i | start < i < |calls|
      ensures !Releases(h, calls[i], d) && BeatWithin(net.configs[h], calls, d, i, calls[i].time)
    {
      SteadyCall(net, es, h, d, first, now, i);
    }
    var b: nat :| b < |es| && Beat(es[b], h, d) && now - TimeOf(es[b]) <= net.configs[h].controlStaleSec;
    var place := BeatPlace(net, es, h, d, b);
    assert BeatWithin(net.configs[h], calls, d, |calls|, now);
    SteadyHeartbeatsServe(net.configs[h], h, calls, d, start, now);
  }

  /** Main result: a device attached to h since `since`, whose beats keep reaching h, is served
      from the delivery delay plus control_stale_sec on, by h and by no other gateway. */
  lemma ExactlyOneServes(net: Net, attachedTo: real -> Option<string>, d: string, es: seq<Delivery>, h: string,
                         since: real, first: nat, now: real)
    requires LegalRun(net, attachedTo, d, es)
    requires forall e :: e in es ==> TimeOf(e) <= now
    requires forall t: real :: since <= t <= now ==> attachedTo(t) == Some(h)
    requires forall g :: g in net.configs ==>
               Sound(net.configs[g]) && now >= since + net.delay + net.configs[g].controlStaleSec
    requires h in net.configs && SteadilyBeats(net, es, h, d, first, now)
    ensures forall g :: g in net.configs ==>
              (IsServing(net.configs[g], StateAt(net, g, NodeAfter(net, es, g)), d, now) <==> g == h)
  {
    assert forall e :: e in es ==> Legal(net, attachedTo, d, e);
    SteadyBeatsServe(net, es, h, d, first, now);
    AtMostOneServes(net, attachedTo, d, es, h, since, now);
  }
}
