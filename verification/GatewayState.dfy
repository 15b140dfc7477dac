/** The gateway's presence table, updated in place. Every method performs exactly
    the step of the same name in module Presence. */
module GatewayStateTable {
  import opened Wrappers
  import opened Presence
  import opened Claims
  import PresenceHistory

  class GatewayState {
    const config: Config
    var devices: map<string, Device>
    var findmeRequests: seq<FindmeRequest>
    var claims: seq<Claim>

    ghost function Model(): State
      reads this
    {
      State(devices, findmeRequests, claims)
    }

    ghost predicate Valid()
      reads this
    {
      PresenceHistory.Sound(config) && PresenceHistory.Consistent(Model()) && |findmeRequests| <= LOG_CAP
    }

    constructor (controlStaleSec: real, attachWindowSec: real, pruneAfterSec: real)
      ensures Valid() && Model() == EMPTY
      ensures config == MakeConfig(controlStaleSec, attachWindowSec, pruneAfterSec)
    {
      config := MakeConfig(controlStaleSec, attachWindowSec, pruneAfterSec);
      devices, findmeRequests, claims := map[], [], [];
    }

    function Known(uid: string): Device
      reads this
    {
      if uid in devices then devices[uid] else UNKNOWN
    }

    method RecordFindmeRequest(uid: string, addr: string, accepted: bool, now: real)
      requires Valid()
      modifies this
      ensures Valid() && Model() == RecordFindme(old(Model()), uid, addr, accepted, now)
    {
      findmeRequests := [FindmeRequest(uid, addr, accepted, now)] + findmeRequests;
      if |findmeRequests| > LOG_CAP {
        findmeRequests := findmeRequests[..LOG_CAP];
      }
      assert findmeRequests == PushLog(old(findmeRequests), FindmeRequest(uid, addr, accepted, now));
      if uid != "" {
        var device := Known(uid);
        devices := devices[uid := device.(lastFindme := Some(now), findmeAccepted := accepted, findmeAddr := addr)];
      }
    }

    /** What a control frame does to the connected flag and to the last-seen time. */
    static method JudgeControl(kind: string, payload: Payload, reportedConnected: bool, gatewayId: string)
      returns (connected: bool, keepConnection: bool, refresh: bool)
      ensures Verdict(kind, reportedConnected, payload, gatewayId) == if keepConnection then None else Some(connected)
      ensures refresh == Refreshes(kind, reportedConnected, payload, gatewayId)
    {
      connected := reportedConnected;
      var switchStarted := kind == "result" && CommandOf(payload) == "findme_switch_gateway";
      keepConnection := switchStarted;
      var attachment: Option<bool> := None;
      if kind == "result" && connected && !switchStarted {
        attachment := ReplyAttachment(payload.findme, gatewayId);
        if attachment.None? {
          keepConnection := true;
        } else {
          connected := attachment.value;
        }
      }
      refresh := kind != "result" || attachment == Some(true);
    }

    method RecordControl(uid: string, kind: string, payload: Payload, reportedConnected: bool, gatewayId: string,
                         now: real, nowMs: int)
      requires Valid()
      modifies this
      ensures Valid()
      ensures Model() ==
          Presence.RecordControl(old(Model()), gatewayId, uid, kind, reportedConnected, payload, now, nowMs)
    {
      if uid == "" { return; }
      var device := Known(uid);
      var connected, keepConnection, refresh := JudgeControl(kind, payload, reportedConnected, gatewayId);
      if refresh {
        device := device.(lastSeen := Some(now));
      }
      if !keepConnection {
        device := device.(connected := connected);
      }
      devices := devices[uid := device];
      if connected && !keepConnection {
        AttachActiveClaim(uid, nowMs);
      }
    }

    method RecordHeartbeat(uid: string, now: real, nowMs: int)
      requires Valid()
      modifies this
      ensures Valid() && Model() == Presence.RecordHeartbeat(old(Model()), uid, now, nowMs)
    {
      if uid == "" { return; }
      devices := devices[uid := Known(uid).(connected := true, lastSeen := Some(now))];
      AttachActiveClaim(uid, nowMs);
    }

    method RecordDisconnect(uid: string)
      requires Valid()
      modifies this
      ensures Valid() && Model() == Presence.RecordDisconnect(old(Model()), uid)
    {
      if uid == "" { return; }
      devices := devices[uid := Known(uid).(connected := false)];
    }

    method RecordUdpPacket(uid: string, forwarded: bool, now: real)
      requires Valid()
      modifies this
      ensures Valid() && Model() == Presence.RecordUdpPacket(old(Model()), uid, forwarded, now)
    {
      if uid == "" { return; }
      var device := Known(uid);
      if forwarded {
        device := device.(lastSeen := Some(now));
      }
      devices := devices[uid := device];
    }

    /** Marks overdue devices disconnected, collecting the ones to forget, then
        deletes those. The order in which devices are visited does not matter. */
    method MarkStaleControl(now: real)
      requires Valid()
      modifies this`devices
      ensures Valid() && Model() == Sweep(config, old(Model()), now)
    {
      var staleUids := MarkDevices(now);
      ghost var marked := devices;
      ghost var all := staleUids;
      while staleUids != {}
        invariant staleUids <= all
        invariant devices == marked - (all - staleUids)
        decreases staleUids
      {
        var uid :| uid in staleUids;
        staleUids := staleUids - {uid};
        devices := devices - {uid};
      }
      assert devices == marked - all;
      assert devices == SweepDevices(config, old(devices), now);
    }

    method MarkDevices(now: real) returns (staleUids: set<string>)
      modifies this`devices
      ensures devices.Keys == old(devices).Keys
      ensures forall u :: u in devices ==> devices[u] == MarkStale(config, old(devices)[u], now)
      ensures forall u :: u in staleUids <==> u in devices && Prunable(config, old(devices)[u], now)
    {
      var unvisited := devices.Keys;
      staleUids := {};
      while unvisited != {}
        invariant unvisited <= devices.Keys == old(devices).Keys
        invariant forall u :: u in staleUids <==>
            u in devices && u !in unvisited && Prunable(config, old(devices)[u], now)
        invariant forall u :: u in devices ==>
          devices[u] == if u in unvisited then old(devices)[u] else MarkStale(config, old(devices)[u], now)
        decreases unvisited
      {
        var uid :| uid in unvisited;
        unvisited := unvisited - {uid};
        var device := devices[uid];
        if device.connected && device.lastSeen.Some? && now - device.lastSeen.value > config.controlStaleSec {
          devices := devices[uid := device.(connected := false)];
        }
        var newest := LastActivity(device);
        if newest.Some? && now - newest.value > config.pruneAfterSec {
          staleUids := staleUids + {uid};
        }
      }
    }

    method IsServing(uid: string, now: real) returns (serving: bool)
      requires Valid()
      modifies this`devices
      ensures Valid() && Model() == Sweep(config, old(Model()), now)
      ensures serving == Presence.IsServing(config, old(Model()), uid, now)
    {
      MarkStaleControl(now);
      serving := Known(uid).connected;
    }

    /** The count is that of the uids for which IsServing holds. */
    method ServingCount(now: real) returns (count: nat)
      requires Valid()
      modifies this`devices
      ensures Valid() && Model() == Sweep(config, old(Model()), now)
      ensures count == |set uid | uid in old(devices) && Presence.IsServing(config, old(Model()), uid, now)|
    {
      MarkStaleControl(now);
      var unvisited := devices.Keys;
      count := 0;
      while unvisited != {}
        invariant unvisited <= devices.Keys
        invariant count == |set uid | uid in devices && uid !in unvisited && devices[uid].connected|
        decreases unvisited
      {
        var uid :| uid in unvisited;
        ghost var counted := set u | u in devices && u !in unvisited && devices[u].connected;
        unvisited := unvisited - {uid};
        if devices[uid].connected {
          assert (set u | u in devices && u !in unvisited && devices[u].connected) == counted + {uid};
          count := count + 1;
        } else {
          assert (set u | u in devices && u !in unvisited && devices[u].connected) == counted;
        }
      }
      assert (set uid | uid in devices && uid !in unvisited && devices[uid].connected)
          == (set uid | uid in old(devices) && Presence.IsServing(config, old(Model()), uid, now));
    }

    method FindmeAllowsStream(uid: string, host: string, now: real) returns (allowed: bool)
      requires Valid()
      ensures allowed == AllowsStream(config, Model(), uid, host, now)
    {
      var device := Known(uid);
      if device.findmeAccepted && device.findmeAddr == host && device.lastFindme.Some?
         && now - device.lastFindme.value <= config.attachWindowSec {
        return true;
      }
      for i := 0 to |findmeRequests|
        invariant LogAllows(config, findmeRequests, uid, host, now) ==
            LogAllows(config, findmeRequests[i..], uid, host, now)
      {
        var request := findmeRequests[i];
        if request.uid != uid { continue; }
        if !request.accepted { continue; }
        if request.addr != host { continue; }
        return now - request.receivedAt <= config.attachWindowSec;
      }
      return false;
    }

    method CreateClaim(id: string, uid: string, ttlMs: int, nowMs: int)
      requires Valid()
      modifies this`claims
      ensures Valid() && claims == Create(old(claims), id, uid, ttlMs, nowMs)
    {
      var ttl := if ttlMs == 0 then 30000 else ttlMs;
      if ttl < 1000 {
        ttl := 1000;
      }
      var claim := Claim(id, uid, CREATED, nowMs + ttl);
      var at := IndexOf(claims, id);
      if at < |claims| {
        claims := claims[at := claim];
      } else {
        claims := claims + [claim];
      }
    }

    /** Returns whether there is such a claim. */
    method UpdateClaim(id: string, state: string) returns (known: bool)
      requires Valid()
      modifies this`claims
      ensures Valid() && claims == Patch(old(claims), id, state)
      ensures known <==> exists c :: c in old(claims) && c.id == id
    {
      var at := IndexOf(claims, id);
      if at == |claims| { return false; }
      claims := claims[at := claims[at].(state := state)];
      return true;
    }

    method FailClaimDelivery(id: string)
      requires Valid()
      modifies this`claims
      ensures Valid() && claims == Fail(old(claims), id)
    {
      var at := IndexOf(claims, id);
      if at == |claims| || claims[at].state == ATTACHED { return; }
      claims := claims[at := claims[at].(state := FAILED)];
    }

    /** Finds the first live claim, timing out the overdue ones passed on the way. */
    method ActiveClaim(uid: string, nowMs: int) returns (found: nat)
      requires Valid()
      modifies this`claims
      ensures Valid() && claims == Lookup(old(claims), uid, nowMs)
      ensures found == ActiveIndex(old(claims), uid, nowMs)
    {
      found := 0;
      while found < |claims|
        invariant found <= |claims| == |old(claims)|
        invariant forall k :: 0 <= k < |claims| ==>
          claims[k] == if k < found then MarkExpired(old(claims)[k], uid, nowMs) else old(claims)[k]
        invariant ActiveIndex(old(claims), uid, nowMs) == found + ActiveIndex(old(claims)[found..], uid, nowMs)
      {
        var claim := claims[found];
        assert old(claims)[found..][1..] == old(claims)[found + 1..];
        if claim.uid == uid {
          if claim.expiresAtMs <= nowMs {
            if claim.state != ATTACHED && claim.state != TIMEOUT && claim.state != FAILED {
              claims := claims[found := claim.(state := TIMEOUT)];
            }
          } else if claim.state != FAILED && claim.state != TIMEOUT {
            return;
          }
        }
        found := found + 1;
      }
    }

    method AttachActiveClaim(uid: string, nowMs: int)
      requires Valid() && uid in devices
      modifies this
      ensures Valid() && Model() == AttachClaim(old(Model()), uid, old(devices)[uid], nowMs)
    {
      var at := ActiveClaim(uid, nowMs);
      if at < |claims| {
        claims := claims[at := claims[at].(state := ATTACHED)];
        devices := devices[uid := devices[uid].(claimId := claims[at].id)];
      }
      assert devices == AttachClaim(old(Model()), uid, old(devices)[uid], nowMs).devices;
    }

    method PendingClaims(nowMs: int) returns (result: seq<Claim>)
      ensures result == Pending(claims, nowMs)
    {
      result := [];
      for i := 0 to |claims|
        invariant result + Pending(claims[i..], nowMs) == Pending(claims, nowMs)
      {
        var claim := claims[i];
        assert claims[i..][1..] == claims[i + 1..];
        if claim.expiresAtMs <= nowMs { continue; }
        if claim.state == ATTACHED || claim.state == FAILED || claim.state == TIMEOUT { continue; }
        result := result + [claim];
      }
    }
  }
}
