/** The life of a claim over whole runs of a gateway. */
module ClaimHistory {
  import opened Claims
  import opened Presence

  /** Claim ids are random UUIDs: a new one is not in the table yet. */
  ghost predicate FreshId(claims: seq<Claim>, call: Call) {
    call.event.CreateClaim? ==> IndexOf(claims, call.event.newId) == |claims|
  }

  /** The call patches the claim with this id: the server's answer, or the gateway's own note
      that it has sent or requested the switch. */
  predicate Names(call: Call, id: string) {
    call.event.PatchClaim? && call.event.patchId == id
  }

  /** How one call that does not patch it may move a claim. */
  ghost predicate Moves(g: string, before: Claim, after: Claim, call: Call) {
    && after == before.(state := after.state)
    && (before.state == ATTACHED ==> after.state == ATTACHED)
    && (Dead(before.state) ==> after.state != ATTACHED && Dead(after.state))
    && (before.state != ATTACHED && after.state == ATTACHED ==> EarnedBy(g, before, call))
  }

  /** The call is an attachment of the claim's own device, made before it expired. */
  ghost predicate EarnedBy(g: string, claim: Claim, call: Call) {
    Attaches(g, call, claim.uid) && call.ms < claim.expiresAtMs
  }

  lemma CallMovesClaims(c: Config, g: string, s: State, call: Call)
    requires FreshId(s.claims, call)
    ensures var after := Apply(c, g, s, call).claims;
            && |s.claims| <= |after|
            && forall i :: 0 <= i < |s.claims| && !Names(call, s.claims[i].id) ==> Moves(g, s.claims[i], after[i], call)
  {
    ApplyClaims(c, g, s, call);
    forall i | 0 <= i < |s.claims| && !Names(call, s.claims[i].id)
      ensures Moves(g, s.claims[i], ClaimsAfter(g, s.claims, call)[i], call)
    {
      ClaimMoves(g, s.claims, call, i);
    }
  }

  lemma ClaimMoves(g: string, claims: seq<Claim>, call: Call, i: nat)
    requires FreshId(claims, call) && i < |claims| && !Names(call, claims[i].id)
    ensures Moves(g, claims[i], ClaimsAfter(g, claims, call)[i], call)
  {
    match call.event
    case CreateClaim(_, _) =>
    case LookupClaim =>
    case FailClaim(_) =>
    case PatchClaim(_, _) =>
    case _ =>
  }

  /** A patch sets the state of the first claim with its id, and moves no other. */
  lemma PatchSets(c: Config, g: string, s: State, call: Call, i: nat)
    requires i < |s.claims| && IndexOf(s.claims, s.claims[i].id) == i && Names(call, s.claims[i].id)
    ensures Apply(c, g, s, call).claims == s.claims[i := s.claims[i].(state := call.event.state)]
  {}

  /** And it is earned: an attachment attaches the device's first live claim, and tags the
      device with its id. */
  lemma AttachmentEarns(c: Config, g: string, s: State, call: Call, i: nat)
    requires i < |s.claims| && FirstLive(s.claims, i, call.ms) && Attaches(g, call, s.claims[i].uid)
    ensures var s' := Apply(c, g, s, call);
            && i < |s'.claims| && s'.claims[i] == s.claims[i].(state := "attached")
            && DeviceOf(s', call.uid).claimId == s.claims[i].id
  {
    EarnedClaimAttaches(s.claims, i, call.ms);
  }

  /** No switch command's own reply ever earns a claim. */
  lemma SwitchReplyEarnsNothing(g: string, claim: Claim, call: Call)
    requires call.event.Control? && SwitchStarted(call.event.kind, call.event.payload)
    ensures !EarnedBy(g, claim, call)
  {}

  ghost predicate FreshIds(c: Config, g: string, s: State, calls: seq<Call>) {
    forall k :: 0 <= k < |calls| ==> FreshId(Run(c, g, s, calls[..k]).claims, calls[k])
  }

  lemma FreshBefore(c: Config, g: string, s: State, calls: seq<Call>, n: nat)
    requires FreshIds(c, g, s, calls) && n <= |calls|
    ensures FreshIds(c, g, s, calls[..n])
  {
    forall k | 0 <= k < n
      ensures FreshId(Run(c, g, s, calls[..n][..k]).claims, calls[..n][k])
    {
      assert calls[..n][..k] == calls[..k];
    }
  }

  /** A claim keeps its place, its id, its device and its expiry, whatever happens. */
  lemma {:induction false} ClaimsKeepTheirPlace(c: Config, g: string, s: State, calls: seq<Call>, i: nat)
    requires FreshIds(c, g, s, calls) && i < |s.claims| && IndexOf(s.claims, s.claims[i].id) == i
    ensures var after := Run(c, g, s, calls).claims;
            && i < |after| && after[i] == s.claims[i].(state := after[i].state)
            && IndexOf(after, after[i].id) == i
  {
    if calls != [] {
      var n := |calls| - 1;
      FreshBefore(c, g, s, calls, n);
      ClaimsKeepTheirPlace(c, g, s, calls[..n], i);
      ApplyClaims(c, g, Run(c, g, s, calls[..n]), calls[n]);
      PlaceKept(g, Run(c, g, s, calls[..n]).claims, calls[n], i);
    }
  }

  lemma OnlyStatesChange(g: string, claims: seq<Claim>, call: Call, k: nat)
    requires FreshId(claims, call) && k < |claims|
    ensures |claims| <= |ClaimsAfter(g, claims, call)|
    ensures ClaimsAfter(g, claims, call)[k] == claims[k].(state := ClaimsAfter(g, claims, call)[k].state)
  {
    match call.event
    case CreateClaim(_, _) =>
    case LookupClaim =>
    case FailClaim(_) =>
    case PatchClaim(_, _) =>
    case _ =>
  }

  lemma PlaceKept(g: string, claims: seq<Claim>, call: Call, i: nat)
    requires FreshId(claims, call) && i < |claims| && IndexOf(claims, claims[i].id) == i
    ensures var after := ClaimsAfter(g, claims, call);
            i < |after| && after[i] == claims[i].(state := after[i].state) && IndexOf(after, after[i].id) == i
  {
    OnlyStatesChange(g, claims, call, i);
    forall k: nat | k < i
      ensures ClaimsAfter(g, claims, call)[k].id != claims[i].id
    {
      OnlyStatesChange(g, claims, call, k);
    }
  }

  /** Main result, for a claim that no patch names: attached is final, failed and timed out
      never attach, and a claim that does attach earned it from its own device while
      unexpired. */
  lemma {:induction false} ClaimLifecycle(c: Config, g: string, s: State, calls: seq<Call>, i: nat)
    requires FreshIds(c, g, s, calls) && i < |s.claims|
    requires forall k :: 0 <= k < |calls| ==> !Names(calls[k], s.claims[i].id)
    ensures i < |Run(c, g, s, calls).claims|
    ensures var before, after := s.claims[i], Run(c, g, s, calls).claims[i];
            && after == before.(state := after.state)
            && (before.state == ATTACHED ==> after.state == ATTACHED)
            && (Dead(before.state) ==> Dead(after.state))
            && (before.state != ATTACHED && after.state == ATTACHED ==>
                  exists k :: 0 <= k < |calls| && EarnedBy(g, before, calls[k]))
  {
    if calls != [] {
      var n := |calls| - 1;
      FreshBefore(c, g, s, calls, n);
      ClaimLifecycle(c, g, s, calls[..n], i);
      var mid := Run(c, g, s, calls[..n]);
      CallMovesClaims(c, g, mid, calls[n]);
      assert Moves(g, mid.claims[i], Run(c, g, s, calls).claims[i], calls[n]);
      if mid.claims[i].state == ATTACHED && s.claims[i].state != ATTACHED {
        var k :| 0 <= k < n && EarnedBy(g, s.claims[i], calls[..n][k]);
        assert EarnedBy(g, s.claims[i], calls[k]);
      }
    }
  }

  /** Main result, the gateway's own patches included: as long as no patch says attached, a
      claim that ends up attached earned it. */
  lemma {:induction false} AttachedWasEarned(c: Config, g: string, s: State, calls: seq<Call>, i: nat)
    requires FreshIds(c, g, s, calls) && i < |s.claims| && IndexOf(s.claims, s.claims[i].id) == i
    requires forall k :: 0 <= k < |calls| && Names(calls[k], s.claims[i].id) ==> calls[k].event.state != ATTACHED
    requires s.claims[i].state != ATTACHED
    ensures i < |Run(c, g, s, calls).claims|
    ensures Run(c, g, s, calls).claims[i].state == ATTACHED ==>
              exists k :: 0 <= k < |calls| && EarnedBy(g, s.claims[i], calls[k])
  {
    ClaimsKeepTheirPlace(c, g, s, calls, i);
    if calls != [] && Run(c, g, s, calls).claims[i].state == ATTACHED {
      var n := |calls| - 1;
      var mid := Run(c, g, s, calls[..n]);
      FreshBefore(c, g, s, calls, n);
      ClaimsKeepTheirPlace(c, g, s, calls[..n], i);
      if mid.claims[i].state == ATTACHED {
        AttachedWasEarned(c, g, s, calls[..n], i);
        var k :| 0 <= k < n && EarnedBy(g, s.claims[i], calls[..n][k]);
        assert EarnedBy(g, s.claims[i], calls[k]);
      } else if Names(calls[n], s.claims[i].id) {
        PatchSets(c, g, mid, calls[n], i);
      } else {
        CallMovesClaims(c, g, mid, calls[n]);
        assert Moves(g, mid.claims[i], Run(c, g, s, calls).claims[i], calls[n]);
      }
    }
  }

  /** The call patches the claim to a state that is not settled, as the gateway's own do. */
  predicate Reopens(call: Call, id: string) {
    Names(call, id) && !Settled(call.event.state)
  }

  lemma {:induction false} StaysSettled(c: Config, g: string, s: State, calls: seq<Call>, i: nat)
    requires FreshIds(c, g, s, calls) && i < |s.claims| && IndexOf(s.claims, s.claims[i].id) == i
    requires Settled(s.claims[i].state) && forall k :: 0 <= k < |calls| ==> !Reopens(calls[k], s.claims[i].id)
    ensures i < |Run(c, g, s, calls).claims| && Settled(Run(c, g, s, calls).claims[i].state)
  {
    if calls != [] {
      var n := |calls| - 1;
      var mid := Run(c, g, s, calls[..n]);
      FreshBefore(c, g, s, calls, n);
      ClaimsKeepTheirPlace(c, g, s, calls[..n], i);
      StaysSettled(c, g, s, calls[..n], i);
      if Names(calls[n], s.claims[i].id) {
        PatchSets(c, g, mid, calls[n], i);
      } else {
        CallMovesClaims(c, g, mid, calls[n]);
        assert Moves(g, mid.claims[i], Run(c, g, s, calls).claims[i], calls[n]);
      }
    }
  }

  /** The claim is not settled after the first n calls. */
  ghost predicate OpenAfter(c: Config, g: string, s: State, calls: seq<Call>, i: nat, n: int) {
    && 0 <= n <= |calls| && i < |Run(c, g, s, calls[..n]).claims|
    && !Settled(Run(c, g, s, calls[..n]).claims[i].state)
  }

  /** Main result: over every run, patches of any kind included, a settled claim is undone
      if and only if a patch to a state that is not settled lands on it. */
  lemma UndoneExactly(c: Config, g: string, s: State, calls: seq<Call>, i: nat)
    requires FreshIds(c, g, s, calls) && i < |s.claims| && IndexOf(s.claims, s.claims[i].id) == i
    requires Settled(s.claims[i].state)
    ensures (exists n :: OpenAfter(c, g, s, calls, i, n))
        <==> exists k :: 0 <= k < |calls| && Reopens(calls[k], s.claims[i].id)
  {
    if k :| 0 <= k < |calls| && Reopens(calls[k], s.claims[i].id) {
      FreshBefore(c, g, s, calls, k);
      ClaimsKeepTheirPlace(c, g, s, calls[..k], i);
      PatchSets(c, g, Run(c, g, s, calls[..k]), calls[k], i);
      assert calls[..k + 1][..k] == calls[..k];
      assert OpenAfter(c, g, s, calls, i, k + 1);
    } else {
      forall n
        ensures !OpenAfter(c, g, s, calls, i, n)
      {
        if 0 <= n <= |calls| {
          FreshBefore(c, g, s, calls, n);
          StaysSettled(c, g, s, calls[..n], i);
        }
      }
    }
  }

  lemma RunSnoc(c: Config, g: string, s: State, calls: seq<Call>, call: Call)
    ensures Run(c, g, s, calls + [call]) == Apply(c, g, Run(c, g, s, calls), call)
  {
    assert (calls + [call])[..|calls|] == calls;
  }

  /** The four calls of a switch that is asked for while the device's heartbeat comes in. */
  function RacedSwitch(uid: string): seq<Call> {
    [Call(uid, 0.0, 0, CreateClaim("c1", 30000))] + [Call(uid, 0.0, 0, PatchClaim("c1", "sent"))]
    + [Call(uid, 0.0, 0, Heartbeat)] + [Call(uid, 0.0, 0, PatchClaim("c1", "requested"))]
  }

  /** It does happen: a heartbeat between the gateway's own two patches attaches the claim, and
      the second patch takes that back. */
  lemma OwnPatchUndoes(c: Config, g: string, uid: string)
    requires uid != ""
    ensures Run(c, g, EMPTY, RacedSwitch(uid)[..3]).claims == [Claim("c1", uid, ATTACHED, 30000)]
    ensures Run(c, g, EMPTY, RacedSwitch(uid)).claims == [Claim("c1", uid, "requested", 30000)]
  {
    var calls := RacedSwitch(uid);
    var three := [calls[0]] + [calls[1]] + [calls[2]];
    RunSnoc(c, g, EMPTY, [], calls[0]);
    assert [] + [calls[0]] == [calls[0]];
    assert Run(c, g, EMPTY, [calls[0]]).claims == [Claim("c1", uid, CREATED, 30000)];
    RunSnoc(c, g, EMPTY, [calls[0]], calls[1]);
    assert Run(c, g, EMPTY, [calls[0]] + [calls[1]]).claims == [Claim("c1", uid, "sent", 30000)];
    RunSnoc(c, g, EMPTY, [calls[0]] + [calls[1]], calls[2]);
    assert Run(c, g, EMPTY, three).claims == [Claim("c1", uid, ATTACHED, 30000)];
    RunSnoc(c, g, EMPTY, three, calls[3]);
    assert calls[..3] == three && calls == three + [calls[3]];
  }

  /** What a call does to the claims does not depend on the devices. */
  function ClaimsAfter(g: string, claims: seq<Claim>, call: Call): seq<Claim> {
    match call.event
    case CreateClaim(id, ttl) => Create(claims, id, call.uid, ttl, call.ms)
    case LookupClaim => Lookup(claims, call.uid, call.ms)
    case FailClaim(id) => Fail(claims, id)
    case PatchClaim(id, state) => Patch(claims, id, state)
    case _ => if Attaches(g, call, call.uid) then Attach(claims, call.uid, call.ms) else claims
  }

  lemma ApplyClaims(c: Config, g: string, s: State, call: Call)
    ensures Apply(c, g, s, call).claims == ClaimsAfter(g, s.claims, call)
  {}

  lemma ClaimsAfterKeepsMarks(g: string, a: seq<Claim>, b: seq<Claim>, t: int, call: Call)
    requires SameButMarked(a, b, t) && t <= call.ms
    ensures SameButMarked(ClaimsAfter(g, a, call), ClaimsAfter(g, b, call), call.ms)
  {
    MarksLast(a, b, t, call.ms);
    match call.event {
      case CreateClaim(id, ttl) => IdStepsKeepMarks(a, b, call.ms, id, call.uid, ttl, call.ms, "");
      case FailClaim(id) => IdStepsKeepMarks(a, b, call.ms, id, call.uid, 0, call.ms, "");
      case PatchClaim(id, state) => IdStepsKeepMarks(a, b, call.ms, id, call.uid, 0, call.ms, state);
      case _ => LookupKeepsMarks(a, b, call.ms, call.uid, call.ms);
    }
  }

  /** The wall clock that claims expire by does not step back. */
  ghost predicate WallClockOrdered(calls: seq<Call>) {
    forall i, j :: 0 <= i <= j < |calls| ==> calls[i].ms <= calls[j].ms
  }

  lemma MarksLast(a: seq<Claim>, b: seq<Claim>, t: int, nowMs: int)
    requires t <= nowMs
    ensures SameButMarked(a, b, t) ==> SameButMarked(a, b, nowMs)
  {
    if SameButMarked(a, b, t) {
      forall i | 0 <= i < |a|
        ensures SameOrMarked(a[i], b[i], nowMs)
      {
        assert SameOrMarked(a[i], b[i], t);
      }
    }
  }

  lemma {:induction false} RunKeepsMarks(c: Config, g: string, a: State, b: State, t: int, calls: seq<Call>, nowMs: int)
    requires SameButMarked(a.claims, b.claims, t) && t <= nowMs && WallClockOrdered(calls)
    requires forall k :: 0 <= k < |calls| ==> t <= calls[k].ms <= nowMs
    ensures SameButMarked(Run(c, g, a, calls).claims, Run(c, g, b, calls).claims, nowMs)
  {
    if calls == [] {
      MarksLast(a.claims, b.claims, t, nowMs);
    } else {
      var n := |calls| - 1;
      var last := calls[n];
      RunKeepsMarks(c, g, a, b, t, calls[..n], last.ms);
      var a', b' := Run(c, g, a, calls[..n]), Run(c, g, b, calls[..n]);
      ApplyClaims(c, g, a', last);
      ApplyClaims(c, g, b', last);
      ClaimsAfterKeepsMarks(g, a'.claims, b'.claims, last.ms, last);
      MarksLast(Run(c, g, a, calls).claims, Run(c, g, b, calls).claims, last.ms, nowMs);
    }
  }

  /** Main result: an extra claim lookup, which times out overdue claims on the
      way, changes neither the pending nor the active claims reported at any later
      time, whatever happens in between (server patches included). */
  lemma LookupIsInvisible(c: Config, g: string, s: State, uid: string, ms: int, calls: seq<Call>, other: string,
                          nowMs: int)
    requires WallClockOrdered(calls) && ms <= nowMs
    requires forall k :: 0 <= k < |calls| ==> ms <= calls[k].ms <= nowMs
    ensures var plain := Run(c, g, s, calls).claims;
            var looked := Run(c, g, s.(claims := Lookup(s.claims, uid, ms)), calls).claims;
            && Pending(plain, nowMs) == Pending(looked, nowMs)
            && ActiveIndex(plain, other, nowMs) == ActiveIndex(looked, other, nowMs)
  {
    var s' := s.(claims := Lookup(s.claims, uid, ms));
    LookupOnlyMarks(s.claims, uid, ms);
    RunKeepsMarks(c, g, s, s', ms, calls, nowMs);
    PendingIgnoresMarks(Run(c, g, s, calls).claims, Run(c, g, s', calls).claims, nowMs, nowMs);
    ActiveIgnoresMarks(Run(c, g, s, calls).claims, Run(c, g, s', calls).claims, nowMs, other, nowMs);
  }
}
