/** FindMe claims: a gateway's requests that a device switch to it.
    The table is a Python dict, so it keeps insertion order; the order matters
    because only the first live claim of a device is ever attached. */
module Claims {
  const CREATED := "created"
  const ATTACHED := "attached"
  const FAILED := "failed"
  const TIMEOUT := "timeout"

  datatype Claim = Claim(id: string, uid: string, state: string, expiresAtMs: int)

  predicate Settled(state: string) {
    state == ATTACHED || state == FAILED || state == TIMEOUT
  }

  predicate Dead(state: string) {
    state == FAILED || state == TIMEOUT
  }

  /** What a lookup calls the active claim of `uid`. An attached claim counts. */
  predicate IsActive(c: Claim, uid: string, nowMs: int) {
    c.uid == uid && c.expiresAtMs > nowMs && !Dead(c.state)
  }

  function MarkExpired(c: Claim, uid: string, nowMs: int): Claim {
    if c.uid == uid && c.expiresAtMs <= nowMs && !Settled(c.state) then c.(state := TIMEOUT) else c
  }

  /** Index of the first active claim, or |claims| when there is none. */
  function ActiveIndex(claims: seq<Claim>, uid: string, nowMs: int): (i: nat)
    ensures i <= |claims|
    ensures forall k :: 0 <= k < i ==> !IsActive(claims[k], uid, nowMs)
    ensures i < |claims| ==> IsActive(claims[i], uid, nowMs)
  {
    if claims == [] || IsActive(claims[0], uid, nowMs) then 0
    else 1 + ActiveIndex(claims[1..], uid, nowMs)
  }

  /** The table after a lookup: every overdue claim passed on the way is timed out. */
  function Lookup(claims: seq<Claim>, uid: string, nowMs: int): seq<Claim> {
    var stop := ActiveIndex(claims, uid, nowMs);
    seq(|claims|, i requires 0 <= i < |claims| => if i < stop then MarkExpired(claims[i], uid, nowMs) else claims[i])
  }

  function Attach(claims: seq<Claim>, uid: string, nowMs: int): seq<Claim> {
    var looked := Lookup(claims, uid, nowMs);
    var at := ActiveIndex(claims, uid, nowMs);
    if at < |claims| then looked[at := looked[at].(state := ATTACHED)] else looked
  }

  /** Index of the claim with this id, or |claims|. */
  function IndexOf(claims: seq<Claim>, id: string): (i: nat)
    ensures i <= |claims|
    ensures forall k :: 0 <= k < i ==> claims[k].id != id
    ensures i < |claims| ==> claims[i].id == id
  {
    if claims == [] || claims[0].id == id then 0 else 1 + IndexOf(claims[1..], id)
  }

  function Max(a: int, b: int): int { if a >= b then a else b }

  function Create(claims: seq<Claim>, id: string, uid: string, ttlMs: int, nowMs: int): seq<Claim> {
    var ttl := Max(1000, if ttlMs == 0 then 30000 else ttlMs);
    var c := Claim(id, uid, CREATED, nowMs + ttl);
    var at := IndexOf(claims, id);
    if at < |claims| then claims[at := c] else claims + [c]
  }

  function Fail(claims: seq<Claim>, id: string): seq<Claim> {
    var at := IndexOf(claims, id);
    if at < |claims| && claims[at].state != ATTACHED then claims[at := claims[at].(state := FAILED)] else claims
  }

  /** The server may patch a claim to any state at all; the gateway itself notes "sent" and
      "requested" while it asks for a switch. */
  function Patch(claims: seq<Claim>, id: string, state: string): seq<Claim> {
    var at := IndexOf(claims, id);
    if at < |claims| then claims[at := claims[at].(state := state)] else claims
  }

  predicate IsPending(c: Claim, nowMs: int) {
    c.expiresAtMs > nowMs && !Settled(c.state)
  }

  function Pending(claims: seq<Claim>, nowMs: int): seq<Claim> {
    if claims == [] then []
    else (if IsPending(claims[0], nowMs) then [claims[0]] else []) + Pending(claims[1..], nowMs)
  }

  /** A new claim is pending, last of all, until exactly its time to live has passed. */
  lemma {:induction false} CreatedIsPending(claims: seq<Claim>, id: string, uid: string, ttlMs: int, nowMs: int,
                                        later: int)
    requires IndexOf(claims, id) == |claims|
    ensures var life := if ttlMs == 0 then 30000 else if ttlMs < 1000 then 1000 else ttlMs;
            Pending(Create(claims, id, uid, ttlMs, nowMs), later)
            == Pending(claims, later) + if later - nowMs < life then [Claim(id, uid, CREATED, nowMs + life)] else []
  {
    var after := Create(claims, id, uid, ttlMs, nowMs);
    if claims != [] {
      assert after[1..] == Create(claims[1..], id, uid, ttlMs, nowMs);
      CreatedIsPending(claims[1..], id, uid, ttlMs, nowMs, later);
    }
  }

  // ---------------------------------------------------------------------
  // What a lookup, an attachment and a failure do

  /** Each of the first n claims of the device has expired, failed or timed out. */
  ghost predicate NoneLive(claims: seq<Claim>, uid: string, n: nat, nowMs: int)
    requires n <= |claims|
  {
    forall k :: 0 <= k < n && claims[k].uid == uid ==>
      claims[k].expiresAtMs <= nowMs || claims[k].state == "failed" || claims[k].state == "timeout"
  }

  /** Claim i is the first of its device that has not. */
  ghost predicate FirstLive(claims: seq<Claim>, i: nat, nowMs: int) {
    && i < |claims| && nowMs < claims[i].expiresAtMs
    && claims[i].state != "failed" && claims[i].state != "timeout"
    && NoneLive(claims, claims[i].uid, i, nowMs)
  }

  /** An attachment attaches the first live claim, and only that. */
  lemma EarnedClaimAttaches(claims: seq<Claim>, i: nat, nowMs: int)
    requires FirstLive(claims, i, nowMs)
    ensures ActiveIndex(claims, claims[i].uid, nowMs) == i
    ensures var after := Attach(claims, claims[i].uid, nowMs);
            && |after| == |claims| && after[i] == claims[i].(state := "attached")
            && forall k :: 0 <= k < |claims| && k != i ==>
                 after[k] == claims[k] || (claims[k].expiresAtMs <= nowMs && after[k] == claims[k].(state := "timeout"))
  {
    assert IsActive(claims[i], claims[i].uid, nowMs);
    assert forall k :: 0 <= k < i ==> !IsActive(claims[k], claims[i].uid, nowMs);
  }

  /** A lookup writes off each overdue claim of the device, settled ones aside, that has no
      live one before it; and with no live claim at all an attachment attaches none. */
  lemma LookupTimesOut(claims: seq<Claim>, uid: string, nowMs: int, k: nat)
    requires k < |claims| && NoneLive(claims, uid, k, nowMs)
    requires claims[k].uid == uid && claims[k].expiresAtMs <= nowMs
    requires claims[k].state != "attached" && claims[k].state != "failed"
    ensures Lookup(claims, uid, nowMs)[k] == claims[k].(state := "timeout")
    ensures NoneLive(claims, uid, |claims|, nowMs) ==> Attach(claims, uid, nowMs) == Lookup(claims, uid, nowMs)
  {}

  /** A delivery failure fails the claim, unless it has attached, and no other. */
  lemma FailureFails(claims: seq<Claim>, i: nat)
    requires i < |claims| && forall k :: 0 <= k < i ==> claims[k].id != claims[i].id
    ensures var after := Fail(claims, claims[i].id);
            && |after| == |claims| && (forall k :: 0 <= k < |claims| && k != i ==> after[k] == claims[k])
            && after[i] == if claims[i].state == "attached" then claims[i] else claims[i].(state := "failed")
  {
    assert IndexOf(claims, claims[i].id) == i;
  }

  lemma {:induction false} PendingJoins(a: seq<Claim>, b: seq<Claim>, nowMs: int)
    ensures Pending(a + b, nowMs) == Pending(a, nowMs) + Pending(b, nowMs)
  {
    if a == [] {
      assert a + b == b;
    } else {
      assert (a + b)[1..] == a[1..] + b;
      PendingJoins(a[1..], b, nowMs);
    }
  }

  /** The pending claims are those that neither expired nor attached, failed or timed out. */
  lemma {:induction false} PendingExactly(claims: seq<Claim>, c: Claim, nowMs: int)
    ensures c in Pending(claims, nowMs)
        <==> c in claims && nowMs < c.expiresAtMs
             && c.state != "attached" && c.state != "failed" && c.state != "timeout"
  {
    if claims != [] {
      PendingExactly(claims[1..], c, nowMs);
      assert claims == [claims[0]] + claims[1..];
    }
  }

  // ---------------------------------------------------------------------
  // Lazy marking is invisible

  /** The two tables differ at most in overdue claims that one of them has
      already written off and the other has not got round to. */
  ghost predicate SameButMarked(a: seq<Claim>, b: seq<Claim>, nowMs: int) {
    && |a| == |b|
    && forall i :: 0 <= i < |a| ==> SameOrMarked(a[i], b[i], nowMs)
  }

  predicate SameOrMarked(a: Claim, b: Claim, nowMs: int) {
    || a == b
    || (b == a.(state := TIMEOUT) && a.expiresAtMs <= nowMs && !Settled(a.state))
  }

  lemma {:induction false} PendingIgnoresMarks(a: seq<Claim>, b: seq<Claim>, t: int, nowMs: int)
    requires SameButMarked(a, b, t) && t <= nowMs
    ensures Pending(a, nowMs) == Pending(b, nowMs)
  {
    if a != [] {
      assert SameOrMarked(a[0], b[0], t);
      assert SameButMarked(a[1..], b[1..], t);
      PendingIgnoresMarks(a[1..], b[1..], t, nowMs);
    }
  }

  lemma ActiveIgnoresMarks(a: seq<Claim>, b: seq<Claim>, t: int, uid: string, nowMs: int)
    requires SameButMarked(a, b, t) && t <= nowMs
    ensures ActiveIndex(a, uid, nowMs) == ActiveIndex(b, uid, nowMs)
  {}

  lemma IndexIgnoresMarks(a: seq<Claim>, b: seq<Claim>, t: int, id: string)
    requires SameButMarked(a, b, t)
    ensures IndexOf(a, id) == IndexOf(b, id)
  {}

  lemma LookupOnlyMarks(a: seq<Claim>, uid: string, nowMs: int)
    ensures SameButMarked(a, Lookup(a, uid, nowMs), nowMs)
  {}

  lemma LookupKeepsMarks(a: seq<Claim>, b: seq<Claim>, t: int, uid: string, nowMs: int)
    requires SameButMarked(a, b, t) && t <= nowMs
    ensures SameButMarked(Lookup(a, uid, nowMs), Lookup(b, uid, nowMs), nowMs)
    ensures SameButMarked(Attach(a, uid, nowMs), Attach(b, uid, nowMs), nowMs)
  {}

  lemma IdStepsKeepMarks(a: seq<Claim>, b: seq<Claim>, t: int, id: string, uid: string, ttlMs: int, nowMs: int,
                         state: string)
    requires SameButMarked(a, b, t)
    ensures SameButMarked(Create(a, id, uid, ttlMs, nowMs), Create(b, id, uid, ttlMs, nowMs), t)
    ensures SameButMarked(Fail(a, id), Fail(b, id), t)
    ensures SameButMarked(Patch(a, id, state), Patch(b, id, state), t)
  {
    IndexIgnoresMarks(a, b, t, id);
    var at := IndexOf(a, id);
    if at < |a| {
      assert SameOrMarked(a[at], b[at], t);
    }
  }
}
