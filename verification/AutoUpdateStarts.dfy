/** Automatic starts, characterised by the polls and the earlier starts alone. */
module AutoUpdateStarts {
  import opened Wrappers
  import opened AutoUpdate

  ghost predicate NoStartBefore(c: Config, startedAt: real, polls: seq<Poll>, k: int) {
    forall s :: 0 <= s < k ==> !StartsAt(c, startedAt, polls, s)
  }

  /** Poll s is the latest start before poll k. */
  ghost predicate LatestStart(c: Config, startedAt: real, polls: seq<Poll>, k: int, s: int) {
    0 <= s < k && StartsAt(c, startedAt, polls, s) && forall i :: s < i < k ==> !StartsAt(c, startedAt, polls, i)
  }

  /** Poll r is the first after poll s with no update running: the first that can tell that
      the attempt did not restart the gateway. */
  ghost predicate FirstFree(polls: seq<Poll>, s: int, r: int) {
    0 <= s < r < |polls| && !polls[r].busy && forall i :: s < i < r ==> polls[i].busy
  }

  /** The block after an attempt lasts retry_sec from the first poll that found it over. */
  ghost predicate Unblocked(c: Config, startedAt: real, polls: seq<Poll>, k: int)
    requires 0 <= k < |polls|
  {
    && (NoStartBefore(c, startedAt, polls, k) ==> polls[k].time >= 0.0)
    && forall s, r :: LatestStart(c, startedAt, polls, k, s) && FirstFree(polls, s, r) && r <= k ==>
         polls[k].time >= polls[r].time + c.retrySec
  }

  /** Poll k finds a required update and an idle gateway, past the boot grace and any block. */
  ghost predicate Ready(c: Config, startedAt: real, polls: seq<Poll>, k: int) {
    && 0 <= k < |polls| && !polls[k].busy && polls[k].required && polls[k].idle
    && polls[k].time - startedAt >= c.bootGraceSec && Unblocked(c, startedAt, polls, k)
  }

  /** The gateway was ready at poll m, and from there to poll k no update started, and every
      poll with no update running saw a required update and no served device. */
  ghost predicate ReadySince(c: Config, startedAt: real, polls: seq<Poll>, m: int, k: int) {
    && 0 <= m < k <= |polls| && Ready(c, startedAt, polls, m)
    && forall i :: m <= i < k ==>
         !StartsAt(c, startedAt, polls, i) && (!polls[i].busy ==> polls[i].required && polls[i].idle)
  }

  // ---------------------------------------------------------------------

  lemma StartsBefore(c: Config, startedAt: real, polls: seq<Poll>, n: nat, k: int)
    requires k < n <= |polls|
    ensures StartsAt(c, startedAt, polls[..n], k) <==> StartsAt(c, startedAt, polls, k)
  {
    if 0 <= k {
      assert polls[..n][..k] == polls[..k];
    }
  }

  lemma LatestBefore(c: Config, startedAt: real, polls: seq<Poll>, n: nat, k: int, s: int)
    requires k <= n <= |polls|
    ensures LatestStart(c, startedAt, polls[..n], k, s) <==> LatestStart(c, startedAt, polls, k, s)
    ensures NoStartBefore(c, startedAt, polls[..n], k) <==> NoStartBefore(c, startedAt, polls, k)
  {
    forall i | i < k
      ensures StartsAt(c, startedAt, polls[..n], i) <==> StartsAt(c, startedAt, polls, i)
    {
      StartsBefore(c, startedAt, polls, n, i);
    }
  }

  lemma UnblockedBefore(c: Config, startedAt: real, polls: seq<Poll>, n: nat, m: nat)
    requires m < n <= |polls|
    ensures Unblocked(c, startedAt, polls[..n], m) <==> Unblocked(c, startedAt, polls, m)
  {
    var front := polls[..n];
    LatestBefore(c, startedAt, polls, n, m, 0);
    forall s, r | r <= m
      ensures LatestStart(c, startedAt, front, m, s) <==> LatestStart(c, startedAt, polls, m, s)
      ensures FirstFree(front, s, r) <==> FirstFree(polls, s, r)
    {
      LatestBefore(c, startedAt, polls, n, m, s);
    }
  }

  lemma ReadyBefore(c: Config, startedAt: real, polls: seq<Poll>, n: nat, m: int, k: int)
    requires m < n <= |polls| && k <= n
    ensures Ready(c, startedAt, polls[..n], m) <==> Ready(c, startedAt, polls, m)
    ensures ReadySince(c, startedAt, polls[..n], m, k) <==> ReadySince(c, startedAt, polls, m, k)
  {
    if 0 <= m {
      UnblockedBefore(c, startedAt, polls, n, m);
    }
    forall i | i < k
      ensures StartsAt(c, startedAt, polls[..n], i) <==> StartsAt(c, startedAt, polls, i)
    {
      StartsBefore(c, startedAt, polls, n, i);
    }
  }

  // ---------------------------------------------------------------------
  // The block, by its cause

  ghost predicate BlockIs(c: Config, startedAt: real, polls: seq<Poll>, t: Timer) {
    && (NoStartBefore(c, startedAt, polls, |polls|) ==> !t.attempted && t.blockedUntil == 0.0)
    && forall s :: LatestStart(c, startedAt, polls, |polls|, s) ==>
         && (t.attempted <==> forall i :: s < i < |polls| ==> polls[i].busy)
         && forall r :: FirstFree(polls, s, r) ==> t.blockedUntil == polls[r].time + c.retrySec
  }

  lemma LatestSnoc(c: Config, startedAt: real, polls: seq<Poll>, s: int)
    requires polls != []
    ensures LatestStart(c, startedAt, polls, |polls|, s)
        <==> if StartsAt(c, startedAt, polls, |polls| - 1) then s == |polls| - 1
             else LatestStart(c, startedAt, polls[..|polls| - 1], |polls| - 1, s)
  {
    LatestBefore(c, startedAt, polls, |polls| - 1, |polls| - 1, s);
  }

  lemma {:induction false} BlockMatches(c: Config, startedAt: real, polls: seq<Poll>)
    ensures BlockIs(c, startedAt, polls, Run(c, startedAt, polls))
  {
    if polls != [] {
      var front := polls[..|polls| - 1];
      BlockMatches(c, startedAt, front);
      if NoStartBefore(c, startedAt, polls, |polls|) {
        LatestBefore(c, startedAt, polls, |front|, |front|, 0);
        assert !StartsAt(c, startedAt, polls, |front|);
      }
      forall s | LatestStart(c, startedAt, polls, |polls|, s)
        ensures Run(c, startedAt, polls).attempted <==> forall i :: s < i < |polls| ==> polls[i].busy
        ensures forall r :: FirstFree(polls, s, r) ==>
                  Run(c, startedAt, polls).blockedUntil == polls[r].time + c.retrySec
      {
        LatestSnoc(c, startedAt, polls, s);
        if s < |front| {
          BlockStep(c, startedAt, polls, s);
        }
      }
    }
  }

  lemma StepBlock(c: Config, t: Timer, p: Poll)
    requires !Step(c, t, p).1
    ensures Step(c, t, p).0.attempted == (t.attempted && p.busy)
    ensures Step(c, t, p).0.blockedUntil == if t.attempted && !p.busy then p.time + c.retrySec else t.blockedUntil
  {}

  lemma BlockStep(c: Config, startedAt: real, polls: seq<Poll>, s: int)
    requires polls != [] && s < |polls| - 1
    requires BlockIs(c, startedAt, polls[..|polls| - 1], Run(c, startedAt, polls[..|polls| - 1]))
    requires LatestStart(c, startedAt, polls[..|polls| - 1], |polls| - 1, s)
    requires !StartsAt(c, startedAt, polls, |polls| - 1)
    ensures Run(c, startedAt, polls).attempted <==> forall i :: s < i < |polls| ==> polls[i].busy
    ensures forall r :: FirstFree(polls, s, r) ==>
              Run(c, startedAt, polls).blockedUntil == polls[r].time + c.retrySec
  {
    var n := |polls| - 1;
    var front, last := polls[..n], polls[n];
    StepBlock(c, Run(c, startedAt, front), last);
    assert forall i :: s < i < n ==> front[i] == polls[i];
    forall r | FirstFree(polls, s, r)
      ensures Run(c, startedAt, polls).blockedUntil == polls[r].time + c.retrySec
    {
      if r < n {
        assert FirstFree(front, s, r);
      }
    }
  }

  lemma {:induction false} LatestExists(c: Config, startedAt: real, polls: seq<Poll>, k: nat) returns (s: nat)
    requires k <= |polls| && !NoStartBefore(c, startedAt, polls, k)
    ensures LatestStart(c, startedAt, polls, k, s)
  {
    if StartsAt(c, startedAt, polls, k - 1) {
      s := k - 1;
    } else {
      s := LatestExists(c, startedAt, polls, k - 1);
    }
  }

  lemma {:induction false} FirstFreeExists(polls: seq<Poll>, s: nat, i: nat) returns (r: nat)
    requires s < i < |polls| && !polls[i].busy
    ensures r <= i && FirstFree(polls, s, r)
    decreases i
  {
    if j :| s < j < i && !polls[j].busy {
      r := FirstFreeExists(polls, s, j);
    } else {
      r := i;
    }
  }

  /** When poll k, with no update running, is past the block as the timer keeps it. */
  predicate PastBlock(c: Config, t: Timer, p: Poll) {
    p.time >= if t.attempted then p.time + c.retrySec else t.blockedUntil
  }

  lemma BlockEnds(c: Config, startedAt: real, polls: seq<Poll>, k: nat)
    requires k < |polls| && !polls[k].busy
    ensures PastBlock(c, Run(c, startedAt, polls[..k]), polls[k]) <==> Unblocked(c, startedAt, polls, k)
  {
    var front := polls[..k];
    BlockMatches(c, startedAt, front);
    LatestBefore(c, startedAt, polls, k, k, 0);
    if !NoStartBefore(c, startedAt, polls, k) {
      var s := LatestExists(c, startedAt, polls, k);
      LatestBefore(c, startedAt, polls, k, k, s);
      var r := FirstFreeExists(polls, s, k);
      assert forall i :: 0 <= i < k ==> front[i] == polls[i];
      if r < k {
        assert FirstFree(front, s, r) && front[r] == polls[r];
      }
      forall s', r' | LatestStart(c, startedAt, polls, k, s') && FirstFree(polls, s', r') && r' <= k
        ensures s' == s && r' == r
      {}
    }
  }

  // ---------------------------------------------------------------------
  // The idle mark

  ghost predicate MarkIs(c: Config, startedAt: real, polls: seq<Poll>, idleSince: Option<real>) {
    && (idleSince.Some? ==>
          exists m :: ReadySince(c, startedAt, polls, m, |polls|) && polls[m].time == idleSince.value)
    && forall m :: ReadySince(c, startedAt, polls, m, |polls|) ==>
         idleSince.Some? && idleSince.value <= polls[m].time
  }

  lemma ReadySnoc(c: Config, startedAt: real, polls: seq<Poll>, m: int)
    requires polls != []
    ensures ReadySince(c, startedAt, polls, m, |polls|)
        <==> && (if m == |polls| - 1 then Ready(c, startedAt, polls, m)
                 else ReadySince(c, startedAt, polls[..|polls| - 1], m, |polls| - 1))
             && !StartsAt(c, startedAt, polls, |polls| - 1)
             && (!polls[|polls| - 1].busy ==> polls[|polls| - 1].required && polls[|polls| - 1].idle)
  {
    var n := |polls| - 1;
    if m < n {
      ReadyBefore(c, startedAt, polls, n, m, n);
    }
  }

  /** The idle mark after a poll. */
  function NextMark(mark: Option<real>, p: Poll, ready: bool, starts: bool): Option<real> {
    if p.busy then mark
    else if !ready || starts then None
    else if mark.Some? then mark
    else Some(p.time)
  }

  /** What a poll does to the mark, once the branches that cannot meet are left out. */
  lemma StepMark(c: Config, startedAt: real, t: Timer, lastStart: Option<real>, p: Poll, ready: bool)
    requires TimerOk(c, startedAt, t, lastStart, p.time)
    requires ready <==> !p.busy && p.required && p.idle && p.time - startedAt >= c.bootGraceSec && PastBlock(c, t, p)
    ensures Step(c, t, p).1 <==> ready && t.idleSince.Some? && p.time - t.idleSince.value >= c.idleSec
    ensures Step(c, t, p).0.idleSince == NextMark(t.idleSince, p, ready, Step(c, t, p).1)
  {}

  lemma MarkSnoc(c: Config, startedAt: real, polls: seq<Poll>)
    requires polls != [] && Timely(startedAt, polls)
    requires MarkIs(c, startedAt, polls[..|polls| - 1], Run(c, startedAt, polls[..|polls| - 1]).idleSince)
    requires Run(c, startedAt, polls).idleSince
          == NextMark(Run(c, startedAt, polls[..|polls| - 1]).idleSince, polls[|polls| - 1],
                      Ready(c, startedAt, polls, |polls| - 1), StartsAt(c, startedAt, polls, |polls| - 1))
    ensures MarkIs(c, startedAt, polls, Run(c, startedAt, polls).idleSince)
  {
    var n := |polls| - 1;
    var front, last := polls[..n], polls[n];
    var t, mark := Run(c, startedAt, front), Run(c, startedAt, polls).idleSince;
    forall m
      ensures ReadySince(c, startedAt, polls, m, |polls|)
          <==> && (if m == n then Ready(c, startedAt, polls, m) else ReadySince(c, startedAt, front, m, n))
               && !StartsAt(c, startedAt, polls, n)
               && (!last.busy ==> last.required && last.idle)
    {
      ReadySnoc(c, startedAt, polls, m);
    }
    if mark.Some? {
      if last.busy || t.idleSince.Some? {
        var m :| ReadySince(c, startedAt, front, m, n) && front[m].time == mark.value;
        assert ReadySince(c, startedAt, polls, m, |polls|) && polls[m].time == mark.value;
      } else {
        assert ReadySince(c, startedAt, polls, n, |polls|) && polls[n].time == mark.value;
      }
    }
  }

  lemma ReadyStep(c: Config, startedAt: real, polls: seq<Poll>, k: nat)
    requires Timely(startedAt, polls) && k < |polls|
    ensures var t, p := Run(c, startedAt, polls[..k]), polls[k];
            StartsAt(c, startedAt, polls, k)
            <==> Ready(c, startedAt, polls, k) && t.idleSince.Some? && p.time - t.idleSince.value >= c.idleSec
    ensures Step(c, Run(c, startedAt, polls[..k]), polls[k]).0.idleSince
         == NextMark(Run(c, startedAt, polls[..k]).idleSince, polls[k],
                     Ready(c, startedAt, polls, k), StartsAt(c, startedAt, polls, k))
  {
    var front := polls[..k];
    RunKeepsTimer(c, startedAt, front, polls[k].time);
    if !polls[k].busy {
      BlockEnds(c, startedAt, polls, k);
    }
    var ready := Ready(c, startedAt, polls, k);
    StepMark(c, startedAt, Run(c, startedAt, front), LastStart(c, startedAt, front), polls[k], ready);
  }

  lemma {:induction false} MarkMatches(c: Config, startedAt: real, polls: seq<Poll>)
    requires Timely(startedAt, polls)
    ensures MarkIs(c, startedAt, polls, Run(c, startedAt, polls).idleSince)
  {
    if polls != [] {
      MarkMatches(c, startedAt, polls[..|polls| - 1]);
      ReadyStep(c, startedAt, polls, |polls| - 1);
      MarkSnoc(c, startedAt, polls);
    }
  }

  /** Main result: poll k starts an update exactly when the gateway is ready there, and has
      been since a poll at least idle_sec before. */
  lemma StartsExactly(c: Config, startedAt: real, polls: seq<Poll>, k: nat)
    requires Timely(startedAt, polls) && k < |polls|
    ensures StartsAt(c, startedAt, polls, k)
        <==> Ready(c, startedAt, polls, k)
             && exists m :: ReadySince(c, startedAt, polls, m, k) && polls[k].time - polls[m].time >= c.idleSec
  {
    var front := polls[..k];
    MarkMatches(c, startedAt, front);
    ReadyStep(c, startedAt, polls, k);
    forall m
      ensures ReadySince(c, startedAt, front, m, k) <==> ReadySince(c, startedAt, polls, m, k)
    {
      if m < k {
        ReadyBefore(c, startedAt, polls, k, m, k);
      }
    }
    if StartsAt(c, startedAt, polls, k) {
      var mark := Run(c, startedAt, front).idleSince;
      var m :| ReadySince(c, startedAt, front, m, k) && front[m].time == mark.value;
      assert ReadySince(c, startedAt, polls, m, k) && polls[k].time - polls[m].time >= c.idleSec;
    }
  }
}
