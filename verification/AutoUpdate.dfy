/** The timer that applies a required update once the gateway is idle. */
module AutoUpdate {
  import opened Wrappers

  datatype Config = Config(bootGraceSec: real, idleSec: real, retrySec: real)

  datatype Timer = Timer(startedAt: real, idleSince: Option<real>, blockedUntil: real, attempted: bool)

  /** One poll of the timer: whether an update is running, whether one is required,
      and whether no device is being served. */
  datatype Poll = Poll(time: real, busy: bool, required: bool, idle: bool)

  function Fresh(startedAt: real): Timer { Timer(startedAt, None, 0.0, false) }

  /** The timer after a poll, and whether the poll starts an update. */
  function Step(c: Config, t: Timer, p: Poll): (Timer, bool) {
    if p.busy then (t, false)
    else
      var u := if t.attempted then t.(attempted := false, blockedUntil := p.time + c.retrySec) else t;
      if !p.required then (u.(idleSince := None), false)
      else if p.time < u.blockedUntil || p.time - u.startedAt < c.bootGraceSec then (u, false)
      else if !p.idle then (u.(idleSince := None), false)
      else if u.idleSince.None? then (u.(idleSince := Some(p.time)), false)
      else if p.time - u.idleSince.value >= c.idleSec then (u.(idleSince := None, attempted := true), true)
      else (u, false)
  }

  class RequiredUpdateAutoApplier {
    const config: Config
    const startedAt: real
    var idleSince: Option<real>
    var blockedUntil: real
    var attempted: bool

    ghost function Model(): Timer
      reads this
    {
      Timer(startedAt, idleSince, blockedUntil, attempted)
    }

    constructor (config: Config, now: real)
      ensures Model() == Fresh(now) && this.config == config
    {
      this.config := config;
      startedAt, idleSince, blockedUntil, attempted := now, None, 0.0, false;
    }

    /** Returns whether the update manager is told to start. */
    method Service(p: Poll) returns (start: bool)
      modifies this
      ensures (Model(), start) == Step(config, old(Model()), p)
    {
      if p.busy { return false; }
      if attempted {
        attempted := false;
        blockedUntil := p.time + config.retrySec;
      }
      if !p.required {
        idleSince := None;
        return false;
      }
      if p.time < blockedUntil || p.time - startedAt < config.bootGraceSec { return false; }
      if !p.idle {
        idleSince := None;
        return false;
      }
      if idleSince.None? {
        idleSince := Some(p.time);
        return false;
      }
      if p.time - idleSince.value >= config.idleSec {
        idleSince := None;
        attempted := true;
        return true;
      }
      return false;
    }

    method Status(required: bool, now: real) returns (status: string)
      ensures status == "" <==> !required
      ensures status == "retry_later" <==> required && now < blockedUntil
      ensures status == "waiting_for_idle" <==> required && now >= blockedUntil
    {
      if !required { return ""; }
      if now < blockedUntil { return "retry_later"; }
      return "waiting_for_idle";
    }
  }

  // ---------------------------------------------------------------------
  // Runs

  function Run(c: Config, startedAt: real, polls: seq<Poll>): Timer {
    if polls == [] then Fresh(startedAt)
    else Step(c, Run(c, startedAt, polls[..|polls| - 1]), polls[|polls| - 1]).0
  }

  /** Poll k starts an update. */
  predicate StartsAt(c: Config, startedAt: real, polls: seq<Poll>, k: int) {
    0 <= k < |polls| && Step(c, Run(c, startedAt, polls[..k]), polls[k]).1
  }

  /** The times of all automatic starts, in order. */
  function StartTimes(c: Config, startedAt: real, polls: seq<Poll>): seq<real> {
    if polls == [] then []
    else
      var n := |polls| - 1;
      StartTimes(c, startedAt, polls[..n]) + (if StartsAt(c, startedAt, polls, n) then [polls[n].time] else [])
  }

  ghost predicate Timely(startedAt: real, polls: seq<Poll>) {
    && (forall i :: 0 <= i < |polls| ==> startedAt <= polls[i].time)
    && (forall i, j :: 0 <= i <= j < |polls| ==> polls[i].time <= polls[j].time)
  }

  /** The idle mark goes back to poll m, and every poll since then with no update
      running saw a required update and no served device. */
  ghost predicate MarkedBy(polls: seq<Poll>, m: int, mark: real) {
    && 0 <= m < |polls| && polls[m].time == mark && !polls[m].busy
    && forall i :: m <= i < |polls| && !polls[i].busy ==> polls[i].required && polls[i].idle
  }

  /** Time of the latest automatic start. */
  function LastStart(c: Config, startedAt: real, polls: seq<Poll>): Option<real> {
    if polls == [] then None
    else if StartsAt(c, startedAt, polls, |polls| - 1) then Some(polls[|polls| - 1].time)
    else LastStart(c, startedAt, polls[..|polls| - 1])
  }

  ghost predicate TimerOk(c: Config, startedAt: real, t: Timer, lastStart: Option<real>, now: real) {
    && t.startedAt == startedAt
    && (t.attempted ==> lastStart.Some? && t.idleSince.None?)
    && (lastStart.Some? ==> lastStart.value <= now && (t.attempted || t.blockedUntil >= lastStart.value + c.retrySec))
    && (t.idleSince.Some? ==>
          now >= t.idleSince.value >= startedAt + c.bootGraceSec && t.idleSince.value >= t.blockedUntil)
  }

  lemma {:induction false} RunKeepsTimer(c: Config, startedAt: real, polls: seq<Poll>, now: real)
    requires Timely(startedAt, polls) && forall i :: 0 <= i < |polls| ==> polls[i].time <= now
    ensures TimerOk(c, startedAt, Run(c, startedAt, polls), LastStart(c, startedAt, polls), now)
  {
    if polls != [] {
      var front, last := polls[..|polls| - 1], polls[|polls| - 1];
      RunKeepsTimer(c, startedAt, front, last.time);
    }
  }

  lemma MarkExtends(front: seq<Poll>, last: Poll, mark: real)
    requires exists m :: MarkedBy(front, m, mark)
    requires !last.busy ==> last.required && last.idle
    ensures exists m :: MarkedBy(front + [last], m, mark)
  {
    var m :| MarkedBy(front, m, mark);
    assert MarkedBy(front + [last], m, mark);
  }

  lemma MarkStarts(front: seq<Poll>, last: Poll)
    requires !last.busy && last.required && last.idle
    ensures exists m :: MarkedBy(front + [last], m, last.time)
  {
    assert MarkedBy(front + [last], |front|, last.time);
  }

  /** A poll keeps the mark only if it saw a required update and an idle gateway. */
  lemma MarkStep(c: Config, startedAt: real, t: Timer, lastStart: Option<real>, p: Poll)
    requires TimerOk(c, startedAt, t, lastStart, p.time) && Step(c, t, p).0.idleSince.Some?
    ensures p.busy || (p.required && p.idle)
    ensures Step(c, t, p).0.idleSince == if t.idleSince.Some? then t.idleSince else Some(p.time)
    ensures t.idleSince.None? ==> !p.busy
  {}

  lemma {:induction false} RunKeepsMark(c: Config, startedAt: real, polls: seq<Poll>)
    requires Timely(startedAt, polls) && Run(c, startedAt, polls).idleSince.Some?
    ensures exists m :: MarkedBy(polls, m, Run(c, startedAt, polls).idleSince.value)
  {
    if polls != [] {
      var front, last := polls[..|polls| - 1], polls[|polls| - 1];
      assert polls == front + [last];
      RunKeepsTimer(c, startedAt, front, last.time);
      var t := Run(c, startedAt, front);
      MarkStep(c, startedAt, t, LastStart(c, startedAt, front), last);
      if t.idleSince.Some? {
        RunKeepsMark(c, startedAt, front);
        MarkExtends(front, last, t.idleSince.value);
      } else {
        MarkStarts(front, last);
      }
    }
  }

  /** Main result: an automatic start comes at least idle_sec after a poll that found the
      gateway idle; from that poll on, every poll with no update running saw a required
      update and no served device. */
  lemma StartsOnlyWhenIdle(c: Config, startedAt: real, polls: seq<Poll>, k: nat)
    requires Timely(startedAt, polls) && StartsAt(c, startedAt, polls, k)
    ensures exists m :: 0 <= m < k && polls[k].time - polls[m].time >= c.idleSec && !polls[m].busy
              && polls[m].time >= startedAt + c.bootGraceSec
              && forall i :: m <= i <= k && !polls[i].busy ==> polls[i].required && polls[i].idle
    ensures polls[k].time >= startedAt + c.bootGraceSec + c.idleSec
  {
    var front := polls[..k];
    RunKeepsTimer(c, startedAt, front, polls[k].time);
    RunKeepsMark(c, startedAt, front);
    var m :| MarkedBy(front, m, Run(c, startedAt, front).idleSince.value);
    assert polls[m] == front[m];
    forall i | m <= i <= k && !polls[i].busy
      ensures polls[i].required && polls[i].idle
    {
      assert i < k ==> polls[i] == front[i];
    }
  }

  lemma {:induction false} LastStartIsLast(c: Config, startedAt: real, polls: seq<Poll>)
    ensures var starts := StartTimes(c, startedAt, polls);
            LastStart(c, startedAt, polls) == if starts == [] then None else Some(starts[|starts| - 1])
  {
    if polls != [] {
      LastStartIsLast(c, startedAt, polls[..|polls| - 1]);
    }
  }

  ghost predicate SpacedBy(starts: seq<real>, first: real, gap: real) {
    && (starts != [] ==> starts[0] >= first)
    && (forall i :: 0 <= i < |starts| - 1 ==> starts[i + 1] - starts[i] >= gap)
  }

  /** Main result: the first start waits out the boot grace and the idle time, and any
      two starts are at least retry_sec + idle_sec apart. */
  lemma {:induction false} StartsAreSpaced(c: Config, startedAt: real, polls: seq<Poll>)
    requires Timely(startedAt, polls)
    ensures SpacedBy(StartTimes(c, startedAt, polls), startedAt + c.bootGraceSec + c.idleSec, c.retrySec + c.idleSec)
  {
    if polls != [] {
      var n := |polls| - 1;
      StartsAreSpaced(c, startedAt, polls[..n]);
      LastStartIsLast(c, startedAt, polls[..n]);
      RunKeepsTimer(c, startedAt, polls[..n], polls[n].time);
    }
  }

  /** The earliest time of the n-th start. */
  function Earliest(n: nat, first: real, gap: real): real
    requires n > 0
  {
    first + (n - 1) as real * gap
  }

  lemma {:induction false} SpacingAddsUp(starts: seq<real>, first: real, gap: real)
    requires starts != [] && SpacedBy(starts, first, gap)
    ensures starts[|starts| - 1] >= Earliest(|starts|, first, gap)
  {
    if |starts| > 1 {
      var n := |starts| - 1;
      SpacingAddsUp(starts[..n], first, gap);
      assert n as real * gap == (n - 1) as real * gap + gap;
    }
  }

  /** Main result: n automatic starts take at least boot_grace + idle + (n-1)(retry + idle)
      seconds of running, so a run of length T has at most 1 + T / (retry + idle). */
  lemma StartsAreRare(c: Config, startedAt: real, polls: seq<Poll>, now: real)
    requires Timely(startedAt, polls) && forall i :: 0 <= i < |polls| ==> polls[i].time <= now
    ensures var n := |StartTimes(c, startedAt, polls)|;
            n > 0 ==> now >= Earliest(n, startedAt + c.bootGraceSec + c.idleSec, c.retrySec + c.idleSec)
  {
    var starts := StartTimes(c, startedAt, polls);
    if starts != [] {
      LastStartIsLast(c, startedAt, polls);
      RunKeepsTimer(c, startedAt, polls, now);
      StartsAreSpaced(c, startedAt, polls);
      SpacingAddsUp(starts, startedAt + c.bootGraceSec + c.idleSec, c.retrySec + c.idleSec);
    }
  }
}
