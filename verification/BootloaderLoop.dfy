/** The bootloader's two loops. They are run against a script of everything that is not
    theirs to decide: what the launched runtimes do, when they exit, whether the web
    port answers, where the power goes. A script that ends is a power loss, or a boot
    timeout in a trial. */
module BootloaderLoop {
  import opened Wrappers
  import opened BootState
  import opened Bootloader

  /** What a runtime can do to the disk, up to being cut short while it marks a switch. */
  predicate ByRuntime(e: Event) {
    || e.WriteHealth? || e.StageBegin? || e.StageWrite? || e.StageMark? || e.StageAbort?
    || e == TornSave(Mark) || e.TornExit?
  }

  /** One look at the runtime on trial: what it did since the last, whether it still runs,
      whether its web port answers, and whether the power goes during the save that follows. */
  datatype Poll = Poll(did: seq<Event>, alive: bool, webReady: bool, cut: bool)

  /** One pass of the outer loop. */
  datatype Round = Round(active: seq<Event>, trial: seq<Poll>, serving: seq<Event>, slotVersion: string, cut: bool)

  /** How far a process got: it still is where it was, or the last event cut it short. */
  predicate WentOn(was: Place, w: World, last: Event) {
    if Alive(w) then w.place == was
    else if last.TornSave? then w.place.Down?
    else last.TornExit? && w.boot.phase != PENDING_SWITCH && w.place == if was.Trial? then Top else Stopped
  }

  lemma RuntimeStep(w: World, e: Event)
    requires Alive(w) && ByRuntime(e) && Enabled(w, e)
    ensures WentOn(w.place, Apply(w, e), e) && ActiveLaunches(Apply(w, e)) == ActiveLaunches(w)
  {}

  /** The world once the running process has done what it can of `actions`; being cut short
      ends it. */
  function Lived(w: World, actions: seq<Event>): World {
    if actions == [] then w
    else
      var v, a := Lived(w, actions[..|actions| - 1]), actions[|actions| - 1];
      if Alive(v) && ByRuntime(a) && Enabled(v, a) then Apply(v, a) else v
  }

  /** What a process can do, it does, one thing after the other. */
  lemma {:induction false} LivedJoins(w: World, a: seq<Event>, b: seq<Event>)
    ensures Lived(w, a + b) == Lived(Lived(w, a), b)
    ensures |b| == 1 && Alive(w) && ByRuntime(b[0]) && Enabled(w, b[0]) ==> Lived(w, b) == Apply(w, b[0])
  {
    if b == [] {
      assert a + b == a;
    } else {
      assert (a + b)[..|a + b| - 1] == a + b[..|b| - 1];
      LivedJoins(w, a, b[..|b| - 1]);
    }
  }

  /** The world once the runtime on trial has done what it did up to the n-th look. */
  function Looked(w: World, polls: seq<Poll>, n: nat): World
    requires n <= |polls|
  {
    if n == 0 then w else Lived(Looked(w, polls, n - 1), polls[n - 1].did)
  }

  /** Look n finds the runtime on trial healthy and its web port answering. */
  predicate Passes(w: World, polls: seq<Poll>, n: nat)
    requires n < |polls|
  {
    CanCommit(Looked(w, polls, n + 1)) && polls[n].webReady
  }

  /** Look n decides nothing. */
  predicate Undecided(w: World, polls: seq<Poll>, n: nat)
    requires n < |polls|
  {
    Alive(Looked(w, polls, n + 1)) && polls[n].alive && !Passes(w, polls, n)
  }

  /** The save that follows a look which decides: a rollback if the process is gone. */
  function Verdict(poll: Poll): Event {
    if !poll.alive then (if poll.cut then TornSave(Rollback) else ProcessExit)
    else if poll.cut then TornSave(Commit)
    else TrialReady
  }

  /** Where a trial of p leaves the bootloader. */
  predicate Ended(p: Process, w: World, last: Event) {
    if last.TornSave? then w.place.Down?
    else if last.TrialReady? then w.place == Serving(p)
    else w.place.Top?
  }

  /** The first look from n on that decides, or |polls|. */
  function Deciding(w: World, polls: seq<Poll>, n: nat): nat
    requires n <= |polls|
    decreases |polls| - n
  {
    if n == |polls| || !Undecided(w, polls, n) then n else Deciding(w, polls, n + 1)
  }

  /** A look that finds v decides if the process is gone, or its web port answers and its
      health report is ready and names the slot on trial and the version waited for. */
  predicate Decides(v: World, poll: Poll) {
    || !Alive(v) || !poll.alive
    || (poll.webReady && v.place.Trial? && v.health.ready
        && v.health.slot == v.place.p.slot && v.health.version == v.place.want)
  }

  lemma {:induction false} DecidingIsFirst(w: World, polls: seq<Poll>, n: nat)
    requires n <= |polls|
    ensures var d := Deciding(w, polls, n);
            && n <= d <= |polls| && (d < |polls| ==> Decides(Looked(w, polls, d + 1), polls[d]))
            && forall i :: n <= i < d ==> !Decides(Looked(w, polls, i + 1), polls[i])
    decreases |polls| - n
  {
    if n < |polls| && Undecided(w, polls, n) {
      DecidingIsFirst(w, polls, n + 1);
    }
  }

  /** How often the active slot was launched. */
  function ActiveLaunches(w: World): int { w.tally.launches - w.tally.trials }

  class GatewayBootloader {
    var world: World
    ghost var journal: seq<Event>

    /** The world is what the journal leads to, step by possible step. */
    ghost predicate Valid()
      reads this
    {
      Steps(FACTORY, journal) == Some(world)
    }

    constructor ()
      ensures Valid() && world == FACTORY && journal == []
    {
      world, journal := FACTORY, [];
    }

    method Do(e: Event)
      requires Valid() && Enabled(world, e)
      modifies this
      ensures Valid() && journal == old(journal) + [e] && world == Apply(old(world), e)
    {
      StepsSnoc(journal, e);
      world := Apply(world, e);
      journal := journal + [e];
    }

    /** Lets the running process do what it can of `actions`; the last may be the end of
        it, or of the power. */
    method Live(actions: seq<Event>)
      requires Valid() && Alive(world)
      modifies this
      ensures Valid() && old(journal) <= journal
      ensures world == Lived(old(world), actions)
      ensures ActiveLaunches(world) == ActiveLaunches(old(world))
      ensures Alive(world) ==> world.place == old(world.place)
      ensures !Alive(world) ==> old(journal) < journal && WentOn(old(world.place), world, journal[|journal| - 1])
    {
      hide Steps;
      for i := 0 to |actions|
        invariant Valid() && old(journal) <= journal
        invariant world == Lived(old(world), actions[..i])
        invariant ActiveLaunches(world) == ActiveLaunches(old(world))
        invariant Alive(world) ==> world.place == old(world.place)
        invariant !Alive(world) ==> old(journal) < journal && WentOn(old(world.place), world, journal[|journal| - 1])
      {
        assert actions[..i + 1][..i] == actions[..i];
        if Alive(world) && ByRuntime(actions[i]) && Enabled(world, actions[i]) {
          RuntimeStep(world, actions[i]);
          Do(actions[i]);
        }
      }
      assert actions[..|actions|] == actions;
    }

    /** One look at the runtime on trial. Decides on a commit if it is healthy and its web
        port answers, and on a rollback if it is gone. */
    method Look(poll: Poll) returns (decided: bool)
      requires Valid() && world.place.Trial?
      modifies this
      ensures Valid() && old(journal) <= journal && ActiveLaunches(world) == ActiveLaunches(old(world))
      ensures var v := Lived(old(world), poll.did);
              && decided == !(Alive(v) && poll.alive && !(CanCommit(v) && poll.webReady))
              && (!decided || !Alive(v) ==> world == v)
              && (decided && Alive(v) ==> old(journal) < journal && journal[|journal| - 1] == Verdict(poll))
      ensures if decided then old(journal) < journal && Ended(old(world.place.p), world, journal[|journal| - 1])
              else world.place == old(world.place)
    {
      Live(poll.did);
      decided := true;
      if Alive(world) {
        if !poll.alive || (CanCommit(world) && poll.webReady) {
          Do(Verdict(poll));
        } else {
          decided := false;
        }
      }
    }

    /** What the n-th look decided. */
    ghost predicate DecidedBy(was: World, polls: seq<Poll>, n: nat)
      requires n < |polls|
      reads this
    {
      var v := Looked(was, polls, n + 1);
      if !Alive(v) then world == v
      else
        && journal != [] && journal[|journal| - 1] == Verdict(polls[n])
        && (polls[n].alive ==> Passes(was, polls, n))
    }

    /** Looks until a look decides, or there are no more. */
    method LookOn(polls: seq<Poll>) returns (n: nat)
      requires Valid() && world.place.Trial?
      modifies this
      ensures Valid() && old(journal) <= journal && ActiveLaunches(world) == ActiveLaunches(old(world))
      ensures n <= |polls| && n == Deciding(old(world), polls, 0)
      ensures n < |polls| ==> journal != [] && Ended(old(world.place.p), world, journal[|journal| - 1])
      ensures n < |polls| ==> DecidedBy(old(world), polls, n)
      ensures n == |polls| ==> world.place == old(world.place)
    {
      hide Steps;
      n := 0;
      while n < |polls|
        invariant n <= |polls| && Valid() && old(journal) <= journal && world.place == old(world.place)
        invariant world == Looked(old(world), polls, n)
        invariant ActiveLaunches(world) == ActiveLaunches(old(world))
        invariant Deciding(old(world), polls, 0) == Deciding(old(world), polls, n)
      {
        var decided := Look(polls[n]);
        if decided { return; }
        n := n + 1;
      }
    }

    /** Waits for the runtime on trial: commits it at the first look that finds it healthy,
        rolls back at the first that finds it gone, or when the time is up. Only a power
        loss in that very save, or during the runtime's own, ends it otherwise. */
    method AwaitPendingHealth(polls: seq<Poll>, cut: bool) returns (n: nat)
      requires Valid() && world.place.Trial?
      modifies this
      ensures Valid() && old(journal) <= journal && journal != []
      ensures ActiveLaunches(world) == ActiveLaunches(old(world))
      ensures n <= |polls| && n == Deciding(old(world), polls, 0)
      ensures n < |polls| ==> DecidedBy(old(world), polls, n)
      ensures n == |polls| ==> journal[|journal| - 1] == if cut then TornSave(Rollback) else TrialTimeout
      ensures world.place.Serving? ==> n < |polls| && polls[n].alive && polls[n].webReady
      ensures Ended(old(world.place.p), world, journal[|journal| - 1])
    {
      n := LookOn(polls);
      if n == |polls| {
        Do(if cut then TornSave(Rollback) else TrialTimeout);
      }
    }

    /** One start of the bootloader, until it returns or the power goes, perhaps while it
        still seeds slot A; `bundle` says whether the bundle's start script was copied.
        Whatever the script, in a careful history every process started for the active
        slot runs a vetted copy; and the bootloader goes on as Loop says. */
    method RunForeground(bundle: bool, seedCut: bool, rounds: seq<Round>)
      requires Valid() && (world.place.Down? || world.place.Stopped?)
      modifies this
      ensures Valid() && old(journal) < journal && (world.place.Down? || world.place.Stopped?)
      ensures journal[|old(journal)|] == if seedCut && NeedsSeed(old(world)) then TornSeed(bundle) else PowerOn(bundle)
      ensures journal[|old(journal)|].PowerOn? ==> Finished(ActiveLaunches(old(world)), rounds)
      ensures CarefulRun(journal) ==>
        forall k :: 0 <= k < |journal| && journal[k].LaunchActive? ==>
          Possible(journal[..k + 1]) && RunsVetted(After(journal[..k + 1]))
    {
      if seedCut && NeedsSeed(world) {
        Do(TornSeed(bundle));
      } else {
        Do(PowerOn(bundle));
        Loop(rounds);
      }
      if CarefulRun(journal) {
        forall k | 0 <= k < |journal| && journal[k].LaunchActive?
          ensures Possible(journal[..k + 1]) && RunsVetted(After(journal[..k + 1]))
        {
          LaunchesAreVetted(journal, k);
        }
      }
    }

    /** The active slot runs until it exits; a switch staged by then is tried next. */
    method ServeActive(round: Round)
      requires Valid() && world.place.Top? && world.boot.active in world.slots
      modifies this
      ensures Valid() && old(journal) < journal && journal[|old(journal)|] == LaunchActive(round.slotVersion)
      ensures ActiveLaunches(world) == ActiveLaunches(old(world)) + 1
      ensures var v := Lived(Apply(old(world), LaunchActive(round.slotVersion)), round.active);
              world == if Alive(v) then Apply(v, ProcessExit) else v
      ensures world.place.Switching? || world.place.Stopped? || (world.place.Down? && CutShort())
      ensures !world.place.Down? ==> (world.place.Switching? <==> SwitchStaged(world.boot))
    {
      Do(LaunchActive(round.slotVersion));
      Live(round.active);
      if Alive(world) {
        Do(ProcessExit);
      }
    }

    /** The power went during a save. */
    ghost predicate CutShort()
      reads this
    {
      journal != [] && journal[|journal| - 1].TornSave?
    }

    /** The staged slot goes on trial and, once committed, runs until it exits. The outer
        loop goes round if it is back at the top. */
    method TryPending(round: Round)
      requires Valid() && world.place.Switching? && world.boot.pending in world.slots
      modifies this
      ensures Valid() && old(journal) < journal && journal[|old(journal)|] == LaunchPending(round.slotVersion)
      ensures ActiveLaunches(world) == ActiveLaunches(old(world))
      ensures world.place.Top? || world.place.Stopped? || (world.place.Down? && CutShort())
      ensures world.place.Stopped? ==> world.boot.phase != PENDING_SWITCH
    {
      Do(LaunchPending(round.slotVersion));
      var _ := AwaitPendingHealth(round.trial, round.cut);
      if world.place.Serving? {
        Live(round.serving);
        if Alive(world) {
          Do(ProcessExit);
        }
      }
    }

    /** The bootloader stops only with no switch staged; otherwise it has launched the active
        slot once for every round, unless a slot was missing or the power went in a save. */
    ghost predicate Finished(launchesBefore: int, rounds: seq<Round>)
      reads this
    {
      && (world.place.Stopped? ==> !SwitchStaged(world.boot))
      && (world.place.Down? && !CutShort() ==>
            || ActiveLaunches(world) == launchesBefore + |rounds|
            || world.boot.active !in world.slots
            || (world.boot.pending != "" && world.boot.pending !in world.slots))
    }

    method Loop(rounds: seq<Round>)
      requires Valid() && world.place.Top?
      modifies this
      ensures Valid() && old(journal) <= journal && (world.place.Down? || world.place.Stopped?)
      ensures Finished(ActiveLaunches(old(world)), rounds)
    {
      for n := 0 to |rounds|
        invariant Valid() && old(journal) <= journal && world.place.Top?
        invariant ActiveLaunches(world) == ActiveLaunches(old(world)) + n
      {
        if world.boot.active !in world.slots { break; }
        ServeActive(rounds[n]);
        if !world.place.Switching? { return; }
        if world.boot.pending !in world.slots { break; }
        TryPending(rounds[n]);
        if !world.place.Top? { return; }
      }
      Do(PowerLoss);
    }
  }
}
