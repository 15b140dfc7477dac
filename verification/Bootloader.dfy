/** The A/B update machine across the bootloader and the runtime it launches. */
module Bootloader {
  import opened Wrappers
  import opened BootState

  /** What a slot directory holds, emptied or half-copied ones included: which copy it is,
      counting every copy into a slot, and whether the start script is there. Nothing
      in the program compares what was copied. */
  datatype Content = Content(id: nat, runnable: bool)

  /** A launched runtime: its slot and the version the bootloader told it to report. */
  datatype Process = Process(slot: string, version: string)

  /** Where the bootloader is. In a trial it remembers the version it waits for; `held`
      is what the slot held when the trial was launched. */
  datatype Place =
    | Down
    | Top
    | Running(p: Process)
    | Switching
    | Trial(p: Process, want: string, held: Content)
    | Serving(p: Process)
    | Stopped

  /** Launches, and how each trial ended; the copies made so far, those of them that were
      bootstrapped whole or passed a trial, and the slots written since by an update or
      by a start that was cut short. */
  datatype Tally = Tally(
    launches: nat,
    trials: nat,
    commits: nat,
    rollbacks: nat,
    cut: nat,
    copies: nat,
    vetted: set<nat>,
    written: set<string>)

  /** The disk, the bootloader's place, and the slot that a running update writes to. */
  datatype World = World(
    boot: Record,
    health: Health,
    slots: map<string, Content>,
    place: Place,
    worker: Option<string>,
    tally: Tally)

  const FACTORY := World(DEFAULT, CLEARED, map[], Down, None, Tally(0, 0, 0, 0, 0, 0, {}, {}))

  /** The saves of the boot state. */
  datatype Saving = Mark | Commit | Rollback

  /** TornSeed: the power goes while a start copies the bundle to slot A. TornSave: it goes
      half-way through a save. TornExit: the runtime exits, and its update with it,
      half-way through the save that marks a switch. A copy says whether it brought
      the start script. */
  datatype Event =
    | PowerOn(script: bool)
    | TornSeed(script: bool)
    | PowerLoss
    | TornSave(saving: Saving)
    | LaunchActive(slotVersion: string)
    | LaunchPending(slotVersion: string)
    | WriteHealth(ready: bool)
    | StageBegin
    | StageWrite(script: bool)
    | StageMark(target: string)
    | StageAbort
    | ProcessExit
    | TornExit
    | TrialReady
    | TrialTimeout

  predicate Alive(w: World) { w.place.Running? || w.place.Trial? || w.place.Serving? }

  predicate SwitchStaged(r: Record) { r.phase == PENDING_SWITCH && r.pending != "" }

  predicate CanMark(w: World) { w.worker.Some? && w.worker.value in w.slots }

  predicate CanCommit(w: World) { w.place.Trial? && HealthReady(w.health, w.place.p.slot, w.place.want) }

  /** The start script of slot A is missing, so that a start copies the bundle there. */
  predicate NeedsSeed(w: World) { SLOT_A in w.slots ==> !w.slots[SLOT_A].runnable }

  /** What can happen in w. A switch is only ever marked with the version of a manifest,
      which is not empty. */
  predicate Enabled(w: World, e: Event) {
    match e
    case PowerOn(_) => w.place.Down? || w.place.Stopped?
    case TornSeed(_) => (w.place.Down? || w.place.Stopped?) && NeedsSeed(w)
    case PowerLoss => true
    case TornSave(Mark) => CanMark(w)
    case TornSave(Commit) => CanCommit(w)
    case TornSave(Rollback) => w.place.Trial?
    case LaunchActive(_) => w.place.Top? && w.boot.active in w.slots
    case LaunchPending(_) => w.place.Switching? && w.boot.pending in w.slots
    case WriteHealth(_) => Alive(w)
    case StageBegin => Alive(w) && w.worker.None?
    case StageWrite(_) => w.worker.Some?
    case StageMark(target) => CanMark(w) && target != ""
    case StageAbort => w.worker.Some?
    case ProcessExit => Alive(w)
    case TornExit => Alive(w) && CanMark(w)
    case TrialReady => CanCommit(w)
    case TrialTimeout => w.place.Trial?
  }

  function Label(r: Record, slotVersion: string): string { if r.target != "" then r.target else slotVersion }

  function Launched(w: World, place: Place): World {
    w.(health := CLEARED, place := place, worker := None, tally := w.tally.(launches := w.tally.launches + 1))
  }

  function RollBack(w: World, reason: string): World {
    w.(boot := RolledBack(w.boot, reason), place := Top, worker := None,
       tally := w.tally.(rollbacks := w.tally.rollbacks + 1))
  }

  function Off(w: World): World {
    w.(place := Down, worker := None, tally := if w.place.Trial? then w.tally.(cut := w.tally.cut + 1) else w.tally)
  }

  /** The boot state file as a torn save leaves it: unreadable. */
  function Torn(w: World): World { w.(boot := Load(None)) }

  /** A new copy in `slot`; `whole` if it is a bundle's that was not cut short. */
  function Copied(w: World, slot: string, script: bool, whole: bool): World {
    var id := w.tally.copies;
    var tally := if whole then w.tally.(vetted := w.tally.vetted + {id}, written := w.tally.written - {slot})
                 else w.tally.(written := w.tally.written + {slot});
    w.(slots := w.slots[slot := Content(id, script)], tally := tally.(copies := id + 1))
  }

  /** The slot on trial still holds what was launched. */
  predicate Intact(w: World) {
    w.place.Trial? && w.place.p.slot in w.slots && w.slots[w.place.p.slot] == w.place.held
  }

  /** The copy on trial has passed it. */
  function Passed(w: World): World
    requires w.place.Trial?
  {
    w.(tally := w.tally.(
      vetted := w.tally.vetted + {w.place.held.id},
      written := if Intact(w) then w.tally.written - {w.place.p.slot} else w.tally.written))
  }

  function Exit(w: World): World
    requires Alive(w)
  {
    if w.place.Trial? then RollBack(w, "process_exit")
    else if w.place.Running? then w.(place := if SwitchStaged(w.boot) then Switching else Stopped, worker := None)
    else w.(place := if w.boot.phase == PENDING_SWITCH then Top else Stopped, worker := None)
  }

  function Apply(w: World, e: Event): World
    requires Enabled(w, e)
  {
    match e
    case PowerOn(script) => (if NeedsSeed(w) then Copied(w, SLOT_A, script, true) else w).(place := Top)
    case TornSeed(script) => Copied(w, SLOT_A, script, false).(place := Down)
    case PowerLoss => Off(w)
    case TornSave(saving) => Torn(Off(if saving.Commit? then Passed(w) else w))
    case LaunchActive(v) => Launched(w, Running(Process(w.boot.active, Label(w.boot, v))))
    case LaunchPending(v) =>
      var l := Launched(w, Trial(Process(w.boot.pending, Label(w.boot, v)), w.boot.target, w.slots[w.boot.pending]));
      l.(tally := l.tally.(trials := l.tally.trials + 1))
    case WriteHealth(ready) => w.(health := Health(w.place.p.slot, w.place.p.version, ready, w.tally.launches))
    case StageBegin => w.(worker := Some(Inactive(w.boot)))
    case StageWrite(script) => Copied(w, w.worker.value, script, false)
    case StageMark(target) => w.(boot := Marked(w.boot, target), health := CLEARED, worker := None)
    case StageAbort => w.(worker := None)
    case ProcessExit => Exit(w)
    case TornExit => Exit(Torn(w))
    case TrialReady =>
      Passed(w).(boot := Committed(w.boot), place := Serving(w.place.p),
                 tally := Passed(w).tally.(commits := w.tally.commits + 1))
    case TrialTimeout => RollBack(w, "health_timeout")
  }

  // ---------------------------------------------------------------------
  // Runs

  function Steps(w: World, events: seq<Event>): Option<World> {
    if events == [] then Some(w)
    else
      match Steps(w, events[..|events| - 1])
      case None => None
      case Some(v) => if Enabled(v, events[|events| - 1]) then Some(Apply(v, events[|events| - 1])) else None
  }

  /** A possible history from the factory state. */
  ghost predicate Possible(events: seq<Event>) { Steps(FACTORY, events).Some? }

  ghost function After(events: seq<Event>): World
    requires Possible(events)
  {
    Steps(FACTORY, events).value
  }

  lemma {:induction false} PrefixPossible(events: seq<Event>, k: nat)
    requires Possible(events) && k <= |events|
    ensures Possible(events[..k])
    ensures k < |events| ==> Enabled(After(events[..k]), events[k]) && Possible(events[..k + 1])
                             && After(events[..k + 1]) == Apply(After(events[..k]), events[k])
  {
    var n := |events|;
    if k == n {
      assert events[..n] == events;
    } else {
      assert events[..n - 1][..k] == events[..k];
      PrefixPossible(events[..n - 1], k);
      if k < n - 1 {
        assert events[..n - 1][..k + 1] == events[..k + 1];
      } else {
        assert events[..k + 1] == events;
      }
    }
  }

  // ---------------------------------------------------------------------
  // What every run keeps

  /** Holds with or without torn saves, and with or without updates staged in a trial. */
  ghost predicate Orderly(w: World) {
    && Coherent(w.boot)
    && (w.boot.pending != "" ==> w.boot.target != "")
    && (w.worker.Some? ==> Alive(w) && IsSlot(w.worker.value))
    && (w.place.Switching? ==> SwitchStaged(w.boot))
    && (w.place.Running? || w.place.Serving? ==> w.place.p.slot == w.boot.active)
    && (w.place.Trial? ==>
          && SwitchStaged(w.boot) && w.place.p.slot == w.boot.pending
          && w.place.p.version == w.place.want != ""
          && (w.health.ready ==> w.health.writer == w.tally.launches
                                 && (w.health.slot, w.health.version) == (w.place.p.slot, w.place.want)))
    && w.tally.trials == w.tally.commits + w.tally.rollbacks + w.tally.cut + (if w.place.Trial? then 1 else 0)
  }

  /** The events that save the boot state, whether or not the save completes. */
  predicate Saves(e: Event) {
    e.TornSave? || e.StageMark? || e.TrialReady? || e.TrialTimeout? || e.ProcessExit? || e.TornExit?
  }

  lemma SaveKeepsOrder(w: World, e: Event)
    requires Orderly(w) && Enabled(w, e) && Saves(e)
    ensures Orderly(Apply(w, e))
  {
    TransitionsAreCoherent(w.boot, if e.StageMark? then e.target else "", "process_exit");
    TransitionsAreCoherent(w.boot, "", "health_timeout");
    TransitionsAreCoherent(DEFAULT, "", "process_exit");
  }

  lemma StepKeepsOrder(w: World, e: Event)
    requires Orderly(w) && Enabled(w, e)
    ensures Orderly(Apply(w, e))
  {
    if Saves(e) {
      SaveKeepsOrder(w, e);
    }
  }

  /** Main result: over every run, power losses at any point included, the boot state that
      is loaded stays coherent, and every trial launched ends in exactly one commit or one
      rollback unless it is still going or was cut off by a power loss. */
  lemma {:induction false} AlwaysOrderly(events: seq<Event>)
    requires Possible(events)
    ensures Orderly(After(events))
  {
    if events != [] {
      AlwaysOrderly(events[..|events| - 1]);
      StepKeepsOrder(After(events[..|events| - 1]), events[|events| - 1]);
    }
  }

  /** A launch starts the process it should: the active slot's, or the pending slot's on trial,
      told to report the target version if there is one and the slot's own if not. */
  lemma LaunchStarts(events: seq<Event>, k: nat)
    requires Possible(events) && k < |events| && (events[k].LaunchActive? || events[k].LaunchPending?)
    ensures Possible(events[..k]) && Possible(events[..k + 1])
    ensures var boot, w' := After(events[..k]).boot, After(events[..k + 1]);
            && Alive(w') && w'.boot == boot && w'.health == CLEARED
            && w'.place.Running? == events[k].LaunchActive?
            && w'.place.p.slot == (if events[k].LaunchActive? then boot.active else boot.pending)
            && w'.place.p.version == (if boot.target == "" then events[k].slotVersion else boot.target)
  {
    PrefixPossible(events, k);
  }

  /** A start seeds slot A with a new copy exactly if its start script is not there, and otherwise
      leaves the disk alone. */
  lemma StartSeeds(w: World, script: bool)
    requires Enabled(w, PowerOn(script))
    ensures var w' := Apply(w, PowerOn(script));
            && w'.place.Top? && w'.boot == w.boot
            && (SLOT_A in w.slots && w.slots[SLOT_A].runnable ==> w'.slots == w.slots && w'.tally == w.tally)
            && (SLOT_A !in w.slots || !w.slots[SLOT_A].runnable ==>
                  && w'.slots == w.slots[SLOT_A := Content(w.tally.copies, script)]
                  && w.tally.copies in w'.tally.vetted && SLOT_A !in w'.tally.written)
  {}

  /** An update goes to the slot that is not active: it writes just there, and the switch it
      stages is to that slot and to its version, with the active one to fall back on and no
      health report from before. */
  lemma UpdateStages(w: World, script: bool, target: string)
    requires IsSlot(w.boot.active)
    ensures var other := if w.boot.active == "slot_a" then "slot_b" else "slot_a";
            && (Enabled(w, StageBegin) ==> Apply(w, StageBegin) == w.(worker := Some(other)))
            && (w.worker == Some(other) ==>
                  && (Enabled(w, StageWrite(script)) ==>
                        && Apply(w, StageWrite(script)).slots == w.slots[other := Content(w.tally.copies, script)]
                        && w.tally.copies !in Apply(w, StageWrite(script)).tally.vetted - w.tally.vetted)
                  && (Enabled(w, StageMark(target)) ==>
                        Apply(w, StageMark(target)) == w.(
                          boot := Record(w.boot.active, other, w.boot.active, target, "pending_switch", ""),
                          health := Health("", "", false, 0), worker := None)))
  {}

  /** A trial is committed only on a ready report for the slot on trial and the version waited
      for. A committed trial leaves its process running; every other end leaves none. */
  lemma CommitNeedsReport(w: World)
    ensures Enabled(w, TrialReady)
        <==> w.place.Trial? && w.health.ready && w.health.slot == w.place.p.slot && w.health.version == w.place.want
    ensures Enabled(w, TrialReady) ==> Apply(w, TrialReady).place == Serving(w.place.p)
    ensures w.place.Trial? ==> Apply(w, TrialTimeout).place.Top? && Apply(w, TrialTimeout).worker.None?
  {}

  /** Where the bootloader goes when a process exits: to the trial of the switch that the active
      slot has staged, back to the top after a trial or when the slot committed last has
      staged one, and else to its end. */
  lemma ExitLeads(w: World)
    requires Alive(w)
    ensures var w' := Apply(w, ProcessExit);
            && w'.worker.None? && w'.slots == w.slots
            && (w.place.Trial? ==> w'.place.Top? && w'.boot.phase == "rolled_back")
            && (w.place.Running? && w.boot.phase == "pending_switch" && w.boot.pending != "" ==> w'.place.Switching?)
            && (w.place.Running? && (w.boot.phase != "pending_switch" || w.boot.pending == "") ==> w'.place.Stopped?)
            && (w.place.Serving? && w.boot.phase == "pending_switch" ==> w'.place.Top?)
            && (w.place.Serving? && w.boot.phase != "pending_switch" ==> w'.place.Stopped?)
            && (!w.place.Trial? ==> w'.boot == w.boot)
  {}

  predicate IsTorn(e: Event) { e.TornSave? || e.TornExit? }

  /** A commit rests on health written since the trial's own clear, by its own process, and
      makes the tried slot active; a torn save makes slot A active; any other end of a
      trial leaves the active slot. */
  lemma TrialEnds(events: seq<Event>, k: nat)
    requires Possible(events) && k < |events| && Possible(events[..k]) && After(events[..k]).place.Trial?
    ensures Possible(events[..k + 1])
    ensures var w, w' := After(events[..k]), After(events[..k + 1]);
            && (events[k].TrialReady? ==>
                  && w.health.writer == w.tally.launches
                  && w'.boot.active == w.place.p.slot && w'.boot.pending == "" && w'.boot.phase == "idle")
            && (IsTorn(events[k]) ==> w'.boot.active == SLOT_A && w'.boot.pending == "")
            && (!w'.place.Trial? && !events[k].TrialReady? && !IsTorn(events[k]) ==> w'.boot.active == w.boot.active)
  {
    PrefixPossible(events, k);
    AlwaysOrderly(events[..k]);
    AlwaysOrderly(events[..k + 1]);
  }

  /** A trial can be committed exactly when its own runtime has reported ready: the version
      it reports is the one it was told, so that the label decides nothing. */
  lemma TrialCommitsExactly(events: seq<Event>)
    requires Possible(events) && After(events).place.Trial?
    ensures Enabled(After(events), TrialReady) <==> After(events).health.ready
  {
    AlwaysOrderly(events);
  }

  // ---------------------------------------------------------------------
  // What was written, tried and seeded

  /** An update, or a start that was cut short, wrote to the slot. */
  predicate WritesTo(w: World, e: Event, slot: string) {
    (e.StageWrite? && w.worker == Some(slot)) || (e.TornSeed? && slot == SLOT_A)
  }

  /** The slot was seeded whole, or passed a trial without being written meanwhile. */
  predicate Vouches(w: World, e: Event, slot: string) {
    || (e.PowerOn? && NeedsSeed(w) && slot == SLOT_A)
    || ((e.TrialReady? || e == TornSave(Commit)) && Intact(w) && w.place.p.slot == slot)
  }

  /** Step k wrote to the slot, and nothing has vouched for it since. */
  ghost predicate LeftBy(events: seq<Event>, slot: string, k: int)
    requires Possible(events)
  {
    && 0 <= k < |events|
    && Possible(events[..k]) && WritesTo(After(events[..k]), events[k], slot)
    && forall j :: k < j < |events| && Possible(events[..j]) ==> !Vouches(After(events[..j]), events[j], slot)
  }

  lemma LeftExtends(events: seq<Event>, e: Event, slot: string, k: int)
    requires Possible(events) && Possible(events + [e]) && k < |events|
    ensures LeftBy(events + [e], slot, k) <==> LeftBy(events, slot, k) && !Vouches(After(events), e, slot)
  {
    var all := events + [e];
    assert all[..|events|] == events && all[|events|] == e;
    forall j | 0 <= j < |events|
      ensures all[..j] == events[..j] && all[j] == events[j]
    {}
  }

  /** The record of written slots says what the history says. */
  lemma {:induction false} WrittenMatchesHistory(events: seq<Event>, slot: string)
    requires Possible(events)
    ensures slot in After(events).tally.written <==> exists k :: LeftBy(events, slot, k)
  {
    if events != [] {
      var n := |events| - 1;
      var front, last := events[..n], events[n];
      assert events == front + [last];
      WrittenMatchesHistory(front, slot);
      forall k | k < n
        ensures LeftBy(events, slot, k) <==> LeftBy(front, slot, k) && !Vouches(After(front), last, slot)
      {
        LeftExtends(front, last, slot, k);
      }
      assert LeftBy(events, slot, n) <==> WritesTo(After(front), last, slot);
      WrittenStep(After(front), last, slot);
      assert forall k :: LeftBy(events, slot, k) ==> k < n || k == n;
    }
  }

  lemma WrittenStep(w: World, e: Event, slot: string)
    requires Enabled(w, e)
    ensures slot in Apply(w, e).tally.written
        <==> WritesTo(w, e, slot) || (slot in w.tally.written && !Vouches(w, e, slot))
  {}

  /** Copies are told apart, and a slot is unvetted exactly when it was written last. */
  ghost predicate Booked(w: World) {
    && (forall v :: v in w.tally.vetted ==> v < w.tally.copies)
    && (forall s :: s in w.slots ==> w.slots[s].id < w.tally.copies)
    && (forall s, t :: s in w.slots && t in w.slots && s != t ==> w.slots[s].id != w.slots[t].id)
    && (forall s :: s in w.slots ==> (s in w.tally.written <==> w.slots[s].id !in w.tally.vetted))
    && (w.place.Trial? ==>
          && w.place.held.id < w.tally.copies
          && forall s :: s in w.slots && w.slots[s].id == w.place.held.id ==> s == w.place.p.slot && Intact(w))
  }

  lemma CopyKeepsBooked(w: World, slot: string, script: bool, whole: bool)
    requires Booked(w)
    ensures Booked(Copied(w, slot, script, whole))
  {}

  /** A step that copies nothing, tries nothing and passes nothing. */
  lemma BooksUnchanged(w: World, w': World)
    requires Booked(w) && w'.slots == w.slots && (w'.place.Trial? ==> w'.place == w.place)
    requires w'.tally.copies == w.tally.copies && w'.tally.vetted == w.tally.vetted &&
        w'.tally.written == w.tally.written
    ensures Booked(w')
  {}

  lemma PassingKeepsBooked(w: World)
    requires Booked(w) && w.place.Trial?
    ensures Booked(Passed(w))
  {}

  lemma TrialKeepsBooked(w: World, v: string)
    requires Booked(w) && Enabled(w, LaunchPending(v))
    ensures Booked(Apply(w, LaunchPending(v)))
  {}

  lemma StepKeepsBooked(w: World, e: Event)
    requires Booked(w) && Enabled(w, e)
    ensures Booked(Apply(w, e))
  {
    var w' := Apply(w, e);
    match e {
      case PowerOn(script) =>
        CopyKeepsBooked(w, SLOT_A, script, true);
        BooksUnchanged(if NeedsSeed(w) then Copied(w, SLOT_A, script, true) else w, w');
      case TornSeed(script) =>
        CopyKeepsBooked(w, SLOT_A, script, false);
        BooksUnchanged(Copied(w, SLOT_A, script, false), w');
      case StageWrite(script) => CopyKeepsBooked(w, w.worker.value, script, false);
      case LaunchPending(v) => TrialKeepsBooked(w, v);
      case TrialReady =>
        PassingKeepsBooked(w);
        BooksUnchanged(Passed(w), w');
      case TornSave(Commit) =>
        PassingKeepsBooked(w);
        BooksUnchanged(Passed(w), w');
      case _ => BooksUnchanged(w, w');
    }
  }

  lemma {:induction false} AlwaysBooked(events: seq<Event>)
    requires Possible(events)
    ensures Booked(After(events))
  {
    if events != [] {
      AlwaysBooked(events[..|events| - 1]);
      StepKeepsBooked(After(events[..|events| - 1]), events[|events| - 1]);
    }
  }

  // ---------------------------------------------------------------------
  // What is launched

  /** The active slot holds a copy that was bootstrapped whole or passed a trial. */
  predicate ActiveVetted(w: World) {
    w.boot.active in w.slots && w.slots[w.boot.active].id in w.tally.vetted
  }

  /** The process that runs and is not on trial runs such a copy. */
  predicate RunsVetted(w: World) {
    && (w.place.Running? || w.place.Serving?)
    && w.place.p.slot in w.slots && w.slots[w.place.p.slot].id in w.tally.vetted
  }

  /** The guard: no runtime on trial starts an update, and a start that finds slot A active
      and its start script there finds it unwritten since it was seeded or tried. */
  predicate Careful(w: World, e: Event) {
    match e
    case StageBegin => !w.place.Trial?
    case PowerOn(_) => w.boot.active == SLOT_A && !NeedsSeed(w) ==> SLOT_A !in w.tally.written
    case _ => true
  }

  predicate AtRest(w: World) { w.place.Down? || w.place.Stopped? }

  /** While anything runs, the active slot is vetted. At rest, slot A may have become active
      unvetted, by a torn save or a cut start. Updates write to the inactive slot, and a
      trial runs what its slot still holds. */
  ghost predicate Vetted(w: World) {
    && (SLOT_A in w.slots || (w.place.Down? && w.boot == DEFAULT))
    && (SLOT_A in w.slots ==> ActiveVetted(w) || (AtRest(w) && w.boot.active == SLOT_A))
    && (w.boot.pending != "" ==> w.boot.pending in w.slots)
    && (w.worker.Some? ==> w.worker.value == Inactive(w.boot) && !w.place.Trial?)
    && (w.place.Trial? ==> Intact(w))
  }

  lemma CopyKeepsVetted(w: World, e: Event)
    requires Orderly(w) && Booked(w) && Vetted(w) && Enabled(w, e) && Careful(w, e)
    requires e.PowerOn? || e.TornSeed? || e.StageWrite?
    ensures Vetted(Apply(w, e))
  {}

  lemma SaveKeepsVetted(w: World, e: Event)
    requires Orderly(w) && Booked(w) && Vetted(w) && Enabled(w, e) && Saves(e)
    ensures Vetted(Apply(w, e))
  {
    TransitionsAreCoherent(w.boot, if e.StageMark? then e.target else "", "process_exit");
    TransitionsAreCoherent(w.boot, "", "health_timeout");
  }

  lemma StepKeepsVetted(w: World, e: Event)
    requires Orderly(w) && Booked(w) && Vetted(w) && Enabled(w, e) && Careful(w, e)
    ensures Vetted(Apply(w, e))
  {
    if e.PowerOn? || e.TornSeed? || e.StageWrite? {
      CopyKeepsVetted(w, e);
    } else if Saves(e) {
      SaveKeepsVetted(w, e);
    }
  }

  ghost predicate CarefulRun(events: seq<Event>) {
    forall k :: 0 <= k < |events| && Possible(events[..k]) ==> Careful(After(events[..k]), events[k])
  }

  lemma CarefulPrefix(events: seq<Event>, n: nat)
    requires CarefulRun(events) && n <= |events|
    ensures CarefulRun(events[..n])
  {
    forall k | 0 <= k < n && Possible(events[..n][..k])
      ensures Careful(After(events[..n][..k]), events[..n][k])
    {
      assert events[..n][..k] == events[..k];
    }
  }

  lemma {:induction false} AlwaysVetted(events: seq<Event>)
    requires Possible(events) && CarefulRun(events)
    ensures Vetted(After(events))
  {
    if events != [] {
      var n := |events| - 1;
      CarefulPrefix(events, n);
      AlwaysVetted(events[..n]);
      AlwaysOrderly(events[..n]);
      AlwaysBooked(events[..n]);
      StepKeepsVetted(After(events[..n]), events[n]);
    }
  }

  /** Main result: over every careful run, cut starts and torn saves included, whatever runs
      and is not on trial runs a copy that was bootstrapped whole or passed a trial. */
  lemma RunningIsVetted(events: seq<Event>)
    requires Possible(events) && CarefulRun(events)
    ensures After(events).place.Running? || After(events).place.Serving? ==> RunsVetted(After(events))
  {
    AlwaysOrderly(events);
    AlwaysVetted(events);
  }

  /** And so does every process that a launch of the active slot starts; every staging write
      goes to the inactive slot. */
  lemma LaunchesAreVetted(events: seq<Event>, k: nat)
    requires Possible(events) && CarefulRun(events) && k < |events|
    ensures Possible(events[..k]) && Possible(events[..k + 1])
    ensures events[k].LaunchActive? ==>
              && RunsVetted(After(events[..k + 1]))
              && After(events[..k + 1]).place.p.slot == After(events[..k]).boot.active
    ensures events[k].StageWrite? ==> After(events[..k]).worker == Some(Inactive(After(events[..k]).boot))
  {
    PrefixPossible(events, k);
    CarefulPrefix(events, k);
    CarefulPrefix(events, k + 1);
    AlwaysVetted(events[..k]);
    RunningIsVetted(events[..k + 1]);
  }

  // ---------------------------------------------------------------------
  // The guard is exact

  /** `rest` can happen from w on, every step of it careful. */
  predicate CarefulPath(w: World, rest: seq<Event>)
    decreases |rest|
  {
    rest == [] || (Enabled(w, rest[0]) && Careful(w, rest[0]) && CarefulPath(Apply(w, rest[0]), rest[1..]))
  }

  /** Along `rest`, every process that a launch of the active slot starts runs a vetted copy. */
  predicate VettedLaunches(w: World, rest: seq<Event>)
    decreases |rest|
  {
    rest == [] || !Enabled(w, rest[0])
    || ((rest[0].LaunchActive? ==> RunsVetted(Apply(w, rest[0]))) && VettedLaunches(Apply(w, rest[0]), rest[1..]))
  }

  /** Whatever careful steps follow, only vetted copies are launched as active. */
  ghost predicate SafeFrom(w: World) {
    forall rest :: CarefulPath(w, rest) ==> VettedLaunches(w, rest)
  }

  lemma {:induction false} VettedIsSafe(w: World, rest: seq<Event>)
    requires Orderly(w) && Booked(w) && Vetted(w) && CarefulPath(w, rest)
    ensures VettedLaunches(w, rest)
    decreases |rest|
  {
    if rest != [] {
      StepKeepsOrder(w, rest[0]);
      StepKeepsBooked(w, rest[0]);
      StepKeepsVetted(w, rest[0]);
      VettedIsSafe(Apply(w, rest[0]), rest[1..]);
    }
  }

  /** A careful path to the launch of a copy that was never vetted. */
  ghost predicate LeadsAstray(w: World, rest: seq<Event>) { CarefulPath(w, rest) && !VettedLaunches(w, rest) }

  lemma StepAstray(w: World, e: Event, rest: seq<Event>)
    requires Enabled(w, e) && Careful(w, e) && LeadsAstray(Apply(w, e), rest)
    ensures LeadsAstray(w, [e] + rest)
  {
    assert ([e] + rest)[1..] == rest;
  }

  lemma LaunchAstray(w: World)
    requires w.place.Top? && w.boot.active in w.slots && !ActiveVetted(w)
    ensures LeadsAstray(w, [LaunchActive("")])
  {
    assert [LaunchActive("")][1..] == [];
  }

  /** Once the tried slot is active, the update that its own trial began can still write to
      it and stage a switch; the outer loop then launches the active slot again. */
  lemma WorkerAstray(w: World)
    requires w.place.Serving? && Coherent(w.boot) && w.worker == Some(w.boot.active)
    requires forall v :: v in w.tally.vetted ==> v < w.tally.copies
    ensures exists rest :: LeadsAstray(w, rest)
  {
    hide LeadsAstray;
    TransitionsAreCoherent(w.boot, "v", "");
    var written := Apply(w, StageWrite(true));
    var marked := Apply(written, StageMark("v"));
    LaunchAstray(Apply(marked, ProcessExit));
    StepAstray(marked, ProcessExit, [LaunchActive("")]);
    StepAstray(written, StageMark("v"), [ProcessExit] + [LaunchActive("")]);
    StepAstray(w, StageWrite(true), [StageMark("v")] + ([ProcessExit] + [LaunchActive("")]));
  }

  /** A commit is safe exactly when the tried slot still holds what was launched, or another
      vetted copy; an update begun during the trial goes on in the now active slot. */
  lemma CommitIsSafeExactly(w: World)
    requires Orderly(w) && CanCommit(w) && w.place.p.slot in w.slots
    ensures var id, w' := w.slots[w.place.p.slot].id, Apply(w, TrialReady);
            && (ActiveVetted(w') <==> id == w.place.held.id || id in w.tally.vetted)
            && (w.worker == Some(w.place.p.slot) ==> w'.worker == Some(w'.boot.active))
  {
    TransitionsAreCoherent(w.boot, "", "");
  }

  lemma ReadyAstray(w: World)
    requires Orderly(w) && Booked(w) && CanCommit(w) && Intact(w) && w.worker == Some(w.place.p.slot)
    ensures exists rest :: LeadsAstray(Apply(w, TrialReady), rest)
  {
    CommitIsSafeExactly(w);
    StepKeepsOrder(w, TrialReady);
    StepKeepsBooked(w, TrialReady);
    WorkerAstray(Apply(w, TrialReady));
  }

  lemma StagingAstray(w: World)
    requires Orderly(w) && Booked(w) && Vetted(w) && w.place.Trial?
    ensures Enabled(w, StageBegin) && exists rest :: LeadsAstray(Apply(w, StageBegin), rest)
  {
    var staging := Apply(w, StageBegin);
    var ready := Apply(staging, WriteHealth(true));
    StepKeepsOrder(w, StageBegin);
    StepKeepsOrder(staging, WriteHealth(true));
    BooksUnchanged(w, ready);
    ReadyAstray(ready);
    var rest :| LeadsAstray(Apply(ready, TrialReady), rest);
    StepAstray(ready, TrialReady, rest);
    StepAstray(staging, WriteHealth(true), [TrialReady] + rest);
  }

  /** Main result: the guard is exact. After any careful run, a step leaves it certain that
      no unvetted copy is launched as active, as long as what follows is careful, if and
      only if the step itself is careful. */
  lemma GuardIsExact(events: seq<Event>, e: Event)
    requires Possible(events) && CarefulRun(events) && Enabled(After(events), e)
    ensures Careful(After(events), e) <==> SafeFrom(Apply(After(events), e))
  {
    var w := After(events);
    AlwaysOrderly(events);
    AlwaysBooked(events);
    AlwaysVetted(events);
    if Careful(w, e) {
      StepKeepsOrder(w, e);
      StepKeepsBooked(w, e);
      StepKeepsVetted(w, e);
      forall rest | CarefulPath(Apply(w, e), rest)
        ensures VettedLaunches(Apply(w, e), rest)
      {
        VettedIsSafe(Apply(w, e), rest);
      }
    } else if e.StageBegin? {
      StagingAstray(w);
    } else {
      LaunchAstray(Apply(w, e));
      assert LeadsAstray(Apply(w, e), [LaunchActive("")]);
    }
  }

  /** The guard on a start, in terms of the history: with slot A active, its script there
      and neither seeded nor tried since an update or a cut start wrote to it, the start is
      careless, and only then. */
  lemma CarelessStartExactly(events: seq<Event>, script: bool)
    requires Possible(events)
    ensures !Careful(After(events), PowerOn(script))
        <==> After(events).boot.active == SLOT_A && !NeedsSeed(After(events)) && exists k :: LeftBy(events, SLOT_A, k)
  {
    WrittenMatchesHistory(events, SLOT_A);
  }

  /** While slot A is the active one a torn save costs no more than the switch it was saving. */
  lemma TearIsHarmlessOnA(events: seq<Event>, e: Event, script: bool)
    requires Possible(events) && CarefulRun(events) && Enabled(After(events), e)
    requires IsTorn(e) && After(events).boot.active == SLOT_A
    ensures var w := Apply(After(events), e);
            Careful(w, PowerOn(script)) && ActiveVetted(w) && w.boot.active == SLOT_A
  {
    AlwaysOrderly(events);
    AlwaysBooked(events);
    AlwaysVetted(events);
    StepKeepsBooked(After(events), e);
  }

  // ---------------------------------------------------------------------
  // Runs that the guard excludes

  lemma StepsSnoc(events: seq<Event>, e: Event)
    requires Possible(events) && Enabled(After(events), e)
    ensures Possible(events + [e]) && After(events + [e]) == Apply(After(events), e)
  {
    assert (events + [e])[..|events|] == events;
  }

  lemma CarefulSnoc(events: seq<Event>, e: Event)
    requires Possible(events) && CarefulRun(events) && Enabled(After(events), e) && Careful(After(events), e)
    ensures CarefulRun(events + [e]) && Possible(events + [e]) && After(events + [e]) == Apply(After(events), e)
  {
    StepsSnoc(events, e);
    forall k | 0 <= k < |events| + 1 && Possible((events + [e])[..k])
      ensures Careful(After((events + [e])[..k]), (events + [e])[k])
    {
      assert (events + [e])[..k] == if k == |events| then events else events[..k];
    }
  }

  const OLD := Content(0, true)
  const NEW := Content(1, true)

  const STAGED_RUN: seq<Event> :=
    [PowerOn(true), LaunchActive("v1"), StageBegin, StageWrite(true), StageMark("v2"), ProcessExit]

  lemma StagedRun()
    ensures Possible(STAGED_RUN) && CarefulRun(STAGED_RUN)
    ensures After(STAGED_RUN) == World(
              Record(SLOT_A, SLOT_B, SLOT_A, "v2", PENDING_SWITCH, ""), CLEARED, map[SLOT_A := OLD, SLOT_B := NEW],
              Switching, None, Tally(1, 0, 0, 0, 0, 2, {0}, {SLOT_B}))
  {
    hide CarefulRun;
    var three := StagingRun();
    CarefulSnoc(three, STAGED_RUN[3]);
    CarefulSnoc(three + [STAGED_RUN[3]], STAGED_RUN[4]);
    CarefulSnoc(three + [STAGED_RUN[3]] + [STAGED_RUN[4]], STAGED_RUN[5]);
    assert three + [STAGED_RUN[3]] + [STAGED_RUN[4]] + [STAGED_RUN[5]] == STAGED_RUN;
  }

  lemma StagingRun() returns (events: seq<Event>)
    ensures events == STAGED_RUN[..3] && Possible(events) && CarefulRun(events)
    ensures After(events) == World(DEFAULT, CLEARED, map[SLOT_A := OLD], Running(Process(SLOT_A, "v1")), Some(SLOT_B),
                                   Tally(1, 0, 0, 0, 0, 1, {0}, {}))
  {
    CarefulSnoc([], STAGED_RUN[0]);
    CarefulSnoc([] + [STAGED_RUN[0]], STAGED_RUN[1]);
    CarefulSnoc([] + [STAGED_RUN[0]] + [STAGED_RUN[1]], STAGED_RUN[2]);
    events := [] + [STAGED_RUN[0]] + [STAGED_RUN[1]] + [STAGED_RUN[2]];
  }

  /** A careful run to a trial of slot B. */
  lemma TrialRun() returns (events: seq<Event>)
    ensures Possible(events) && CarefulRun(events)
    ensures var w := After(events);
            && w.place == Trial(Process(SLOT_B, "v2"), "v2", NEW) && w.worker.None?
            && w.boot == Record(SLOT_A, SLOT_B, SLOT_A, "v2", PENDING_SWITCH, "")
            && w.slots == map[SLOT_A := OLD, SLOT_B := NEW]
            && w.tally.vetted == {0} && w.tally.copies == 2 && w.tally.written == {SLOT_B}
  {
    StagedRun();
    CarefulSnoc(STAGED_RUN, LaunchPending("v2"));
    events := STAGED_RUN + [LaunchPending("v2")];
  }

  /** A careful run to a committed switch to slot B. */
  lemma SwitchedRun() returns (events: seq<Event>)
    ensures Possible(events) && CarefulRun(events)
    ensures var w := After(events);
            && w.place.Serving? && w.worker.None? && w.boot.active == SLOT_B
            && w.slots == map[SLOT_A := OLD, SLOT_B := NEW]
            && w.tally.vetted == {0, 1} && w.tally.copies == 2 && w.tally.written == {}
  {
    var trial := TrialRun();
    CarefulSnoc(trial, WriteHealth(true));
    CarefulSnoc(trial + [WriteHealth(true)], TrialReady);
    events := trial + [WriteHealth(true)] + [TrialReady];
  }

  /** A runtime on trial that stages another update overwrites its own slot, and is then
      committed with contents nobody tried. */
  lemma StagingOnTrialBreaksSafety()
    ensures exists events :: Possible(events) && After(events).place.Serving? && !ActiveVetted(After(events))
  {
    var trial := TrialRun();
    StepsSnoc(trial, StageBegin);
    StepsSnoc(trial + [StageBegin], StageWrite(true));
    var two := trial + [StageBegin] + [StageWrite(true)];
    StepsSnoc(two, WriteHealth(true));
    StepsSnoc(two + [WriteHealth(true)], TrialReady);
    assert !ActiveVetted(After(two + [WriteHealth(true)] + [TrialReady]));
  }

  /** A start that would launch an unvetted copy. */
  predicate BadStart(w: World) {
    && Enabled(w, PowerOn(true))
    && Enabled(Apply(w, PowerOn(true)), LaunchActive(""))
    && !RunsVetted(Apply(Apply(w, PowerOn(true)), LaunchActive("")))
  }

  /** With slot B active, power lost while an update of slot A is being marked leaves a file
      that loads as slot A active: the next start launches the new copy untried, though
      no update was ever begun in a trial. */
  lemma TornMarkBreaksSafety()
    ensures exists events :: Possible(events) && CarefulRun(events) && BadStart(After(events))
  {
    var switched := SwitchedRun();
    CarefulSnoc(switched, StageBegin);
    CarefulSnoc(switched + [StageBegin], StageWrite(true));
    var two := switched + [StageBegin] + [StageWrite(true)];
    CarefulSnoc(two, TornSave(Mark));
    assert BadStart(After(two + [TornSave(Mark)]));
  }

  /** Power lost in the very first start, after the scripts were copied: the next start takes
      the half copy for a whole one and launches it. */
  lemma TornSeedBreaksSafety()
    ensures Possible([TornSeed(true)]) && CarefulRun([TornSeed(true)]) && BadStart(After([TornSeed(true)]))
  {
    CarefulSnoc([], TornSeed(true));
    assert [] + [TornSeed(true)] == [TornSeed(true)];
  }
}
