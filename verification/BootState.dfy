/** The persisted boot state of the two runtime slots, and the health file's verdict. */
module BootState {
  import opened Wrappers

  const SLOT_A := "slot_a"
  const SLOT_B := "slot_b"
  const PENDING_SWITCH := "pending_switch"

  /** The JSON record; any string may be on disk. */
  datatype Record = Record(active: string, pending: string, previous: string, target: string, phase: string,
                           reason: string)

  const DEFAULT := Record(SLOT_A, "", "", "", "idle", "")

  predicate IsSlot(s: string) { s == SLOT_A || s == SLOT_B }

  function Normalize(r: Record): Record {
    Record(if IsSlot(r.active) then r.active else SLOT_A,
           if IsSlot(r.pending) then r.pending else "",
           if IsSlot(r.previous) then r.previous else "",
           r.target,
           if r.phase == "" then "idle" else r.phase,
           r.reason)
  }

  /** None: the file is missing or unreadable. */
  function Load(file: Option<Record>): Record {
    match file case None => DEFAULT case Some(r) => Normalize(r)
  }

  /** The slot that is not active. */
  function Inactive(r: Record): string { if r.active == SLOT_A then SLOT_B else SLOT_A }

  function Marked(r: Record, target: string): Record {
    Normalize(Record(r.active, Inactive(r), r.active, target, PENDING_SWITCH, ""))
  }

  function Committed(r: Record): Record {
    Normalize(r.(active := if r.pending != "" then r.pending else r.active,
                 pending := "", previous := "", phase := "idle", reason := ""))
  }

  function RolledBack(r: Record, reason: string): Record {
    Normalize(r.(active := if r.previous != "" then r.previous else r.active,
                 pending := "", previous := "", phase := "rolled_back",
                 reason := if reason == "" then "rollback" else reason))
  }

  /** A switch is pending exactly in the pending phase, and then to the other slot, with
      the active one to fall back on. */
  ghost predicate Coherent(r: Record) {
    && IsSlot(r.active)
    && (r.phase == PENDING_SWITCH <==> r.pending != "")
    && (r.pending != "" ==> r.pending == Inactive(r) && r.previous == r.active)
    && (r.pending == "" ==> r.previous == "")
    && r.phase != ""
  }

  /** Any file at all loads as usable slots, and loading what was saved changes nothing. */
  lemma NormalizeIsStable(r: Record)
    ensures Normalize(Normalize(r)) == Normalize(r)
    ensures IsSlot(Normalize(r).active)
    ensures Coherent(r) ==> Normalize(r) == r
  {}

  /** Loading repairs what it must and keeps the rest: a slot that is none becomes slot A if it
      was to be active, and no slot otherwise; a file that cannot be read is slot A active and
      nothing pending. */
  lemma LoadRepairs(r: Record)
    ensures var n := Load(Some(r));
            && n.active == (if r.active == "slot_b" then "slot_b" else "slot_a")
            && (n.pending == r.pending || (n.pending == "" && r.pending != "slot_a" && r.pending != "slot_b"))
            && (n.previous == r.previous || (n.previous == "" && r.previous != "slot_a" && r.previous != "slot_b"))
            && IsSlot(r.pending) == (n.pending != "") && IsSlot(r.previous) == (n.previous != "")
            && n.target == r.target && n.reason == r.reason
            && (r.phase != "" ==> n.phase == r.phase) && (r.phase == "" ==> n.phase == "idle")
    ensures Load(None).active == "slot_a" && Load(None).pending == "" && Load(None).phase == "idle"
  {}

  /** The transitions keep the state coherent; a commit lands on the slot that was
      pending, a rollback on the one that was active, and a rollback undoes a mark. */
  lemma TransitionsAreCoherent(r: Record, target: string, reason: string)
    requires Coherent(r)
    ensures Coherent(Marked(r, target)) && Coherent(Committed(r)) && Coherent(RolledBack(r, reason))
    ensures Marked(r, target).active == r.active && Marked(r, target).pending == Inactive(r)
    ensures Committed(r).active == if r.pending != "" then r.pending else r.active
    ensures RolledBack(r, reason).active == r.active && RolledBack(r, reason).pending == ""
    ensures RolledBack(r, reason).reason != "" && (reason != "" ==> RolledBack(r, reason).reason == reason)
    ensures Marked(r, target).target == target && Committed(r).target == RolledBack(r, reason).target == r.target
    ensures Committed(Marked(r, target)).active == Inactive(r)
    ensures RolledBack(Marked(r, target), reason).active == r.active
  {}

  class GatewayBootStateStore {
    var file: Option<Record>

    constructor ()
      ensures file == None
    {
      file := None;
    }

    /** Unless the write completes, what is left of the file cannot be read. */
    method Save(r: Record, completes: bool) returns (saved: Record)
      modifies this
      ensures saved == Normalize(r)
      ensures file == if completes then Some(saved) else None
    {
      file := None;
      saved := Normalize(r);
      if completes {
        file := Some(saved);
      }
    }

    method MarkPendingSwitch(target: string, completes: bool) returns (saved: Record)
      modifies this
      ensures saved == Marked(Load(old(file)), target)
      ensures Load(file) == if completes then saved else DEFAULT
    {
      var state := Load(file);
      var activeSlot := state.active;
      var pendingSlot := Inactive(state);
      state := state.(active := activeSlot, pending := pendingSlot, previous := activeSlot,
                      target := target, phase := PENDING_SWITCH, reason := "");
      saved := Save(state, completes);
    }

    method CommitPending(completes: bool) returns (saved: Record)
      modifies this
      ensures saved == Committed(Load(old(file)))
      ensures Load(file) == if completes then saved else DEFAULT
    {
      var state := Load(file);
      if state.pending != "" {
        state := state.(active := state.pending);
      }
      state := state.(pending := "", previous := "", phase := "idle", reason := "");
      saved := Save(state, completes);
    }

    method RollbackPending(reason: string, completes: bool) returns (saved: Record)
      modifies this
      ensures saved == RolledBack(Load(old(file)), reason)
      ensures Load(file) == if completes then saved else DEFAULT
    {
      var state := Load(file);
      var previousSlot := if state.previous != "" then state.previous else state.active;
      state := state.(active := previousSlot, pending := "", previous := "", phase := "rolled_back",
                      reason := if reason == "" then "rollback" else reason);
      saved := Save(state, completes);
    }
  }

  /** The health file. `writer` is the number of the launch whose process wrote it, 0 for
      a cleared file; the program does not keep it. */
  datatype Health = Health(slot: string, version: string, ready: bool, writer: nat)

  const CLEARED := Health("", "", false, 0)

  predicate HealthReady(h: Health, slot: string, version: string) {
    h.ready && h.slot == slot && h.version == version
  }
}
