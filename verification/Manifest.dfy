/** The manifest transaction: one change of the workspace manifest, spread over
    the ledger, the `workspace-current` file and a turn baseline file, tied
    together by the ledger's `manifest_pending` record.

    Models `_commit_locked`, `_recover_locked` and their helpers in
    core/provenance_manifest.py and `advance_turn_baseline` in
    core/provenance_store.py. Each file is replaced atomically, so a process can
    die only between two writes. `ManifestStore.trace` records the disk after
    every write; a crash leaves the disk in one of the recorded states.
  */
module Manifest {
  import opened Common
  import opened Snapshots
  import Attribution = PathAttribution
  import Covers
  import Reducer = LedgerReducer
  import Turns = LedgerTurns

  datatype BaselineKey = BaselineKey(agent: string, turnId: string)

  datatype BaselineStatus = Unset | Missing | Ready

  /** What the ledger notes about the baseline of an agent's turn. That it is
      degraded, and which paths it changed, stands in the reducer's turn. */
  datatype Note = Note(status: BaselineStatus, baselineId: Option<SnapshotId>)

  const BLANK := Note(Unset, None)

  /** A change event before it is numbered; `opening` is the note of a turn that
      it opens. */
  datatype Template = Template(
    agent: string, legacyIdentity: bool, turnId: Option<string>, time: int,
    change: Attribution.Change, paths: Covers.Change, opening: Note)

  /** A prepared change event: a template with its sequence number and the
      generation it will belong to. */
  datatype ChangeEvent = ChangeEvent(body: Template, seqNo: nat, generation: nat)

  /** The event as the reducer gets it once it is committed. */
  function Committable(e: ChangeEvent): Reducer.Event {
    var change := e.body.change.(agentKey := e.body.agent, seqNo := e.seqNo, generation := Some(e.generation));
    var paths := e.body.paths.(seqNo := e.seqNo, generation := e.generation);
    Reducer.Event(Reducer.ChangeEvent(change, paths, false), e.body.agent, e.body.legacyIdentity, e.body.turnId, e.seqNo, e.body.time)
  }

  datatype PendingBaseline = PendingBaseline(
    key: BaselineKey, before: SnapshotId, after: SnapshotId, candidates: set<string>)

  datatype Pending = Pending(
    baseGeneration: nat, targetGeneration: nat, before: SnapshotId, after: SnapshotId,
    events: seq<ChangeEvent>, baseline: Option<PendingBaseline>)

  /** One transition that became durable as pending, how it ended, and what the
      reducer's part of the ledger was `at` that moment. */
  datatype Attempt = Attempt(pending: Pending, committed: bool, at: Reducer.Ledger)

  /** `core` is the part the reducer keeps. `applied`, `attempts` and `deeds` are
      history: the committed events the reducer took, the transitions ended so far
      and all events that turns took. Nothing below reads them. */
  datatype Ledger = Ledger(
    core: Reducer.Ledger, snapshotId: Option<SnapshotId>, pending: Option<Pending>,
    notes: map<string, Note>, applied: seq<ChangeEvent>, attempts: seq<Attempt>, deeds: seq<Turns.Deed>)

  datatype BaselineFile = Readable(snapshot: Snapshot) | Unreadable

  datatype Disk = Disk(
    ledger: Ledger, current: Option<Snapshot>, baselines: map<BaselineKey, BaselineFile>)

  datatype BaselineUpdate = BaselineUpdate(
    key: BaselineKey, expected: SnapshotId, snapshot: Snapshot, candidates: set<string>)

  datatype Request = Request(
    generation: nat, expected: SnapshotId, snapshot: Snapshot, templates: seq<Template>,
    update: Option<BaselineUpdate>, required: Option<BaselineKey>)

  datatype Outcome =
    | Raised
    | Refused
    | Unchanged(generation: nat)
    | Committed(generation: nat, events: seq<ChangeEvent>)

  function Max(a: nat, b: nat): nat {
    if a < b then b else a
  }

  function IdOf(current: Option<Snapshot>): SnapshotId {
    if current.Some? then current.value.id else Unavailable
  }

  /** `load_turn_baseline`, with an unreadable file told apart from none. */
  function Loaded(baselines: map<BaselineKey, BaselineFile>, key: BaselineKey): Option<Snapshot> {
    if key in baselines && baselines[key].Readable? then Some(baselines[key].snapshot) else None
  }

  function BaselineIs(baselines: map<BaselineKey, BaselineFile>, key: BaselineKey, id: SnapshotId): bool {
    Loaded(baselines, key).Some? && Loaded(baselines, key).value.id == id
  }

  // ----- The transition, as a function of the disk --------------------------

  /** `_prepare_events`. */
  function Prepared(templates: seq<Template>, start: nat, generation: nat): (events: seq<ChangeEvent>)
    ensures |events| == |templates|
    ensures forall i | 0 <= i < |events| ::
      events[i] == ChangeEvent(templates[i], start + 1 + i, generation)
  {
    seq(|templates|, i requires 0 <= i < |templates| => ChangeEvent(templates[i], start + 1 + i, generation))
  }

  function NoteOf(l: Ledger, agent: string): Note {
    if agent in l.notes then l.notes[agent] else BLANK
  }

  predicate HasTurn(l: Ledger, key: BaselineKey) {
    key.agent in l.core.active && l.core.active[key.agent].turnId == key.turnId
  }

  predicate IsDegraded(l: Ledger, agent: string) {
    agent in l.core.active && l.core.active[agent].degraded
  }

  /** The reducer takes the committed event: no guard drops it. */
  predicate Takes(core: Reducer.Ledger, e: ChangeEvent) {
    Reducer.Reaches(core, Committable(e))
  }

  /** One committed change event, which the reducer takes or drops. */
  function ApplyCommitted(l: Ledger, e: ChangeEvent): Ledger {
    var event := Committable(e);
    var reduced := l.(core := Reducer.Applied(l.core, event));
    if !Takes(l.core, e) then reduced else
      var key := Reducer.TurnKey(l.core.active, event);
      var note :=
        if key in l.core.active && !Reducer.Collects(l.core, event, key) then NoteOf(l, key) else e.body.opening;
      reduced.(
        notes := l.notes[key := note], applied := l.applied + [e], deeds := l.deeds + Turns.DeedsOf(l.core, event))
  }

  function ApplyAll(l: Ledger, events: seq<ChangeEvent>): Ledger {
    if events == [] then l
    else ApplyCommitted(ApplyAll(l, events[..|events| - 1]), events[|events| - 1])
  }

  /** The ledger's own note of a turn's new baseline. */
  function BaselineNoted(l: Ledger, b: PendingBaseline): map<string, Note> {
    if HasTurn(l, b.key) && !IsDegraded(l, b.key.agent)
    then l.notes[b.key.agent := NoteOf(l, b.key.agent).(baselineId := Some(b.after), status := Ready)]
    else l.notes
  }

  /** `_finalize_locked`. */
  function Finalized(l: Ledger, p: Pending): Ledger {
    var done := ApplyAll(l, p.events);
    done.(
      core := done.core.(generation := p.targetGeneration),
      snapshotId := Some(p.after),
      notes := if p.baseline.Some? then BaselineNoted(done, p.baseline.value) else done.notes,
      pending := None,
      attempts := l.attempts + [Attempt(p, true, l.core)])
  }

  function RolledBack(l: Ledger, p: Pending): Ledger {
    l.(pending := None, attempts := l.attempts + [Attempt(p, false, l.core)])
  }

  /** `_degrade_pending_baseline`. */
  function DegradedLedger(l: Ledger, p: Pending): Ledger {
    if p.baseline.Some? && HasTurn(l, p.baseline.value.key) then
      var agent := p.baseline.value.key.agent;
      l.(core := l.core.(active := l.core.active[agent := l.core.active[agent].(degraded := true)]))
    else l
  }

  /** What `_restore_pending_baseline` does to the baseline file. */
  datatype Restoration = Nothing | Advance(file: Snapshot) | Lost

  function Restored(d: Disk, p: Pending): Restoration {
    if d.current.None? || p.baseline.None? then Nothing else
      var b := p.baseline.value;
      var file := Loaded(d.baselines, b.key);
      if file.Some? && file.value.id == b.after then Nothing
      else if file.None? || file.value.id != b.before then Lost
      else
        var merged := MergeBaseline(file.value, d.current.value, b.candidates);
        if merged.None? || merged.value.id != b.after || d.ledger.core.generation != p.baseGeneration then Lost
        else Advance(merged.value)
  }

  function WithBaseline(d: Disk, key: BaselineKey, s: Snapshot): Disk {
    d.(baselines := d.baselines[key := Readable(s)])
  }

  datatype Recovery = Recovery(writes: seq<Disk>, ok: bool)

  /** `_recover_locked`: the disk after each of its writes, and whether it
      returned or raised. */
  function Recover(d: Disk): Recovery {
    if d.ledger.pending.None? then Recovery([], true) else
      var p := d.ledger.pending.value;
      if IdOf(d.current) == p.after then
        match Restored(d, p)
        case Nothing => Recovery([d.(ledger := Finalized(d.ledger, p))], true)
        case Lost => Recovery([d.(ledger := Finalized(DegradedLedger(d.ledger, p), p))], true)
        case Advance(file) =>
          var advanced := WithBaseline(d, p.baseline.value.key, file);
          Recovery([advanced, advanced.(ledger := Finalized(d.ledger, p))], true)
      else if IdOf(d.current) == p.before then
        Recovery([d.(ledger := RolledBack(d.ledger, p))], true)
      else Recovery([], false)
  }

  lemma ForwardWrites(d: Disk, p: Pending)
    requires d.ledger.pending == Some(p) && IdOf(d.current) == p.after
    ensures Recover(d).ok
    ensures Recover(d).writes == match Restored(d, p)
      case Nothing => [d.(ledger := Finalized(d.ledger, p))]
      case Lost => [d.(ledger := Finalized(DegradedLedger(d.ledger, p), p))]
      case Advance(file) =>
        var advanced := WithBaseline(d, p.baseline.value.key, file);
        [advanced, advanced.(ledger := Finalized(d.ledger, p))]
  {
  }

  lemma ForwardEnds(d: Disk, p: Pending)
    requires d.ledger.pending == Some(p) && IdOf(d.current) == p.after
    ensures AfterAll(d, Recover(d).writes) == match Restored(d, p)
      case Nothing => d.(ledger := Finalized(d.ledger, p))
      case Lost => d.(ledger := Finalized(DegradedLedger(d.ledger, p), p))
      case Advance(file) => WithBaseline(d, p.baseline.value.key, file).(ledger := Finalized(d.ledger, p))
  {
    ForwardWrites(d, p);
  }

  lemma BackwardWrites(d: Disk, p: Pending)
    requires d.ledger.pending == Some(p) && IdOf(d.current) == p.before != p.after
    ensures Recover(d) == Recovery([d.(ledger := RolledBack(d.ledger, p))], true)
  {
  }

  /** The disk once the first `cut` of the writes are done. */
  function After(d: Disk, writes: seq<Disk>, cut: nat): Disk {
    if cut == 0 || writes == [] then d
    else if cut < |writes| then writes[cut - 1] else writes[|writes| - 1]
  }

  function AfterAll(d: Disk, writes: seq<Disk>): Disk {
    After(d, writes, |writes|)
  }

  const LEGACY_KEY := "default:default:default"

  /** `active_turn` for an event: the key of the turn it is taken to belong to.
      An event that names another turn than the active one belongs to none. */
  function ActiveFor(core: Reducer.Ledger, t: Template): Option<string> {
    if t.agent in core.active then
      if t.turnId.Some? && t.turnId.value != "" && core.active[t.agent].turnId != t.turnId.value then None
      else Some(t.agent)
    else if t.legacyIdentity && |core.active| == 1 && LEGACY_KEY in core.active then Some(LEGACY_KEY)
    else None
  }

  /** `_event_turn_is_current`; an event that belongs to no turn passes. */
  predicate EventTurnIsCurrent(d: Disk, t: Template) {
    match ActiveFor(d.ledger.core, t)
    case None => true
    case Some(key) =>
      var note := NoteOf(d.ledger, key);
      && key in d.ledger.core.active && Some(d.ledger.core.active[key].turnId) == t.turnId
      && !IsDegraded(d.ledger, key)
      && (note.status == Unset
          || (note.status == Ready && note.baselineId.Some?
              && (note.baselineId.value == Unavailable
                  || BaselineIs(d.baselines, BaselineKey(t.agent, t.turnId.value), note.baselineId.value))))
  }

  /** `_turn_binding_is_ready`. */
  predicate TurnIsReady(d: Disk, key: BaselineKey) {
    var note := NoteOf(d.ledger, key.agent);
    && HasTurn(d.ledger, key) && !IsDegraded(d.ledger, key.agent) && note.status == Ready
    && note.baselineId.Some? && note.baselineId.value != Unavailable
    && BaselineIs(d.baselines, key, note.baselineId.value)
  }

  predicate UpdateIsCurrent(d: Disk, u: BaselineUpdate) {
    && BaselineIs(d.baselines, u.key, u.expected)
    && (u.key.agent in d.ledger.core.active ==>
          var note := NoteOf(d.ledger, u.key.agent);
          && HasTurn(d.ledger, u.key) && !IsDegraded(d.ledger, u.key.agent)
          && note.status in {Unset, Ready}
          && note.baselineId == Some(u.expected)
          && u.candidates !! d.ledger.core.active[u.key.agent].work.revisions.Keys)
  }

  predicate Admitted(d: Disk, r: Request) {
    && d.ledger.core.generation == r.generation && IdOf(d.current) == r.expected
    && (r.required.Some? ==> TurnIsReady(d, r.required.value))
    && (forall t | t in r.templates :: EventTurnIsCurrent(d, t))
    && (r.update.Some? ==> UpdateIsCurrent(d, r.update.value))
  }

  predicate ChangesNothing(d: Disk, r: Request) {
    d.current == Some(r.snapshot)
    && (r.update.None? || r.update.value.snapshot.id == r.update.value.expected)
  }

  predicate Advances(d: Disk, r: Request) {
    d.current != Some(r.snapshot)
  }

  function PendingFor(d: Disk, r: Request): Pending {
    var target := if Advances(d, r) then r.generation + 1 else r.generation;
    Pending(
      r.generation, target, r.expected, r.snapshot.id,
      Prepared(r.templates, d.ledger.core.eventSeq, target),
      if r.update.None? then None else
        var u := r.update.value;
        Some(PendingBaseline(u.key, u.expected, u.snapshot.id, u.candidates)))
  }

  function LastSeq(events: seq<ChangeEvent>, start: nat): nat {
    if events == [] then start else Max(start, events[|events| - 1].seqNo)
  }

  function WithPending(l: Ledger, p: Pending): Ledger {
    l.(pending := Some(p), core := l.core.(eventSeq := LastSeq(p.events, l.core.eventSeq)))
  }

  // The four disks of a transition, in order. The second and third are skipped
  // when the manifest does not advance or no baseline is updated.

  function PendingSaved(d: Disk, r: Request): Disk {
    d.(ledger := WithPending(d.ledger, PendingFor(d, r)))
  }

  function CurrentSaved(d: Disk, r: Request): Disk {
    if Advances(d, r) then PendingSaved(d, r).(current := Some(r.snapshot)) else PendingSaved(d, r)
  }

  function BaselineSaved(d: Disk, r: Request): Disk {
    if r.update.Some? then WithBaseline(CurrentSaved(d, r), r.update.value.key, r.update.value.snapshot)
    else CurrentSaved(d, r)
  }

  function LedgerFinalized(d: Disk, r: Request): Disk {
    BaselineSaved(d, r).(ledger := Finalized(PendingSaved(d, r).ledger, PendingFor(d, r)))
  }

  function TransitionWrites(d: Disk, r: Request): seq<Disk> {
    [PendingSaved(d, r)]
    + (if Advances(d, r) then [CurrentSaved(d, r)] else [])
    + (if r.update.Some? then [BaselineSaved(d, r)] else [])
    + [LedgerFinalized(d, r)]
  }

  datatype Commit = Commit(writes: seq<Disk>, outcome: Outcome)

  /** `_commit_locked`. */
  function CommitOf(d: Disk, r: Request): Commit {
    var recovery := Recover(d);
    if !recovery.ok then Commit(recovery.writes, Raised) else
      var ready := AfterAll(d, recovery.writes);
      if !Admitted(ready, r) then Commit(recovery.writes, Refused)
      else if ChangesNothing(ready, r) then Commit(recovery.writes, Unchanged(r.generation))
      else
        var p := PendingFor(ready, r);
        Commit(recovery.writes + TransitionWrites(ready, r), Committed(p.targetGeneration, p.events))
  }

  lemma AfterConcat(d: Disk, first: seq<Disk>, second: seq<Disk>, cut: nat)
    ensures After(d, first + second, cut)
      == if cut <= |first| then After(d, first, cut) else After(AfterAll(d, first), second, cut - |first|)
  {
  }

  // ----- The store ----------------------------------------------------------

  class ManifestStore {
    var ledger: Ledger
    var current: Option<Snapshot>
    var baselines: map<BaselineKey, BaselineFile>
    ghost var trace: seq<Disk>

    ghost function Now(): Disk
      reads this
    {
      Disk(ledger, current, baselines)
    }

    method SaveLedger(l: Ledger)
      modifies this
      ensures Now() == old(Now()).(ledger := l)
      ensures trace == old(trace) + [Now()]
    {
      ledger := l;
      trace := trace + [Now()];
    }

    method SaveCurrent(s: Snapshot)
      modifies this
      ensures Now() == old(Now()).(current := Some(s))
      ensures trace == old(trace) + [Now()]
    {
      current := Some(s);
      trace := trace + [Now()];
    }

    method SaveBaseline(key: BaselineKey, s: Snapshot)
      modifies this
      ensures Now() == WithBaseline(old(Now()), key, s)
      ensures trace == old(trace) + [Now()]
    {
      baselines := baselines[key := Readable(s)];
      trace := trace + [Now()];
    }

    /** `advance_turn_baseline`: compare the generation and the stored id, then
        write. It reads the ledger from disk, not the caller's copy. */
    method AdvanceBaseline(key: BaselineKey, expected: SnapshotId, merged: Snapshot, generation: nat)
      returns (ok: bool)
      modifies this
      ensures ok <==> old(ledger).core.generation == generation && BaselineIs(old(baselines), key, expected)
      ensures ok ==> Now() == WithBaseline(old(Now()), key, merged) && trace == old(trace) + [Now()]
      ensures !ok ==> Now() == old(Now()) && trace == old(trace)
    {
      if ledger.core.generation != generation {
        return false;
      }
      var stored := Loaded(baselines, key);
      if stored.None? || stored.value.id != expected {
        return false;
      }
      SaveBaseline(key, merged);
      return true;
    }

    /** `_restore_pending_baseline`; false stands for the raised store error. */
    method RestorePendingBaseline(p: Pending) returns (ok: bool)
      modifies this
      ensures ok <==> !Restored(old(Now()), p).Lost?
      ensures match Restored(old(Now()), p)
        case Advance(file) =>
          Now() == WithBaseline(old(Now()), p.baseline.value.key, file) && trace == old(trace) + [Now()]
        case _ => Now() == old(Now()) && trace == old(trace)
    {
      if current.None? || p.baseline.None? {
        return true;
      }
      var b := p.baseline.value;
      var file := Loaded(baselines, b.key);
      if file.Some? && file.value.id == b.after {
        return true;
      }
      if file.None? || file.value.id != b.before {
        return false;
      }
      var merged := MergeTurnBaseline(file.value, current.value, b.candidates);
      if merged.None? || merged.value.id != b.after {
        return false;
      }
      ok := AdvanceBaseline(b.key, b.before, merged.value, p.baseGeneration);
    }

    /** `_finalize_locked` on the caller's copy of the ledger. */
    method FinalizeLedger(l: Ledger, p: Pending) returns (r: Ledger)
      ensures r == Finalized(l, p)
    {
      r := l;
      for n := 0 to |p.events|
        invariant r == ApplyAll(l, p.events[..n])
      {
        assert p.events[..n + 1][..n] == p.events[..n];
        r := ApplyCommitted(r, p.events[n]);
      }
      assert p.events[..|p.events|] == p.events;
      r := r.(core := r.core.(generation := p.targetGeneration), snapshotId := Some(p.after));
      if p.baseline.Some? {
        var b := p.baseline.value;
        if HasTurn(r, b.key) && !IsDegraded(r, b.key.agent) {
          var note := NoteOf(r, b.key.agent).(baselineId := Some(b.after), status := Ready);
          r := r.(notes := r.notes[b.key.agent := note]);
        }
      }
      r := r.(pending := None, attempts := l.attempts + [Attempt(p, true, l.core)]);
    }

    method RecoverLocked() returns (ok: bool)
      modifies this
      ensures ok == Recover(old(Now())).ok
      ensures Now() == AfterAll(old(Now()), Recover(old(Now())).writes)
      ensures trace == old(trace) + Recover(old(Now())).writes
    {
      if ledger.pending.None? {
        return true;
      }
      var p := ledger.pending.value;
      if IdOf(current) == p.after {
        RollForward(p);
        return true;
      }
      if IdOf(current) == p.before {
        SaveLedger(RolledBack(ledger, p));
        return true;
      }
      return false;
    }

    /** The first branch of `_recover_locked`. */
    method RollForward(p: Pending)
      requires ledger.pending == Some(p) && IdOf(current) == p.after
      modifies this
      ensures Now() == AfterAll(old(Now()), Recover(old(Now())).writes)
      ensures trace == old(trace) + Recover(old(Now())).writes
    {
      ForwardWrites(Disk(ledger, current, baselines), p);
      ForwardEnds(Disk(ledger, current, baselines), p);
      var working := ledger;
      var restored := RestorePendingBaseline(p);
      if !restored {
        working := DegradedLedger(working, p);
      }
      working := FinalizeLedger(working, p);
      SaveLedger(working);
    }

    method CommitLocked(r: Request) returns (outcome: Outcome)
      modifies this
      ensures outcome == CommitOf(old(Now()), r).outcome
      ensures Now() == AfterAll(old(Now()), CommitOf(old(Now()), r).writes)
      ensures trace == old(trace) + CommitOf(old(Now()), r).writes
    {
      var recovered := RecoverLocked();
      if !recovered {
        return Raised;
      }
      if !Admitted(Disk(ledger, current, baselines), r) {
        return Refused;
      }
      if ChangesNothing(Disk(ledger, current, baselines), r) {
        return Unchanged(r.generation);
      }
      outcome := RunTransition(r);
    }

    /** The writes of `_commit_locked` proper, once the request is admitted. */
    method RunTransition(r: Request) returns (outcome: Outcome)
      requires Admitted(Now(), r)
      modifies this
      ensures var p := PendingFor(old(Now()), r); outcome == Committed(p.targetGeneration, p.events)
      ensures Now() == LedgerFinalized(old(Now()), r)
      ensures trace == old(trace) + TransitionWrites(old(Now()), r)
    {
      var advances := current != Some(r.snapshot);
      var p := PendingFor(Disk(ledger, current, baselines), r);
      var working := WithPending(ledger, p);
      SaveLedger(working);
      if advances {
        SaveCurrent(r.snapshot);
      }
      if r.update.Some? {
        var u := r.update.value;
        var advanced := AdvanceBaseline(u.key, u.expected, u.snapshot, r.generation);
        if !advanced {
          assert false;
          return Raised;
        }
      }
      working := FinalizeLedger(working, p);
      SaveLedger(working);
      outcome := Committed(p.targetGeneration, p.events);
    }
  }
}
