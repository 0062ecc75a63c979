/** Whole runs of the manifest store: commits and recoveries that may die after
    any write, ordinary ledger events in between, and baseline files that are
    deleted or damaged from outside.
  */
module ManifestRuns {
  import opened Common
  import opened Snapshots
  import opened Manifest
  import Reducer = LedgerReducer
  import Turns = LedgerTurns

  /** `cut` is the number of writes done before the process died; any number at
      or past the last write is an undisturbed call. `EventStep` is an event
      recorded outside a transaction; what it does to the notes of the turns is
      free. */
  datatype Step =
    | CommitStep(request: Request, cut: nat)
    | RecoverStep(cut: nat)
    | EventStep(event: Reducer.Event, notes: map<string, Note>, degraded: set<string>)
    | MaintainStep(close: seq<string>, retire: seq<string>)
    | LoseStep(key: BaselineKey, deleted: bool)

  /** An event with the next sequence number. */
  function Numbering(core: Reducer.Ledger, e: Reducer.Event): Reducer.Event {
    e.(seqNo := core.eventSeq + 1)
  }

  function Outside(l: Ledger, e: Reducer.Event, notes: map<string, Note>, degraded: set<string>): Ledger {
    var core := Reducer.Applied(l.core, Numbering(l.core, e));
    l.(deeds := l.deeds + Turns.DeedsOf(l.core, Numbering(l.core, e)), core := core.(active := map k | k in core.active :: core.active[k].(degraded := k in degraded)), notes := notes)
  }

  function Next(d: Disk, s: Step): Disk {
    match s
    case CommitStep(r, cut) => After(d, CommitOf(d, r).writes, cut)
    case RecoverStep(cut) => After(d, Recover(d).writes, cut)
    case EventStep(event, notes, degraded) => d.(ledger := Outside(d.ledger, event, notes, degraded))
    case MaintainStep(close, retire) =>
      d.(ledger := d.ledger.(core := Reducer.Maintained(d.ledger.core, close, retire)))
    case LoseStep(key, deleted) =>
      d.(baselines := if deleted then d.baselines - {key} else d.baselines[key := Unreadable])
  }

  function RunFrom(d: Disk, steps: seq<Step>): Disk {
    if steps == [] then d else Next(RunFrom(d, steps[..|steps| - 1]), steps[|steps| - 1])
  }

  // ----- What callers owe ---------------------------------------------------

  /** An update carries the merge of the stored baseline with the snapshot being
      committed, and a snapshot with the stored id was scanned under the stored
      scope. */
  ghost predicate WellMade(d: Disk, r: Request) {
    && Genuine(r.snapshot)
    && (d.current.Some? && d.current.value.id == r.snapshot.id ==> d.current.value.scope == r.snapshot.scope)
    && (r.update.Some? && Loaded(d.baselines, r.update.value.key).Some? ==>
          MergeBaseline(Loaded(d.baselines, r.update.value.key).value, r.snapshot, r.update.value.candidates)
          == Some(r.update.value.snapshot))
  }

  /** An ordinary change event that runs ahead of the ledger's generation. */
  predicate RunsAhead(d: Disk, s: Step) {
    s.EventStep? && Reducer.Raises(d.ledger.core, Numbering(d.ledger.core, s.event))
  }

  ghost predicate Allowed(d: Disk, s: Step) {
    && !RunsAhead(d, s)
    && (s.CommitStep? ==> WellMade(AfterAll(d, Recover(d).writes), s.request))
  }

  ghost predicate AllowedRun(d: Disk, steps: seq<Step>) {
    forall n | 0 <= n < |steps| :: Allowed(RunFrom(d, steps[..n]), steps[n])
  }

  // ----- The invariant ------------------------------------------------------

  /** A manifest position: the generation and the id of `workspace-current`. */
  datatype Position = Position(generation: nat, id: SnapshotId)

  /** Attempts form one chain: each starts where the committed ones before it
      ended, and a commit raises the generation by one or, when only a baseline
      moved, leaves both coordinates alone. */
  ghost predicate Chained(origin: Position, attempts: seq<Attempt>, end: Position) {
    if attempts == [] then end == origin else
      var last := attempts[|attempts| - 1];
      && Transition(last.pending)
      && Chained(origin, attempts[..|attempts| - 1], StartOf(last.pending))
      && end == if last.committed then EndOf(last.pending) else StartOf(last.pending)
  }

  function StartOf(p: Pending): Position {
    Position(p.baseGeneration, p.before)
  }

  function EndOf(p: Pending): Position {
    Position(p.targetGeneration, p.after)
  }

  ghost predicate Transition(p: Pending) {
    || p.targetGeneration == p.baseGeneration + 1
    || (p.targetGeneration == p.baseGeneration && p.before == p.after)
  }

  /** The reducer's part of the ledger after the committed events. */
  function CoreAfter(core: Reducer.Ledger, events: seq<ChangeEvent>): Reducer.Ledger {
    if events == [] then core
    else Reducer.Applied(CoreAfter(core, events[..|events| - 1]), Committable(events[|events| - 1]))
  }

  /** Those of the committed events that the reducer takes, one after the other. */
  function TakenFrom(core: Reducer.Ledger, events: seq<ChangeEvent>): seq<ChangeEvent> {
    if events == [] then [] else
      var init, last := events[..|events| - 1], events[|events| - 1];
      TakenFrom(core, init) + if Takes(CoreAfter(core, init), last) then [last] else []
  }

  /** The events that the reducer took from the committed attempts. */
  function TakenEvents(attempts: seq<Attempt>): seq<ChangeEvent> {
    if attempts == [] then [] else
      var last := attempts[|attempts| - 1];
      TakenEvents(attempts[..|attempts| - 1]) + if last.committed then TakenFrom(last.at, last.pending.events) else []
  }

  /** When it was finalized, the ledger was not ahead of the transition. */
  ghost predicate InOrder(a: Attempt) {
    && (forall e | e in a.pending.events :: e.generation == a.pending.targetGeneration)
    && (a.committed ==> a.at.generation <= a.pending.targetGeneration)
  }

  /** The events of every attempt, committed or rolled back. */
  function AllEvents(attempts: seq<Attempt>): seq<ChangeEvent> {
    if attempts == [] then []
    else AllEvents(attempts[..|attempts| - 1]) + attempts[|attempts| - 1].pending.events
  }

  /** Sequence numbers strictly increase and stay within the ledger's counter. */
  ghost predicate Numbered(events: seq<ChangeEvent>, upTo: nat) {
    && (forall i, j | 0 <= i < j < |events| :: events[i].seqNo < events[j].seqNo)
    && (forall i | 0 <= i < |events| :: events[i].seqNo <= upTo)
  }

  ghost predicate Sound(d: Disk) {
    && (d.current.Some? ==> Genuine(d.current.value))
    && (forall key | key in d.baselines && d.baselines[key].Readable? :: Genuine(d.baselines[key].snapshot))
  }

  /** The baseline file of a pending transition is the old one, the new one or
      lost; the new one only once `workspace-current` is new; and the old one can
      still be turned into the new one. */
  ghost predicate BaselineInStep(d: Disk, b: PendingBaseline, after: SnapshotId) {
    var file := Loaded(d.baselines, b.key);
    file.Some? ==>
      if IdOf(d.current) == after then
        file.value.id == b.after
        || (file.value.id == b.before
            && d.current.Some?
            && MergeBaseline(file.value, d.current.value, b.candidates).Some?
            && MergeBaseline(file.value, d.current.value, b.candidates).value.id == b.after)
      else file.value.id == b.before
  }

  ghost predicate PendingInStep(d: Disk, p: Pending) {
    && Transition(p)
    && p.baseGeneration == d.ledger.core.generation && p.after.ContentId?
    && IdOf(d.current) in {p.before, p.after}
    && (forall e | e in p.events :: e.generation == p.targetGeneration)
    && (p.baseline.Some? ==> BaselineInStep(d, p.baseline.value, p.after))
  }

  ghost predicate Inv(origin: Position, d: Disk) {
    && Sound(d)
    && d.ledger.applied == TakenEvents(d.ledger.attempts)
    && (forall a | a in d.ledger.attempts :: InOrder(a))
    && match d.ledger.pending {
         case None =>
           && Chained(origin, d.ledger.attempts, Position(d.ledger.core.generation, IdOf(d.current)))
           && Numbered(AllEvents(d.ledger.attempts), d.ledger.core.eventSeq)
         case Some(p) =>
           && PendingInStep(d, p)
           && Chained(origin, d.ledger.attempts, StartOf(p))
           && Numbered(AllEvents(d.ledger.attempts) + p.events, d.ledger.core.eventSeq)
       }
  }

  /** Every store at rest is the origin of its own history. */
  lemma AtRestInv(d: Disk)
    requires Sound(d) && d.ledger.pending.None? && d.ledger.attempts == [] && d.ledger.applied == []
    ensures Inv(Position(d.ledger.core.generation, IdOf(d.current)), d)
  {
  }

  // ----- Finalizing and rolling back ----------------------------------------

  /** The reducer took what it takes of the events, whose generation is `target`. */
  ghost predicate TookAll(l: Ledger, events: seq<ChangeEvent>, target: nat, r: Ledger) {
    && r.core == CoreAfter(l.core, events) && r.core.generation <= target && l.core.eventSeq <= r.core.eventSeq
    && r.applied == l.applied + TakenFrom(l.core, events)
    && r.attempts == l.attempts && r.pending == l.pending
  }

  lemma TookOneMore(l: Ledger, init: seq<ChangeEvent>, e: ChangeEvent, target: nat, m: Ledger)
    requires e.generation == target && TookAll(l, init, target, m)
    ensures TookAll(l, init + [e], target, ApplyCommitted(m, e))
  {
    Reducer.AppliedCounters(m.core, Committable(e));
    assert (init + [e])[..|init|] == init;
  }

  lemma {:induction false} ApplyAllEffect(l: Ledger, events: seq<ChangeEvent>, target: nat)
    requires forall e | e in events :: e.generation == target
    requires l.core.generation <= target
    ensures TookAll(l, events, target, ApplyAll(l, events))
  {
    if events != [] {
      var init, last := events[..|events| - 1], events[|events| - 1];
      ApplyAllEffect(l, init, target);
      TookOneMore(l, init, last, target, ApplyAll(l, init));
      assert events == init + [last];
    }
  }

  lemma NumberedSplit(attempts: seq<Attempt>, a: Attempt)
    ensures AllEvents(attempts + [a]) == AllEvents(attempts) + a.pending.events
    ensures TakenEvents(attempts + [a])
      == TakenEvents(attempts) + if a.committed then TakenFrom(a.at, a.pending.events) else []
  {
    assert (attempts + [a])[..|attempts|] == attempts;
  }

  lemma ChainedEnds(origin: Position, attempts: seq<Attempt>, a: Attempt)
    requires Transition(a.pending) && Chained(origin, attempts, StartOf(a.pending))
    ensures Chained(origin, attempts + [a], if a.committed then EndOf(a.pending) else StartOf(a.pending))
  {
    assert (attempts + [a])[..|attempts|] == attempts;
  }

  /** Finalizing a pending transition whose `workspace-current` is new, after the
      baseline was dealt with, reaches the next position of the chain. */
  lemma FinalizeKeepsInv(origin: Position, d: Disk, l: Ledger, p: Pending)
    requires Sound(d) && PendingInStep(d, p) && IdOf(d.current) == p.after
    requires l.(core := d.ledger.core) == d.ledger
    requires l.core.(active := d.ledger.core.active) == d.ledger.core
    requires d.ledger.pending == Some(p) && Inv(origin, d)
    ensures Inv(origin, d.(ledger := Finalized(l, p)))
  {
    var done := Finalized(l, p);
    ApplyAllEffect(l, p.events, p.targetGeneration);
    var ended := Attempt(p, true, l.core);
    NumberedSplit(l.attempts, ended);
    ChainedEnds(origin, l.attempts, ended);
    assert done.attempts == l.attempts + [ended];
    assert Position(done.core.generation, IdOf(d.current)) == EndOf(p);
  }

  lemma RollBackKeepsInv(origin: Position, d: Disk)
    requires Inv(origin, d) && d.ledger.pending.Some?
    requires IdOf(d.current) == d.ledger.pending.value.before
    ensures Inv(origin, d.(ledger := RolledBack(d.ledger, d.ledger.pending.value)))
  {
    var ended := Attempt(d.ledger.pending.value, false, d.ledger.core);
    NumberedSplit(d.ledger.attempts, ended);
    ChainedEnds(origin, d.ledger.attempts, ended);
  }

  /** Restoring the baseline keeps the transition in step. */
  lemma RestoreKeepsInv(origin: Position, d: Disk)
    requires Inv(origin, d) && d.ledger.pending.Some?
    requires IdOf(d.current) == d.ledger.pending.value.after
    requires Restored(d, d.ledger.pending.value).Advance?
    ensures var p := d.ledger.pending.value;
      Inv(origin, WithBaseline(d, p.baseline.value.key, Restored(d, p).file))
  {
    var p := d.ledger.pending.value;
    var b := p.baseline.value;
    MergeBaselineIndex(Loaded(d.baselines, b.key).value, d.current.value, b.candidates);
  }

  /** Rolling forward, in the three ways the baseline may be found. */
  lemma RollForwardKeepsInv(origin: Position, d: Disk)
    requires Inv(origin, d) && d.ledger.pending.Some?
    requires IdOf(d.current) == d.ledger.pending.value.after
    ensures var p := d.ledger.pending.value;
      match Restored(d, p)
      case Nothing => Inv(origin, d.(ledger := Finalized(d.ledger, p)))
      case Lost => Inv(origin, d.(ledger := Finalized(DegradedLedger(d.ledger, p), p)))
      case Advance(file) =>
        var advanced := WithBaseline(d, p.baseline.value.key, file);
        Inv(origin, advanced) && Inv(origin, advanced.(ledger := Finalized(d.ledger, p)))
  {
    var p := d.ledger.pending.value;
    match Restored(d, p) {
      case Nothing => FinalizeKeepsInv(origin, d, d.ledger, p);
      case Lost => FinalizeKeepsInv(origin, d, DegradedLedger(d.ledger, p), p);
      case Advance(file) =>
        RestoreKeepsInv(origin, d);
        FinalizeKeepsInv(origin, WithBaseline(d, p.baseline.value.key, file), d.ledger, p);
    }
  }

  lemma RecoverWritesKeepInv(origin: Position, d: Disk)
    requires Inv(origin, d)
    ensures Recover(d).ok
    ensures forall w | w in Recover(d).writes :: Inv(origin, w)
  {
    if d.ledger.pending.Some? {
      var p := d.ledger.pending.value;
      if IdOf(d.current) == p.after {
        RollForwardKeepsInv(origin, d);
        ForwardWrites(d, p);
      } else {
        RollBackKeepsInv(origin, d);
        BackwardWrites(d, p);
      }
    }
  }

  lemma RecoverClears(d: Disk)
    requires Recover(d).ok
    ensures AfterAll(d, Recover(d).writes).ledger.pending.None?
  {
  }

  lemma AfterIsSome(d: Disk, writes: seq<Disk>, cut: nat)
    ensures After(d, writes, cut) == d || After(d, writes, cut) in writes
  {
  }

  lemma RecoverKeepsInv(origin: Position, d: Disk, cut: nat)
    requires Inv(origin, d)
    ensures Recover(d).ok
    ensures Inv(origin, After(d, Recover(d).writes, cut))
  {
    RecoverWritesKeepInv(origin, d);
    AfterIsSome(d, Recover(d).writes, cut);
  }

  // ----- A transition, write by write ---------------------------------------

  /** A quiescent disk, an admitted request the caller made well. */
  ghost predicate Startable(origin: Position, d: Disk, r: Request) {
    && Inv(origin, d) && d.ledger.pending.None?
    && Admitted(d, r) && !ChangesNothing(d, r) && WellMade(d, r)
  }

  lemma PreparedNumbered(attempts: seq<Attempt>, l: Ledger, events: seq<ChangeEvent>, templates: seq<Template>, target: nat)
    requires Numbered(AllEvents(attempts), l.core.eventSeq)
    requires events == Prepared(templates, l.core.eventSeq, target)
    ensures Numbered(AllEvents(attempts) + events, LastSeq(events, l.core.eventSeq))
    ensures forall e | e in events :: l.core.eventSeq < e.seqNo <= LastSeq(events, l.core.eventSeq)
  {
    var earlier := AllEvents(attempts);
    var all := earlier + events;
    forall i, j | 0 <= i < j < |all| ensures all[i].seqNo < all[j].seqNo {
      if i < |earlier| <= j {
        assert all[i] == earlier[i] && all[j] == events[j - |earlier|];
      }
    }
  }

  /** The record names the stored baseline and the merge that will replace it. */
  lemma BaselineStartsInStep(origin: Position, d: Disk, r: Request)
    requires Startable(origin, d, r) && r.update.Some?
    ensures BaselineInStep(PendingSaved(d, r), PendingFor(d, r).baseline.value, r.snapshot.id)
  {
    if IdOf(d.current) == r.snapshot.id {
      var file := Loaded(d.baselines, r.update.value.key).value;
      SameIdSameMerge(file, d.current.value, r.snapshot, r.update.value.candidates);
    }
  }

  lemma StartsInStep(origin: Position, d: Disk, r: Request)
    requires Startable(origin, d, r)
    ensures PendingInStep(PendingSaved(d, r), PendingFor(d, r))
    ensures StartOf(PendingFor(d, r)) == Position(d.ledger.core.generation, IdOf(d.current))
  {
    if r.update.Some? {
      BaselineStartsInStep(origin, d, r);
    }
  }

  lemma PendingSavedInv(origin: Position, d: Disk, r: Request)
    requires Startable(origin, d, r)
    ensures Inv(origin, PendingSaved(d, r))
  {
    var p := PendingFor(d, r);
    PreparedNumbered(d.ledger.attempts, d.ledger, p.events, r.templates, p.targetGeneration);
    StartsInStep(origin, d, r);
  }

  lemma CurrentSavedInv(origin: Position, d: Disk, r: Request)
    requires Startable(origin, d, r)
    ensures Inv(origin, CurrentSaved(d, r))
  {
    PendingSavedInv(origin, d, r);
  }

  lemma BaselineSavedInv(origin: Position, d: Disk, r: Request)
    requires Startable(origin, d, r)
    ensures Inv(origin, BaselineSaved(d, r))
  {
    CurrentSavedInv(origin, d, r);
    if r.update.Some? {
      MergedIsGenuine(origin, d, r);
      BaselineFileKeepsInv(origin, CurrentSaved(d, r), r.update.value.key, r.update.value.snapshot);
    }
  }

  lemma MergedIsGenuine(origin: Position, d: Disk, r: Request)
    requires Startable(origin, d, r) && r.update.Some?
    ensures Genuine(r.update.value.snapshot)
  {
    var u := r.update.value;
    MergeBaselineIndex(Loaded(d.baselines, u.key).value, r.snapshot, u.candidates);
  }

  /** The new baseline file may be written once `workspace-current` is new. */
  lemma BaselineFileKeepsInv(origin: Position, d: Disk, key: BaselineKey, s: Snapshot)
    requires Inv(origin, d) && Genuine(s) && d.ledger.pending.Some?
    requires var p := d.ledger.pending.value;
      IdOf(d.current) == p.after && p.baseline.Some? && p.baseline.value.key == key && p.baseline.value.after == s.id
    ensures Inv(origin, WithBaseline(d, key, s))
  {
  }

  lemma FinalizedInv(origin: Position, d: Disk, r: Request)
    requires Startable(origin, d, r)
    ensures Inv(origin, LedgerFinalized(d, r))
  {
    BaselineSavedInv(origin, d, r);
    FinalizeKeepsInv(origin, BaselineSaved(d, r), PendingSaved(d, r).ledger, PendingFor(d, r));
  }

  lemma WritesAmong(d: Disk, r: Request)
    ensures forall w | w in TransitionWrites(d, r) ::
      w in {PendingSaved(d, r), CurrentSaved(d, r), BaselineSaved(d, r), LedgerFinalized(d, r)}
  {
  }

  lemma TransitionWritesKeepInv(origin: Position, d: Disk, r: Request)
    requires Startable(origin, d, r)
    ensures forall w | w in TransitionWrites(d, r) :: Inv(origin, w)
  {
    WritesAmong(d, r);
    PendingSavedInv(origin, d, r);
    CurrentSavedInv(origin, d, r);
    BaselineSavedInv(origin, d, r);
    FinalizedInv(origin, d, r);
  }

  lemma TransitionKeepsInv(origin: Position, d: Disk, r: Request, cut: nat)
    requires Startable(origin, d, r)
    ensures Inv(origin, After(d, TransitionWrites(d, r), cut))
  {
    TransitionWritesKeepInv(origin, d, r);
    AfterIsSome(d, TransitionWrites(d, r), cut);
  }

  lemma CommitKeepsInv(origin: Position, d: Disk, r: Request, cut: nat)
    requires Inv(origin, d) && WellMade(AfterAll(d, Recover(d).writes), r)
    ensures Inv(origin, After(d, CommitOf(d, r).writes, cut))
  {
    RecoverWritesKeepInv(origin, d);
    RecoverKeepsInv(origin, d, |Recover(d).writes|);
    RecoverClears(d);
    var ready := AfterAll(d, Recover(d).writes);
    if Admitted(ready, r) && !ChangesNothing(ready, r) {
      TransitionWritesKeepInv(origin, ready, r);
    }
    AfterIsSome(d, CommitOf(d, r).writes, cut);
  }

  // ----- Runs ---------------------------------------------------------------

  /** Every step that callers may take keeps the invariant, wherever it dies. */
  lemma StepKeepsInv(origin: Position, d: Disk, s: Step)
    requires Inv(origin, d) && Allowed(d, s)
    ensures Inv(origin, Next(d, s))
  {
    match s
    case CommitStep(r, cut) => CommitKeepsInv(origin, d, r, cut);
    case RecoverStep(cut) => RecoverKeepsInv(origin, d, cut);
    case EventStep(event, notes, degraded) =>
      Reducer.AppliedCounters(d.ledger.core, Numbering(d.ledger.core, event));
    case MaintainStep(close, retire) => Reducer.MaintainedCounters(d.ledger.core, close, retire);
    case LoseStep(key, deleted) =>
  }

  lemma {:induction false} RunKeepsInv(origin: Position, d: Disk, steps: seq<Step>)
    requires Inv(origin, d) && AllowedRun(d, steps)
    ensures Inv(origin, RunFrom(d, steps))
  {
    if steps != [] {
      var init := steps[..|steps| - 1];
      forall n | 0 <= n < |init| ensures Allowed(RunFrom(d, init[..n]), init[n]) {
        assert init[..n] == steps[..n];
      }
      RunKeepsInv(origin, d, init);
      assert Allowed(RunFrom(d, steps[..|steps| - 1]), steps[|steps| - 1]);
      StepKeepsInv(origin, RunFrom(d, init), steps[|steps| - 1]);
    }
  }

  // ----- Crash atomicity ----------------------------------------------------

  /** Whether a transition that died after `cut` writes will be carried forward:
      its record is durable and `workspace-current` has the new id. */
  predicate Landed(d: Disk, r: Request, cut: nat) {
    cut >= 1 && (IdOf(d.current) == r.snapshot.id || cut >= 2)
  }

  /** All new, or all old, on the three coordinates. A baseline file lost from
      outside has no id to agree with. */
  ghost predicate Settled(d: Disk, p: Pending, forward: bool) {
    && d.ledger.pending.None?
    && Position(d.ledger.core.generation, IdOf(d.current)) == (if forward then EndOf(p) else StartOf(p))
    && (p.baseline.Some? && Loaded(d.baselines, p.baseline.value.key).Some? ==>
          Loaded(d.baselines, p.baseline.value.key).value.id
          == if forward then p.baseline.value.after else p.baseline.value.before)
  }

  /** Between the crash and the end of recovery. */
  ghost predicate Unsettled(d: Disk, p: Pending, forward: bool) {
    d.ledger.pending == Some(p) && (IdOf(d.current) == p.after <==> forward)
  }

  predicate Interim(s: Step) {
    !s.CommitStep?
  }

  lemma FinalizedSettles(d: Disk, l: Ledger, p: Pending)
    requires IdOf(d.current) == p.after
    requires p.baseline.Some? && Loaded(d.baselines, p.baseline.value.key).Some? ==>
      Loaded(d.baselines, p.baseline.value.key).value.id == p.baseline.value.after
    ensures Settled(d.(ledger := Finalized(l, p)), p, true)
  {
  }

  /** An undisturbed recovery settles the transition the way the crash left it. */
  lemma RecoverySettles(origin: Position, d: Disk, p: Pending, forward: bool)
    requires Inv(origin, d) && Unsettled(d, p, forward)
    ensures Settled(AfterAll(d, Recover(d).writes), p, forward)
  {
    if forward {
      match Restored(d, p) {
        case Nothing => FinalizedSettles(d, d.ledger, p);
        case Lost => FinalizedSettles(d, DegradedLedger(d.ledger, p), p);
        case Advance(file) => FinalizedSettles(WithBaseline(d, p.baseline.value.key, file), d.ledger, p);
      }
    }
  }

  /** A recovery writes at most twice, and first the baseline file. */
  lemma RecoveryWrites(d: Disk, p: Pending, forward: bool)
    requires Unsettled(d, p, forward)
    ensures |Recover(d).writes| <= 2
    ensures |Recover(d).writes| == 2 ==> Unsettled(Recover(d).writes[0], p, forward)
  {
  }

  lemma AfterCut(d: Disk, writes: seq<Disk>, cut: nat)
    requires |writes| <= 2
    ensures After(d, writes, cut) in {d, AfterAll(d, writes)} || (|writes| == 2 && After(d, writes, cut) == writes[0])
  {
  }

  /** A recovery that dies early leaves the decision as it was. */
  lemma RecoveryKeepsDecision(origin: Position, d: Disk, p: Pending, forward: bool, cut: nat)
    requires Inv(origin, d) && Unsettled(d, p, forward)
    ensures var d' := After(d, Recover(d).writes, cut);
      Unsettled(d', p, forward) || Settled(d', p, forward)
  {
    RecoverySettles(origin, d, p, forward);
    RecoveryWrites(d, p, forward);
    AfterCut(d, Recover(d).writes, cut);
  }

  lemma InterimStepKeepsDecision(origin: Position, d: Disk, p: Pending, forward: bool, s: Step)
    requires Inv(origin, d) && Allowed(d, s) && Interim(s)
    requires Unsettled(d, p, forward) || Settled(d, p, forward)
    ensures Unsettled(Next(d, s), p, forward) || Settled(Next(d, s), p, forward)
  {
    if s.RecoverStep? && d.ledger.pending.Some? {
      RecoveryKeepsDecision(origin, d, p, forward, s.cut);
    }
    if s.EventStep? {
      Reducer.AppliedCounters(d.ledger.core, Numbering(d.ledger.core, s.event));
    }
    if s.MaintainStep? {
      Reducer.MaintainedCounters(d.ledger.core, s.close, s.retire);
    }
  }

  lemma {:induction false} InterimKeepsDecision(
      origin: Position, d: Disk, p: Pending, forward: bool, steps: seq<Step>)
    requires Inv(origin, d) && AllowedRun(d, steps) && (forall s | s in steps :: Interim(s))
    requires Unsettled(d, p, forward) || Settled(d, p, forward)
    ensures Inv(origin, RunFrom(d, steps))
    ensures Unsettled(RunFrom(d, steps), p, forward) || Settled(RunFrom(d, steps), p, forward)
  {
    RunKeepsInv(origin, d, steps);
    if steps != [] {
      var init := steps[..|steps| - 1];
      forall n | 0 <= n < |init| ensures Allowed(RunFrom(d, init[..n]), init[n]) {
        assert init[..n] == steps[..n];
      }
      InterimKeepsDecision(origin, d, p, forward, init);
      var last := steps[|steps| - 1];
      assert last in steps && Allowed(RunFrom(d, steps[..|steps| - 1]), last);
      InterimStepKeepsDecision(origin, RunFrom(d, init), p, forward, last);
    }
  }

  lemma FinishedSettles(origin: Position, d: Disk, r: Request)
    requires Startable(origin, d, r)
    ensures Settled(LedgerFinalized(d, r), PendingFor(d, r), true)
  {
    FinalizedSettles(BaselineSaved(d, r), PendingSaved(d, r).ledger, PendingFor(d, r));
  }

  /** Where a transition stands when it dies after `cut` writes. */
  lemma CrashLeavesDecision(origin: Position, d: Disk, r: Request, cut: nat)
    requires Startable(origin, d, r)
    ensures var d' := After(d, TransitionWrites(d, r), cut);
      var p := PendingFor(d, r);
      Unsettled(d', p, Landed(d, r, cut)) || Settled(d', p, Landed(d, r, cut))
  {
    var p := PendingFor(d, r);
    var writes := TransitionWrites(d, r);
    if cut >= |writes| {
      FinishedSettles(origin, d, r);
      assert After(d, writes, cut) == LedgerFinalized(d, r);
    } else if cut >= 1 {
      assert After(d, writes, cut) in [PendingSaved(d, r), CurrentSaved(d, r), BaselineSaved(d, r)];
      if cut >= 2 {
        assert After(d, writes, cut) in [CurrentSaved(d, r), BaselineSaved(d, r)];
      }
    }
  }

  /** Crash atomicity. A transition that dies after any of its writes, followed
      by any recoveries (dying anywhere), ordinary events and baseline losses,
      and then one recovery that completes, leaves generation, snapshot id and
      baseline id all new if it landed and all old if it did not. */
  lemma CrashAtomicity(origin: Position, d: Disk, r: Request, cut: nat, steps: seq<Step>)
    requires Startable(origin, d, r)
    requires var crashed := After(d, TransitionWrites(d, r), cut);
      AllowedRun(crashed, steps) && forall s | s in steps :: Interim(s)
    ensures var crashed := After(d, TransitionWrites(d, r), cut);
      var last := RunFrom(crashed, steps);
      Recover(last).ok && Settled(AfterAll(last, Recover(last).writes), PendingFor(d, r), Landed(d, r, cut))
  {
    var p, forward := PendingFor(d, r), Landed(d, r, cut);
    var crashed := After(d, TransitionWrites(d, r), cut);
    TransitionKeepsInv(origin, d, r, cut);
    CrashLeavesDecision(origin, d, r, cut);
    InterimKeepsDecision(origin, crashed, p, forward, steps);
    var last := RunFrom(crashed, steps);
    RecoverKeepsInv(origin, last, 0);
    if Unsettled(last, p, forward) {
      RecoverySettles(origin, last, p, forward);
    }
  }

  /** A transition that only moves a baseline is carried forward from its first
      write on, whatever happens next. */
  lemma BaselineOnlyRollsForward(origin: Position, d: Disk, r: Request, cut: nat)
    requires Startable(origin, d, r) && !Advances(d, r)
    ensures Landed(d, r, cut) <==> cut >= 1
    ensures PendingFor(d, r).targetGeneration == PendingFor(d, r).baseGeneration
  {
  }

  /** The ledger a recovery goes on with, once the baseline was dealt with. */
  function Working(d: Disk, p: Pending): Ledger {
    if Restored(d, p).Lost? then DegradedLedger(d.ledger, p) else d.ledger
  }

  /** No committed event finds the agent's turn idle for too long. */
  ghost predicate NeverCollected(core: Reducer.Ledger, events: seq<ChangeEvent>, agent: string) {
    forall i | 0 <= i < |events| ::
      !Reducer.Collects(CoreAfter(core, events[..i]), Committable(events[i]), agent)
  }

  lemma {:induction false} TurnStays(core: Reducer.Ledger, events: seq<ChangeEvent>, agent: string)
    requires agent in core.active && NeverCollected(core, events, agent)
    ensures var after := CoreAfter(core, events);
      && agent in after.active && after.active[agent].turnId == core.active[agent].turnId
      && after.active[agent].degraded == core.active[agent].degraded
  {
    if events != [] {
      var init := events[..|events| - 1];
      forall i | 0 <= i < |init|
        ensures !Reducer.Collects(CoreAfter(core, init[..i]), Committable(init[i]), agent)
      {
        assert init[..i] == events[..i];
      }
      TurnStays(core, init, agent);
      Reducer.ChangeLeavesTurn(CoreAfter(core, init), Committable(events[|events| - 1]), agent);
    }
  }

  /** Recovery of a landed transition brings the baseline file and the ledger's
      note of it to the new id when the file survived, and degrades the turn,
      if it is still the active one and not found stale meanwhile, when the file
      did not. */
  lemma RecoveryDegradesExactlyTheLost(origin: Position, d: Disk, p: Pending)
    requires Inv(origin, d) && Unsettled(d, p, true) && p.baseline.Some?
    ensures var b := p.baseline.value;
      var done := AfterAll(d, Recover(d).writes);
      var survived := Loaded(d.baselines, b.key).Some?;
      && (survived ==> BaselineIs(done.baselines, b.key, b.after))
      && (!survived ==> done.baselines == d.baselines)
      && (HasTurn(d.ledger, b.key) && NeverCollected(Working(d, p).core, p.events, b.key.agent) ==>
            && HasTurn(done.ledger, b.key)
            && (IsDegraded(done.ledger, b.key.agent) <==> !survived || IsDegraded(d.ledger, b.key.agent))
            && (!IsDegraded(done.ledger, b.key.agent) ==>
                  var note := NoteOf(done.ledger, b.key.agent);
                  note.status == Ready && note.baselineId == Some(b.after)))
  {
    RecoverySettles(origin, d, p, true);
    ForwardWrites(d, p);
    if HasTurn(d.ledger, p.baseline.value.key) && NeverCollected(Working(d, p).core, p.events, p.baseline.value.key.agent) {
      FinalizedNotes(Working(d, p), p);
    }
  }

  lemma FinalizedNotes(l: Ledger, p: Pending)
    requires p.baseline.Some? && HasTurn(l, p.baseline.value.key)
    requires NeverCollected(l.core, p.events, p.baseline.value.key.agent)
    ensures var b := p.baseline.value;
      && HasTurn(Finalized(l, p), b.key)
      && (IsDegraded(Finalized(l, p), b.key.agent) <==> IsDegraded(l, b.key.agent))
      && (!IsDegraded(l, b.key.agent) ==>
            var note := NoteOf(Finalized(l, p), b.key.agent);
            note.status == Ready && note.baselineId == Some(b.after))
  {
    TurnStays(l.core, p.events, p.baseline.value.key.agent);
    ApplyAllCore(l, p.events);
  }

  lemma {:induction false} ApplyAllCore(l: Ledger, events: seq<ChangeEvent>)
    ensures ApplyAll(l, events).core == CoreAfter(l.core, events)
  {
    if events != [] {
      ApplyAllCore(l, events[..|events| - 1]);
    }
  }

  // ----- The chain of committed manifests -----------------------------------

  function CommittedOnly(attempts: seq<Attempt>): seq<Pending> {
    if attempts == [] then [] else
      var last := attempts[|attempts| - 1];
      CommittedOnly(attempts[..|attempts| - 1]) + if last.committed then [last.pending] else []
  }

  function ManifestAdvances(ps: seq<Pending>): nat {
    if ps == [] then 0 else
      ManifestAdvances(ps[..|ps| - 1]) + if ps[|ps| - 1].targetGeneration == ps[|ps| - 1].baseGeneration then 0 else 1
  }

  /** No lost update: rolled-back attempts aside, every manifest was committed on
      top of the one before it, and the generation counts the advances. */
  ghost predicate Unbroken(origin: Position, ps: seq<Pending>, end: Position) {
    && (ps == [] ==> end == origin)
    && (ps != [] ==> StartOf(ps[0]) == origin && EndOf(ps[|ps| - 1]) == end)
    && (forall i | 0 <= i < |ps| - 1 :: StartOf(ps[i + 1]) == EndOf(ps[i]))
    && end.generation == origin.generation + ManifestAdvances(ps)
  }

  lemma {:induction false} ChainIsUnbroken(origin: Position, attempts: seq<Attempt>, end: Position)
    requires Chained(origin, attempts, end)
    ensures Unbroken(origin, CommittedOnly(attempts), end)
  {
    if attempts != [] {
      var init, last := attempts[..|attempts| - 1], attempts[|attempts| - 1];
      ChainIsUnbroken(origin, init, StartOf(last.pending));
      var ps := CommittedOnly(init);
      if last.committed {
        UnbrokenExtended(origin, ps, last.pending);
      } else {
        assert ps + [] == ps;
      }
    }
  }

  lemma UnbrokenExtended(origin: Position, ps: seq<Pending>, p: Pending)
    requires Unbroken(origin, ps, StartOf(p)) && Transition(p)
    ensures Unbroken(origin, ps + [p], EndOf(p))
  {
    var all := ps + [p];
    assert all[..|ps|] == ps && all[|ps|] == p;
    forall i | 0 <= i < |all| - 1 ensures StartOf(all[i + 1]) == EndOf(all[i]) {
      if i < |ps| - 1 {
        assert all[i] == ps[i] && all[i + 1] == ps[i + 1];
      }
    }
  }

  /** The ledger's generation and the last committed manifest's id. */
  function PositionOf(d: Disk): Position {
    Position(d.ledger.core.generation, if d.ledger.pending.Some? then d.ledger.pending.value.before else IdOf(d.current))
  }

  lemma InvChain(origin: Position, d: Disk)
    requires Inv(origin, d)
    ensures Unbroken(origin, CommittedOnly(d.ledger.attempts), PositionOf(d))
  {
    ChainIsUnbroken(origin, d.ledger.attempts, PositionOf(d));
  }

  lemma NoLostUpdate(origin: Position, d: Disk, steps: seq<Step>)
    requires Inv(origin, d) && AllowedRun(d, steps)
    ensures Unbroken(origin, CommittedOnly(RunFrom(d, steps).ledger.attempts), PositionOf(RunFrom(d, steps)))
  {
    RunKeepsInv(origin, d, steps);
    InvChain(origin, RunFrom(d, steps));
  }

  /** An ordinary event keeps the generation equal to the number of advances
      exactly when it does not run ahead, at rest and with a transition pending. */
  lemma EventKeepsChainExactly(origin: Position, d: Disk, e: Reducer.Event, notes: map<string, Note>, degraded: set<string>)
    requires Inv(origin, d)
    ensures var s := EventStep(e, notes, degraded);
      Unbroken(origin, CommittedOnly(Next(d, s).ledger.attempts), PositionOf(Next(d, s))) <==> !RunsAhead(d, s)
  {
    InvChain(origin, d);
    Reducer.AppliedCounters(d.ledger.core, Numbering(d.ledger.core, e));
  }

  // ----- The chain of ids, whatever happens ---------------------------------

  ghost predicate IdChain(origin: SnapshotId, ps: seq<Pending>, end: SnapshotId) {
    && (ps == [] ==> end == origin)
    && (ps != [] ==> ps[0].before == origin && ps[|ps| - 1].after == end)
    && (forall i | 0 <= i < |ps| - 1 :: ps[i + 1].before == ps[i].after)
  }

  ghost predicate IdsInStep(origin: SnapshotId, d: Disk) {
    && IdChain(origin, CommittedOnly(d.ledger.attempts), PositionOf(d).id)
    && (d.ledger.pending.Some? ==> IdOf(d.current) in {d.ledger.pending.value.before, d.ledger.pending.value.after})
  }

  lemma CommittedOneMore(attempts: seq<Attempt>, a: Attempt)
    ensures CommittedOnly(attempts + [a]) == CommittedOnly(attempts) + if a.committed then [a.pending] else []
  {
    assert (attempts + [a])[..|attempts|] == attempts;
  }

  /** However a transition ends, by recovery or undisturbed, the ids go on. */
  lemma EndingKeepsIds(origin: SnapshotId, d: Disk, done: Disk, p: Pending, a: Attempt)
    requires IdsInStep(origin, d) && d.ledger.pending == Some(p) && a.pending == p
    requires done.ledger.pending.None? && done.current == d.current
    requires done.ledger.attempts == d.ledger.attempts + [a]
    requires IdOf(d.current) == if a.committed then p.after else p.before
    ensures IdsInStep(origin, done)
  {
    CommittedOneMore(d.ledger.attempts, a);
    assert CommittedOnly(d.ledger.attempts) + [] == CommittedOnly(d.ledger.attempts);
  }

  lemma {:induction false} ApplyAllKeepsHistory(l: Ledger, events: seq<ChangeEvent>)
    ensures ApplyAll(l, events).attempts == l.attempts && ApplyAll(l, events).pending == l.pending
  {
    if events != [] {
      ApplyAllKeepsHistory(l, events[..|events| - 1]);
    }
  }

  lemma RecoverWritesKeepIds(origin: SnapshotId, d: Disk)
    requires IdsInStep(origin, d)
    ensures Recover(d).ok && forall w | w in Recover(d).writes :: IdsInStep(origin, w)
  {
    if d.ledger.pending.Some? {
      var p := d.ledger.pending.value;
      if IdOf(d.current) == p.after {
        ForwardKeepsIds(origin, d, p);
      } else {
        BackwardWrites(d, p);
        EndingKeepsIds(origin, d, d.(ledger := RolledBack(d.ledger, p)), p, Attempt(p, false, d.ledger.core));
      }
    }
  }

  lemma RecoverKeepsIds(origin: SnapshotId, d: Disk, cut: nat)
    requires IdsInStep(origin, d)
    ensures Recover(d).ok && IdsInStep(origin, After(d, Recover(d).writes, cut))
  {
    RecoverWritesKeepIds(origin, d);
    AfterIsSome(d, Recover(d).writes, cut);
  }

  lemma ForwardKeepsIds(origin: SnapshotId, d: Disk, p: Pending)
    requires IdsInStep(origin, d) && d.ledger.pending == Some(p) && IdOf(d.current) == p.after
    ensures Recover(d).ok && forall w | w in Recover(d).writes :: IdsInStep(origin, w)
  {
    ForwardWrites(d, p);
    FinalizedKeepsIds(origin, d, d.ledger, p);
    FinalizedKeepsIds(origin, d, DegradedLedger(d.ledger, p), p);
    if Restored(d, p).Advance? {
      var advanced := WithBaseline(d, p.baseline.value.key, Restored(d, p).file);
      assert IdsInStep(origin, advanced);
      FinalizedKeepsIds(origin, advanced, d.ledger, p);
    }
  }

  lemma FinalizedKeepsIds(origin: SnapshotId, d: Disk, l: Ledger, p: Pending)
    requires IdsInStep(origin, d) && d.ledger.pending == Some(p) && IdOf(d.current) == p.after
    requires l.attempts == d.ledger.attempts
    ensures IdsInStep(origin, d.(ledger := Finalized(l, p)))
  {
    ApplyAllKeepsHistory(l, p.events);
    EndingKeepsIds(origin, d, d.(ledger := Finalized(l, p)), p, Attempt(p, true, l.core));
  }

  lemma TransitionStartsInStep(origin: SnapshotId, d: Disk, r: Request)
    requires IdsInStep(origin, d) && d.ledger.pending.None? && Admitted(d, r)
    ensures IdsInStep(origin, PendingSaved(d, r)) && IdsInStep(origin, CurrentSaved(d, r)) && IdsInStep(origin, BaselineSaved(d, r))
    ensures BaselineSaved(d, r).ledger == PendingSaved(d, r).ledger && IdOf(BaselineSaved(d, r).current) == r.snapshot.id
  {
  }

  lemma TransitionWritesKeepIds(origin: SnapshotId, d: Disk, r: Request)
    requires IdsInStep(origin, d) && d.ledger.pending.None? && Admitted(d, r)
    ensures forall w | w in TransitionWrites(d, r) :: IdsInStep(origin, w)
  {
    TransitionStartsInStep(origin, d, r);
    FinalizedKeepsIds(origin, BaselineSaved(d, r), PendingSaved(d, r).ledger, PendingFor(d, r));
    WritesAmong(d, r);
  }

  lemma CommitWritesKeepIds(origin: SnapshotId, d: Disk, r: Request)
    requires IdsInStep(origin, d)
    ensures forall w | w in CommitOf(d, r).writes :: IdsInStep(origin, w)
  {
    RecoverWritesKeepIds(origin, d);
    RecoverKeepsIds(origin, d, |Recover(d).writes|);
    RecoverClears(d);
    var ready := AfterAll(d, Recover(d).writes);
    if Admitted(ready, r) {
      TransitionWritesKeepIds(origin, ready, r);
    }
  }

  lemma CommitKeepsIds(origin: SnapshotId, d: Disk, r: Request, cut: nat)
    requires IdsInStep(origin, d)
    ensures IdsInStep(origin, After(d, CommitOf(d, r).writes, cut))
  {
    CommitWritesKeepIds(origin, d, r);
    AfterIsSome(d, CommitOf(d, r).writes, cut);
  }

  /** Every step at all keeps it: no condition on requests or ordinary events. */
  lemma StepKeepsIds(origin: SnapshotId, d: Disk, s: Step)
    requires IdsInStep(origin, d)
    ensures IdsInStep(origin, Next(d, s))
  {
    match s
    case CommitStep(r, cut) => CommitKeepsIds(origin, d, r, cut);
    case RecoverStep(cut) => RecoverKeepsIds(origin, d, cut);
    case EventStep(_, _, _) =>
    case MaintainStep(_, _) =>
    case LoseStep(_, _) =>
  }

  /** In every run whatever, each committed manifest was made on top of the one
      committed before it, and recovery is always possible. */
  lemma {:induction false} ManifestsAlwaysChain(origin: SnapshotId, d: Disk, steps: seq<Step>)
    requires IdsInStep(origin, d)
    ensures IdsInStep(origin, RunFrom(d, steps)) && Recover(RunFrom(d, steps)).ok
  {
    if steps != [] {
      ManifestsAlwaysChain(origin, d, steps[..|steps| - 1]);
      StepKeepsIds(origin, RunFrom(d, steps[..|steps| - 1]), steps[|steps| - 1]);
    }
    RecoverKeepsIds(origin, RunFrom(d, steps), 0);
  }

  // ----- Exactly-once application -------------------------------------------

  /** The event's turn is the agent's active one, or the agent has none and the
      turn has not ended. An event that names no turn goes to whatever is active. */
  predicate TurnIsOpen(core: Reducer.Ledger, e: ChangeEvent) {
    var key := Reducer.TurnKey(core.active, Committable(e));
    e.body.turnId.Some? ==>
      var id := e.body.turnId.value;
      if key in core.active then
        id == "" || (core.active[key].turnId == id && !Reducer.Listed(core.retired, key, id))
      else !Reducer.IsTerminal(core, key, id)
  }

  /** Exactly these events are taken, unless the manifest moved past them. */
  lemma TakesExactly(core: Reducer.Ledger, e: ChangeEvent)
    ensures Takes(core, e) <==> core.generation <= e.generation && TurnIsOpen(core, e)
  {
  }

  function Occurrences(events: seq<ChangeEvent>, seqNo: nat): nat {
    if events == [] then 0 else
      Occurrences(events[..|events| - 1], seqNo) + if events[|events| - 1].seqNo == seqNo then 1 else 0
  }

  lemma {:induction false} OccurrencesConcat(a: seq<ChangeEvent>, b: seq<ChangeEvent>, seqNo: nat)
    ensures Occurrences(a + b, seqNo) == Occurrences(a, seqNo) + Occurrences(b, seqNo)
  {
    if b == [] {
      assert a + b == a;
    } else {
      OccurrencesConcat(a, b[..|b| - 1], seqNo);
      assert (a + b)[..|a + b| - 1] == a + b[..|b| - 1];
    }
  }

  lemma {:induction false} Absent(events: seq<ChangeEvent>, seqNo: nat)
    requires forall e | e in events :: e.seqNo != seqNo
    ensures Occurrences(events, seqNo) == 0
  {
    if events != [] {
      Absent(events[..|events| - 1], seqNo);
    }
  }

  lemma {:induction false} TakenAmong(core: Reducer.Ledger, events: seq<ChangeEvent>)
    ensures forall e | e in TakenFrom(core, events) :: e in events
  {
    if events != [] {
      TakenAmong(core, events[..|events| - 1]);
    }
  }

  lemma {:induction false} TakenAmongAll(attempts: seq<Attempt>)
    ensures forall e | e in TakenEvents(attempts) :: e in AllEvents(attempts)
  {
    if attempts != [] {
      var last := attempts[|attempts| - 1];
      TakenAmongAll(attempts[..|attempts| - 1]);
      TakenAmong(last.at, last.pending.events);
    }
  }

  lemma {:induction false} NothingAhead(core: Reducer.Ledger, events: seq<ChangeEvent>, target: nat)
    requires core.generation <= target && forall e | e in events :: e.generation == target
    ensures CoreAfter(core, events).generation <= target
  {
    if events != [] {
      NothingAhead(core, events[..|events| - 1], target);
      Reducer.AppliedCounters(CoreAfter(core, events[..|events| - 1]), Committable(events[|events| - 1]));
    }
  }

  /** Of one batch, event i is taken once or not at all. */
  /** Event i is taken when its place comes. */
  ghost predicate TakenAt(core: Reducer.Ledger, events: seq<ChangeEvent>, i: nat)
    requires i < |events|
  {
    Takes(CoreAfter(core, events[..i]), events[i])
  }

  lemma TakenStep(core: Reducer.Ledger, events: seq<ChangeEvent>, n: nat)
    requires n < |events|
    ensures TakenFrom(core, events[..n + 1])
      == TakenFrom(core, events[..n]) + if TakenAt(core, events, n) then [events[n]] else []
  {
    assert events[..n + 1][..n] == events[..n];
  }

  lemma OneMore(taken: seq<ChangeEvent>, e: ChangeEvent, takes: bool, seqNo: nat)
    ensures Occurrences(taken + if takes then [e] else [], seqNo)
      == Occurrences(taken, seqNo) + if takes && e.seqNo == seqNo then 1 else 0
  {
    OccurrencesConcat(taken, if takes then [e] else [], seqNo);
    assert [e][..0] == [];
  }

  lemma {:induction false} TakenOnce(core: Reducer.Ledger, events: seq<ChangeEvent>, upTo: nat, i: nat, n: nat)
    requires Numbered(events, upTo) && i < n <= |events|
    ensures Occurrences(TakenFrom(core, events[..n]), events[i].seqNo) == if TakenAt(core, events, i) then 1 else 0
    decreases n
  {
    var taken := TakenFrom(core, events[..n - 1]);
    TakenStep(core, events, n - 1);
    OneMore(taken, events[n - 1], TakenAt(core, events, n - 1), events[i].seqNo);
    if i < n - 1 {
      TakenOnce(core, events, upTo, i, n - 1);
    } else {
      TakenAmong(core, events[..n - 1]);
      Absent(taken, events[i].seqNo);
    }
  }

  lemma {:induction false} TakenOverall(attempts: seq<Attempt>, upTo: nat, a: Attempt, i: nat)
    requires Numbered(AllEvents(attempts), upTo)
    requires a in attempts && i < |a.pending.events|
    ensures Occurrences(TakenEvents(attempts), a.pending.events[i].seqNo)
      == if a.committed && Takes(CoreAfter(a.at, a.pending.events[..i]), a.pending.events[i]) then 1 else 0
    ensures a.pending.events[i] in AllEvents(attempts)
  {
    var init, last := attempts[..|attempts| - 1], attempts[|attempts| - 1];
    var e, latest := a.pending.events[i], last.pending.events;
    var taken := if last.committed then TakenFrom(last.at, latest) else [];
    assert attempts == init + [last];
    NumberedParts(AllEvents(init), latest, upTo);
    OccurrencesConcat(TakenEvents(init), taken, e.seqNo);
    TakenAmong(last.at, latest);
    if a in init {
      TakenOverall(init, upTo, a, i);
      Absent(taken, e.seqNo);
    } else {
      TakenAmongAll(init);
      Absent(TakenEvents(init), e.seqNo);
      TakenOnce(last.at, latest, upTo, i, |latest|);
      assert latest[..|latest|] == latest;
    }
  }

  lemma NumberedParts(earlier: seq<ChangeEvent>, latest: seq<ChangeEvent>, upTo: nat)
    requires Numbered(earlier + latest, upTo)
    ensures Numbered(earlier, upTo) && Numbered(latest, upTo)
    ensures forall x, y | x in earlier && y in latest :: x.seqNo < y.seqNo
  {
    var all := earlier + latest;
    forall i, j | 0 <= i < j < |earlier| ensures earlier[i].seqNo < earlier[j].seqNo {
      assert all[i] == earlier[i] && all[j] == earlier[j];
    }
    forall i | 0 <= i < |earlier| ensures earlier[i].seqNo <= upTo {
      assert all[i] == earlier[i];
    }
    forall i, j | 0 <= i < j < |latest| ensures latest[i].seqNo < latest[j].seqNo {
      assert all[|earlier| + i] == latest[i] && all[|earlier| + j] == latest[j];
    }
    forall i | 0 <= i < |latest| ensures latest[i].seqNo <= upTo {
      assert all[|earlier| + i] == latest[i];
    }
    forall x, y | x in earlier && y in latest ensures x.seqNo < y.seqNo {
      var i :| 0 <= i < |earlier| && earlier[i] == x;
      var j :| 0 <= j < |latest| && latest[j] == y;
      assert all[i] == x && all[|earlier| + j] == y;
    }
  }

  /** In every run, an event of a committed transition was taken by the reducer
      once if its turn was open when its place in the finalization came, and never
      otherwise; an event of a rolled-back or still pending one never. */
  lemma AppliedExactly(origin: Position, d: Disk, steps: seq<Step>, a: Attempt, i: nat)
    requires Inv(origin, d) && AllowedRun(d, steps)
    requires a in RunFrom(d, steps).ledger.attempts && i < |a.pending.events|
    ensures var e := a.pending.events[i];
      Occurrences(RunFrom(d, steps).ledger.applied, e.seqNo)
      == if a.committed && TurnIsOpen(CoreAfter(a.at, a.pending.events[..i]), e) then 1 else 0
  {
    RunKeepsInv(origin, d, steps);
    var l := RunFrom(d, steps).ledger;
    if l.pending.Some? {
      NumberedParts(AllEvents(l.attempts), l.pending.value.events, l.core.eventSeq);
    }
    TakenOverall(l.attempts, l.core.eventSeq, a, i);
    if a.committed {
      NothingAhead(a.at, a.pending.events[..i], a.pending.targetGeneration);
      TakesExactly(CoreAfter(a.at, a.pending.events[..i]), a.pending.events[i]);
    }
  }

  lemma PendingNotApplied(origin: Position, d: Disk, steps: seq<Step>, e: ChangeEvent)
    requires Inv(origin, d) && AllowedRun(d, steps)
    requires RunFrom(d, steps).ledger.pending.Some? && e in RunFrom(d, steps).ledger.pending.value.events
    ensures Occurrences(RunFrom(d, steps).ledger.applied, e.seqNo) == 0
  {
    RunKeepsInv(origin, d, steps);
    var l := RunFrom(d, steps).ledger;
    NumberedParts(AllEvents(l.attempts), l.pending.value.events, l.core.eventSeq);
    TakenAmongAll(l.attempts);
    Absent(l.applied, e.seqNo);
  }

  // ----- Sequence numbers ---------------------------------------------------

  /** The numbers a step makes durable: the next one for an ordinary event, the
      prepared ones once a transition's record is saved. */
  ghost function Taken(d: Disk, s: Step): set<nat> {
    match s
    case EventStep(_, _, _) => {d.ledger.core.eventSeq + 1}
    case CommitStep(r, cut) =>
      var ready := AfterAll(d, Recover(d).writes);
      if Recover(d).ok && Admitted(ready, r) && !ChangesNothing(ready, r) && cut > |Recover(d).writes|
      then set e | e in PendingFor(ready, r).events :: e.seqNo
      else {}
    case _ => {}
  }

  lemma {:induction false} ApplyAllRaisesSeq(l: Ledger, events: seq<ChangeEvent>)
    ensures l.core.eventSeq <= ApplyAll(l, events).core.eventSeq
  {
    if events != [] {
      var init := events[..|events| - 1];
      ApplyAllRaisesSeq(l, init);
      Reducer.AppliedCounters(ApplyAll(l, init).core, Committable(events[|events| - 1]));
    }
  }

  lemma FinalizedRaisesSeq(l: Ledger, p: Pending)
    ensures l.core.eventSeq <= Finalized(l, p).core.eventSeq
  {
    ApplyAllRaisesSeq(l, p.events);
  }

  lemma RecoverRaisesSeq(d: Disk, cut: nat)
    ensures d.ledger.core.eventSeq <= After(d, Recover(d).writes, cut).ledger.core.eventSeq
  {
    if d.ledger.pending.Some? {
      FinalizedRaisesSeq(d.ledger, d.ledger.pending.value);
      FinalizedRaisesSeq(DegradedLedger(d.ledger, d.ledger.pending.value), d.ledger.pending.value);
    }
    AfterIsSome(d, Recover(d).writes, cut);
  }

  lemma TransitionRaisesSeq(d: Disk, r: Request, cut: nat)
    ensures var d' := After(d, TransitionWrites(d, r), cut);
      && d.ledger.core.eventSeq <= d'.ledger.core.eventSeq
      && (cut > 0 ==> PendingSaved(d, r).ledger.core.eventSeq <= d'.ledger.core.eventSeq)
  {
    ApplyAllRaisesSeq(PendingSaved(d, r).ledger, PendingFor(d, r).events);
  }

  lemma PreparedLater(d: Disk, r: Request)
    ensures forall e | e in PendingFor(d, r).events ::
      d.ledger.core.eventSeq < e.seqNo <= PendingSaved(d, r).ledger.core.eventSeq
  {
  }

  lemma CommitTakesFresh(d: Disk, r: Request, cut: nat)
    ensures var next := After(d, CommitOf(d, r).writes, cut);
      && d.ledger.core.eventSeq <= next.ledger.core.eventSeq
      && forall n | n in Taken(d, CommitStep(r, cut)) :: d.ledger.core.eventSeq < n <= next.ledger.core.eventSeq
  {
    var recovery := Recover(d);
    RecoverRaisesSeq(d, cut);
    RecoverRaisesSeq(d, |recovery.writes|);
    var ready := AfterAll(d, recovery.writes);
    if recovery.ok && Admitted(ready, r) && !ChangesNothing(ready, r) {
      AfterConcat(d, recovery.writes, TransitionWrites(ready, r), cut);
      if cut > |recovery.writes| {
        TransitionRaisesSeq(ready, r, cut - |recovery.writes|);
        PreparedLater(ready, r);
      }
    }
  }

  /** A step's numbers lie strictly above the old counter and within the new. */
  lemma TakenIsFresh(d: Disk, s: Step)
    ensures d.ledger.core.eventSeq <= Next(d, s).ledger.core.eventSeq
    ensures forall n | n in Taken(d, s) :: d.ledger.core.eventSeq < n <= Next(d, s).ledger.core.eventSeq
  {
    match s
    case CommitStep(r, cut) => CommitTakesFresh(d, r, cut);
    case RecoverStep(cut) => RecoverRaisesSeq(d, cut);
    case EventStep(event, _, _) => Reducer.AppliedCounters(d.ledger.core, Numbering(d.ledger.core, event));
    case MaintainStep(close, retire) => Reducer.MaintainedCounters(d.ledger.core, close, retire);
    case LoseStep(_, _) =>
  }

  lemma {:induction false} CounterNeverFalls(d: Disk, steps: seq<Step>, n: nat)
    requires n <= |steps|
    ensures RunFrom(d, steps[..n]).ledger.core.eventSeq <= RunFrom(d, steps).ledger.core.eventSeq
  {
    if n == |steps| {
      assert steps[..n] == steps;
    } else {
      var init := steps[..|steps| - 1];
      assert init[..n] == steps[..n];
      CounterNeverFalls(d, init, n);
      TakenIsFresh(RunFrom(d, init), steps[|steps| - 1]);
    }
  }

  /** No sequence number is ever taken twice, rollbacks included: what a later
      step takes lies above everything an earlier one took. */
  lemma NumbersNeverReused(d: Disk, steps: seq<Step>, n: nat, m: nat)
    requires n < m < |steps|
    ensures forall x, y | x in Taken(RunFrom(d, steps[..n]), steps[n]) && y in Taken(RunFrom(d, steps[..m]), steps[m])
      :: x < y
  {
    var before, later := RunFrom(d, steps[..n]), RunFrom(d, steps[..m]);
    TakenIsFresh(before, steps[n]);
    TakenIsFresh(later, steps[m]);
    CounterReaches(d, steps, n, m);
    Apart(Taken(before, steps[n]), Taken(later, steps[m]), Next(before, steps[n]).ledger.core.eventSeq, later.ledger.core.eventSeq);
  }

  lemma CounterReaches(d: Disk, steps: seq<Step>, n: nat, m: nat)
    requires n < m < |steps|
    ensures Next(RunFrom(d, steps[..n]), steps[n]).ledger.core.eventSeq <= RunFrom(d, steps[..m]).ledger.core.eventSeq
  {
    assert steps[..n + 1][..n] == steps[..n];
    assert steps[..m][..n + 1] == steps[..n + 1];
    CounterNeverFalls(d, steps[..m], n + 1);
  }

  lemma Apart(earlier: set<nat>, later: set<nat>, a: nat, b: nat)
    requires a <= b && (forall x | x in earlier :: x <= a) && (forall y | y in later :: b < y)
    ensures forall x, y | x in earlier && y in later :: x < y
  {
  }
}
