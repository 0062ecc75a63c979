/** Where the manifest transaction falls short of what it is for: the exact
    condition, and an input, of each.
  */
module ManifestLimits {
  import opened Common
  import opened Snapshots
  import opened Manifest
  import opened ManifestRuns
  import Attribution = PathAttribution
  import Covers
  import Reducer = LedgerReducer

  // ----- Exactly when -------------------------------------------------------

  /** An ordinary change event may carry a manifest generation
      (core/adapter_change_events.py:19-36 records at least 1). Between a crash
      and its recovery it leaves a rollback the generation there was exactly when
      it does not run ahead. */
  lemma RollbackRestoresGenerationExactlyUnlessAhead(
      origin: Position, d: Disk, r: Request, e: Reducer.Event, notes: map<string, Note>, degraded: set<string>)
    requires Startable(origin, d, r) && IdOf(d.current) != r.snapshot.id
    ensures var crashed := After(d, TransitionWrites(d, r), 1);
      var s := EventStep(e, notes, degraded);
      var done := RunFrom(crashed, [s, RecoverStep(1)]);
      && done.ledger.pending.None? && IdOf(done.current) == r.expected
      && (done.ledger.core.generation == d.ledger.core.generation <==> !RunsAhead(crashed, s))
  {
    var crashed := After(d, TransitionWrites(d, r), 1);
    var steps := [EventStep(e, notes, degraded), RecoverStep(1)];
    TwoSteps(crashed, steps[0], steps[1]);
    Reducer.AppliedCounters(crashed.ledger.core, Numbering(crashed.ledger.core, e));
    BackwardWrites(Next(crashed, steps[0]), PendingFor(d, r));
  }

  lemma TwoSteps(d: Disk, s: Step, later: Step)
    ensures RunFrom(d, [s, later]) == Next(Next(d, s), later)
  {
    assert [s, later][..1] == [s] && [s][..0] == [];
    assert RunFrom(d, [s]) == Next(d, s);
  }

  ghost predicate AllTaken(core: Reducer.Ledger, events: seq<ChangeEvent>, n: nat)
    requires n <= |events|
  {
    forall i | 0 <= i < n :: TakenAt(core, events, i)
  }

  lemma AllTakenStep(core: Reducer.Ledger, events: seq<ChangeEvent>, n: nat)
    requires n < |events|
    ensures AllTaken(core, events, n + 1) <==> AllTaken(core, events, n) && TakenAt(core, events, n)
  {
    if AllTaken(core, events, n + 1) {
      forall i | 0 <= i < n ensures TakenAt(core, events, i) {
      }
    }
  }

  lemma {:induction false} AllTakenExactly(core: Reducer.Ledger, events: seq<ChangeEvent>, n: nat)
    requires n <= |events|
    ensures |TakenFrom(core, events[..n])| <= n
    ensures TakenFrom(core, events[..n]) == events[..n] <==> AllTaken(core, events, n)
  {
    if n > 0 {
      AllTakenExactly(core, events, n - 1);
      TakenStep(core, events, n - 1);
      AllTakenStep(core, events, n - 1);
      Extended(
        TakenFrom(core, events[..n - 1]), TakenFrom(core, events[..n]), events, n - 1, TakenAt(core, events, n - 1));
    }
  }

  lemma Extended(taken: seq<ChangeEvent>, all: seq<ChangeEvent>, events: seq<ChangeEvent>, n: nat, more: bool)
    requires n < |events| && |taken| <= n && all == taken + if more then [events[n]] else []
    ensures all == events[..n + 1] <==> taken == events[..n] && more
  {
    Appended(taken, if more then [events[n]] else [], events[..n], events[n]);
    assert events[..n + 1] == events[..n] + [events[n]];
  }

  /** A shorter list with or without the last element is the list exactly if it
      was the list before and has it. */
  lemma Appended(taken: seq<ChangeEvent>, more: seq<ChangeEvent>, init: seq<ChangeEvent>, last: ChangeEvent)
    requires |taken| <= |init| && more in {[], [last]}
    ensures taken + more == init + [last] <==> taken == init && more == [last]
  {
    if taken + more == init + [last] {
      assert |more| == 1 && (taken + more)[..|init|] == taken && (init + [last])[..|init|] == init;
    }
  }

  lemma {:induction false} GenerationStays(core: Reducer.Ledger, events: seq<ChangeEvent>, target: nat)
    requires forall e | e in events :: e.generation == target
    ensures CoreAfter(core, events).generation <= target <==> core.generation <= target
  {
    if events != [] {
      GenerationStays(core, events[..|events| - 1], target);
      Reducer.AppliedCounters(CoreAfter(core, events[..|events| - 1]), Committable(events[|events| - 1]));
    }
  }

  /** Rolling forward applies all committed events if and only if the ledger is not
      ahead of them and each finds its turn open when its place comes. */
  lemma RollForwardAppliesExactly(d: Disk, p: Pending)
    requires d.ledger.pending == Some(p) && IdOf(d.current) == p.after
    requires forall e | e in p.events :: e.generation == p.targetGeneration
    ensures var core := Working(d, p).core;
      AfterAll(d, Recover(d).writes).ledger.applied == d.ledger.applied + p.events
      <==> forall i | 0 <= i < |p.events| ::
             core.generation <= p.targetGeneration && TurnIsOpen(CoreAfter(core, p.events[..i]), p.events[i])
  {
    var l := Working(d, p);
    RollForwardApplies(d, p);
    AllTakenExactly(l.core, p.events, |p.events|);
    assert p.events[..|p.events|] == p.events;
    forall i | 0 <= i < |p.events|
      ensures TakenAt(l.core, p.events, i)
        <==> l.core.generation <= p.targetGeneration && TurnIsOpen(CoreAfter(l.core, p.events[..i]), p.events[i])
    {
      GenerationStays(l.core, p.events[..i], p.targetGeneration);
      TakesExactly(CoreAfter(l.core, p.events[..i]), p.events[i]);
    }
    SamePrefix(d.ledger.applied, TakenFrom(l.core, p.events), p.events);
  }

  lemma RollForwardApplies(d: Disk, p: Pending)
    requires d.ledger.pending == Some(p) && IdOf(d.current) == p.after
    ensures AfterAll(d, Recover(d).writes).ledger.applied == d.ledger.applied + TakenFrom(Working(d, p).core, p.events)
  {
    ForwardWrites(d, p);
    AppliedAll(Working(d, p), p.events);
  }

  lemma SamePrefix(prefix: seq<ChangeEvent>, a: seq<ChangeEvent>, b: seq<ChangeEvent>)
    ensures prefix + a == prefix + b <==> a == b
  {
    if prefix + a == prefix + b {
      assert (prefix + a)[|prefix|..] == a && (prefix + b)[|prefix|..] == b;
    }
  }

  lemma {:induction false} AppliedAll(l: Ledger, events: seq<ChangeEvent>)
    ensures ApplyAll(l, events).core == CoreAfter(l.core, events)
    ensures ApplyAll(l, events).applied == l.applied + TakenFrom(l.core, events)
  {
    if events != [] {
      AppliedAll(l, events[..|events| - 1]);
    }
  }

  // ----- Such inputs --------------------------------------------------------

  const NO_CHANGE := Attribution.Change(None, "", "", "", 0, None, "", false, [])
  const NO_PATHS := Covers.Change("", 0, 0, false, false, [])
  const SNAP := Snapshot(Scope("", false, ""), [], [], [], IdFor([], []), None, "")
  const LATE := Template("a", false, Some("T1"), 0, NO_CHANGE, NO_PATHS, BLANK)
  const REQUEST := Request(0, Unavailable, SNAP, [LATE], None, None)

  /** A store at rest whose agent "a" has the turn active. */
  function Resting(turnId: string): Disk {
    var active := map["a" := Reducer.Turn(turnId, None, false, false, Covers.START)];
    var core := Reducer.Ledger(0, 0, active, [], [], Attribution.Attribution([], map[], false));
    Disk(Ledger(core, None, None, map[], [], [], []), None, map[])
  }

  lemma PendingLate(turnId: string)
    ensures PendingFor(Resting(turnId), REQUEST).events == [ChangeEvent(LATE, 1, 1)]
    ensures Admitted(Resting(turnId), REQUEST) && !ChangesNothing(Resting(turnId), REQUEST)
    ensures TransitionWrites(Resting(turnId), REQUEST)
      == [PendingSaved(Resting(turnId), REQUEST), CurrentSaved(Resting(turnId), REQUEST), LedgerFinalized(Resting(turnId), REQUEST)]
  {
  }

  lemma OneEvent(l: Ledger, e: ChangeEvent)
    ensures ApplyAll(l, [e]) == ApplyCommitted(l, e)
  {
    assert [e][..0] == [];
    assert ApplyAll(l, []) == l;
  }

  /** A template of a replaced turn is admitted, its commit is not disturbed, and
      the reducer never takes the event. */
  lemma ReplacedTurnIsNotApplied()
    ensures var d := Resting("T2");
      && CommitOf(d, REQUEST).outcome == Committed(1, [ChangeEvent(LATE, 1, 1)])
      && AfterAll(d, CommitOf(d, REQUEST).writes).ledger.attempts[0].committed
      && AfterAll(d, CommitOf(d, REQUEST).writes).ledger.applied == []
  {
    var d := Resting("T2");
    PendingLate("T2");
    assert CommitOf(d, REQUEST).writes == [] + TransitionWrites(d, REQUEST);
    OneEvent(PendingSaved(d, REQUEST).ledger, ChangeEvent(LATE, 1, 1));
  }

  const SWITCH := Reducer.Event(Reducer.Prompt, "a", false, Some("T2"), 0, 0)

  lemma SwitchesTurn(core: Reducer.Ledger)
    requires core.active == Resting("T1").ledger.core.active && core.closed == core.retired == []
    ensures var r := Reducer.Applied(core, Numbering(core, SWITCH));
      "a" in r.active && r.active["a"].turnId == "T2" && r.generation == core.generation
  {
    Reducer.NothingStale(Reducer.Counted(core, Numbering(core, SWITCH)), 0, None);
    Reducer.AppliedCounters(core, Numbering(core, SWITCH));
  }

  /** Nor is that of a turn that a prompt replaces between a crash and its
      recovery, although nothing runs ahead. */
  lemma TurnReplacedBeforeRecovery()
    ensures var d := Resting("T1");
      var crashed := After(d, TransitionWrites(d, REQUEST), 2);
      var s := EventStep(SWITCH, map[], {});
      var done := RunFrom(crashed, [s, RecoverStep(1)]);
      && !RunsAhead(crashed, s) && PendingFor(d, REQUEST).events == [ChangeEvent(LATE, 1, 1)]
      && done.ledger.attempts == [Attempt(PendingFor(d, REQUEST), true, Next(crashed, s).ledger.core)]
      && done.ledger.applied == []
  {
    var d := Resting("T1");
    var crashed := After(d, TransitionWrites(d, REQUEST), 2);
    var s := EventStep(SWITCH, map[], {});
    PendingLate("T1");
    assert crashed == CurrentSaved(d, REQUEST);
    TwoSteps(crashed, s, RecoverStep(1));
    SwitchesTurn(crashed.ledger.core);
    var switched := Next(crashed, s);
    var p := PendingFor(d, REQUEST);
    ForwardWrites(switched, p);
    assert !Takes(switched.ledger.core, ChangeEvent(LATE, 1, 1));
    OneEvent(switched.ledger, ChangeEvent(LATE, 1, 1));
    assert Next(switched, RecoverStep(1)) == switched.(ledger := Finalized(switched.ledger, p));
  }

  const FIRST := Reducer.Event(Reducer.ChangeEvent(NO_CHANGE.(generation := Some(1)), NO_PATHS, false), "a", false, Some("T1"), 0, 0)

  /** The first change of a project without a manifest, recorded at generation 1:
      no manifest has that number. */
  lemma FirstChangeRaisesGeneration()
    ensures var d := Resting("T1");
      var next := Next(d, EventStep(FIRST, map[], {}));
      && next.ledger.core.generation == 1 && next.ledger.attempts == [] && next.current == d.current == None
      && !Unbroken(Position(0, Unavailable), CommittedOnly(next.ledger.attempts), PositionOf(next))
  {
    var core := Resting("T1").ledger.core;
    Reducer.AppliedCounters(core, Numbering(core, FIRST));
  }

  /** When the new snapshot has the stored id, recovery merges the baseline with
      the stored one. It can rebuild the baseline exactly when the two were
      scanned under one scope; after a policy change it degrades the turn, which
      is why `WellMade` asks for it. */
  lemma SameIdRebuildsExactlyUnderOneScope(d: Disk, r: Request)
    requires d.ledger.pending.None? && Admitted(d, r) && r.update.Some?
    requires d.current.Some? && d.current.value.id == r.snapshot.id
    requires Genuine(d.current.value) && Genuine(r.snapshot)
    requires r.update.value.expected != r.update.value.snapshot.id
    requires MergeBaseline(Loaded(d.baselines, r.update.value.key).value, r.snapshot, r.update.value.candidates)
      == Some(r.update.value.snapshot)
    ensures !Restored(PendingSaved(d, r), PendingFor(d, r)).Lost?
      <==> d.current.value.scope == r.snapshot.scope
  {
    var u := r.update.value;
    var file := Loaded(d.baselines, u.key).value;
    if d.current.value.scope == r.snapshot.scope {
      SameIdSameMerge(file, d.current.value, r.snapshot, u.candidates);
    }
  }
}
