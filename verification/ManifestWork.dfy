/** What the manifest's history says about the turns of its ledger: over every run an
    open turn's changed paths are the net changes it took, and a baseline update
    that touches one of them is refused.
  */
module ManifestWork {
  import opened Common
  import opened Snapshots
  import opened Manifest
  import opened ManifestRuns
  import opened CoversFacts
  import Reducer = LedgerReducer
  import Turns = LedgerTurns

  // ----- The history --------------------------------------------------------

  /** The event is among those that a turn took. */
  ghost predicate Took(deeds: seq<Turns.Deed>, e: ChangeEvent) {
    exists x | x in deeds :: x.event == Committable(e)
  }

  /** The open turns are what the history says, and every committed event that the
      reducer took is part of it. */
  ghost predicate Told(l: Ledger) {
    Turns.TurnsTell(l.core.active, l.deeds) && forall e | e in l.applied :: Took(l.deeds, e)
  }

  lemma TookGrows(deeds: seq<Turns.Deed>, more: seq<Turns.Deed>)
    ensures forall e | Took(deeds, e) :: Took(deeds + more, e)
  {
    forall e | Took(deeds, e) ensures Took(deeds + more, e) {
      var x :| x in deeds && x.event == Committable(e);
      assert x in deeds + more;
    }
  }

  /** A ledger without turns starts a history. */
  lemma FreshIsTold(l: Ledger)
    requires l.core.active == map[] && l.applied == []
    ensures Told(l)
  {
  }

  // ----- Every step keeps it ------------------------------------------------

  lemma CommittedIsTold(l: Ledger, e: ChangeEvent)
    requires Told(l)
    ensures Told(ApplyCommitted(l, e))
  {
    var event := Committable(e);
    Turns.AppliedTells(l.core, event, l.deeds);
    TookGrows(l.deeds, Turns.DeedsOf(l.core, event));
    var r := ApplyCommitted(l, e);
    if Takes(l.core, e) {
      assert r.deeds[|l.deeds|].event == event;
      assert Took(r.deeds, e);
    } else {
      assert l.deeds + [] == l.deeds;
    }
  }

  lemma {:induction false} AllCommittedTold(l: Ledger, events: seq<ChangeEvent>)
    requires Told(l)
    ensures Told(ApplyAll(l, events))
  {
    if events != [] {
      AllCommittedTold(l, events[..|events| - 1]);
      CommittedIsTold(ApplyAll(l, events[..|events| - 1]), events[|events| - 1]);
    }
  }

  /** The mark that a turn is degraded is no part of the history. */
  lemma MarkingIsTold(active: map<string, Reducer.Turn>, marked: map<string, Reducer.Turn>, deeds: seq<Turns.Deed>)
    requires Turns.TurnsTell(active, deeds)
    requires forall k | k in marked :: k in active && marked[k] == active[k].(degraded := marked[k].degraded)
    ensures Turns.TurnsTell(marked, deeds)
  {
    forall k | k in marked ensures Turns.TurnTells(marked[k], deeds, k) {
      assert Turns.TurnTells(active[k], deeds, k);
    }
  }

  lemma FinalizedIsTold(l: Ledger, p: Pending)
    requires Told(l)
    ensures Told(Finalized(l, p)) && Told(Finalized(DegradedLedger(l, p), p))
  {
    MarkingIsTold(l.core.active, DegradedLedger(l, p).core.active, l.deeds);
    AllCommittedTold(l, p.events);
    AllCommittedTold(DegradedLedger(l, p), p.events);
  }

  lemma RecoveryIsTold(d: Disk, cut: nat)
    requires Told(d.ledger)
    ensures Told(After(d, Recover(d).writes, cut).ledger)
  {
    if d.ledger.pending.Some? {
      var p := d.ledger.pending.value;
      FinalizedIsTold(d.ledger, p);
      if IdOf(d.current) == p.after {
        ForwardWrites(d, p);
      } else if IdOf(d.current) == p.before {
        BackwardWrites(d, p);
      }
    }
    AfterIsSome(d, Recover(d).writes, cut);
  }

  lemma TransitionIsTold(d: Disk, r: Request, cut: nat)
    requires Told(d.ledger)
    ensures Told(After(d, TransitionWrites(d, r), cut).ledger)
  {
    FinalizedIsTold(PendingSaved(d, r).ledger, PendingFor(d, r));
    WritesAmong(d, r);
    AfterIsSome(d, TransitionWrites(d, r), cut);
  }

  lemma CommitIsTold(d: Disk, r: Request, cut: nat)
    requires Told(d.ledger)
    ensures Told(After(d, CommitOf(d, r).writes, cut).ledger)
  {
    var recovery := Recover(d);
    var ready := AfterAll(d, recovery.writes);
    RecoveryIsTold(d, cut);
    RecoveryIsTold(d, |recovery.writes|);
    if recovery.ok && Admitted(ready, r) && !ChangesNothing(ready, r) {
      AfterConcat(d, recovery.writes, TransitionWrites(ready, r), cut);
      if cut > |recovery.writes| {
        TransitionIsTold(ready, r, cut - |recovery.writes|);
      }
    }
  }

  lemma OutsideIsTold(l: Ledger, e: Reducer.Event, notes: map<string, Note>, degraded: set<string>)
    requires Told(l)
    ensures Told(Outside(l, e, notes, degraded))
  {
    var event := Numbering(l.core, e);
    Turns.AppliedTells(l.core, event, l.deeds);
    TookGrows(l.deeds, Turns.DeedsOf(l.core, event));
    MarkingIsTold(
      Reducer.Applied(l.core, event).active, Outside(l, e, notes, degraded).core.active,
      l.deeds + Turns.DeedsOf(l.core, event));
  }

  lemma StepIsTold(d: Disk, s: Step)
    requires Told(d.ledger)
    ensures Told(Next(d, s).ledger)
  {
    match s
    case CommitStep(r, cut) => CommitIsTold(d, r, cut);
    case RecoverStep(cut) => RecoveryIsTold(d, cut);
    case EventStep(e, notes, degraded) => OutsideIsTold(d.ledger, e, notes, degraded);
    case MaintainStep(close, retire) => Turns.MaintainedTells(d.ledger.core, close, retire, d.ledger.deeds);
    case LoseStep(_, _) =>
  }

  lemma {:induction false} RunIsTold(d: Disk, steps: seq<Step>)
    requires Told(d.ledger)
    ensures Told(RunFrom(d, steps).ledger)
  {
    if steps != [] {
      RunIsTold(d, steps[..|steps| - 1]);
      StepIsTold(RunFrom(d, steps[..|steps| - 1]), steps[|steps| - 1]);
    }
  }

  // ----- What an open turn changed ------------------------------------------

  /** The path has a net change among those the agent's open turn took, committed
      or not. */
  ghost predicate Revised(l: Ledger, agent: string, path: string) {
    agent in l.core.active && NetChanged(Turns.WorkOf(l.deeds, agent), path)
  }

  /** In every run, however it crashes and recovers, the ledger's table of an open
      turn's changed paths holds exactly the net changes of the events it took. */
  lemma RevisedExactly(d: Disk, steps: seq<Step>, agent: string, path: string)
    requires Told(d.ledger) && agent in RunFrom(d, steps).ledger.core.active
    ensures var l := RunFrom(d, steps).ledger;
      path in l.core.active[agent].work.revisions <==> Revised(l, agent, path)
  {
    RunIsTold(d, steps);
    var l := RunFrom(d, steps).ledger;
    assert Turns.TurnTells(l.core.active[agent], l.deeds, agent);
    assert TableAt(l.core.active[agent].work, Turns.WorkOf(l.deeds, agent), path);
  }

  /** In every run, a commit whose baseline update covers such a path of the agent
      is refused, and writes nothing but its recovery. */
  lemma RevisedIsRefused(d: Disk, steps: seq<Step>, r: Request, path: string)
    requires Told(d.ledger) && r.update.Some? && path in r.update.value.candidates
    requires var last := RunFrom(d, steps);
      && Recover(last).ok
      && Revised(AfterAll(last, Recover(last).writes).ledger, r.update.value.key.agent, path)
    ensures CommitOf(RunFrom(d, steps), r) == Commit(Recover(RunFrom(d, steps)).writes, Refused)
  {
    RunIsTold(d, steps);
    var last, agent := RunFrom(d, steps), r.update.value.key.agent;
    RecoveryIsTold(last, |Recover(last).writes|);
    var l := AfterAll(last, Recover(last).writes).ledger;
    assert Turns.TurnTells(l.core.active[agent], l.deeds, agent);
    assert TableAt(l.core.active[agent].work, Turns.WorkOf(l.deeds, agent), path);
    assert path in l.core.active[agent].work.revisions.Keys;
  }
}
