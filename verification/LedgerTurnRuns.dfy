/** Open turns over whole runs of the ledger, read off the steps. */
module LedgerTurnRuns {
  import opened Common
  import opened LedgerReducer
  import opened LedgerRuns
  import opened LedgerTurns
  import opened CoversFacts

  /** The events of the steps that turns took. */
  function DeedsOver(l: Ledger, steps: seq<Step>): seq<Deed> {
    if steps == [] then [] else
      var init, s := steps[..|steps| - 1], steps[|steps| - 1];
      DeedsOver(l, init) + if s.Take? then DeedsOf(RunFrom(l, init), s.event) else []
  }

  /** In every run from a ledger without turns, each open turn was last used by the
      last event it took, and its table tells the changes it took since it was
      opened. */
  lemma {:induction false} RunTells(l: Ledger, steps: seq<Step>)
    requires l.active == map[]
    ensures TurnsTell(RunFrom(l, steps).active, DeedsOver(l, steps))
  {
    if steps != [] {
      var init, s := steps[..|steps| - 1], steps[|steps| - 1];
      RunTells(l, init);
      var was, deeds := RunFrom(l, init), DeedsOver(l, init);
      match s {
        case Take(e) => AppliedTells(was, e, deeds);
        case Maintain(close, retire) =>
          MaintainedTells(was, close, retire, deeds);
          assert deeds + [] == deeds;
        case Reload => assert deeds + [] == deeds;
      }
    }
  }

  /** In every run, an event closes an agent's idle turn if and only if more than 24
      hours separate it from the last event that the turn took, and it is not the
      turn it names. */
  lemma RunCollectsExactly(l: Ledger, steps: seq<Step>, e: Event, k: string)
    requires l.active == map[]
    requires var was := RunFrom(l, steps); Reaches(was, e) && k in was.active
    ensures var was, deeds := RunFrom(l, steps), DeedsOver(l, steps);
      var key := TurnKey(was.active, e);
      var idle := LastUsedTooLongAgo(deeds, k, e);
      && LastDeed(deeds, k).Some?
      && (k in Prepared(Counted(was, e), e, key).active <==> !idle || (k == key && Names(was.active[k], e)))
      && (k != key && !(e.kind.Prompt? && IsLegacy(k, was.active[k])) ==> (k in Applied(was, e).active <==> !idle))
  {
    RunTells(l, steps);
    assert TurnTells(RunFrom(l, steps).active[k], DeedsOver(l, steps), k);
    CollectsExactly(RunFrom(l, steps), e, DeedsOver(l, steps), k);
  }

  /** In every run, an open turn's changed paths are exactly those with a net change
      among the changes it took since it was opened. */
  lemma RunRevisesExactly(l: Ledger, steps: seq<Step>, k: string, path: string)
    requires l.active == map[] && k in RunFrom(l, steps).active
    ensures path in RunFrom(l, steps).active[k].work.revisions <==> NetChanged(WorkOf(DeedsOver(l, steps), k), path)
  {
    RunTells(l, steps);
    assert TurnTells(RunFrom(l, steps).active[k], DeedsOver(l, steps), k);
    assert TableAt(RunFrom(l, steps).active[k].work, WorkOf(DeedsOver(l, steps), k), path);
  }
}
