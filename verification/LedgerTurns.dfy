/** What the events that a ledger took say about its open turns: which event opened
    a turn, when it was last used and what it changed.
  */
module LedgerTurns {
  import opened Common
  import opened Ordering
  import opened LedgerReducer
  import opened CoversFacts
  import Covers

  // ----- The events a ledger took -------------------------------------------

  /** An event that a turn took, the agent it belongs to, and whether the event
      opened the turn. */
  datatype Deed = Deed(key: string, opens: bool, event: Event)

  predicate Names(turn: Turn, e: Event) {
    e.turnId == Some(turn.turnId)
  }

  /** More than a day has passed since the turn's last event. */
  predicate Idle(turn: Turn, e: Event) {
    turn.lastEventAt.Some? && e.time - turn.lastEventAt.value > 86400
  }

  predicate IsLegacy(k: string, turn: Turn) {
    k == "default" && turn.legacy
  }

  /** The event finds no turn to go on with: there is none, it was idle for a day
      and the event does not name it, or a prompt starts it over. */
  predicate OpensTurn(active: map<string, Turn>, e: Event, k: string) {
    || k !in active
    || (Idle(active[k], e) && !Names(active[k], e))
    || (e.kind.Prompt? && !(Names(active[k], e) && active[k].degraded && !IsLegacy(k, active[k])))
  }

  /** Nothing for an event that a guard drops or that finishes a turn. */
  function DeedsOf(l: Ledger, e: Event): seq<Deed> {
    if !Reaches(l, e) || e.kind.Finished? then [] else
      var k := TurnKey(l.active, e);
      [Deed(k, OpensTurn(l.active, e, k), e)]
  }

  // ----- What they say of an agent's turn -----------------------------------

  function LastDeed(deeds: seq<Deed>, k: string): (r: Option<Deed>)
    ensures r.Some? ==> r.value.key == k && r.value in deeds
  {
    if deeds == [] then None
    else if deeds[|deeds| - 1].key == k then Some(deeds[|deeds| - 1])
    else LastDeed(deeds[..|deeds| - 1], k)
  }

  /** The event that opened the turn. */
  function Opening(deeds: seq<Deed>, k: string): Option<Event> {
    if deeds == [] then None else
      var last := deeds[|deeds| - 1];
      if last.key == k && last.opens then Some(last.event) else Opening(deeds[..|deeds| - 1], k)
  }

  function ChangesIn(e: Event): seq<Covers.Change> {
    if e.kind.ChangeEvent? then [e.kind.paths] else []
  }

  /** The changes since the turn was opened; one that opens a turn comes twice. */
  function ChangesSince(deeds: seq<Deed>, k: string): seq<Covers.Change> {
    if deeds == [] then [] else
      var init, last := deeds[..|deeds| - 1], deeds[|deeds| - 1];
      if last.key != k then ChangesSince(init, k)
      else if !last.opens then ChangesSince(init, k) + ChangesIn(last.event)
      else if last.event.kind.ChangeEvent? then [Covers.Unattributed(last.event.kind.paths), last.event.kind.paths]
      else []
  }

  /** The changed paths of an agent's turn. */
  function WorkOf(deeds: seq<Deed>, k: string): seq<Recording> {
    HistoryOf(ChangesSince(deeds, k))
  }

  function ResultsIn(e: Event): seq<Covers.Outcome> {
    match e.kind
    case VerificationEvent(v, covers) => [Covers.Outcome(v.success, covers)]
    case _ => []
  }

  /** The results since the turn was opened or last prompted. */
  function ResultsSince(deeds: seq<Deed>, k: string): seq<Covers.Outcome> {
    if deeds == [] then [] else
      var init, last := deeds[..|deeds| - 1], deeds[|deeds| - 1];
      if last.key != k then ResultsSince(init, k)
      else (if last.opens || last.event.kind.Prompt? then [] else ResultsSince(init, k)) + ResultsIn(last.event)
  }

  ghost predicate TurnTells(turn: Turn, deeds: seq<Deed>, k: string) {
    && LastDeed(deeds, k).Some? && turn.lastEventAt == Some(LastDeed(deeds, k).value.event.time)
    && Opening(deeds, k).Some? && turn.turnId == TurnIdOf(Opening(deeds, k).value)
    && TableTrue(turn.work, WorkOf(deeds, k))
    && turn.work.tracked == (ChangesSince(deeds, k) != [])
    && turn.work.results == ResultsSince(deeds, k)
  }

  /** Every open turn has the id its opening event gave it, was last used by the
      last event it took, and its table and results tell its work. */
  ghost predicate TurnsTell(active: map<string, Turn>, deeds: seq<Deed>) {
    forall k | k in active :: TurnTells(active[k], deeds, k)
  }

  // ----- One more event -----------------------------------------------------

  lemma OtherDeed(deeds: seq<Deed>, d: Deed, k: string)
    requires d.key != k
    ensures LastDeed(deeds + [d], k) == LastDeed(deeds, k) && Opening(deeds + [d], k) == Opening(deeds, k)
    ensures ChangesSince(deeds + [d], k) == ChangesSince(deeds, k) && ResultsSince(deeds + [d], k) == ResultsSince(deeds, k)
  {
    assert (deeds + [d])[..|deeds|] == deeds;
  }

  lemma OwnDeed(deeds: seq<Deed>, d: Deed)
    ensures LastDeed(deeds + [d], d.key) == Some(d)
    ensures Opening(deeds + [d], d.key) == if d.opens then Some(d.event) else Opening(deeds, d.key)
    ensures ChangesSince(deeds + [d], d.key) ==
      if !d.opens then ChangesSince(deeds, d.key) + ChangesIn(d.event)
      else if d.event.kind.ChangeEvent? then [Covers.Unattributed(d.event.kind.paths), d.event.kind.paths] else []
    ensures ResultsSince(deeds + [d], d.key) ==
      (if d.opens || d.event.kind.Prompt? then [] else ResultsSince(deeds, d.key)) + ResultsIn(d.event)
  {
    assert (deeds + [d])[..|deeds|] == deeds;
  }

  lemma {:induction false} ItemsKeepResults(work: Covers.Turn, c: Covers.Change, items: seq<Covers.Item>)
    ensures Covers.ItemsRecorded(work, c, items).results == work.results
  {
    if items != [] {
      ItemsKeepResults(work, c, items[..|items| - 1]);
    }
  }

  lemma WorkedTells(work: Covers.Turn, cs: seq<Covers.Change>, e: Event)
    requires TableTrue(work, HistoryOf(cs))
    ensures TableTrue(Worked(work, e), HistoryOf(cs + ChangesIn(e)))
    ensures work.tracked == (cs != []) ==> Worked(work, e).tracked == (cs + ChangesIn(e) != [])
    ensures Worked(work, e).results == work.results + ResultsIn(e)
  {
    match e.kind {
      case ChangeEvent(_, paths, _) =>
        ChangeKeepsTable(work, HistoryOf(cs), paths);
        ItemsKeepResults(work, paths, paths.items);
        assert (cs + [paths])[..|cs|] == cs;
      case _ =>
        SameTable(work, Worked(work, e), HistoryOf(cs));
        assert cs + [] == cs;
    }
  }

  lemma NewTurnTells(e: Event)
    ensures TableTrue(NewTurn(e).work, HistoryOf(if e.kind.ChangeEvent? then [Covers.Unattributed(e.kind.paths)] else []))
    ensures TableTrue(OpenedTurn(e).work,
      HistoryOf(if e.kind.ChangeEvent? then [Covers.Unattributed(e.kind.paths), e.kind.paths] else []))
    ensures NewTurn(e).work.tracked == OpenedTurn(e).work.tracked == e.kind.ChangeEvent?
    ensures NewTurn(e).work.results == OpenedTurn(e).work.results == ResultsIn(e)
  {
    NothingRecorded();
    var first := if e.kind.ChangeEvent? then e.(kind := e.kind.(paths := Covers.Unattributed(e.kind.paths))) else e;
    WorkedTells(Covers.START, [], first);
    assert [] + ChangesIn(first) == ChangesIn(first);
    if e.kind.ChangeEvent? {
      WorkedTells(NewTurn(e).work, [Covers.Unattributed(e.kind.paths)], e);
      assert [Covers.Unattributed(e.kind.paths)] + [e.kind.paths] == [Covers.Unattributed(e.kind.paths), e.kind.paths];
    }
  }

  lemma OpenedTells(deeds: seq<Deed>, e: Event, k: string)
    requires !e.kind.Finished?
    ensures TurnTells(if e.kind.Prompt? then NewTurn(e) else OpenedTurn(e), deeds + [Deed(k, true, e)], k)
  {
    OwnDeed(deeds, Deed(k, true, e));
    NewTurnTells(e);
  }

  lemma ContinuedTells(turn: Turn, deeds: seq<Deed>, e: Event, k: string)
    requires TurnTells(turn, deeds, k) && !e.kind.Prompt?
    ensures TurnTells(turn.(lastEventAt := Some(e.time), work := Worked(turn.work, e)), deeds + [Deed(k, false, e)], k)
  {
    OwnDeed(deeds, Deed(k, false, e));
    WorkedTells(turn.work, ChangesSince(deeds, k), e);
  }

  lemma RepromptedTells(turn: Turn, deeds: seq<Deed>, e: Event, k: string)
    requires TurnTells(turn, deeds, k) && e.kind.Prompt?
    ensures TurnTells(Reprompted(turn, e), deeds + [Deed(k, false, e)], k)
  {
    OwnDeed(deeds, Deed(k, false, e));
    assert ChangesSince(deeds, k) + [] == ChangesSince(deeds, k);
    SameTable(turn.work, Reprompted(turn, e).work, WorkOf(deeds, k));
  }

  /** The turns that are open when an event takes effect. */
  lemma ReadyTurns(l: Ledger, e: Event)
    ensures var key := TurnKey(l.active, e);
      var ready := Prepared(Counted(l, e), e, key);
      forall k :: k in ready.active <==> k in l.active && (!Idle(l.active[k], e) || (k == key && Names(l.active[k], e)))
    ensures var ready := Prepared(Counted(l, e), e, TurnKey(l.active, e));
      forall k | k in ready.active :: ready.active[k] == l.active[k]
  {
    var key := TurnKey(l.active, e);
    CollectedLeaves(Counted(l, e), e.time, if NamesActive(l, e, key) then Some(key) else None);
  }

  /** What the event makes of its turn. */
  function TurnAfter(active: map<string, Turn>, e: Event, k: string): Turn {
    if OpensTurn(active, e, k) then (if e.kind.Prompt? then NewTurn(e) else OpenedTurn(e))
    else if e.kind.Prompt? then Reprompted(active[k], e)
    else active[k].(lastEventAt := Some(e.time), work := Worked(active[k].work, e))
  }

  lemma OwnTurn(l: Ledger, e: Event)
    requires Reaches(l, e) && !e.kind.Finished?
    ensures var k := TurnKey(l.active, e);
      k in Applied(l, e).active && Applied(l, e).active[k] == TurnAfter(l.active, e, k)
  {
    var k := TurnKey(l.active, e);
    var ready := Prepared(Counted(l, e), e, k);
    ReadyTurns(l, e);
    assert Applied(l, e) == if e.kind.Prompt? then AfterPrompt(ready, e, k) else AfterOther(ready, e, k);
    ReadyOwnTurn(l.active, ready, e, k);
  }

  lemma ReadyOwnTurn(active: map<string, Turn>, ready: Ledger, e: Event, k: string)
    requires !e.kind.Finished?
    requires k in ready.active <==> k in active && (!Idle(active[k], e) || Names(active[k], e))
    requires k in ready.active ==> ready.active[k] == active[k]
    ensures var r := if e.kind.Prompt? then AfterPrompt(ready, e, k) else AfterOther(ready, e, k);
      k in r.active && r.active[k] == TurnAfter(active, e, k)
  {
  }

  lemma TurnAfterTells(active: map<string, Turn>, deeds: seq<Deed>, e: Event, k: string)
    requires TurnsTell(active, deeds) && !e.kind.Finished?
    ensures TurnTells(TurnAfter(active, e, k), deeds + [Deed(k, OpensTurn(active, e, k), e)], k)
  {
    if OpensTurn(active, e, k) {
      OpenedTells(deeds, e, k);
    } else {
      assert TurnTells(active[k], deeds, k);
      if e.kind.Prompt? {
        RepromptedTells(active[k], deeds, e, k);
      } else {
        ContinuedTells(active[k], deeds, e, k);
      }
    }
  }

  /** Whatever the event does to its own turn, it adds no other. */
  lemma FromReady(ready: Ledger, e: Event, key: string, k: string)
    requires k != key || e.kind.Finished?
    ensures var r := match e.kind
                     case Finished => AfterFinish(ready, e, key)
                     case Prompt => AfterPrompt(ready, e, key)
                     case _ => AfterOther(ready, e, key);
      k in r.active ==> k in ready.active && r.active[k] == ready.active[k]
  {
  }

  /** Every other turn that is still open is as it was. */
  lemma OthersUntouched(l: Ledger, e: Event)
    ensures forall k | k in Applied(l, e).active && (k != TurnKey(l.active, e) || e.kind.Finished? || !Reaches(l, e)) ::
      k in l.active && Applied(l, e).active[k] == l.active[k]
  {
    ReadyTurns(l, e);
    var key := TurnKey(l.active, e);
    forall k | k in Applied(l, e).active && (k != key || e.kind.Finished? || !Reaches(l, e))
      ensures k in l.active && Applied(l, e).active[k] == l.active[k]
    {
      if Reaches(l, e) {
        FromReady(Prepared(Counted(l, e), e, key), e, key, k);
      }
    }
  }

  lemma AppliedTells(l: Ledger, e: Event, deeds: seq<Deed>)
    requires TurnsTell(l.active, deeds)
    ensures TurnsTell(Applied(l, e).active, deeds + DeedsOf(l, e))
  {
    OthersUntouched(l, e);
    var r := Applied(l, e);
    if !Reaches(l, e) || e.kind.Finished? {
      assert deeds + [] == deeds;
    } else {
      OwnTurn(l, e);
      TurnAfterTells(l.active, deeds, e, TurnKey(l.active, e));
      forall k | k in r.active && k != TurnKey(l.active, e) ensures TurnTells(r.active[k], deeds + DeedsOf(l, e), k) {
        assert TurnTells(l.active[k], deeds, k);
        OtherDeed(deeds, DeedsOf(l, e)[0], k);
      }
    }
  }

  /** An event that reaches the reducer and is not a finish leaves its turn open
      and last used at its time; every other open turn keeps its own. */
  lemma EventRefreshes(l: Ledger, e: Event)
    requires Reaches(l, e) && !e.kind.Finished?
    ensures var key := TurnKey(l.active, e);
      && key in Applied(l, e).active && Applied(l, e).active[key].lastEventAt == Some(e.time)
      && forall k | k in Applied(l, e).active && k != key :: k in l.active && Applied(l, e).active[k] == l.active[k]
  {
    OwnTurn(l, e);
    OthersUntouched(l, e);
  }

  /** What the collection before an event closes, by the events taken so far: a turn
      whose last event is more than a day older, unless the event names it as its
      own. */
  predicate LastUsedTooLongAgo(deeds: seq<Deed>, k: string, e: Event) {
    LastDeed(deeds, k).Some? && e.time - LastDeed(deeds, k).value.event.time > 86400
  }

  lemma OthersSurvive(l: Ledger, e: Event, k: string)
    requires Reaches(l, e) && k in l.active && k != TurnKey(l.active, e) && !(e.kind.Prompt? && IsLegacy(k, l.active[k]))
    ensures k in Applied(l, e).active <==> !Idle(l.active[k], e)
  {
    ReadyTurns(l, e);
  }

  lemma OwnSurvives(l: Ledger, e: Event)
    requires Reaches(l, e) && TurnKey(l.active, e) in l.active
    ensures var k := TurnKey(l.active, e);
      var closes := Idle(l.active[k], e) && !Names(l.active[k], e);
      if e.kind.Finished? then k in Applied(l, e).active <==> !closes && !Names(l.active[k], e)
      else k in Applied(l, e).active
           && (!e.kind.Prompt? ==> Applied(l, e).active[k].turnId == if closes then TurnIdOf(e) else l.active[k].turnId)
  {
    if e.kind.Finished? {
      ReadyTurns(l, e);
    } else {
      OwnTurn(l, e);
    }
  }

  lemma CollectsExactly(l: Ledger, e: Event, deeds: seq<Deed>, k: string)
    requires TurnsTell(l.active, deeds) && Reaches(l, e) && k in l.active
    ensures var key := TurnKey(l.active, e);
      var closes := LastUsedTooLongAgo(deeds, k, e) && !(k == key && Names(l.active[k], e));
      && (k in Prepared(Counted(l, e), e, key).active <==> !closes)
      && (k != key && !(e.kind.Prompt? && IsLegacy(k, l.active[k])) ==> (k in Applied(l, e).active <==> !closes))
      && (k == key && !e.kind.Prompt? && !e.kind.Finished? ==>
            k in Applied(l, e).active
            && Applied(l, e).active[k].turnId == if closes then TurnIdOf(e) else l.active[k].turnId)
      && (k == key && e.kind.Finished? ==> (k in Applied(l, e).active <==> !closes && !Names(l.active[k], e)))
  {
    assert TurnTells(l.active[k], deeds, k);
    assert Idle(l.active[k], e) <==> LastUsedTooLongAgo(deeds, k, e);
    ReadyTurns(l, e);
    if k == TurnKey(l.active, e) {
      OwnSurvives(l, e);
    } else if !(e.kind.Prompt? && IsLegacy(k, l.active[k])) {
      OthersSurvive(l, e, k);
    }
  }

  // ----- Maintenance --------------------------------------------------------

  lemma {:induction false} RetireAllLeaves(l: Ledger, keys: seq<string>)
    ensures forall k | k in RetireAll(l, keys).active :: k in l.active && RetireAll(l, keys).active[k] == l.active[k]
  {
    if keys != [] {
      RetireAllLeaves(l, keys[..|keys| - 1]);
    }
  }

  lemma MaintainedTells(l: Ledger, close: seq<string>, retire: seq<string>, deeds: seq<Deed>)
    requires TurnsTell(l.active, deeds)
    ensures TurnsTell(Maintained(l, close, retire).active, deeds)
  {
    CloseAllLeaves(l, close);
    RetireAllLeaves(CloseAll(l, close), retire);
  }
}
