/** What a commit answers and leaves, what a recovery does to the baseline, and what
    becomes of the notes of the turns.
  */
module ManifestAnswers {
  import opened Common
  import opened Snapshots
  import opened Manifest
  import opened ManifestRuns
  import opened ManifestWork
  import opened CoversFacts
  import opened AttributionFacts
  import LedgerRuns
  import Attribution = PathAttribution
  import Covers
  import Reducer = LedgerReducer
  import Turns = LedgerTurns

  // ----- When a commit is refused -------------------------------------------

  /** The agent's open turn, which has this id and is not degraded. */
  ghost predicate GoesOn(l: Ledger, agent: string, turnId: string) {
    agent in l.core.active && l.core.active[agent].turnId == turnId && !l.core.active[agent].degraded
  }

  ghost predicate FileHas(d: Disk, agent: string, turnId: string, id: SnapshotId) {
    var key := BaselineKey(agent, turnId);
    key in d.baselines && d.baselines[key].Readable? && d.baselines[key].snapshot.id == id
  }

  /** What the ledger notes of the turn's baseline is what its file holds. */
  ghost predicate NotedIsStored(d: Disk, noted: string, agent: string, turnId: string) {
    && noted in d.ledger.notes && d.ledger.notes[noted].status == Ready && d.ledger.notes[noted].baselineId.Some?
    && var id := d.ledger.notes[noted].baselineId.value; id.ContentId? && FileHas(d, agent, turnId, id)
  }

  ghost predicate NoBaselineYet(d: Disk, noted: string) {
    noted in d.ledger.notes ==>
      || d.ledger.notes[noted].status == Unset
      || (d.ledger.notes[noted].status == Ready && d.ledger.notes[noted].baselineId == Some(Unavailable))
  }

  /** A template is in place if no open turn concerns it, or the one that does goes
      on, is the one it names and has no baseline yet or the stored one. */
  ghost predicate InPlace(d: Disk, t: Template, noted: string) {
    && t.turnId.Some? && GoesOn(d.ledger, noted, t.turnId.value)
    && (NoBaselineYet(d, noted) || NotedIsStored(d, noted, t.agent, t.turnId.value))
  }

  ghost predicate TemplateFits(d: Disk, t: Template) {
    if t.agent in d.ledger.core.active then
      || (t.turnId.Some? && t.turnId.value != "" && t.turnId.value != d.ledger.core.active[t.agent].turnId)
      || InPlace(d, t, t.agent)
    else
      t.legacyIdentity && d.ledger.core.active.Keys == {"default:default:default"} ==> InPlace(d, t, "default:default:default")
  }

  /** The update replaces the stored baseline; and if the agent has an open turn, it
      is that turn's, noted as it is stored, and covers no path with a net change. */
  ghost predicate UpdateFits(d: Disk, u: BaselineUpdate) {
    && FileHas(d, u.key.agent, u.key.turnId, u.expected)
    && (u.key.agent in d.ledger.core.active ==>
          && GoesOn(d.ledger, u.key.agent, u.key.turnId)
          && u.key.agent in d.ledger.notes && d.ledger.notes[u.key.agent].status != Missing
          && d.ledger.notes[u.key.agent].baselineId == Some(u.expected)
          && forall path | path in u.candidates :: !Revised(d.ledger, u.key.agent, path))
  }

  ghost predicate MayCommit(d: Disk, r: Request) {
    && d.ledger.core.generation == r.generation && IdOf(d.current) == r.expected
    && (r.required.Some? ==>
          && GoesOn(d.ledger, r.required.value.agent, r.required.value.turnId)
          && NotedIsStored(d, r.required.value.agent, r.required.value.agent, r.required.value.turnId))
    && (forall t | t in r.templates :: TemplateFits(d, t))
    && (r.update.Some? ==> UpdateFits(d, r.update.value))
  }

  lemma OnlyLegacy(active: map<string, Reducer.Turn>)
    ensures active.Keys == {"default:default:default"} <==> |active| == 1 && LEGACY_KEY in active
  {
    assert |active| == |active.Keys|;
    if |active| == 1 && LEGACY_KEY in active {
      SubsetSize({LEGACY_KEY}, active.Keys);
    }
  }

  lemma TemplateFitsExactly(d: Disk, t: Template)
    ensures EventTurnIsCurrent(d, t) <==> TemplateFits(d, t)
  {
    OnlyLegacy(d.ledger.core.active);
  }

  lemma UpdateFitsExactly(d: Disk, u: BaselineUpdate)
    requires Told(d.ledger)
    ensures UpdateIsCurrent(d, u) <==> UpdateFits(d, u)
  {
    var agent := u.key.agent;
    if agent in d.ledger.core.active {
      var table := d.ledger.core.active[agent].work;
      assert Turns.TurnTells(d.ledger.core.active[agent], d.ledger.deeds, agent);
      forall path ensures path in table.revisions <==> Revised(d.ledger, agent, path) {
        assert TableAt(table, Turns.WorkOf(d.ledger.deeds, agent), path);
      }
      assert u.candidates !! table.revisions.Keys <==> forall path | path in u.candidates :: path !in table.revisions;
    }
  }

  /** In every run, a commit that can recover is refused if and only if its
      generation or snapshot is not the stored one, a turn it requires has lost its
      baseline, a template's turn does not go on, or its update does not fit. */
  lemma RefusedExactly(d: Disk, steps: seq<Step>, r: Request)
    requires Told(d.ledger) && Recover(RunFrom(d, steps)).ok
    ensures var last := RunFrom(d, steps);
      CommitOf(last, r).outcome.Refused? <==> !MayCommit(AfterAll(last, Recover(last).writes), r)
  {
    RunIsTold(d, steps);
    var last := RunFrom(d, steps);
    RecoveryIsTold(last, |Recover(last).writes|);
    var ready := AfterAll(last, Recover(last).writes);
    forall t | t in r.templates ensures EventTurnIsCurrent(ready, t) <==> TemplateFits(ready, t) {
      TemplateFitsExactly(ready, t);
    }
    if r.update.Some? {
      UpdateFitsExactly(ready, r.update.value);
    }
    assert Admitted(ready, r) <==> MayCommit(ready, r);
  }

  /** What a commit that goes through leaves: the new manifest under the next
      generation, or the same one if it was stored already, the new baseline, and
      no pending record. */
  ghost predicate AllNew(d: Disk, done: Disk, r: Request) {
    && done.current == Some(r.snapshot) && done.ledger.snapshotId == Some(r.snapshot.id) && done.ledger.pending.None?
    && done.ledger.core.generation == r.generation + (if d.current == Some(r.snapshot) then 0 else 1)
    && done.baselines == (if r.update.Some? then d.baselines[r.update.value.key := Readable(r.update.value.snapshot)] else d.baselines)
  }

  /** The stored manifest is the request's already, and no baseline is to move. */
  ghost predicate NothingNew(d: Disk, r: Request) {
    d.current == Some(r.snapshot) && (r.update.Some? ==> r.update.value.snapshot.id == r.update.value.expected)
  }

  lemma TransitionLeavesAllNew(d: Disk, r: Request)
    requires d.ledger.core.generation == r.generation
    ensures AllNew(d, AfterAll(d, TransitionWrites(d, r)), r)
  {
    var writes := TransitionWrites(d, r);
    assert writes[|writes| - 1] == LedgerFinalized(d, r);
  }

  /** In every run: a commit raises if its recovery does, is refused if it does not
      fit, answers "unchanged" and writes nothing more if nothing is new, and leaves
      everything new otherwise. */
  lemma CommitAnswers(d: Disk, steps: seq<Step>, r: Request)
    requires Told(d.ledger)
    ensures var last := RunFrom(d, steps);
      var ready, c := AfterAll(last, Recover(last).writes), CommitOf(last, r);
      if !Recover(last).ok then c == Commit(Recover(last).writes, Raised)
      else if !MayCommit(ready, r) then c == Commit(Recover(last).writes, Refused)
      else if NothingNew(ready, r) then c == Commit(Recover(last).writes, Unchanged(r.generation))
      else c.outcome.Committed? && AllNew(ready, AfterAll(last, c.writes), r)
  {
    var last := RunFrom(d, steps);
    if Recover(last).ok {
      RefusedExactly(d, steps, r);
      var ready := AfterAll(last, Recover(last).writes);
      if Admitted(ready, r) && !ChangesNothing(ready, r) {
        TransitionLeavesAllNew(ready, r);
        AfterConcat(last, Recover(last).writes, TransitionWrites(ready, r), |CommitOf(last, r).writes|);
      }
    }
  }

  // ----- Recovery, on any disk ----------------------------------------------

  /** Recovery raises exactly if `workspace-current` is neither the manifest before
      nor the one after the pending transition, and then writes nothing. */
  lemma RecoveryRaisesExactly(d: Disk)
    ensures !Recover(d).ok <==>
      d.ledger.pending.Some? && IdOf(d.current) !in {d.ledger.pending.value.before, d.ledger.pending.value.after}
    ensures !Recover(d).ok ==> Recover(d).writes == []
  {
  }

  /** Rolled forward, a pending baseline is in its file, or the files are as they
      were and the turn is degraded if it goes on. A file is rewritten only from the
      baseline before, and only at the transition's own generation. */
  lemma BaselineIsNewOrTurnDegraded(d: Disk, p: Pending)
    requires d.ledger.pending == Some(p) && IdOf(d.current) == p.after && d.current.Some? && p.baseline.Some?
    ensures var b, done := p.baseline.value, AfterAll(d, Recover(d).writes);
      && (FileHas(done, b.key.agent, b.key.turnId, b.after)
          || (done.baselines == d.baselines
              && (GoesOn(d.ledger, b.key.agent, b.key.turnId) && NeverCollected(Working(d, p).core, p.events, b.key.agent) ==>
                    IsDegraded(done.ledger, b.key.agent))))
      && (done.baselines != d.baselines ==>
            FileHas(d, b.key.agent, b.key.turnId, b.before) && d.ledger.core.generation == p.baseGeneration)
  {
    ForwardEnds(d, p);
    var b := p.baseline.value;
    if GoesOn(d.ledger, b.key.agent, b.key.turnId) && NeverCollected(Working(d, p).core, p.events, b.key.agent) {
      FinalizedNotes(Working(d, p), p);
    }
  }

  // ----- Notes --------------------------------------------------------------

  /** A committed event leaves the note of the turn it goes on with, and gives a
      turn that it opens its own; other notes stay. */
  lemma CommittedNotes(l: Ledger, e: ChangeEvent)
    ensures var event := Committable(e);
      var k := Reducer.TurnKey(l.core.active, event);
      && (forall agent | agent != k :: NoteOf(ApplyCommitted(l, e), agent) == NoteOf(l, agent))
      && NoteOf(ApplyCommitted(l, e), k) ==
           if Takes(l.core, e) && Turns.OpensTurn(l.core.active, event, k) then e.body.opening else NoteOf(l, k)
  {
    var event := Committable(e);
    var k := Reducer.TurnKey(l.core.active, event);
    assert k in l.core.active ==>
      (Turns.OpensTurn(l.core.active, event, k) <==> Turns.Idle(l.core.active[k], event) && !Turns.Names(l.core.active[k], event));
  }

  lemma {:induction false} AppliedNotes(l: Ledger, events: seq<ChangeEvent>, agent: string)
    requires agent in l.core.active && NeverCollected(l.core, events, agent)
    ensures NoteOf(ApplyAll(l, events), agent) == NoteOf(l, agent)
  {
    if events != [] {
      var init, last := events[..|events| - 1], events[|events| - 1];
      forall i | 0 <= i < |init|
        ensures !Reducer.Collects(CoreAfter(l.core, init[..i]), Committable(init[i]), agent)
      {
        assert init[..i] == events[..i];
      }
      AppliedNotes(l, init, agent);
      TurnStays(l.core, init, agent);
      ApplyAllCore(l, init);
      CommittedNotes(ApplyAll(l, init), last);
      assert !Reducer.Collects(CoreAfter(l.core, init), Committable(last), agent);
    }
  }

  /** Finalizing notes the new baseline at the turn it belongs to, if that goes on
      and is not degraded, and leaves the note of every other turn that goes on. */
  lemma FinalizedNotesExactly(l: Ledger, p: Pending, agent: string)
    requires agent in l.core.active && NeverCollected(l.core, p.events, agent)
    ensures NoteOf(Finalized(l, p), agent) ==
      if p.baseline.Some? && p.baseline.value.key.agent == agent && GoesOn(l, agent, p.baseline.value.key.turnId)
      then Note(Ready, Some(p.baseline.value.after)) else NoteOf(l, agent)
  {
    AppliedNotes(l, p.events, agent);
    TurnStays(l.core, p.events, agent);
    ApplyAllCore(l, p.events);
  }

  // ----- What a committed event carries -------------------------------------

  /** A path that a committed event changed, if it has a net change, stands in the
      table of the event's turn under the event's number and the generation of its
      transition. */
  lemma CommittedIsNumbered(l: Ledger, e: ChangeEvent, key: string)
    requires Told(l) && Takes(l.core, e)
    requires LastOn(RecordingsOf(e.body.paths, e.body.paths.items), key).Some?
    ensures var k, r := Reducer.TurnKey(l.core.active, Committable(e)), ApplyCommitted(l, e);
      && k in r.core.active
      && (key in r.core.active[k].work.revisions ==>
            r.core.active[k].work.revisions[key].seqNo == e.seqNo
            && r.core.active[k].work.revisions[key].generation == e.generation)
  {
    var event := Committable(e);
    var k, r := Reducer.TurnKey(l.core.active, event), ApplyCommitted(l, e);
    CommittedIsTold(l, e);
    Turns.OwnTurn(l.core, event);
    assert Turns.TurnTells(r.core.active[k], r.deeds, k);
    assert TableAt(r.core.active[k].work, Turns.WorkOf(r.deeds, k), key);
    SamePaths(e.body.paths, event.kind.paths, event.kind.paths.items, key);
    LastChangeIsLast(l.deeds, Turns.DeedsOf(l.core, event)[0], key);
  }

  lemma {:induction false} SamePaths(a: Covers.Change, b: Covers.Change, items: seq<Covers.Item>, key: string)
    ensures LastOn(RecordingsOf(a, items), key).Some? <==> LastOn(RecordingsOf(b, items), key).Some?
  {
    if items != [] {
      SamePaths(a, b, items[..|items| - 1], key);
      var x, y := RecordingsOf(a, items), RecordingsOf(b, items);
      assert x[..|x| - 1] == RecordingsOf(a, items[..|items| - 1]) && y[..|y| - 1] == RecordingsOf(b, items[..|items| - 1]);
    }
  }

  lemma LastChangeIsLast(deeds: seq<Turns.Deed>, deed: Turns.Deed, key: string)
    requires deed.event.kind.ChangeEvent?
    requires LastOn(RecordingsOf(deed.event.kind.paths, deed.event.kind.paths.items), key).Some?
    ensures var last := LastOn(Turns.WorkOf(deeds + [deed], deed.key), key);
      last.Some? && last.value.change == deed.event.kind.paths
  {
    Turns.OwnDeed(deeds, deed);
    var cs, c := Turns.ChangesSince(deeds + [deed], deed.key), deed.event.kind.paths;
    assert cs[|cs| - 1] == c;
    LastOfConcat(HistoryOf(cs[..|cs| - 1]), RecordingsOf(c, c.items), key);
    RecordingsCome(c, c.items);
  }

  /** The last path of a committed event, if the index takes the event, is listed as
      its agent's unsettled revision under its number; or why not is on record:
      the index is full, the path has too many owners, or something newer is there. */
  lemma CommittedIsListed(l: Ledger, e: ChangeEvent, item: Attribution.PathItem)
    requires IndexOk(l.core.attribution) && Takes(l.core, e) && e.generation > 0
    requires e.body.change.owner.Some? && e.body.change.owner.value == e.body.change.agent != ""
    requires e.body.change.paths != [] && item == e.body.change.paths[|e.body.change.paths| - 1]
    requires item.key != "" && item.after.Digest?
    ensures var r := ApplyCommitted(l, e).core.attribution;
      || r.capacityExceeded
      || (item.key in r.entries
          && (|| (exists o | o in r.entries[item.key].owners ::
                    o.agent == e.body.agent && o.revisionSeq == e.seqNo && o.digest == item.after.value && !o.settled)
              || r.entries[item.key].overflow || e.generation < r.entries[item.key].generation
              || exists o | o in r.entries[item.key].owners :: o.agent == e.body.agent && e.seqNo < o.revisionSeq))
  {
    var c := Committable(e).kind.change;
    var a := l.core.attribution;
    LedgerRuns.AttributionAfter(l.core, Committable(e));
    ItemsRecordedOk(Attribution.Work(a, |Attribution.LiveKeys(a.entries)|), c, e.generation, c.paths[..|c.paths| - 1]);
    var w := Attribution.ItemsRecorded(
      Attribution.Work(a, |Attribution.LiveKeys(a.entries)|), c, e.generation, c.paths[..|c.paths| - 1]);
    NotListedIsOnRecord(w, c, e.generation, item);
    assert ListedOrOnRecord(ApplyCommitted(l, e).core.attribution, c, e.generation, item.key, item.after.value);
  }
}
