/** Whole runs of the ledger: events, stale-turn collection, maintenance and
    reloads from disk, in any order.
  */
module LedgerRuns {
  import opened Common
  import opened Ordering
  import opened PathAttribution
  import opened AttributionFacts
  import opened LedgerReducer
  import Decimals

  /** A stored ledger comes back with its dictionaries in key order. */
  datatype Step = Take(event: Event) | Maintain(close: seq<string>, retire: seq<string>) | Reload

  function Reloaded(l: Ledger): Ledger {
    l.(attribution := l.attribution.(order := Sorted(l.attribution.entries.Keys)))
  }

  function Next(l: Ledger, s: Step): Ledger {
    match s
    case Take(e) => Applied(l, e)
    case Maintain(close, retire) => Maintained(l, close, retire)
    case Reload => Reloaded(l)
  }

  function RunFrom(l: Ledger, steps: seq<Step>): Ledger {
    if steps == [] then l else Next(RunFrom(l, steps[..|steps| - 1]), steps[|steps| - 1])
  }

  // ----- Turn lists ---------------------------------------------------------

  /** No pair of agent and turn is both active and ended; active turns have ids. */
  ghost predicate Apart(l: Ledger) {
    forall k | k in l.active :: l.active[k].turnId != "" && !IsTerminal(l, k, l.active[k].turnId)
  }

  ghost predicate Capped(l: Ledger) {
    |l.closed| <= MAX_CLOSED_TURNS && |l.retired| <= MAX_RETIRED_TURNS
  }

  predicate IsActive(l: Ledger, agent: string, turnId: string) {
    agent in l.active && l.active[agent].turnId == turnId
  }

  predicate NamesTurn(e: Event) {
    e.turnId.Some? && e.turnId.value != ""
  }

  lemma RememberedFacts(closed: seq<Terminal>, agent: string, turnId: string, seqNo: nat, k: string, id: string)
    requires |closed| <= MAX_CLOSED_TURNS
    ensures |Remembered(closed, agent, turnId, seqNo)| <= MAX_CLOSED_TURNS
    ensures Listed(Remembered(closed, agent, turnId, seqNo), k, id)
      ==> Listed(closed, k, id) || (k == agent && id == turnId)
  {
    if turnId != "" {
      var kept := Dropped(closed, agent, turnId);
      var all := kept + [Terminal(agent, turnId, seqNo)];
      if t :| t in LastOf(all, MAX_CLOSED_TURNS) && t.agent == k && t.turnId == id {
        assert t in all;
        assert t in kept || t == Terminal(agent, turnId, seqNo);
      }
    }
  }

  /** What closing one agent's turn can and cannot change. */
  ghost predicate OnlyCloses(l: Ledger, r: Ledger) {
    && r.retired == l.retired && r.attribution == l.attribution
    && r.generation == l.generation && r.eventSeq == l.eventSeq
    && (forall k | k in r.active :: k in l.active && r.active[k] == l.active[k])
    && (forall k, id | Listed(r.closed, k, id) :: Listed(l.closed, k, id) || (IsActive(l, k, id) && k !in r.active))
  }

  lemma ClosedFacts(l: Ledger, agent: string)
    requires Capped(l)
    ensures OnlyCloses(l, Closed(l, agent)) && Capped(Closed(l, agent))
    ensures Closed(l, agent).active == l.active - {agent}
  {
    if agent in l.active {
      forall k, id | Listed(Closed(l, agent).closed, k, id)
        ensures Listed(l.closed, k, id) || (k == agent && id == l.active[agent].turnId)
      {
        RememberedFacts(l.closed, agent, l.active[agent].turnId, l.eventSeq, k, id);
      }
      RememberedFacts(l.closed, agent, l.active[agent].turnId, l.eventSeq, "", "");
    }
  }

  lemma {:induction false} CloseAllFacts(l: Ledger, keys: seq<string>)
    requires Capped(l)
    ensures OnlyCloses(l, CloseAll(l, keys)) && Capped(CloseAll(l, keys))
    ensures CloseAll(l, keys).active == l.active - Elements(keys)
  {
    if keys == [] {
      EmptyElements(keys);
      assert l.active - {} == l.active;
    } else {
      var init, last := keys[..|keys| - 1], keys[|keys| - 1];
      CloseAllFacts(l, init);
      ClosedFacts(CloseAll(l, init), last);
      assert keys == init + [last];
      assert Elements(keys) == Elements(init) + {last};
    }
  }

  lemma CollectedFacts(l: Ledger, now: int, preserve: Option<string>)
    requires Capped(l)
    ensures OnlyCloses(l, Collected(l, now, preserve)) && Capped(Collected(l, now, preserve))
    ensures preserve.Some? && preserve.value in l.active ==> preserve.value in Collected(l, now, preserve).active
  {
    CloseAllFacts(l, Sorted(StaleKeys(l.active, now, preserve)));
  }

  lemma OnlyClosesKeepsApart(l: Ledger, r: Ledger)
    requires Apart(l) && OnlyCloses(l, r)
    ensures Apart(r)
  {
  }

  // ----- Retiring -----------------------------------------------------------

  lemma RetiredOneFacts(l: Ledger, agent: string)
    requires Apart(l)
    ensures var r := RetiredOne(l, agent);
      && Apart(r) && r.attribution == l.attribution && r.closed == l.closed
      && (forall k | k in r.active :: k in l.active && r.active[k] == l.active[k])
      && (forall k, id | Listed(l.retired, k, id) :: Listed(r.retired, k, id))
      && |r.retired| <= |l.retired| + 1
  {
    if agent in l.active && l.active[agent].turnId != "" {
      var r := RetiredOne(l, agent);
      var id := l.active[agent].turnId;
      var added := Terminal(agent, id, l.eventSeq);
      assert r.retired[|r.retired| - 1] == added;
      forall k, j | Listed(l.retired, k, j) ensures Listed(r.retired, k, j) {
        var t :| t in l.retired && t.agent == k && t.turnId == j;
        assert t in r.retired || added in r.retired;
      }
      forall k | k in r.active ensures r.active[k].turnId != "" && !IsTerminal(r, k, r.active[k].turnId) {
        assert k != agent && !IsTerminal(l, k, l.active[k].turnId);
      }
    }
  }

  lemma {:induction false} RetireAllFacts(l: Ledger, keys: seq<string>)
    requires Apart(l)
    ensures var r := RetireAll(l, keys);
      && Apart(r) && r.attribution == l.attribution && r.closed == l.closed
      && (forall k | k in r.active :: k in l.active && r.active[k] == l.active[k])
      && (forall k, id | Listed(l.retired, k, id) :: Listed(r.retired, k, id))
      && |r.retired| <= |l.retired| + |keys|
  {
    if keys != [] {
      RetireAllFacts(l, keys[..|keys| - 1]);
      RetiredOneFacts(RetireAll(l, keys[..|keys| - 1]), keys[|keys| - 1]);
    }
  }

  // ----- One step -----------------------------------------------------------

  ghost predicate Inv(l: Ledger) {
    Apart(l) && Capped(l) && IndexOk(l.attribution)
  }

  lemma DefaultLedgerInv()
    ensures Inv(Ledger(0, 0, map[], [], [], Attribution([], map[], false)))
  {
  }

  /** The precondition on events: every one names its turn. */
  ghost predicate Named(s: Step) {
    s.Take? ==> NamesTurn(s.event)
  }

  lemma ReadyFacts(l: Ledger, e: Event)
    requires Apart(l) && Capped(l)
    ensures var key := TurnKey(l.active, e);
      var ready := Prepared(Counted(l, e), e, key);
      && Apart(ready) && OnlyCloses(Counted(l, e), ready) && Capped(ready)
      && (NamesActive(l, e, key) ==> key in ready.active)
  {
    var key := TurnKey(l.active, e);
    var counted := Counted(l, e);
    assert Apart(counted);
    CollectedFacts(counted, e.time, if NamesActive(counted, e, key) then Some(key) else None);
    OnlyClosesKeepsApart(counted, Prepared(counted, e, key));
  }

  lemma FinishKeeps(l: Ledger, e: Event, key: string)
    requires Apart(l) && Capped(l)
    ensures OnlyCloses(l, AfterFinish(l, e, key)) && Capped(AfterFinish(l, e, key)) && Apart(AfterFinish(l, e, key))
  {
    if NamesActive(l, e, key) {
      var turnId := l.active[key].turnId;
      forall k, id | Listed(AfterFinish(l, e, key).closed, k, id)
        ensures Listed(l.closed, k, id) || (k == key && id == turnId)
      {
        RememberedFacts(l.closed, key, turnId, e.seqNo, k, id);
      }
      RememberedFacts(l.closed, key, turnId, e.seqNo, "", "");
    }
    OnlyClosesKeepsApart(l, AfterFinish(l, e, key));
  }

  lemma PromptKeeps(l: Ledger, e: Event, key: string)
    requires Apart(l) && Capped(l) && NamesTurn(e) && !Listed(l.retired, key, e.turnId.value)
    ensures Apart(AfterPrompt(l, e, key)) && Capped(AfterPrompt(l, e, key))
  {
    var r := AfterPrompt(l, e, key);
    var forgotten := Dropped(l.closed, key, e.turnId.value);
    var active := WithoutLegacy(l.active);
    if key in active && active[key].turnId != e.turnId.value {
      RememberedFacts(forgotten, key, active[key].turnId, e.seqNo, "", "");
    }
    forall k | k in r.active ensures r.active[k].turnId != "" && !IsTerminal(r, k, r.active[k].turnId) {
      var id := r.active[k].turnId;
      assert !Listed(forgotten, k, id) by {
        if k == key {
          assert id == e.turnId.value;
        } else {
          assert !Listed(l.closed, k, id);
        }
      }
      if key in active && active[key].turnId != e.turnId.value {
        RememberedFacts(forgotten, key, active[key].turnId, e.seqNo, k, id);
      }
    }
  }

  lemma OtherKeeps(l: Ledger, e: Event, key: string)
    requires Apart(l) && Capped(l) && !e.kind.Finished? && !e.kind.Prompt?
    requires key in l.active || !IsTerminal(l, key, TurnIdOf(e))
    ensures Apart(AfterOther(l, e, key)) && Capped(AfterOther(l, e, key))
  {
    var r := AfterOther(l, e, key);
    assert r.closed == l.closed && r.retired == l.retired;
    forall k | k in r.active ensures r.active[k].turnId != "" && !IsTerminal(r, k, r.active[k].turnId) {
      assert k in l.active ==> !IsTerminal(l, k, l.active[k].turnId);
    }
  }

  /** A turn that an event opens afresh had not ended before it. */
  lemma OpensOnlyUnended(l: Ledger, e: Event)
    requires Apart(l) && Capped(l) && NamesTurn(e) && Reaches(l, e) && !e.kind.Prompt?
    ensures var key := TurnKey(l.active, e);
      var ready := Prepared(Counted(l, e), e, key);
      key in ready.active || !IsTerminal(ready, key, TurnIdOf(e))
  {
    ReadyFacts(l, e);
    var key := TurnKey(l.active, e);
    var ready := Prepared(Counted(l, e), e, key);
    if key !in ready.active {
      assert key !in l.active;
      assert !Listed(l.closed, key, e.turnId.value) && !Listed(l.retired, key, e.turnId.value);
    }
  }

  lemma EventKeepsTurns(l: Ledger, e: Event)
    requires Apart(l) && Capped(l) && NamesTurn(e)
    ensures Apart(Applied(l, e)) && Capped(Applied(l, e))
  {
    if Reaches(l, e) {
      ReadyFacts(l, e);
      var key := TurnKey(l.active, e);
      var ready := Prepared(Counted(l, e), e, key);
      if e.kind.Finished? {
        FinishKeeps(ready, e, key);
      } else if e.kind.Prompt? {
        PromptKeeps(ready, e, key);
      } else {
        OpensOnlyUnended(l, e);
        OtherKeeps(ready, e, key);
      }
    }
  }

  lemma {:induction false} CloseAllKeepsIndex(l: Ledger, keys: seq<string>)
    ensures CloseAll(l, keys).attribution == l.attribution
  {
    if keys != [] {
      CloseAllKeepsIndex(l, keys[..|keys| - 1]);
    }
  }

  lemma {:induction false} RetireAllKeepsIndex(l: Ledger, keys: seq<string>)
    ensures RetireAll(l, keys).attribution == l.attribution
  {
    if keys != [] {
      RetireAllKeepsIndex(l, keys[..|keys| - 1]);
    }
  }

  /** Only change and verification events that reach the reducer touch the index. */
  lemma AttributionAfter(l: Ledger, e: Event)
    ensures Applied(l, e).attribution ==
      if !Reaches(l, e) then l.attribution
      else if e.kind.ChangeEvent? then Recorded(l.attribution, e.kind.change)
      else if e.kind.VerificationEvent? then VerifiedSettled(l.attribution, e.kind.verification)
      else l.attribution
  {
    var key := TurnKey(l.active, e);
    var counted := Counted(l, e);
    var preserve := if NamesActive(counted, e, key) then Some(key) else None;
    CloseAllKeepsIndex(counted, Sorted(StaleKeys(counted.active, e.time, preserve)));
  }

  lemma MaintainedKeeps(l: Ledger, close: seq<string>, retire: seq<string>)
    requires Apart(l) && Capped(l)
    ensures var r := Maintained(l, close, retire);
      && Apart(r) && Capped(r) && r.attribution == l.attribution
      && (forall k, id | Listed(l.retired, k, id) :: Listed(r.retired, k, id))
      && (forall k | k in r.active :: k in l.active && r.active[k] == l.active[k])
  {
    if MaintenanceFits(l, close, retire) {
      CloseAllFacts(l, close);
      OnlyClosesKeepsApart(l, CloseAll(l, close));
      RetireAllFacts(CloseAll(l, close), retire);
    }
  }

  lemma ReloadKeepsIndex(a: Attribution)
    requires IndexOk(a)
    ensures IndexOk(a.(order := Sorted(a.entries.Keys)))
  {
    SortedIsDistinct(a.entries.Keys);
  }

  lemma SortedIsDistinct(s: set<string>)
    ensures Distinct(Sorted(s)) && forall k :: k in Sorted(s) <==> k in s
  {
    var order := Sorted(s);
    forall i, j | 0 <= i < j < |order| ensures order[i] != order[j] {
      assert Lt(order[i], order[j]);
    }
    assert Elements(order) == s;
  }

  lemma StepKeepsIndex(l: Ledger, s: Step)
    requires IndexOk(l.attribution)
    ensures IndexOk(Next(l, s).attribution)
  {
    match s {
      case Take(e) =>
        AttributionAfter(l, e);
        if e.kind.ChangeEvent? {
          RecordedKeepsIndex(l.attribution, e.kind.change, 0);
        } else if e.kind.VerificationEvent? {
          SettlementKeepsIndex(l.attribution, e.kind.verification);
        }
      case Maintain(close, retire) =>
        CloseAllKeepsIndex(l, close);
        RetireAllKeepsIndex(CloseAll(l, close), retire);
      case Reload => ReloadKeepsIndex(l.attribution);
    }
  }

  lemma StepKeepsInv(l: Ledger, s: Step)
    requires Inv(l) && Named(s)
    ensures Inv(Next(l, s))
  {
    StepKeepsIndex(l, s);
    match s {
      case Take(e) => EventKeepsTurns(l, e);
      case Maintain(close, retire) => MaintainedKeeps(l, close, retire);
      case Reload =>
    }
  }

  ghost predicate AllNamed(steps: seq<Step>) {
    forall s | s in steps :: Named(s)
  }

  lemma {:induction false} RunKeepsInv(l: Ledger, steps: seq<Step>)
    requires Inv(l) && AllNamed(steps)
    ensures Inv(RunFrom(l, steps))
  {
    if steps != [] {
      assert AllNamed(steps[..|steps| - 1]);
      RunKeepsInv(l, steps[..|steps| - 1]);
      StepKeepsInv(RunFrom(l, steps[..|steps| - 1]), steps[|steps| - 1]);
    }
  }

  // ----- Ended turns stay ended ---------------------------------------------

  lemma RetiredStaysListed(l: Ledger, s: Step, k: string, id: string)
    requires Capped(l) && Apart(l) && Listed(l.retired, k, id)
    ensures Listed(Next(l, s).retired, k, id)
  {
    match s {
      case Take(e) => ReadyFacts(l, e);
      case Maintain(close, retire) => MaintainedKeeps(l, close, retire);
      case Reload =>
    }
  }

  /** Once retired, a turn is never active again, prompts included. */
  lemma {:induction false} RetiredNeverActive(l: Ledger, steps: seq<Step>, k: string, id: string)
    requires Inv(l) && AllNamed(steps) && Listed(l.retired, k, id)
    ensures Listed(RunFrom(l, steps).retired, k, id) && !IsActive(RunFrom(l, steps), k, id)
  {
    RunKeepsInv(l, steps);
    if steps != [] {
      var init := steps[..|steps| - 1];
      assert AllNamed(init);
      RetiredNeverActive(l, init, k, id);
      RunKeepsInv(l, init);
      RetiredStaysListed(RunFrom(l, init), steps[|steps| - 1], k, id);
    }
  }

  // ----- Events that name no turn -------------------------------------------

  /** The event opens a turn under the default id of its sequence number, and
      that id was retired. */
  predicate RevivesRetired(l: Ledger, e: Event) {
    var key := TurnKey(l.active, e);
    && !NamesTurn(e) && Reaches(l, e) && !e.kind.Finished?
    && (e.kind.Prompt? || key !in Prepared(Counted(l, e), e, key).active)
    && Listed(l.retired, key, "turn-" + Decimals.Decimal(e.seqNo))
  }

  ghost predicate Revives(l: Ledger, e: Event) {
    exists k, id :: Listed(l.retired, k, id) && IsActive(Applied(l, e), k, id)
  }

  lemma NamedNeverRevives(l: Ledger, e: Event)
    requires Inv(l) && (NamesTurn(e) || !Reaches(l, e))
    ensures !Revives(l, e)
  {
    forall k, id | Listed(l.retired, k, id) ensures !IsActive(Applied(l, e), k, id) {
      if NamesTurn(e) {
        EventKeepsTurns(l, e);
        RetiredStaysListed(l, Take(e), k, id);
      }
    }
  }

  /** A turn that the event makes active is its own, under the default id. */
  lemma UnnamedOpens(ready: Ledger, e: Event, key: string, k: string, id: string)
    requires !NamesTurn(e) && !IsActive(ready, k, id)
    requires IsActive(match e.kind
                      case Finished => AfterFinish(ready, e, key)
                      case Prompt => AfterPrompt(ready, e, key)
                      case _ => AfterOther(ready, e, key), k, id)
    ensures k == key && id == TurnIdOf(e) && !e.kind.Finished? && (e.kind.Prompt? || key !in ready.active)
  {
  }

  lemma UnnamedRevivesOnlySo(l: Ledger, e: Event, k: string, id: string)
    requires Inv(l) && !NamesTurn(e) && Reaches(l, e)
    requires Listed(l.retired, k, id) && IsActive(Applied(l, e), k, id)
    ensures RevivesRetired(l, e)
  {
    ReadyFacts(l, e);
    var key := TurnKey(l.active, e);
    var ready := Prepared(Counted(l, e), e, key);
    assert !IsActive(ready, k, id);
    UnnamedOpens(ready, e, key, k, id);
  }

  /** A retired turn comes back with an event exactly when the event names no
      turn and its numbered default is a retired id. */
  lemma RetiredRevivedExactly(l: Ledger, e: Event)
    requires Inv(l)
    ensures Revives(l, e) <==> RevivesRetired(l, e)
  {
    if NamesTurn(e) || !Reaches(l, e) {
      NamedNeverRevives(l, e);
    } else {
      if RevivesRetired(l, e) {
        ReadyFacts(l, e);
        assert IsActive(Applied(l, e), TurnKey(l.active, e), "turn-" + Decimals.Decimal(e.seqNo));
      }
      if k, id :| Listed(l.retired, k, id) && IsActive(Applied(l, e), k, id) {
        UnnamedRevivesOnlySo(l, e, k, id);
      }
    }
  }

  /** One such event. */
  lemma RetiredRevivedWithoutTurnId()
    ensures var l := Ledger(5, 0, map[], [], [Terminal("host:session:agent", "turn-6", 5)], Attribution([], map[], false));
      var e := Event(Other, "host:session:agent", false, None, 6, 0);
      Inv(l) && IsActive(Applied(l, e), "host:session:agent", "turn-6") && Listed(Applied(l, e).retired, "host:session:agent", "turn-6")
  {
    var l := Ledger(5, 0, map[], [], [Terminal("host:session:agent", "turn-6", 5)], Attribution([], map[], false));
    var e := Event(Other, "host:session:agent", false, None, 6, 0);
    assert TurnKey(l.active, e) == e.agent;
    assert Decimals.Decimal(6) == "6";
    assert l.retired[0] in l.retired;
    assert StaleKeys(l.active, 0, None) == {};
    EmptyElements(Sorted({}));
    assert Prepared(Counted(l, e), e, e.agent) == Counted(l, e);
    RetiredStaysListed(l, Take(e), e.agent, "turn-6");
  }

  // ----- Protected ownership over whole runs --------------------------------

  /** The step ends the agent's protection of the path: a change that reaches
      the reducer deletes the path or records another agent's different content,
      or the agent's own verification covers the revision. */
  ghost predicate Releases(l: Ledger, s: Step, path: string, agent: string) {
    && s.Take? && Reaches(l, s.event)
    && match s.event.kind
       case ChangeEvent(c, _, _) => ChangeReleases(l.attribution, c, path, agent)
       case VerificationEvent(v, _) => VerificationReleases(l.attribution, v, path, agent)
       case _ => false
  }

  lemma VerificationReleasesExactly(a: Attribution, v: Verification, path: string, agent: string)
    requires IndexOk(a) && Protects(a, path, agent)
    ensures Protects(VerifiedSettled(a, v), path, agent) <==> !VerificationReleases(a, v, path, agent)
  {
    SettlementReleasesExactly(a, v, v.covered, path, agent);
    var owners := a.entries[path].owners;
    assert OneRevisionPerAgent(owners);
    var mine :| mine in owners && mine.agent == agent && !mine.settled;
    forall o | o in owners && o.agent == agent ensures o == mine {
      var i :| 0 <= i < |owners| && owners[i] == o;
      var j :| 0 <= j < |owners| && owners[j] == mine;
    }
  }

  lemma StepKeepsProtection(l: Ledger, s: Step, path: string, agent: string)
    requires IndexOk(l.attribution) && Protects(l.attribution, path, agent) && !Releases(l, s, path, agent)
    ensures Protects(Next(l, s).attribution, path, agent)
  {
    match s {
      case Take(e) =>
        AttributionAfter(l, e);
        if Reaches(l, e) && e.kind.ChangeEvent? {
          ChangeKeepsProtection(l.attribution, e.kind.change, path, agent);
        } else if Reaches(l, e) && e.kind.VerificationEvent? {
          VerificationReleasesExactly(l.attribution, e.kind.verification, path, agent);
        }
      case Maintain(close, retire) =>
        CloseAllKeepsIndex(l, close);
        RetireAllKeepsIndex(CloseAll(l, close), retire);
      case Reload =>
    }
  }

  lemma {:induction false} ProtectedUntilReleased(l: Ledger, steps: seq<Step>, path: string, agent: string)
    requires IndexOk(l.attribution) && Protects(l.attribution, path, agent)
    requires forall n | 0 <= n < |steps| :: !Releases(RunFrom(l, steps[..n]), steps[n], path, agent)
    ensures IndexOk(RunFrom(l, steps).attribution) && Protects(RunFrom(l, steps).attribution, path, agent)
  {
    if steps != [] {
      var init := steps[..|steps| - 1];
      forall n | 0 <= n < |init| ensures !Releases(RunFrom(l, init[..n]), init[n], path, agent) {
        assert init[..n] == steps[..n] && init[n] == steps[n];
      }
      ProtectedUntilReleased(l, init, path, agent);
      StepKeepsProtection(RunFrom(l, init), steps[|steps| - 1], path, agent);
      StepKeepsIndex(RunFrom(l, init), steps[|steps| - 1]);
    }
  }
}
