/** How long a closed turn is remembered: until a prompt names it, or enough other
    turns are closed after it.
  */
module LedgerMemory {
  import opened Common
  import opened Ordering
  import opened LedgerReducer
  import opened LedgerRuns

  // ----- What was closed since ----------------------------------------------

  predicate Is(t: Terminal, k: string, id: string) {
    t.agent == k && t.turnId == id
  }

  /** The turn's last entry and everything closed after it. */
  function Since(closed: seq<Terminal>, k: string, id: string): (r: seq<Terminal>)
    ensures |r| <= |closed| && (r != [] <==> Listed(closed, k, id))
    ensures r != [] ==> Is(r[0], k, id)
  {
    if closed == [] then [] else
      var rest := Since(closed[1..], k, id);
      assert closed == [closed[0]] + closed[1..];
      if rest != [] then rest else if Is(closed[0], k, id) then closed else []
  }

  lemma {:induction false} SinceAppended(closed: seq<Terminal>, t: Terminal, k: string, id: string)
    requires !Is(t, k, id)
    ensures Since(closed + [t], k, id) == if Since(closed, k, id) == [] then [] else Since(closed, k, id) + [t]
  {
    if closed != [] {
      SinceAppended(closed[1..], t, k, id);
      assert (closed + [t])[1..] == closed[1..] + [t];
    }
  }

  lemma {:induction false} SinceCut(closed: seq<Terminal>, n: nat, k: string, id: string)
    requires n <= |closed|
    ensures Since(closed[n..], k, id) == if |Since(closed, k, id)| <= |closed| - n then Since(closed, k, id) else []
  {
    if n > 0 {
      SinceCut(closed[1..], n - 1, k, id);
      assert closed[n..] == closed[1..][n - 1..];
    } else {
      assert closed[n..] == closed;
    }
  }

  lemma {:induction false} SinceDropped(closed: seq<Terminal>, a: string, t: string, k: string, id: string)
    requires !(a == k && t == id)
    ensures Since(Dropped(closed, a, t), k, id) == Dropped(Since(closed, k, id), a, t)
  {
    if closed != [] {
      SinceDropped(closed[1..], a, t, k, id);
      var rest := Since(closed[1..], k, id);
      if rest != [] {
        assert rest[0] in rest && rest[0] in Dropped(rest, a, t);
      }
      if !Is(closed[0], a, t) {
        assert ([closed[0]] + Dropped(closed[1..], a, t))[1..] == Dropped(closed[1..], a, t);
      }
    }
  }

  lemma {:induction false} DroppedOfConcat(x: seq<Terminal>, y: seq<Terminal>, a: string, t: string)
    ensures Dropped(x + y, a, t) == Dropped(x, a, t) + Dropped(y, a, t)
  {
    if x == [] {
      assert x + y == y;
    } else {
      assert (x + y)[1..] == x[1..] + y;
      DroppedOfConcat(x[1..], y, a, t);
    }
  }

  lemma {:induction false} DroppedAbsent(ts: seq<Terminal>, agent: string, turnId: string)
    requires !Listed(ts, agent, turnId)
    ensures Dropped(ts, agent, turnId) == ts
  {
    if ts != [] {
      assert ts[0] in ts;
      assert forall t | t in ts[1..] :: t in ts;
      DroppedAbsent(ts[1..], agent, turnId);
    }
  }

  /** Another turn closed: one more since, or too many. */
  lemma RememberedSince(closed: seq<Terminal>, a: string, t: string, n: nat, k: string, id: string)
    requires t != "" && !(a == k && t == id) && !Listed(closed, a, t) && Listed(closed, k, id)
    ensures Since(Remembered(closed, a, t, n), k, id)
      == if |Since(closed, k, id)| < MAX_CLOSED_TURNS then Since(closed, k, id) + [Terminal(a, t, n)] else []
  {
    DroppedAbsent(closed, a, t);
    SinceAppended(closed, Terminal(a, t, n), k, id);
    SinceOfLast(closed + [Terminal(a, t, n)], k, id);
  }

  lemma SinceOfLast(all: seq<Terminal>, k: string, id: string)
    ensures Since(LastOf(all, MAX_CLOSED_TURNS), k, id)
      == if |Since(all, k, id)| <= MAX_CLOSED_TURNS then Since(all, k, id) else []
  {
    if |all| > MAX_CLOSED_TURNS {
      SinceCut(all, |all| - MAX_CLOSED_TURNS, k, id);
    }
  }

  // ----- One step -----------------------------------------------------------

  function EntriesOf(l: Ledger, keys: seq<string>): seq<Terminal>
    requires forall key | key in keys :: key in l.active
  {
    seq(|keys|, i requires 0 <= i < |keys| => Terminal(keys[i], l.active[keys[i]].turnId, l.eventSeq))
  }

  lemma ClosedSince(l: Ledger, key: string, k: string, id: string)
    requires Apart(l) && Capped(l) && key in l.active && !IsActive(l, k, id)
    ensures Since(Closed(l, key).closed, k, id)
      == if Listed(l.closed, k, id) && |Since(l.closed, k, id)| < MAX_CLOSED_TURNS
         then Since(l.closed, k, id) + [Terminal(key, l.active[key].turnId, l.eventSeq)] else []
  {
    var turn := l.active[key].turnId;
    if Listed(l.closed, k, id) {
      RememberedSince(l.closed, key, turn, l.eventSeq, k, id);
    } else {
      RememberedFacts(l.closed, key, turn, l.eventSeq, k, id);
    }
  }

  lemma {:induction false} CloseAllSince(l: Ledger, keys: seq<string>, k: string, id: string)
    requires Apart(l) && Capped(l) && Listed(l.closed, k, id)
    requires Distinct(keys) && forall key | key in keys :: key in l.active
    ensures Since(CloseAll(l, keys).closed, k, id)
      == if |Since(l.closed, k, id)| + |keys| <= MAX_CLOSED_TURNS then Since(l.closed, k, id) + EntriesOf(l, keys) else []
  {
    if keys == [] {
      assert EntriesOf(l, keys) == [];
    } else {
      var init, last := keys[..|keys| - 1], keys[|keys| - 1];
      assert keys == init + [last];
      CloseAllSince(l, init, k, id);
      CloseAllReady(l, init, last, k, id);
      ClosedSince(CloseAll(l, init), last, k, id);
      EntriesAppended(l, init, last, Since(l.closed, k, id));
    }
  }

  lemma EntriesAppended(l: Ledger, init: seq<string>, last: string, since: seq<Terminal>)
    requires last in l.active && forall key | key in init :: key in l.active
    ensures since + EntriesOf(l, init + [last])
      == since + EntriesOf(l, init) + [Terminal(last, l.active[last].turnId, l.eventSeq)]
  {
    assert EntriesOf(l, init + [last]) == EntriesOf(l, init) + [Terminal(last, l.active[last].turnId, l.eventSeq)];
  }

  lemma CloseAllReady(l: Ledger, init: seq<string>, last: string, k: string, id: string)
    requires Apart(l) && Capped(l) && Listed(l.closed, k, id) && last in l.active && last !in init
    ensures var m := CloseAll(l, init);
      && Apart(m) && Capped(m) && last in m.active && m.active[last] == l.active[last]
      && m.eventSeq == l.eventSeq && !IsActive(m, k, id)
  {
    CloseAllFacts(l, init);
    OnlyClosesKeepsApart(l, CloseAll(l, init));
  }

  function Kept(l: Ledger, e: Event): Option<string> {
    var key := TurnKey(l.active, e);
    if NamesActive(l, e, key) then Some(key) else None
  }

  /** How many turns the event finds idle for too long. */
  function StaleCount(l: Ledger, e: Event): nat {
    |StaleKeys(l.active, e.time, Kept(l, e))|
  }

  /** The event itself closes a turn: it finishes the one it names, or it is a
      prompt that replaces one which is not closed as stale anyway. */
  predicate ClosesOne(l: Ledger, e: Event) {
    var key := TurnKey(l.active, e);
    && key in l.active
    && (e.kind.Finished? ==> NamesActive(l, e, key))
    && (e.kind.Prompt? ==> !NamesActive(l, e, key) && !Stale(l.active[key], e.time) && !(key == "default" && l.active[key].legacy))
    && (e.kind.Finished? || e.kind.Prompt?)
  }

  function NowClosed(l: Ledger, e: Event): nat {
    StaleCount(l, e) + if ClosesOne(l, e) then 1 else 0
  }

  /** The event pushes the pair off the list: it and what was closed since, with
      the turns that are closed now, are more than the list holds. A prompt first
      takes its own turn off. */
  predicate Pushes(l: Ledger, e: Event, k: string, id: string) {
    var since := Since(l.closed, k, id);
    var left := if e.kind.Prompt? && e.turnId.Some? then Dropped(since, TurnKey(l.active, e), e.turnId.value) else since;
    Reaches(l, e)
    && (|since| + StaleCount(l, e) > MAX_CLOSED_TURNS
        || (ClosesOne(l, e) && |left| + StaleCount(l, e) + 1 > MAX_CLOSED_TURNS))
  }

  predicate PromptNames(e: Event, k: string, id: string) {
    e.kind.Prompt? && e.agent == k && e.turnId == Some(id)
  }

  /** The turns closed as stale, as entries. */
  ghost predicate AreStale(l: Ledger, e: Event, news: seq<Terminal>) {
    && |news| == StaleCount(l, e)
    && forall t | t in news :: t.agent in l.active && l.active[t.agent].turnId == t.turnId && Some(t.agent) != Kept(l, e)
  }

  lemma ReadySince(l: Ledger, e: Event, k: string, id: string) returns (news: seq<Terminal>)
    requires Apart(l) && Capped(l) && Listed(l.closed, k, id)
    ensures AreStale(l, e, news)
    ensures Since(Prepared(Counted(l, e), e, TurnKey(l.active, e)).closed, k, id)
      == if |Since(l.closed, k, id)| + StaleCount(l, e) <= MAX_CLOSED_TURNS then Since(l.closed, k, id) + news else []
  {
    var counted := Counted(l, e);
    var keys := Sorted(StaleKeys(l.active, e.time, Kept(l, e)));
    AscendingDistinct(keys);
    AscendingSize(keys);
    forall key | key in keys ensures key in StaleKeys(l.active, e.time, Kept(l, e)) {
      assert key in Elements(keys);
    }
    CloseAllSince(counted, keys, k, id);
    news := EntriesOf(counted, keys);
    forall t | t in news
      ensures t.agent in l.active && l.active[t.agent].turnId == t.turnId && Some(t.agent) != Kept(l, e)
    {
      var i :| 0 <= i < |news| && news[i] == t;
      assert keys[i] in keys;
    }
  }

  /** A prompt takes its own turn off, among those closed since too. */
  lemma ForgottenSince(l: Ledger, e: Event, k: string, id: string, closed: seq<Terminal>, news: seq<Terminal>)
    requires NamesTurn(e) && e.kind.Prompt? && !PromptNames(e, k, id) && Listed(l.closed, k, id)
    requires AreStale(l, e, news) && Since(closed, k, id) == Since(l.closed, k, id) + news
    ensures var left := Dropped(Since(l.closed, k, id), e.agent, e.turnId.value);
      left != [] && Since(Dropped(closed, e.agent, e.turnId.value), k, id) == left + news
  {
    var key, turn, since := e.agent, e.turnId.value, Since(l.closed, k, id);
    SinceDropped(closed, key, turn, k, id);
    DroppedOfConcat(since, news, key, turn);
    forall t | t in news ensures !Is(t, key, turn) {
    }
    DroppedAbsent(news, key, turn);
    assert since[0] in since && since[0] in Dropped(since, key, turn);
  }

  lemma ReplacesExactly(l: Ledger, e: Event, ready: Ledger)
    requires NamesTurn(e) && e.kind.Prompt? && ready == Prepared(Counted(l, e), e, e.agent)
    ensures ClosesOne(l, e) <==>
      e.agent in WithoutLegacy(ready.active) && ready.active[e.agent].turnId != e.turnId.value
    ensures AfterPrompt(ready, e, e.agent).closed ==
      var forgotten := Dropped(ready.closed, e.agent, e.turnId.value);
      if ClosesOne(l, e) then Remembered(forgotten, e.agent, ready.active[e.agent].turnId, e.seqNo) else forgotten
  {
    CollectedLeaves(Counted(l, e), e.time, Kept(l, e));
  }

  lemma ReplacedSince(ready: Ledger, key: string, turn: string, seqNo: nat, k: string, id: string)
    requires Apart(ready) && key in ready.active && !IsActive(ready, k, id)
    requires Listed(Dropped(ready.closed, key, turn), k, id)
    ensures var forgotten := Dropped(ready.closed, key, turn);
      Listed(Remembered(forgotten, key, ready.active[key].turnId, seqNo), k, id)
      <==> |Since(forgotten, k, id)| < MAX_CLOSED_TURNS
    ensures var forgotten := Dropped(ready.closed, key, turn);
      |Since(Remembered(forgotten, key, ready.active[key].turnId, seqNo), k, id)| <= |Since(forgotten, k, id)| + 1
  {
    var forgotten := Dropped(ready.closed, key, turn);
    assert !Listed(forgotten, key, ready.active[key].turnId);
    RememberedSince(forgotten, key, ready.active[key].turnId, seqNo, k, id);
  }

  lemma PromptSince(l: Ledger, e: Event, k: string, id: string, ready: Ledger, news: seq<Terminal>)
    requires Apart(l) && Capped(l) && NamesTurn(e) && Listed(l.closed, k, id) && e.kind.Prompt? && !PromptNames(e, k, id)
    requires ready == Prepared(Counted(l, e), e, e.agent) && Apart(ready) && AreStale(l, e, news) && !IsActive(ready, k, id)
    requires Since(ready.closed, k, id) == Since(l.closed, k, id) + news
    ensures var left := Dropped(Since(l.closed, k, id), e.agent, e.turnId.value);
      Listed(AfterPrompt(ready, e, e.agent).closed, k, id)
      <==> (ClosesOne(l, e) ==> |left| + StaleCount(l, e) + 1 <= MAX_CLOSED_TURNS)
    ensures |Since(AfterPrompt(ready, e, e.agent).closed, k, id)| <= |Since(l.closed, k, id)| + NowClosed(l, e)
  {
    var key, turn := e.agent, e.turnId.value;
    ForgottenSince(l, e, k, id, ready.closed, news);
    ReplacesExactly(l, e, ready);
    if ClosesOne(l, e) {
      ReplacedSince(ready, key, turn, e.seqNo, k, id);
    }
  }

  lemma FinishSince(l: Ledger, e: Event, k: string, id: string, ready: Ledger)
    requires Apart(l) && Listed(l.closed, k, id) && e.kind.Finished?
    requires ready == Prepared(Counted(l, e), e, TurnKey(l.active, e)) && Apart(ready)
    requires Listed(ready.closed, k, id) && |Since(ready.closed, k, id)| == |Since(l.closed, k, id)| + StaleCount(l, e)
    ensures Listed(AfterFinish(ready, e, TurnKey(l.active, e)).closed, k, id)
      <==> (ClosesOne(l, e) ==> |Since(l.closed, k, id)| + StaleCount(l, e) + 1 <= MAX_CLOSED_TURNS)
    ensures |Since(AfterFinish(ready, e, TurnKey(l.active, e)).closed, k, id)| <= |Since(l.closed, k, id)| + NowClosed(l, e)
  {
    var key := TurnKey(l.active, e);
    CollectedLeaves(Counted(l, e), e.time, Kept(l, e));
    if NamesActive(ready, e, key) {
      RememberedSince(ready.closed, key, ready.active[key].turnId, e.seqNo, k, id);
    }
  }

  /** What is off the list does not come back by being closed: it is not active. */
  lemma StaysForgotten(ready: Ledger, e: Event, key: string, k: string, id: string)
    requires Apart(ready) && Capped(ready) && !Listed(ready.closed, k, id) && !IsActive(ready, k, id)
    ensures !Listed(AfterFinish(ready, e, key).closed, k, id) && !Listed(AfterPrompt(ready, e, key).closed, k, id)
  {
    if key in ready.active {
      var turn := ready.active[key].turnId;
      RememberedFacts(ready.closed, key, turn, e.seqNo, k, id);
      if e.turnId.Some? {
        RememberedFacts(Dropped(ready.closed, key, e.turnId.value), key, turn, e.seqNo, k, id);
      }
    }
  }

  /** The closed list once the event had its effect. */
  function ClosedAfter(ready: Ledger, e: Event, key: string): seq<Terminal> {
    match e.kind
    case Finished => AfterFinish(ready, e, key).closed
    case Prompt => AfterPrompt(ready, e, key).closed
    case _ => ready.closed
  }

  /** What the event leaves of the list is as it should be for the pair. */
  ghost predicate Settles(l: Ledger, e: Event, k: string, id: string, after: seq<Terminal>) {
    && (Listed(after, k, id) <==> !Pushes(l, e, k, id))
    && |Since(after, k, id)| <= |Since(l.closed, k, id)| + NowClosed(l, e)
  }

  /** The event's own turn apart, the list has lost the pair or gained the stale. */
  ghost predicate Swept(l: Ledger, e: Event, k: string, id: string, ready: Ledger, news: seq<Terminal>) {
    && Inv(l) && NamesTurn(e) && Listed(l.closed, k, id) && !PromptNames(e, k, id) && Reaches(l, e)
    && ready == Prepared(Counted(l, e), e, TurnKey(l.active, e)) && Apart(ready) && Capped(ready)
    && AreStale(l, e, news) && !IsActive(ready, k, id)
    && Since(ready.closed, k, id) ==
         if |Since(l.closed, k, id)| + StaleCount(l, e) <= MAX_CLOSED_TURNS then Since(l.closed, k, id) + news else []
  }

  lemma GoneSettles(l: Ledger, e: Event, k: string, id: string, ready: Ledger, news: seq<Terminal>)
    requires Swept(l, e, k, id, ready, news) && Since(ready.closed, k, id) == []
    ensures Settles(l, e, k, id, ClosedAfter(ready, e, TurnKey(l.active, e)))
  {
    StaysForgotten(ready, e, TurnKey(l.active, e), k, id);
  }

  lemma PromptSettles(l: Ledger, e: Event, k: string, id: string, ready: Ledger, news: seq<Terminal>)
    requires Swept(l, e, k, id, ready, news) && Since(ready.closed, k, id) != [] && e.kind.Prompt?
    ensures Settles(l, e, k, id, AfterPrompt(ready, e, e.agent).closed)
  {
    PromptSince(l, e, k, id, ready, news);
  }

  lemma FinishSettles(l: Ledger, e: Event, k: string, id: string, ready: Ledger, news: seq<Terminal>)
    requires Swept(l, e, k, id, ready, news) && Since(ready.closed, k, id) != [] && e.kind.Finished?
    ensures Settles(l, e, k, id, AfterFinish(ready, e, TurnKey(l.active, e)).closed)
  {
    FinishSince(l, e, k, id, ready);
  }

  lemma OtherSettles(l: Ledger, e: Event, k: string, id: string, ready: Ledger, news: seq<Terminal>)
    requires Swept(l, e, k, id, ready, news) && Since(ready.closed, k, id) != [] && !e.kind.Finished? && !e.kind.Prompt?
    ensures Settles(l, e, k, id, ready.closed)
  {
  }

  lemma SweptSettles(l: Ledger, e: Event, k: string, id: string, ready: Ledger, news: seq<Terminal>)
    requires Swept(l, e, k, id, ready, news)
    ensures Settles(l, e, k, id, ClosedAfter(ready, e, TurnKey(l.active, e)))
  {
    if Since(ready.closed, k, id) == [] {
      GoneSettles(l, e, k, id, ready, news);
    } else if e.kind.Prompt? {
      PromptSettles(l, e, k, id, ready, news);
    } else if e.kind.Finished? {
      FinishSettles(l, e, k, id, ready, news);
    } else {
      OtherSettles(l, e, k, id, ready, news);
    }
  }

  lemma AppliedClosed(l: Ledger, e: Event)
    requires Reaches(l, e)
    ensures Applied(l, e).closed == ClosedAfter(Prepared(Counted(l, e), e, TurnKey(l.active, e)), e, TurnKey(l.active, e))
  {
  }

  /** An event that does not name a remembered closed turn takes it off the list
      if and only if it pushes it off. */
  lemma EvictedExactly(l: Ledger, e: Event, k: string, id: string)
    requires Inv(l) && NamesTurn(e) && Listed(l.closed, k, id) && !PromptNames(e, k, id)
    ensures Listed(Applied(l, e).closed, k, id) <==> !Pushes(l, e, k, id)
    ensures |Since(Applied(l, e).closed, k, id)| <= |Since(l.closed, k, id)| + if Reaches(l, e) then NowClosed(l, e) else 0
  {
    if Reaches(l, e) {
      ReadyFacts(l, e);
      var news := ReadySince(l, e, k, id);
      var ready := Prepared(Counted(l, e), e, TurnKey(l.active, e));
      assert Swept(l, e, k, id, ready, news);
      AppliedClosed(l, e);
      SweptSettles(l, e, k, id, ready, news);
    }
  }

  // ----- Runs ---------------------------------------------------------------

  /** The step takes the pair off the list: a prompt names it, or an event pushes
      it off. Maintenance and reloads never do. */
  predicate Ends(l: Ledger, s: Step, k: string, id: string) {
    s.Take? && (PromptNames(s.event, k, id) || Pushes(l, s.event, k, id))
  }

  /** Maintenance forgets no closed turn: it is refused when the list is too full. */
  lemma MaintenanceForgetsNothing(l: Ledger, close: seq<string>, retire: seq<string>, k: string, id: string)
    requires Capped(l) && Apart(l) && Listed(l.closed, k, id)
    ensures Listed(Maintained(l, close, retire).closed, k, id)
    ensures |Since(Maintained(l, close, retire).closed, k, id)| <= |Since(l.closed, k, id)| + |close|
  {
    if MaintenanceFits(l, close, retire) {
      CloseAllAtMost(l, close, k, id);
      CloseAllFacts(l, close);
      OnlyClosesKeepsApart(l, CloseAll(l, close));
      RetireAllFacts(CloseAll(l, close), retire);
    }
  }

  lemma {:induction false} CloseAllAtMost(l: Ledger, keys: seq<string>, k: string, id: string)
    requires Apart(l) && Capped(l) && Listed(l.closed, k, id) && |Since(l.closed, k, id)| + |keys| <= MAX_CLOSED_TURNS
    ensures Listed(CloseAll(l, keys).closed, k, id)
    ensures |Since(CloseAll(l, keys).closed, k, id)| <= |Since(l.closed, k, id)| + |keys|
  {
    if keys != [] {
      var init, last := keys[..|keys| - 1], keys[|keys| - 1];
      CloseAllAtMost(l, init, k, id);
      CloseAllFacts(l, init);
      OnlyClosesKeepsApart(l, CloseAll(l, init));
      if last in CloseAll(l, init).active {
        ClosedSince(CloseAll(l, init), last, k, id);
      }
    }
  }

  /** A closed turn stays listed exactly until such a step. */
  lemma StaysClosedExactly(l: Ledger, s: Step, k: string, id: string)
    requires Inv(l) && Named(s) && Listed(l.closed, k, id)
    requires s.Take? ==> !PromptNames(s.event, k, id)
    ensures Listed(Next(l, s).closed, k, id) <==> !Ends(l, s, k, id)
  {
    match s {
      case Take(e) => EvictedExactly(l, e, k, id);
      case Maintain(close, retire) => MaintenanceForgetsNothing(l, close, retire, k, id);
      case Reload =>
    }
  }

  /** A remembered closed turn stays closed, and inactive, until a prompt names it
      or a full list pushes it off. */
  lemma {:induction false} ClosedUntilNamed(l: Ledger, steps: seq<Step>, k: string, id: string)
    requires Inv(l) && AllNamed(steps) && Listed(l.closed, k, id)
    requires forall n | 0 <= n < |steps| :: !Ends(RunFrom(l, steps[..n]), steps[n], k, id)
    ensures Listed(RunFrom(l, steps).closed, k, id) && !IsActive(RunFrom(l, steps), k, id)
  {
    RunKeepsInv(l, steps);
    if steps != [] {
      var init := steps[..|steps| - 1];
      assert AllNamed(init);
      forall n | 0 <= n < |init| ensures !Ends(RunFrom(l, init[..n]), init[n], k, id) {
        assert init[..n] == steps[..n] && init[n] == steps[n];
      }
      ClosedUntilNamed(l, init, k, id);
      RunKeepsInv(l, init);
      StaysClosedExactly(RunFrom(l, init), steps[|steps| - 1], k, id);
    }
  }

  // ----- By counting --------------------------------------------------------

  /** At most so many turns does the step close. */
  function Closes(l: Ledger, s: Step): nat {
    match s
    case Take(e) => if Reaches(l, e) then NowClosed(l, e) else 0
    case Maintain(close, _) => |close|
    case Reload => 0
  }

  function ClosesAll(l: Ledger, steps: seq<Step>): nat {
    if steps == [] then 0 else
      var init := steps[..|steps| - 1];
      ClosesAll(l, init) + Closes(RunFrom(l, init), steps[|steps| - 1])
  }

  lemma FewPushNothing(l: Ledger, s: Step, k: string, id: string)
    requires Inv(l) && Named(s) && Listed(l.closed, k, id) && (s.Take? ==> !PromptNames(s.event, k, id))
    requires |Since(l.closed, k, id)| + Closes(l, s) <= MAX_CLOSED_TURNS
    ensures Listed(Next(l, s).closed, k, id)
    ensures |Since(Next(l, s).closed, k, id)| <= |Since(l.closed, k, id)| + Closes(l, s)
  {
    match s {
      case Take(e) => EvictedExactly(l, e, k, id);
      case Maintain(close, retire) => MaintenanceForgetsNothing(l, close, retire, k, id);
      case Reload =>
    }
  }

  /** A closed turn is remembered, and stays inactive, as long as it and the turns
      closed after it fit the list and no prompt names it. */
  lemma {:induction false} ClosedWhileFewFollow(l: Ledger, steps: seq<Step>, k: string, id: string)
    requires Inv(l) && AllNamed(steps) && Listed(l.closed, k, id)
    requires forall s | s in steps && s.Take? :: !PromptNames(s.event, k, id)
    requires |Since(l.closed, k, id)| + ClosesAll(l, steps) <= MAX_CLOSED_TURNS
    ensures Listed(RunFrom(l, steps).closed, k, id) && !IsActive(RunFrom(l, steps), k, id)
    ensures |Since(RunFrom(l, steps).closed, k, id)| <= |Since(l.closed, k, id)| + ClosesAll(l, steps)
  {
    RunKeepsInv(l, steps);
    if steps != [] {
      var init, last := steps[..|steps| - 1], steps[|steps| - 1];
      assert AllNamed(init) && last in steps;
      ClosedWhileFewFollow(l, init, k, id);
      RunKeepsInv(l, init);
      FewPushNothing(RunFrom(l, init), last, k, id);
    }
  }
}
