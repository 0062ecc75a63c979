/** Folding the cache entry over the sorted transitions of one session gives the
    counts, the unresolved blocks, the turn, the times and the per-reason rows of
    the batch aggregate.
  */
module ScorecardRefines {
  import opened Common
  import opened Scorecard
  import opened ScorecardFacts

  // ----- The scope key ------------------------------------------------------

  lemma LastSeparator(a: string, x: string, b: string, y: string)
    requires a + [SEPARATOR] + x == b + [SEPARATOR] + y && SEPARATOR !in x
    ensures |b| <= |a|
  {
    var s := a + [SEPARATOR] + x;
    assert s[|b|] == SEPARATOR;
    assert forall i | |a| < i < |s| :: s[i] == x[i - |a| - 1];
  }

  lemma SuffixUnique(a: string, x: string, b: string, y: string)
    requires a + [SEPARATOR] + x == b + [SEPARATOR] + y
    requires SEPARATOR !in x && SEPARATOR !in y
    ensures a == b && x == y
  {
    LastSeparator(a, x, b, y);
    LastSeparator(b, y, a, x);
    var s := a + [SEPARATOR] + x;
    assert s[..|a|] == a && s[..|a|] == b;
    assert s[|a| + 1..] == x && s[|a| + 1..] == y;
  }

  lemma NameHasNoSeparator(r: Reason)
    ensures SEPARATOR !in ReasonName(r)
  {
    match r
    case StopProvenance => assert SEPARATOR !in "stop.provenance_incomplete";
    case StopInvestigation => assert SEPARATOR !in "stop.investigation_markers";
    case StopVerification => assert SEPARATOR !in "stop.verification_missing";
    case PretoolGoals => assert SEPARATOR !in "pretool.goals_missing";
    case PretoolIntent => assert SEPARATOR !in "pretool.intent_missing";
    case PretoolContract => assert SEPARATOR !in "pretool.contract_missing";
  }

  /** Two characters that tell a reason's name apart. */
  function Mark(r: Reason): (char, char) {
    match r
    case StopProvenance => ('s', 'p')
    case StopInvestigation => ('s', 'i')
    case StopVerification => ('s', 'v')
    case PretoolGoals => ('p', 'g')
    case PretoolIntent => ('p', 'i')
    case PretoolContract => ('p', 'c')
  }

  lemma Marked(r: Reason)
    ensures |ReasonName(r)| > 8
    ensures ReasonName(r)[0] == Mark(r).0 && ReasonName(r)[if Mark(r).0 == 's' then 5 else 8] == Mark(r).1
  {
  }

  lemma NamesInjective(a: Reason, b: Reason)
    requires ReasonName(a) == ReasonName(b)
    ensures a == b
  {
    Marked(a);
    Marked(b);
  }

  /** Within one session the joined key identifies the recovery scope, whatever
      characters the turn id holds. */
  lemma ScopeKeyInjective(a: Scope, b: Scope)
    requires a.identity == b.identity && ScopeKey(a) == ScopeKey(b)
    ensures a == b
  {
    var prefix := a.identity.host + [SEPARATOR] + a.identity.session + [SEPARATOR] + a.identity.agent + [SEPARATOR];
    NameHasNoSeparator(a.reason);
    NameHasNoSeparator(b.reason);
    SuffixUnique(prefix + a.turnId, ReasonName(a.reason), prefix + b.turnId, ReasonName(b.reason));
    NamesInjective(a.reason, b.reason);
    assert (prefix + a.turnId)[|prefix|..] == a.turnId;
    assert (prefix + b.turnId)[|prefix|..] == b.turnId;
  }

  // ----- Attempts a recovery resolves ---------------------------------------

  /** The ids a recovery really resolves, with its repetitions. */
  function Effective(resolves: seq<string>, now: set<string>): (r: seq<string>)
    ensures forall id :: id in r <==> id in resolves && id in now
  {
    if resolves == [] then [] else
      var prior := Effective(resolves[..|resolves| - 1], now);
      var id := resolves[|resolves| - 1];
      if id in now then prior + [id] else prior
  }

  ghost function Ids(ids: seq<string>): set<string> {
    set id | id in ids
  }

  lemma {:induction false} DistinctExactly(ids: seq<string>)
    ensures |Ids(ids)| <= |ids|
    ensures |Ids(ids)| == |ids| <==> Distinct(ids)
  {
    if ids != [] {
      var init, last := ids[..|ids| - 1], ids[|ids| - 1];
      DistinctExactly(init);
      assert ids == init + [last];
      assert Ids(ids) == Ids(init) + {last};
      if last in init {
        assert Ids(ids) == Ids(init);
      } else {
        assert Distinct(init) ==> Distinct(ids);
      }
    }
  }

  /** How many attempts a transition counts twice. */
  ghost function Extra(b: Batch, t: Transition): nat {
    var now := ResolvedNow(b, t);
    DistinctExactly(Effective(t.resolves, now));
    assert Ids(Effective(t.resolves, now)) == now;
    if t.action.Recover? then |Effective(t.resolves, now)| - |now| else 0
  }

  ghost function TotalExtra(ts: seq<Transition>): nat {
    if ts == [] then 0 else TotalExtra(ts[..|ts| - 1]) + Extra(Resolved(ts[..|ts| - 1]), ts[|ts| - 1])
  }

  ghost function ReasonExtra(ts: seq<Transition>, r: Reason): nat {
    if ts == [] then 0
    else ReasonExtra(ts[..|ts| - 1], r)
         + if ts[|ts| - 1].reason == r then Extra(Resolved(ts[..|ts| - 1]), ts[|ts| - 1]) else 0
  }

  /** No recovery names twice a block that it resolves. */
  ghost predicate NoRepeats(ts: seq<Transition>) {
    forall n | 0 <= n < |ts| && ts[n].action.Recover? ::
      Distinct(Effective(ts[n].resolves, ResolvedNow(Resolved(ts[..n]), ts[n])))
  }

  lemma {:induction false} NoExtraExactly(ts: seq<Transition>)
    ensures TotalExtra(ts) == 0 <==> NoRepeats(ts)
    ensures TotalExtra(ts) == 0 ==> forall r :: ReasonExtra(ts, r) == 0
  {
    if ts != [] {
      var init, t := ts[..|ts| - 1], ts[|ts| - 1];
      NoExtraExactly(init);
      NoRepeatsStep(init, t);
      assert ts == init + [t];
      var now := ResolvedNow(Resolved(init), t);
      DistinctExactly(Effective(t.resolves, now));
      assert Ids(Effective(t.resolves, now)) == now;
    }
  }

  lemma NoRepeatsStep(init: seq<Transition>, t: Transition)
    ensures NoRepeats(init + [t]) <==>
      (NoRepeats(init) && (t.action.Recover? ==> Distinct(Effective(t.resolves, ResolvedNow(Resolved(init), t)))))
  {
    var ts := init + [t];
    assert ts[..|init|] == init && ts[|init|] == t;
    forall n | 0 <= n < |init| ensures ts[..n] == init[..n] && ts[n] == init[n] {
    }
    if NoRepeats(ts) {
      forall n | 0 <= n < |init| && init[n].action.Recover?
        ensures Distinct(Effective(init[n].resolves, ResolvedNow(Resolved(init[..n]), init[n])))
      {
        assert ts[n].action.Recover?;
      }
    }
  }

  lemma {:induction false} DistinctResolvesSuffice(resolves: seq<string>, now: set<string>)
    requires Distinct(resolves)
    ensures Distinct(Effective(resolves, now))
  {
    if resolves != [] {
      DistinctResolvesSuffice(resolves[..|resolves| - 1], now);
    }
  }

  // ----- The simulation, one transition at a time ---------------------------

  /** What the batch state means: every block is unresolved or recovered. */
  ghost predicate BatchOk(b: Batch, id: Identity) {
    && (forall k | k in b.unresolved :: k in b.blocks && b.unresolved[k] == b.blocks[k])
    && b.recovered == b.blocks.Keys - b.unresolved.Keys
    && (forall s | s in b.scopes :: s.identity == id)
  }

  ghost predicate OpenMatch(unresolved: seq<string>, reasons: map<string, Reason>, b: Batch) {
    && (forall k :: k in unresolved <==> k in b.unresolved)
    && reasons.Keys == b.unresolved.Keys
    && (forall k | k in b.unresolved :: reasons[k] == b.unresolved[k].reason)
  }

  ghost predicate ScopesMatch(keys: seq<string>, b: Batch, id: Identity) {
    forall s: Scope | s.identity == id :: ScopeKey(s) in keys <==> s in b.scopes
  }

  ghost predicate TotalsMatch(totals: Row, b: Batch, extra: nat, caps: nat) {
    totals == Row(|b.blocks|, |b.scopes|, |b.recovered| + extra, caps)
  }

  ghost predicate RowMatch(row: Row, b: Batch, extra: nat, caps: nat, r: Reason) {
    row == Row(|ReasonBlocks(b, r)|, |ReasonScopes(b, r)|, |ReasonBlocks(b, r) * b.recovered| + extra, caps)
  }

  lemma BatchStepOk(b: Batch, t: Transition)
    requires BatchOk(b, t.identity) && t.eventId !in b.blocks
    ensures BatchOk(BatchStep(b, t), t.identity)
  {
  }

  lemma AddOne<T>(s: set<T>, x: T)
    ensures |s + {x}| == |s| + if x in s then 0 else 1
  {
    if x in s {
      assert s + {x} == s;
    }
  }

  lemma AddDisjoint<T>(a: set<T>, b: set<T>)
    requires a !! b
    ensures |a + b| == |a| + |b|
  {
  }

  lemma BlockTotals(totals: Row, b: Batch, t: Transition, extra: nat, caps: nat)
    requires BatchOk(b, t.identity) && t.eventId !in b.blocks && t.action.Block?
    requires TotalsMatch(totals, b, extra, caps)
    ensures TotalsMatch(Blocked(totals), BatchStep(b, t), extra, caps)
  {
    assert BatchStep(b, t).blocks.Keys == b.blocks.Keys + {t.eventId};
  }

  lemma BlockSets(b: Batch, t: Transition, r: Reason)
    requires BatchOk(b, t.identity) && t.eventId !in b.blocks && t.action.Block?
    ensures var next := BatchStep(b, t);
      && ReasonBlocks(next, r) == ReasonBlocks(b, r) + (if r == t.reason then {t.eventId} else {})
      && t.eventId !in ReasonBlocks(b, r)
      && ReasonBlocks(next, r) * next.recovered == ReasonBlocks(b, r) * b.recovered
      && ReasonScopes(next, r) == ReasonScopes(b, r)
  {
  }

  lemma BlockRow(row: Row, b: Batch, t: Transition, extra: nat, caps: nat, r: Reason)
    requires BatchOk(b, t.identity) && t.eventId !in b.blocks && t.action.Block?
    requires RowMatch(row, b, extra, caps, r)
    ensures RowMatch(if r == t.reason then Blocked(row) else row, BatchStep(b, t), extra, caps, r)
  {
    BlockSets(b, t, r);
    AddOne(ReasonBlocks(b, r), t.eventId);
    assert ReasonBlocks(b, r) + {} == ReasonBlocks(b, r);
  }

  lemma BlockOpens(unresolved: seq<string>, reasons: map<string, Reason>, b: Batch, t: Transition)
    requires OpenMatch(unresolved, reasons, b) && t.action.Block?
    ensures OpenMatch(unresolved + [t.eventId], reasons[t.eventId := t.reason], BatchStep(b, t))
  {
  }

  lemma {:induction false} ResolvedListIsEffective(
      resolves: seq<string>, reasons: map<string, Reason>, unresolved: seq<string>, b: Batch, t: Transition)
    requires OpenMatch(unresolved, reasons, b) && forall id | id in resolves :: id in t.resolves
    ensures ResolvedList(resolves, reasons, unresolved, t.reason) == Effective(resolves, ResolvedNow(b, t))
  {
    if resolves != [] {
      ResolvedListIsEffective(resolves[..|resolves| - 1], reasons, unresolved, b, t);
    }
  }

  /** The resolved list as the batch sees it, and how many it counts twice. */
  lemma ListMatches(unresolved: seq<string>, reasons: map<string, Reason>, b: Batch, t: Transition)
    requires OpenMatch(unresolved, reasons, b) && t.action.Recover?
    ensures var list := ResolvedList(t.resolves, reasons, unresolved, t.reason);
      && (forall id :: id in list <==> id in ResolvedNow(b, t))
      && |list| == |ResolvedNow(b, t)| + Extra(b, t)
      && (list == [] <==> ResolvedNow(b, t) == {})
  {
    var now := ResolvedNow(b, t);
    ResolvedListIsEffective(t.resolves, reasons, unresolved, b, t);
    DistinctExactly(Effective(t.resolves, now));
    assert Ids(Effective(t.resolves, now)) == now;
    var list := ResolvedList(t.resolves, reasons, unresolved, t.reason);
    if list != [] {
      assert list[0] in list;
    }
  }

  lemma RecoverOpens(unresolved: seq<string>, reasons: map<string, Reason>, b: Batch, t: Transition)
    requires OpenMatch(unresolved, reasons, b) && t.action.Recover?
    ensures var list := ResolvedList(t.resolves, reasons, unresolved, t.reason);
      list != [] ==> OpenMatch(WithoutAll(unresolved, list), Forgotten(reasons, list), BatchStep(b, t))
  {
    ListMatches(unresolved, reasons, b, t);
  }

  lemma RecoverScopes(keys: seq<string>, b: Batch, t: Transition)
    requires ScopesMatch(keys, b, t.identity) && BatchOk(b, t.identity)
    requires t.action.Recover? && ResolvedNow(b, t) != {}
    ensures var key := ScopeKey(ScopeOf(t));
      && ScopesMatch(if key in keys then keys else keys + [key], BatchStep(b, t), t.identity)
      && (key in keys <==> ScopeOf(t) in b.scopes)
  {
    var key := ScopeKey(ScopeOf(t));
    var after := if key in keys then keys else keys + [key];
    forall s: Scope | s.identity == t.identity
      ensures ScopeKey(s) in after <==> s in b.scopes + {ScopeOf(t)}
    {
      if ScopeKey(s) == key {
        ScopeKeyInjective(s, ScopeOf(t));
      }
    }
  }

  lemma RecoverTotals(totals: Row, b: Batch, t: Transition, extra: nat, caps: nat, attempts: nat)
    requires BatchOk(b, t.identity) && t.action.Recover? && ResolvedNow(b, t) != {}
    requires TotalsMatch(totals, b, extra, caps) && attempts == |ResolvedNow(b, t)| + Extra(b, t)
    ensures TotalsMatch(Credited(totals, ScopeOf(t) !in b.scopes, attempts), BatchStep(b, t), extra + Extra(b, t), caps)
  {
    AddDisjoint(b.recovered, ResolvedNow(b, t));
    AddOne(b.scopes, ScopeOf(t));
  }

  lemma RecoverSets(b: Batch, t: Transition, r: Reason)
    requires BatchOk(b, t.identity) && t.action.Recover? && ResolvedNow(b, t) != {}
    ensures var next := BatchStep(b, t);
      && ReasonBlocks(next, r) == ReasonBlocks(b, r)
      && ReasonBlocks(b, r) * next.recovered ==
           ReasonBlocks(b, r) * b.recovered + (if r == t.reason then ResolvedNow(b, t) else {})
      && ReasonBlocks(b, r) * b.recovered !! ResolvedNow(b, t)
      && ReasonScopes(next, r) == ReasonScopes(b, r) + (if r == t.reason then {ScopeOf(t)} else {})
      && (r == t.reason ==> (ScopeOf(t) in ReasonScopes(b, r) <==> ScopeOf(t) in b.scopes))
  {
  }

  lemma RecoverRow(row: Row, b: Batch, t: Transition, extra: nat, caps: nat, attempts: nat)
    requires BatchOk(b, t.identity) && t.action.Recover? && ResolvedNow(b, t) != {}
    requires RowMatch(row, b, extra, caps, t.reason) && attempts == |ResolvedNow(b, t)| + Extra(b, t)
    ensures RowMatch(Credited(row, ScopeOf(t) !in b.scopes, attempts), BatchStep(b, t), extra + Extra(b, t), caps, t.reason)
  {
    RecoverSets(b, t, t.reason);
    AddDisjoint(ReasonBlocks(b, t.reason) * b.recovered, ResolvedNow(b, t));
    AddOne(ReasonScopes(b, t.reason), ScopeOf(t));
  }

  lemma RecoverOtherRow(row: Row, b: Batch, t: Transition, extra: nat, caps: nat, r: Reason)
    requires BatchOk(b, t.identity) && t.action.Recover? && r != t.reason
    requires RowMatch(row, b, extra, caps, r)
    ensures RowMatch(row, BatchStep(b, t), extra, caps, r)
  {
    if ResolvedNow(b, t) != {} {
      RecoverSets(b, t, r);
      assert ReasonBlocks(b, r) * b.recovered + {} == ReasonBlocks(b, r) * b.recovered;
      assert ReasonScopes(b, r) + {} == ReasonScopes(b, r);
    }
  }

  // ----- The simulation over a whole session --------------------------------

  ghost predicate RowsMatchAt(rows: map<Reason, Row>, ts: seq<Transition>, r: Reason) {
    RowMatch(RowOf(rows, r), Resolved(ts), ReasonExtra(ts, r), ReasonCaps(ts, r), r)
  }

  ghost predicate RowsMatch(rows: map<Reason, Row>, ts: seq<Transition>) {
    forall r :: RowsMatchAt(rows, ts, r)
  }

  ghost predicate StateMatch(e: Entry, b: Batch, id: Identity) {
    BatchOk(b, id) && OpenMatch(e.unresolved, e.unresolvedReasons, b) && ScopesMatch(e.scopeKeys, b, id)
  }

  lemma Decomposed(ts: seq<Transition>, t: Transition)
    ensures Resolved(ts + [t]) == BatchStep(Resolved(ts), t)
    ensures CapsOf(ts + [t]) == CapsOf(ts) + if t.action.CapAllow? then 1 else 0
    ensures TotalExtra(ts + [t]) == TotalExtra(ts) + Extra(Resolved(ts), t)
    ensures ReasonsOf(ts + [t]) == ReasonsOf(ts) + {t.reason}
  {
    assert (ts + [t])[..|ts|] == ts;
  }

  lemma ReasonDecomposed(ts: seq<Transition>, t: Transition, r: Reason)
    ensures ReasonCaps(ts + [t], r) == ReasonCaps(ts, r) + if t.action.CapAllow? && t.reason == r then 1 else 0
    ensures ReasonExtra(ts + [t], r) == ReasonExtra(ts, r) + if t.reason == r then Extra(Resolved(ts), t) else 0
  {
    assert (ts + [t])[..|ts|] == ts;
  }

  lemma StateStep(e: Entry, b: Batch, t: Transition)
    requires StateMatch(e, b, t.identity) && t.eventId !in b.blocks
    ensures BatchOk(BatchStep(b, t), t.identity)
    ensures OpenMatch(OpenAfter(e, t), ReasonsAfter(e, t), BatchStep(b, t))
    ensures ScopesMatch(ScopesAfter(e, t), BatchStep(b, t), t.identity)
  {
    BatchStepOk(b, t);
    match t.action {
      case Block => BlockOpens(e.unresolved, e.unresolvedReasons, b, t);
      case CapAllow =>
      case Recover =>
        ListMatches(e.unresolved, e.unresolvedReasons, b, t);
        RecoverOpens(e.unresolved, e.unresolvedReasons, b, t);
        if ResolvedNow(b, t) != {} {
          RecoverScopes(e.scopeKeys, b, t);
        }
    }
  }

  lemma TotalsStep(e: Entry, b: Batch, t: Transition, extra: nat, caps: nat)
    requires StateMatch(e, b, t.identity) && t.eventId !in b.blocks
    requires TotalsMatch(e.totals, b, extra, caps)
    ensures TotalsMatch(Counted(e.totals, e, t), BatchStep(b, t), extra + Extra(b, t),
                        caps + if t.action.CapAllow? then 1 else 0)
  {
    match t.action {
      case Block => BlockTotals(e.totals, b, t, extra, caps);
      case CapAllow =>
      case Recover =>
        ListMatches(e.unresolved, e.unresolvedReasons, b, t);
        if ResolvedNow(b, t) != {} {
          RecoverScopes(e.scopeKeys, b, t);
          RecoverTotals(e.totals, b, t, extra, caps, |ResolvedBy(e, t)|);
        }
    }
  }

  lemma RecoverCounts(e: Entry, row: Row, b: Batch, t: Transition, extra: nat, caps: nat)
    requires StateMatch(e, b, t.identity) && t.action.Recover? && RowMatch(row, b, extra, caps, t.reason)
    ensures RowMatch(Counted(row, e, t), BatchStep(b, t), extra + Extra(b, t), caps, t.reason)
  {
    ListMatches(e.unresolved, e.unresolvedReasons, b, t);
    if ResolvedNow(b, t) != {} {
      RecoverScopes(e.scopeKeys, b, t);
      RecoverRow(row, b, t, extra, caps, |ResolvedBy(e, t)|);
    }
  }

  lemma RowStep(e: Entry, row: Row, b: Batch, t: Transition, extra: nat, caps: nat, r: Reason)
    requires StateMatch(e, b, t.identity) && t.eventId !in b.blocks
    requires RowMatch(row, b, extra, caps, r)
    ensures RowMatch(if r == t.reason then Counted(row, e, t) else row, BatchStep(b, t),
                     extra + (if r == t.reason then Extra(b, t) else 0),
                     caps + (if r == t.reason && t.action.CapAllow? then 1 else 0), r)
  {
    match t.action {
      case Block => BlockRow(row, b, t, extra, caps, r);
      case CapAllow =>
      case Recover =>
        if r == t.reason {
          RecoverCounts(e, row, b, t, extra, caps);
        } else {
          RecoverOtherRow(row, b, t, extra, caps, r);
        }
    }
  }

  lemma ResolvedStep(ts: seq<Transition>, t: Transition)
    ensures Resolved(ts + [t]) == BatchStep(Resolved(ts), t)
  {
    assert (ts + [t])[..|ts|] == ts;
  }

  lemma RowOfUpdate(e: Entry, b: Batch, t: Transition, row: Row, r: Reason, extra: nat, caps: nat)
    requires StateMatch(e, b, t.identity) && t.eventId !in b.blocks
    requires RowMatch(RowOf(e.byReason, r), b, extra, caps, r) && row == Counted(RowOf(e.byReason, t.reason), e, t)
    ensures RowMatch(RowOf(e.byReason[t.reason := row], r), BatchStep(b, t),
                     extra + (if r == t.reason then Extra(b, t) else 0),
                     caps + (if r == t.reason && t.action.CapAllow? then 1 else 0), r)
  {
    RowStep(e, RowOf(e.byReason, r), b, t, extra, caps, r);
    assert RowOf(e.byReason[t.reason := row], r) == if r == t.reason then row else RowOf(e.byReason, r);
  }

  lemma RowsStepAt(e: Entry, ts: seq<Transition>, t: Transition, row: Row, r: Reason)
    requires StateMatch(e, Resolved(ts), t.identity) && t.eventId !in Resolved(ts).blocks
    requires RowsMatchAt(e.byReason, ts, r) && row == Counted(RowOf(e.byReason, t.reason), e, t)
    ensures RowsMatchAt(e.byReason[t.reason := row], ts + [t], r)
  {
    ResolvedStep(ts, t);
    ReasonDecomposed(ts, t, r);
    RowOfUpdate(e, Resolved(ts), t, row, r, ReasonExtra(ts, r), ReasonCaps(ts, r));
  }

  lemma RowsStep(e: Entry, ts: seq<Transition>, t: Transition, row: Row)
    requires StateMatch(e, Resolved(ts), t.identity) && t.eventId !in Resolved(ts).blocks
    requires RowsMatch(e.byReason, ts) && row == Counted(RowOf(e.byReason, t.reason), e, t)
    ensures RowsMatch(e.byReason[t.reason := row], ts + [t])
  {
    var rows, all := e.byReason[t.reason := row], ts + [t];
    forall r ensures RowsMatchAt(rows, all, r) {
      RowsStepAt(e, ts, t, row, r);
    }
  }

  /** Transitions of one session, every event once. */
  ghost predicate Clean(ts: seq<Transition>) {
    && ts != [] && OneSession(ts)
    && forall i, j | 0 <= i < j < |ts| :: ts[i].eventId != ts[j].eventId
  }

  /** The entry before the last transition. */
  function Prior(ts: seq<Transition>, complete: bool): Entry
    requires ts != []
  {
    if |ts| == 1 then EmptyEntry(ts[0]) else Folded(ts[..|ts| - 1], complete)
  }

  lemma {:induction false} BlocksAreSeen(ts: seq<Transition>)
    ensures forall k | k in Resolved(ts).blocks :: HasId(ts, k)
  {
    if ts != [] {
      var init, t := ts[..|ts| - 1], ts[|ts| - 1];
      BlocksAreSeen(init);
      assert ts == init + [t];
      forall k ensures HasId(ts, k) <==> HasId(init, k) || t.eventId == k {
        HasIdOfAppend(init, t, k);
      }
    }
  }

  lemma LastIsNew(ts: seq<Transition>, complete: bool)
    requires Clean(ts)
    ensures var t := ts[|ts| - 1];
      && t.eventId !in Resolved(ts[..|ts| - 1]).blocks && t.eventId !in Prior(ts, complete).seen
      && t.identity == ts[0].identity
    ensures |ts| > 1 ==> Clean(ts[..|ts| - 1])
  {
    var init, t := ts[..|ts| - 1], ts[|ts| - 1];
    assert !HasId(init, t.eventId);
    BlocksAreSeen(init);
    if init != [] {
      FoldedSeen(init, complete, t.eventId);
      assert forall x | x in init :: x in ts;
    }
  }

  lemma {:induction false} FoldState(ts: seq<Transition>, complete: bool)
    requires Clean(ts)
    ensures StateMatch(Prior(ts, complete), Resolved(ts[..|ts| - 1]), ts[0].identity)
    ensures StateMatch(Folded(ts, complete), Resolved(ts), ts[0].identity)
  {
    LastIsNew(ts, complete);
    if |ts| > 1 {
      FoldState(ts[..|ts| - 1], complete);
    }
    StateStep(Prior(ts, complete), Resolved(ts[..|ts| - 1]), ts[|ts| - 1]);
  }

  lemma {:induction false} FoldTotals(ts: seq<Transition>, complete: bool)
    requires Clean(ts)
    ensures TotalsMatch(Folded(ts, complete).totals, Resolved(ts), TotalExtra(ts), CapsOf(ts))
  {
    LastIsNew(ts, complete);
    FoldState(ts, complete);
    var init := ts[..|ts| - 1];
    if |ts| > 1 {
      FoldTotals(init, complete);
    }
    TotalsStep(Prior(ts, complete), Resolved(init), ts[|ts| - 1], TotalExtra(init), CapsOf(init));
  }

  lemma EmptyRows()
    ensures RowsMatch(map[], [])
  {
  }

  lemma {:induction false} FoldRows(ts: seq<Transition>, complete: bool)
    requires Clean(ts)
    ensures Folded(ts, complete).byReason.Keys == ReasonsOf(ts)
    ensures RowsMatch(Folded(ts, complete).byReason, ts)
  {
    LastIsNew(ts, complete);
    FoldState(ts, complete);
    var init, t := ts[..|ts| - 1], ts[|ts| - 1];
    var e := Prior(ts, complete);
    if |ts| > 1 {
      FoldRows(init, complete);
    } else {
      EmptyRows();
    }
    RowsStep(e, init, t, Counted(RowOf(e.byReason, t.reason), e, t));
    assert ts == init + [t];
    Decomposed(init, t);
  }

  lemma {:induction false} FoldTurnAndTimes(ts: seq<Transition>, complete: bool)
    requires Clean(ts)
    ensures var e := Folded(ts, complete);
      && e.identity == ts[0].identity && e.firstAt == ts[0].time
      && e.latestTurn == ts[|ts| - 1].turnId && e.lastAt == ts[|ts| - 1].time
  {
    LastIsNew(ts, complete);
    if |ts| > 1 {
      FoldTurnAndTimes(ts[..|ts| - 1], complete);
    }
  }

  // ----- The refinement -----------------------------------------------------

  ghost predicate RowsAgree(rows: map<Reason, Row>, batch: map<Reason, Row>, extraOf: map<Reason, nat>) {
    && rows.Keys == batch.Keys == extraOf.Keys
    && forall r | r in batch :: rows[r] == batch[r].(resolved := batch[r].resolved + extraOf[r])
  }

  /** The entry's numbers are the aggregate's; the attempts counted as resolved
      exceed the aggregate's by `extra`, in the row of a reason by its share. */
  ghost predicate Agrees(e: Entry, a: Aggregate, extra: nat, extraOf: map<Reason, nat>) {
    && e.identity == a.identity && e.latestTurn == a.latestTurn && e.firstAt == a.firstAt && e.lastAt == a.lastAt
    && e.totals == a.totals.(resolved := a.totals.resolved + extra)
    && (forall id :: id in e.unresolved <==> id in a.unresolved)
    && RowsAgree(e.byReason, a.byReason, extraOf)
  }

  ghost function Extras(ts: seq<Transition>): map<Reason, nat> {
    map r | r in ReasonsOf(ts) :: ReasonExtra(ts, r)
  }

  lemma CleanRowsAgree(ts: seq<Transition>, complete: bool)
    requires Clean(ts)
    ensures RowsAgree(Folded(ts, complete).byReason, AggregateOf(ts).byReason, Extras(ts))
  {
    FoldRows(ts, complete);
    var rows := Folded(ts, complete).byReason;
    forall r | r in ReasonsOf(ts)
      ensures rows[r] == ReasonRow(ts, r).(resolved := ReasonRow(ts, r).resolved + ReasonExtra(ts, r))
    {
      assert RowsMatchAt(rows, ts, r);
    }
  }

  lemma CleanOpenAgrees(ts: seq<Transition>, complete: bool)
    requires Clean(ts)
    ensures forall id :: id in Folded(ts, complete).unresolved <==> id in AggregateOf(ts).unresolved
  {
    FoldState(ts, complete);
  }

  lemma CleanAgrees(ts: seq<Transition>, complete: bool)
    requires Clean(ts)
    ensures Agrees(Folded(ts, complete), AggregateOf(ts), TotalExtra(ts), Extras(ts))
  {
    FoldTotals(ts, complete);
    CleanOpenAgrees(ts, complete);
    CleanRowsAgree(ts, complete);
    FoldTurnAndTimes(ts, complete);
  }

  lemma {:induction false} DeduplicatedDistinct(ts: seq<Transition>)
    ensures forall i, j | 0 <= i < j < |Deduplicated(ts)| :: Deduplicated(ts)[i].eventId != Deduplicated(ts)[j].eventId
  {
    if ts != [] {
      DeduplicatedDistinct(ts[..|ts| - 1]);
    }
  }

  /** The unique events in time order, as the batch reads them. */
  ghost function Ordered(ts: seq<Transition>): seq<Transition> {
    ByTime(Deduplicated(ts))
  }

  lemma OrderedClean(ts: seq<Transition>)
    requires ts != [] && OneSession(ts) && !Conflicting(ts)
    ensures Clean(Ordered(ts)) && Ordered(ts) == Deduplicated(ByTime(ts))
    ensures Aggregated(ts) == Ok(AggregateOf(Ordered(ts)))
  {
    DedupCommutesWithSort(ts);
    DeduplicatedDistinct(ByTime(ts));
    DeduplicatedIds(ts);
    assert HasId(ts, ts[0].eventId);
  }

  /** Folding over the sorted transitions of one session, repeated events and
      all, agrees with the batch aggregate of the unsorted ones, except that the
      fold counts an attempt once for every time a recovery names it. */
  lemma CacheRefinesBatch(ts: seq<Transition>, complete: bool)
    requires ts != [] && OneSession(ts) && !Conflicting(ts)
    ensures Aggregated(ts).Ok?
    ensures Agrees(Folded(ByTime(ts), complete), Aggregated(ts).value, TotalExtra(Ordered(ts)), Extras(Ordered(ts)))
  {
    OrderedClean(ts);
    FoldSkipsRepeats(ByTime(ts), complete);
    CleanAgrees(Ordered(ts), complete);
  }

  ghost function NoExtras(ts: seq<Transition>): map<Reason, nat> {
    map r | r in ReasonsOf(ts) :: 0
  }

  lemma AgreesOnce(e: Entry, a: Aggregate, extra: nat, extraOf: map<Reason, nat>, noneOf: map<Reason, nat>)
    requires Agrees(e, a, extra, extraOf) && extra > 0
    ensures !Agrees(e, a, 0, noneOf)
  {
  }

  lemma AgreesExactly(e: Entry, a: Aggregate, d: seq<Transition>)
    requires Agrees(e, a, TotalExtra(d), Extras(d))
    ensures Agrees(e, a, 0, NoExtras(d)) <==> NoRepeats(d)
  {
    NoExtraExactly(d);
    if NoRepeats(d) {
      assert Extras(d) == NoExtras(d);
    } else {
      AgreesOnce(e, a, TotalExtra(d), Extras(d), NoExtras(d));
    }
  }

  /** So the two agree in everything exactly when no recovery names twice a block
      that it resolves. */
  lemma CacheEqualsBatchExactly(ts: seq<Transition>, complete: bool)
    requires ts != [] && OneSession(ts) && !Conflicting(ts)
    ensures Aggregated(ts).Ok?
    ensures Agrees(Folded(ByTime(ts), complete), Aggregated(ts).value, 0, NoExtras(Ordered(ts))) <==> NoRepeats(Ordered(ts))
  {
    CacheRefinesBatch(ts, complete);
    AgreesExactly(Folded(ByTime(ts), complete), Aggregated(ts).value, Ordered(ts));
  }

  /** In particular when no transition lists an attempt twice, which its writer
      can check without knowing what is still open. */
  lemma CacheEqualsBatchWithoutRepeats(ts: seq<Transition>, complete: bool)
    requires ts != [] && OneSession(ts) && !Conflicting(ts)
    requires forall t | t in ts :: Distinct(t.resolves)
    ensures Aggregated(ts).Ok?
    ensures Agrees(Folded(ByTime(ts), complete), Aggregated(ts).value, 0, NoExtras(Ordered(ts)))
  {
    var d := Ordered(ts);
    forall n | 0 <= n < |d| && d[n].action.Recover?
      ensures Distinct(Effective(d[n].resolves, ResolvedNow(Resolved(d[..n]), d[n])))
    {
      assert d[n] in d;
      DistinctResolvesSuffice(d[n].resolves, ResolvedNow(Resolved(d[..n]), d[n]));
    }
    CacheEqualsBatchExactly(ts, complete);
  }

  /** When the batch refuses: nothing to aggregate, one event id with two
      contents, or transitions of several sessions. */
  lemma BatchRefusesExactly(ts: seq<Transition>)
    ensures Aggregated(ts).Ok? <==> ts != [] && OneSession(ts) && !Conflicting(ts)
  {
    if ts != [] && !Conflicting(ts) {
      DeduplicatedIds(ts);
      assert HasId(ts, ts[0].eventId);
      forall a | a in ts ensures a in Deduplicated(ts) {
        assert HasId(ts, a.eventId);
        var x :| x in Deduplicated(ts) && x.eventId == a.eventId;
        assert x in ts;
      }
    }
  }

  /** The cache built from a whole journal holds, for every session, an entry
      that agrees with the batch aggregate of that session's transitions. */
  lemma BuiltEntryRefinesBatch(ts: seq<Transition>, key: string, complete: bool)
    requires OfKey(ts, key) != [] && OneSession(OfKey(ts, key)) && !Conflicting(OfKey(ts, key))
    ensures OfKey(ByTime(ts), key) != [] && Aggregated(OfKey(ts, key)).Ok?
    ensures var d := Ordered(OfKey(ts, key));
      Agrees(Folded(OfKey(ByTime(ts), key), complete), Aggregated(OfKey(ts, key)).value, TotalExtra(d), Extras(d))
  {
    SessionCommutesWithSort(ts, key);
    CacheRefinesBatch(OfKey(ts, key), complete);
  }

  const SESSION := Identity("claude_code", "s", "a")
  const BLOCKED := Transition("b", SESSION, "t", StopVerification, Block, [], 0, "")
  const RECOVERED := Transition("r", SESSION, "t", StopVerification, Recover, ["b", "b"], 1, "")

  /** The smallest session in which they differ: one block, resolved by one
      recovery that names it twice. */
  lemma RepeatedNameCountsTwice()
    ensures Folded([BLOCKED, RECOVERED], true).totals.resolved == 2
    ensures |Resolved([BLOCKED, RECOVERED]).recovered| == 1
  {
    var ts := [BLOCKED, RECOVERED];
    assert ts[..1] == [BLOCKED] && [BLOCKED][..0] == [];
    assert Resolved([BLOCKED]) == Batch(map["b" := BLOCKED], map["b" := BLOCKED], {}, {});
    assert Resolved(ts) == BatchStep(Resolved([BLOCKED]), RECOVERED);
    assert ResolvedNow(Resolved([BLOCKED]), RECOVERED) == {"b"};
    NamedTwice();
  }

  lemma FirstFolded()
    ensures var e := Folded([BLOCKED], true);
      && e.unresolved == ["b"] && e.unresolvedReasons == map["b" := StopVerification] && e.seen == ["b"]
      && e.totals == Row(1, 0, 0, 0)
  {
    assert [BLOCKED][..0] == [];
  }

  lemma NamesListed(open: seq<string>, reasons: map<string, Reason>)
    requires open == ["b"] && reasons == map["b" := StopVerification]
    ensures ResolvedList(["b", "b"], reasons, open, StopVerification) == ["b", "b"]
  {
    assert ["b", "b"][..1] == ["b"] && ["b"][..0] == [];
    assert ResolvedList(["b"], reasons, open, StopVerification) == ["b"];
  }

  lemma NamedTwice()
    ensures Folded([BLOCKED, RECOVERED], true).totals.resolved == 2
  {
    var ts := [BLOCKED, RECOVERED];
    assert ts[..1] == [BLOCKED];
    var e := Folded([BLOCKED], true);
    FirstFolded();
    NamesListed(e.unresolved, e.unresolvedReasons);
    assert RECOVERED.eventId !in e.seen;
    assert Folded(ts, true).totals == Counted(e.totals, e, RECOVERED);
  }
}
