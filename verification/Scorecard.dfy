/** The session scorecard computed two ways: the incremental cache entry and the
    batch aggregate over all transitions.

    Models `updated_entry` and `build_cache` of core/scorecard_cache.py and
    `aggregate_transitions`, `_resolved_blocks` and `_aggregate_reason` of
    core/scorecard.py.
  */
module Scorecard {
  import opened Common

  datatype Reason =
    | StopProvenance | StopInvestigation | StopVerification
    | PretoolGoals | PretoolIntent | PretoolContract

  datatype Action = Block | Recover | CapAllow

  datatype Identity = Identity(host: string, session: string, agent: string)

  /** `note` stands for the fields neither computation reads. */
  datatype Transition = Transition(
    eventId: string, identity: Identity, turnId: string, reason: Reason, action: Action,
    resolves: seq<string>, time: int, note: string)

  datatype Scope = Scope(identity: Identity, turnId: string, reason: Reason)

  datatype Row = Row(blocked: nat, recovered: nat, resolved: nat, caps: nat)

  datatype Entry = Entry(
    identity: Identity, firstAt: int, complete: bool, totals: Row,
    unresolved: seq<string>, unresolvedReasons: map<string, Reason>, scopeKeys: seq<string>,
    seen: seq<string>, latestTurn: string, lastAt: int, byReason: map<Reason, Row>)

  datatype Aggregate = Aggregate(
    identity: Identity, totals: Row, unresolved: set<string>, latestTurn: string,
    firstAt: int, lastAt: int, byReason: map<Reason, Row>)

  datatype Error = Empty | ConflictingDuplicate | MixedSessions

  datatype Result = Ok(value: Aggregate) | Err(error: Error)

  function ReasonName(r: Reason): string {
    match r
    case StopProvenance => "stop.provenance_incomplete"
    case StopInvestigation => "stop.investigation_markers"
    case StopVerification => "stop.verification_missing"
    case PretoolGoals => "pretool.goals_missing"
    case PretoolIntent => "pretool.intent_missing"
    case PretoolContract => "pretool.contract_missing"
  }

  const SEPARATOR: char := '\U{1f}'

  function ScopeOf(t: Transition): Scope {
    Scope(t.identity, t.turnId, t.reason)
  }

  /** The recovery scope joined as the cache stores it. */
  function ScopeKey(s: Scope): string {
    s.identity.host + [SEPARATOR] + s.identity.session + [SEPARATOR] + s.identity.agent
    + [SEPARATOR] + s.turnId + [SEPARATOR] + ReasonName(s.reason)
  }

  function AgentKey(id: Identity): string {
    id.host + ":" + id.session + ":" + id.agent
  }

  // ----- The incremental entry ----------------------------------------------

  const EMPTY_ROW := Row(0, 0, 0, 0)

  function EmptyEntry(t: Transition): Entry {
    Entry(t.identity, t.time, true, EMPTY_ROW, [], map[], [], [], t.turnId, t.time, map[])
  }

  /** The ids a recovery resolves, in its own order and with its repetitions. */
  function ResolvedList(resolves: seq<string>, reasons: map<string, Reason>, unresolved: seq<string>, reason: Reason): (r: seq<string>)
    ensures forall id :: id in r <==> id in resolves && id in unresolved && id in reasons && reasons[id] == reason
  {
    if resolves == [] then [] else
      var prior := ResolvedList(resolves[..|resolves| - 1], reasons, unresolved, reason);
      var id := resolves[|resolves| - 1];
      if id in unresolved && id in reasons && reasons[id] == reason then prior + [id] else prior
  }

  function WithoutAll(ids: seq<string>, gone: seq<string>): (r: seq<string>)
    ensures forall id :: id in r <==> id in ids && id !in gone
  {
    if ids == [] then [] else
      var prior := WithoutAll(ids[..|ids| - 1], gone);
      var id := ids[|ids| - 1];
      if id in gone then prior else prior + [id]
  }

  function RowOf(rows: map<Reason, Row>, r: Reason): Row {
    if r in rows then rows[r] else EMPTY_ROW
  }

  function Blocked(row: Row): Row {
    row.(blocked := row.blocked + 1)
  }

  function Capped(row: Row): Row {
    row.(caps := row.caps + 1)
  }

  function Credited(row: Row, newScope: bool, attempts: nat): Row {
    row.(recovered := row.recovered + (if newScope then 1 else 0), resolved := row.resolved + attempts)
  }

  function Forgotten(reasons: map<string, Reason>, resolved: seq<string>): map<string, Reason> {
    map id | id in reasons && id !in resolved :: reasons[id]
  }

  /** The blocks a recovery resolves. */
  function ResolvedBy(e: Entry, t: Transition): seq<string> {
    ResolvedList(t.resolves, e.unresolvedReasons, e.unresolved, t.reason)
  }

  /** The totals, or the reason's row, with the transition counted. */
  function Counted(row: Row, e: Entry, t: Transition): Row {
    match t.action
    case Block => Blocked(row)
    case CapAllow => Capped(row)
    case Recover =>
      if ResolvedBy(e, t) == [] then row
      else Credited(row, ScopeKey(ScopeOf(t)) !in e.scopeKeys, |ResolvedBy(e, t)|)
  }

  function OpenAfter(e: Entry, t: Transition): seq<string> {
    match t.action
    case Block => e.unresolved + [t.eventId]
    case CapAllow => e.unresolved
    case Recover => if ResolvedBy(e, t) == [] then e.unresolved else WithoutAll(e.unresolved, ResolvedBy(e, t))
  }

  function ReasonsAfter(e: Entry, t: Transition): map<string, Reason> {
    match t.action
    case Block => e.unresolvedReasons[t.eventId := t.reason]
    case CapAllow => e.unresolvedReasons
    case Recover => if ResolvedBy(e, t) == [] then e.unresolvedReasons else Forgotten(e.unresolvedReasons, ResolvedBy(e, t))
  }

  function ScopesAfter(e: Entry, t: Transition): seq<string> {
    if t.action.Recover? && ResolvedBy(e, t) != [] && ScopeKey(ScopeOf(t)) !in e.scopeKeys
    then e.scopeKeys + [ScopeKey(ScopeOf(t))]
    else e.scopeKeys
  }

  /** `updated_entry`. */
  function UpdatedEntry(e: Entry, t: Transition, complete: bool): Entry {
    if t.eventId in e.seen then e.(complete := e.complete && complete) else
      Entry(
        e.identity, e.firstAt, e.complete && complete, Counted(e.totals, e, t),
        OpenAfter(e, t), ReasonsAfter(e, t), ScopesAfter(e, t),
        e.seen + [t.eventId], t.turnId, t.time,
        e.byReason[t.reason := Counted(RowOf(e.byReason, t.reason), e, t)])
  }

  /** The fold over one session's transitions, in the order given. */
  function Folded(ts: seq<Transition>, complete: bool): Entry
    requires ts != []
  {
    UpdatedEntry(if |ts| == 1 then EmptyEntry(ts[0]) else Folded(ts[..|ts| - 1], complete), ts[|ts| - 1], complete)
  }

  // ----- Sorting and deduplication ------------------------------------------

  /** Puts a transition behind every one that is not later. */
  function Inserted(ts: seq<Transition>, t: Transition): (r: seq<Transition>)
    ensures forall x :: x in r <==> x in ts || x == t
    ensures |r| == |ts| + 1
  {
    if ts == [] || ts[|ts| - 1].time <= t.time then ts + [t]
    else Inserted(ts[..|ts| - 1], t) + [ts[|ts| - 1]]
  }

  /** The stable sort by time. */
  function ByTime(ts: seq<Transition>): (r: seq<Transition>)
    ensures forall x :: x in r <==> x in ts
    ensures |r| == |ts|
  {
    if ts == [] then [] else Inserted(ByTime(ts[..|ts| - 1]), ts[|ts| - 1])
  }

  predicate HasId(ts: seq<Transition>, id: string) {
    exists t | t in ts :: t.eventId == id
  }

  /** The first transition of each event id. */
  function Deduplicated(ts: seq<Transition>): (r: seq<Transition>)
    ensures forall x | x in r :: x in ts
  {
    if ts == [] then [] else
      var prior := Deduplicated(ts[..|ts| - 1]);
      var t := ts[|ts| - 1];
      if HasId(prior, t.eventId) then prior else prior + [t]
  }

  ghost predicate Conflicting(ts: seq<Transition>) {
    exists a, b | a in ts && b in ts :: a.eventId == b.eventId && a != b
  }

  ghost predicate OneSession(ts: seq<Transition>) {
    forall a, b | a in ts && b in ts :: a.identity == b.identity
  }

  // ----- The batch aggregate ------------------------------------------------

  datatype Batch = Batch(
    blocks: map<string, Transition>, unresolved: map<string, Transition>,
    recovered: set<string>, scopes: set<Scope>)

  function ResolvedNow(b: Batch, t: Transition): set<string> {
    set id | id in t.resolves && id in b.unresolved && b.unresolved[id].reason == t.reason
  }

  function BatchStep(b: Batch, t: Transition): Batch {
    match t.action
    case Block => b.(blocks := b.blocks[t.eventId := t], unresolved := b.unresolved[t.eventId := t])
    case CapAllow => b
    case Recover =>
      var now := ResolvedNow(b, t);
      if now == {} then b
      else b.(recovered := b.recovered + now, scopes := b.scopes + {ScopeOf(t)}, unresolved := b.unresolved - now)
  }

  /** `_resolved_blocks`. */
  function Resolved(ts: seq<Transition>): Batch {
    if ts == [] then Batch(map[], map[], {}, {})
    else BatchStep(Resolved(ts[..|ts| - 1]), ts[|ts| - 1])
  }

  function CapsOf(ts: seq<Transition>): nat {
    if ts == [] then 0 else CapsOf(ts[..|ts| - 1]) + if ts[|ts| - 1].action.CapAllow? then 1 else 0
  }

  function ReasonCaps(ts: seq<Transition>, r: Reason): nat {
    if ts == [] then 0
    else ReasonCaps(ts[..|ts| - 1], r) + if ts[|ts| - 1].action.CapAllow? && ts[|ts| - 1].reason == r then 1 else 0
  }

  function ReasonBlocks(b: Batch, r: Reason): set<string> {
    set id | id in b.blocks && b.blocks[id].reason == r
  }

  function ReasonScopes(b: Batch, r: Reason): set<Scope> {
    set s | s in b.scopes && s.reason == r
  }

  /** `_aggregate_reason`. */
  function ReasonRow(ts: seq<Transition>, r: Reason): Row {
    var b := Resolved(ts);
    Row(|ReasonBlocks(b, r)|, |ReasonScopes(b, r)|, |ReasonBlocks(b, r) * b.recovered|, ReasonCaps(ts, r))
  }

  function ReasonsOf(ts: seq<Transition>): set<Reason> {
    set t | t in ts :: t.reason
  }

  function AggregateOf(ordered: seq<Transition>): Aggregate
    requires ordered != []
  {
    var b := Resolved(ordered);
    Aggregate(
      ordered[0].identity, Row(|b.blocks|, |b.scopes|, |b.recovered|, CapsOf(ordered)),
      b.blocks.Keys - b.recovered, ordered[|ordered| - 1].turnId,
      ordered[0].time, ordered[|ordered| - 1].time,
      map r | r in ReasonsOf(ordered) :: ReasonRow(ordered, r))
  }

  /** `aggregate_transitions`. */
  ghost function Aggregated(ts: seq<Transition>): Result {
    var ordered := ByTime(Deduplicated(ts));
    if Conflicting(ts) then Err(ConflictingDuplicate)
    else if ordered == [] then Err(Empty)
    else if !OneSession(ordered) then Err(MixedSessions)
    else Ok(AggregateOf(ordered))
  }

  // ----- The two computations as loops --------------------------------------

  method ForgetReasons(reasons: map<string, Reason>, resolved: seq<string>) returns (kept: map<string, Reason>)
    ensures kept == Forgotten(reasons, resolved)
  {
    kept := reasons;
    for n := 0 to |resolved|
      invariant kept == Forgotten(reasons, resolved[..n])
    {
      assert resolved[..n + 1] == resolved[..n] + [resolved[n]];
      kept := kept - {resolved[n]};
    }
    assert resolved[..|resolved|] == resolved;
  }

  method UpdateEntry(raw: Entry, t: Transition, complete: bool) returns (entry: Entry)
    ensures entry == UpdatedEntry(raw, t, complete)
  {
    entry := raw.(complete := raw.complete && complete);
    if t.eventId in raw.seen {
      return;
    }
    var totals, row := raw.totals, RowOf(raw.byReason, t.reason);
    var scopes, unresolved, reasons := raw.scopeKeys, raw.unresolved, raw.unresolvedReasons;
    match t.action {
      case Block =>
        totals, row := Blocked(totals), Blocked(row);
        unresolved := unresolved + [t.eventId];
        reasons := reasons[t.eventId := t.reason];
      case Recover =>
        var resolved := ResolvedList(t.resolves, reasons, unresolved, t.reason);
        if resolved != [] {
          var scope := ScopeKey(ScopeOf(t));
          var newScope := scope !in scopes;
          if newScope {
            scopes := scopes + [scope];
          }
          totals, row := Credited(totals, newScope, |resolved|), Credited(row, newScope, |resolved|);
          unresolved := WithoutAll(unresolved, resolved);
          reasons := ForgetReasons(reasons, resolved);
        }
      case CapAllow =>
        totals, row := Capped(totals), Capped(row);
    }
    entry := Entry(
      raw.identity, raw.firstAt, raw.complete && complete, totals, unresolved, reasons, scopes,
      raw.seen + [t.eventId], t.turnId, t.time, raw.byReason[t.reason := row]);
  }

  method ResolveBlocks(ts: seq<Transition>) returns (b: Batch)
    ensures b == Resolved(ts)
  {
    var blocks: map<string, Transition>, unresolved: map<string, Transition> := map[], map[];
    var recovered: set<string>, scopes: set<Scope> := {}, {};
    for n := 0 to |ts|
      invariant Batch(blocks, unresolved, recovered, scopes) == Resolved(ts[..n])
    {
      assert ts[..n + 1][..n] == ts[..n];
      var t := ts[n];
      if t.action.Block? {
        blocks := blocks[t.eventId := t];
        unresolved := unresolved[t.eventId := t];
      } else if t.action.Recover? {
        var now := set id | id in t.resolves && id in unresolved && unresolved[id].reason == t.reason;
        if now != {} {
          recovered := recovered + now;
          scopes := scopes + {ScopeOf(t)};
          unresolved := unresolved - now;
        }
      }
    }
    assert ts[..|ts|] == ts;
    b := Batch(blocks, unresolved, recovered, scopes);
  }
  predicate Repeats(prior: seq<Transition>, t: Transition) {
    exists x | x in prior :: x.eventId == t.eventId && x != t
  }

  lemma ConflictsWithKept(ts: seq<Transition>, unique: seq<Transition>, t: Transition)
    requires !Conflicting(ts) && forall x :: x in ts <==> x in unique
    ensures Conflicting(ts + [t]) <==> Repeats(unique, t)
  {
    if x :| x in unique && x.eventId == t.eventId && x != t {
      assert x in ts + [t] && t in ts + [t];
    }
    if !Repeats(unique, t) {
      forall a, b | a in ts + [t] && b in ts + [t] && a.eventId == b.eventId ensures a == b {
        assert (a in ts || a == t) && (b in ts || b == t);
      }
    }
  }

  lemma ConflictsStay(ts: seq<Transition>, n: nat)
    requires n <= |ts| && Conflicting(ts[..n])
    ensures Conflicting(ts)
  {
    var a, b :| a in ts[..n] && b in ts[..n] && a.eventId == b.eventId && a != b;
    assert a in ts && b in ts;
  }

  lemma UniqueStep(prior: seq<Transition>, t: Transition)
    ensures Deduplicated(prior + [t])
      == if HasId(Deduplicated(prior), t.eventId) then Deduplicated(prior) else Deduplicated(prior) + [t]
  {
    assert (prior + [t])[..|prior|] == prior;
  }

  /** The dictionary of unique events, in order of first appearance. */
  method KeepUnique(ts: seq<Transition>) returns (kept: Option<seq<Transition>>)
    ensures kept == if Conflicting(ts) then None else Some(Deduplicated(ts))
  {
    var unique: seq<Transition> := [];
    for n := 0 to |ts|
      invariant unique == Deduplicated(ts[..n]) && !Conflicting(ts[..n])
      invariant forall x :: x in ts[..n] <==> x in unique
    {
      assert ts[..n + 1] == ts[..n] + [ts[n]];
      UniqueStep(ts[..n], ts[n]);
      ConflictsWithKept(ts[..n], unique, ts[n]);
      if Repeats(unique, ts[n]) {
        ConflictsStay(ts, n + 1);
        return None;
      }
      if !HasId(unique, ts[n].eventId) {
        unique := unique + [ts[n]];
      }
    }
    assert ts[..|ts|] == ts;
    return Some(unique);
  }

  method Summarize(ordered: seq<Transition>) returns (a: Aggregate)
    requires ordered != []
    ensures a == AggregateOf(ordered)
  {
    var b := ResolveBlocks(ordered);
    var rows := map reason | reason in ReasonsOf(ordered) :: ReasonRow(ordered, reason);
    a := Aggregate(
      ordered[0].identity, Row(|b.blocks|, |b.scopes|, |b.recovered|, CapsOf(ordered)),
      b.blocks.Keys - b.recovered, ordered[|ordered| - 1].turnId,
      ordered[0].time, ordered[|ordered| - 1].time, rows);
  }

  /** `aggregate_transitions`. */
  method AggregateTransitions(ts: seq<Transition>) returns (r: Result)
    ensures r == Aggregated(ts)
  {
    var kept := KeepUnique(ts);
    if kept.None? {
      return Err(ConflictingDuplicate);
    }
    var ordered := ByTime(kept.value);
    if ordered == [] {
      return Err(Empty);
    }
    if exists t | t in ordered :: t.identity != ordered[0].identity {
      return Err(MixedSessions);
    }
    var a := Summarize(ordered);
    r := Ok(a);
  }

  function OfKey(ts: seq<Transition>, key: string): (r: seq<Transition>)
    ensures forall t :: t in r <==> t in ts && AgentKey(t.identity) == key
  {
    if ts == [] then [] else
      var prior := OfKey(ts[..|ts| - 1], key);
      if AgentKey(ts[|ts| - 1].identity) == key then prior + [ts[|ts| - 1]] else prior
  }

  method FoldEntry(ts: seq<Transition>, complete: bool) returns (entry: Entry)
    requires ts != []
    ensures entry == Folded(ts, complete)
  {
    entry := EmptyEntry(ts[0]);
    for n := 0 to |ts|
      invariant entry == if n == 0 then EmptyEntry(ts[0]) else Folded(ts[..n], complete)
    {
      assert ts[..n + 1][..n] == ts[..n];
      entry := UpdateEntry(entry, ts[n], complete);
    }
    assert ts[..|ts|] == ts;
  }

  /** The sessions in the order of their first transitions. */
  function SessionOrder(ts: seq<Transition>): (r: seq<string>)
    ensures forall k :: k in r <==> OfKey(ts, k) != []
    ensures Distinct(r)
  {
    if ts == [] then [] else
      var prior := SessionOrder(ts[..|ts| - 1]);
      var key := AgentKey(ts[|ts| - 1].identity);
      if key in prior then prior else prior + [key]
  }

  method GroupBySession(sorted: seq<Transition>) returns (order: seq<string>, grouped: map<string, seq<Transition>>)
    ensures order == SessionOrder(sorted) && forall k :: k in grouped <==> k in order
    ensures forall k | k in grouped :: grouped[k] == OfKey(sorted, k)
  {
    order, grouped := [], map[];
    for n := 0 to |sorted|
      invariant order == SessionOrder(sorted[..n]) && forall k :: k in grouped <==> k in order
      invariant forall k | k in grouped :: grouped[k] == OfKey(sorted[..n], k)
    {
      assert sorted[..n + 1][..n] == sorted[..n];
      var key := AgentKey(sorted[n].identity);
      if key !in grouped {
        order := order + [key];
      }
      grouped := grouped[key := (if key in grouped then grouped[key] else []) + [sorted[n]]];
    }
    assert sorted[..|sorted|] == sorted;
  }

  /** Every session's entry. */
  function EntriesOf(sorted: seq<Transition>, complete: bool): map<string, Entry> {
    map k | k in SessionOrder(sorted) :: Folded(OfKey(sorted, k), complete)
  }

  method BuildEntries(sorted: seq<Transition>, complete: bool) returns (order: seq<string>, entries: map<string, Entry>)
    ensures order == SessionOrder(sorted) && forall k :: k in entries <==> k in order
    ensures forall k | k in entries :: entries[k] == Folded(OfKey(sorted, k), complete)
  {
    var grouped;
    order, grouped := GroupBySession(sorted);
    entries := map[];
    for n := 0 to |order|
      invariant forall k :: k in entries <==> k in order[..n]
      invariant forall k | k in entries :: k in grouped && entries[k] == Folded(grouped[k], complete)
    {
      assert order[..n + 1] == order[..n] + [order[n]] && order[n] in order;
      var entry := FoldEntry(grouped[order[n]], complete);
      entries := entries[order[n] := entry];
    }
    assert order[..|order|] == order;
  }
}
