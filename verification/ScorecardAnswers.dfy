/** What the scorecard of a session says, read off its transitions: which blocks
    there were, which of them a recovery resolved, and which recoveries count.
  */
module ScorecardAnswers {
  import opened Common
  import opened Scorecard
  import opened ScorecardFacts

  /** No two transitions share an id. */
  ghost predicate OwnIds(ts: seq<Transition>) {
    forall i, j | 0 <= i < j < |ts| :: ts[i].eventId != ts[j].eventId
  }

  /** The transition at `i` is the block of that id. */
  predicate IsBlock(ts: seq<Transition>, i: int, id: string) {
    0 <= i < |ts| && ts[i].action.Block? && ts[i].eventId == id
  }

  /** The transition at `at` is a recovery that lists an earlier block of its reason. */
  ghost predicate ResolvesAt(ts: seq<Transition>, at: int, id: string) {
    && 0 <= at < |ts| && ts[at].action.Recover? && id in ts[at].resolves
    && exists i :: i < at && IsBlock(ts, i, id) && ts[i].reason == ts[at].reason
  }

  ghost predicate FirstResolves(ts: seq<Transition>, at: int, id: string) {
    ResolvesAt(ts, at, id) && forall n | 0 <= n < at :: !ResolvesAt(ts, n, id)
  }

  ghost predicate IsResolved(ts: seq<Transition>, id: string) {
    exists n :: ResolvesAt(ts, n, id)
  }

  /** Of one reason, or of any. */
  predicate Of(reason: Reason, wanted: Option<Reason>) {
    wanted.None? || wanted.value == reason
  }

  ghost function Blocks(ts: seq<Transition>, r: Option<Reason>): set<string> {
    set t | t in ts && t.action.Block? && Of(t.reason, r) :: t.eventId
  }

  ghost function ResolvedBlocks(ts: seq<Transition>, r: Option<Reason>): set<string> {
    set id | id in Blocks(ts, r) && IsResolved(ts, id)
  }

  /** A recovery counts for its scope if it is the first to resolve some block. */
  ghost predicate Counts(ts: seq<Transition>, n: int) {
    exists id :: FirstResolves(ts, n, id)
  }

  ghost function Recoveries(ts: seq<Transition>, r: Option<Reason>): set<Scope> {
    set n | 0 <= n < |ts| && Counts(ts, n) && Of(ts[n].reason, r) :: ScopeOf(ts[n])
  }

  ghost function Allowances(ts: seq<Transition>, r: Option<Reason>): set<string> {
    set t | t in ts && t.action.CapAllow? && Of(t.reason, r) :: t.eventId
  }

  ghost function RowTold(ts: seq<Transition>, r: Option<Reason>): Row {
    Row(|Blocks(ts, r)|, |Recoveries(ts, r)|, |ResolvedBlocks(ts, r)|, |Allowances(ts, r)|)
  }

  // ----- One more transition ------------------------------------------------

  lemma EarlierResolves(init: seq<Transition>, t: Transition, n: int, id: string)
    requires n < |init|
    ensures ResolvesAt(init + [t], n, id) <==> ResolvesAt(init, n, id)
    ensures FirstResolves(init + [t], n, id) <==> FirstResolves(init, n, id)
  {
    var ts := init + [t];
    assert forall i | 0 <= i < |init| :: ts[i] == init[i];
    forall m | m < |init| ensures ResolvesAt(ts, m, id) <==> ResolvesAt(init, m, id) {
      if ResolvesAt(ts, m, id) {
        var i :| i < m && IsBlock(ts, i, id) && ts[i].reason == ts[m].reason;
        assert IsBlock(init, i, id);
      }
      if ResolvesAt(init, m, id) {
        var i :| i < m && IsBlock(init, i, id) && init[i].reason == init[m].reason;
        assert IsBlock(ts, i, id);
      }
    }
  }

  ghost predicate BlockOfReason(ts: seq<Transition>, id: string, reason: Reason) {
    exists i :: IsBlock(ts, i, id) && ts[i].reason == reason
  }

  lemma LastResolves(init: seq<Transition>, t: Transition, id: string)
    ensures ResolvesAt(init + [t], |init|, id) <==>
      t.action.Recover? && id in t.resolves && BlockOfReason(init, id, t.reason)
  {
    var ts := init + [t];
    assert ts[|init|] == t && forall i | 0 <= i < |init| :: ts[i] == init[i];
    if ResolvesAt(ts, |init|, id) {
      var i :| i < |init| && IsBlock(ts, i, id) && ts[i].reason == ts[|init|].reason;
      assert IsBlock(init, i, id);
    }
    if BlockOfReason(init, id, t.reason) {
      var i :| IsBlock(init, i, id) && init[i].reason == t.reason;
      assert IsBlock(ts, i, id);
    }
  }

  lemma ResolvedMore(init: seq<Transition>, t: Transition, id: string)
    ensures IsResolved(init + [t], id) <==> IsResolved(init, id) || ResolvesAt(init + [t], |init|, id)
    ensures FirstResolves(init + [t], |init|, id) <==> ResolvesAt(init + [t], |init|, id) && !IsResolved(init, id)
  {
    forall n | n < |init| ensures ResolvesAt(init + [t], n, id) <==> ResolvesAt(init, n, id) {
      EarlierResolves(init, t, n, id);
    }
    if n :| ResolvesAt(init + [t], n, id) {
      assert n < |init| || n == |init|;
    }
  }

  lemma CountsMore(init: seq<Transition>, t: Transition)
    ensures forall n | 0 <= n < |init| :: Counts(init + [t], n) <==> Counts(init, n)
    ensures Counts(init + [t], |init|) <==> exists id :: ResolvesAt(init + [t], |init|, id) && !IsResolved(init, id)
  {
    forall n | 0 <= n < |init| ensures Counts(init + [t], n) <==> Counts(init, n) {
      if id :| FirstResolves(init + [t], n, id) {
        EarlierResolves(init, t, n, id);
      }
      if id :| FirstResolves(init, n, id) {
        EarlierResolves(init, t, n, id);
      }
    }
    forall id ensures FirstResolves(init + [t], |init|, id) <==> ResolvesAt(init + [t], |init|, id) && !IsResolved(init, id) {
      ResolvedMore(init, t, id);
    }
  }

  // ----- The batch ----------------------------------------------------------

  ghost predicate BlocksTell(b: Batch, ts: seq<Transition>) {
    && (forall id :: id in b.blocks <==> exists i :: IsBlock(ts, i, id))
    && (forall i, id | IsBlock(ts, i, id) :: id in b.blocks && b.blocks[id] == ts[i])
  }

  ghost predicate ResolvedTell(b: Batch, ts: seq<Transition>) {
    && (forall id :: id in b.recovered <==> IsResolved(ts, id))
    && (forall id :: id in b.unresolved <==> id in b.blocks && id !in b.recovered)
    && (forall id | id in b.unresolved :: b.unresolved[id] == b.blocks[id])
  }

  ghost predicate ScopesTell(b: Batch, ts: seq<Transition>) {
    forall s :: s in b.scopes <==> CountsFor(ts, s)
  }

  /** The batch's tables tell the blocks, what resolved them and which scopes count. */
  ghost predicate BatchTells(b: Batch, ts: seq<Transition>) {
    BlocksTell(b, ts) && ResolvedTell(b, ts) && ScopesTell(b, ts)
  }

  ghost predicate CountsFor(ts: seq<Transition>, s: Scope) {
    exists n | 0 <= n < |ts| :: Counts(ts, n) && ScopeOf(ts[n]) == s
  }

  lemma CountsForMore(init: seq<Transition>, t: Transition, s: Scope)
    ensures CountsFor(init + [t], s) <==> CountsFor(init, s) || (Counts(init + [t], |init|) && ScopeOf(t) == s)
  {
    CountsMore(init, t);
    var ts := init + [t];
    if n :| 0 <= n < |init| && Counts(init, n) && ScopeOf(init[n]) == s {
      assert ts[n] == init[n] && Counts(ts, n);
    }
    if n :| 0 <= n < |ts| && Counts(ts, n) && ScopeOf(ts[n]) == s {
      if n < |init| {
        assert ts[n] == init[n] && Counts(init, n);
      }
    }
    assert ts[|init|] == t;
  }

  lemma BlocksMore(init: seq<Transition>, t: Transition, i: int, id: string)
    ensures IsBlock(init + [t], i, id) <==>
      IsBlock(init, i, id) || (i == |init| && t.action.Block? && t.eventId == id)
  {
  }

  lemma ResolvedAreBlocks(ts: seq<Transition>, id: string)
    requires IsResolved(ts, id)
    ensures exists i :: IsBlock(ts, i, id)
  {
  }

  lemma NowTells(b: Batch, init: seq<Transition>, t: Transition, id: string)
    requires BatchTells(b, init) && t.action.Recover?
    ensures id in ResolvedNow(b, t) <==> ResolvesAt(init + [t], |init|, id) && !IsResolved(init, id)
  {
    LastResolves(init, t, id);
    if id in b.blocks {
      var i :| IsBlock(init, i, id);
      assert b.blocks[id] == init[i];
      if BlockOfReason(init, id, t.reason) {
        var j :| IsBlock(init, j, id) && init[j].reason == t.reason;
        assert b.blocks[id] == init[j];
      }
    }
    assert BlockOfReason(init, id, t.reason) ==> id in b.blocks;
  }

  lemma BlockTells(b: Batch, init: seq<Transition>, t: Transition)
    requires BatchTells(b, init) && t.action.Block? && t.eventId !in b.blocks
    ensures BatchTells(BatchStep(b, t), init + [t])
  {
    var ts := init + [t];
    forall i, id ensures IsBlock(ts, i, id) <==> IsBlock(init, i, id) || (i == |init| && t.eventId == id) {
      BlocksMore(init, t, i, id);
    }
    assert IsBlock(ts, |init|, t.eventId);
    forall id ensures id in b.recovered <==> IsResolved(ts, id) {
      ResolvedMore(init, t, id);
      LastResolves(init, t, id);
    }
    assert !IsResolved(init, t.eventId);
    NothingCounts(init, t);
  }

  /** Only a recovery resolves or counts. */
  lemma NothingCounts(init: seq<Transition>, t: Transition)
    requires !t.action.Recover?
    ensures forall s :: CountsFor(init + [t], s) <==> CountsFor(init, s)
    ensures forall id :: IsResolved(init + [t], id) <==> IsResolved(init, id)
  {
    forall id ensures !ResolvesAt(init + [t], |init|, id) && (IsResolved(init + [t], id) <==> IsResolved(init, id)) {
      LastResolves(init, t, id);
      ResolvedMore(init, t, id);
    }
    CountsMore(init, t);
    forall s ensures CountsFor(init + [t], s) <==> CountsFor(init, s) {
      CountsForMore(init, t, s);
    }
  }

  lemma SameBlocksTell(b: Batch, init: seq<Transition>, t: Transition, blocks: map<string, Transition>)
    requires BlocksTell(b, init) && !t.action.Block? && blocks == b.blocks
    ensures BlocksTell(Batch(blocks, b.unresolved, b.recovered, b.scopes), init + [t])
  {
    forall i, id ensures IsBlock(init + [t], i, id) <==> IsBlock(init, i, id) {
      BlocksMore(init, t, i, id);
    }
  }

  lemma RecoveredTell(b: Batch, init: seq<Transition>, t: Transition, r: Batch)
    requires BatchTells(b, init) && t.action.Recover?
    requires r.blocks == b.blocks && r.recovered == b.recovered + ResolvedNow(b, t) && r.unresolved == b.unresolved - ResolvedNow(b, t)
    ensures ResolvedTell(r, init + [t])
  {
    forall id ensures IsResolved(init + [t], id) <==> id in b.recovered + ResolvedNow(b, t) {
      NowTells(b, init, t, id);
      ResolvedMore(init, t, id);
    }
  }

  lemma CountedTell(b: Batch, init: seq<Transition>, t: Transition, scopes: set<Scope>)
    requires BatchTells(b, init) && t.action.Recover?
    requires scopes == b.scopes + if ResolvedNow(b, t) == {} then {} else {ScopeOf(t)}
    ensures forall s :: s in scopes <==> CountsFor(init + [t], s)
  {
    var now := ResolvedNow(b, t);
    CountsMore(init, t);
    forall id ensures id in now <==> ResolvesAt(init + [t], |init|, id) && !IsResolved(init, id) {
      NowTells(b, init, t, id);
    }
    assert Counts(init + [t], |init|) <==> now != {};
    forall s ensures CountsFor(init + [t], s) <==> CountsFor(init, s) || (now != {} && ScopeOf(t) == s) {
      CountsForMore(init, t, s);
    }
  }

  lemma RecoverTells(b: Batch, init: seq<Transition>, t: Transition)
    requires BatchTells(b, init) && t.action.Recover?
    ensures BatchTells(BatchStep(b, t), init + [t])
  {
    var r, now := BatchStep(b, t), ResolvedNow(b, t);
    if now == {} {
      assert b.recovered + now == b.recovered && b.scopes + {} == b.scopes && b.unresolved - now == b.unresolved;
    }
    SameBlocksTell(b, init, t, r.blocks);
    RecoveredTell(b, init, t, r);
    CountedTell(b, init, t, r.scopes);
  }

  lemma OtherTells(b: Batch, init: seq<Transition>, t: Transition)
    requires BatchTells(b, init) && t.action.CapAllow?
    ensures BatchTells(b, init + [t])
  {
    forall i, id ensures IsBlock(init + [t], i, id) <==> IsBlock(init, i, id) {
      BlocksMore(init, t, i, id);
    }
    NothingCounts(init, t);
  }

  /** On transitions with ids of their own, the batch tells exactly which blocks there
      were, which of them a later recovery of their reason lists, and which scopes
      have a recovery that was the first to resolve some block. */
  lemma {:induction false} BatchTellsExactly(ts: seq<Transition>)
    requires OwnIds(ts)
    ensures BatchTells(Resolved(ts), ts)
  {
    if ts != [] {
      var init, t := ts[..|ts| - 1], ts[|ts| - 1];
      BatchTellsExactly(init);
      assert ts == init + [t];
      match t.action {
        case Block => BlockTells(Resolved(init), init, t);
        case Recover => RecoverTells(Resolved(init), init, t);
        case CapAllow => OtherTells(Resolved(init), init, t);
      }
    }
  }

  // ----- The rows -----------------------------------------------------------

  lemma {:induction false} AllowancesCounted(ts: seq<Transition>, r: Reason)
    requires OwnIds(ts)
    ensures CapsOf(ts) == |Allowances(ts, None)| && ReasonCaps(ts, r) == |Allowances(ts, Some(r))|
  {
    if ts != [] {
      var init, t := ts[..|ts| - 1], ts[|ts| - 1];
      AllowancesCounted(init, r);
      assert ts == init + [t];
      AllowanceMore(init, t, None);
      AllowanceMore(init, t, Some(r));
    }
  }

  lemma AllowedMore(init: seq<Transition>, t: Transition, r: Option<Reason>)
    ensures Allowances(init + [t], r) ==
      Allowances(init, r) + if t.action.CapAllow? && Of(t.reason, r) then {t.eventId} else {}
  {
    assert forall x :: x in init + [t] <==> x in init || x == t;
  }

  lemma AllowanceMore(init: seq<Transition>, t: Transition, r: Option<Reason>)
    requires OwnIds(init + [t])
    ensures |Allowances(init + [t], r)| == |Allowances(init, r)| + if t.action.CapAllow? && Of(t.reason, r) then 1 else 0
  {
    AllowedMore(init, t, r);
    forall x | x in init ensures x.eventId != t.eventId {
      var i :| 0 <= i < |init| && init[i] == x;
      assert (init + [t])[i] == x && (init + [t])[|init|] == t;
    }
    assert t.eventId !in Allowances(init, r);
  }

  lemma BlocksTold(ts: seq<Transition>, b: Batch, r: Option<Reason>)
    requires BatchTells(b, ts)
    ensures Blocks(ts, r) == set id | id in b.blocks && Of(b.blocks[id].reason, r)
    ensures ResolvedBlocks(ts, r) == (set id | id in b.blocks && Of(b.blocks[id].reason, r)) * b.recovered
  {
    forall id ensures id in Blocks(ts, r) <==> id in b.blocks && Of(b.blocks[id].reason, r) {
      if id in Blocks(ts, r) {
        var t :| t in ts && t.action.Block? && Of(t.reason, r) && t.eventId == id;
        var i :| 0 <= i < |ts| && ts[i] == t;
        assert IsBlock(ts, i, id);
      }
      if id in b.blocks && Of(b.blocks[id].reason, r) {
        var i :| IsBlock(ts, i, id);
        assert b.blocks[id] == ts[i] && ts[i] in ts;
      }
    }
  }

  lemma RecoveriesTold(ts: seq<Transition>, b: Batch, r: Option<Reason>)
    requires BatchTells(b, ts)
    ensures Recoveries(ts, r) == set s | s in b.scopes && Of(s.reason, r)
  {
    forall s: Scope ensures s in Recoveries(ts, r) <==> CountsFor(ts, s) && Of(s.reason, r) {
      if CountsFor(ts, s) && Of(s.reason, r) {
        var n :| 0 <= n < |ts| && Counts(ts, n) && ScopeOf(ts[n]) == s;
        assert ScopeOf(ts[n]) in Recoveries(ts, r);
      }
    }
  }

  lemma TotalsTold(ts: seq<Transition>, b: Batch)
    requires BatchTells(b, ts)
    ensures Blocks(ts, None) == b.blocks.Keys && ResolvedBlocks(ts, None) == b.recovered && Recoveries(ts, None) == b.scopes
  {
    BlocksTold(ts, b, None);
    RecoveriesTold(ts, b, None);
    forall id | id in b.recovered ensures id in b.blocks {
      ResolvedAreBlocks(ts, id);
    }
  }

  lemma ReasonTold(ts: seq<Transition>, b: Batch, r: Reason)
    requires BatchTells(b, ts)
    ensures Blocks(ts, Some(r)) == ReasonBlocks(b, r)
    ensures ResolvedBlocks(ts, Some(r)) == ReasonBlocks(b, r) * b.recovered
    ensures Recoveries(ts, Some(r)) == ReasonScopes(b, r)
  {
    BlocksTold(ts, b, Some(r));
    RecoveriesTold(ts, b, Some(r));
    assert (set id | id in b.blocks && Of(b.blocks[id].reason, Some(r))) == ReasonBlocks(b, r);
    assert (set s | s in b.scopes && Of(s.reason, Some(r))) == ReasonScopes(b, r);
  }

  /** The totals and every reason's row count what the transitions tell. */
  lemma RowsTold(ts: seq<Transition>, r: Reason)
    requires OwnIds(ts)
    ensures var b := Resolved(ts);
      && Row(|b.blocks|, |b.scopes|, |b.recovered|, CapsOf(ts)) == RowTold(ts, None)
      && ReasonRow(ts, r) == RowTold(ts, Some(r))
      && b.blocks.Keys - b.recovered == Blocks(ts, None) - ResolvedBlocks(ts, None)
  {
    BatchTellsExactly(ts);
    AllowancesCounted(ts, r);
    TotalsTold(ts, Resolved(ts));
    ReasonTold(ts, Resolved(ts), r);
  }

  // ----- The order ----------------------------------------------------------

  ghost predicate Before(ts: seq<Transition>, x: Transition, y: Transition) {
    exists i, j :: 0 <= i < j < |ts| && ts[i] == x && ts[j] == y
  }

  lemma BeforeLast(ts: seq<Transition>, x: Transition, y: Transition)
    requires x in ts
    ensures Before(ts + [y], x, y)
  {
    var i :| 0 <= i < |ts| && ts[i] == x;
    assert (ts + [y])[i] == x && (ts + [y])[|ts|] == y;
  }

  lemma BeforeStays(ts: seq<Transition>, more: seq<Transition>, x: Transition, y: Transition)
    requires Before(ts, x, y)
    ensures Before(ts + more, x, y)
  {
    var i, j :| 0 <= i < j < |ts| && ts[i] == x && ts[j] == y;
    assert (ts + more)[i] == x && (ts + more)[j] == y;
  }

  lemma BeforeSplit(ts: seq<Transition>, last: Transition, x: Transition, y: Transition)
    requires Before(ts + [last], x, y)
    ensures Before(ts, x, y) || (x in ts && y == last)
  {
    var all := ts + [last];
    var i, j :| 0 <= i < j < |all| && all[i] == x && all[j] == y;
    if j < |ts| {
      assert ts[i] == x && ts[j] == y;
    } else {
      assert ts[i] == x;
    }
  }

  lemma {:induction false} InsertedKeepsOrder(ts: seq<Transition>, t: Transition, x: Transition, y: Transition)
    requires Before(ts, x, y)
    ensures Before(Inserted(ts, t), x, y)
  {
    if ts[|ts| - 1].time <= t.time {
      BeforeStays(ts, [t], x, y);
    } else {
      var init, last := ts[..|ts| - 1], ts[|ts| - 1];
      assert ts == init + [last];
      BeforeSplit(init, last, x, y);
      if Before(init, x, y) {
        InsertedKeepsOrder(init, t, x, y);
        BeforeStays(Inserted(init, t), [last], x, y);
      } else {
        BeforeLast(Inserted(init, t), x, last);
      }
    }
  }

  lemma {:induction false} InsertedBehind(ts: seq<Transition>, t: Transition, x: Transition)
    requires Ascending(ts) && x in ts && x.time <= t.time
    ensures Before(Inserted(ts, t), x, t)
  {
    if ts[|ts| - 1].time <= t.time {
      BeforeLast(ts, x, t);
    } else {
      var init, last := ts[..|ts| - 1], ts[|ts| - 1];
      assert ts == init + [last];
      InsertedBehind(init, t, x);
      BeforeStays(Inserted(init, t), [last], x, t);
    }
  }

  /** Sorting by time keeps the order of transitions that are not later. */
  lemma {:induction false} SortKeepsOrder(ts: seq<Transition>, x: Transition, y: Transition)
    requires Before(ts, x, y) && x.time <= y.time
    ensures Before(ByTime(ts), x, y)
  {
    var init, last := ts[..|ts| - 1], ts[|ts| - 1];
    assert ts == init + [last];
    BeforeSplit(init, last, x, y);
    ByTimeAscends(init);
    if Before(init, x, y) {
      SortKeepsOrder(init, x, y);
      InsertedKeepsOrder(ByTime(init), last, x, y);
    } else {
      InsertedBehind(ByTime(init), last, x);
    }
  }

  /** Without conflicts the unique transitions are all of them, in the order in which
      they first appear. */
  lemma {:induction false} UniqueKeepsOrder(ts: seq<Transition>, n: nat, x: Transition)
    requires !Conflicting(ts) && n < |ts| && x in ts[..n] && ts[n] !in ts[..n]
    ensures Before(Deduplicated(ts), x, ts[n])
  {
    var init, last := ts[..|ts| - 1], ts[|ts| - 1];
    assert ts == init + [last];
    assert !Conflicting(init);
    if n < |init| {
      assert init[..n] == ts[..n];
      UniqueKeepsOrder(init, n, x);
      BeforeStays(Deduplicated(init), [last], x, ts[n]);
    } else {
      AllKept(init);
      assert ts[..n] == init;
      forall z | z in Deduplicated(init) ensures z.eventId != last.eventId {
        assert z in ts && last in ts && z != last;
      }
      BeforeLast(Deduplicated(init), x, last);
    }
  }

  lemma {:induction false} AllKept(ts: seq<Transition>)
    requires !Conflicting(ts)
    ensures forall x | x in ts :: x in Deduplicated(ts)
    ensures OwnIds(Deduplicated(ts))
  {
    if ts != [] {
      var init, last := ts[..|ts| - 1], ts[|ts| - 1];
      assert ts == init + [last];
      assert !Conflicting(init);
      AllKept(init);
      if HasId(Deduplicated(init), last.eventId) {
        var z :| z in Deduplicated(init) && z.eventId == last.eventId;
        assert z in ts && last in ts && z == last;
      }
    }
  }

  lemma {:induction false} InsertedOwnIds(ts: seq<Transition>, t: Transition)
    requires OwnIds(ts) && !HasId(ts, t.eventId)
    ensures OwnIds(Inserted(ts, t))
  {
    if ts != [] && ts[|ts| - 1].time > t.time {
      var init, last := ts[..|ts| - 1], ts[|ts| - 1];
      assert forall x | x in init :: x in ts;
      InsertedOwnIds(init, t);
      forall x | x in Inserted(init, t) ensures x.eventId != last.eventId {
        if x in init {
          var i :| 0 <= i < |init| && init[i] == x;
          assert ts[i].eventId != ts[|ts| - 1].eventId;
        } else {
          assert last in ts;
        }
      }
    } else {
      forall i | 0 <= i < |ts| ensures ts[i].eventId != t.eventId {
        assert ts[i] in ts;
      }
    }
  }

  lemma {:induction false} SortedOwnIds(ts: seq<Transition>)
    requires OwnIds(ts)
    ensures OwnIds(ByTime(ts))
  {
    if ts != [] {
      var init, last := ts[..|ts| - 1], ts[|ts| - 1];
      SortedOwnIds(init);
      forall x | x in ByTime(init) ensures x.eventId != last.eventId {
        var i :| 0 <= i < |init| && init[i] == x;
        assert ts[i].eventId != ts[|ts| - 1].eventId;
      }
      InsertedOwnIds(ByTime(init), last);
    }
  }

  // ----- The aggregate ------------------------------------------------------

  /** The transitions of a session, each once, by time and among equals as they first
      came. */
  ghost predicate InOrder(ordered: seq<Transition>, ts: seq<Transition>) {
    && OwnIds(ordered) && Ascending(ordered) && (forall x :: x in ordered <==> x in ts)
    && forall n, x | 0 <= n < |ts| && x in ts[..n] && ts[n] !in ts[..n] && x.time <= ts[n].time :: Before(ordered, x, ts[n])
  }

  lemma OrderedIsInOrder(ts: seq<Transition>)
    requires !Conflicting(ts)
    ensures InOrder(ByTime(Deduplicated(ts)), ts)
  {
    var unique := Deduplicated(ts);
    AllKept(ts);
    SortedOwnIds(unique);
    ByTimeAscends(unique);
    forall n, x | 0 <= n < |ts| && x in ts[..n] && ts[n] !in ts[..n] && x.time <= ts[n].time
      ensures Before(ByTime(unique), x, ts[n])
    {
      UniqueKeepsOrder(ts, n, x);
      SortKeepsOrder(unique, x, ts[n]);
    }
  }

  lemma SummaryTells(ordered: seq<Transition>)
    requires OwnIds(ordered) && ordered != []
    ensures var a := AggregateOf(ordered);
      && a.totals == RowTold(ordered, None)
      && a.unresolved == Blocks(ordered, None) - ResolvedBlocks(ordered, None)
      && (forall r | r in a.byReason :: a.byReason[r] == RowTold(ordered, Some(r)))
  {
    forall r ensures ReasonRow(ordered, r) == RowTold(ordered, Some(r)) {
      RowsTold(ordered, r);
    }
    RowsTold(ordered, PretoolGoals);
  }

  /** An aggregate counts what the transitions tell, in their order. */
  lemma AggregateTells(ts: seq<Transition>)
    requires Aggregated(ts).Ok?
    ensures exists ordered :: InOrder(ordered, ts) && Summarizes(Aggregated(ts).value, ordered)
  {
    var ordered := ByTime(Deduplicated(ts));
    OrderedIsInOrder(ts);
    SummaryTells(ordered);
    assert Summarizes(Aggregated(ts).value, ordered);
  }

  ghost predicate Summarizes(a: Aggregate, ordered: seq<Transition>) {
    && ordered != [] && a.identity == ordered[0].identity
    && a.firstAt == ordered[0].time && a.lastAt == ordered[|ordered| - 1].time
    && a.latestTurn == ordered[|ordered| - 1].turnId
    && a.totals == RowTold(ordered, None)
    && a.unresolved == Blocks(ordered, None) - ResolvedBlocks(ordered, None)
    && (forall r :: r in a.byReason <==> exists t | t in ordered :: t.reason == r)
    && (forall r | r in a.byReason :: a.byReason[r] == RowTold(ordered, Some(r)))
  }
}
