/** Whole runs of one turn: changes, captures and verifications in any order. */
module CoversRuns {
  import opened Common
  import opened Covers
  import opened CoversFacts
  import Runs

  /** `from` names the capture a verification event carries, if any. */
  datatype Step = Apply(change: Change) | Snap(eventSeq: nat) | Verify(success: bool, from: Option<nat>)

  datatype World = World(turn: Turn, captures: seq<Captured>)

  predicate Enabled(w: World, s: Step) {
    s.Verify? && s.from.Some? ==> s.from.value < |w.captures|
  }

  function Next(w: World, s: Step): World
    requires Enabled(w, s)
  {
    match s
    case Apply(c) => w.(turn := Recorded(w.turn, c))
    case Snap(q) => w.(captures := w.captures + [Capture(w.turn, q)])
    case Verify(success, from) =>
      w.(turn := Verified(w.turn, success, if from.Some? then Some(w.captures[from.value]) else None))
  }

  ghost predicate Follows(w: World, s: Step, next: World) {
    Enabled(w, s) && next == Next(w, s)
  }

  ghost predicate IsRun(ws: seq<World>, steps: seq<Step>) {
    && |ws| == |steps| + 1 && ws[0] == World(Covers.START, [])
    && forall n | 0 <= n < |steps| :: Follows(ws[n], steps[n], ws[n + 1])
  }

  lemma {:induction false} RecordingKeepsResults(t: Turn, c: Change, items: seq<Item>)
    ensures ItemsRecorded(t, c, items).results == t.results
  {
    if items != [] {
      RecordingKeepsResults(t, c, items[..|items| - 1]);
    }
  }

  // ----- Where a result comes from ------------------------------------------

  /** The capture was taken at step c, from what was pending there. */
  ghost predicate CapturedAt(ws: seq<World>, steps: seq<Step>, i: nat, captured: Captured, c: nat)
    requires IsRun(ws, steps)
  {
    c < |steps| && steps[c].Snap? && |ws[c].captures| == i && captured.stamps == Pending(ws[c].turn)
  }

  /** The result is that of step v, a success whose covers were captured at the
      earlier step c. */
  ghost predicate Credits(ws: seq<World>, steps: seq<Step>, n: nat, covers: Captured, c: nat, v: nat)
    requires IsRun(ws, steps)
  {
    && c < v < n <= |steps| && steps[v].Verify? && steps[v].success && steps[v].from.Some?
    && CapturedAt(ws, steps, steps[v].from.value, covers, c)
  }

  lemma {:induction false} CapturesBacked(ws: seq<World>, steps: seq<Step>, n: nat, i: nat)
    requires IsRun(ws, steps) && n <= |steps| && i < |ws[n].captures|
    ensures exists c: nat :: c < n && CapturedAt(ws, steps, i, ws[n].captures[i], c)
    decreases n
  {
    if n > 0 {
      assert Follows(ws[n - 1], steps[n - 1], ws[n]);
      if i < |ws[n - 1].captures| {
        CapturesBacked(ws, steps, n - 1, i);
        var c: nat :| c < n - 1 && CapturedAt(ws, steps, i, ws[n - 1].captures[i], c);
        assert ws[n].captures[i] == ws[n - 1].captures[i];
        assert c < n && CapturedAt(ws, steps, i, ws[n].captures[i], c);
      } else {
        assert CapturedAt(ws, steps, i, ws[n].captures[i], n - 1);
      }
    }
  }

  lemma {:induction false} ResultsBacked(ws: seq<World>, steps: seq<Step>, n: nat, r: Outcome)
    requires IsRun(ws, steps) && n <= |steps| && r in ws[n].turn.results && r.success && r.covers.Some?
    ensures exists c: nat, v: nat :: Credits(ws, steps, n, r.covers.value, c, v)
    decreases n
  {
    if n > 0 {
      var s := steps[n - 1];
      assert Follows(ws[n - 1], s, ws[n]);
      if s.Apply? {
        RecordingKeepsResults(ws[n - 1].turn, s.change, s.change.items);
      }
      if r in ws[n - 1].turn.results {
        ResultsBacked(ws, steps, n - 1, r);
        var c: nat, v: nat :| Credits(ws, steps, n - 1, r.covers.value, c, v);
        assert Credits(ws, steps, n, r.covers.value, c, v);
      } else {
        CapturesBacked(ws, steps, n - 1, s.from.value);
        var c: nat :| c < n - 1 && CapturedAt(ws, steps, s.from.value, ws[n - 1].captures[s.from.value], c);
        assert Credits(ws, steps, n, r.covers.value, c, n - 1);
      }
    }
  }

  // ----- What the steps alone say -------------------------------------------

  /** The change events among the steps. */
  function ChangesOf(steps: seq<Step>): seq<Change> {
    if steps == [] then [] else
      var prior := ChangesOf(steps[..|steps| - 1]);
      if steps[|steps| - 1].Apply? then prior + [steps[|steps| - 1].change] else prior
  }

  /** The last changes that need verification after the first n steps. */
  function NeededAfter(steps: seq<Step>, n: nat): set<Stamp>
    requires n <= |steps|
  {
    Needed(HistoryOf(ChangesOf(steps[..n])))
  }

  function Snaps(steps: seq<Step>): nat {
    if steps == [] then 0 else Snaps(steps[..|steps| - 1]) + if steps[|steps| - 1].Snap? then 1 else 0
  }

  lemma ChangesGrow(steps: seq<Step>, n: nat)
    requires n < |steps|
    ensures ChangesOf(steps[..n + 1]) == ChangesOf(steps[..n]) + if steps[n].Apply? then [steps[n].change] else []
    ensures Snaps(steps[..n + 1]) == Snaps(steps[..n]) + if steps[n].Snap? then 1 else 0
  {
    assert steps[..n + 1][..n] == steps[..n];
  }

  lemma HistoryGrows(cs: seq<Change>, c: Change)
    ensures HistoryOf(cs + [c]) == HistoryOf(cs) + RecordingsOf(c, c.items)
  {
    assert (cs + [c])[..|cs|] == cs;
  }

  lemma {:induction false} TurnTellsHistory(ws: seq<World>, steps: seq<Step>, n: nat)
    requires IsRun(ws, steps) && n <= |steps|
    ensures TableTrue(ws[n].turn, HistoryOf(ChangesOf(steps[..n])))
    ensures ws[n].turn.tracked <==> ChangesOf(steps[..n]) != []
    ensures |ws[n].captures| == Snaps(steps[..n])
    decreases n
  {
    if n == 0 {
      NothingRecorded();
    } else {
      TurnTellsHistory(ws, steps, n - 1);
      ChangesGrow(steps, n - 1);
      var s, h := steps[n - 1], HistoryOf(ChangesOf(steps[..n - 1]));
      assert Follows(ws[n - 1], s, ws[n]);
      if s.Apply? {
        RecordingKeepsResults(ws[n - 1].turn, s.change, s.change.items);
        ChangeKeepsTable(ws[n - 1].turn, h, s.change);
        HistoryGrows(ChangesOf(steps[..n - 1]), s.change);
      } else {
        assert ChangesOf(steps[..n - 1]) + [] == ChangesOf(steps[..n - 1]);
        SameTable(ws[n - 1].turn, ws[n].turn, h);
      }
    }
  }

  lemma PendingIsNeeded(ws: seq<World>, steps: seq<Step>, n: nat)
    requires IsRun(ws, steps) && n <= |steps|
    ensures Pending(ws[n].turn) == NeededAfter(steps, n)
  {
    TurnTellsHistory(ws, steps, n);
    PendingExactly(ws[n].turn, HistoryOf(ChangesOf(steps[..n])));
  }

  // ----- When a turn counts as verified -------------------------------------

  /** A verification succeeded whose covers were captured after the first c steps. */
  ghost predicate Covered(steps: seq<Step>, n: nat, c: nat, v: nat) {
    && c < v < n <= |steps| && steps[c].Snap?
    && steps[v].Verify? && steps[v].success && steps[v].from == Some(Snaps(steps[..c]))
  }

  ghost predicate AllCovered(steps: seq<Step>, n: nat)
    requires n <= |steps|
  {
    exists c: nat, v: nat :: Covered(steps, n, c, v) && NeededAfter(steps, n) <= NeededAfter(steps, c)
  }

  lemma CoveredByResult(ws: seq<World>, steps: seq<Step>, n: nat, r: Outcome)
    requires IsRun(ws, steps) && n <= |steps| && r in ws[n].turn.results && r.success && r.covers.Some?
    requires CoversAll(r.covers.value, Pending(ws[n].turn))
    ensures AllCovered(steps, n)
  {
    ResultsBacked(ws, steps, n, r);
    var c: nat, v: nat :| Credits(ws, steps, n, r.covers.value, c, v);
    TurnTellsHistory(ws, steps, c);
    PendingIsNeeded(ws, steps, c);
    PendingIsNeeded(ws, steps, n);
    forall s | s in NeededAfter(steps, n) ensures s in NeededAfter(steps, c) {
      assert s in r.covers.value.stamps;
    }
    assert Covered(steps, n, c, v);
  }

  lemma {:induction false} CaptureKept(ws: seq<World>, steps: seq<Step>, c: nat, n: nat)
    requires IsRun(ws, steps) && c < n <= |steps| && steps[c].Snap?
    ensures |ws[c].captures| < |ws[n].captures|
    ensures ws[n].captures[|ws[c].captures|].stamps == Pending(ws[c].turn)
    decreases n
  {
    assert Follows(ws[n - 1], steps[n - 1], ws[n]);
    if c < n - 1 {
      CaptureKept(ws, steps, c, n - 1);
    }
  }

  lemma {:induction false} ResultKept(ws: seq<World>, steps: seq<Step>, v: nat, n: nat) returns (r: Outcome)
    requires IsRun(ws, steps) && v < n <= |steps| && steps[v].Verify? && steps[v].from.Some?
    ensures Enabled(ws[v], steps[v])
    ensures r in ws[n].turn.results && r == Outcome(steps[v].success, Some(ws[v].captures[steps[v].from.value]))
    decreases n
  {
    var s := steps[n - 1];
    assert Follows(ws[n - 1], s, ws[n]);
    if v < n - 1 {
      r := ResultKept(ws, steps, v, n - 1);
      if s.Apply? {
        RecordingKeepsResults(ws[n - 1].turn, s.change, s.change.items);
      }
    } else {
      r := Outcome(s.success, Some(ws[v].captures[s.from.value]));
      assert ws[n].turn.results[|ws[v].turn.results|] == r;
    }
  }

  lemma ResultOfCovered(ws: seq<World>, steps: seq<Step>, n: nat, c: nat, v: nat)
    requires IsRun(ws, steps) && Covered(steps, n, c, v) && NeededAfter(steps, n) <= NeededAfter(steps, c)
    ensures exists r | r in ws[n].turn.results :: r.success && r.covers.Some? && CoversAll(r.covers.value, Pending(ws[n].turn))
  {
    TurnTellsHistory(ws, steps, c);
    CaptureKept(ws, steps, c, v);
    var r := ResultKept(ws, steps, v, n);
    PendingIsNeeded(ws, steps, c);
    PendingIsNeeded(ws, steps, n);
    assert CoversAll(r.covers.value, Pending(ws[n].turn));
  }

  /** Over every run, and from the steps alone: a turn that recorded a change
      counts as verified if and only if nothing needs verification, or one single
      verification succeeded whose covers were captured when every change that
      needs it now already did. */
  lemma VerifiedExactly(ws: seq<World>, steps: seq<Step>, n: nat)
    requires IsRun(ws, steps) && n <= |steps|
    ensures CoversVerified(ws[n].turn) ==
      if ChangesOf(steps[..n]) == [] then None else Some(NeededAfter(steps, n) == {} || AllCovered(steps, n))
  {
    TurnTellsHistory(ws, steps, n);
    PendingIsNeeded(ws, steps, n);
    if r :| r in ws[n].turn.results && r.success && r.covers.Some? && CoversAll(r.covers.value, Pending(ws[n].turn)) {
      CoveredByResult(ws, steps, n, r);
    }
    if AllCovered(steps, n) {
      var c: nat, v: nat :| Covered(steps, n, c, v) && NeededAfter(steps, n) <= NeededAfter(steps, c);
      ResultOfCovered(ws, steps, n, c, v);
    }
  }

  // ----- Later changes are never credited -----------------------------------

  ghost function EventIds(steps: seq<Step>): set<string> {
    set s | s in steps && s.Apply? :: s.change.eventId
  }

  lemma {:induction false} HistoryComes(steps: seq<Step>)
    ensures forall r | r in HistoryOf(ChangesOf(steps)) :: r.change.eventId in EventIds(steps)
  {
    if steps != [] {
      var init, last := steps[..|steps| - 1], steps[|steps| - 1];
      HistoryComes(init);
      assert steps == init + [last];
      assert forall s :: s in steps <==> s in init || s == last;
      if last.Apply? {
        HistoryGrows(ChangesOf(init), last.change);
        RecordingsCome(last.change, last.change.items);
        assert last.change.eventId in EventIds(steps);
      }
    }
  }

  lemma EventIdsGrow(steps: seq<Step>, a: nat, b: nat)
    requires a <= b <= |steps|
    ensures EventIds(steps[..a]) <= EventIds(steps[..b])
  {
  }

  /** A path that needs verification, last changed by step m under an event id of
      its own: the turn does not count as verified as long as no verification
      succeeded whose covers were captured after that step. One captured before
      it, even if the test ends after it, is not enough. */
  lemma LaterChangeNeedsLaterCapture(ws: seq<World>, steps: seq<Step>, n: nat, m: nat, key: string)
    requires IsRun(ws, steps) && m < n <= |steps| && steps[m].Apply?
    requires var h := HistoryOf(ChangesOf(steps[..n]));
      Needs(h, key) && LastOn(h, key).value.change.eventId == steps[m].change.eventId
    requires steps[m].change.eventId !in EventIds(steps[..m])
    requires forall c: nat, v: nat | Covered(steps, n, c, v) :: c < m
    ensures CoversVerified(ws[n].turn) == Some(false)
  {
    var h := HistoryOf(ChangesOf(steps[..n]));
    var stamp := StampAt(LastOn(h, key).value);
    VerifiedExactly(ws, steps, n);
    assert key in KeysOf(h) && stamp in NeededAfter(steps, n);
    if c: nat, v: nat :| Covered(steps, n, c, v) && NeededAfter(steps, n) <= NeededAfter(steps, c) {
      assert stamp in NeededAfter(steps, c);
      HistoryComes(steps[..c]);
      EventIdsGrow(steps, c, m);
      assert false;
    }
  }

  // ----- A peer is never credited for a path with own history ----------------

  ghost predicate OwnHistoryWins(audit: seq<Audit>) {
    forall i, j | 0 <= i < j < |audit| && audit[i].key == audit[j].key && audit[i].credit in {Own, Contended} ::
      audit[j].credit != Peer
  }

  lemma {:induction false} RecordingKeepsHistory(t: Turn, c: Change, items: seq<Item>)
    requires OwnHistoryWins(t.audit)
    ensures OwnHistoryWins(ItemsRecorded(t, c, items).audit)
  {
    if items != [] {
      RecordingKeepsHistory(t, c, items[..|items| - 1]);
      var m := ItemsRecorded(t, c, items[..|items| - 1]);
      var r := ItemRecorded(m, c, items[|items| - 1]);
      forall i, j | 0 <= i < j < |r.audit| && r.audit[i].key == r.audit[j].key && r.audit[i].credit in {Own, Contended}
        ensures r.audit[j].credit != Peer
      {
        assert r.audit[i] == m.audit[i] && m.audit[i] in m.audit;
      }
    }
  }

  ghost predicate HistoryHolds(w: World) {
    OwnHistoryWins(w.turn.audit)
  }

  lemma PeerNeverCreditedAfterOwn(ws: seq<World>, steps: seq<Step>, n: nat)
    requires IsRun(ws, steps) && n <= |steps|
    ensures OwnHistoryWins(ws[n].turn.audit)
  {
    forall w, s, next | HistoryHolds(w) && Follows(w, s, next) ensures HistoryHolds(next) {
      if s.Apply? {
        RecordingKeepsHistory(w.turn, s.change, s.change.items);
      }
    }
    Runs.Invariance(ws, steps, Follows, s => true, HistoryHolds, 0, n);
  }
}
