/** The scorecard cache in the ledger and the journal beside it, with the flag
    that marks an entry incomplete before its line is appended.

    Models `record_gate_transition_locked`, `_persist_incomplete_before_append`,
    `_append_transition` and `_cache_matches_journal` of core/scorecard_store.py.
    The journal position is the number of lines, a broken one included.
  */
module ScorecardStore {
  import opened Common
  import opened Ordering
  import opened Scorecard
  import opened ScorecardBound
  import opened ScorecardFacts
  import Runs

  datatype Line = Written(transition: Transition) | Broken

  /** The scorecard fields of a ledger. */
  datatype Cache = Cache(entries: map<string, Entry>, evictionsKnown: bool, evicted: seq<string>, offset: Option<nat>)

  /** What survives a crash. */
  datatype Durable = Durable(cache: Cache, journal: seq<Line>)

  /** How an append ends: the line is there; an error, with or without a broken
      line or the whole line left behind. */
  datatype Append = Appended | FailedClean | FailedBroken | FailedWritten

  /** One record: what it meets. `observed`: the turn was observed before.
      `dirtySaved`: the save that marks the entry incomplete succeeds. */
  datatype Attempt = Attempt(transition: Transition, observed: bool, dirtySaved: bool, append: Append)

  function KeyOf(t: Transition): string {
    AgentKey(t.identity)
  }

  function Incomplete(e: Entry): Entry {
    e.(complete := false)
  }

  function AllIncomplete(entries: map<string, Entry>): map<string, Entry> {
    map k | k in entries :: Incomplete(entries[k])
  }

  predicate MustMark(c: Cache, key: string) {
    key in c.entries && c.entries[key].complete
  }

  /** The ledger with the session's entry marked incomplete. */
  function Marked(c: Cache, key: string): Cache {
    if key in c.entries then c.(entries := c.entries[key := Incomplete(c.entries[key])]) else c
  }

  function LinesLeft(t: Transition, append: Append): seq<Line> {
    match append
    case Appended => [Written(t)]
    case FailedClean => []
    case FailedBroken => [Broken]
    case FailedWritten => [Written(t)]
  }

  predicate Consistent(c: Cache, journal: seq<Line>, append: Append) {
    append.Appended? && (c.offset == Some(|journal|) || (c.offset.None? && |journal| == 0))
  }

  /** The new entry counts as complete. */
  predicate CountsComplete(c: Cache, journal: seq<Line>, a: Attempt) {
    var key := KeyOf(a.transition);
    && Consistent(c, journal, a.append)
    && (key in c.entries
        || (!a.observed && (c.evictionsKnown || |c.entries| < MAX_SESSIONS) && key !in c.evicted))
  }

  /** The order of the cache in memory: as loaded, which is sorted, and then the
      new session. */
  function KeyOrder(entries: map<string, Entry>, key: string): (r: seq<string>)
    ensures forall k :: k in r <==> k in entries || k == key
  {
    var sorted := Sorted(entries.Keys);
    assert forall k :: k in sorted <==> k in Elements(sorted);
    sorted + if key in entries then [] else [key]
  }

  /** What the schema of a loaded ledger demands. */
  ghost predicate Valid(c: Cache) {
    |c.entries| <= MAX_SESSIONS && |c.evicted| <= MAX_SESSIONS && Distinct(c.evicted)
  }

  lemma KeyOrderListing(entries: map<string, Entry>, key: string)
    ensures Distinct(KeyOrder(entries, key))
    ensures |KeyOrder(entries, key)| == |entries| + if key in entries then 0 else 1
  {
    var sorted := Sorted(entries.Keys);
    AscendingDistinct(sorted);
    AscendingSize(sorted);
    assert forall k :: k in sorted <==> k in Elements(sorted);
    if key !in entries {
      DistinctAppended(sorted, key);
    } else {
      assert sorted + [] == sorted;
    }
  }

  /** The entries in memory after the append, before they are bounded. */
  function Updated(c: Cache, journal: seq<Line>, a: Attempt): (r: map<string, Entry>)
    ensures r.Keys == c.entries.Keys + {KeyOf(a.transition)}
  {
    var t, key := a.transition, KeyOf(a.transition);
    var entries := if Consistent(c, journal, a.append) then c.entries else AllIncomplete(c.entries);
    var entry := if key in entries then entries[key] else EmptyEntry(t);
    entries[key := UpdatedEntry(entry, t, CountsComplete(c, journal, a))]
  }

  /** The ledger in memory after the append, with the session that had to go, if
      one had to. */
  function Recorded(c: Cache, journal: seq<Line>, a: Attempt, gone: Option<string>): Cache {
    var all := Updated(c, journal, a);
    Cache(
      if gone.Some? then all - {gone.value} else all, true, Remembered(c.evicted, gone),
      if a.append.Appended? then Some(|journal| + 1) else c.offset)
  }

  /** A session has to go if another one is new to a full cache. */
  ghost predicate MayGo(c: Cache, t: Transition, gone: Option<string>) {
    && (gone.Some? <==> |c.entries| == MAX_SESSIONS && KeyOf(t) !in c.entries)
    && (gone.Some? ==> gone.value in c.entries || gone.value == KeyOf(t))
  }

  /** The one that goes. */
  function Dropped(c: Cache, journal: seq<Line>, a: Attempt): Option<string> {
    var key := KeyOf(a.transition);
    if |c.entries| < MAX_SESSIONS || key in c.entries then None
    else Some(Victim(KeyOrder(c.entries, key), Updated(c, journal, a)))
  }

  /** It may, it is one of those seen last the longest ago, and what is left is
      the cache bounded. */
  lemma DroppedExactly(c: Cache, journal: seq<Line>, a: Attempt)
    requires Valid(c)
    ensures var all, gone := Updated(c, journal, a), Dropped(c, journal, a);
      var bounded := BoundedBy(KeyOrder(c.entries, KeyOf(a.transition)), all, c.evicted);
      && MayGo(c, a.transition, gone)
      && (gone.Some? ==> forall k | k in all :: all[gone.value].lastAt <= all[k].lastAt)
      && Recorded(c, journal, a, gone)
         == Cache(bounded.entries, true, bounded.evicted, if a.append.Appended? then Some(|journal| + 1) else c.offset)
  {
    var keys, all := KeyOrder(c.entries, KeyOf(a.transition)), Updated(c, journal, a);
    KeyOrderListing(c.entries, KeyOf(a.transition));
    if |keys| <= MAX_SESSIONS {
      WithinBound(keys, all, c.evicted);
    } else {
      OneGoes(keys, all, c.evicted);
    }
  }

  lemma RecordedValid(c: Cache, journal: seq<Line>, a: Attempt, gone: Option<string>)
    requires Valid(c) && MayGo(c, a.transition, gone)
    ensures Valid(Recorded(c, journal, a, gone))
  {
    RememberedExactly(c.evicted, gone);
    var all := Updated(c, journal, a);
    assert |all| == |all.Keys| && |c.entries| == |c.entries.Keys|;
    if gone.Some? {
      assert (all - {gone.value}).Keys == all.Keys - {gone.value};
      assert |(all - {gone.value}).Keys| == |all.Keys| - 1;
    }
  }

  /** The line was appended right where the cached entries end. */
  predicate FollowsOn(c: Cache, journal: seq<Line>, append: Append) {
    append == Appended && (if journal == [] then c.offset in {None, Some(0)} else c.offset == Some(|journal|))
  }

  /** After a record an entry is complete exactly if the line followed on and the
      entry was complete already or is of a session that cannot have been there
      before. Of other sessions nothing else changes. */
  lemma CompleteAfterExactly(c: Cache, journal: seq<Line>, a: Attempt, gone: Option<string>, key: string)
    requires key in Recorded(c, journal, a, gone).entries
    ensures var e := Recorded(c, journal, a, gone).entries[key];
      && (e.complete <==>
            FollowsOn(c, journal, a.append)
            && if key in c.entries then c.entries[key].complete
               else !a.observed && key !in c.evicted && (c.evictionsKnown || |c.entries| < 64))
      && (key != KeyOf(a.transition) ==> key in c.entries && e == c.entries[key].(complete := e.complete))
      && (a.transition.eventId in e.seen || key != KeyOf(a.transition))
  {
  }

  /** Bounding the marked cache before it is saved changes nothing. */
  lemma MarkedWithin(c: Cache, key: string)
    requires Valid(c) && key in c.entries
    ensures BoundedBy(KeyOrder(c.entries, key), Marked(c, key).entries, []).entries == Marked(c, key).entries
  {
    KeyOrderListing(c.entries, key);
    WithinBound(KeyOrder(c.entries, key), Marked(c, key).entries, []);
  }

  /** The durable states a record passes through, the one before it first and the
      one after the ledger is saved last. */
  function Writes(d: Durable, a: Attempt, gone: Option<string>): seq<Durable> {
    var key := KeyOf(a.transition);
    var mark := MustMark(d.cache, key);
    if mark && !a.dirtySaved then [d, Durable(Marked(d.cache, key), d.journal)] else
      var marked := if mark then [Durable(Marked(d.cache, key), d.journal)] else [];
      var start := if mark then Marked(d.cache, key) else d.cache;
      var journal := d.journal + LinesLeft(a.transition, a.append);
      [d] + marked + [Durable(start, journal), Durable(Recorded(d.cache, d.journal, a, gone), journal)]
  }

  lemma AllIncompleteSize(entries: map<string, Entry>)
    ensures |AllIncomplete(entries)| == |entries|
  {
    assert AllIncomplete(entries).Keys == entries.Keys;
    assert |AllIncomplete(entries)| == |AllIncomplete(entries).Keys| && |entries| == |entries.Keys|;
  }

  class Store {
    var saved: Cache
    var ledger: Cache
    var journal: seq<Line>
    /** Every durable state since the ledger was loaded. */
    ghost var trace: seq<Durable>

    ghost function Value(): Durable
      reads this
    {
      Durable(saved, journal)
    }

    constructor (saved: Cache, journal: seq<Line>)
      ensures Value() == Durable(saved, journal)
    {
      this.saved, this.ledger, this.journal, this.trace := saved, saved, journal, [];
    }

    method Load()
      modifies this`ledger, this`trace
      ensures ledger == saved && trace == [Value()]
    {
      ledger := saved;
      trace := [Value()];
    }

    method Save(cache: Cache, ok: bool) returns (done: bool)
      modifies this`saved, this`trace
      ensures done == ok
      ensures saved == if ok then cache else old(saved)
      ensures trace == if ok then old(trace) + [Value()] else old(trace)
    {
      if ok {
        saved := cache;
        trace := trace + [Value()];
      }
      return ok;
    }

    /** The entries after the append. */
    method UpdateEntries(a: Attempt, position: nat) returns (all: map<string, Entry>)
      requires position <= |journal|
      ensures all == Updated(ledger, journal[..position], a)
    {
      var t := a.transition;
      var key := KeyOf(t);
      var consistent := a.append.Appended? && (ledger.offset == Some(position) || (ledger.offset.None? && position == 0));
      var entries := if consistent then ledger.entries else AllIncomplete(ledger.entries);
      var entry := if key in entries then entries[key] else EmptyEntry(t);
      AllIncompleteSize(ledger.entries);
      var knownNew := ledger.evictionsKnown || |entries| < MAX_SESSIONS;
      var complete := consistent && (key in entries || (!a.observed && knownNew && key !in ledger.evicted));
      var updated := UpdateEntry(entry, t, complete);
      all := entries[key := updated];
    }

    /** The part after the append. */
    method Refold(a: Attempt, position: nat)
      requires Valid(ledger) && position <= |journal|
      modifies this`ledger
      ensures var was, before := old(ledger), journal[..position];
        ledger == Recorded(was, before, a, Dropped(was, before, a))
    {
      var all := UpdateEntries(a, position);
      DroppedExactly(ledger, journal[..position], a);
      var bounded := BoundCache(KeyOrder(ledger.entries, KeyOf(a.transition)), all, ledger.evicted);
      ledger := Cache(
        bounded.entries, true, bounded.evicted, if a.append.Appended? then Some(position + 1) else ledger.offset);
    }

    method MarkSaved(key: string, ok: bool) returns (done: bool)
      requires Valid(ledger) && key in ledger.entries
      modifies this`saved, this`trace
      ensures done == ok
      ensures saved == if ok then Marked(ledger, key) else old(saved)
      ensures trace == if ok then old(trace) + [Value()] else old(trace)
    {
      var dirty := Marked(ledger, key);
      var bounded := BoundCache(KeyOrder(ledger.entries, key), dirty.entries, []);
      MarkedWithin(ledger, key);
      done := Save(dirty.(entries := bounded.entries), ok);
    }

    /** `record_gate_transition_locked`, up to the save its caller makes. */
    method RecordLocked(a: Attempt) returns (recorded: bool)
      requires Valid(ledger) && ledger == saved && trace == [Value()]
      modifies this
      ensures Writes(old(Value()), a, Dropped(old(saved), old(journal), a)) == trace + [Durable(ledger, journal)]
    {
      var t := a.transition;
      var key := KeyOf(t);
      if key in ledger.entries && ledger.entries[key].complete {
        var done := MarkSaved(key, a.dirtySaved);
        if !done {
          ledger := Marked(ledger, key);
          return false;
        }
      }
      var position := |journal|;
      journal := journal + LinesLeft(t, a.append);
      trace := trace + [Value()];
      assert journal[..position] == old(journal);
      Refold(a, position);
      return true;
    }
  }

  // ----- Runs ---------------------------------------------------------------

  /** A record whose process stops after some durable write, its last when the
      ledger was saved. */
  datatype Step = Step(attempt: Attempt, gone: Option<string>, stop: nat)

  function Outcome(d: Durable, s: Step): Durable
    requires s.stop < |Writes(d, s.attempt, s.gone)|
  {
    Writes(d, s.attempt, s.gone)[s.stop]
  }

  /** The record ran to its end. */
  predicate Ended(d: Durable, s: Step) {
    s.stop == |Writes(d, s.attempt, s.gone)| - 1
  }

  /** What follows holds for whatever session goes. */
  ghost predicate Possible(d: Durable, s: Step) {
    s.stop < |Writes(d, s.attempt, s.gone)| && Valid(d.cache) && MayGo(d.cache, s.attempt.transition, s.gone)
  }

  ghost predicate Follows(d: Durable, s: Step, next: Durable) {
    Possible(d, s) && s.gone == Dropped(d.cache, d.journal, s.attempt) && next == Outcome(d, s)
  }

  function Lines(journal: seq<Line>, key: string): seq<Transition> {
    if journal == [] then [] else
      var prior := Lines(journal[..|journal| - 1], key);
      var last := journal[|journal| - 1];
      if last.Written? && KeyOf(last.transition) == key then prior + [last.transition] else prior
  }

  /** A complete entry is the fold of its session's lines, in append order. */
  ghost predicate EntryTrue(d: Durable, key: string) {
    key in d.cache.entries && d.cache.entries[key].complete ==>
      Lines(d.journal, key) != [] && d.cache.entries[key] == Folded(Lines(d.journal, key), true)
  }

  ghost predicate CompleteIsTrue(d: Durable) {
    forall key :: EntryTrue(d, key)
  }

  /** A session with lines in the journal but no entry in the cache. */
  predicate Orphan(d: Durable, key: string) {
    key !in d.cache.entries && Lines(d.journal, key) != []
  }

  lemma LinesAppended(journal: seq<Line>, line: Line, key: string)
    ensures Lines(journal + [line], key)
      == if line.Written? && KeyOf(line.transition) == key then Lines(journal, key) + [line.transition] else Lines(journal, key)
  {
    assert (journal + [line])[..|journal|] == journal;
  }

  lemma LinesAfter(journal: seq<Line>, t: Transition, append: Append, key: string)
    ensures Lines(journal + LinesLeft(t, append), key)
      == if KeyOf(t) == key && (append.Appended? || append.FailedWritten?) then Lines(journal, key) + [t] else Lines(journal, key)
  {
    if append.FailedClean? {
      assert journal + [] == journal;
    } else {
      LinesAppended(journal, LinesLeft(t, append)[0], key);
    }
  }

  lemma FoldedAppended(ts: seq<Transition>, t: Transition)
    ensures ts != [] ==> Folded(ts + [t], true) == UpdatedEntry(Folded(ts, true), t, true)
    ensures Folded([t], true) == UpdatedEntry(EmptyEntry(t), t, true)
  {
    assert (ts + [t])[..|ts|] == ts;
  }

  /** The record makes a complete entry out of one line of an orphan: the session
      looks new, because nothing remembers it. */
  predicate AdoptsOrphan(d: Durable, s: Step) {
    && Orphan(d, KeyOf(s.attempt.transition))
    && CountsComplete(d.cache, d.journal, s.attempt)
    && s.gone != Some(KeyOf(s.attempt.transition))
    && Ended(d, s)
  }

  lemma MarkedTrue(d: Durable, a: Attempt, key: string)
    requires EntryTrue(d, key)
    ensures EntryTrue(Durable(Marked(d.cache, KeyOf(a.transition)), d.journal), key)
    ensures MustMark(d.cache, KeyOf(a.transition)) ==>
      EntryTrue(Durable(Marked(d.cache, KeyOf(a.transition)), d.journal + LinesLeft(a.transition, a.append)), key)
    ensures !MustMark(d.cache, KeyOf(a.transition)) ==>
      EntryTrue(Durable(d.cache, d.journal + LinesLeft(a.transition, a.append)), key)
  {
    LinesAfter(d.journal, a.transition, a.append, key);
  }

  lemma UpdatedComplete(e: Entry, t: Transition, complete: bool)
    ensures UpdatedEntry(e, t, complete).complete == (e.complete && complete)
  {
  }

  /** The saved ledger: other sessions' entries stay true, and so does this one's
      unless it adopts an orphan. */
  lemma RecordedTrue(d: Durable, a: Attempt, gone: Option<string>, key: string)
    requires EntryTrue(d, key)
    requires key == KeyOf(a.transition) ==>
      !(Orphan(d, key) && CountsComplete(d.cache, d.journal, a) && gone != Some(key))
    ensures EntryTrue(Durable(Recorded(d.cache, d.journal, a, gone), d.journal + LinesLeft(a.transition, a.append)), key)
  {
    var t := a.transition;
    LinesAfter(d.journal, t, a.append, key);
    if key == KeyOf(t) && gone != Some(key) {
      var consistent := Consistent(d.cache, d.journal, a.append);
      var entries := if consistent then d.cache.entries else AllIncomplete(d.cache.entries);
      var entry := if key in entries then entries[key] else EmptyEntry(t);
      UpdatedComplete(entry, t, CountsComplete(d.cache, d.journal, a));
      FoldedAppended(Lines(d.journal, key), t);
      if key !in d.cache.entries && CountsComplete(d.cache, d.journal, a) {
        assert Lines(d.journal, key) + [t] == [t];
      }
    }
  }

  lemma AdoptedIsFalse(d: Durable, a: Attempt, gone: Option<string>)
    requires Orphan(d, KeyOf(a.transition)) && CountsComplete(d.cache, d.journal, a) && gone != Some(KeyOf(a.transition))
    ensures var next := Durable(Recorded(d.cache, d.journal, a, gone), d.journal + LinesLeft(a.transition, a.append));
      && KeyOf(a.transition) in next.cache.entries && next.cache.entries[KeyOf(a.transition)].complete
      && |Lines(next.journal, KeyOf(a.transition))| >= 2
      && next.cache.entries[KeyOf(a.transition)] == Folded([a.transition], true)
  {
    LinesAfter(d.journal, a.transition, a.append, KeyOf(a.transition));
    FoldedAppended([], a.transition);
  }

  /** From a state whose complete entries are true, a record leads to one exactly
      if it adopts no orphan, or the fold of the orphan's lines happens to be the
      fold of the last one. */
  lemma StepTrueExactly(d: Durable, s: Step)
    requires CompleteIsTrue(d) && Possible(d, s)
    ensures var t := s.attempt.transition;
      CompleteIsTrue(Outcome(d, s)) <==>
        (AdoptsOrphan(d, s) ==> Folded(Lines(d.journal, KeyOf(t)) + [t], true) == Folded([t], true))
  {
    var a, t := s.attempt, s.attempt.transition;
    var next := Outcome(d, s);
    var key := KeyOf(t);
    if AdoptsOrphan(d, s) {
      AdoptedIsFalse(d, a, s.gone);
      LinesAfter(d.journal, t, a.append, key);
      assert EntryTrue(next, key) <==> Folded(Lines(d.journal, key) + [t], true) == Folded([t], true);
      forall k | k != key ensures EntryTrue(next, k) {
        assert EntryTrue(d, k);
        RecordedTrue(d, a, s.gone, k);
      }
    } else {
      forall k ensures EntryTrue(next, k) {
        assert EntryTrue(d, k);
        StepTrueAt(d, s, k);
      }
    }
  }

  lemma MidwayTrue(d: Durable, s: Step, key: string)
    requires EntryTrue(d, key) && Possible(d, s)
    requires !Ended(d, s) || (MustMark(d.cache, KeyOf(s.attempt.transition)) && !s.attempt.dirtySaved)
    ensures EntryTrue(Outcome(d, s), key)
  {
    MarkedTrue(d, s.attempt, key);
  }

  lemma StepTrueAt(d: Durable, s: Step, key: string)
    requires EntryTrue(d, key) && Possible(d, s) && !AdoptsOrphan(d, s)
    ensures EntryTrue(Outcome(d, s), key)
  {
    if !Ended(d, s) || (MustMark(d.cache, KeyOf(s.attempt.transition)) && !s.attempt.dirtySaved) {
      MidwayTrue(d, s, key);
    } else {
      RecordedTrue(d, s.attempt, s.gone, key);
    }
  }

  /** For a new event, as every record makes one, that is exactly when it adopts
      no orphan. */
  lemma NewEventTrueExactly(d: Durable, s: Step)
    requires CompleteIsTrue(d) && Possible(d, s)
    requires !HasId(Lines(d.journal, KeyOf(s.attempt.transition)), s.attempt.transition.eventId)
    ensures CompleteIsTrue(Outcome(d, s)) <==> !AdoptsOrphan(d, s)
  {
    var t := s.attempt.transition;
    var lines := Lines(d.journal, KeyOf(t));
    StepTrueExactly(d, s);
    if lines != [] {
      FoldedSeen(lines + [t], true, lines[0].eventId);
      FoldedSeen([t], true, lines[0].eventId);
      assert lines[0] in lines + [t];
      assert HasId(lines, lines[0].eventId) && HasId(lines + [t], lines[0].eventId);
      assert !HasId([t], lines[0].eventId);
    }
  }

  // ----- Whole runs ---------------------------------------------------------

  /** An orphan that the cache does not remember having dropped. */
  predicate Stray(d: Durable, key: string) {
    Orphan(d, key) && key !in d.cache.evicted
  }

  ghost predicate NoStrays(d: Durable) {
    forall key :: !Stray(d, key)
  }

  ghost predicate Sound(d: Durable) {
    CompleteIsTrue(d) && NoStrays(d) && Valid(d.cache)
  }

  /** The record stops after the line of a session new to the cache, before the
      ledger is saved. */
  predicate LeavesLine(d: Durable, s: Step) {
    && KeyOf(s.attempt.transition) !in d.cache.entries && KeyOf(s.attempt.transition) !in d.cache.evicted
    && (s.attempt.append.Appended? || s.attempt.append.FailedWritten?)
    && s.stop == 1
  }

  /** The record forgets a session that has lines in the journal. */
  predicate LosesTrack(d: Durable, s: Step) {
    && Ended(d, s)
    && var lost := LostFrom(d.cache.evicted, s.gone);
       lost.Some? && lost.value != KeyOf(s.attempt.transition) && Orphan(d, lost.value)
  }

  /** Before its end a record leaves the sessions of the cache as they are. */
  lemma MidwayOutcome(d: Durable, s: Step)
    requires Possible(d, s) && !Ended(d, s)
    ensures var next, marks := Outcome(d, s), MustMark(d.cache, KeyOf(s.attempt.transition));
      && next.cache.entries.Keys == d.cache.entries.Keys && next.cache.evicted == d.cache.evicted
      && next.journal == d.journal + (
           if s.stop == 0 || (s.stop == 1 && marks) then [] else LinesLeft(s.attempt.transition, s.attempt.append))
      && (!marks ==> s.stop <= 1)
  {
    assert d.journal + [] == d.journal;
  }

  lemma MidwayStray(d: Durable, s: Step, key: string)
    requires !Stray(d, key) && Possible(d, s) && !Ended(d, s)
    ensures Stray(Outcome(d, s), key) <==> LeavesLine(d, s) && key == KeyOf(s.attempt.transition)
  {
    MidwayOutcome(d, s);
    SameSessionsStray(d, Outcome(d, s), s, key);
  }

  lemma SameSessionsStray(d: Durable, next: Durable, s: Step, key: string)
    requires !Stray(d, key)
    requires next.cache.entries.Keys == d.cache.entries.Keys && next.cache.evicted == d.cache.evicted
    requires var marks := MustMark(d.cache, KeyOf(s.attempt.transition));
      && next.journal == d.journal + (
           if s.stop == 0 || (s.stop == 1 && marks) then [] else LinesLeft(s.attempt.transition, s.attempt.append))
      && (!marks ==> s.stop <= 1)
    ensures Stray(next, key) <==> LeavesLine(d, s) && key == KeyOf(s.attempt.transition)
  {
    LinesAfter(d.journal, s.attempt.transition, s.attempt.append, key);
    assert d.journal + [] == d.journal;
    assert key in next.cache.entries <==> key in next.cache.entries.Keys;
    assert key in d.cache.entries <==> key in d.cache.entries.Keys;
  }

  lemma RecordedStray(d: Durable, a: Attempt, gone: Option<string>, key: string)
    requires !Stray(d, key) && Valid(d.cache) && MayGo(d.cache, a.transition, gone)
    ensures Stray(Durable(Recorded(d.cache, d.journal, a, gone), d.journal + LinesLeft(a.transition, a.append)), key) <==>
      LostFrom(d.cache.evicted, gone) == Some(key) && key != KeyOf(a.transition) && Orphan(d, key)
  {
    RememberedExactly(d.cache.evicted, gone);
    LinesAfter(d.journal, a.transition, a.append, key);
  }

  /** A step loses sight of a session's lines exactly if it leaves the first one
      behind or forgets the session. */
  lemma StepStray(d: Durable, s: Step, key: string)
    requires !Stray(d, key) && Possible(d, s)
    ensures Stray(Outcome(d, s), key) <==>
      (LeavesLine(d, s) && key == KeyOf(s.attempt.transition))
      || (LosesTrack(d, s) && LostFrom(d.cache.evicted, s.gone) == Some(key))
  {
    if !Ended(d, s) {
      MidwayStray(d, s, key);
    } else if MustMark(d.cache, KeyOf(s.attempt.transition)) && !s.attempt.dirtySaved {
      assert s.gone.None?;
    } else {
      RecordedStray(d, s.attempt, s.gone, key);
    }
  }

  lemma MarkedValid(c: Cache, key: string)
    requires Valid(c)
    ensures Valid(Marked(c, key))
  {
    if key in c.entries {
      assert Marked(c, key).entries.Keys == c.entries.Keys;
      assert |Marked(c, key).entries| == |Marked(c, key).entries.Keys| && |c.entries| == |c.entries.Keys|;
    }
  }

  lemma StepValid(d: Durable, s: Step)
    requires Possible(d, s)
    ensures Valid(Outcome(d, s).cache)
  {
    RecordedValid(d.cache, d.journal, s.attempt, s.gone);
    MarkedValid(d.cache, KeyOf(s.attempt.transition));
  }

  /** A record, whole or stopped, keeps the store sound exactly if it does
      neither. */
  lemma StepSoundExactly(d: Durable, s: Step)
    requires Sound(d) && Possible(d, s)
    ensures CompleteIsTrue(Outcome(d, s))
    ensures Sound(Outcome(d, s)) <==> !LeavesLine(d, s) && !LosesTrack(d, s)
  {
    var next := Outcome(d, s);
    assert !Stray(d, KeyOf(s.attempt.transition));
    StepTrueExactly(d, s);
    StepValid(d, s);
    if LeavesLine(d, s) {
      StepStray(d, s, KeyOf(s.attempt.transition));
    } else if LosesTrack(d, s) {
      var lost := LostFrom(d.cache.evicted, s.gone).value;
      assert !Stray(d, lost);
      StepStray(d, s, lost);
    } else {
      forall key ensures !Stray(next, key) {
        assert !Stray(d, key);
        StepStray(d, s, key);
      }
    }
  }

  ghost predicate FollowsTracked(d: Durable, s: Step, next: Durable) {
    Possible(d, s) && next == Outcome(d, s) && !LeavesLine(d, s) && !LosesTrack(d, s)
  }

  /** Over any run of records, evictions, crashes and failed saves that loses sight
      of no session, a durable entry marked complete is the fold of its session's
      journal lines in append order. */
  lemma CompleteEntriesStayTrue(ds: seq<Durable>, steps: seq<Step>, n: nat)
    requires |ds| == |steps| + 1 && n <= |steps| && Sound(ds[0])
    requires forall i | 0 <= i < |steps| :: FollowsTracked(ds[i], steps[i], ds[i + 1])
    ensures CompleteIsTrue(ds[n])
  {
    forall d, s, next | Sound(d) && FollowsTracked(d, s, next) ensures Sound(next) {
      StepSoundExactly(d, s);
    }
    Runs.Invariance(ds, steps, FollowsTracked, s => true, Sound, 0, n);
  }

  const START := Durable(Cache(map[], true, [], None), [])

  lemma StartIsSound()
    ensures Sound(START)
  {
  }

  // ----- What the precondition is for ---------------------------------------

  const LEFT := Identity("codex_cli", "s", "left")
  const OTHER := Identity("codex_cli", "s", "other")
  const FIRST := Transition("1", LEFT, "t", StopVerification, Block, [], 0, "")
  const BETWEEN := Transition("2", OTHER, "t", StopVerification, Block, [], 1, "")
  const LATER := Transition("3", LEFT, "t", StopVerification, Block, [], 2, "")

  function Try(t: Transition, stop: nat): Step {
    Step(Attempt(t, false, true, Appended), None, stop)
  }

  /** A session forgotten by one record and then recorded again: its entry is
      marked complete and misses the lines from before. */
  lemma ForgottenSessionIsMissed(d: Durable, s: Step, again: Step)
    requires Sound(d) && Possible(d, s) && LosesTrack(d, s) && s.attempt.append.Appended?
    requires var next, a := Outcome(d, s), again.attempt;
      && Some(KeyOf(a.transition)) == LostFrom(d.cache.evicted, s.gone)
      && a.append.Appended? && !a.observed && !HasId(Lines(d.journal, KeyOf(a.transition)), a.transition.eventId)
      && Possible(next, again) && Ended(next, again) && again.gone != Some(KeyOf(a.transition))
    ensures CompleteIsTrue(Outcome(d, s)) && !CompleteIsTrue(Outcome(Outcome(d, s), again))
  {
    var next := Outcome(d, s);
    var key := KeyOf(again.attempt.transition);
    assert !Stray(d, key);
    StepSoundExactly(d, s);
    StepStray(d, s, key);
    LinesAfter(d.journal, s.attempt.transition, s.attempt.append, key);
    NewEventTrueExactly(next, again);
  }

  lemma LeftBehind()
    ensures var d1 := Outcome(START, Try(FIRST, 1));
      && d1 == Durable(START.cache, [Written(FIRST)]) && CompleteIsTrue(d1)
      && Lines(d1.journal, KeyOf(FIRST)) == [FIRST] && Lines(d1.journal, KeyOf(BETWEEN)) == []
  {
    KeysDiffer();
    var d1 := Outcome(START, Try(FIRST, 1));
    StepTrueExactly(START, Try(FIRST, 1));
    assert d1 == Durable(START.cache, [Written(FIRST)]) by { assert START.journal + [Written(FIRST)] == [Written(FIRST)]; }
    LinesAfter([], FIRST, Appended, KeyOf(FIRST));
    LinesAfter([], FIRST, Appended, KeyOf(BETWEEN));
    assert [] + LinesLeft(FIRST, Appended) == d1.journal;
  }

  lemma LaterIsWrong(d2: Durable)
    requires CompleteIsTrue(d2) && Possible(d2, Try(LATER, 2)) && AdoptsOrphan(d2, Try(LATER, 2))
    requires Lines(d2.journal, KeyOf(LATER)) == [FIRST]
    ensures !CompleteIsTrue(Outcome(d2, Try(LATER, 2)))
  {
    NewEventTrueExactly(d2, Try(LATER, 2));
  }

  lemma AdoptedLater(d1: Durable)
    requires d1 == Durable(START.cache, [Written(FIRST)]) && CompleteIsTrue(d1)
    requires Lines(d1.journal, KeyOf(FIRST)) == [FIRST] && Lines(d1.journal, KeyOf(BETWEEN)) == []
    ensures var d2 := Outcome(d1, Try(BETWEEN, 2));
      && Orphan(d1, KeyOf(FIRST)) && Orphan(d2, KeyOf(FIRST)) && AdoptsOrphan(d2, Try(LATER, 2))
      && CompleteIsTrue(d2) && !CompleteIsTrue(Outcome(d2, Try(LATER, 2)))
  {
    LeftoverStaysOrphan(d1);
    LaterIsWrong(Outcome(d1, Try(BETWEEN, 2)));
  }

  /** A first line left behind, a record of another session, then a record of the
      first one: its entry is marked complete and misses a line. */
  lemma LeftoverLineIsMissed()
    ensures var d1 := Outcome(START, Try(FIRST, 1));
      var d2 := Outcome(d1, Try(BETWEEN, 2));
      && Orphan(d1, KeyOf(FIRST)) && Orphan(d2, KeyOf(FIRST)) && AdoptsOrphan(d2, Try(LATER, 2))
      && CompleteIsTrue(d2) && !CompleteIsTrue(Outcome(d2, Try(LATER, 2)))
  {
    LeftBehind();
    AdoptedLater(Outcome(START, Try(FIRST, 1)));
  }

  lemma KeysDiffer()
    ensures KeyOf(FIRST) != KeyOf(BETWEEN) && KeyOf(LATER) == KeyOf(FIRST)
  {
    assert |KeyOf(FIRST)| == 9 + 1 + 1 + 1 + 4 && |KeyOf(BETWEEN)| == 9 + 1 + 1 + 1 + 5;
  }

  lemma LeftoverStaysOrphan(d1: Durable)
    requires d1 == Durable(START.cache, [Written(FIRST)]) && CompleteIsTrue(d1)
    requires Lines(d1.journal, KeyOf(FIRST)) == [FIRST] && Lines(d1.journal, KeyOf(BETWEEN)) == []
    ensures var d2 := Outcome(d1, Try(BETWEEN, 2));
      && Orphan(d1, KeyOf(FIRST)) && Orphan(d2, KeyOf(FIRST)) && AdoptsOrphan(d2, Try(LATER, 2))
      && Possible(d2, Try(LATER, 2)) && CompleteIsTrue(d2) && Lines(d2.journal, KeyOf(LATER)) == [FIRST]
  {
    KeysDiffer();
    StepTrueExactly(d1, Try(BETWEEN, 2));
    LinesAfter(d1.journal, BETWEEN, Appended, KeyOf(FIRST));
  }
}
