/** The scorecard cache holds at most 64 sessions: the ones seen last. It remembers
    the last 64 that it had to drop.

    Models `bounded_cache_with_evictions` and the end of `build_cache` of
    core/scorecard_cache.py.
  */
module ScorecardBound {
  import opened Common
  import opened Scorecard

  const MAX_SESSIONS := 64

  datatype Bounded = Bounded(entries: map<string, Entry>, evicted: seq<string>)

  predicate Held(keys: seq<string>, entries: map<string, Entry>) {
    forall k | k in keys :: k in entries
  }

  /** The dictionary's keys in its order. */
  ghost predicate Listing(keys: seq<string>, entries: map<string, Entry>) {
    Distinct(keys) && forall k :: k in keys <==> k in entries
  }

  // ----- The stable sort by the last transition -----------------------------

  function Placed(keys: seq<string>, key: string, entries: map<string, Entry>): (r: seq<string>)
    requires Held(keys, entries) && key in entries
    ensures |r| == |keys| + 1 && forall k :: k in r <==> k in keys || k == key
  {
    if keys == [] then [key]
    else
      var init, last := keys[..|keys| - 1], keys[|keys| - 1];
      assert keys == init + [last];
      if entries[last].lastAt <= entries[key].lastAt then keys + [key]
      else Placed(init, key, entries) + [last]
  }

  function ByLast(keys: seq<string>, entries: map<string, Entry>): (r: seq<string>)
    requires Held(keys, entries)
    ensures |r| == |keys| && forall k :: k in r <==> k in keys
  {
    if keys == [] then []
    else
      var init, last := keys[..|keys| - 1], keys[|keys| - 1];
      assert keys == init + [last];
      Placed(ByLast(init, entries), last, entries)
  }

  ghost predicate Rising(keys: seq<string>, entries: map<string, Entry>)
    requires Held(keys, entries)
  {
    forall i, j | 0 <= i < j < |keys| :: entries[keys[i]].lastAt <= entries[keys[j]].lastAt
  }

  lemma RisingAppended(keys: seq<string>, key: string, entries: map<string, Entry>)
    requires Held(keys, entries) && key in entries && Rising(keys, entries)
    requires forall k | k in keys :: entries[k].lastAt <= entries[key].lastAt
    ensures Held(keys + [key], entries) && Rising(keys + [key], entries)
  {
  }

  lemma {:induction false} PlacedDistinct(keys: seq<string>, key: string, entries: map<string, Entry>)
    requires Held(keys, entries) && key in entries && key !in keys && Distinct(keys)
    ensures Distinct(Placed(keys, key, entries))
  {
    DistinctAppended(keys, key);
    if keys != [] {
      var init, last := keys[..|keys| - 1], keys[|keys| - 1];
      assert keys == init + [last] && last !in init;
      if entries[last].lastAt > entries[key].lastAt {
        PlacedDistinct(init, key, entries);
        DistinctAppended(Placed(init, key, entries), last);
      }
    }
  }

  lemma {:induction false} PlacedRising(keys: seq<string>, key: string, entries: map<string, Entry>)
    requires Held(keys, entries) && key in entries && Rising(keys, entries)
    ensures Rising(Placed(keys, key, entries), entries)
  {
    if keys != [] {
      var init, last := keys[..|keys| - 1], keys[|keys| - 1];
      assert keys == init + [last];
      if entries[last].lastAt > entries[key].lastAt {
        PlacedRising(init, key, entries);
        RisingAppended(Placed(init, key, entries), last, entries);
      } else {
        RisingAppended(keys, key, entries);
      }
    }
  }

  lemma {:induction false} ByLastFacts(keys: seq<string>, entries: map<string, Entry>)
    requires Held(keys, entries) && Distinct(keys)
    ensures Distinct(ByLast(keys, entries)) && Rising(ByLast(keys, entries), entries)
  {
    if keys != [] {
      var init, last := keys[..|keys| - 1], keys[|keys| - 1];
      assert keys == init + [last] && last !in init;
      ByLastFacts(init, entries);
      PlacedDistinct(ByLast(init, entries), last, entries);
      PlacedRising(ByLast(init, entries), last, entries);
    }
  }

  // ----- The bound ----------------------------------------------------------

  /** How many entries have to go. */
  function Overflow<T>(s: seq<T>): nat {
    if |s| <= MAX_SESSIONS then 0 else |s| - MAX_SESSIONS
  }

  /** `list(dict.fromkeys(...))`. */
  function FirstOnly(s: seq<string>): (r: seq<string>)
    ensures forall k :: k in r <==> k in s
    ensures Distinct(r) && |r| <= |s|
  {
    if s == [] then [] else
      var prior := FirstOnly(s[..|s| - 1]);
      if s[|s| - 1] in prior then prior else prior + [s[|s| - 1]]
  }

  /** Each key moved to the end of the history, or added there. */
  function Recalled(history: seq<string>, dropped: seq<string>): seq<string> {
    if dropped == [] then history
    else Without(Recalled(history, dropped[..|dropped| - 1]), dropped[|dropped| - 1]) + [dropped[|dropped| - 1]]
  }

  function BoundedBy(keys: seq<string>, entries: map<string, Entry>, history: seq<string>): Bounded
    requires Held(keys, entries)
  {
    var items := ByLast(keys, entries);
    var kept := items[Overflow(items)..];
    var known := Recalled(FirstOnly(history), items[..Overflow(items)]);
    Bounded(map k | k in kept :: entries[k], known[Overflow(known)..])
  }

  method BoundCache(keys: seq<string>, entries: map<string, Entry>, history: seq<string>) returns (r: Bounded)
    requires Held(keys, entries)
    ensures r == BoundedBy(keys, entries, history)
  {
    var items := ByLast(keys, entries);
    var from := Overflow(items);
    var known := FirstOnly(history);
    for n := 0 to from
      invariant known == Recalled(FirstOnly(history), items[..n])
    {
      assert items[..n + 1][..n] == items[..n];
      known := Without(known, items[n]) + [items[n]];
    }
    r := Bounded(map k | k in items[from..] :: entries[k], known[Overflow(known)..]);
  }

  method BuildCache(ts: seq<Transition>, complete: bool) returns (cache: map<string, Entry>)
    ensures cache == BoundedBy(SessionOrder(ByTime(ts)), EntriesOf(ByTime(ts), complete), []).entries
  {
    var order, entries := BuildEntries(ByTime(ts), complete);
    assert entries == EntriesOf(ByTime(ts), complete);
    var bounded := BoundCache(order, entries, []);
    cache := bounded.entries;
  }

  lemma {:induction false} DistinctSize(keys: seq<string>)
    requires Distinct(keys)
    ensures |set k | k in keys| == |keys|
  {
    if keys != [] {
      var init, last := keys[..|keys| - 1], keys[|keys| - 1];
      DistinctSize(init);
      assert keys == init + [last] && last !in init;
      assert (set k | k in keys) == (set k | k in init) + {last};
    }
  }

  ghost predicate Newer(items: seq<string>, from: nat, entries: map<string, Entry>)
    requires from <= |items|
  {
    forall k, d | k in items[from..] && d in items && d !in items[from..] && k in entries && d in entries ::
      entries[d].lastAt <= entries[k].lastAt
  }

  lemma TailIsNewer(items: seq<string>, from: nat, entries: map<string, Entry>)
    requires from <= |items| && Held(items, entries) && Rising(items, entries)
    ensures Newer(items, from, entries)
  {
    forall k, d | k in items[from..] && d in items && d !in items[from..]
      ensures entries[d].lastAt <= entries[k].lastAt
    {
      var j :| from <= j < |items| && items[j] == k;
      var i :| 0 <= i < |items| && items[i] == d;
      assert d !in items[from..] ==> i < from;
    }
  }

  lemma TailSize(items: seq<string>, from: nat, entries: map<string, Entry>)
    requires from <= |items| && Held(items, entries) && Distinct(items)
    ensures |map k | k in items[from..] :: entries[k]| == |items| - from
  {
    DistinctSize(items[from..]);
    assert (map k | k in items[from..] :: entries[k]).Keys == set k | k in items[from..];
  }

  lemma ListingSize(keys: seq<string>, entries: map<string, Entry>)
    requires Listing(keys, entries)
    ensures |keys| == |entries|
  {
    DistinctSize(keys);
    assert entries.Keys == set k | k in keys;
  }

  /** The bound keeps the sessions seen last, as many as it may, as they are. */
  lemma BoundKeepsNewest(keys: seq<string>, entries: map<string, Entry>, history: seq<string>)
    requires Listing(keys, entries)
    ensures var kept := BoundedBy(keys, entries, history).entries;
      && |kept| == (if |entries| <= MAX_SESSIONS then |entries| else MAX_SESSIONS)
      && (forall k | k in kept :: k in entries && kept[k] == entries[k])
      && (forall k, d | k in kept && d in entries && d !in kept :: entries[d].lastAt <= entries[k].lastAt)
  {
    var items := ByLast(keys, entries);
    ByLastFacts(keys, entries);
    ListingSize(keys, entries);
    TailSize(items, Overflow(items), entries);
    TailIsNewer(items, Overflow(items), entries);
  }

  // ----- One session too many -----------------------------------------------

  /** The session that has to go when there is one too many. */
  function Victim(keys: seq<string>, entries: map<string, Entry>): (r: string)
    requires Held(keys, entries) && keys != []
    ensures r in keys
  {
    ByLast(keys, entries)[0]
  }

  /** The history after one more session went. */
  function Remembered(history: seq<string>, gone: Option<string>): seq<string> {
    match gone
    case None => history
    case Some(v) =>
      var known := Without(history, v) + [v];
      known[Overflow(known)..]
  }

  /** The session that the history forgets for another one: its oldest, if it is
      full and does not list the other one yet. */
  function LostFrom(history: seq<string>, gone: Option<string>): Option<string> {
    if gone.Some? && |history| == MAX_SESSIONS && gone.value !in history then Some(history[0]) else None
  }

  lemma {:induction false} FirstOnlyOfDistinct(s: seq<string>)
    requires Distinct(s)
    ensures FirstOnly(s) == s
  {
    if s != [] {
      var init, last := s[..|s| - 1], s[|s| - 1];
      assert s == init + [last] && last !in init;
      FirstOnlyOfDistinct(init);
    }
  }

  lemma WithinBound(keys: seq<string>, entries: map<string, Entry>, history: seq<string>)
    requires Listing(keys, entries) && |keys| <= MAX_SESSIONS
    requires Distinct(history) && |history| <= MAX_SESSIONS
    ensures BoundedBy(keys, entries, history) == Bounded(entries, history)
  {
    FirstOnlyOfDistinct(history);
    var items := ByLast(keys, entries);
    assert items[0..] == items && items[..0] == [] && history[0..] == history;
    assert (map k | k in items :: entries[k]) == entries;
  }

  lemma {:induction false} WithoutAbsent(s: seq<string>, key: string)
    requires key !in s
    ensures Without(s, key) == s
  {
    if s != [] {
      WithoutAbsent(s[1..], key);
    }
  }

  lemma RememberedExactly(history: seq<string>, gone: Option<string>)
    requires Distinct(history) && |history| <= MAX_SESSIONS
    ensures Distinct(Remembered(history, gone)) && |Remembered(history, gone)| <= MAX_SESSIONS
    ensures forall k :: k in Remembered(history, gone) <==>
      gone == Some(k) || (k in history && LostFrom(history, gone) != Some(k))
  {
    if gone.Some? {
      var v := gone.value;
      var known := Without(history, v) + [v];
      WithoutDistinct(history, v);
      DistinctAppended(Without(history, v), v);
      if |known| > MAX_SESSIONS {
        WithoutAbsent(history, v);
        DistinctTail(known);
        assert known[0] == history[0];
      } else {
        assert known[0..] == known;
      }
    }
  }

  lemma TailEntries(items: seq<string>, entries: map<string, Entry>)
    requires Listing(items, entries) && items != []
    ensures (map k | k in items[1..] :: entries[k]) == entries - {items[0]}
  {
    DistinctTail(items);
  }

  lemma HeadIsOldest(items: seq<string>, entries: map<string, Entry>)
    requires Held(items, entries) && Rising(items, entries) && items != []
    ensures forall k | k in items :: entries[items[0]].lastAt <= entries[k].lastAt
  {
    forall k | k in items ensures entries[items[0]].lastAt <= entries[k].lastAt {
      var i :| 0 <= i < |items| && items[i] == k;
    }
  }

  /** With one session too many exactly one goes, one of those seen last the
      longest ago, and is remembered. */
  lemma OneGoes(keys: seq<string>, entries: map<string, Entry>, history: seq<string>)
    requires Listing(keys, entries) && |keys| == MAX_SESSIONS + 1
    requires Distinct(history)
    ensures var v := Victim(keys, entries);
      && BoundedBy(keys, entries, history) == Bounded(entries - {v}, Remembered(history, Some(v)))
      && forall k | k in entries :: entries[v].lastAt <= entries[k].lastAt
  {
    var items := ByLast(keys, entries);
    ByLastFacts(keys, entries);
    FirstOnlyOfDistinct(history);
    assert items[..1] == [items[0]] && [items[0]][..0] == [];
    assert Recalled(history, items[..1]) == Without(history, items[0]) + [items[0]];
    TailEntries(items, entries);
    HeadIsOldest(items, entries);
  }
}
