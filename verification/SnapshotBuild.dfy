/** Building a snapshot from a scan: entries whose keys collide are left out, the
    rest is sorted.

    Models `build_snapshot` and `_colliding_keys` of core/provenance_snapshot.py.
  */
module SnapshotBuild {
  import opened Common
  import opened Ordering
  import opened Snapshots

  // ----- Collisions ---------------------------------------------------------

  function MinPath(a: string, b: string): string {
    if Le(a, b) then a else b
  }

  lemma MinPathIsFirst(a: string, b: string)
    ensures MinPath(a, b) in {a, b} && Le(MinPath(a, b), a) && Le(MinPath(a, b), b)
  {
    LeTotal(a, b);
    LeReflexive(MinPath(a, b));
  }

  /** The path that the list has first under the key. */
  function FirstPath(entries: seq<Entry>, casefolded: bool, key: string): (r: Option<string>)
    ensures r.Some? ==> exists e :: e in entries && KeyOf(e, casefolded) == key && e.path == r.value
    ensures r.None? ==> forall e | e in entries :: KeyOf(e, casefolded) != key
  {
    if entries == [] then None else
      var init, last := entries[..|entries| - 1], entries[|entries| - 1];
      assert entries == init + [last];
      var first := FirstPath(init, casefolded, key);
      if first.None? && KeyOf(last, casefolded) == key then Some(last.path) else first
  }

  /** The path that it has last under the key and that is not the first one. */
  function LastOther(entries: seq<Entry>, casefolded: bool, key: string): Option<string> {
    if entries == [] then None else
      var init, last := entries[..|entries| - 1], entries[|entries| - 1];
      var first := FirstPath(init, casefolded, key);
      if first.Some? && KeyOf(last, casefolded) == key && last.path != first.value then Some(last.path)
      else LastOther(init, casefolded, key)
  }

  /** One remembered path for a key is enough to notice every collision. */
  lemma {:induction false} OtherMeansColliding(entries: seq<Entry>, casefolded: bool, key: string)
    ensures LastOther(entries, casefolded, key).Some? <==> Colliding(entries, casefolded, key)
    ensures LastOther(entries, casefolded, key).Some? ==> FirstPath(entries, casefolded, key).Some?
  {
    if entries != [] {
      var init, last := entries[..|entries| - 1], entries[|entries| - 1];
      assert entries == init + [last];
      OtherMeansColliding(init, casefolded, key);
      CollidingExtends(init, last, casefolded);
      var first := FirstPath(init, casefolded, key);
      if first.Some? {
        var e :| e in init && KeyOf(e, casefolded) == key && e.path == first.value;
        if KeyOf(last, casefolded) == key && last.path != e.path {
          assert Clash(e, last, casefolded, key);
        }
        if a :| a in init && Clash(a, last, casefolded, key) {
          assert a.path != e.path ==> Clash(a, e, casefolded, key);
        }
      }
    }
  }

  /** The keys that two different paths share, each with the smaller one of the
      path that came first and the last one that differs from it. */
  ghost predicate CollisionsOf(entries: seq<Entry>, casefolded: bool, collisions: map<string, string>) {
    && (forall key :: key in collisions <==> Colliding(entries, casefolded, key))
    && (forall key | key in collisions ::
          && FirstPath(entries, casefolded, key).Some? && LastOther(entries, casefolded, key).Some?
          && collisions[key] == MinPath(
               FirstPath(entries, casefolded, key).value, LastOther(entries, casefolded, key).value))
  }

  /** What the scan of the list knows of a key. */
  ghost predicate Knows(
      entries: seq<Entry>, casefolded: bool, seen: map<string, string>, collisions: map<string, string>, key: string) {
    var first, other := FirstPath(entries, casefolded, key), LastOther(entries, casefolded, key);
    && first == (if key in seen then Some(seen[key]) else None)
    && (key in collisions <==> other.Some?)
    && (key in collisions ==> first.Some? && collisions[key] == MinPath(first.value, other.value))
  }

  ghost predicate KnowsAll(
      entries: seq<Entry>, casefolded: bool, seen: map<string, string>, collisions: map<string, string>) {
    forall key :: Knows(entries, casefolded, seen, collisions, key)
  }

  lemma KnowsMore(
      init: seq<Entry>, last: Entry, casefolded: bool, seen: map<string, string>, collisions: map<string, string>)
    requires KnowsAll(init, casefolded, seen, collisions)
    ensures var key := KeyOf(last, casefolded);
      if key in seen && seen[key] != last.path
      then KnowsAll(init + [last], casefolded, seen, collisions[key := MinPath(seen[key], last.path)])
      else KnowsAll(init + [last], casefolded, seen[key := last.path], collisions)
  {
    var all, at := init + [last], KeyOf(last, casefolded);
    assert all[..|init|] == init;
    var clash := at in seen && seen[at] != last.path;
    var nextSeen := if clash then seen else seen[at := last.path];
    var next := if clash then collisions[at := MinPath(seen[at], last.path)] else collisions;
    forall key ensures Knows(all, casefolded, nextSeen, next, key) {
      assert Knows(init, casefolded, seen, collisions, key);
    }
  }

  lemma KnownCollisions(
      entries: seq<Entry>, casefolded: bool, seen: map<string, string>, collisions: map<string, string>)
    requires KnowsAll(entries, casefolded, seen, collisions)
    ensures CollisionsOf(entries, casefolded, collisions)
  {
    forall key ensures key in collisions <==> Colliding(entries, casefolded, key) {
      assert Knows(entries, casefolded, seen, collisions, key);
      OtherMeansColliding(entries, casefolded, key);
    }
    forall key | key in collisions
      ensures FirstPath(entries, casefolded, key).Some? && LastOther(entries, casefolded, key).Some?
      ensures collisions[key] == MinPath(
        FirstPath(entries, casefolded, key).value, LastOther(entries, casefolded, key).value)
    {
      assert Knows(entries, casefolded, seen, collisions, key);
    }
  }

  method CollidingKeys(entries: seq<Entry>, casefolded: bool) returns (collisions: map<string, string>)
    ensures CollisionsOf(entries, casefolded, collisions)
  {
    var seen: map<string, string> := map[];
    collisions := map[];
    for n := 0 to |entries|
      invariant KnowsAll(entries[..n], casefolded, seen, collisions)
    {
      var entry := entries[n];
      var key := CanonicalKey(entry.path, casefolded);
      assert entries[..n + 1] == entries[..n] + [entry];
      KnowsMore(entries[..n], entry, casefolded, seen, collisions);
      if key in seen && seen[key] != entry.path {
        collisions := collisions[key := MinPath(seen[key], entry.path)];
      } else {
        seen := seen[key := entry.path];
      }
    }
    assert entries[..|entries|] == entries;
    KnownCollisions(entries, casefolded, seen, collisions);
  }

  // ----- The order of a snapshot --------------------------------------------

  /** Canonical key first, then path. */
  predicate Before(a: Entry, b: Entry) {
    if a.canonicalKey == b.canonicalKey then Le(a.path, b.path) else Le(a.canonicalKey, b.canonicalKey)
  }

  lemma BeforeTotal(a: Entry, b: Entry)
    ensures Before(a, b) || Before(b, a)
  {
    LeTotal(a.canonicalKey, b.canonicalKey);
    LeTotal(a.path, b.path);
  }

  lemma BeforeTransitive(a: Entry, b: Entry, c: Entry)
    requires Before(a, b) && Before(b, c)
    ensures Before(a, c)
  {
    if a.canonicalKey == c.canonicalKey && a.canonicalKey != b.canonicalKey {
      LeAntisymmetric(a.canonicalKey, b.canonicalKey);
    } else if a.canonicalKey == c.canonicalKey {
      LeTransitive(a.path, b.path, c.path);
    } else if a.canonicalKey != b.canonicalKey && b.canonicalKey != c.canonicalKey {
      LeTransitive(a.canonicalKey, b.canonicalKey, c.canonicalKey);
    }
  }

  function PlacedEntry(es: seq<Entry>, e: Entry): (r: seq<Entry>)
    ensures multiset(r) == multiset(es) + multiset{e}
  {
    if es == [] then [e] else
      var init, last := es[..|es| - 1], es[|es| - 1];
      assert es == init + [last];
      if Before(last, e) then es + [e] else PlacedEntry(init, e) + [last]
  }

  /** The stable sort. */
  function SortedEntries(es: seq<Entry>): (r: seq<Entry>)
    ensures multiset(r) == multiset(es)
  {
    if es == [] then [] else
      var init, last := es[..|es| - 1], es[|es| - 1];
      assert es == init + [last];
      PlacedEntry(SortedEntries(init), last)
  }

  ghost predicate InOrder(es: seq<Entry>) {
    forall i, j | 0 <= i < j < |es| :: Before(es[i], es[j])
  }

  ghost predicate AllBefore(es: seq<Entry>, e: Entry) {
    forall a | a in multiset(es) :: Before(a, e)
  }

  lemma InOrderAppended(es: seq<Entry>, e: Entry)
    requires InOrder(es) && AllBefore(es, e)
    ensures InOrder(es + [e])
  {
    forall i | 0 <= i < |es| ensures Before(es[i], e) {
      assert es[i] in multiset(es);
    }
  }

  lemma BehindLast(es: seq<Entry>, e: Entry)
    requires es != [] && InOrder(es) && Before(es[|es| - 1], e)
    ensures AllBefore(es, e)
  {
    forall a | a in multiset(es) ensures Before(a, e) {
      var i :| 0 <= i < |es| && es[i] == a;
      if i < |es| - 1 {
        BeforeTransitive(a, es[|es| - 1], e);
      }
    }
  }

  lemma {:induction false} PlacedInOrder(es: seq<Entry>, e: Entry)
    requires InOrder(es)
    ensures InOrder(PlacedEntry(es, e))
  {
    if es != [] {
      var init, last := es[..|es| - 1], es[|es| - 1];
      assert es == init + [last];
      if Before(last, e) {
        BehindLast(es, e);
        InOrderAppended(es, e);
      } else {
        BeforeTotal(last, e);
        PlacedInOrder(init, e);
        forall a | a in multiset(PlacedEntry(init, e)) ensures Before(a, last) {
          if a != e {
            assert a in multiset(init);
            var i :| 0 <= i < |init| && init[i] == a;
            assert Before(es[i], es[|es| - 1]);
          }
        }
        InOrderAppended(PlacedEntry(init, e), last);
      }
    }
  }

  lemma {:induction false} SortedInOrder(es: seq<Entry>)
    ensures InOrder(SortedEntries(es))
  {
    if es != [] {
      SortedInOrder(es[..|es| - 1]);
      PlacedInOrder(SortedEntries(es[..|es| - 1]), es[|es| - 1]);
    }
  }

  // ----- The entries of a snapshot ------------------------------------------

  ghost function Uncollided(entries: seq<Entry>, scanned: seq<Entry>, casefolded: bool): (r: seq<Entry>)
    ensures forall e :: e in r <==> e in entries && !Colliding(scanned, casefolded, KeyOf(e, casefolded))
  {
    if entries == [] then [] else
      var init, last := entries[..|entries| - 1], entries[|entries| - 1];
      assert entries == init + [last];
      var prior := Uncollided(init, scanned, casefolded);
      if Colliding(scanned, casefolded, KeyOf(last, casefolded)) then prior else prior + [last]
  }

  /** The entries `build_snapshot` keeps: those whose key does not collide, each
      as often as the scan lists it, in order. */
  ghost predicate KeepsUncollided(scanned: seq<Entry>, casefolded: bool, kept: seq<Entry>) {
    multiset(kept) == multiset(Uncollided(scanned, scanned, casefolded)) && InOrder(kept)
  }

  method BuildEntries(scanned: seq<Entry>, casefolded: bool) returns (kept: seq<Entry>)
    ensures kept == SortedEntries(Uncollided(scanned, scanned, casefolded))
    ensures KeepsUncollided(scanned, casefolded, kept)
  {
    var collisions := CollidingKeys(scanned, casefolded);
    var filtered: seq<Entry> := [];
    for n := 0 to |scanned|
      invariant filtered == Uncollided(scanned[..n], scanned, casefolded)
    {
      var entry := scanned[n];
      assert scanned[..n + 1][..n] == scanned[..n];
      if CanonicalKey(entry.path, casefolded) !in collisions {
        filtered := filtered + [entry];
      }
    }
    assert scanned[..|scanned|] == scanned;
    kept := SortedEntries(filtered);
    SortedInOrder(filtered);
  }

  /** Whatever list satisfies it, a built snapshot can be indexed: collision
      removal is exactly what makes the delta's unique-key policy hold. */
  lemma BuiltSnapshotHasUniqueKeys(scanned: seq<Entry>, casefolded: bool, kept: seq<Entry>)
    requires KeepsUncollided(scanned, casefolded, kept)
    ensures Indexed(kept, casefolded).Some?
    ensures forall e | e in scanned ::
      KeyOf(e, casefolded) in Indexed(kept, casefolded).value
      <==> !Colliding(scanned, casefolded, KeyOf(e, casefolded))
  {
    var chosen := Uncollided(scanned, scanned, casefolded);
    forall e ensures e in kept <==> e in chosen {
      assert e in kept <==> e in multiset(kept);
      assert e in chosen <==> e in multiset(chosen);
    }
    IndexMeaning(kept, casefolded);
    forall key ensures !Colliding(kept, casefolded, key) {
      if a, b :| a in kept && b in kept && Clash(a, b, casefolded, key) {
        assert Colliding(scanned, casefolded, key);
      }
    }
    var m := Indexed(kept, casefolded).value;
    forall e | e in scanned
      ensures KeyOf(e, casefolded) in m <==> !Colliding(scanned, casefolded, KeyOf(e, casefolded))
    {
      if KeyOf(e, casefolded) in m {
        assert m[KeyOf(e, casefolded)] in kept;
      }
    }
  }
}
