/** Workspace snapshots: collision removal when one is built, the net delta
    between two, and the merge that adds newly observed paths to a turn baseline.

    Models core/provenance_snapshot.py, core/provenance_delta.py and
    `merge_turn_baseline` of core/provenance_manifest.py. A snapshot id is a hash
    of the ordered entries and the exclusions; hashing is taken to be injective,
    so the id is the hashed content itself.
  */
module Snapshots {
  import opened Common
  import opened Ordering

  datatype EntryKind = Regular | Symlink

  datatype Entry = Entry(
    path: string, canonicalKey: string, kind: EntryKind,
    size: int, mtime: int, mode: int, digest: string)

  datatype Exclusion = Exclusion(
    path: string, reason: string, peerAgentKey: string, peerTurnId: string,
    invocationId: string, startedSeq: int, startedAt: string, observerTurnId: string)

  /** What the id hashes of one entry: everything but the canonical key. */
  datatype EntryContent = EntryContent(
    path: string, kind: EntryKind, size: int, mtime: int, mode: int, digest: string)

  datatype SnapshotId =
    | Unavailable
    | ContentId(entries: seq<EntryContent>, exclusions: seq<Exclusion>)

  /** The fields a baseline merge compares before it merges. */
  datatype Scope = Scope(root: string, casefolded: bool, policyId: string)

  /** `stamp` is `full_reconciled_at`; `notes` stands for the remaining fields
      (issues, generated patterns, platform, status), which the id ignores too. */
  datatype Snapshot = Snapshot(
    scope: Scope, entries: seq<Entry>, reparses: seq<Entry>, exclusions: seq<Exclusion>,
    id: SnapshotId, stamp: Option<string>, notes: string)

  type Index = map<string, Entry>

  // ----- Canonical keys ---------------------------------------------------

  function FoldChar(c: char): char {
    if 'A' <= c <= 'Z' then ((c as int) + 32) as char else c
  }

  function CanonicalChar(c: char, casefolded: bool): char {
    var slashed := if c == '\\' then '/' else c;
    if casefolded then FoldChar(slashed) else slashed
  }

  function CanonicalKey(path: string, casefolded: bool): string {
    seq(|path|, i requires 0 <= i < |path| => CanonicalChar(path[i], casefolded))
  }

  predicate IsSlash(c: char) {
    c == '/' || c == '\\'
  }

  /** The same character, or both some slash, or, where case is folded, one letter in
      two cases. */
  predicate Alike(a: char, b: char, casefolded: bool) {
    || a == b || (IsSlash(a) && IsSlash(b))
    || (casefolded && (('A' <= a <= 'Z' && a as int + 32 == b as int) || ('A' <= b <= 'Z' && b as int + 32 == a as int)))
  }

  /** Two paths share a key exactly if they are alike character by character. */
  lemma SharedKeyExactly(p: string, q: string, casefolded: bool)
    ensures CanonicalKey(p, casefolded) == CanonicalKey(q, casefolded)
      <==> |p| == |q| && forall i | 0 <= i < |p| :: Alike(p[i], q[i], casefolded)
  {
    var a, b := CanonicalKey(p, casefolded), CanonicalKey(q, casefolded);
    if |p| == |q| {
      forall i | 0 <= i < |p| ensures a[i] == b[i] <==> Alike(p[i], q[i], casefolded) {
        assert a[i] == CanonicalChar(p[i], casefolded) && b[i] == CanonicalChar(q[i], casefolded);
      }
    }
  }

  function KeyOf(e: Entry, casefolded: bool): string {
    CanonicalKey(e.path, casefolded)
  }

  // ----- Snapshot ids -----------------------------------------------------

  function ContentOf(e: Entry): EntryContent {
    EntryContent(e.path, e.kind, e.size, e.mtime, e.mode, e.digest)
  }

  function IdFor(entries: seq<Entry>, exclusions: seq<Exclusion>): SnapshotId {
    ContentId(seq(|entries|, i requires 0 <= i < |entries| => ContentOf(entries[i])), exclusions)
  }

  /** Scanned snapshots: the stored canonical keys are the computed ones and the
      id is the id of the content. Every constructor of the source keeps this. */
  ghost predicate Genuine(s: Snapshot) {
    && (forall e | e in s.entries :: e.canonicalKey == KeyOf(e, s.scope.casefolded))
    && (forall e | e in s.reparses :: e.canonicalKey == KeyOf(e, s.scope.casefolded))
    && s.id == IdFor(s.entries, s.exclusions)
  }

  /** Equal ids and equal case folding leave nothing in the entry list to differ. */
  lemma SameIdSameEntries(a: Snapshot, b: Snapshot)
    requires Genuine(a) && Genuine(b)
    requires a.scope.casefolded == b.scope.casefolded
    requires a.id == b.id
    ensures a.entries == b.entries && a.exclusions == b.exclusions
  {
    assert |a.entries| == |a.id.entries| == |b.id.entries| == |b.entries|;
    forall i | 0 <= i < |a.entries| ensures a.entries[i] == b.entries[i] {
      assert a.id.entries[i] == ContentOf(a.entries[i]);
      assert b.id.entries[i] == ContentOf(b.entries[i]);
    }
  }

  /** A merge reads only content the id covers, so which of two snapshots with
      one id is on disk makes no difference to the merged id. */
  lemma SameIdSameMerge(base: Snapshot, a: Snapshot, b: Snapshot, candidates: set<string>)
    requires Genuine(a) && Genuine(b) && a.id == b.id && a.scope == b.scope == base.scope
    ensures MergeBaseline(base, a, candidates).value.id == MergeBaseline(base, b, candidates).value.id
  {
    SameIdSameEntries(a, b);
  }

  // ----- Indexing by canonical key ----------------------------------------

  /** The index of a list, or None when two of its paths share a key. */
  ghost function Indexed(entries: seq<Entry>, casefolded: bool): Option<Index> {
    if entries == [] then Some(map[]) else
      var last := entries[|entries| - 1];
      match Indexed(entries[..|entries| - 1], casefolded)
      case None => None
      case Some(m) =>
        var key := KeyOf(last, casefolded);
        if key in m && m[key].path != last.path then None else Some(m[key := last])
  }

  /** `_index_entries`; None stands for the raised ProvenanceDeltaPolicyError. */
  method IndexEntries(entries: seq<Entry>, casefolded: bool) returns (r: Option<Index>)
    ensures r == Indexed(entries, casefolded)
  {
    var indexed: Index := map[];
    for n := 0 to |entries|
      invariant Indexed(entries[..n], casefolded) == Some(indexed)
    {
      var entry := entries[n];
      assert entries[..n + 1][..n] == entries[..n];
      var key := CanonicalKey(entry.path, casefolded);
      if key in indexed && indexed[key].path != entry.path {
        IndexedPrefixFails(entries, n + 1, casefolded);
        return None;
      }
      indexed := indexed[key := entry];
    }
    assert entries[..|entries|] == entries;
    return Some(indexed);
  }

  lemma {:induction false} IndexedPrefixFails(entries: seq<Entry>, n: nat, casefolded: bool)
    requires n <= |entries| && Indexed(entries[..n], casefolded).None?
    ensures Indexed(entries, casefolded).None?
    decreases |entries|
  {
    if n < |entries| {
      var init := entries[..|entries| - 1];
      assert init[..n] == entries[..n];
      IndexedPrefixFails(init, n, casefolded);
    } else {
      assert entries[..n] == entries;
    }
  }

  /** Two different paths of the list fold to one key. */
  ghost predicate Colliding(entries: seq<Entry>, casefolded: bool, key: string) {
    exists a, b | a in entries && b in entries :: Clash(a, b, casefolded, key)
  }

  ghost predicate Clash(a: Entry, b: Entry, casefolded: bool, key: string) {
    a.path != b.path && KeyOf(a, casefolded) == key == KeyOf(b, casefolded)
  }

  /** What a collision-free list and its index have to do with each other. */
  ghost predicate IndexOf(entries: seq<Entry>, casefolded: bool, m: Index) {
    && (forall e | e in entries :: KeyOf(e, casefolded) in m && m[KeyOf(e, casefolded)].path == e.path)
    && (forall key | key in m :: m[key] in entries && KeyOf(m[key], casefolded) == key)
  }

  /** Indexing succeeds exactly when no two paths collide, and the index then
      holds one entry of the list for each key that occurs. */
  lemma {:induction false} IndexMeaning(entries: seq<Entry>, casefolded: bool)
    ensures Indexed(entries, casefolded).Some? <==> forall key :: !Colliding(entries, casefolded, key)
    ensures Indexed(entries, casefolded).Some? ==> IndexOf(entries, casefolded, Indexed(entries, casefolded).value)
  {
    if entries != [] {
      var n := |entries| - 1;
      var init, last := entries[..n], entries[n];
      var lastKey := KeyOf(last, casefolded);
      assert entries == init + [last];
      IndexMeaning(init, casefolded);
      CollidingExtends(init, last, casefolded);
      if Indexed(init, casefolded).Some? {
        var m := Indexed(init, casefolded).value;
        if lastKey in m && m[lastKey].path != last.path {
          assert m[lastKey] in init && Clash(m[lastKey], last, casefolded, lastKey);
          assert ClashesWith(init, last, casefolded, lastKey);
          assert Colliding(init + [last], casefolded, lastKey);
        } else {
          forall key ensures !Colliding(init + [last], casefolded, key) {
            if a :| a in init && Clash(a, last, casefolded, key) {
              assert false;
            }
          }
        }
      }
    }
  }

  lemma CollidingExtends(init: seq<Entry>, last: Entry, casefolded: bool)
    ensures forall key :: Colliding(init + [last], casefolded, key) <==>
      Colliding(init, casefolded, key) || ClashesWith(init, last, casefolded, key)
  {
    forall key | Colliding(init + [last], casefolded, key)
      ensures Colliding(init, casefolded, key) || ClashesWith(init, last, casefolded, key)
    {
      var a, b :| a in init + [last] && b in init + [last] && Clash(a, b, casefolded, key);
      assert Clash(b, a, casefolded, key);
    }
    forall key | Colliding(init, casefolded, key) || ClashesWith(init, last, casefolded, key)
      ensures Colliding(init + [last], casefolded, key)
    {
      var a, b :| a in init + [last] && b in init + [last] && Clash(a, b, casefolded, key);
    }
  }

  ghost predicate ClashesWith(init: seq<Entry>, last: Entry, casefolded: bool, key: string) {
    exists a | a in init :: Clash(a, last, casefolded, key)
  }

  // ----- Listing an index ---------------------------------------------------

  /** `sorted(entries.values(), key=(canonical_key, path))` of an index. The
      stored canonical key is the map key, so no two values tie. */
  function SortedValues(m: Index): (r: seq<Entry>)
    ensures |r| == |Sorted(m.Keys)|
    ensures forall i | 0 <= i < |r| :: r[i] == m[Sorted(m.Keys)[i]]
  {
    var keys := Sorted(m.Keys);
    seq(|keys|, i requires 0 <= i < |keys| => assert keys[i] in Elements(keys); m[keys[i]])
  }

  ghost predicate Keyed(m: Index, casefolded: bool) {
    forall key | key in m :: KeyOf(m[key], casefolded) == key == m[key].canonicalKey
  }

  lemma SortedValuesMembers(m: Index, casefolded: bool)
    requires Keyed(m, casefolded)
    ensures forall e: Entry :: e in SortedValues(m) <==>
      e.canonicalKey in m && m[e.canonicalKey] == e && KeyOf(e, casefolded) == e.canonicalKey
  {
    var list, keys := SortedValues(m), Sorted(m.Keys);
    forall e | e in list
      ensures e.canonicalKey in m && m[e.canonicalKey] == e && KeyOf(e, casefolded) == e.canonicalKey
    {
      var i :| 0 <= i < |list| && list[i] == e;
      assert keys[i] in Elements(keys);
    }
    forall e: Entry | e.canonicalKey in m && m[e.canonicalKey] == e ensures e in list {
      assert e.canonicalKey in Elements(keys);
      var i :| 0 <= i < |keys| && keys[i] == e.canonicalKey;
      assert list[i] == e;
    }
  }

  lemma ListedApart(m: Index, casefolded: bool, list: seq<Entry>)
    requires Keyed(m, casefolded) && forall e | e in list :: KeyOf(e, casefolded) in m && m[KeyOf(e, casefolded)] == e
    ensures forall key :: !Colliding(list, casefolded, key)
  {
    forall key, a, b | a in list && b in list ensures !Clash(a, b, casefolded, key) {
    }
  }

  /** Only one index has exactly these entries. */
  lemma IndexIsUnique(m: Index, casefolded: bool, list: seq<Entry>, back: Index)
    requires Keyed(m, casefolded) && IndexOf(list, casefolded, back)
    requires forall e: Entry :: e in list <==>
      e.canonicalKey in m && m[e.canonicalKey] == e && KeyOf(e, casefolded) == e.canonicalKey
    ensures back == m
  {
    forall key | key in m ensures key in back && back[key] == m[key] {
      assert m[key] in list;
      assert back[key] in list;
    }
    forall key | key in back ensures key in m {
      assert back[key] in list;
    }
  }

  /** Listing an index and indexing the list again loses nothing. */
  lemma IndexedSortedValues(m: Index, casefolded: bool)
    requires Keyed(m, casefolded)
    ensures Indexed(SortedValues(m), casefolded) == Some(m)
  {
    var list := SortedValues(m);
    SortedValuesMembers(m, casefolded);
    IndexMeaning(list, casefolded);
    ListedApart(m, casefolded, list);
    IndexIsUnique(m, casefolded, list, Indexed(list, casefolded).value);
  }

  // ----- Net delta --------------------------------------------------------

  datatype ChangeOp = Create | Modify | Delete | TypeChange | ModeChange

  datatype Delta = Delta(
    path: string, key: string, op: ChangeOp,
    before: Option<Entry>, after: Option<Entry>, modeChanged: bool)

  function Lookup(m: Index, key: string): Option<Entry> {
    if key in m then Some(m[key]) else None
  }

  /** `_delta_for_path`. */
  function DeltaForPath(key: string, before: Option<Entry>, after: Option<Entry>): Option<Delta> {
    match (before, after)
    case (None, None) => None
    case (None, Some(a)) => Some(Delta(a.path, key, Create, None, after, false))
    case (Some(b), None) => Some(Delta(b.path, key, Delete, before, None, false))
    case (Some(b), Some(a)) =>
      if b.kind != a.kind then
        Some(Delta(a.path, key, TypeChange, before, after, b.mode != a.mode))
      else if b.digest != a.digest then
        Some(Delta(a.path, key, Modify, before, after, b.mode != a.mode))
      else if b.mode != a.mode then
        Some(Delta(a.path, key, ModeChange, before, after, true))
      else None
  }

  function Listed(d: Option<Delta>): seq<Delta> {
    if d.Some? then [d.value] else []
  }

  ghost function DeltasOver(keys: seq<string>, before: Index, after: Index): seq<Delta> {
    if keys == [] then [] else
      var last := keys[|keys| - 1];
      DeltasOver(keys[..|keys| - 1], before, after)
      + Listed(DeltaForPath(last, Lookup(before, last), Lookup(after, last)))
  }

  ghost function NetDeltas(before: Index, after: Index): seq<Delta> {
    DeltasOver(Sorted(before.Keys + after.Keys), before, after)
  }

  /** `calculate_net_delta`; both sides are folded by the baseline's flag. */
  method CalculateNetDelta(baseline: Snapshot, current: Snapshot) returns (r: Option<seq<Delta>>)
    ensures r == NetDelta(baseline, current)
  {
    var before := IndexEntries(baseline.entries, baseline.scope.casefolded);
    if before.None? { return None; }
    var after := IndexEntries(current.entries, baseline.scope.casefolded);
    if after.None? { return None; }
    var keys := Sorted(before.value.Keys + after.value.Keys);
    var deltas: seq<Delta> := [];
    for n := 0 to |keys|
      invariant deltas == DeltasOver(keys[..n], before.value, after.value)
    {
      assert keys[..n + 1][..n] == keys[..n];
      var delta := DeltaForPath(keys[n], Lookup(before.value, keys[n]), Lookup(after.value, keys[n]));
      if delta.Some? {
        deltas := deltas + [delta.value];
      }
    }
    assert keys[..|keys|] == keys;
    return Some(deltas);
  }

  ghost function NetDelta(baseline: Snapshot, current: Snapshot): Option<seq<Delta>> {
    match Indexed(baseline.entries, baseline.scope.casefolded)
    case None => None
    case Some(before) =>
      match Indexed(current.entries, baseline.scope.casefolded)
      case None => None
      case Some(after) => Some(NetDeltas(before, after))
  }

  // What a delta reports about a path: its type, digest and mode.

  datatype Facet = Facet(kind: EntryKind, digest: string, mode: int)

  function FacetOf(e: Entry): Facet {
    Facet(e.kind, e.digest, e.mode)
  }

  function Facets(m: Index): map<string, Facet> {
    map key | key in m :: FacetOf(m[key])
  }

  /** Replays one delta on the facets it was computed from. */
  function Replay(m: map<string, Facet>, d: Delta): map<string, Facet> {
    match d.after
    case None => m - {d.key}
    case Some(e) => m[d.key := FacetOf(e)]
  }

  ghost function ReplayAll(m: map<string, Facet>, ds: seq<Delta>): map<string, Facet> {
    if ds == [] then m else Replay(ReplayAll(m, ds[..|ds| - 1]), ds[|ds| - 1])
  }

  ghost function FacetAt(m: map<string, Facet>, key: string): Option<Facet> {
    if key in m then Some(m[key]) else None
  }

  /** Replaying the net delta turns the baseline into the current state. */
  lemma DeltaReplaysToCurrent(before: Index, after: Index)
    ensures ReplayAll(Facets(before), NetDeltas(before, after)) == Facets(after)
  {
    var keys := Sorted(before.Keys + after.Keys);
    ReplayOver(keys, before, after);
    var replayed := ReplayAll(Facets(before), NetDeltas(before, after));
    forall key ensures FacetAt(replayed, key) == FacetAt(Facets(after), key) {
      assert key in keys <==> key in Elements(keys);
    }
    FacetsExtensional(replayed, Facets(after));
  }

  lemma FacetsExtensional(a: map<string, Facet>, b: map<string, Facet>)
    requires forall key :: FacetAt(a, key) == FacetAt(b, key)
    ensures a == b
  {
    forall key ensures key in a <==> key in b {
      assert FacetAt(a, key) == FacetAt(b, key);
    }
    forall key | key in a ensures a[key] == b[key] {
      assert FacetAt(a, key) == FacetAt(b, key);
    }
  }

  lemma {:induction false} ReplayOver(keys: seq<string>, before: Index, after: Index)
    ensures forall key ::
      FacetAt(ReplayAll(Facets(before), DeltasOver(keys, before, after)), key)
      == FacetAt(Facets(if key in keys then after else before), key)
  {
    if keys != [] {
      var n := |keys| - 1;
      var init, last := keys[..n], keys[n];
      ReplayOver(init, before, after);
      var ds := DeltasOver(init, before, after);
      var delta := DeltaForPath(last, Lookup(before, last), Lookup(after, last));
      assert keys == init + [last];
      if delta.None? {
        assert ds + Listed(delta) == ds;
        assert FacetAt(Facets(before), last) == FacetAt(Facets(after), last);
      } else {
        assert (ds + Listed(delta))[..|ds|] == ds;
        ReplayOne(ReplayAll(Facets(before), ds), last, before, after);
      }
    }
  }

  lemma ReplayOne(m: map<string, Facet>, key: string, before: Index, after: Index)
    requires DeltaForPath(key, Lookup(before, key), Lookup(after, key)).Some?
    ensures var d := DeltaForPath(key, Lookup(before, key), Lookup(after, key)).value;
      forall other :: FacetAt(Replay(m, d), other)
        == if other == key then FacetAt(Facets(after), key) else FacetAt(m, other)
  {
  }

  /** The operation is named by what changed. */
  ghost predicate Names(d: Delta, before: Index, after: Index) {
    && d.before == Lookup(before, d.key) && d.after == Lookup(after, d.key)
    && (d.op.Create? <==> d.before.None?)
    && (d.op.Delete? <==> d.after.None?)
    && (d.op.TypeChange? <==> d.before.Some? && d.after.Some? && d.before.value.kind != d.after.value.kind)
    && (d.op.ModeChange? ==> d.before.value.digest == d.after.value.digest)
    && (d.modeChanged <==> d.before.Some? && d.after.Some? && d.before.value.mode != d.after.value.mode)
    && d.path == (if d.after.Some? then d.after else d.before).value.path
  }

  lemma DeltaForPathNames(key: string, before: Index, after: Index)
    ensures var delta := DeltaForPath(key, Lookup(before, key), Lookup(after, key));
      && (delta.Some? ==> delta.value.key == key && Names(delta.value, before, after))
      && (delta.None? <==> FacetAt(Facets(before), key) == FacetAt(Facets(after), key))
  {
  }

  /** A delta lists exactly the keys whose facet changed, each once, in order,
      under the operation that describes the change. */
  lemma DeltaNamesEveryChangeOnce(before: Index, after: Index)
    ensures var ds := NetDeltas(before, after);
      && (forall i, j | 0 <= i < j < |ds| :: Lt(ds[i].key, ds[j].key))
      && (forall d | d in ds :: Names(d, before, after))
    ensures forall key :: (exists d | d in NetDeltas(before, after) :: d.key == key) <==>
      FacetAt(Facets(before), key) != FacetAt(Facets(after), key)
  {
    var keys, ds := Sorted(before.Keys + after.Keys), NetDeltas(before, after);
    DeltasInOrder(keys, before, after);
    forall d | d in ds ensures Names(d, before, after) {
      DeltaForPathNames(d.key, before, after);
    }
    forall key
      ensures (exists d | d in ds :: d.key == key) <==> FacetAt(Facets(before), key) != FacetAt(Facets(after), key)
    {
      DeltaForPathNames(key, before, after);
      assert key in keys <==> key in Elements(keys);
    }
  }

  lemma {:induction false} DeltasInOrder(keys: seq<string>, before: Index, after: Index)
    requires Ascending(keys)
    ensures var ds := DeltasOver(keys, before, after);
      && (forall i, j | 0 <= i < j < |ds| :: Lt(ds[i].key, ds[j].key))
      && (forall d | d in ds :: d.key in keys
            && DeltaForPath(d.key, Lookup(before, d.key), Lookup(after, d.key)) == Some(d))
      && (forall key | key in keys && DeltaForPath(key, Lookup(before, key), Lookup(after, key)).Some? ::
            exists d | d in ds :: d.key == key)
  {
    if keys != [] {
      var n := |keys| - 1;
      var init, last := keys[..n], keys[n];
      DeltasInOrder(init, before, after);
      var earlier := DeltasOver(init, before, after);
      forall d | d in earlier ensures Lt(d.key, last) {
        assert d.key in init;
        var i :| 0 <= i < n && init[i] == d.key;
        assert keys[i] == d.key;
      }
      var ds := DeltasOver(keys, before, after);
      forall key | key in keys && DeltaForPath(key, Lookup(before, key), Lookup(after, key)).Some?
        ensures exists d | d in ds :: d.key == key
      {
        if key in init {
          var d :| d in earlier && d.key == key;
          assert d in ds;
        } else {
          assert key == last;
          assert ds[|ds| - 1].key == last && ds[|ds| - 1] in ds;
        }
      }
    }
  }

  // ----- Merging newly observed paths into a turn baseline ----------------

  /** Adds the candidate keys the baseline lacks; keeps everything it has. */
  function Merged(base: Index, current: Index, candidates: set<string>): Index {
    base + map key | key in candidates && key in current && key !in base :: current[key]
  }

  /** The dict comprehension over entries: the last entry under a key wins. */
  function KeyedEntries(entries: seq<Entry>, casefolded: bool): Index {
    if entries == [] then map[] else
      var last := entries[|entries| - 1];
      KeyedEntries(entries[..|entries| - 1], casefolded)[KeyOf(last, casefolded) := last]
  }

  method MergeIndex(base: Index, current: Index, candidates: set<string>) returns (entries: Index)
    ensures entries == Merged(base, current, candidates)
  {
    entries := base;
    var rest := candidates;
    while rest != {}
      invariant rest <= candidates
      invariant entries == Merged(base, current, candidates - rest)
      decreases rest
    {
      var key :| key in rest;
      if key !in entries && key in current {
        entries := entries[key := current[key]];
      }
      rest := rest - {key};
    }
    assert candidates - {} == candidates;
  }

  function MergeList(base: seq<Entry>, current: seq<Entry>, folded: bool, candidates: set<string>): seq<Entry> {
    SortedValues(Merged(KeyedEntries(base, folded), KeyedEntries(current, folded), candidates))
  }

  /** `merge_turn_baseline`; None stands for the raised policy mismatch. */
  function MergeBaseline(base: Snapshot, current: Snapshot, candidates: set<string>): Option<Snapshot> {
    if base.scope != current.scope then None else
      var folded := base.scope.casefolded;
      var entries := MergeList(base.entries, current.entries, folded, candidates);
      var reparses := MergeList(base.reparses, current.reparses, folded, candidates);
      Some(base.(entries := entries, reparses := reparses, id := IdFor(entries, base.exclusions)))
  }

  method MergeTurnBaseline(base: Snapshot, current: Snapshot, candidates: set<string>)
    returns (merged: Option<Snapshot>)
    ensures merged == MergeBaseline(base, current, candidates)
  {
    if base.scope != current.scope {
      return None;
    }
    var folded := base.scope.casefolded;
    var entries := MergeIndex(KeyedEntries(base.entries, folded), KeyedEntries(current.entries, folded), candidates);
    var reparses := MergeIndex(KeyedEntries(base.reparses, folded), KeyedEntries(current.reparses, folded), candidates);
    var ordered := SortedValues(entries);
    merged := Some(base.(entries := ordered, reparses := SortedValues(reparses), id := IdFor(ordered, base.exclusions)));
  }

  lemma {:induction false} KeyedMeaning(entries: seq<Entry>, casefolded: bool)
    requires forall e | e in entries :: e.canonicalKey == KeyOf(e, casefolded)
    ensures Keyed(KeyedEntries(entries, casefolded), casefolded)
    ensures Indexed(entries, casefolded).Some? ==> Indexed(entries, casefolded).value == KeyedEntries(entries, casefolded)
  {
    if entries != [] {
      KeyedMeaning(entries[..|entries| - 1], casefolded);
    }
  }

  lemma KeyedSortedValues(m: Index, casefolded: bool)
    requires Keyed(m, casefolded)
    ensures KeyedEntries(SortedValues(m), casefolded) == m
    ensures forall e | e in SortedValues(m) :: e.canonicalKey == KeyOf(e, casefolded)
  {
    var list, keys := SortedValues(m), Sorted(m.Keys);
    forall i | 0 <= i < |list| ensures list[i].canonicalKey == KeyOf(list[i], casefolded) {
      assert keys[i] in Elements(keys);
    }
    IndexedSortedValues(m, casefolded);
    KeyedMeaning(list, casefolded);
  }

  lemma MergedStaysKeyed(base: Index, current: Index, candidates: set<string>, casefolded: bool)
    requires Keyed(base, casefolded) && Keyed(current, casefolded)
    ensures Keyed(Merged(base, current, candidates), casefolded)
  {
  }

  /** A merged baseline is a genuine snapshot whose index is the merged index. */
  lemma MergeBaselineIndex(base: Snapshot, current: Snapshot, candidates: set<string>)
    requires Genuine(base) && Genuine(current) && base.scope == current.scope
    ensures var merged := MergeBaseline(base, current, candidates).value;
      && Genuine(merged) && merged.scope == base.scope
      && Indexed(merged.entries, base.scope.casefolded)
         == Some(Merged(KeyedEntries(base.entries, base.scope.casefolded),
                        KeyedEntries(current.entries, base.scope.casefolded), candidates))
  {
    var folded := base.scope.casefolded;
    KeyedMeaning(base.entries, folded);
    KeyedMeaning(current.entries, folded);
    KeyedMeaning(base.reparses, folded);
    KeyedMeaning(current.reparses, folded);
    var entries := Merged(KeyedEntries(base.entries, folded), KeyedEntries(current.entries, folded), candidates);
    var reparses := Merged(KeyedEntries(base.reparses, folded), KeyedEntries(current.reparses, folded), candidates);
    IndexedSortedValues(entries, folded);
    KeyedSortedValues(entries, folded);
    KeyedSortedValues(reparses, folded);
  }

  /** Merging twice is merging once with both candidate sets. */
  lemma MergeComposes(base: Snapshot, current: Snapshot, first: set<string>, second: set<string>)
    requires Genuine(base) && Genuine(current) && base.scope == current.scope
    ensures var once := MergeBaseline(base, current, first).value;
      MergeBaseline(once, current, second) == MergeBaseline(base, current, first + second)
  {
    MergeListComposes(base.entries, current.entries, base.scope.casefolded, first, second);
    MergeListComposes(base.reparses, current.reparses, base.scope.casefolded, first, second);
  }

  lemma MergeListComposes(
      base: seq<Entry>, current: seq<Entry>, folded: bool, first: set<string>, second: set<string>)
    requires forall e | e in base :: e.canonicalKey == KeyOf(e, folded)
    requires forall e | e in current :: e.canonicalKey == KeyOf(e, folded)
    ensures MergeList(MergeList(base, current, folded, first), current, folded, second)
      == MergeList(base, current, folded, first + second)
  {
    KeyedMeaning(base, folded);
    KeyedMeaning(current, folded);
    var b, c := KeyedEntries(base, folded), KeyedEntries(current, folded);
    MergedStaysKeyed(b, c, first, folded);
    KeyedSortedValues(Merged(b, c, first), folded);
    MergedTwice(b, c, first, second);
  }

  lemma MergedTwice(base: Index, current: Index, first: set<string>, second: set<string>)
    ensures Merged(Merged(base, current, first), current, second) == Merged(base, current, first + second)
  {
  }

  lemma MergeIdempotent(base: Snapshot, current: Snapshot, candidates: set<string>)
    requires Genuine(base) && Genuine(current) && base.scope == current.scope
    ensures var once := MergeBaseline(base, current, candidates).value;
      MergeBaseline(once, current, candidates) == Some(once)
  {
    MergeComposes(base, current, candidates, candidates);
    assert candidates + candidates == candidates;
  }

  ghost function WithoutCreates(ds: seq<Delta>, candidates: set<string>): seq<Delta> {
    if ds == [] then [] else
      var last := ds[|ds| - 1];
      WithoutCreates(ds[..|ds| - 1], candidates)
      + if last.op.Create? && last.key in candidates then [] else [last]
  }

  /** What a merged baseline hides from the next delta: precisely the creations
      under the candidate keys, in the same order. */
  lemma MergeHidesCandidateCreates(base: Snapshot, current: Snapshot, candidates: set<string>)
    requires Genuine(base) && Genuine(current) && base.scope == current.scope
    requires NetDelta(base, current).Some?
    ensures NetDelta(MergeBaseline(base, current, candidates).value, current)
      == Some(WithoutCreates(NetDelta(base, current).value, candidates))
  {
    var folded := base.scope.casefolded;
    MergeBaselineIndex(base, current, candidates);
    KeyedMeaning(base.entries, folded);
    KeyedMeaning(current.entries, folded);
    var before, after := Indexed(base.entries, folded).value, Indexed(current.entries, folded).value;
    var merged := Merged(before, after, candidates);
    assert merged.Keys + after.Keys == before.Keys + after.Keys;
    HiddenOver(Sorted(before.Keys + after.Keys), before, after, candidates);
  }

  lemma {:induction false} HiddenOver(keys: seq<string>, before: Index, after: Index, candidates: set<string>)
    ensures DeltasOver(keys, Merged(before, after, candidates), after)
      == WithoutCreates(DeltasOver(keys, before, after), candidates)
  {
    if keys != [] {
      var n := |keys| - 1;
      var last := keys[n];
      HiddenOver(keys[..n], before, after, candidates);
      HiddenAt(last, before, after, candidates);
      var ds := DeltasOver(keys[..n], before, after);
      var delta := DeltaForPath(last, Lookup(before, last), Lookup(after, last));
      if delta.None? {
        assert ds + Listed(delta) == ds;
      } else {
        assert (ds + Listed(delta))[..|ds|] == ds;
      }
    }
  }

  lemma HiddenAt(key: string, before: Index, after: Index, candidates: set<string>)
    ensures var delta := DeltaForPath(key, Lookup(before, key), Lookup(after, key));
      DeltaForPath(key, Lookup(Merged(before, after, candidates), key), Lookup(after, key))
      == if delta.Some? && delta.value.op.Create? && delta.value.key in candidates then None else delta
  {
  }
}
