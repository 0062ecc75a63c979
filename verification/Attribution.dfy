/** The path attribution index: which agents have unsettled revisions of a path.

    Models `_record_path_attribution`, `_record_owner` and
    `_settle_verified_attribution` of core/ledger_v2.py. Paths are canonical keys;
    the empty key stands for an item whose path the reducer skips.
  */
module PathAttribution {
  import opened Common

  const MAX_PATHS := 10_000
  const MAX_OWNERS := 8

  datatype Owner = Owner(
    agent: string, turnId: string, revisionSeq: nat, generation: nat,
    digest: string, invocationId: string, settled: bool)

  datatype Status = Exclusive | Contended

  datatype PathEntry = PathEntry(generation: nat, status: Status, owners: seq<Owner>, overflow: bool)

  /** `order` is the dictionary's iteration order over `entries`. */
  datatype Attribution = Attribution(
    order: seq<string>, entries: map<string, PathEntry>, capacityExceeded: bool)

  /** The after digest of one changed path. */
  datatype Content = Deleted | Malformed | Digest(value: string)

  datatype PathItem = PathItem(key: string, after: Content)

  /** A change event as the index reads it. `generation` is None when the
      payload's is missing or not an integer. */
  datatype Change = Change(
    owner: Option<string>, agent: string, agentKey: string, turnId: string, seqNo: nat,
    generation: Option<int>, invocationId: string, contended: bool, paths: seq<PathItem>)

  datatype Revision = Revision(key: string, after: Content)

  datatype Verification = Verification(
    success: bool, agentKey: string, seqNo: nat, throughSeq: nat, covered: seq<Revision>, hasCovers: bool)

  // ----- Owners of one path -------------------------------------------------

  predicate IsLive(e: PathEntry) {
    exists o | o in e.owners :: !o.settled
  }

  function FindOwner(owners: seq<Owner>, agent: string): (r: Option<nat>)
    ensures r.Some? ==> r.value < |owners| && owners[r.value].agent == agent
    ensures r.None? ==> forall o | o in owners :: o.agent != agent
  {
    if owners == [] then None
    else if owners[0].agent == agent then Some(0)
    else
      match FindOwner(owners[1..], agent)
      case None => None
      case Some(i) => Some(i + 1)
  }

  /** The settled owner with the smallest revision, the first of equals. */
  function OldestSettled(owners: seq<Owner>): (r: Option<nat>)
    ensures r.Some? ==> r.value < |owners| && owners[r.value].settled
    ensures r.Some? ==> forall o | o in owners && o.settled :: owners[r.value].revisionSeq <= o.revisionSeq
    ensures r.Some? ==> forall i | 0 <= i < r.value && owners[i].settled :: owners[r.value].revisionSeq < owners[i].revisionSeq
    ensures r.None? <==> forall o | o in owners :: !o.settled
  {
    if owners == [] then None else
      match OldestSettled(owners[1..])
      case None => if owners[0].settled then Some(0) else None
      case Some(i) =>
        if owners[0].settled && owners[0].revisionSeq <= owners[i + 1].revisionSeq then Some(0) else Some(i + 1)
  }

  function SettleOthers(owners: seq<Owner>, agent: string, digest: string): (r: seq<Owner>)
    ensures |r| == |owners|
    ensures forall i | 0 <= i < |r| ::
      r[i] == if owners[i].agent != agent && owners[i].digest != digest
              then owners[i].(settled := true) else owners[i]
  {
    seq(|owners|, i requires 0 <= i < |owners| =>
      if owners[i].agent != agent && owners[i].digest != digest
      then owners[i].(settled := true) else owners[i])
  }

  function CountUnsettled(owners: seq<Owner>): nat {
    if owners == [] then 0
    else CountUnsettled(owners[..|owners| - 1]) + if owners[|owners| - 1].settled then 0 else 1
  }

  /** `_refresh_attribution_status`. */
  function Refreshed(e: PathEntry, sourceContended: bool): PathEntry {
    e.(status := if sourceContended || e.overflow || CountUnsettled(e.owners) > 1 then Contended else Exclusive)
  }

  function RevisionOf(c: Change, generation: nat, digest: string): Owner {
    Owner(c.agentKey, c.turnId, c.seqNo, generation, digest, c.invocationId, false)
  }

  /** `_record_owner`. */
  function OwnerRecorded(e: PathEntry, c: Change, generation: nat, digest: string): PathEntry {
    var own := FindOwner(e.owners, c.agentKey);
    if own.Some? && c.seqNo < e.owners[own.value].revisionSeq then e
    else if own.None? && |e.owners| >= MAX_OWNERS && OldestSettled(e.owners).None? then
      e.(generation := generation, status := Contended, overflow := true)
    else
      var revision := RevisionOf(c, generation, digest);
      var placed :=
        if own.Some? then e.owners[own.value := revision]
        else if |e.owners| >= MAX_OWNERS then
          var oldest := OldestSettled(e.owners).value;
          e.owners[..oldest] + e.owners[oldest + 1..] + [revision]
        else e.owners + [revision];
      Refreshed(e.(generation := generation, owners := SettleOthers(placed, c.agentKey, digest)), c.contended)
  }

  // ----- The index ----------------------------------------------------------

  function Removed(a: Attribution, key: string): Attribution {
    if key in a.entries then a.(order := Without(a.order, key), entries := a.entries - {key}) else a
  }

  function Stored(a: Attribution, key: string, e: PathEntry): Attribution {
    a.(order := if key in a.entries then a.order else a.order + [key], entries := a.entries[key := e])
  }

  /** The first key of the iteration order whose owners are all settled. */
  function FirstAged(order: seq<string>, entries: map<string, PathEntry>): (r: Option<string>)
    ensures r.Some? ==> r.value in order && r.value in entries && !IsLive(entries[r.value])
    ensures r.None? ==> forall k | k in order && k in entries :: IsLive(entries[k])
  {
    if order == [] then None
    else if order[0] in entries && !IsLive(entries[order[0]]) then Some(order[0])
    else FirstAged(order[1..], entries)
  }

  /** The loop's state: the index and the running count of live paths. */
  datatype Work = Work(index: Attribution, live: int)

  function Exceeded(w: Work): Work {
    w.(index := w.index.(capacityExceeded := true))
  }

  function Updated(w: Work, key: string, e: PathEntry, c: Change, generation: nat, digest: string): Work {
    var recorded := OwnerRecorded(e, c, generation, digest);
    Work(Stored(w.index, key, recorded), if !IsLive(e) && IsLive(recorded) then w.live + 1 else w.live)
  }

  /** A new key: make room if the index is full, then record its first owner. */
  function Created(w: Work, key: string, c: Change, generation: nat, digest: string): Work {
    var blank := PathEntry(generation, Exclusive, [], false);
    if w.live >= MAX_PATHS then Exceeded(w)
    else if |w.index.entries| >= MAX_PATHS then
      match FirstAged(w.index.order, w.index.entries)
      case None => Exceeded(w)
      case Some(aged) => Updated(w.(index := Removed(w.index, aged)), key, blank, c, generation, digest)
    else Updated(w, key, blank, c, generation, digest)
  }

  /** One iteration of the loop of `_record_path_attribution`. */
  function ItemRecorded(w: Work, c: Change, generation: nat, item: PathItem): Work {
    if item.key == "" then w
    else if item.key in w.index.entries then
      var e := w.index.entries[item.key];
      if generation < e.generation then w else
        match item.after
        case Deleted => Work(Removed(w.index, item.key), if IsLive(e) then w.live - 1 else w.live)
        case Malformed => w
        case Digest(d) =>
          if !IsLive(e) && w.live >= MAX_PATHS then Exceeded(w)
          else Updated(w, item.key, e, c, generation, d)
    else if item.after.Digest? then Created(w, item.key, c, generation, item.after.value)
    else w
  }

  function ItemsRecorded(w: Work, c: Change, generation: nat, items: seq<PathItem>): Work {
    if items == [] then w
    else ItemRecorded(ItemsRecorded(w, c, generation, items[..|items| - 1]), c, generation, items[|items| - 1])
  }

  /** The filter of `_record_path_attribution`: the owner is the event's agent
      and the generation is a positive integer. */
  predicate Accepted(c: Change) {
    && c.owner.Some? && c.owner.value != "" && c.owner.value == c.agent
    && c.generation.Some? && c.generation.value > 0
  }

  function LiveKeys(entries: map<string, PathEntry>): set<string> {
    set k | k in entries && IsLive(entries[k])
  }

  function Recorded(a: Attribution, c: Change): Attribution {
    if Accepted(c) then ItemsRecorded(Work(a, |LiveKeys(a.entries)|), c, c.generation.value, c.paths).index else a
  }

  // ----- Settlement by verification -----------------------------------------

  predicate Settles(v: Verification, after: Content, o: Owner) {
    o.agent == v.agentKey && after == Digest(o.digest)
    && o.revisionSeq <= v.throughSeq && o.revisionSeq < v.seqNo
  }

  function OwnersSettled(owners: seq<Owner>, v: Verification, after: Content): (r: seq<Owner>)
    ensures |r| == |owners|
    ensures forall i | 0 <= i < |r| ::
      r[i] == if Settles(v, after, owners[i]) then owners[i].(settled := true) else owners[i]
  {
    seq(|owners|, i requires 0 <= i < |owners| =>
      if Settles(v, after, owners[i]) then owners[i].(settled := true) else owners[i])
  }

  function RevisionSettled(a: Attribution, v: Verification, r: Revision): Attribution {
    if r.key in a.entries && exists o | o in a.entries[r.key].owners :: Settles(v, r.after, o) then
      var e := a.entries[r.key];
      Stored(a, r.key, Refreshed(e.(owners := OwnersSettled(e.owners, v, r.after)), false))
    else a
  }

  function RevisionsSettled(a: Attribution, v: Verification, rs: seq<Revision>): Attribution {
    if rs == [] then a
    else RevisionSettled(RevisionsSettled(a, v, rs[..|rs| - 1]), v, rs[|rs| - 1])
  }

  /** `_settle_verified_attribution`. */
  function VerifiedSettled(a: Attribution, v: Verification): Attribution {
    if v.success && v.hasCovers then RevisionsSettled(a, v, v.covered) else a
  }

  // ----- The index as the reducer updates it --------------------------------

  class AttributionIndex {
    var order: seq<string>
    var entries: map<string, PathEntry>
    var capacityExceeded: bool

    ghost function Value(): Attribution
      reads this
    {
      Attribution(order, entries, capacityExceeded)
    }

    /** `_live_path_count`. */
    method CountLive() returns (live: nat)
      requires Listing(order, entries)
      ensures live == |LiveKeys(entries)|
    {
      live := 0;
      ghost var counted: set<string> := {};
      for n := 0 to |order|
        invariant counted == set k | k in order[..n] && IsLive(entries[k])
        invariant live == |counted|
      {
        var key := order[n];
        assert order[..n + 1] == order[..n] + [key];
        assert key !in order[..n] by { DistinctPrefix(order, n); }
        if IsLive(entries[key]) {
          live := live + 1;
          counted := counted + {key};
        }
      }
      assert order[..|order|] == order;
      assert counted == LiveKeys(entries);
    }

    /** `_record_path_attribution`. */
    method Record(c: Change)
      requires Listing(order, entries)
      modifies this
      ensures Value() == Recorded(old(Value()), c)
    {
      if c.owner.None? || c.owner.value == "" || c.owner.value != c.agent
         || c.generation.None? || c.generation.value <= 0 {
        return;
      }
      var generation: nat := c.generation.value;
      var live: int := CountLive();
      for n := 0 to |c.paths|
        invariant Work(Value(), live)
          == ItemsRecorded(Work(old(Value()), |LiveKeys(old(entries))|), c, generation, c.paths[..n])
      {
        assert c.paths[..n + 1][..n] == c.paths[..n];
        live := RecordItem(live, c, generation, c.paths[n]);
      }
      assert c.paths[..|c.paths|] == c.paths;
    }

    method RecordItem(live: int, c: Change, generation: nat, item: PathItem) returns (live': int)
      modifies this
      ensures Work(Value(), live') == ItemRecorded(Work(old(Value()), live), c, generation, item)
    {
      live' := live;
      if item.key == "" {
        return;
      }
      var known := item.key in entries;
      if known && generation < entries[item.key].generation {
        return;
      }
      var wasLive := known && IsLive(entries[item.key]);
      if item.after == Deleted {
        if known {
          order, entries := Without(order, item.key), entries - {item.key};
        }
        if wasLive {
          live' := live - 1;
        }
        return;
      }
      if item.after.Malformed? {
        return;
      }
      var existing := PathEntry(generation, Exclusive, [], false);
      if !known {
        if live >= MAX_PATHS {
          capacityExceeded := true;
          return;
        }
        if |entries| >= MAX_PATHS {
          var aged := FirstAged(order, entries);
          if aged.None? {
            capacityExceeded := true;
            return;
          }
          order, entries := Without(order, aged.value), entries - {aged.value};
        }
      } else {
        existing := entries[item.key];
        if !wasLive && live >= MAX_PATHS {
          capacityExceeded := true;
          return;
        }
      }
      var recorded := OwnerRecorded(existing, c, generation, item.after.value);
      if item.key !in entries {
        order := order + [item.key];
      }
      entries := entries[item.key := recorded];
      if !wasLive && IsLive(recorded) {
        live' := live + 1;
      }
    }

    /** `_settle_verified_attribution`. */
    method Settle(v: Verification)
      modifies this
      ensures Value() == VerifiedSettled(old(Value()), v)
    {
      if !v.success || !v.hasCovers {
        return;
      }
      for n := 0 to |v.covered|
        invariant Value() == RevisionsSettled(old(Value()), v, v.covered[..n])
      {
        assert v.covered[..n + 1][..n] == v.covered[..n];
        var r := v.covered[n];
        if r.key in entries {
          var e := entries[r.key];
          var owners, changed := SettleOwners(e.owners, v, r.after);
          if changed {
            entries := entries[r.key := Refreshed(e.(owners := owners), false)];
          }
        }
      }
      assert v.covered[..|v.covered|] == v.covered;
    }

    method SettleOwners(owners: seq<Owner>, v: Verification, after: Content)
      returns (r: seq<Owner>, changed: bool)
      ensures r == OwnersSettled(owners, v, after)
      ensures changed <==> exists o | o in owners :: Settles(v, after, o)
    {
      r, changed := owners, false;
      for n := 0 to |owners|
        invariant |r| == |owners|
        invariant forall i | 0 <= i < n ::
          r[i] == if Settles(v, after, owners[i]) then owners[i].(settled := true) else owners[i]
        invariant forall i | n <= i < |owners| :: r[i] == owners[i]
        invariant changed <==> exists i | 0 <= i < n :: Settles(v, after, owners[i])
      {
        if Settles(v, after, owners[n]) {
          r := r[n := owners[n].(settled := true)];
          changed := true;
        }
      }
    }
  }

  ghost predicate Listing(order: seq<string>, entries: map<string, PathEntry>) {
    Distinct(order) && forall k :: k in order <==> k in entries
  }

  lemma DistinctPrefix(order: seq<string>, n: nat)
    requires Distinct(order) && n < |order|
    ensures order[n] !in order[..n]
  {
  }
}
