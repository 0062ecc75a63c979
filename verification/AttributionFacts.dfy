/** What every change and every verification keeps about the attribution index,
    and exactly when an agent's unsettled revision of a path stops being listed.
  */
module AttributionFacts {
  import opened Common
  import opened PathAttribution

  // ----- One entry ----------------------------------------------------------

  ghost predicate OneRevisionPerAgent(owners: seq<Owner>) {
    forall i, j | 0 <= i < j < |owners| :: owners[i].agent != owners[j].agent
  }

  ghost predicate SharedDigest(owners: seq<Owner>) {
    forall o, u | o in owners && u in owners && !o.settled && !u.settled :: o.digest == u.digest
  }

  ghost predicate AtMostOneUnsettled(owners: seq<Owner>) {
    forall i, j | 0 <= i < j < |owners| :: owners[i].settled || owners[j].settled
  }

  ghost predicate OwnersOk(owners: seq<Owner>) {
    |owners| <= MAX_OWNERS && OneRevisionPerAgent(owners) && SharedDigest(owners)
  }

  ghost predicate EntryOk(e: PathEntry) {
    && OwnersOk(e.owners)
    && (e.status == Exclusive ==> AtMostOneUnsettled(e.owners) && !e.overflow)
  }

  ghost predicate AllSettled(owners: seq<Owner>) {
    forall i | 0 <= i < |owners| :: owners[i].settled
  }

  lemma {:induction false} NoneCounted(owners: seq<Owner>)
    ensures CountUnsettled(owners) == 0 <==> AllSettled(owners)
  {
    if owners != [] {
      var init := owners[..|owners| - 1];
      NoneCounted(init);
      assert forall i | 0 <= i < |init| :: owners[i] == init[i];
    }
  }

  lemma {:induction false} CountMeaning(owners: seq<Owner>)
    ensures CountUnsettled(owners) <= 1 <==> AtMostOneUnsettled(owners)
  {
    if owners != [] {
      var init, last := owners[..|owners| - 1], owners[|owners| - 1];
      CountMeaning(init);
      NoneCounted(init);
      OneMore(init, last);
      assert owners == init + [last];
    }
  }

  lemma OneMore(init: seq<Owner>, last: Owner)
    ensures AtMostOneUnsettled(init + [last]) <==> AtMostOneUnsettled(init) && (last.settled || AllSettled(init))
  {
    var owners := init + [last];
    assert forall i | 0 <= i < |init| :: owners[i] == init[i];
    assert owners[|init|] == last;
  }

  lemma RefreshedOk(e: PathEntry, sourceContended: bool)
    requires OwnersOk(e.owners)
    ensures EntryOk(Refreshed(e, sourceContended))
    ensures Refreshed(e, sourceContended).status.Exclusive? <==>
      !sourceContended && !e.overflow && AtMostOneUnsettled(e.owners)
  {
    CountMeaning(e.owners);
  }

  /** The owner list into which the revision was placed, before others settle. */
  ghost function Placed(owners: seq<Owner>, o: Owner): seq<Owner>
    requires FindOwner(owners, o.agent).None? ==> |owners| < MAX_OWNERS || OldestSettled(owners).Some?
  {
    var own := FindOwner(owners, o.agent);
    if own.Some? then owners[own.value := o]
    else if |owners| >= MAX_OWNERS then
      var oldest := OldestSettled(owners).value;
      owners[..oldest] + owners[oldest + 1..] + [o]
    else owners + [o]
  }

  /** Placing a revision keeps one per agent, keeps every unsettled owner of
      another agent, and lists the revision. */
  ghost predicate PlacedWell(owners: seq<Owner>, o: Owner, r: seq<Owner>) {
    && 0 < |r| <= MAX_OWNERS && OneRevisionPerAgent(r) && o in r
    && (forall x | x in r && x.agent != o.agent :: x in owners)
    && (forall x | x in owners && x.agent != o.agent && !x.settled :: x in r)
    && (forall x | x in r && x.agent == o.agent :: x == o)
  }

  lemma ReplacedWell(owners: seq<Owner>, o: Owner, own: nat)
    requires OwnersOk(owners) && own < |owners| && owners[own].agent == o.agent
    ensures PlacedWell(owners, o, owners[own := o])
  {
    var r := owners[own := o];
    assert r[own] == o;
    forall x | x in owners && x.agent != o.agent ensures x in r {
      var i :| 0 <= i < |owners| && owners[i] == x;
      assert r[i] == x;
    }
    forall x | x in r ensures x == o || (x.agent != o.agent && x in owners) {
      var i :| 0 <= i < |r| && r[i] == x;
    }
  }

  lemma AppendedWell(owners: seq<Owner>, kept: seq<Owner>, o: Owner)
    requires |kept| < MAX_OWNERS && OneRevisionPerAgent(kept)
    requires forall x | x in owners :: x.agent != o.agent
    requires forall x | x in kept :: x in owners
    requires forall x | x in owners && !x.settled :: x in kept
    ensures PlacedWell(owners, o, kept + [o])
  {
    var r := kept + [o];
    assert r[|kept|] == o;
    forall i, j | 0 <= i < j < |r| ensures r[i].agent != r[j].agent {
      if j == |kept| { assert kept[i] in owners; }
    }
  }

  lemma DroppedSettled(owners: seq<Owner>, at: nat)
    requires OneRevisionPerAgent(owners) && at < |owners| && owners[at].settled
    ensures var kept := owners[..at] + owners[at + 1..];
      && OneRevisionPerAgent(kept)
      && (forall x | x in kept :: x in owners)
      && (forall x | x in owners && !x.settled :: x in kept)
  {
    var kept := owners[..at] + owners[at + 1..];
    forall x | x in owners && !x.settled ensures x in kept {
      var i :| 0 <= i < |owners| && owners[i] == x;
      if i < at { assert kept[i] == x; } else { assert kept[i - 1] == x; }
    }
  }

  lemma PlacedFacts(owners: seq<Owner>, o: Owner)
    requires OwnersOk(owners)
    requires FindOwner(owners, o.agent).None? ==> |owners| < MAX_OWNERS || OldestSettled(owners).Some?
    ensures PlacedWell(owners, o, Placed(owners, o))
  {
    var own := FindOwner(owners, o.agent);
    if own.Some? {
      ReplacedWell(owners, o, own.value);
    } else if |owners| >= MAX_OWNERS {
      var oldest := OldestSettled(owners).value;
      DroppedSettled(owners, oldest);
      AppendedWell(owners, owners[..oldest] + owners[oldest + 1..], o);
    } else {
      AppendedWell(owners, owners, o);
    }
  }

  lemma SettleOthersFacts(placed: seq<Owner>, o: Owner)
    requires |placed| <= MAX_OWNERS && OneRevisionPerAgent(placed) && o in placed
    requires forall x | x in placed && x.agent == o.agent :: x == o
    ensures var r := SettleOthers(placed, o.agent, o.digest);
      && OwnersOk(r) && o in r
      && (forall x | x in r && !x.settled :: x.digest == o.digest && x in placed)
      && (forall x | x in placed && !x.settled && x.digest == o.digest :: x in r)
  {
    var r := SettleOthers(placed, o.agent, o.digest);
    forall x | x in placed && x.digest == o.digest ensures x in r {
      var i :| 0 <= i < |placed| && placed[i] == x;
      assert r[i] == x;
    }
    forall x | x in r && !x.settled ensures x.digest == o.digest && x in placed {
      var i :| 0 <= i < |r| && r[i] == x;
      assert placed[i] in placed;
    }
  }

  /** A change takes effect on an entry unless it is older than the agent's own
      revision or there is no owner slot left to take. */
  ghost predicate TakesEffect(e: PathEntry, c: Change) {
    var own := FindOwner(e.owners, c.agentKey);
    if own.Some? then e.owners[own.value].revisionSeq <= c.seqNo
    else |e.owners| < MAX_OWNERS || OldestSettled(e.owners).Some?
  }

  ghost predicate Holds(e: PathEntry, agent: string) {
    exists o | o in e.owners :: o.agent == agent && !o.settled
  }

  ghost predicate HoldsDigest(e: PathEntry, agent: string, digest: string) {
    exists o | o in e.owners :: o.agent == agent && !o.settled && o.digest == digest
  }

  /** `_record_owner` in full: what is listed afterwards. */
  lemma OwnerRecordedFacts(e: PathEntry, c: Change, generation: nat, digest: string)
    requires EntryOk(e)
    ensures var r := OwnerRecorded(e, c, generation, digest);
      && EntryOk(r)
      && (e.owners == [] ==> TakesEffect(e, c))
      && r.owners != []
      && (TakesEffect(e, c) ==>
            && RevisionOf(c, generation, digest) in r.owners && IsLive(r) && r.generation == generation
            && r.overflow == e.overflow
            && (r.status.Exclusive? <==> !c.contended && !e.overflow && AtMostOneUnsettled(r.owners))
            && forall agent :: Holds(r, agent) <==> agent == c.agentKey || HoldsDigest(e, agent, digest))
      && (!TakesEffect(e, c) ==>
            && r.owners == e.owners
            && (FindOwner(e.owners, c.agentKey).None? ==> r.overflow && r.status == Contended)
            && (FindOwner(e.owners, c.agentKey).Some? ==> r == e))
  {
    if TakesEffect(e, c) {
      var o := RevisionOf(c, generation, digest);
      var placed := Placed(e.owners, o);
      PlacedFacts(e.owners, o);
      SettleOthersFacts(placed, o);
      var owners := SettleOthers(placed, c.agentKey, digest);
      RefreshedOk(e.(generation := generation, owners := owners), c.contended);
      var r := OwnerRecorded(e, c, generation, digest);
      assert r.owners == owners;
      assert o in owners && !o.settled;
      forall agent ensures Holds(r, agent) <==> agent == c.agentKey || HoldsDigest(e, agent, digest) {
        RecordedHolders(e, o, owners, placed, agent);
      }
    }
  }

  lemma RecordedHolders(e: PathEntry, o: Owner, owners: seq<Owner>, placed: seq<Owner>, agent: string)
    requires !o.settled && o in owners
    requires forall x | x in owners && !x.settled :: x.digest == o.digest && x in placed
    requires forall x | x in placed && !x.settled && x.digest == o.digest :: x in owners
    requires forall x | x in placed && x.agent != o.agent :: x in e.owners
    requires forall x | x in e.owners && x.agent != o.agent && !x.settled :: x in placed
    ensures (exists x | x in owners :: x.agent == agent && !x.settled)
      <==> agent == o.agent || HoldsDigest(e, agent, o.digest)
  {
    if agent != o.agent && HoldsDigest(e, agent, o.digest) {
      var x :| x in e.owners && x.agent == agent && !x.settled && x.digest == o.digest;
      assert x in owners;
    }
    if x :| x in owners && x.agent == agent && !x.settled {
      assert agent == o.agent || x in e.owners;
    }
  }

  // ----- The whole index ----------------------------------------------------

  ghost predicate IndexOk(a: Attribution) {
    && Listing(a.order, a.entries)
    && |a.entries| <= MAX_PATHS
    && (forall k | k in a.entries :: EntryOk(a.entries[k]) && a.entries[k].owners != [])
  }

  /** The loop invariant: the running counter is the true count. */
  ghost predicate WorkOk(w: Work) {
    IndexOk(w.index) && w.live == |LiveKeys(w.index.entries)|
  }

  lemma LiveKeysBound(entries: map<string, PathEntry>)
    ensures |LiveKeys(entries)| <= |entries|
    ensures |LiveKeys(entries)| == |entries| <==> forall k | k in entries :: IsLive(entries[k])
  {
    assert LiveKeys(entries) <= entries.Keys;
    SubsetSize(LiveKeys(entries), entries.Keys);
    if forall k | k in entries :: IsLive(entries[k]) {
      assert LiveKeys(entries) == entries.Keys;
    }
  }

  lemma RemovedFacts(w: Work, key: string)
    requires WorkOk(w) && key in w.index.entries
    ensures IndexOk(Removed(w.index, key))
    ensures LiveKeys(Removed(w.index, key).entries) == LiveKeys(w.index.entries) - {key}
    ensures |Removed(w.index, key).entries| == |w.index.entries| - 1
    ensures key in LiveKeys(w.index.entries) <==> IsLive(w.index.entries[key])
  {
    WithoutDistinct(w.index.order, key);
    assert (w.index.entries - {key}).Keys == w.index.entries.Keys - {key};
  }

  lemma StoredLive(a: Attribution, key: string, e: PathEntry)
    ensures LiveKeys(Stored(a, key, e).entries)
      == if IsLive(e) then LiveKeys(a.entries) + {key} else LiveKeys(a.entries) - {key}
  {
  }

  lemma StoredOk(a: Attribution, key: string, e: PathEntry)
    requires IndexOk(a) && EntryOk(e) && e.owners != []
    requires key in a.entries || |a.entries| < MAX_PATHS
    ensures IndexOk(Stored(a, key, e))
  {
    assert a.entries[key := e].Keys == a.entries.Keys + {key};
    var r := Stored(a, key, e);
    forall k | k in r.entries ensures EntryOk(r.entries[k]) && r.entries[k].owners != [] {
    }
    assert Listing(r.order, r.entries);
  }

  /** Recording on an entry keeps the counter right: a live entry stays live and
      a settled one comes alive exactly when the counter is raised. */
  lemma UpdatedOk(w: Work, key: string, e: PathEntry, c: Change, generation: nat, digest: string)
    requires WorkOk(w) && EntryOk(e)
    requires if key in w.index.entries then e == w.index.entries[key] else e.owners == [] && |w.index.entries| < MAX_PATHS
    ensures WorkOk(Updated(w, key, e, c, generation, digest))
  {
    var r := OwnerRecorded(e, c, generation, digest);
    RecordedIsOk(e, c, generation, digest);
    StoredOk(w.index, key, r);
    LiveCounted(w, key, e, r);
  }

  lemma RecordedIsOk(e: PathEntry, c: Change, generation: nat, digest: string)
    requires EntryOk(e)
    ensures var r := OwnerRecorded(e, c, generation, digest);
      EntryOk(r) && r.owners != [] && (IsLive(e) ==> IsLive(r))
  {
    OwnerRecordedFacts(e, c, generation, digest);
  }

  lemma LiveCounted(w: Work, key: string, e: PathEntry, r: PathEntry)
    requires w.live == |LiveKeys(w.index.entries)| && (IsLive(e) ==> IsLive(r))
    requires if key in w.index.entries then e == w.index.entries[key] else !IsLive(e)
    ensures |LiveKeys(Stored(w.index, key, r).entries)| == if !IsLive(e) && IsLive(r) then w.live + 1 else w.live
  {
    StoredLive(w.index, key, r);
    assert key in LiveKeys(w.index.entries) <==> key in w.index.entries && IsLive(e);
    if IsLive(e) {
      assert LiveKeys(w.index.entries) + {key} == LiveKeys(w.index.entries);
    } else {
      assert LiveKeys(w.index.entries) - {key} == LiveKeys(w.index.entries);
    }
  }

  lemma AgedExists(a: Attribution)
    requires IndexOk(a) && |LiveKeys(a.entries)| < |a.entries|
    ensures FirstAged(a.order, a.entries).Some?
  {
    LiveKeysBound(a.entries);
  }

  lemma CreatedOk(w: Work, key: string, c: Change, generation: nat, digest: string)
    requires WorkOk(w) && key !in w.index.entries
    ensures WorkOk(Created(w, key, c, generation, digest))
  {
    var blank := PathEntry(generation, Exclusive, [], false);
    if w.live < MAX_PATHS {
      if |w.index.entries| >= MAX_PATHS {
        AgedExists(w.index);
        EvictionOk(w, FirstAged(w.index.order, w.index.entries).value);
        UpdatedOk(w.(index := Removed(w.index, FirstAged(w.index.order, w.index.entries).value)), key, blank, c, generation, digest);
      } else {
        UpdatedOk(w, key, blank, c, generation, digest);
      }
    }
  }

  /** Evicting a fully settled entry leaves the counter right. */
  lemma EvictionOk(w: Work, aged: string)
    requires WorkOk(w) && aged in w.index.entries && !IsLive(w.index.entries[aged])
    ensures WorkOk(w.(index := Removed(w.index, aged)))
    ensures |Removed(w.index, aged).entries| == |w.index.entries| - 1
  {
    RemovedFacts(w, aged);
    assert LiveKeys(w.index.entries) - {aged} == LiveKeys(w.index.entries);
  }

  lemma ItemRecordedOk(w: Work, c: Change, generation: nat, item: PathItem)
    requires WorkOk(w)
    ensures WorkOk(ItemRecorded(w, c, generation, item))
  {
    if item.key in w.index.entries {
      if item.after.Deleted? {
        RemovedFacts(w, item.key);
      } else if item.after.Digest? {
        UpdatedOk(w, item.key, w.index.entries[item.key], c, generation, item.after.value);
      }
    } else if item.after.Digest? {
      CreatedOk(w, item.key, c, generation, item.after.value);
    }
  }

  lemma {:induction false} ItemsRecordedOk(w: Work, c: Change, generation: nat, items: seq<PathItem>)
    requires WorkOk(w)
    ensures WorkOk(ItemsRecorded(w, c, generation, items))
  {
    if items != [] {
      ItemsRecordedOk(w, c, generation, items[..|items| - 1]);
      ItemRecordedOk(ItemsRecorded(w, c, generation, items[..|items| - 1]), c, generation, items[|items| - 1]);
    }
  }

  /** Every change keeps the index within its bounds, with one revision per
      agent, one digest among the unsettled owners of a path and no exclusive
      path with two of them; and the loop's counter is right at every item. */
  lemma RecordedKeepsIndex(a: Attribution, c: Change, n: nat)
    requires IndexOk(a) && n <= |c.paths|
    ensures IndexOk(Recorded(a, c))
    ensures Accepted(c) ==>
      WorkOk(ItemsRecorded(Work(a, |LiveKeys(a.entries)|), c, c.generation.value, c.paths[..n]))
  {
    if Accepted(c) {
      ItemsRecordedOk(Work(a, |LiveKeys(a.entries)|), c, c.generation.value, c.paths);
      ItemsRecordedOk(Work(a, |LiveKeys(a.entries)|), c, c.generation.value, c.paths[..n]);
    }
  }

  lemma OwnersSettledOk(e: PathEntry, v: Verification, after: Content)
    requires EntryOk(e)
    ensures EntryOk(Refreshed(e.(owners := OwnersSettled(e.owners, v, after)), false))
  {
    var owners := OwnersSettled(e.owners, v, after);
    forall o, u | o in owners && u in owners && !o.settled && !u.settled ensures o.digest == u.digest {
      var i :| 0 <= i < |owners| && owners[i] == o;
      var j :| 0 <= j < |owners| && owners[j] == u;
      assert e.owners[i] in e.owners && e.owners[j] in e.owners;
    }
    RefreshedOk(e.(owners := owners), false);
  }

  lemma {:induction false} RevisionsSettledOk(a: Attribution, v: Verification, rs: seq<Revision>)
    requires IndexOk(a)
    ensures IndexOk(RevisionsSettled(a, v, rs))
  {
    if rs != [] {
      RevisionsSettledOk(a, v, rs[..|rs| - 1]);
      var b, r := RevisionsSettled(a, v, rs[..|rs| - 1]), rs[|rs| - 1];
      if r.key in b.entries {
        OwnersSettledOk(b.entries[r.key], v, r.after);
        StoredOk(b, r.key, Refreshed(b.entries[r.key].(owners := OwnersSettled(b.entries[r.key].owners, v, r.after)), false));
      }
    }
  }

  /** And so does every verification. */
  lemma SettlementKeepsIndex(a: Attribution, v: Verification)
    requires IndexOk(a)
    ensures IndexOk(VerifiedSettled(a, v))
  {
    RevisionsSettledOk(a, v, v.covered);
  }

  /** A covered path stays contended if and only if it once overflowed or more than
      one of its owners is still unsettled. */
  lemma SettledStatusExactly(a: Attribution, v: Verification, r: Revision)
    requires r.key in a.entries
    ensures var now := RevisionSettled(a, v, r).entries[r.key];
      if exists o | o in a.entries[r.key].owners :: Settles(v, r.after, o) then
        now.status.Contended? <==> a.entries[r.key].overflow || !AtMostOneUnsettled(now.owners)
      else now == a.entries[r.key]
  {
    var e := a.entries[r.key];
    CountMeaning(OwnersSettled(e.owners, v, r.after));
  }

  // ----- What eviction and refusal cost -------------------------------------

  /** The change gives a path a digest, and is not too old for it. */
  predicate Admissible(w: Work, generation: nat, item: PathItem) {
    && item.key != "" && item.after.Digest?
    && (item.key in w.index.entries ==> generation >= w.index.entries[item.key].generation)
  }

  /** The path has no unsettled owner, and as many paths as are allowed have one. */
  ghost predicate NoRoom(w: Work, item: PathItem) {
    item.key !in LiveKeys(w.index.entries) && |LiveKeys(w.index.entries)| >= 10_000
  }

  /** The capacity is exceeded by exactly such a change, which then is not recorded;
      every other one is. */
  lemma CapacityExceededExactly(w: Work, c: Change, generation: nat, item: PathItem)
    requires WorkOk(w)
    ensures var r := ItemRecorded(w, c, generation, item);
      if Admissible(w, generation, item) && NoRoom(w, item) then
        r.index == w.index.(capacityExceeded := true)
      else
        && r.index.capacityExceeded == w.index.capacityExceeded
        && (Admissible(w, generation, item) ==> item.key in r.index.entries)
  {
    if item.key !in w.index.entries && |w.index.entries| >= MAX_PATHS && w.live < MAX_PATHS {
      AgedExists(w.index);
    }
  }

  /** Only the item's own path and one fully settled path can change. */
  lemma ItemTouchesOnly(w: Work, c: Change, generation: nat, item: PathItem, key: string)
    requires WorkOk(w) && key in w.index.entries && key != item.key
    ensures var r := ItemRecorded(w, c, generation, item).index.entries;
      if key in r then r[key] == w.index.entries[key] else !IsLive(w.index.entries[key])
  {
    if item.key !in w.index.entries && item.after.Digest? {
      CreatedTouchesOnly(w, item.key, c, generation, item.after.value, key);
    }
  }

  lemma CreatedTouchesOnly(w: Work, created: string, c: Change, generation: nat, digest: string, key: string)
    requires key in w.index.entries && key != created
    ensures var r := Created(w, created, c, generation, digest).index.entries;
      if key in r then r[key] == w.index.entries[key] else !IsLive(w.index.entries[key])
  {
  }

  /** A recorded digest is either listed unsettled under the event's agent, or
      its absence is on record: capacity exceeded, owner overflow, or a newer
      revision or generation already in place. */
  ghost predicate ListedOrOnRecord(r: Attribution, c: Change, generation: nat, key: string, digest: string) {
    || r.capacityExceeded
    || (key in r.entries && EntryListsOrRecords(r.entries[key], c, generation, digest))
  }

  ghost predicate EntryListsOrRecords(e: PathEntry, c: Change, generation: nat, digest: string) {
    || RevisionOf(c, generation, digest) in e.owners
    || e.overflow
    || generation < e.generation
    || exists o | o in e.owners :: o.agent == c.agentKey && c.seqNo < o.revisionSeq
  }

  lemma OwnerRecordedListsOrRecords(e: PathEntry, c: Change, generation: nat, digest: string)
    requires EntryOk(e)
    ensures EntryListsOrRecords(OwnerRecorded(e, c, generation, digest), c, generation, digest)
  {
    OwnerRecordedFacts(e, c, generation, digest);
  }

  lemma UpdatedListsOrRecords(w: Work, key: string, e: PathEntry, c: Change, generation: nat, digest: string)
    requires EntryOk(e)
    ensures ListedOrOnRecord(Updated(w, key, e, c, generation, digest).index, c, generation, key, digest)
  {
    OwnerRecordedListsOrRecords(e, c, generation, digest);
  }

  lemma CreatedListsOrRecords(w: Work, key: string, c: Change, generation: nat, digest: string)
    ensures ListedOrOnRecord(Created(w, key, c, generation, digest).index, c, generation, key, digest)
  {
    var blank := PathEntry(generation, Exclusive, [], false);
    if w.live < MAX_PATHS {
      if |w.index.entries| >= MAX_PATHS {
        match FirstAged(w.index.order, w.index.entries) {
          case None =>
          case Some(aged) =>
            UpdatedListsOrRecords(w.(index := Removed(w.index, aged)), key, blank, c, generation, digest);
        }
      } else {
        UpdatedListsOrRecords(w, key, blank, c, generation, digest);
      }
    }
  }

  lemma KnownListsOrRecords(w: Work, c: Change, generation: nat, item: PathItem, e: PathEntry)
    requires EntryOk(e) && item.key in w.index.entries && w.index.entries[item.key] == e
    requires item.key != "" && item.after.Digest?
    ensures ListedOrOnRecord(ItemRecorded(w, c, generation, item).index, c, generation, item.key, item.after.value)
  {
    var d := item.after.value;
    UpdatedListsOrRecords(w, item.key, e, c, generation, d);
    var r := ItemRecorded(w, c, generation, item);
    assert generation < e.generation || r == Exceeded(w) || r == Updated(w, item.key, e, c, generation, d);
  }

  lemma NotListedIsOnRecord(w: Work, c: Change, generation: nat, item: PathItem)
    requires WorkOk(w) && item.key != "" && item.after.Digest?
    ensures ListedOrOnRecord(ItemRecorded(w, c, generation, item).index, c, generation, item.key, item.after.value)
  {
    if item.key in w.index.entries {
      KnownListsOrRecords(w, c, generation, item, w.index.entries[item.key]);
    } else {
      CreatedListsOrRecords(w, item.key, c, generation, item.after.value);
    }
  }

  // ----- Protected ownership ------------------------------------------------

  /** Agent has an unsettled revision of the path. */
  ghost predicate Protects(a: Attribution, path: string, agent: string) {
    path in a.entries && Holds(a.entries[path], agent)
  }

  /** The item ends it: the path is deleted, or another agent's change to
      different content takes effect. Content equal to the agent's, a change that
      is too old and one that finds no owner slot do not. */
  ghost predicate ItemReleases(w: Work, c: Change, generation: nat, item: PathItem, path: string, agent: string)
    requires path in w.index.entries
  {
    var e := w.index.entries[path];
    && item.key == path && item.key != "" && generation >= e.generation
    && match item.after
       case Deleted => true
       case Malformed => false
       case Digest(d) => c.agentKey != agent && TakesEffect(e, c) && !HoldsDigest(e, agent, d)
  }

  lemma ItemReleasesExactly(w: Work, c: Change, generation: nat, item: PathItem, path: string, agent: string)
    requires WorkOk(w) && Protects(w.index, path, agent)
    ensures Protects(ItemRecorded(w, c, generation, item).index, path, agent)
      <==> !ItemReleases(w, c, generation, item, path, agent)
  {
    var e := w.index.entries[path];
    assert IsLive(e);
    if item.key != path {
      ItemTouchesOnly(w, c, generation, item, path);
    } else if item.after.Digest? {
      OwnerRecordedFacts(e, c, generation, item.after.value);
    }
  }

  /** Some item of the change ends it at its turn. */
  ghost predicate ChangeReleases(a: Attribution, c: Change, path: string, agent: string) {
    Accepted(c) && exists n | 0 <= n < |c.paths| ::
      var w := ItemsRecorded(Work(a, |LiveKeys(a.entries)|), c, c.generation.value, c.paths[..n]);
      path in w.index.entries && ItemReleases(w, c, c.generation.value, c.paths[n], path, agent)
  }

  lemma {:induction false} ItemsKeepProtection(
      w: Work, c: Change, generation: nat, items: seq<PathItem>, path: string, agent: string)
    requires WorkOk(w) && Protects(w.index, path, agent)
    requires forall n | 0 <= n < |items| ::
      var v := ItemsRecorded(w, c, generation, items[..n]);
      path in v.index.entries ==> !ItemReleases(v, c, generation, items[n], path, agent)
    ensures Protects(ItemsRecorded(w, c, generation, items).index, path, agent)
  {
    if items != [] {
      var init := items[..|items| - 1];
      forall n | 0 <= n < |init|
        ensures var v := ItemsRecorded(w, c, generation, init[..n]);
          path in v.index.entries ==> !ItemReleases(v, c, generation, init[n], path, agent)
      {
        assert init[..n] == items[..n] && init[n] == items[n];
      }
      ItemsKeepProtection(w, c, generation, init, path, agent);
      ItemsRecordedOk(w, c, generation, init);
      ItemReleasesExactly(ItemsRecorded(w, c, generation, init), c, generation, items[|items| - 1], path, agent);
      assert items[..|items| - 1] == init;
    }
  }

  lemma ChangeKeepsProtection(a: Attribution, c: Change, path: string, agent: string)
    requires IndexOk(a) && Protects(a, path, agent) && !ChangeReleases(a, c, path, agent)
    ensures Protects(Recorded(a, c), path, agent)
  {
    if Accepted(c) {
      ItemsKeepProtection(Work(a, |LiveKeys(a.entries)|), c, c.generation.value, c.paths, path, agent);
    }
  }

  /** The verification covers the agent's unsettled revision: it succeeded, it is
      the agent's own, and it covers that digest through its sequence number. */
  ghost predicate VerificationReleases(a: Attribution, v: Verification, path: string, agent: string) {
    && v.success && v.hasCovers && path in a.entries
    && exists r, o | r in v.covered && o in a.entries[path].owners ::
         r.key == path && !o.settled && o.agent == agent && Settles(v, r.after, o)
  }

  /** The owner is unsettled and none of the revisions settles it. */
  ghost predicate Untouched(o: Owner, v: Verification, rs: seq<Revision>, path: string) {
    !o.settled && forall r | r in rs && r.key == path :: !Settles(v, r.after, o)
  }

  /** The unsettled owners after a verification are the untouched ones before it. */
  lemma {:induction false} SettlementLeaves(a: Attribution, v: Verification, rs: seq<Revision>, path: string)
    requires path in a.entries
    ensures var b := RevisionsSettled(a, v, rs);
      && path in b.entries
      && forall o: Owner | !o.settled :: o in b.entries[path].owners <==>
           o in a.entries[path].owners && Untouched(o, v, rs, path)
  {
    if rs != [] {
      var init, last := rs[..|rs| - 1], rs[|rs| - 1];
      SettlementLeaves(a, v, init, path);
      assert rs == init + [last];
      var m := RevisionsSettled(a, v, init);
      if last.key == path {
        SettledOwnersStay(m.entries[path].owners, v, last.after);
      }
    }
  }

  lemma {:induction false} SettlementAddsNothing(a: Attribution, v: Verification, rs: seq<Revision>, path: string)
    ensures path in RevisionsSettled(a, v, rs).entries <==> path in a.entries
  {
    if rs != [] {
      SettlementAddsNothing(a, v, rs[..|rs| - 1], path);
    }
  }

  /** A verification ends an agent's protection of a path exactly if it settles
      every unsettled revision the agent has of it. */
  lemma SettlementReleasesExactly(a: Attribution, v: Verification, rs: seq<Revision>, path: string, agent: string)
    ensures Protects(RevisionsSettled(a, v, rs), path, agent) <==>
      (path in a.entries && exists o | o in a.entries[path].owners :: o.agent == agent && Untouched(o, v, rs, path))
  {
    SettlementAddsNothing(a, v, rs, path);
    if path in a.entries {
      SettlementLeaves(a, v, rs, path);
    }
  }

  lemma SettledOwnersStay(owners: seq<Owner>, v: Verification, after: Content)
    ensures forall o :: (o in OwnersSettled(owners, v, after) && !o.settled)
                  <==> (o in owners && !o.settled && !Settles(v, after, o))
  {
    var r := OwnersSettled(owners, v, after);
    forall o | o in owners && !o.settled && !Settles(v, after, o) ensures o in r {
      var i :| 0 <= i < |owners| && owners[i] == o;
      assert r[i] == o;
    }
    forall o | o in r && !o.settled ensures o in owners && !Settles(v, after, o) {
      var i :| 0 <= i < |r| && r[i] == o;
      assert owners[i] in owners;
    }
  }
}
