/** The incremental scorecard agrees with the batch one. */
module ScorecardFacts {
  import opened Scorecard

  // ----- Deduplication commutes with the stable sort ------------------------

  ghost predicate Ascending(ts: seq<Transition>) {
    forall i, j | 0 <= i < j < |ts| :: ts[i].time <= ts[j].time
  }

  lemma {:induction false} InsertedAscends(ts: seq<Transition>, t: Transition)
    requires Ascending(ts)
    ensures Ascending(Inserted(ts, t))
  {
    if ts != [] && ts[|ts| - 1].time > t.time {
      InsertedAscends(ts[..|ts| - 1], t);
      var r := Inserted(ts[..|ts| - 1], t);
      forall i | 0 <= i < |r| ensures r[i].time <= ts[|ts| - 1].time {
        assert r[i] in r;
      }
    }
  }

  lemma {:induction false} ByTimeAscends(ts: seq<Transition>)
    ensures Ascending(ByTime(ts))
  {
    if ts != [] {
      ByTimeAscends(ts[..|ts| - 1]);
      InsertedAscends(ByTime(ts[..|ts| - 1]), ts[|ts| - 1]);
    }
  }

  lemma {:induction false} DeduplicatedIds(ts: seq<Transition>)
    ensures forall id :: HasId(Deduplicated(ts), id) <==> HasId(ts, id)
  {
    if ts != [] {
      var init, t := ts[..|ts| - 1], ts[|ts| - 1];
      DeduplicatedIds(init);
      assert ts == init + [t];
      forall id ensures HasId(Deduplicated(ts), id) <==> HasId(ts, id) {
        HasIdOfAppend(init, t, id);
        HasIdOfAppend(Deduplicated(init), t, id);
      }
    }
  }

  lemma HasIdOfAppend(ts: seq<Transition>, t: Transition, id: string)
    ensures HasId(ts + [t], id) <==> HasId(ts, id) || t.eventId == id
  {
    if HasId(ts, id) {
      var x :| x in ts && x.eventId == id;
      assert x in ts + [t];
    }
    if t.eventId == id {
      assert t in ts + [t];
    }
  }

  lemma HasIdOfInsert(ts: seq<Transition>, t: Transition, id: string)
    ensures HasId(Inserted(ts, t), id) <==> HasId(ts, id) || t.eventId == id
  {
    if HasId(ts, id) {
      var x :| x in ts && x.eventId == id;
      assert x in Inserted(ts, t);
    }
    if t.eventId == id {
      assert t in Inserted(ts, t);
    }
  }

  lemma AscendingDedup(ts: seq<Transition>, t: int)
    requires Ascending(ts) && ts != [] && ts[|ts| - 1].time <= t
    ensures Deduplicated(ts) != [] ==> Deduplicated(ts)[|Deduplicated(ts)| - 1].time <= t
  {
    var d := Deduplicated(ts);
    if d != [] {
      assert d[|d| - 1] in ts;
    }
  }

  lemma {:induction false} DedupInsertNew(ts: seq<Transition>, t: Transition)
    requires Ascending(ts) && !HasId(ts, t.eventId)
    ensures Deduplicated(Inserted(ts, t)) == Inserted(Deduplicated(ts), t)
  {
    if ts == [] {
      assert [t][..0] == [];
    } else {
      var init, last := ts[..|ts| - 1], ts[|ts| - 1];
      assert ts == init + [last];
      DeduplicatedIds(ts);
      if last.time <= t.time {
        AscendingDedup(ts, t.time);
        assert (ts + [t])[..|ts|] == ts;
      } else {
        HasIdOfAppend(init, last, t.eventId);
        DedupInsertNew(init, t);
        var r := Inserted(init, t);
        assert (r + [last])[..|r|] == r;
        DeduplicatedIds(r);
        DeduplicatedIds(init);
        HasIdOfInsert(init, t, last.eventId);
      }
    }
  }

  lemma {:induction false} DedupInsertKnown(ts: seq<Transition>, t: Transition)
    requires Ascending(ts) && t in ts
    ensures Deduplicated(Inserted(ts, t)) == Deduplicated(ts)
  {
    var init, last := ts[..|ts| - 1], ts[|ts| - 1];
    assert ts == init + [last];
    DeduplicatedIds(ts);
    if last.time <= t.time {
      assert (ts + [t])[..|ts|] == ts;
      assert HasId(ts, t.eventId);
    } else {
      DedupInsertKnown(init, t);
      var r := Inserted(init, t);
      assert (r + [last])[..|r|] == r;
    }
  }

  /** Dropping repeated events and sorting by time can be done in either order. */
  lemma {:induction false} DedupCommutesWithSort(ts: seq<Transition>)
    requires !Conflicting(ts)
    ensures Deduplicated(ByTime(ts)) == ByTime(Deduplicated(ts))
  {
    if ts != [] {
      var init, t := ts[..|ts| - 1], ts[|ts| - 1];
      assert ts == init + [t];
      assert forall x | x in init :: x in ts;
      DedupCommutesWithSort(init);
      ByTimeAscends(init);
      DeduplicatedIds(init);
      if HasId(init, t.eventId) {
        var x :| x in init && x.eventId == t.eventId;
        assert x in ts && t in ts;
        DedupInsertKnown(ByTime(init), t);
      } else {
        assert !HasId(ByTime(init), t.eventId);
        DedupInsertNew(ByTime(init), t);
        var d := Deduplicated(init);
        assert (d + [t])[..|d|] == d;
      }
    }
  }

  /** The transitions of one session, sorted, are the sorted ones of the session. */
  lemma {:induction false} SessionCommutesWithSort(ts: seq<Transition>, key: string)
    ensures OfKey(ByTime(ts), key) == ByTime(OfKey(ts, key))
  {
    if ts != [] {
      var init, t := ts[..|ts| - 1], ts[|ts| - 1];
      SessionCommutesWithSort(init, key);
      ByTimeAscends(init);
      SessionOfInsert(ByTime(init), t, key);
      var d := OfKey(init, key);
      assert (d + [t])[..|d|] == d;
    }
  }

  lemma {:induction false} SessionOfInsert(ts: seq<Transition>, t: Transition, key: string)
    requires Ascending(ts)
    ensures OfKey(Inserted(ts, t), key)
      == if AgentKey(t.identity) == key then Inserted(OfKey(ts, key), t) else OfKey(ts, key)
  {
    if ts == [] || ts[|ts| - 1].time <= t.time {
      assert (ts + [t])[..|ts|] == ts;
      var d := OfKey(ts, key);
      if d != [] {
        assert d[|d| - 1] in ts;
      }
    } else {
      var init, last := ts[..|ts| - 1], ts[|ts| - 1];
      SessionOfInsert(init, t, key);
      var r := Inserted(init, t);
      assert (r + [last])[..|r|] == r;
      var d := OfKey(init, key);
      assert (d + [last])[..|d|] == d;
    }
  }

  // ----- The fold skips repeated events -------------------------------------

  lemma UpdatedSeen(e: Entry, t: Transition, complete: bool)
    ensures forall id :: id in UpdatedEntry(e, t, complete).seen <==> id in e.seen || id == t.eventId
    ensures UpdatedEntry(e, t, complete).complete == (e.complete && complete)
  {
  }

  /** The entry has seen exactly the events folded into it. */
  lemma {:induction false} FoldedSeen(ts: seq<Transition>, complete: bool, id: string)
    requires ts != []
    ensures id in Folded(ts, complete).seen <==> HasId(ts, id)
    ensures Folded(ts, complete).complete == complete
  {
    var init, t := ts[..|ts| - 1], ts[|ts| - 1];
    assert ts == init + [t];
    if init != [] {
      FoldedSeen(init, complete, id);
    }
    UpdatedSeen(if init == [] then EmptyEntry(t) else Folded(init, complete), t, complete);
    HasIdOfAppend(init, t, id);
  }

  lemma {:induction false} FoldSkipsRepeats(ts: seq<Transition>, complete: bool)
    requires ts != []
    ensures Deduplicated(ts) != []
    ensures Folded(ts, complete) == Folded(Deduplicated(ts), complete)
  {
    var init, t := ts[..|ts| - 1], ts[|ts| - 1];
    var d := Deduplicated(init);
    assert (d + [t])[..|d|] == d;
    DeduplicatedIds(init);
    if init != [] {
      FoldSkipsRepeats(init, complete);
      FoldedSeen(init, complete, t.eventId);
    }
  }
}
