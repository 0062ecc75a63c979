/** Draining makes progress: entries that cannot be delivered never starve the
    rest, and repeated draining ends with exactly those left.
  */
module OutboxProgress {
  import opened Common
  import opened Ordering
  import opened Outbox
  import opened OutboxRuns
  import Runs

  function Lookup(journal: seq<Line>, id: string): Option<Event> {
    FirstWithId(Replayed(journal).events, id)
  }

  /** The entry parses and does not conflict with what the journal holds. */
  predicate Deliverable(st: State, raw: Raw) {
    raw.parsed.Some? && Outbox.Delivered(st.journal, raw.parsed.value, true).Canonical?
  }

  function Drains(st: State, n: nat): State {
    Runs.Iterate(Drained, st, n)
  }

  function Rounds(n: nat): nat {
    (n + DRAIN_BATCH - 1) / DRAIN_BATCH
  }

  // ----- One drain ----------------------------------------------------------

  lemma AppendLookup(journal: seq<Line>, e: Event, id: string)
    requires Lookup(journal, e.id).None? && id != e.id
    ensures Lookup(journal + Written(e), id) == Lookup(journal, id)
  {
    var next := journal + Written(e);
    assert next[..|next| - 1] == journal;
    if !e.splits {
      FirstWithAppended(Replayed(journal).events, e);
    }
  }

  ghost predicate DistinctIds(items: seq<Item>) {
    forall i, j | 0 <= i < j < |items| :: items[i].id != items[j].id
  }

  ghost predicate Among(items: seq<Item>, from: nat, id: string) {
    exists i | from <= i < |items| :: items[i].id == id
  }

  /** What the delivery loop acknowledges and what it leaves of the journal. */
  ghost predicate LoopFacts(st: State, dr: Drainer, r: State, after: Drainer) {
    && r == st.(journal := r.journal)
    && after.pending == dr.pending && after.cursor == dr.cursor && after.attempted == |dr.pending|
    && (forall id | !Among(dr.pending, dr.attempted, id) :: Lookup(r.journal, id) == Lookup(st.journal, id))
    && (forall i | dr.attempted <= i < |dr.pending| && !Deliverable(st, dr.pending[i].raw) ::
          Lookup(r.journal, dr.pending[i].id) == Lookup(st.journal, dr.pending[i].id))
    && (forall d | d in after.done :: d in dr.done || exists i | dr.attempted <= i < |dr.pending| ::
          dr.pending[i] == Item(d.id, d.raw) && Deliverable(st, d.raw))
    && (forall d | d in dr.done :: d in after.done)
    && (forall i | dr.attempted <= i < |dr.pending| && Deliverable(st, dr.pending[i].raw) ::
          exists d :: d in after.done && Item(d.id, d.raw) == dr.pending[i])
  }

  /** One turn of the loop: the item is acknowledged exactly if deliverable, and
      only its own id can be looked up differently. */
  lemma DeliverOneFacts(st: State, dr: Drainer)
    requires CanDeliver(dr) && ItemOk(dr.pending[dr.attempted])
    ensures var (next, after) := DeliverOne(st, dr, true, false);
      var item := dr.pending[dr.attempted];
      && next == st.(journal := next.journal)
      && after == dr.(attempted := dr.attempted + 1, done := after.done, degraded := after.degraded)
      && (forall id | id != item.id :: Lookup(next.journal, id) == Lookup(st.journal, id))
      && (Deliverable(st, item.raw) ==> exists d: Done ::
            Item(d.id, d.raw) == item && after.done == dr.done + [d])
      && (!Deliverable(st, item.raw) ==> after.done == dr.done && next.journal == st.journal)
  {
    var item := dr.pending[dr.attempted];
    var (next, after) := DeliverOne(st, dr, true, false);
    if Deliverable(st, item.raw) {
      var e := item.raw.parsed.value;
      var d := after.done[|dr.done|];
      assert Item(d.id, d.raw) == item && after.done == dr.done + [d];
      if Lookup(st.journal, e.id).None? {
        forall id | id != item.id ensures Lookup(next.journal, id) == Lookup(st.journal, id) {
          AppendLookup(st.journal, e, id);
        }
      }
    }
  }

  lemma SameLookupSameDelivery(st: State, next: State, raw: Raw)
    requires raw.parsed.Some? ==> Lookup(next.journal, raw.parsed.value.id) == Lookup(st.journal, raw.parsed.value.id)
    ensures Deliverable(st, raw) <==> Deliverable(next, raw)
  {
  }

  lemma {:induction false} DeliverAllFacts(st: State, dr: Drainer)
    requires !dr.stopped && dr.attempted <= |dr.pending| && DistinctIds(dr.pending)
    requires forall item | item in dr.pending :: ItemOk(item)
    ensures LoopFacts(st, dr, DeliverAll(st, dr).0, DeliverAll(st, dr).1)
    decreases |dr.pending| - dr.attempted
  {
    if CanDeliver(dr) {
      var at := dr.attempted;
      var item := dr.pending[at];
      assert item in dr.pending;
      DeliverOneFacts(st, dr);
      var (next, moved) := DeliverOne(st, dr, true, false);
      DeliverAllFacts(next, moved);
      forall i | at < i < |dr.pending|
        ensures Deliverable(next, dr.pending[i].raw) <==> Deliverable(st, dr.pending[i].raw)
      {
        assert dr.pending[i].id != item.id && ItemOk(dr.pending[i]);
        SameLookupSameDelivery(st, next, dr.pending[i].raw);
      }
      LoopFactsStep(st, dr, next, moved, DeliverAll(next, moved).0, DeliverAll(next, moved).1);
    }
  }

  lemma LoopFactsStep(st: State, dr: Drainer, next: State, moved: Drainer, r: State, after: Drainer)
    requires CanDeliver(dr) && DistinctIds(dr.pending)
    requires next == st.(journal := next.journal)
    requires moved == dr.(attempted := dr.attempted + 1, done := moved.done, degraded := moved.degraded)
    requires forall id | id != dr.pending[dr.attempted].id :: Lookup(next.journal, id) == Lookup(st.journal, id)
    requires Deliverable(st, dr.pending[dr.attempted].raw) ==>
      exists d: Done :: Item(d.id, d.raw) == dr.pending[dr.attempted] && moved.done == dr.done + [d]
    requires !Deliverable(st, dr.pending[dr.attempted].raw) ==> moved.done == dr.done && next.journal == st.journal
    requires forall i | dr.attempted < i < |dr.pending| ::
      Deliverable(next, dr.pending[i].raw) <==> Deliverable(st, dr.pending[i].raw)
    requires LoopFacts(next, moved, r, after)
    ensures LoopFacts(st, dr, r, after)
  {
    var at := dr.attempted;
    var item := dr.pending[at];
    forall id | !Among(dr.pending, at, id) ensures Lookup(r.journal, id) == Lookup(st.journal, id) {
      assert id != item.id && !Among(dr.pending, at + 1, id);
    }
    assert !Among(dr.pending, at + 1, item.id);
    forall d | d in after.done
      ensures d in dr.done || exists i | at <= i < |dr.pending| ::
        dr.pending[i] == Item(d.id, d.raw) && Deliverable(st, d.raw)
    {
      if d in moved.done && d !in dr.done {
        assert dr.pending[at] == Item(d.id, d.raw);
      } else if d !in moved.done {
        var i :| at + 1 <= i < |dr.pending| && dr.pending[i] == Item(d.id, d.raw) && Deliverable(next, d.raw);
        assert Deliverable(st, dr.pending[i].raw);
      }
    }
    forall d | d in dr.done ensures d in after.done {
      assert d in moved.done;
    }
    forall i | at <= i < |dr.pending| && Deliverable(st, dr.pending[i].raw)
      ensures exists d :: d in after.done && Item(d.id, d.raw) == dr.pending[i]
    {
      if i == at {
        var d: Done :| Item(d.id, d.raw) == item && moved.done == dr.done + [d];
        assert d in moved.done;
      }
    }
  }

  lemma {:induction false} AckAllOutbox(st: State, done: seq<Done>)
    ensures var r := AckAll(st, done);
      && r.cursor == st.cursor && r.journal == st.journal
      && (forall id :: id in r.outbox <==>
            id in st.outbox && !exists d :: d in done && d.id == id && d.raw == st.outbox[id])
      && (forall id | id in r.outbox :: r.outbox[id] == st.outbox[id])
  {
    if done != [] {
      AckAllOutbox(st, done[..|done| - 1]);
      assert done == done[..|done| - 1] + [done[|done| - 1]];
    }
  }

  lemma ListedFacts(outbox: map<string, Raw>)
    ensures |Listed(outbox)| == |outbox| && DistinctIds(Listed(outbox))
    ensures forall id | id in outbox :: exists p | 0 <= p < |outbox| :: Listed(outbox)[p] == Item(id, outbox[id])
  {
    var keys := Sorted(outbox.Keys);
    AscendingSize(keys);
    AscendingDistinct(keys);
    forall id | id in outbox ensures exists p | 0 <= p < |keys| :: Listed(outbox)[p] == Item(id, outbox[id]) {
      assert id in Elements(keys);
      var p :| 0 <= p < |keys| && keys[p] == id;
      assert Listed(outbox)[p] == Item(id, outbox[id]);
    }
  }

  lemma ProductGrows(a: nat, b: nat, c: nat, d: nat)
    requires a <= b && c <= d
    ensures a * c <= b * d
  {
    assert b * d - a * c == (b - a) * d + a * (d - c);
    assert (b - a) * d >= 0 && a * (d - c) >= 0;
  }

  lemma MultiplesApart(n: nat, a: nat, b: nat)
    requires a > b
    ensures n * a >= n * b + n
  {
    ProductGrows(b + 1, a, n, n);
    assert n * (b + 1) == n * b + n;
  }

  lemma QuotientUnique(n: nat, a: nat, r: nat, b: nat, s: nat)
    requires n * a + r == n * b + s && r < n && s < n
    ensures r == s
  {
    if a > b {
      MultiplesApart(n, a, b);
    } else if b > a {
      MultiplesApart(n, b, a);
    }
  }

  lemma Divided(c: nat, n: nat) returns (q: nat, r: nat)
    requires 0 < n
    ensures c == n * q + r && r == c % n && r < n
  {
    q, r := c / n, c % n;
  }

  lemma ModStep(c: nat, j: nat, n: nat)
    requires j <= n && 0 < n
    ensures c % n < n
    ensures (c + j) % n == if c % n + j < n then c % n + j else c % n + j - n
  {
    var q, r := Divided(c, n);
    var p, t := Divided(c + j, n);
    if r + j < n {
      QuotientUnique(n, p, t, q, r + j);
    } else {
      assert n * (q + 1) == n * q + n;
      QuotientUnique(n, p, t, q + 1, r + j - n);
    }
  }

  lemma TurnedSize(outbox: map<string, Raw>, cursor: nat)
    ensures |Turned(outbox, cursor)| == |outbox|
    ensures |Batch(outbox, cursor)| == if |outbox| < DRAIN_BATCH then |outbox| else DRAIN_BATCH
  {
    ListedFacts(outbox);
  }

  lemma RotatedOn(items: seq<Item>, start: nat, next: nat, away: nat)
    requires DRAIN_BATCH <= away < |items| && start < |items|
    requires next == if start + DRAIN_BATCH < |items| then start + DRAIN_BATCH else start + DRAIN_BATCH - |items|
    ensures Rotated(items, next)[away - DRAIN_BATCH] == Rotated(items, start)[away]
  {
  }

  /** Moving the cursor on by a batch turns the listing on by a batch. */
  lemma TurnedOn(outbox: map<string, Raw>, cursor: nat, away: nat)
    requires DRAIN_BATCH <= away < |outbox|
    ensures |Turned(outbox, cursor)| == |outbox| == |Turned(outbox, cursor + DRAIN_BATCH)|
    ensures Turned(outbox, cursor + DRAIN_BATCH)[away - DRAIN_BATCH] == Turned(outbox, cursor)[away]
  {
    ListedFacts(outbox);
    var n := |outbox|;
    ModStep(cursor, DRAIN_BATCH, n);
    var start, next := cursor % n, (cursor + DRAIN_BATCH) % n;
    RotatedOn(Listed(outbox), start, next, away);
  }

  lemma RotatedListing(items: seq<Item>, start: nat)
    requires DistinctIds(items) && start <= |items|
    ensures DistinctIds(Rotated(items, start))
    ensures forall item | item in items :: item in Rotated(items, start)
  {
    forall item | item in items ensures item in Rotated(items, start) {
      var p :| 0 <= p < |items| && items[p] == item;
      assert Rotated(items, start)[if p >= start then p - start else p + |items| - start] == item;
    }
  }

  lemma TurnedDistinct(outbox: map<string, Raw>, cursor: nat)
    ensures DistinctIds(Turned(outbox, cursor))
    ensures forall id | id in outbox :: Item(id, outbox[id]) in Turned(outbox, cursor)
  {
    ListedFacts(outbox);
    if |outbox| > 0 {
      var start := cursor % |outbox|;
      RotatedListing(Listed(outbox), start);
    }
  }

  lemma BatchDistinct(outbox: map<string, Raw>, cursor: nat)
    ensures DistinctIds(Batch(outbox, cursor))
  {
    TurnedDistinct(outbox, cursor);
  }

  ghost predicate InBatch(st: State, id: string) {
    exists j | 0 <= j < |Batch(st.outbox, st.cursor)| :: Batch(st.outbox, st.cursor)[j].id == id
  }

  /** One drain removes exactly the deliverable entries of its batch, advances
      the cursor by the batch and changes no other entry's deliverability. */
  lemma DrainedFacts(st: State)
    requires StateOk(st) && |st.outbox| > 0
    ensures var r := Drained(st);
      && r.cursor == st.cursor + |Batch(st.outbox, st.cursor)|
      && (forall id :: id in r.outbox <==>
            id in st.outbox && !(InBatch(st, id) && Deliverable(st, st.outbox[id])))
      && (forall id | id in r.outbox :: r.outbox[id] == st.outbox[id])
      && (forall id | id in r.outbox :: Deliverable(r, st.outbox[id]) <==> Deliverable(st, st.outbox[id]))
  {
    var dr := Begun(st, true);
    BatchDistinct(st.outbox, st.cursor);
    BegunOk(st, true);
    DeliverAllFacts(st, dr);
    var (next, after) := DeliverAll(st, dr);
    AckAllOutbox(next.(order := Repaired(next.order, next.delivered)), after.done);
    var r := Drained(st);
    forall id
      ensures id in r.outbox <==> id in st.outbox && !(InBatch(st, id) && Deliverable(st, st.outbox[id]))
    {
      if id in st.outbox {
        AckedExactly(st, dr, next, after, id);
      }
    }
    forall id | id in r.outbox ensures Deliverable(r, st.outbox[id]) <==> Deliverable(st, st.outbox[id]) {
      assert !(InBatch(st, id) && Deliverable(st, st.outbox[id]));
      assert Lookup(r.journal, id) == Lookup(st.journal, id) by {
        if Among(dr.pending, 0, id) {
          var j :| 0 <= j < |dr.pending| && dr.pending[j].id == id;
          BatchFromOutbox(st.outbox, st.cursor, dr.pending[j]);
        }
      }
      SameLookupSameDelivery(st, r, st.outbox[id]);
    }
  }

  lemma AckedExactly(st: State, dr: Drainer, next: State, after: Drainer, id: string)
    requires dr == Begun(st, true) && LoopFacts(st, dr, next, after) && id in st.outbox
    ensures (exists d :: d in after.done && d.id == id && d.raw == st.outbox[id])
      <==> InBatch(st, id) && Deliverable(st, st.outbox[id])
  {
    if d :| d in after.done && d.id == id && d.raw == st.outbox[id] {
      assert InBatch(st, id) && Deliverable(st, st.outbox[id]);
    }
    if InBatch(st, id) && Deliverable(st, st.outbox[id]) {
      var j :| 0 <= j < |dr.pending| && dr.pending[j].id == id;
      BatchFromOutbox(st.outbox, st.cursor, dr.pending[j]);
      var d :| d in after.done && Item(d.id, d.raw) == dr.pending[j];
      assert d.id == id && d.raw == st.outbox[id];
    }
  }

  lemma {:induction false} DeliverAllOk(st: State, dr: Drainer)
    requires StateOk(st) && DrainerOk(st.journal, dr)
    ensures StateOk(DeliverAll(st, dr).0) && DrainerOk(DeliverAll(st, dr).0.journal, DeliverAll(st, dr).1)
    decreases |dr.pending| - dr.attempted
  {
    if CanDeliver(dr) {
      DeliverOneOk(st, dr, true, false);
      var (next, after) := DeliverOne(st, dr, true, false);
      var more :| next == st.(journal := st.journal + more);
      GrowthKeeps(st.journal, more);
      DeliverAllOk(next, after);
    }
  }

  lemma DrainedOk(st: State)
    requires StateOk(st)
    ensures StateOk(Drained(st))
  {
    if |st.outbox| > 0 {
      BegunOk(st, true);
      DeliverAllOk(st, Begun(st, true));
      AckedOk(DeliverAll(st, Begun(st, true)).0, DeliverAll(st, Begun(st, true)).1);
    }
  }

  /** A line that falls apart records nothing. */
  lemma {:induction false} SplitUnrecorded(st: State, dr: Drainer, id: string)
    requires forall item | item in dr.pending :: ItemOk(item) && (item.id == id ==> item.raw.parsed.Some? && !Plain(item.raw))
    requires Lookup(st.journal, id).None?
    ensures Lookup(DeliverAll(st, dr).0.journal, id).None?
    decreases |dr.pending| - dr.attempted
  {
    if CanDeliver(dr) {
      var item := dr.pending[dr.attempted];
      assert item in dr.pending;
      DeliverOneFacts(st, dr);
      var (next, after) := DeliverOne(st, dr, true, false);
      if item.id == id && next.journal != st.journal {
        assert next.journal == st.journal + [Malformed];
        assert next.journal[..|next.journal| - 1] == st.journal;
      }
      SplitUnrecorded(next, after, id);
    }
  }

  lemma LoopTouchesJournal(st: State)
    requires StateOk(st) && |st.outbox| > 0
    ensures var (next, after) := DeliverAll(st, Begun(st, true));
      next == st.(journal := next.journal) && StateOk(next) && DrainerOk(next.journal, after)
  {
    BegunOk(st, true);
    DeliverAllOk(st, Begun(st, true));
    BatchDistinct(st.outbox, st.cursor);
    DeliverAllFacts(st, Begun(st, true));
  }

  lemma DrainKeepsPlain(st: State, id: string)
    requires StateOk(st) && id in st.outbox && Plain(st.outbox[id])
    ensures Kept(Drained(st), st.outbox[id])
  {
    LoopTouchesJournal(st);
    var (next, after) := DeliverAll(st, Begun(st, true));
    AckKeepsAccepted(next, after, st.outbox[id]);
  }

  lemma DrainRecordsNoSplit(st: State, id: string)
    requires StateOk(st) && id in st.outbox && st.outbox[id].parsed.Some? && !Plain(st.outbox[id])
    requires Lookup(st.journal, id).None?
    ensures !HasId(Drained(st).journal, id)
  {
    LoopTouchesJournal(st);
    var dr := Begun(st, true);
    BegunOk(st, true);
    forall item | item in dr.pending && item.id == id ensures item.raw == st.outbox[id] {
      BatchFromOutbox(st.outbox, st.cursor, item);
    }
    SplitUnrecorded(st, dr, id);
    var (next, after) := DeliverAll(st, dr);
    AckedOk(next, after);
    ReadFindsIds(next.journal, id);
  }

  /** A drain that takes a new event from the outbox keeps it exactly when its
      text survives splitting; otherwise a receipt is all that is left. */
  lemma DrainKeepsExactly(st: State, id: string)
    requires StateOk(st) && id in st.outbox && InBatch(st, id)
    requires Deliverable(st, st.outbox[id]) && Lookup(st.journal, id).None?
    ensures Kept(Drained(st), st.outbox[id]) <==> Plain(st.outbox[id])
  {
    if Plain(st.outbox[id]) {
      DrainKeepsPlain(st, id);
    } else {
      DrainRecordsNoSplit(st, id);
      DrainedFacts(st);
      assert EntryValid(st.outbox[id]) && st.outbox[id].id == id;
    }
  }

  // ----- Repeated drains ----------------------------------------------------

  /** Draining only removes deliverable entries. */
  ghost predicate Narrows(st: State, r: State) {
    && (forall id | id in r.outbox ::
          id in st.outbox && r.outbox[id] == st.outbox[id]
          && (Deliverable(r, r.outbox[id]) <==> Deliverable(st, st.outbox[id])))
    && (forall id | id in st.outbox && id !in r.outbox :: Deliverable(st, st.outbox[id]))
  }

  lemma DrainNarrows(st: State)
    requires StateOk(st)
    ensures Narrows(st, Drained(st))
  {
    if |st.outbox| > 0 {
      DrainedFacts(st);
    }
  }

  lemma NarrowsSize(st: State, r: State)
    requires Narrows(st, r)
    ensures |r.outbox| <= |st.outbox|
    ensures |r.outbox| == |st.outbox| ==> r.outbox == st.outbox
  {
    assert r.outbox.Keys <= st.outbox.Keys;
    SubsetSize(r.outbox.Keys, st.outbox.Keys);
  }

  lemma NarrowsTransitive(st: State, m: State, r: State)
    requires Narrows(st, m) && Narrows(m, r)
    ensures Narrows(st, r)
  {
  }

  lemma DrainsNarrow(st: State, n: nat)
    requires StateOk(st)
    ensures StateOk(Drains(st, n)) && Narrows(st, Drains(st, n))
  {
    forall s {:trigger Drained(s)} | StateOk(s) ensures StateOk(Drained(s)) && Narrows(s, Drained(s)) && Narrows(s, s) {
      DrainedOk(s);
      DrainNarrows(s);
    }
    forall a, b, c | Narrows(a, b) && Narrows(b, c) ensures Narrows(a, c) {
      NarrowsTransitive(a, b, c);
    }
    Runs.IterateKeeps(Drained, st, n, StateOk, Narrows);
  }

  /** A deliverable entry at round-robin distance `away` from the cursor. */
  ghost predicate Waiting(st: State, id: string, away: nat) {
    && StateOk(st) && id in st.outbox && Deliverable(st, st.outbox[id])
    && away < |Turned(st.outbox, st.cursor)| && Turned(st.outbox, st.cursor)[away].id == id
  }

  lemma WaitingApproaches(st: State, r: State, id: string, away: nat)
    requires Waiting(st, id, away)
    requires StateOk(r) && r.outbox == st.outbox && r.cursor == st.cursor + |Batch(st.outbox, st.cursor)|
    requires !InBatch(st, id) && Deliverable(r, st.outbox[id])
    ensures DRAIN_BATCH <= away && Waiting(r, id, away - DRAIN_BATCH)
  {
    BeyondBatch(st, id, away);
    TurnedNearer(st.outbox, st.cursor, r.cursor, id, away);
  }

  lemma TurnedNearer(outbox: map<string, Raw>, cursor: nat, next: nat, id: string, away: nat)
    requires next == cursor + DRAIN_BATCH && DRAIN_BATCH <= away < |Turned(outbox, cursor)|
    requires Turned(outbox, cursor)[away].id == id
    ensures away - DRAIN_BATCH < |Turned(outbox, next)| && Turned(outbox, next)[away - DRAIN_BATCH].id == id
  {
    TurnedSize(outbox, cursor);
    TurnedOn(outbox, cursor, away);
  }

  lemma BeyondBatch(st: State, id: string, away: nat)
    requires away < |Turned(st.outbox, st.cursor)| && Turned(st.outbox, st.cursor)[away].id == id && !InBatch(st, id)
    ensures |Batch(st.outbox, st.cursor)| == DRAIN_BATCH <= away
  {
    var batch := Batch(st.outbox, st.cursor);
    assert forall j | 0 <= j < |batch| :: batch[j] == Turned(st.outbox, st.cursor)[j];
  }

  /** One drain shrinks the outbox, or leaves it as it is and brings the entry a
      batch nearer. */
  lemma DrainApproaches(st: State, id: string, away: nat)
    requires Waiting(st, id, away) && |Drained(st).outbox| == |st.outbox|
    ensures DRAIN_BATCH <= away && Waiting(Drained(st), id, away - DRAIN_BATCH)
  {
    DrainedOk(st);
    DrainNarrows(st);
    NarrowsSize(st, Drained(st));
    DrainedFacts(st);
    WaitingApproaches(st, Drained(st), id, away);
  }

  function Size(st: State): nat {
    |st.outbox|
  }

  lemma DrainShrinks(st: State)
    requires StateOk(st)
    ensures StateOk(Drained(st)) && Size(Drained(st)) <= Size(st)
  {
    DrainedOk(st);
    DrainNarrows(st);
    NarrowsSize(st, Drained(st));
  }

  lemma WaitingSomewhere(st: State, id: string) returns (away: nat)
    requires StateOk(st) && id in st.outbox && Deliverable(st, st.outbox[id])
    ensures Waiting(st, id, away) && away < DRAIN_BATCH * Rounds(Size(st))
  {
    TurnedSize(st.outbox, st.cursor);
    TurnedDistinct(st.outbox, st.cursor);
    var turned := Turned(st.outbox, st.cursor);
    assert Item(id, st.outbox[id]) in turned;
    away :| 0 <= away < |turned| && turned[away] == Item(id, st.outbox[id]);
  }

  lemma DrainsNeverGrow()
    ensures Runs.NeverGrows(Drained, StateOk, Size)
  {
    forall s {:trigger Drained(s)} | StateOk(s) ensures StateOk(Drained(s)) && Size(Drained(s)) <= Size(s) {
      DrainShrinks(s);
    }
  }

  lemma DrainsShortenWait(id: string)
    ensures Runs.Shortens(Drained, StateOk, Waiting, id, Size, DRAIN_BATCH)
  {
    forall s, a: nat {:trigger Waiting(s, id, a), Drained(s)}
      | StateOk(s) && Waiting(s, id, a) && Size(Drained(s)) == Size(s)
      ensures DRAIN_BATCH <= a && Waiting(Drained(s), id, a - DRAIN_BATCH)
    {
      DrainApproaches(s, id, a);
    }
  }

  /** With n entries pending, no enqueues and no transient failures, some entry
      leaves the outbox within ceil(n/16) drains, if any can be delivered at all. */
  lemma DrainProgress(st: State, id: string)
    requires StateOk(st) && id in st.outbox && Deliverable(st, st.outbox[id])
    ensures Size(Drains(st, Rounds(Size(st)))) < Size(st)
  {
    var away := WaitingSomewhere(st, id);
    DrainsNeverGrow();
    DrainsShortenWait(id);
    Runs.IterateReaches(Drained, st, Rounds(Size(st)), StateOk, Waiting, id, Size, DRAIN_BATCH, away);
  }

  ghost predicate Settled(st: State) {
    forall id | id in st.outbox :: !Deliverable(st, st.outbox[id])
  }

  function Undeliverable(st: State): map<string, Raw> {
    map id | id in st.outbox && !Deliverable(st, st.outbox[id]) :: st.outbox[id]
  }

  /** Repeated draining ends, and what is left are exactly the entries that could
      not be delivered. */
  lemma DrainingEnds(st: State) returns (n: nat)
    requires StateOk(st)
    ensures Settled(Drains(st, n)) && Drains(st, n).outbox == Undeliverable(st)
    ensures n <= Runs.Total(Rounds, Size(st))
  {
    DrainsNeverGrow();
    forall s {:trigger Settled(s)} | StateOk(s) && !Settled(s) ensures Size(Runs.Iterate(Drained, s, Rounds(Size(s)))) < Size(s) {
      var id :| id in s.outbox && Deliverable(s, s.outbox[id]);
      DrainProgress(s, id);
    }
    n := Runs.IterateEnds(Drained, st, StateOk, Settled, Size, Rounds);
    DrainsNarrow(st, n);
  }

  /** Once settled, further drains change no entry. */
  lemma SettledStays(st: State, n: nat)
    requires StateOk(st) && Settled(st)
    ensures Drains(st, n).outbox == st.outbox
  {
    DrainsNarrow(st, n);
  }
}
