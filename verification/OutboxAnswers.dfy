/** What the outbox answers, read off the journal's lines and the entries it holds. */
module OutboxAnswers {
  import opened Common
  import opened Outbox

  // ----- The journal read back ----------------------------------------------

  /** The line is the first to record its event's id. */
  predicate FirstLine(lines: seq<Line>, n: int) {
    && 0 <= n < |lines| && lines[n].Recorded?
    && forall i | 0 <= i < n && lines[i].Recorded? :: lines[i].event.id != lines[n].event.id
  }

  ghost predicate RecordedFirst(lines: seq<Line>, e: Event) {
    exists n :: FirstLine(lines, n) && lines[n].event == e
  }

  /** No line is broken, and lines of one id agree. */
  ghost predicate Consistent(lines: seq<Line>) {
    && (forall line | line in lines :: line.Recorded?)
    && forall i, j | 0 <= i < j < |lines| && lines[i].Recorded? && lines[j].Recorded? && lines[i].event.id == lines[j].event.id ::
         lines[i].event == lines[j].event
  }

  predicate Unrecorded(lines: seq<Line>, id: string) {
    forall i | 0 <= i < |lines| && lines[i].Recorded? :: lines[i].event.id != id
  }

  lemma FirstAmongMore(lines: seq<Line>, line: Line, e: Event)
    ensures RecordedFirst(lines + [line], e) <==>
      RecordedFirst(lines, e) || (line == Recorded(e) && Unrecorded(lines, e.id))
  {
    var all := lines + [line];
    assert forall i | 0 <= i < |lines| :: all[i] == lines[i];
    assert all[|lines|] == line;
    if n :| FirstLine(lines, n) && lines[n].event == e {
      assert FirstLine(all, n) && all[n].event == e;
    }
    if n :| FirstLine(all, n) && all[n].event == e {
      if n < |lines| {
        assert FirstLine(lines, n);
      } else {
        forall i | 0 <= i < |lines| && lines[i].Recorded? ensures lines[i].event.id != e.id {
          assert all[i] == lines[i];
        }
      }
    }
    if line == Recorded(e) && Unrecorded(lines, e.id) {
      assert FirstLine(all, |lines|);
    }
  }

  lemma {:induction false} SomeIsFirst(lines: seq<Line>, n: nat) returns (first: nat)
    requires n < |lines| && lines[n].Recorded?
    ensures FirstLine(lines, first) && lines[first].event.id == lines[n].event.id
  {
    if i :| 0 <= i < n && lines[i].Recorded? && lines[i].event.id == lines[n].event.id {
      first := SomeIsFirst(lines, i);
    } else {
      first := n;
    }
  }

  /** Reading the journal back finds, for each id, the event that recorded it first;
      and it is complete exactly if the journal is consistent. */
  lemma {:induction false} ReadsBackExactly(lines: seq<Line>, e: Event)
    ensures FirstWithId(Replayed(lines).events, e.id) == Some(e) <==> RecordedFirst(lines, e)
    ensures Replayed(lines).complete <==> Consistent(lines)
  {
    if lines != [] {
      var init, last := lines[..|lines| - 1], lines[|lines| - 1];
      assert lines == init + [last];
      ReadsBackExactly(init, e);
      FirstAmongMore(init, last, e);
      ConsistentMore(init, last);
      if last.Recorded? {
        NewExactly(init, last.event);
        var prior := Replayed(init).events;
        if FirstWithId(prior, last.event.id).None? {
          FirstWithAppended(prior, last.event);
        }
      }
    }
  }

  /** An id is new exactly if no line records it. */
  lemma {:induction false} NewExactly(lines: seq<Line>, e: Event)
    ensures FirstWithId(Replayed(lines).events, e.id).None? <==> Unrecorded(lines, e.id)
    ensures FirstWithId(Replayed(lines).events, e.id).Some? ==>
      RecordedFirst(lines, FirstWithId(Replayed(lines).events, e.id).value)
  {
    if lines != [] {
      var init, last := lines[..|lines| - 1], lines[|lines| - 1];
      assert lines == init + [last];
      NewExactly(init, e);
      var prior := Replayed(init).events;
      if last.Recorded? {
        NewExactly(init, last.event);
        if FirstWithId(prior, last.event.id).None? {
          FirstWithAppended(prior, last.event);
        }
      }
      if FirstWithId(Replayed(lines).events, e.id).Some? {
        FirstAmongMore(init, last, FirstWithId(Replayed(lines).events, e.id).value);
      }
    }
  }

  lemma ConsistentMore(lines: seq<Line>, line: Line)
    ensures Consistent(lines + [line]) <==>
      Consistent(lines) && line.Recorded?
      && forall e | RecordedFirst(lines, e) && e.id == line.event.id :: e == line.event
  {
    var all := lines + [line];
    assert all[|lines|] == line;
    if Consistent(all) {
      forall x | x in lines ensures x.Recorded? {
        assert x in all;
      }
      forall i, j | 0 <= i < j < |lines| && lines[i].Recorded? && lines[j].Recorded? && lines[i].event.id == lines[j].event.id
        ensures lines[i].event == lines[j].event
      {
        assert all[i] == lines[i] && all[j] == lines[j];
      }
      forall e | RecordedFirst(lines, e) && e.id == line.event.id ensures e == line.event {
        var n :| FirstLine(lines, n) && lines[n].event == e;
        assert all[n] == lines[n];
      }
    }
    if Consistent(lines) && line.Recorded? && forall e | RecordedFirst(lines, e) && e.id == line.event.id :: e == line.event {
      forall i, j | 0 <= i < j < |all| && all[i].Recorded? && all[j].Recorded? && all[i].event.id == all[j].event.id
        ensures all[i].event == all[j].event
      {
        if j == |lines| {
          var first := SomeIsFirst(lines, i);
          assert RecordedFirst(lines, lines[first].event);
          assert lines[first].event == lines[i].event;
        }
      }
    }
  }

  // ----- Accepting ----------------------------------------------------------

  /** What the ledger already holds under the id: a receipt, or a pending entry. */
  function HeldUnder(st: State, id: string): Option<Raw> {
    if id in st.delivered then Some(st.delivered[id]) else if id in st.outbox then Some(st.outbox[id]) else None
  }

  /** The entry has an id and the schema, and its text, if it can be read, is of
      that id. */
  ghost predicate WellFormed(raw: Raw) {
    |raw.id| > 0 && raw.schemaOk && forall e | raw.parsed == Some(e) :: e.id == raw.id
  }

  /** An entry is accepted exactly if it is well formed and either repeats what is
      held under its id or is new and finds one of the 256 places; a new one is then
      pending. A refusal only marks the coordination degraded. */
  lemma AcceptsExactly(st: State, raw: Raw)
    ensures var r := Enqueued(st, raw);
      && (r.accepted <==>
            WellFormed(raw)
            && (HeldUnder(st, raw.id) == Some(raw) || (HeldUnder(st, raw.id).None? && |st.outbox| < 256)))
      && (r.accepted ==> r.st == if HeldUnder(st, raw.id).Some? then st else st.(outbox := st.outbox[raw.id := raw]))
      && (!r.accepted ==> r.st == st.(degraded := true))
  {
    if raw.parsed.Some? {
      assert raw.parsed == Some(raw.parsed.value);
    }
  }

  /** A denial is accepted besides whenever anything is held under its id. */
  lemma AcceptsDenyExactly(st: State, raw: Raw)
    ensures var r := DenyEnqueued(st, raw);
      if HeldUnder(st, raw.id).Some? then r.accepted && r.st == st else r == Enqueued(st, raw)
  {
  }

  // ----- Delivering ---------------------------------------------------------

  /** Two reports of one stable denial. */
  predicate SameDenial(a: Event, b: Event) {
    a.id == b.id && a.stable && b.stable
  }

  /** What a delivery that reads the journal answers: the event recorded first under
      the id stands, if it is the same event or the same denial, and otherwise
      conflicts; a new event is appended. */
  lemma DeliversExactly(journal: seq<Line>, e: Event)
    ensures var r := Delivered(journal, e, true);
      && (r.Conflict? <==> exists x :: RecordedFirst(journal, x) && x.id == e.id && x != e && !SameDenial(x, e))
      && (r.Canonical? ==>
            if Unrecorded(journal, e.id) then r.event == e && r.journal == journal + Written(e)
            else RecordedFirst(journal, r.event) && r.event.id == e.id && r.journal == journal)
    ensures Delivered(journal, e, false) == Canonical(e, journal + Written(e))
  {
    NewExactly(journal, e);
    forall x | RecordedFirst(journal, x) && x.id == e.id
      ensures FirstWithId(Replayed(journal).events, e.id) == Some(x)
    {
      ReadsBackExactly(journal, x);
    }
  }

  /** One turn of the delivery loop: an entry that cannot be parsed, a transient
      failure and a conflict degrade the drain; only a failure stops it; and the
      entry is done exactly otherwise, with what the journal records as its
      receipt. */
  lemma DeliveryTellsExactly(st: State, dr: Drainer, transient: bool)
    requires CanDeliver(dr)
    ensures var item, (next, after) := dr.pending[dr.attempted], DeliverOne(st, dr, true, transient);
      var parsed := item.raw.parsed;
      var fails := parsed.None? || transient || Delivered(st.journal, parsed.value, true).Conflict?;
      && after.attempted == dr.attempted + 1 && after.pending == dr.pending && after.cursor == dr.cursor
      && (after.degraded <==> dr.degraded || fails)
      && (after.stopped <==> parsed.Some? && transient)
      && (if fails then next == st && after.done == dr.done else
            var answer := Delivered(st.journal, parsed.value, true);
            && next == st.(journal := answer.journal)
            && after.done == dr.done + [Done(item.id, item.raw, Raw(answer.event.id, true, "", Some(answer.event)))])
  {
  }

  /** A drain starts degraded exactly if the journal is unreadable or inconsistent. */
  lemma BeginsDegradedExactly(st: State, read: bool)
    ensures Begun(st, read).degraded <==> !read || !Consistent(st.journal)
    ensures var dr := Begun(st, read); dr.attempted == 0 && !dr.stopped && dr.done == [] && dr.cursor == st.cursor
  {
    ReadsBackExactly(st.journal, Event("", false, false, ""));
  }

  // ----- Acknowledging ------------------------------------------------------

  /** The entry is still pending as it was when it was delivered. */
  ghost predicate Acknowledges(st: State, dr: Drainer, id: string) {
    exists d | d in dr.done :: d.id == id && id in st.outbox && st.outbox[id] == d.raw
  }

  lemma {:induction false} AcknowledgedExactly(st: State, done: seq<Done>, id: string)
    ensures var r := AckAll(st, done);
      && r.journal == st.journal && r.cursor == st.cursor && r.degraded == st.degraded
      && (id in r.outbox <==> id in st.outbox && !exists d | d in done :: d.id == id && st.outbox[id] == d.raw)
      && (id in r.outbox ==> r.outbox[id] == st.outbox[id])
  {
    if done != [] {
      var init, last := done[..|done| - 1], done[|done| - 1];
      AcknowledgedExactly(st, init, id);
      assert done == init + [last];
    }
  }

  /** An acknowledgement takes exactly those entries out, moves the cursor past what
      was attempted but never back, and passes on that the drain was degraded. */
  lemma AckTellsExactly(st: State, dr: Drainer, id: string)
    ensures var r := Acked(st, dr);
      && (id in r.outbox <==> id in st.outbox && !Acknowledges(st, dr, id))
      && (id in r.outbox ==> r.outbox[id] == st.outbox[id])
      && r.cursor >= st.cursor && r.cursor >= dr.cursor + dr.attempted
      && r.cursor in {st.cursor, dr.cursor + dr.attempted}
      && (r.degraded <==> st.degraded || dr.degraded) && r.journal == st.journal
  {
    AcknowledgedExactly(st.(order := Repaired(st.order, st.delivered)), dr.done, id);
  }
}
