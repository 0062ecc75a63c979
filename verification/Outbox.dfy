/** The coordination outbox: events accepted into the ledger, appended to a
    journal by drainers, and acknowledged with a bounded list of receipts.

    Models the outbox part of core/ledger.py and the journal of
    core/scorecard_coordination.py. A saved ledger is written with sorted keys, so
    every transaction meets the outbox in key order.
  */
module Outbox {
  import opened Common
  import opened Ordering

  const MAX_OUTBOX := 256
  const DRAIN_BATCH := 16

  /** `stable`: an R2 denial whose id is the one derived from its own fields.
      `splits`: some field holds one of the line breaks that JSON text leaves
      unescaped (U+0085, U+2028, U+2029). */
  datatype Event = Event(id: string, stable: bool, splits: bool, body: string)

  /** A stored entry; `parsed` is None when the stricter parser refuses it. */
  datatype Raw = Raw(id: string, schemaOk: bool, form: string, parsed: Option<Event>)

  /** A line of the journal as the loader sees it. */
  datatype Line = Recorded(event: Event) | Malformed

  datatype State = State(
    outbox: map<string, Raw>, delivered: map<string, Raw>, order: seq<string>,
    cursor: nat, degraded: bool, journal: seq<Line>)

  datatype Item = Item(id: string, raw: Raw)

  datatype Done = Done(id: string, raw: Raw, receipt: Raw)

  /** What one drain holds between its transactions. */
  datatype Drainer = Drainer(
    pending: seq<Item>, attempted: nat, stopped: bool, cursor: nat, done: seq<Done>, degraded: bool)

  /** `coordination_event_json`. */
  function JsonOf(e: Event): Raw {
    Raw(e.id, true, "", Some(e))
  }

  predicate EntryValid(raw: Raw) {
    raw.id != "" && raw.schemaOk && (raw.parsed.Some? ==> raw.parsed.value.id == raw.id)
  }

  // ----- The journal --------------------------------------------------------

  /** The lines an append adds. */
  function Written(e: Event): seq<Line> {
    if e.splits then [Malformed] else [Recorded(e)]
  }

  function FirstWithId(events: seq<Event>, id: string): (r: Option<Event>)
    ensures r.Some? ==> r.value in events && r.value.id == id
    ensures r.None? ==> forall e | e in events :: e.id != id
  {
    if events == [] then None
    else if events[0].id == id then Some(events[0])
    else FirstWithId(events[1..], id)
  }

  datatype Replay = Replay(events: seq<Event>, complete: bool)

  /** `load_coordination_journal`: the first event of each id; complete when no
      line is malformed and lines of one id agree. */
  function Replayed(lines: seq<Line>): Replay {
    if lines == [] then Replay([], true) else
      var prior := Replayed(lines[..|lines| - 1]);
      match lines[|lines| - 1]
      case Malformed => prior.(complete := false)
      case Recorded(e) =>
        match FirstWithId(prior.events, e.id)
        case None => prior.(events := prior.events + [e])
        case Some(x) => prior.(complete := prior.complete && x == e)
  }

  predicate SameStable(a: Event, b: Event) {
    a.id == b.id && a.stable && b.stable
  }

  datatype Delivery = Canonical(event: Event, journal: seq<Line>) | Conflict

  /** `_record_coordination_event` for delivery; `read` is false when the file
      exists but cannot be read or decoded, and then reads as empty. */
  function Delivered(journal: seq<Line>, e: Event, read: bool): Delivery {
    match FirstWithId(if read then Replayed(journal).events else [], e.id)
    case None => Canonical(e, journal + Written(e))
    case Some(x) => if x == e || SameStable(x, e) then Canonical(x, journal) else Conflict
  }

  method LoadJournal(lines: seq<Line>) returns (events: seq<Event>, complete: bool)
    ensures Replay(events, complete) == Replayed(lines)
  {
    events, complete := [], true;
    var byId: map<string, Event> := map[];
    for n := 0 to |lines|
      invariant Replay(events, complete) == Replayed(lines[..n])
      invariant forall id :: id in byId <==> FirstWithId(events, id).Some?
      invariant forall id | id in byId :: FirstWithId(events, id) == Some(byId[id])
    {
      assert lines[..n + 1][..n] == lines[..n];
      if lines[n].Malformed? {
        complete := false;
      } else {
        var e := lines[n].event;
        if e.id in byId {
          if byId[e.id] != e {
            complete := false;
          }
        } else {
          FirstWithAppended(events, e);
          byId := byId[e.id := e];
          events := events + [e];
        }
      }
    }
    assert lines[..|lines|] == lines;
  }

  lemma {:induction false} FirstWithAppended(events: seq<Event>, e: Event)
    requires FirstWithId(events, e.id).None?
    ensures forall id :: FirstWithId(events + [e], id) == if id == e.id then Some(e) else FirstWithId(events, id)
  {
    if events != [] {
      assert (events + [e])[1..] == events[1..] + [e];
      FirstWithAppended(events[1..], e);
    }
  }

  // ----- Enqueue ------------------------------------------------------------

  datatype Enqueue = Enqueue(accepted: bool, st: State)

  /** `_enqueue_coordination_raw`, its exception counted as a refusal. */
  function Enqueued(st: State, raw: Raw): Enqueue {
    var refused := Enqueue(false, st.(degraded := true));
    if !EntryValid(raw) then refused
    else if raw.id in st.delivered then (if st.delivered[raw.id] == raw then Enqueue(true, st) else refused)
    else if raw.id in st.outbox then (if st.outbox[raw.id] == raw then Enqueue(true, st) else refused)
    else if |st.outbox| >= MAX_OUTBOX then refused
    else Enqueue(true, st.(outbox := st.outbox[raw.id := raw]))
  }

  /** `record_r2_deny_coordination` accepts any event whose id is already known. */
  function DenyEnqueued(st: State, raw: Raw): Enqueue {
    if raw.id in st.outbox || raw.id in st.delivered then Enqueue(true, st) else Enqueued(st, raw)
  }

  // ----- Drain --------------------------------------------------------------

  function ItemsOf(outbox: map<string, Raw>, keys: seq<string>): (r: seq<Item>)
    requires forall k | k in keys :: k in outbox
    ensures |r| == |keys| && forall i | 0 <= i < |keys| :: r[i] == Item(keys[i], outbox[keys[i]])
  {
    seq(|keys|, i requires 0 <= i < |keys| => Item(keys[i], outbox[keys[i]]))
  }

  function Listed(outbox: map<string, Raw>): seq<Item> {
    var keys := Sorted(outbox.Keys);
    assert forall k :: k in keys <==> k in Elements(keys);
    ItemsOf(outbox, keys)
  }

  function Rotated(items: seq<Item>, start: nat): seq<Item>
    requires start <= |items|
  {
    items[start..] + items[..start]
  }

  /** The listing turned so that it starts at the cursor. */
  function Turned(outbox: map<string, Raw>, cursor: nat): seq<Item> {
    var items := Listed(outbox);
    if items == [] then [] else Rotated(items, cursor % |items|)
  }

  /** The next batch, round robin from the cursor. */
  function Batch(outbox: map<string, Raw>, cursor: nat): seq<Item> {
    var turned := Turned(outbox, cursor);
    if |turned| <= DRAIN_BATCH then turned else turned[..DRAIN_BATCH]
  }

  function Begun(st: State, read: bool): Drainer {
    Drainer(Batch(st.outbox, st.cursor), 0, false, st.cursor, [], !read || !Replayed(st.journal).complete)
  }

  predicate CanDeliver(dr: Drainer) {
    !dr.stopped && dr.attempted < |dr.pending|
  }

  /** One turn of the delivery loop. A transient failure ends the loop with the
      item still pending. */
  function DeliverOne(st: State, dr: Drainer, read: bool, transient: bool): (State, Drainer)
    requires CanDeliver(dr)
  {
    var item := dr.pending[dr.attempted];
    var next := dr.(attempted := dr.attempted + 1);
    if item.raw.parsed.None? then (st, next.(degraded := true))
    else if transient then (st, next.(degraded := true, stopped := true))
    else
      match Delivered(st.journal, item.raw.parsed.value, read)
      case Conflict => (st, next.(degraded := true))
      case Canonical(e, journal) =>
        (st.(journal := journal), next.(done := dr.done + [Done(item.id, item.raw, JsonOf(e))]))
  }

  function AckOne(st: State, d: Done): State {
    if d.id in st.outbox && st.outbox[d.id] == d.raw then
      st.(outbox := st.outbox - {d.id}, delivered := st.delivered[d.id := d.receipt],
          order := Without(st.order, d.id) + [d.id])
    else st
  }

  function AckAll(st: State, done: seq<Done>): State {
    if done == [] then st else AckOne(AckAll(st, done[..|done| - 1]), done[|done| - 1])
  }

  /** The stored order as the acknowledgement reads it: receipts it names, each
      once, then any it misses. */
  function Repaired(order: seq<string>, delivered: map<string, Raw>): seq<string> {
    var kept := Once(order, delivered);
    kept + Sorted(set k | k in delivered && k !in kept)
  }

  function Once(order: seq<string>, delivered: map<string, Raw>): (r: seq<string>)
    ensures forall k :: k in r <==> k in order && k in delivered
  {
    if order == [] then [] else
      var prior := Once(order[..|order| - 1], delivered);
      var last := order[|order| - 1];
      if last in delivered && last !in prior then prior + [last] else prior
  }

  /** Only the newest receipts are kept. */
  function Trimmed(st: State): State {
    if |st.order| <= MAX_OUTBOX then st else
      var order := st.order[|st.order| - MAX_OUTBOX..];
      st.(order := order, delivered := map k | k in st.delivered && k in order :: st.delivered[k])
  }

  /** `_ack_coordination_outbox`. */
  function Acked(st: State, dr: Drainer): State {
    var acked := Trimmed(AckAll(st.(order := Repaired(st.order, st.delivered)), dr.done));
    acked.(
      degraded := acked.degraded || dr.degraded,
      cursor := if dr.cursor + dr.attempted > acked.cursor then dr.cursor + dr.attempted else acked.cursor)
  }

  /** The delivery loop with a readable journal and no transient failure. */
  function DeliverAll(st: State, dr: Drainer): (State, Drainer)
    decreases |dr.pending| - dr.attempted
  {
    if !CanDeliver(dr) then (st, dr) else
      var (next, after) := DeliverOne(st, dr, true, false);
      DeliverAll(next, after)
  }

  /** One whole `_drain_coordination_outbox`. */
  function Drained(st: State): State {
    if |st.outbox| == 0 then st else
      var (next, after) := DeliverAll(st, Begun(st, true));
      Acked(next, after)
  }

  // ----- The ledger as it is edited in place --------------------------------

  class Coordination {
    var outbox: map<string, Raw>
    var delivered: map<string, Raw>
    var order: seq<string>
    var cursor: nat
    var degraded: bool
    var journal: seq<Line>

    ghost function Value(): State
      reads this
    {
      State(outbox, delivered, order, cursor, degraded, journal)
    }

    constructor ()
      ensures Value() == State(map[], map[], [], 0, false, [])
    {
      outbox, delivered, order, cursor, degraded, journal := map[], map[], [], 0, false, [];
    }

    method EnqueueRaw(raw: Raw) returns (accepted: bool)
      modifies this`outbox, this`degraded
      ensures Enqueue(accepted, Value()) == Enqueued(old(Value()), raw)
    {
      if !EntryValid(raw) {
        degraded := true;
        return false;
      }
      if raw.id in delivered {
        if delivered[raw.id] == raw {
          return true;
        }
        degraded := true;
        return false;
      }
      if raw.id in outbox {
        if outbox[raw.id] == raw {
          return true;
        }
        degraded := true;
        return false;
      }
      if |outbox| >= MAX_OUTBOX {
        degraded := true;
        return false;
      }
      outbox := outbox[raw.id := raw];
      return true;
    }

    method EnqueueDeny(raw: Raw) returns (accepted: bool)
      modifies this`outbox, this`degraded
      ensures Enqueue(accepted, Value()) == DenyEnqueued(old(Value()), raw)
    {
      if raw.id in outbox || raw.id in delivered {
        return true;
      }
      accepted := EnqueueRaw(raw);
    }

    method Begin(read: bool) returns (dr: Drainer)
      ensures dr == Begun(Value(), read)
    {
      var _, complete := LoadJournal(journal);
      dr := Drainer(Batch(outbox, cursor), 0, false, cursor, [], !read || !complete);
    }

    method Deliver(dr: Drainer, read: bool, transient: bool) returns (next: Drainer)
      requires CanDeliver(dr)
      modifies this`journal
      ensures (Value(), next) == DeliverOne(old(Value()), dr, read, transient)
    {
      var item := dr.pending[dr.attempted];
      next := dr.(attempted := dr.attempted + 1);
      if item.raw.parsed.None? {
        next := next.(degraded := true);
        return;
      }
      if transient {
        next := next.(degraded := true, stopped := true);
        return;
      }
      var e := item.raw.parsed.value;
      var events, _ := LoadJournal(if read then journal else []);
      var existing := FirstWithId(events, e.id);
      var canonical := e;
      if existing.None? {
        journal := journal + Written(e);
      } else if existing.value == e || SameStable(existing.value, e) {
        canonical := existing.value;
      } else {
        next := next.(degraded := true);
        return;
      }
      next := next.(done := dr.done + [Done(item.id, item.raw, JsonOf(canonical))]);
    }

    method AcknowledgeDone(done: seq<Done>)
      modifies this`outbox, this`delivered, this`order
      ensures Value() == AckAll(old(Value()), done)
    {
      for n := 0 to |done|
        invariant Value() == AckAll(old(Value()), done[..n])
      {
        assert done[..n + 1][..n] == done[..n];
        var d := done[n];
        if d.id in outbox && outbox[d.id] == d.raw {
          outbox := outbox - {d.id};
          delivered := delivered[d.id := d.receipt];
          order := Without(order, d.id) + [d.id];
        }
      }
      assert done[..|done|] == done;
    }

    method Trim()
      modifies this`delivered, this`order
      ensures Value() == Trimmed(old(Value()))
    {
      if |order| > MAX_OUTBOX {
        order := order[|order| - MAX_OUTBOX..];
        delivered := map k | k in delivered && k in order :: delivered[k];
      }
    }

    method Acknowledge(dr: Drainer)
      modifies this`outbox, this`delivered, this`order, this`cursor, this`degraded
      ensures Value() == Acked(old(Value()), dr)
    {
      order := Repaired(order, delivered);
      AcknowledgeDone(dr.done);
      Trim();
      degraded := degraded || dr.degraded;
      if dr.cursor + dr.attempted > cursor {
        cursor := dr.cursor + dr.attempted;
      }
    }

    method Drain()
      modifies this
      ensures Value() == Drained(old(Value()))
    {
      if |outbox| == 0 {
        return;
      }
      var dr := Begin(true);
      while CanDeliver(dr)
        invariant DeliverAll(Value(), dr) == DeliverAll(old(Value()), Begun(old(Value()), true))
        decreases |dr.pending| - dr.attempted
      {
        dr := Deliver(dr, true, false);
      }
      Acknowledge(dr);
    }
  }
}
