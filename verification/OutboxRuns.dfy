/** Whole runs of the coordination outbox: enqueues and any number of drainers
    whose transactions interleave and which may crash between any two of them.
  */
module OutboxRuns {
  import opened Common
  import opened Ordering
  import opened Outbox
  import Runs

  /** `Tear` is a crash in the middle of an append: a broken line stays behind. A
      tear inside a character leaves bytes that are no UTF-8. */
  datatype Step =
    | Accept(raw: Raw)
    | AcceptDeny(raw: Raw)
    | Begin(d: nat, read: bool)
    | Deliver(d: nat, read: bool, transient: bool)
    | Tear(d: nat, inside: bool)
    | Ack(d: nat)
    | Crash(d: nat)

  /** `torn`: the journal file holds bytes that are no UTF-8. */
  datatype World = World(st: State, drainers: map<nat, Drainer>, torn: bool)

  /** A torn file is never read. */
  predicate Enabled(w: World, s: Step) {
    match s
    case Begin(d, read) => d !in w.drainers && |w.st.outbox| > 0 && (read ==> !w.torn)
    case Deliver(d, read, _) => d in w.drainers && CanDeliver(w.drainers[d]) && (read ==> !w.torn)
    case Tear(d, _) => d in w.drainers && CanDeliver(w.drainers[d])
    case Ack(d) => d in w.drainers && !CanDeliver(w.drainers[d])
    case Crash(d) => d in w.drainers
    case _ => true
  }

  function Next(w: World, s: Step): World
    requires Enabled(w, s)
  {
    match s
    case Accept(raw) => w.(st := Enqueued(w.st, raw).st)
    case AcceptDeny(raw) => w.(st := DenyEnqueued(w.st, raw).st)
    case Begin(d, read) => w.(drainers := w.drainers[d := Begun(w.st, read)])
    case Deliver(d, read, transient) =>
      var (st, dr) := DeliverOne(w.st, w.drainers[d], read, transient);
      World(st, w.drainers[d := dr], w.torn)
    case Tear(d, inside) => World(w.st.(journal := w.st.journal + [Malformed]), w.drainers - {d}, w.torn || inside)
    case Ack(d) => World(Acked(w.st, w.drainers[d]), w.drainers - {d}, w.torn)
    case Crash(d) => w.(drainers := w.drainers - {d})
  }

  ghost predicate Follows(w: World, s: Step, next: World) {
    Enabled(w, s) && next == Next(w, s)
  }

  ghost predicate IsRun(ws: seq<World>, steps: seq<Step>) {
    && |ws| == |steps| + 1
    && forall n | 0 <= n < |steps| :: Follows(ws[n], steps[n], ws[n + 1])
  }

  const START := World(State(map[], map[], [], 0, false, []), map[], false)

  // ----- The invariant ------------------------------------------------------

  ghost predicate InJournal(journal: seq<Line>, e: Event) {
    Recorded(e) in journal
  }

  /** The journal records the event, or the same stable R2 observation. */
  ghost predicate Journaled(journal: seq<Line>, e: Event) {
    exists j :: InJournal(journal, j) && (j == e || SameStable(j, e))
  }

  /** The text of the event, if it has one, survives splitting into lines. */
  predicate Plain(raw: Raw) {
    raw.parsed.Some? ==> !raw.parsed.value.splits
  }

  /** A receipt is a recorded event, or one whose line fell apart. */
  ghost predicate ReceiptOk(journal: seq<Line>, id: string, receipt: Raw) {
    && receipt.parsed.Some? && receipt == JsonOf(receipt.parsed.value) && receipt.id == id
    && (Plain(receipt) ==> InJournal(journal, receipt.parsed.value))
  }

  ghost predicate EntriesOk(outbox: map<string, Raw>) {
    forall id | id in outbox :: outbox[id].id == id && EntryValid(outbox[id])
  }

  /** The delivery order is a duplicate-free listing of the delivered keys. */
  ghost predicate OrderOk(order: seq<string>, delivered: map<string, Raw>) {
    Distinct(order) && forall k :: k in order <==> k in delivered
  }

  ghost predicate StateOk(st: State) {
    && EntriesOk(st.outbox) && |st.outbox| <= MAX_OUTBOX
    && st.outbox.Keys !! st.delivered.Keys
    && OrderOk(st.order, st.delivered) && |st.order| <= MAX_OUTBOX
    && forall id | id in st.delivered :: ReceiptOk(st.journal, id, st.delivered[id])
  }

  ghost predicate ItemOk(item: Item) {
    item.raw.id == item.id && EntryValid(item.raw)
  }

  ghost predicate DoneOk(journal: seq<Line>, d: Done) {
    && d.raw.id == d.id && d.raw.parsed.Some?
    && (Plain(d.raw) ==> Journaled(journal, d.raw.parsed.value))
    && ReceiptOk(journal, d.id, d.receipt)
  }

  ghost predicate DrainerOk(journal: seq<Line>, dr: Drainer) {
    && dr.attempted <= |dr.pending|
    && (forall item | item in dr.pending :: ItemOk(item))
    && (forall d | d in dr.done :: DoneOk(journal, d))
  }

  ghost predicate Inv(w: World) {
    StateOk(w.st) && forall d | d in w.drainers :: DrainerOk(w.st.journal, w.drainers[d])
  }

  /** Any step is allowed. */
  ghost predicate Any(s: Step) {
    true
  }

  // ----- Journal growth -----------------------------------------------------

  lemma GrowthKeeps(journal: seq<Line>, more: seq<Line>)
    ensures forall e | Journaled(journal, e) :: Journaled(journal + more, e)
    ensures forall id, r | ReceiptOk(journal, id, r) :: ReceiptOk(journal + more, id, r)
  {
    forall j | InJournal(journal, j) ensures InJournal(journal + more, j) {
    }
    forall e | Journaled(journal, e) ensures Journaled(journal + more, e) {
      var j :| InJournal(journal, j) && (j == e || SameStable(j, e));
      assert InJournal(journal + more, j);
    }
  }

  lemma GrowthKeepsInv(w: World, more: seq<Line>)
    requires Inv(w)
    ensures Inv(w.(st := w.st.(journal := w.st.journal + more)))
  {
    GrowthKeeps(w.st.journal, more);
  }

  /** The events a replay returns are exactly the journal's, one for each id: its
      first. */
  lemma {:induction false} ReplayedFacts(lines: seq<Line>)
    ensures forall e | e in Replayed(lines).events :: InJournal(lines, e)
    ensures forall e | InJournal(lines, e) :: FirstWithId(Replayed(lines).events, e.id).Some?
    ensures forall i, j | 0 <= i < j < |Replayed(lines).events| ::
      Replayed(lines).events[i].id != Replayed(lines).events[j].id
  {
    if lines != [] {
      var init, last := lines[..|lines| - 1], lines[|lines| - 1];
      ReplayedFacts(init);
      assert lines == init + [last];
      var prior := Replayed(init).events;
      if last.Recorded? && FirstWithId(prior, last.event.id).None? {
        FirstWithAppended(prior, last.event);
      }
    }
  }

  // ----- Steps keep the invariant -------------------------------------------

  lemma EnqueuedOk(st: State, raw: Raw)
    requires StateOk(st)
    ensures StateOk(Enqueued(st, raw).st)
    ensures Enqueued(st, raw).st.journal == st.journal
  {
  }

  lemma DeliverOneGrows(st: State, dr: Drainer, read: bool, transient: bool)
    requires CanDeliver(dr)
    ensures exists more :: DeliverOne(st, dr, read, transient).0 == st.(journal := st.journal + more)
  {
    var next := DeliverOne(st, dr, read, transient).0;
    if next.journal == st.journal {
      assert st.journal + [] == st.journal;
      assert next == st.(journal := st.journal + []);
    } else {
      var e := dr.pending[dr.attempted].raw.parsed.value;
      assert next == st.(journal := st.journal + Written(e));
    }
  }

  /** What was delivered is recorded: the new event, or the one found. */
  lemma FreshIsDone(journal: seq<Line>, raw: Raw)
    requires raw.parsed.Some? && EntryValid(raw)
    ensures DoneOk(journal + Written(raw.parsed.value), Done(raw.id, raw, JsonOf(raw.parsed.value)))
  {
    var e := raw.parsed.value;
    var next := journal + Written(e);
    if !e.splits {
      assert next[|journal|] == Recorded(e);
      assert InJournal(next, e);
    }
  }

  lemma FoundIsDone(journal: seq<Line>, raw: Raw, x: Event)
    requires raw.parsed.Some? && EntryValid(raw) && InJournal(journal, x)
    requires x.id == raw.parsed.value.id && (x == raw.parsed.value || SameStable(x, raw.parsed.value))
    ensures DoneOk(journal, Done(raw.id, raw, JsonOf(x)))
  {
  }

  lemma DrainerGrows(journal: seq<Line>, more: seq<Line>, dr: Drainer)
    requires DrainerOk(journal, dr)
    ensures DrainerOk(journal + more, dr)
  {
    GrowthKeeps(journal, more);
  }

  lemma DeliverOneOk(st: State, dr: Drainer, read: bool, transient: bool)
    requires CanDeliver(dr) && DrainerOk(st.journal, dr)
    ensures var (next, after) := DeliverOne(st, dr, read, transient);
      && DrainerOk(next.journal, after)
      && (exists more :: next == st.(journal := st.journal + more))
  {
    DeliverOneGrows(st, dr, read, transient);
    var item := dr.pending[dr.attempted];
    assert item in dr.pending && ItemOk(item);
    if item.raw.parsed.Some? && !transient {
      var e := item.raw.parsed.value;
      match FirstWithId(if read then Replayed(st.journal).events else [], e.id) {
        case None =>
          DrainerGrows(st.journal, Written(e), dr);
          FreshIsDone(st.journal, item.raw);
        case Some(x) =>
          ReplayedFacts(st.journal);
          assert InJournal(st.journal, x);
          if x == e || SameStable(x, e) {
            FoundIsDone(st.journal, item.raw, x);
          }
      }
    }
  }

  lemma BegunOk(st: State, read: bool)
    requires StateOk(st)
    ensures DrainerOk(st.journal, Begun(st, read))
  {
    forall item | item in Batch(st.outbox, st.cursor) ensures ItemOk(item) {
      BatchFromOutbox(st.outbox, st.cursor, item);
    }
  }

  lemma BatchFromOutbox(outbox: map<string, Raw>, cursor: nat, item: Item)
    requires item in Batch(outbox, cursor)
    ensures item.id in outbox && item.raw == outbox[item.id]
  {
    var items := Listed(outbox);
    var keys := Sorted(outbox.Keys);
    assert item in Turned(outbox, cursor);
    assert item in items;
    var i :| 0 <= i < |items| && items[i] == item;
    assert keys[i] in Elements(keys);
  }

  lemma {:induction false} OnceIsIdentity(order: seq<string>, delivered: map<string, Raw>)
    requires Distinct(order) && forall k | k in order :: k in delivered
    ensures Once(order, delivered) == order
  {
    if order != [] {
      var init, last := order[..|order| - 1], order[|order| - 1];
      assert order == init + [last] && Distinct(init);
      forall k | k in init ensures k in delivered {
        assert k in order;
      }
      OnceIsIdentity(init, delivered);
      assert last !in init;
    }
  }

  /** On an order that already lists the receipts, the repair changes nothing. */
  lemma RepairedIsIdentity(order: seq<string>, delivered: map<string, Raw>)
    requires OrderOk(order, delivered)
    ensures Repaired(order, delivered) == order
  {
    OnceIsIdentity(order, delivered);
    assert (set k | k in delivered && k !in order) == {};
    EmptyElements(Sorted({}));
    assert order + [] == order;
  }

  /** What acknowledging keeps, before the trim: all but the bound on receipts. */
  ghost predicate AckingOk(st: State) {
    && EntriesOk(st.outbox) && |st.outbox| <= MAX_OUTBOX
    && st.outbox.Keys !! st.delivered.Keys
    && OrderOk(st.order, st.delivered)
    && forall id | id in st.delivered :: ReceiptOk(st.journal, id, st.delivered[id])
  }

  lemma AckOneOk(st: State, d: Done)
    requires AckingOk(st) && DoneOk(st.journal, d)
    ensures AckingOk(AckOne(st, d)) && AckOne(st, d).journal == st.journal
  {
    if d.id in st.outbox && st.outbox[d.id] == d.raw {
      WithoutDistinct(st.order, d.id);
      assert (st.outbox - {d.id}).Keys == st.outbox.Keys - {d.id};
    }
  }

  lemma {:induction false} AckAllOk(st: State, done: seq<Done>)
    requires AckingOk(st) && forall d | d in done :: DoneOk(st.journal, d)
    ensures AckingOk(AckAll(st, done)) && AckAll(st, done).journal == st.journal
  {
    if done != [] {
      AckAllOk(st, done[..|done| - 1]);
      AckOneOk(AckAll(st, done[..|done| - 1]), done[|done| - 1]);
    }
  }

  lemma TrimmedOk(st: State)
    requires AckingOk(st)
    ensures StateOk(Trimmed(st)) && Trimmed(st).journal == st.journal
  {
    if |st.order| > MAX_OUTBOX {
      var from := |st.order| - MAX_OUTBOX;
      var order := st.order[from..];
      forall k | k in order ensures k in st.delivered {
        assert k in st.order;
      }
      forall i, j | 0 <= i < j < |order| ensures order[i] != order[j] {
        assert order[i] == st.order[from + i] && order[j] == st.order[from + j];
      }
    }
  }

  lemma AckedOk(st: State, dr: Drainer)
    requires StateOk(st) && DrainerOk(st.journal, dr)
    ensures StateOk(Acked(st, dr)) && Acked(st, dr).journal == st.journal
  {
    RepairedIsIdentity(st.order, st.delivered);
    AckAllOk(st.(order := Repaired(st.order, st.delivered)), dr.done);
    TrimmedOk(AckAll(st.(order := Repaired(st.order, st.delivered)), dr.done));
  }

  /** Every step keeps the outbox and the receipts disjoint, both bounded by 256,
      the delivery order a duplicate-free listing of the receipts, and every
      receipt backed by the journal. */
  lemma StepKeepsInv(w: World, s: Step)
    requires Inv(w) && Enabled(w, s)
    ensures Inv(Next(w, s))
  {
    match s {
      case Accept(raw) => EnqueuedOk(w.st, raw);
      case AcceptDeny(raw) => EnqueuedOk(w.st, raw);
      case Begin(d, read) => BegunOk(w.st, read);
      case Deliver(d, read, transient) =>
        DeliverOneOk(w.st, w.drainers[d], read, transient);
        var (next, after) := DeliverOne(w.st, w.drainers[d], read, transient);
        var more :| next == w.st.(journal := w.st.journal + more);
        GrowthKeepsInv(w, more);
      case Tear(d, _) => GrowthKeepsInv(w, [Malformed]);
      case Ack(d) => AckedOk(w.st, w.drainers[d]);
      case Crash(d) =>
    }
  }

  lemma RunKeepsInv(ws: seq<World>, steps: seq<Step>, n: nat)
    requires IsRun(ws, steps) && Inv(ws[0]) && n <= |steps|
    ensures Inv(ws[n])
  {
    forall w, s, v | Inv(w) && Any(s) && Follows(w, s, v) ensures Inv(v) {
      StepKeepsInv(w, s);
    }
    Runs.Invariance(ws, steps, Follows, Any, Inv, 0, n);
  }

  // ----- Accepted events are never lost -------------------------------------

  /** The event is in the outbox as accepted, or in the journal. */
  ghost predicate Kept(st: State, raw: Raw) {
    || (raw.id in st.outbox && st.outbox[raw.id] == raw)
    || (raw.parsed.Some? && Journaled(st.journal, raw.parsed.value))
  }

  ghost predicate HasId(journal: seq<Line>, id: string) {
    exists j :: InJournal(journal, j) && j.id == id
  }

  /** Some event of that id is. */
  ghost predicate KeptId(st: State, id: string) {
    id in st.outbox || HasId(st.journal, id)
  }

  /** Nothing under the id has lost its text: its entries survive splitting, and
      what was delivered under it is in the journal. */
  ghost predicate DrainerBacked(journal: seq<Line>, dr: Drainer, id: string) {
    && (forall item | item in dr.pending && item.id == id :: Plain(item.raw))
    && (forall d | d in dr.done && d.id == id :: HasId(journal, id))
  }

  ghost predicate StateBacked(st: State, id: string) {
    && (id in st.outbox ==> Plain(st.outbox[id]))
    && (id in st.delivered ==> HasId(st.journal, id))
  }

  ghost predicate Backed(w: World, id: string) {
    StateBacked(w.st, id) && forall d | d in w.drainers :: DrainerBacked(w.st.journal, w.drainers[d], id)
  }

  lemma AcceptedIsKept(st: State, raw: Raw)
    requires StateOk(st)
    ensures Plain(raw) && Enqueued(st, raw).accepted ==> Kept(Enqueued(st, raw).st, raw)
    ensures StateBacked(st, raw.id) && DenyEnqueued(st, raw).accepted ==> KeptId(DenyEnqueued(st, raw).st, raw.id)
  {
    if raw.id in st.delivered {
      assert ReceiptOk(st.journal, raw.id, st.delivered[raw.id]);
    }
  }

  lemma {:induction false} AckAllKeeps(st: State, done: seq<Done>, raw: Raw)
    requires AckingOk(st) && forall d | d in done :: DoneOk(st.journal, d)
    requires Plain(raw) && Kept(st, raw)
    ensures Kept(AckAll(st, done), raw)
  {
    if done != [] {
      var init := done[..|done| - 1];
      AckAllKeeps(st, init, raw);
      AckAllOk(st, init);
      assert DoneOk(st.journal, done[|done| - 1]);
    }
  }

  lemma {:induction false} AckAllKeepsId(st: State, done: seq<Done>, id: string)
    requires AckingOk(st) && forall d | d in done :: DoneOk(st.journal, d)
    requires StateBacked(st, id) && forall d | d in done && d.id == id :: HasId(st.journal, id)
    ensures StateBacked(AckAll(st, done), id)
    ensures KeptId(st, id) ==> KeptId(AckAll(st, done), id)
  {
    if done != [] {
      var init, d := done[..|done| - 1], done[|done| - 1];
      AckAllKeepsId(st, init, id);
      AckAllOk(st, init);
      assert d in done && AckAll(st, done).journal == st.journal;
    }
  }

  lemma GrowthKeepsAccepted(st: State, more: seq<Line>, raw: Raw)
    ensures Kept(st, raw) ==> Kept(st.(journal := st.journal + more), raw)
    ensures KeptId(st, raw.id) ==> KeptId(st.(journal := st.journal + more), raw.id)
  {
    GrowthKeepsIds(st.journal, more);
    GrowthKeeps(st.journal, more);
  }

  lemma AckKeepsAccepted(st: State, dr: Drainer, raw: Raw)
    requires StateOk(st) && DrainerOk(st.journal, dr)
    ensures Plain(raw) && Kept(st, raw) ==> Kept(Acked(st, dr), raw)
    ensures StateBacked(st, raw.id) && DrainerBacked(st.journal, dr, raw.id) ==>
      StateBacked(Acked(st, dr), raw.id) && (KeptId(st, raw.id) ==> KeptId(Acked(st, dr), raw.id))
  {
    RepairedIsIdentity(st.order, st.delivered);
    assert st.(order := Repaired(st.order, st.delivered)) == st;
    AckAllOk(st, dr.done);
    if Plain(raw) && Kept(st, raw) { AckAllKeeps(st, dr.done, raw); }
    if StateBacked(st, raw.id) && DrainerBacked(st.journal, dr, raw.id) { AckAllKeepsId(st, dr.done, raw.id); }
  }

  lemma StepKeepsAccepted(w: World, s: Step, raw: Raw)
    requires Inv(w) && Enabled(w, s)
    ensures Plain(raw) && Kept(w.st, raw) ==> Kept(Next(w, s).st, raw)
    ensures Backed(w, raw.id) && KeptId(w.st, raw.id) ==> KeptId(Next(w, s).st, raw.id)
  {
    match s {
      case Deliver(d, read, transient) =>
        DeliverOneOk(w.st, w.drainers[d], read, transient);
        var (next, after) := DeliverOne(w.st, w.drainers[d], read, transient);
        var more :| next == w.st.(journal := w.st.journal + more);
        GrowthKeepsAccepted(w.st, more, raw);
      case Tear(d, _) => GrowthKeepsAccepted(w.st, [Malformed], raw);
      case Ack(d) => AckKeepsAccepted(w.st, w.drainers[d], raw);
      case _ =>
    }
  }

  lemma GrowthKeepsIds(journal: seq<Line>, more: seq<Line>)
    ensures forall j | InJournal(journal, j) :: InJournal(journal + more, j)
    ensures forall id | HasId(journal, id) :: HasId(journal + more, id)
  {
    assert forall j | InJournal(journal, j) :: InJournal(journal + more, j);
    forall id | HasId(journal, id) ensures HasId(journal + more, id) {
      var j :| InJournal(journal, j) && j.id == id;
      assert InJournal(journal + more, j);
    }
  }

  lemma DeliverOneBacked(st: State, dr: Drainer, read: bool, transient: bool, id: string)
    requires CanDeliver(dr) && DrainerOk(st.journal, dr) && DrainerBacked(st.journal, dr, id)
    ensures var (next, after) := DeliverOne(st, dr, read, transient); DrainerBacked(next.journal, after, id)
  {
    var item := dr.pending[dr.attempted];
    assert item in dr.pending && ItemOk(item);
    var (next, after) := DeliverOne(st, dr, read, transient);
    if item.raw.parsed.Some? && !transient {
      var e := item.raw.parsed.value;
      match FirstWithId(if read then Replayed(st.journal).events else [], e.id) {
        case None =>
          GrowthKeepsIds(st.journal, Written(e));
          if !e.splits {
            assert next.journal[|st.journal|] == Recorded(e);
            assert InJournal(next.journal, e);
          }
        case Some(x) =>
          ReplayedFacts(st.journal);
          assert InJournal(st.journal, x);
      }
    }
  }

  /** Only an event of the id that splits can leave it without backing. */
  ghost predicate PlainFor(s: Step, id: string) {
    (s.Accept? || s.AcceptDeny?) && s.raw.id == id ==> Plain(s.raw)
  }

  lemma GrowthKeepsBacked(w: World, more: seq<Line>, id: string)
    requires Backed(w, id)
    ensures Backed(w.(st := w.st.(journal := w.st.journal + more)), id)
  {
    GrowthKeepsIds(w.st.journal, more);
  }

  lemma BegunBacked(st: State, read: bool, id: string)
    requires StateBacked(st, id)
    ensures DrainerBacked(st.journal, Begun(st, read), id)
  {
    forall item | item in Batch(st.outbox, st.cursor) && item.id == id ensures Plain(item.raw) {
      BatchFromOutbox(st.outbox, st.cursor, item);
    }
  }

  lemma DeliverKeepsBacked(w: World, s: Step, id: string)
    requires Inv(w) && Backed(w, id) && Enabled(w, s) && s.Deliver?
    ensures Backed(Next(w, s), id)
  {
    var dr := w.drainers[s.d];
    DeliverOneOk(w.st, dr, s.read, s.transient);
    DeliverOneBacked(w.st, dr, s.read, s.transient, id);
    var more :| DeliverOne(w.st, dr, s.read, s.transient).0 == w.st.(journal := w.st.journal + more);
    GrowthKeepsBacked(w, more, id);
  }

  lemma AckKeepsBacked(w: World, s: Step, id: string)
    requires Inv(w) && Backed(w, id) && Enabled(w, s) && s.Ack?
    ensures Backed(Next(w, s), id)
  {
    AckedOk(w.st, w.drainers[s.d]);
    AckKeepsAccepted(w.st, w.drainers[s.d], Raw(id, true, "", None));
  }

  lemma StepKeepsBacked(w: World, s: Step, id: string)
    requires Inv(w) && Backed(w, id) && Enabled(w, s) && PlainFor(s, id)
    ensures Backed(Next(w, s), id)
  {
    match s {
      case Accept(raw) =>
      case AcceptDeny(raw) =>
      case Begin(d, read) => BegunBacked(w.st, read, id);
      case Deliver(_, _, _) => DeliverKeepsBacked(w, s, id);
      case Tear(d, _) => GrowthKeepsBacked(w, [Malformed], id);
      case Ack(_) => AckKeepsBacked(w, s, id);
      case Crash(d) =>
    }
  }

  ghost predicate InvKept(w: World, raw: Raw) {
    Inv(w) && Kept(w.st, raw)
  }

  ghost predicate InvBacked(w: World, id: string) {
    Inv(w) && Backed(w, id)
  }

  ghost predicate InvKeptId(w: World, id: string) {
    InvBacked(w, id) && KeptId(w.st, id)
  }

  lemma KeptStep(w: World, s: Step, raw: Raw)
    requires Inv(w) && Enabled(w, s) && Plain(raw)
    ensures InvKept(w, raw) || (s == Accept(raw) && Enqueued(w.st, raw).accepted) ==> InvKept(Next(w, s), raw)
  {
    StepKeepsInv(w, s);
    StepKeepsAccepted(w, s, raw);
    AcceptedIsKept(w.st, raw);
  }

  lemma KeptIdStep(w: World, s: Step, id: string)
    requires InvBacked(w, id) && Enabled(w, s) && PlainFor(s, id)
    ensures InvBacked(Next(w, s), id)
    ensures KeptId(w.st, id) ==> KeptId(Next(w, s).st, id)
  {
    StepKeepsInv(w, s);
    StepKeepsBacked(w, s, id);
    StepKeepsAccepted(w, s, Raw(id, true, "", None));
  }

  /** From the moment it is accepted, an event whose own text survives splitting
      stays in the outbox or is in the journal, whatever other enqueues, drains,
      crashes and torn appends follow. */
  lemma AcceptedForever(ws: seq<World>, steps: seq<Step>, m: nat, n: nat, raw: Raw)
    requires IsRun(ws, steps) && Inv(ws[0]) && m < n <= |steps|
    requires steps[m] == Accept(raw) && Enqueued(ws[m].st, raw).accepted && Plain(raw)
    ensures Kept(ws[n].st, raw)
  {
    RunKeepsInv(ws, steps, m);
    assert Follows(ws[m], steps[m], ws[m + 1]);
    KeptStep(ws[m], steps[m], raw);
    var inv := w => InvKept(w, raw);
    forall w, s, v | inv(w) && Any(s) && Follows(w, s, v) ensures inv(v) {
      KeptStep(w, s, raw);
    }
    Runs.Invariance(ws, steps, Follows, Any, inv, m + 1, n);
  }

  /** An R2 denial accepted because its id is known stays kept under that id, if
      no event of the id splits. */
  lemma AcceptedDenyForever(ws: seq<World>, steps: seq<Step>, m: nat, n: nat, raw: Raw)
    requires IsRun(ws, steps) && InvBacked(ws[0], raw.id) && m < n <= |steps|
    requires forall s | s in steps :: PlainFor(s, raw.id)
    requires steps[m] == AcceptDeny(raw) && DenyEnqueued(ws[m].st, raw).accepted
    ensures KeptId(ws[n].st, raw.id)
  {
    var id := raw.id;
    var plain := s => PlainFor(s, id);
    var backed := w => InvBacked(w, id);
    forall w, s, v | backed(w) && plain(s) && Follows(w, s, v) ensures backed(v) {
      KeptIdStep(w, s, id);
    }
    Runs.Invariance(ws, steps, Follows, plain, backed, 0, m);
    assert Follows(ws[m], steps[m], ws[m + 1]) && steps[m] in steps;
    KeptIdStep(ws[m], steps[m], id);
    AcceptedIsKept(ws[m].st, raw);
    var inv := w => InvKeptId(w, id);
    forall w, s, v | inv(w) && plain(s) && Follows(w, s, v) ensures inv(v) {
      KeptIdStep(w, s, id);
    }
    Runs.Invariance(ws, steps, Follows, plain, inv, m + 1, n);
  }

  // ----- A torn journal -----------------------------------------------------

  ghost predicate IsTorn(w: World) {
    w.torn
  }

  /** After a tear inside a character no drain reads the journal again: every one
      that begins is degraded, and every delivery appends. */
  lemma TornIsNeverRead(ws: seq<World>, steps: seq<Step>, m: nat, n: nat)
    requires IsRun(ws, steps) && m < n < |steps| && steps[m].Tear? && steps[m].inside
    ensures steps[n].Begin? ==> !steps[n].read && ws[n + 1].drainers[steps[n].d].degraded
    ensures steps[n].Deliver? ==> !steps[n].read
  {
    assert Follows(ws[m], steps[m], ws[m + 1]);
    Runs.Invariance(ws, steps, Follows, Any, IsTorn, m + 1, n);
    assert Follows(ws[n], steps[n], ws[n + 1]);
  }

  // ----- The journal holds each id once -------------------------------------

  ghost predicate UniqueIds(journal: seq<Line>) {
    forall i, j | 0 <= i < j < |journal| && journal[i].Recorded? && journal[j].Recorded? ::
      journal[i].event.id != journal[j].event.id
  }

  /** The delivery appends a line to a journal it could not read although the id
      is already there. */
  ghost predicate Duplicates(w: World, s: Step) {
    && s.Deliver? && Enabled(w, s) && !s.read && !s.transient
    && var raw := w.drainers[s.d].pending[w.drainers[s.d].attempted].raw;
       raw.parsed.Some? && Plain(raw) && HasId(w.st.journal, raw.parsed.value.id)
  }

  lemma AppendedUnique(journal: seq<Line>, e: Event)
    requires UniqueIds(journal)
    ensures UniqueIds(journal + [Recorded(e)]) <==> !HasId(journal, e.id)
  {
    var next := journal + [Recorded(e)];
    if HasId(journal, e.id) {
      var j :| InJournal(journal, j) && j.id == e.id;
      var i :| 0 <= i < |journal| && journal[i] == Recorded(j);
      assert next[i] == Recorded(j) && next[|journal|] == Recorded(e);
    } else {
      forall i, j | 0 <= i < j < |next| && next[i].Recorded? && next[j].Recorded?
        ensures next[i].event.id != next[j].event.id
      {
        assert InJournal(journal, next[i].event);
      }
    }
  }

  lemma ReadFindsIds(journal: seq<Line>, id: string)
    ensures FirstWithId(Replayed(journal).events, id).Some? <==> HasId(journal, id)
  {
    ReplayedFacts(journal);
    if FirstWithId(Replayed(journal).events, id).Some? {
      assert InJournal(journal, FirstWithId(Replayed(journal).events, id).value);
    }
  }

  lemma DeliveredUnique(journal: seq<Line>, e: Event, read: bool)
    requires UniqueIds(journal)
    ensures var r := Delivered(journal, e, read);
      r.Canonical? ==> (UniqueIds(r.journal) <==> read || e.splits || !HasId(journal, e.id))
    ensures !read ==> Delivered(journal, e, read).Canonical?
  {
    ReadFindsIds(journal, e.id);
    if e.splits {
      TornUnique(journal);
    } else {
      AppendedUnique(journal, e);
    }
  }

  lemma DeliverOneUnique(st: State, dr: Drainer, read: bool, transient: bool)
    requires CanDeliver(dr) && DrainerOk(st.journal, dr) && UniqueIds(st.journal)
    ensures var raw := dr.pending[dr.attempted].raw;
      UniqueIds(DeliverOne(st, dr, read, transient).0.journal) <==>
        (read || transient || raw.parsed.None? || !Plain(raw) || !HasId(st.journal, raw.parsed.value.id))
  {
    var item := dr.pending[dr.attempted];
    if item.raw.parsed.Some? && !transient {
      DeliveredUnique(st.journal, item.raw.parsed.value, read);
    }
  }

  lemma TornUnique(journal: seq<Line>)
    requires UniqueIds(journal)
    ensures UniqueIds(journal + [Malformed])
  {
  }

  /** A step breaks the uniqueness of journal ids exactly when it is such a
      delivery. */
  lemma UniqueExactly(w: World, s: Step)
    requires Inv(w) && Enabled(w, s) && UniqueIds(w.st.journal)
    ensures UniqueIds(Next(w, s).st.journal) <==> !Duplicates(w, s)
  {
    match s {
      case Deliver(d, read, transient) => DeliverOneUnique(w.st, w.drainers[d], read, transient);
      case Tear(d, _) => TornUnique(w.st.journal);
      case Ack(d) => AckedOk(w.st, w.drainers[d]);
      case _ =>
    }
  }

  ghost predicate InvUnique(w: World) {
    Inv(w) && UniqueIds(w.st.journal)
  }

  lemma RepeatedStays(journal: seq<Line>, more: seq<Line>)
    ensures UniqueIds(journal + more) ==> UniqueIds(journal)
  {
    var next := journal + more;
    forall i, j | UniqueIds(next) && 0 <= i < j < |journal| && journal[i].Recorded? && journal[j].Recorded?
      ensures journal[i].event.id != journal[j].event.id
    {
      assert next[i] == journal[i] && next[j] == journal[j];
    }
  }

  /** A repeated id is never repaired. */
  lemma StepNeverRepairs(w: World, s: Step)
    requires Inv(w) && Enabled(w, s)
    ensures UniqueIds(Next(w, s).st.journal) ==> UniqueIds(w.st.journal)
  {
    match s {
      case Deliver(d, read, transient) =>
        DeliverOneOk(w.st, w.drainers[d], read, transient);
        var more :| DeliverOne(w.st, w.drainers[d], read, transient).0 == w.st.(journal := w.st.journal + more);
        RepeatedStays(w.st.journal, more);
      case Tear(d, _) => RepeatedStays(w.st.journal, [Malformed]);
      case Ack(d) => AckedOk(w.st, w.drainers[d]);
      case _ =>
    }
  }

  /** At any point of any run the journal holds each id once exactly when no
      delivery so far appended a recorded id to a journal it could not read; so
      also after receipts were evicted and events enqueued again. */
  lemma {:induction false} JournalIdsUniqueExactly(ws: seq<World>, steps: seq<Step>, n: nat)
    requires IsRun(ws, steps) && InvUnique(ws[0]) && n <= |steps|
    ensures UniqueIds(ws[n].st.journal) <==> forall i | 0 <= i < n :: !Duplicates(ws[i], steps[i])
  {
    if n > 0 {
      JournalIdsUniqueExactly(ws, steps, n - 1);
      RunKeepsInv(ws, steps, n - 1);
      assert Follows(ws[n - 1], steps[n - 1], ws[n - 1 + 1]);
      StepNeverRepairs(ws[n - 1], steps[n - 1]);
      if UniqueIds(ws[n - 1].st.journal) {
        UniqueExactly(ws[n - 1], steps[n - 1]);
      }
    }
  }

  /** An appended event reads back exactly when its text does not split. */
  lemma AppendReadsBackExactly(journal: seq<Line>, e: Event)
    requires !HasId(journal, e.id)
    ensures FirstWithId(Replayed(journal + Written(e)).events, e.id) == Some(e) <==> !e.splits
    ensures Journaled(journal + Written(e), e) <==> !e.splits
  {
    var next := journal + Written(e);
    ReadFindsIds(journal, e.id);
    assert next[..|next| - 1] == journal;
    if e.splits {
      if j :| InJournal(next, j) && j.id == e.id {
        assert InJournal(journal, j);
      }
    } else {
      FirstWithAppended(Replayed(journal).events, e);
      assert next[|journal|] == Recorded(e);
      assert InJournal(next, e);
    }
  }

  lemma StartOk()
    ensures InvUnique(START) && forall id :: Backed(START, id)
  {
  }
}
