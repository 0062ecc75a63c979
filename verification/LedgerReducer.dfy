/** The v2 event reducer: which turn an event belongs to, when it is dropped, how
    turns close and retire, and when the attribution index is updated.

    Models `apply_v2_event` of core/ledger_v2.py with its turn bookkeeping, and
    the closing and retiring step of `apply_maintenance_plan` in
    core/ledger_maintenance.py. Times are integers in seconds.
  */
module LedgerReducer {
  import opened Common
  import opened Ordering
  import opened PathAttribution
  import Covers
  import Decimals

  const TURN_STALE_AFTER := 24 * 3600
  const MAX_CLOSED_TURNS := 256
  const MAX_RETIRED_TURNS := 256

  /** `work`: the turn's changed paths and verification results. */
  datatype Turn = Turn(turnId: string, lastEventAt: Option<int>, degraded: bool, legacy: bool, work: Covers.Turn)

  datatype Terminal = Terminal(agent: string, turnId: string, seqNo: nat)

  datatype Ledger = Ledger(
    eventSeq: nat, generation: nat, active: map<string, Turn>,
    closed: seq<Terminal>, retired: seq<Terminal>, attribution: Attribution)

  /** A change event as the attribution index and as its turn read it. */
  datatype Kind =
    | Prompt
    | ChangeEvent(change: Change, paths: Covers.Change, uncommitted: bool)
    | VerificationEvent(verification: Verification, covers: Option<Covers.Captured>)
    | Finished
    | Other

  /** `turnId` is None when the payload's is missing or not a string.
      `legacyIdentity` marks synthetic or legacy-default identities. */
  datatype Event = Event(
    kind: Kind, agent: string, legacyIdentity: bool, turnId: Option<string>, seqNo: nat, time: int)

  // ----- Turns --------------------------------------------------------------

  predicate Listed(ts: seq<Terminal>, agent: string, turnId: string) {
    exists t | t in ts :: t.agent == agent && t.turnId == turnId
  }

  predicate IsTerminal(l: Ledger, agent: string, turnId: string) {
    Listed(l.closed, agent, turnId) || Listed(l.retired, agent, turnId)
  }

  function Dropped(ts: seq<Terminal>, agent: string, turnId: string): (r: seq<Terminal>)
    ensures forall t :: t in r <==> t in ts && !(t.agent == agent && t.turnId == turnId)
    ensures |r| <= |ts|
  {
    if ts == [] then []
    else if ts[0].agent == agent && ts[0].turnId == turnId then Dropped(ts[1..], agent, turnId)
    else [ts[0]] + Dropped(ts[1..], agent, turnId)
  }

  function LastOf(ts: seq<Terminal>, n: nat): seq<Terminal> {
    if |ts| <= n then ts else ts[|ts| - n..]
  }

  /** `_remember_closed_turn`: newest last, the oldest beyond the cap forgotten. */
  function Remembered(closed: seq<Terminal>, agent: string, turnId: string, seqNo: nat): seq<Terminal> {
    if turnId == "" then closed
    else LastOf(Dropped(closed, agent, turnId) + [Terminal(agent, turnId, seqNo)], MAX_CLOSED_TURNS)
  }

  predicate Stale(t: Turn, now: int) {
    t.lastEventAt.Some? && now - t.lastEventAt.value > TURN_STALE_AFTER
  }

  function StaleKeys(active: map<string, Turn>, now: int, preserve: Option<string>): set<string> {
    set k | k in active && Some(k) != preserve && Stale(active[k], now)
  }

  function CloseAll(l: Ledger, keys: seq<string>): Ledger {
    if keys == [] then l else
      var prior := CloseAll(l, keys[..|keys| - 1]);
      Closed(prior, keys[|keys| - 1])
  }

  /** Moves the active turn of an agent to the closed list. */
  function Closed(l: Ledger, agent: string): Ledger {
    if agent in l.active then
      l.(active := l.active - {agent}, closed := Remembered(l.closed, agent, l.active[agent].turnId, l.eventSeq))
    else l
  }

  /** `_gc_stale_turns`; stale turns close in the key order a stored ledger has. */
  function Collected(l: Ledger, now: int, preserve: Option<string>): Ledger {
    CloseAll(l, Sorted(StaleKeys(l.active, now, preserve)))
  }

  /** The turn id of an event, or the default that numbers it. */
  function TurnIdOf(e: Event): string {
    if e.turnId.Some? && e.turnId.value != "" then e.turnId.value else "turn-" + Decimals.Decimal(e.seqNo)
  }

  /** The turn's part of a change or verification event. */
  function Worked(work: Covers.Turn, e: Event): Covers.Turn {
    match e.kind
    case ChangeEvent(_, paths, _) => Covers.Recorded(work, paths)
    case VerificationEvent(v, covers) => Covers.Verified(work, v.success, covers)
    case _ => work
  }

  /** `_new_turn`. It records the event once already, without looking at the
      attribution index. */
  function NewTurn(e: Event): Turn {
    var first := if e.kind.ChangeEvent? then e.(kind := e.kind.(paths := Covers.Unattributed(e.kind.paths))) else e;
    Turn(TurnIdOf(e), Some(e.time), false, false, Worked(Covers.START, first))
  }

  /** A turn opened by an event other than a prompt: a change is recorded again. */
  function OpenedTurn(e: Event): Turn {
    var turn := NewTurn(e);
    if e.kind.ChangeEvent? then turn.(work := Worked(turn.work, e)) else turn
  }

  // ----- The reducer --------------------------------------------------------

  /** `_event_turn_key`. */
  function TurnKey(active: map<string, Turn>, e: Event): string {
    if e.kind.Prompt? || e.agent in active || !e.legacyIdentity || |active| != 1 then e.agent
    else Sorted(active.Keys)[0]
  }

  /** A change event that is still uncommitted, or older than the manifest. */
  predicate Superseded(l: Ledger, e: Event) {
    e.kind.ChangeEvent?
    && (e.kind.uncommitted
        || (e.kind.change.generation.Some? && e.kind.change.generation.value < l.generation))
  }

  /** Events of retired turns, and events other than prompts of a turn that is
      not the agent's active one or that has ended. */
  predicate Misdirected(l: Ledger, e: Event, key: string) {
    || (e.turnId.Some? && e.turnId.value != "" && Listed(l.retired, key, e.turnId.value))
    || (!e.kind.Prompt? && key in l.active && e.turnId.Some? && e.turnId.value != ""
        && l.active[key].turnId != e.turnId.value)
    || (!e.kind.Prompt? && key !in l.active && e.turnId.Some? && IsTerminal(l, key, e.turnId.value))
  }

  predicate NamesActive(l: Ledger, e: Event, key: string) {
    key in l.active && Some(l.active[key].turnId) == e.turnId
  }

  /** The ledger after garbage collection, the event's own turn preserved. */
  function Prepared(l: Ledger, e: Event, key: string): Ledger {
    Collected(l, e.time, if NamesActive(l, e, key) then Some(key) else None)
  }

  function AfterFinish(l: Ledger, e: Event, key: string): Ledger {
    if NamesActive(l, e, key) then
      l.(active := l.active - {key}, closed := Remembered(l.closed, key, l.active[key].turnId, e.seqNo))
    else l
  }

  function WithoutLegacy(active: map<string, Turn>): map<string, Turn> {
    if "default" in active && active["default"].legacy then active - {"default"} else active
  }

  /** A prompt leaves a degraded turn its changed paths, not its results. */
  function Reprompted(turn: Turn, e: Event): Turn {
    turn.(lastEventAt := Some(e.time), work := turn.work.(results := []))
  }

  function AfterPrompt(l: Ledger, e: Event, key: string): Ledger {
    var forgotten :=
      if e.turnId.Some? && e.turnId.value != "" then Dropped(l.closed, key, e.turnId.value) else l.closed;
    var active := WithoutLegacy(l.active);
    if key in active && Some(active[key].turnId) == e.turnId then
      var turn :=
        if active[key].degraded then Reprompted(active[key], e) else NewTurn(e);
      l.(active := active[key := turn], closed := forgotten)
    else
      var closed := if key in active then Remembered(forgotten, key, active[key].turnId, e.seqNo) else forgotten;
      l.(active := active[key := NewTurn(e)], closed := closed)
  }

  function AfterOther(l: Ledger, e: Event, key: string): Ledger {
    var turn :=
      if key in l.active then l.active[key].(lastEventAt := Some(e.time), work := Worked(l.active[key].work, e))
      else OpenedTurn(e);
    var moved := l.(active := l.active[key := turn]);
    match e.kind
    case ChangeEvent(c, _, _) =>
      moved.(
        attribution := Recorded(l.attribution, c),
        generation := if c.generation.Some? && c.generation.value > l.generation then c.generation.value else l.generation)
    case VerificationEvent(v, _) => moved.(attribution := VerifiedSettled(l.attribution, v))
    case _ => moved
  }

  function Counted(l: Ledger, e: Event): Ledger {
    l.(eventSeq := if l.eventSeq < e.seqNo then e.seqNo else l.eventSeq)
  }

  predicate Reaches(l: Ledger, e: Event) {
    !Superseded(l, e) && !Misdirected(l, e, TurnKey(l.active, e))
  }

  /** `apply_v2_event`. */
  function Applied(l: Ledger, e: Event): Ledger {
    var counted := Counted(l, e);
    if !Reaches(l, e) then counted else
      var key := TurnKey(l.active, e);
      var ready := Prepared(counted, e, key);
      match e.kind
      case Finished => AfterFinish(ready, e, key)
      case Prompt => AfterPrompt(ready, e, key)
      case _ => AfterOther(ready, e, key)
  }

  // ----- What one event changes ---------------------------------------------

  /** The event raises the manifest generation: a change event that carries a
      larger one and reaches the reducer. */
  predicate Raises(l: Ledger, e: Event) {
    e.kind.ChangeEvent? && e.kind.change.generation.Some? && e.kind.change.generation.value > l.generation && Reaches(l, e)
  }

  lemma {:induction false} CloseAllLeaves(l: Ledger, keys: seq<string>)
    ensures var r := CloseAll(l, keys);
      r.active == l.active - Elements(keys)
      && r.eventSeq == l.eventSeq && r.generation == l.generation && r.retired == l.retired
  {
    if keys != [] {
      var init, last := keys[..|keys| - 1], keys[|keys| - 1];
      CloseAllLeaves(l, init);
      assert keys == init + [last];
      assert Elements(keys) == Elements(init) + {last};
    } else {
      EmptyElements(keys);
    }
  }

  lemma CollectedLeaves(l: Ledger, now: int, preserve: Option<string>)
    ensures var r := Collected(l, now, preserve);
      r.active == l.active - StaleKeys(l.active, now, preserve)
      && r.eventSeq == l.eventSeq && r.generation == l.generation && r.retired == l.retired
  {
    CloseAllLeaves(l, Sorted(StaleKeys(l.active, now, preserve)));
  }

  lemma NothingStale(l: Ledger, now: int, preserve: Option<string>)
    requires forall k | k in l.active :: !Stale(l.active[k], now)
    ensures Collected(l, now, preserve) == l
  {
    EmptyElements(Sorted(StaleKeys(l.active, now, preserve)));
  }

  lemma TakenCounters(ready: Ledger, e: Event, key: string)
    ensures var r := match e.kind
                     case Finished => AfterFinish(ready, e, key)
                     case Prompt => AfterPrompt(ready, e, key)
                     case _ => AfterOther(ready, e, key);
      && r.eventSeq == ready.eventSeq
      && r.generation ==
         if e.kind.ChangeEvent? && e.kind.change.generation.Some? && e.kind.change.generation.value > ready.generation
         then e.kind.change.generation.value else ready.generation
  {
  }

  /** The counter follows the event's number; the generation changes only for an
      event that raises it. */
  lemma AppliedCounters(l: Ledger, e: Event)
    ensures var r := Applied(l, e);
      && r.eventSeq == (if l.eventSeq < e.seqNo then e.seqNo else l.eventSeq)
      && r.generation == (if Raises(l, e) then e.kind.change.generation.value else l.generation)
  {
    var key := TurnKey(l.active, e);
    CollectedLeaves(Counted(l, e), e.time, if NamesActive(l, e, key) then Some(key) else None);
    TakenCounters(Prepared(Counted(l, e), e, key), e, key);
  }

  /** A change event finds the turn idle for too long, and it is not the turn the
      event names. */
  predicate Collects(l: Ledger, e: Event, agent: string) {
    && agent in l.active && Reaches(l, e) && Stale(l.active[agent], e.time)
    && !(TurnKey(l.active, e) == agent && NamesActive(l, e, agent))
  }

  /** It then closes the turn, and otherwise leaves it the active one. */
  lemma ChangeLeavesTurn(l: Ledger, e: Event, agent: string)
    requires agent in l.active && e.kind.ChangeEvent?
    ensures var r := Applied(l, e);
      if Collects(l, e, agent) then agent in r.active ==> r.active[agent] == OpenedTurn(e)
      else agent in r.active && r.active[agent].turnId == l.active[agent].turnId
           && r.active[agent].degraded == l.active[agent].degraded
  {
    var key := TurnKey(l.active, e);
    CollectedLeaves(Counted(l, e), e.time, if NamesActive(l, e, key) then Some(key) else None);
  }

  // ----- Maintenance --------------------------------------------------------

  function RetireAll(l: Ledger, keys: seq<string>): Ledger {
    if keys == [] then l else RetiredOne(RetireAll(l, keys[..|keys| - 1]), keys[|keys| - 1])
  }

  function RetiredOne(l: Ledger, agent: string): Ledger {
    if agent in l.active then
      var id := l.active[agent].turnId;
      l.(active := l.active - {agent},
         retired := if id == "" then l.retired
                    else Dropped(l.retired, agent, id) + [Terminal(agent, id, l.eventSeq)])
    else l
  }

  /** The apply step of `apply_maintenance_plan`, on re-verified keys; refused
      when either list would outgrow its cap. */
  predicate MaintenanceFits(l: Ledger, close: seq<string>, retire: seq<string>) {
    |l.closed| + |close| <= MAX_CLOSED_TURNS && |l.retired| + |retire| <= MAX_RETIRED_TURNS
  }

  function Maintained(l: Ledger, close: seq<string>, retire: seq<string>): Ledger {
    if MaintenanceFits(l, close, retire) then RetireAll(CloseAll(l, close), retire) else l
  }

  lemma {:induction false} RetireAllCounters(l: Ledger, keys: seq<string>)
    ensures RetireAll(l, keys).eventSeq == l.eventSeq && RetireAll(l, keys).generation == l.generation
  {
    if keys != [] {
      RetireAllCounters(l, keys[..|keys| - 1]);
    }
  }

  lemma MaintainedCounters(l: Ledger, close: seq<string>, retire: seq<string>)
    ensures Maintained(l, close, retire).eventSeq == l.eventSeq && Maintained(l, close, retire).generation == l.generation
  {
    CloseAllLeaves(l, close);
    RetireAllCounters(CloseAll(l, close), retire);
  }

  // ----- The ledger as it is edited in place --------------------------------

  class LedgerState {
    var eventSeq: nat
    var generation: nat
    var active: map<string, Turn>
    var closed: seq<Terminal>
    var retired: seq<Terminal>
    const index: AttributionIndex

    /** `default_v2_ledger`, over an index that may have been loaded. */
    constructor (index: AttributionIndex)
      requires Listing(index.order, index.entries)
      ensures Valid() && this.index == index
      ensures Value() == Ledger(0, 0, map[], [], [], index.Value())
    {
      this.index := index;
      eventSeq, generation := 0, 0;
      active, closed, retired := map[], [], [];
    }

    ghost predicate Valid()
      reads this, index
    {
      Listing(index.order, index.entries)
    }

    ghost function Value(): Ledger
      reads this, index
    {
      Ledger(eventSeq, generation, active, closed, retired, index.Value())
    }

    method RememberClosed(agent: string, turnId: string, seqNo: nat)
      modifies this`closed
      ensures closed == Remembered(old(closed), agent, turnId, seqNo)
    {
      if turnId == "" {
        return;
      }
      var entries := Dropped(closed, agent, turnId) + [Terminal(agent, turnId, seqNo)];
      closed := if |entries| > MAX_CLOSED_TURNS then entries[|entries| - MAX_CLOSED_TURNS..] else entries;
    }

    /** `active.pop(key)` and `_remember_closed_turn`, as one step. */
    method Close(agent: string)
      modifies this`active, this`closed
      ensures Value() == Closed(old(Value()), agent)
    {
      if agent in active {
        var turn := active[agent];
        active := active - {agent};
        RememberClosed(agent, turn.turnId, eventSeq);
      }
    }

    method CloseKeys(keys: seq<string>)
      modifies this`active, this`closed
      ensures Value() == CloseAll(old(Value()), keys)
    {
      for n := 0 to |keys|
        invariant Value() == CloseAll(old(Value()), keys[..n])
      {
        assert keys[..n + 1][..n] == keys[..n];
        Close(keys[n]);
      }
      assert keys[..|keys|] == keys;
    }

    method CollectStale(now: int, preserve: Option<string>)
      modifies this`active, this`closed
      ensures Value() == Collected(old(Value()), now, preserve)
    {
      var stale := StaleKeys(active, now, preserve);
      CloseKeys(Sorted(stale));
    }

    /** The guards before an event takes effect. */
    method Admits(e: Event, key: string) returns (admitted: bool)
      requires key == TurnKey(active, e)
      ensures admitted <==> Reaches(Value(), e)
    {
      if e.kind.ChangeEvent? {
        if e.kind.uncommitted {
          return false;
        }
        if e.kind.change.generation.Some? && e.kind.change.generation.value < generation {
          return false;
        }
      }
      if e.turnId.Some? && e.turnId.value != "" && Listed(retired, key, e.turnId.value) {
        return false;
      }
      if !e.kind.Prompt? && key in active && e.turnId.Some? && e.turnId.value != ""
         && active[key].turnId != e.turnId.value {
        return false;
      }
      if !e.kind.Prompt? && key !in active && e.turnId.Some?
         && (Listed(closed, key, e.turnId.value) || Listed(retired, key, e.turnId.value)) {
        return false;
      }
      return true;
    }

    /** `apply_v2_event`. */
    method Apply(e: Event)
      requires Valid()
      modifies this`eventSeq, this`generation, this`active, this`closed, index
      ensures Value() == Applied(old(Value()), e)
    {
      if eventSeq < e.seqNo {
        eventSeq := e.seqNo;
      }
      var key := TurnKey(active, e);
      var admitted := Admits(e, key);
      if !admitted {
        return;
      }
      CollectStale(e.time, if key in active && Some(active[key].turnId) == e.turnId then Some(key) else None);
      match e.kind {
        case Finished => Finish(e, key);
        case Prompt => OpenPrompted(e, key);
        case _ => Continue(e, key);
      }
    }

    method Finish(e: Event, key: string)
      modifies this`active, this`closed
      ensures Value() == AfterFinish(old(Value()), e, key)
    {
      if key in active && Some(active[key].turnId) == e.turnId {
        RememberClosed(key, active[key].turnId, e.seqNo);
        active := active - {key};
      }
    }

    method OpenPrompted(e: Event, key: string)
      modifies this`active, this`closed
      ensures Value() == AfterPrompt(old(Value()), e, key)
    {
      if e.turnId.Some? && e.turnId.value != "" {
        closed := Dropped(closed, key, e.turnId.value);
      }
      if "default" in active && active["default"].legacy {
        active := active - {"default"};
      }
      var turn := NewTurn(e);
      if key in active {
        if Some(active[key].turnId) != e.turnId {
          RememberClosed(key, active[key].turnId, e.seqNo);
        } else if active[key].degraded {
          turn := Reprompted(active[key], e);
        }
      }
      active := active[key := turn];
    }

    method Continue(e: Event, key: string)
      requires Valid() && !e.kind.Finished? && !e.kind.Prompt?
      modifies this`generation, this`active, index
      ensures Value() == AfterOther(old(Value()), e, key)
    {
      var turn := NewTurn(e);
      if key in active {
        turn := active[key].(lastEventAt := Some(e.time), work := Worked(active[key].work, e));
      } else if e.kind.ChangeEvent? {
        turn := turn.(work := Worked(turn.work, e));
      }
      if e.kind.ChangeEvent? {
        index.Record(e.kind.change);
      }
      active := active[key := turn];
      if e.kind.ChangeEvent? && e.kind.change.generation.Some? && e.kind.change.generation.value > generation {
        generation := e.kind.change.generation.value;
      }
      if e.kind.VerificationEvent? {
        index.Settle(e.kind.verification);
      }
    }

    /** The pops of `apply_maintenance_plan`. */
    method Maintain(close: seq<string>, retire: seq<string>) returns (applied: bool)
      modifies this`active, this`closed, this`retired
      ensures applied <==> MaintenanceFits(old(Value()), close, retire)
      ensures Value() == Maintained(old(Value()), close, retire)
    {
      if |closed| + |close| > MAX_CLOSED_TURNS || |retired| + |retire| > MAX_RETIRED_TURNS {
        return false;
      }
      CloseKeys(close);
      ghost var between := Value();
      for n := 0 to |retire|
        invariant Value() == RetireAll(between, retire[..n])
      {
        assert retire[..n + 1][..n] == retire[..n];
        var agent := retire[n];
        if agent in active {
          var turn := active[agent];
          active := active - {agent};
          if turn.turnId != "" {
            retired := Dropped(retired, agent, turn.turnId) + [Terminal(agent, turn.turnId, eventSeq)];
          }
        }
      }
      assert retire[..|retire|] == retire;
      return true;
    }
  }
}
