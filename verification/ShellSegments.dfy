/** Command segments: `_command_segments` of core/destructive_guard.py, which
    cuts shell text at the separators that open a new command.
  */
module ShellSegments {
  import opened Common
  import opened ShellScan

  /** The segments of the text itself, those of commands nested in it, and whether
      some nested command has no end. */
  datatype Scan = Scan(top: seq<Segment>, nested: seq<Segment>, malformed: bool)

  /** `case` bookkeeping. */
  datatype Case = Case(active: bool, expects: bool)

  predicate Blank(s: string) {
    forall c | c in s :: IsSpace(c)
  }

  /** The width of the separator at i, 0 if there is none. */
  function SeparatorWidth(s: string, i: nat, start: nat): (w: nat)
    requires start <= i < |s|
    ensures w <= 3 && i + w <= |s|
  {
    var c := s[i];
    if c == '\r' || c == '\n' then (if Two(s, i, '\r', '\n') then 2 else 1)
    else if c == ';' then
      (if Two(s, i, ';', ';') && i + 2 < |s| && s[i + 2] == '&' then 3
       else if Two(s, i, ';', ';') || Two(s, i, ';', '&') then 2
       else 1)
    else if c == '|' && (i == 0 || s[i - 1] != '>') then
      (if Two(s, i, '|', '|') || Two(s, i, '|', '&') then 2 else 1)
    else if c == '&' && !((i > 0 && s[i - 1] == '>') || (i + 1 < |s| && s[i + 1] == '>')) && !Blank(s[start..i]) then
      (if Two(s, i, '&', '&') then 2 else 1)
    else 0
  }

  /** What the loop does with one character: move on, jump over a nested command,
      or cut. */
  datatype Kind = Plain(st: State, ret: State) | Dollar | Ticks | Separator

  function KindOf(c: char, dollar: bool, angle: bool, separates: bool, st: State, ret: State): Kind {
    if st.Escaped? then Plain(ret, ret)
    else if st.SingleQuote? then Plain(if c == '\'' then InArguments else st, ret)
    else if c == '\\' then Plain(Escaped, st)
    else if c == '"' then Plain(if st.DoubleQuote? then InArguments else DoubleQuote, ret)
    else if dollar then Dollar
    else if c == '`' then Ticks
    else if st.DoubleQuote? then Plain(st, ret)
    else if c == '\'' then Plain(SingleQuote, ret)
    else if angle then Dollar
    else if separates then Separator
    else Plain(if IsSpace(c) then st else InArguments, ret)
  }

  function KindAt(s: string, i: nat, start: nat, st: State, ret: State): (r: Kind)
    requires start <= i < |s|
    ensures r.Dollar? ==> i + 2 <= |s|
  {
    KindOf(s[i], Two(s, i, '$', '('), Two(s, i, '<', '(') || Two(s, i, '>', '('), SeparatorWidth(s, i, start) > 0, st, ret)
  }

  /** What a scan meets: a nested command from a to its end, an opening without an
      end, or a separator. */
  datatype Event = Nest(a: nat, end: nat) | Lost | Cut(at: nat, width: nat)

  /** The events of the scan from i on. */
  function Plan(s: string, i: nat, start: nat, st: State, ret: State): seq<Event>
    requires start <= i <= |s|
    decreases |s| - i, 1
  {
    if i == |s| then [] else AfterKind(s, i, start, st, ret, KindAt(s, i, start, st, ret))
  }

  function AfterKind(s: string, i: nat, start: nat, st: State, ret: State, kind: Kind): seq<Event>
    requires start <= i < |s| && (kind.Dollar? ==> i + 2 <= |s|) && (kind.Separator? ==> SeparatorWidth(s, i, start) > 0)
    decreases |s| - i, 0
  {
    match kind
    case Plain(st', ret') => Plan(s, i + 1, start, st', ret')
    case Dollar => AfterEnter(s, i + 2, SubstitutionEnd(s, i + 2, 1, ExpectCommand, ExpectCommand), start, st, ret)
    case Ticks => AfterEnter(s, i + 1, BacktickEnd(s, i + 1), start, st, ret)
    case Separator =>
      var w := SeparatorWidth(s, i, start);
      [Cut(i, w)] + Plan(s, i + w, i + w, AfterSeparator, ret)
  }

  function AfterEnter(s: string, a: nat, end: Option<nat>, start: nat, st: State, ret: State): seq<Event>
    requires start < a <= |s| && (end.Some? ==> a <= end.value < |s|)
    decreases |s| - a, 2
  {
    match end
    case None => [Lost] + Plan(s, a, start, st, ret)
    case Some(e) => [Nest(a, e)] + Plan(s, e + 1, start, st, ret)
  }

  // ----- From events to segments --------------------------------------------

  const CASE_HEAD := "case _ in "

  function CaseText(k: Case, segment: string): string {
    if k.expects && !Blank(segment) then CASE_HEAD + segment else segment
  }

  /** `;;`, `;&` or `;;&`. */
  predicate EndsClause(separator: string) {
    |separator| >= 2 && separator[0] == ';' && separator[1] in {';', '&'}
  }

  function CaseAfter(k: Case, segment: string, separator: string, lexicon: Lexicon): Case {
    var active := k.active || lexicon.startsCase(segment);
    Case(active, (active && EndsClause(separator)) || (k.expects && Blank(segment)))
  }

  /** The events lie one after the other between `from` and n. */
  predicate Ordered(plan: seq<Event>, from: nat, n: nat) {
    if plan == [] then from <= n else
      match plan[0]
      case Lost => Ordered(plan[1..], from, n)
      case Nest(a, e) => from < a <= e < n && Ordered(plan[1..], e + 1, n)
      case Cut(i, w) => from <= i && 0 < w && i + w <= n && Ordered(plan[1..], i + w, n)
  }

  lemma {:induction false} OrderedFrom(plan: seq<Event>, from: nat, later: nat, n: nat)
    requires from <= later && Ordered(plan, later, n)
    ensures Ordered(plan, from, n)
  {
    if plan != [] && plan[0].Lost? {
      OrderedFrom(plan[1..], from, later, n);
    } else if plan == [] {
    }
  }

  /** Segments from the events that are left; `start` is where the segment began. */
  function Built(
      s: string, lexicon: Lexicon, plan: seq<Event>, start: nat, k: Case, incoming: Option<string>): Scan
    requires start <= |s| && Ordered(plan, start, |s|)
    decreases |s|, 0, |plan|
  {
    if plan == [] then Scan([Segment(CaseText(k, s[start..]), incoming)], [], false)
    else
      match plan[0]
      case Lost => Built(s, lexicon, plan[1..], start, k, incoming).(malformed := true)
      case Nest(a, e) =>
        OrderedFrom(plan[1..], start, e + 1, |s|);
        var inner := Split(s[a..e], lexicon);
        var rest := Built(s, lexicon, plan[1..], start, k, incoming);
        Scan(rest.top, inner.top + inner.nested + rest.nested, inner.malformed || rest.malformed)
      case Cut(i, w) =>
        var segment, separator := s[start..i], s[i..i + w];
        var rest := Built(s, lexicon, plan[1..], i + w, CaseAfter(k, segment, separator, lexicon), Some(separator));
        rest.(top := [Segment(CaseText(k, segment), incoming)] + rest.top)
  }

  lemma {:induction false} PlanOrdered(s: string, i: nat, start: nat, st: State, ret: State)
    requires start <= i <= |s|
    ensures Ordered(Plan(s, i, start, st, ret), i, |s|)
    decreases |s| - i
  {
    if i < |s| {
      var kind := KindAt(s, i, start, st, ret);
      var plan := AfterKind(s, i, start, st, ret, kind);
      match kind {
        case Plain(st', ret') =>
          PlanOrdered(s, i + 1, start, st', ret');
          OrderedFrom(plan, i, i + 1, |s|);
        case Dollar => EnterOrdered(s, i, i + 2, SubstitutionEnd(s, i + 2, 1, ExpectCommand, ExpectCommand), start, st, ret);
        case Ticks => EnterOrdered(s, i, i + 1, BacktickEnd(s, i + 1), start, st, ret);
        case Separator =>
          var w := SeparatorWidth(s, i, start);
          PlanOrdered(s, i + w, i + w, AfterSeparator, ret);
          assert plan[1..] == Plan(s, i + w, i + w, AfterSeparator, ret);
      }
    }
  }

  lemma {:induction false} EnterOrdered(s: string, i: nat, a: nat, end: Option<nat>, start: nat, st: State, ret: State)
    requires start <= i < a <= |s| && (end.Some? ==> a <= end.value < |s|)
    ensures Ordered(AfterEnter(s, a, end, start, st, ret), i, |s|)
    decreases |s| - i, 0
  {
    var plan := AfterEnter(s, a, end, start, st, ret);
    if end.Some? {
      PlanOrdered(s, end.value + 1, start, st, ret);
      assert plan[1..] == Plan(s, end.value + 1, start, st, ret);
    } else {
      PlanOrdered(s, a, start, st, ret);
      assert plan[1..] == Plan(s, a, start, st, ret);
      OrderedFrom(plan[1..], i, a, |s|);
    }
  }

  function Split(s: string, lexicon: Lexicon): Scan
    decreases |s|, 1
  {
    PlanOrdered(s, 0, 0, ExpectCommand, ExpectCommand);
    var scan := Built(s, lexicon, Plan(s, 0, 0, ExpectCommand, ExpectCommand), 0, Case(false, false), None);
    scan.(malformed := scan.malformed || lexicon.ambiguous(s))
  }

  // ----- The loop -----------------------------------------------------------

  ghost predicate Turned(command: string, index: nat, start: nat, state: State, ret: State, kind: Kind, closing: Option<nat>)
    requires start <= index < |command|
  {
    && (kind.Dollar? ==> index + 2 <= |command|) && (kind.Separator? ==> SeparatorWidth(command, index, start) > 0)
    && AfterKind(command, index, start, state, ret, kind) == Plan(command, index, start, state, ret)
    && (kind.Dollar? ==> closing == SubstitutionEnd(command, index + 2, 1, ExpectCommand, ExpectCommand))
    && (kind.Ticks? ==> closing == BacktickEnd(command, index + 1))
  }

  /** One pass through the branches of the loop, and the end of the nested command
      if one opens here. */
  method TakeTurn(command: string, index: nat, start: nat, state: State, ret: State) returns (kind: Kind, closing: Option<nat>)
    requires start <= index < |command|
    ensures Turned(command, index, start, state, ret, kind, closing)
    ensures !kind.Dollar? && !kind.Ticks? ==> closing.None?
  {
    closing := None;
    var c := command[index];
    if state.Escaped? {
      kind := Plain(ret, ret);
    } else if state.SingleQuote? {
      kind := Plain(if c == '\'' then InArguments else state, ret);
    } else if c == '\\' {
      kind := Plain(Escaped, state);
    } else if c == '"' {
      kind := Plain(if state.DoubleQuote? then InArguments else DoubleQuote, ret);
    } else if Two(command, index, '$', '(')
              || (!state.DoubleQuote? && (Two(command, index, '<', '(') || Two(command, index, '>', '('))) {
      closing := FindSubstitutionEnd(command, index + 1);
      kind := Dollar;
    } else if c == '`' {
      closing := FindBacktickEnd(command, index);
      kind := Ticks;
    } else if state.DoubleQuote? {
      kind := Plain(state, ret);
    } else if c == '\'' {
      kind := Plain(SingleQuote, ret);
    } else if SeparatorWidth(command, index, start) > 0 {
      kind := Separator;
    } else {
      kind := Plain(if IsSpace(c) then state else InArguments, ret);
    }
    assert kind == KindAt(command, index, start, state, ret);
  }

  ghost function Rest(
      command: string, lexicon: Lexicon, index: nat, start: nat, state: State, ret: State, k: Case, incoming: Option<string>): Scan
    requires start <= index <= |command|
  {
    PlanOrdered(command, index, start, state, ret);
    OrderedFrom(Plan(command, index, start, state, ret), start, index, |command|);
    Built(command, lexicon, Plan(command, index, start, state, ret), start, k, incoming)
  }

  lemma RestAfterCut(
      command: string, lexicon: Lexicon, index: nat, start: nat, state: State, ret: State, k: Case, incoming: Option<string>)
    requires start <= index < |command| && Turned(command, index, start, state, ret, Separator, None)
    ensures var w := SeparatorWidth(command, index, start);
      var segment, separator := command[start..index], command[index..index + w];
      var rest := Rest(command, lexicon, index + w, index + w, AfterSeparator, ret,
                       CaseAfter(k, segment, separator, lexicon), Some(separator));
      Rest(command, lexicon, index, start, state, ret, k, incoming)
        == rest.(top := [Segment(CaseText(k, segment), incoming)] + rest.top)
  {
    var w := SeparatorWidth(command, index, start);
    var plan := Plan(command, index, start, state, ret);
    assert plan[1..] == Plan(command, index + w, index + w, AfterSeparator, ret);
  }

  lemma RestAfterLost(
      command: string, lexicon: Lexicon, index: nat, inside: nat, start: nat, state: State, ret: State, k: Case,
      incoming: Option<string>)
    requires start <= index < inside <= |command|
    requires Plan(command, index, start, state, ret) == AfterEnter(command, inside, None, start, state, ret)
    ensures Rest(command, lexicon, index, start, state, ret, k, incoming)
      == Rest(command, lexicon, inside, start, state, ret, k, incoming).(malformed := true)
  {
    var plan := Plan(command, index, start, state, ret);
    assert plan[1..] == Plan(command, inside, start, state, ret);
  }

  lemma RestAfterNested(
      command: string, lexicon: Lexicon, index: nat, inside: nat, end: nat, start: nat, state: State, ret: State, k: Case,
      incoming: Option<string>)
    requires start <= index < inside <= end < |command|
    requires Plan(command, index, start, state, ret) == AfterEnter(command, inside, Some(end), start, state, ret)
    ensures var inner := Split(command[inside..end], lexicon);
      var rest := Rest(command, lexicon, end + 1, start, state, ret, k, incoming);
      Rest(command, lexicon, index, start, state, ret, k, incoming)
        == Scan(rest.top, inner.top + inner.nested + rest.nested, inner.malformed || rest.malformed)
  {
    var plan := Plan(command, index, start, state, ret);
    assert plan[1..] == Plan(command, end + 1, start, state, ret);
  }

  /** The variables of the loop. */
  datatype Progress = Progress(
    top: seq<Segment>, nested: seq<Segment>, malformed: bool, start: nat, index: nat,
    state: State, ret: State, k: Case, incoming: Option<string>)

  predicate InText(command: string, v: Progress) {
    v.start <= v.index <= |command|
  }

  /** What was collected, with what is still to come. */
  ghost function Outcome(command: string, lexicon: Lexicon, v: Progress): Scan
    requires InText(command, v)
  {
    var rest := Rest(command, lexicon, v.index, v.start, v.state, v.ret, v.k, v.incoming);
    Scan(v.top + rest.top, v.nested + rest.nested, v.malformed || rest.malformed)
  }

  method CutHere(command: string, lexicon: Lexicon, v: Progress) returns (r: Progress)
    requires InText(command, v) && v.index < |command|
    requires Turned(command, v.index, v.start, v.state, v.ret, Separator, None)
    ensures InText(command, r) && r.index > v.index && Outcome(command, lexicon, r) == Outcome(command, lexicon, v)
  {
    RestAfterCut(command, lexicon, v.index, v.start, v.state, v.ret, v.k, v.incoming);
    var next := v.index + SeparatorWidth(command, v.index, v.start);
    var segment, separator := command[v.start..v.index], command[v.index..next];
    r := Progress(
      v.top + [Segment(CaseText(v.k, segment), v.incoming)], v.nested, v.malformed, next, next,
      AfterSeparator, v.ret, CaseAfter(v.k, segment, separator, lexicon), Some(separator));
    assert v.top + ([r.top[|v.top|]] + Rest(command, lexicon, next, next, r.state, r.ret, r.k, r.incoming).top)
      == r.top + Rest(command, lexicon, next, next, r.state, r.ret, r.k, r.incoming).top;
  }

  lemma OutcomeAfterLost(command: string, lexicon: Lexicon, v: Progress, inside: nat)
    requires InText(command, v) && v.index < inside <= |command|
    requires Plan(command, v.index, v.start, v.state, v.ret) == AfterEnter(command, inside, None, v.start, v.state, v.ret)
    ensures Outcome(command, lexicon, v.(malformed := true, index := inside)) == Outcome(command, lexicon, v)
  {
    RestAfterLost(command, lexicon, v.index, inside, v.start, v.state, v.ret, v.k, v.incoming);
  }

  lemma OutcomeAfterNested(command: string, lexicon: Lexicon, v: Progress, inside: nat, end: nat, inner: Scan)
    requires InText(command, v) && v.index < inside <= end < |command| && inner == Split(command[inside..end], lexicon)
    requires Plan(command, v.index, v.start, v.state, v.ret) == AfterEnter(command, inside, Some(end), v.start, v.state, v.ret)
    ensures var r := v.(nested := v.nested + (inner.top + inner.nested), malformed := v.malformed || inner.malformed, index := end + 1);
      Outcome(command, lexicon, r) == Outcome(command, lexicon, v)
  {
    RestAfterNested(command, lexicon, v.index, inside, end, v.start, v.state, v.ret, v.k, v.incoming);
    var more := inner.top + inner.nested;
    var rest := Rest(command, lexicon, end + 1, v.start, v.state, v.ret, v.k, v.incoming);
    assert v.nested + (more + rest.nested) == (v.nested + more) + rest.nested;
  }

  method EnterHere(command: string, lexicon: Lexicon, v: Progress, inside: nat, closing: Option<nat>) returns (r: Progress)
    requires InText(command, v) && v.index < inside <= |command| && (closing.Some? ==> inside <= closing.value < |command|)
    requires Plan(command, v.index, v.start, v.state, v.ret) == AfterEnter(command, inside, closing, v.start, v.state, v.ret)
    ensures InText(command, r) && r.index > v.index && Outcome(command, lexicon, r) == Outcome(command, lexicon, v)
    decreases |command|, 0
  {
    if closing.None? {
      OutcomeAfterLost(command, lexicon, v, inside);
      return v.(malformed := true, index := inside);
    }
    var inner, innerMalformed := CommandSegments(command[inside..closing.value], lexicon);
    OutcomeAfterNested(command, lexicon, v, inside, closing.value, Split(command[inside..closing.value], lexicon));
    r := v.(nested := v.nested + inner, malformed := v.malformed || innerMalformed, index := closing.value + 1);
  }

  /** `_command_segments`. */
  method CommandSegments(command: string, lexicon: Lexicon) returns (segments: seq<Segment>, malformed: bool)
    ensures segments == Split(command, lexicon).top + Split(command, lexicon).nested
    ensures malformed == Split(command, lexicon).malformed
    decreases |command|, 1
  {
    var v := Progress([], [], lexicon.ambiguous(command), 0, 0, ExpectCommand, ExpectCommand, Case(false, false), None);
    assert Outcome(command, lexicon, v) == Split(command, lexicon);
    while v.index < |command|
      invariant InText(command, v) && Outcome(command, lexicon, v) == Split(command, lexicon)
      decreases |command| - v.index
    {
      var kind, closing := TakeTurn(command, v.index, v.start, v.state, v.ret);
      match kind {
        case Plain(st, ret) => v := v.(state := st, ret := ret, index := v.index + 1);
        case Separator => v := CutHere(command, lexicon, v);
        case Dollar => v := EnterHere(command, lexicon, v, v.index + 2, closing);
        case Ticks => v := EnterHere(command, lexicon, v, v.index + 1, closing);
      }
    }
    segments := v.top + [Segment(CaseText(v.k, command[v.start..]), v.incoming)] + v.nested;
    malformed := v.malformed;
  }

  // ----- Nothing is lost ----------------------------------------------------

  function Incoming(o: Option<string>): string {
    if o.Some? then o.value else ""
  }

  /** The segments with their separators between them. */
  function Whole(segments: seq<Segment>): string {
    if segments == [] then "" else Incoming(segments[0].incoming) + segments[0].text + Whole(segments[1..])
  }

  /** No part of the text opens a `case` construct. */
  ghost predicate NoCase(s: string, lexicon: Lexicon) {
    forall a, b | 0 <= a <= b <= |s| :: !lexicon.startsCase(s[a..b])
  }

  lemma {:induction false} BuiltLosesNothing(s: string, lexicon: Lexicon, plan: seq<Event>, start: nat, incoming: Option<string>)
    requires start <= |s| && Ordered(plan, start, |s|) && NoCase(s, lexicon)
    ensures Whole(Built(s, lexicon, plan, start, Case(false, false), incoming).top) == Incoming(incoming) + s[start..]
    decreases |plan|
  {
    if plan == [] {
      LastSegment(s, lexicon, start, incoming);
    } else if plan[0].Cut? {
      RestLosesNothing(s, lexicon, plan, start);
      BuiltAtCut(s, lexicon, plan, start, incoming, CutRest(s, lexicon, plan));
    } else {
      PastLosesNothing(s, lexicon, plan, start, incoming);
    }
  }

  lemma {:induction false} RestLosesNothing(s: string, lexicon: Lexicon, plan: seq<Event>, start: nat)
    requires start <= |s| && Ordered(plan, start, |s|) && NoCase(s, lexicon) && plan != [] && plan[0].Cut?
    ensures Whole(CutRest(s, lexicon, plan)) == s[plan[0].at..plan[0].at + plan[0].width] + s[plan[0].at + plan[0].width..]
    decreases |plan|, 0
  {
    var next := plan[0].at + plan[0].width;
    var separator := s[plan[0].at..next];
    BuiltLosesNothing(s, lexicon, plan[1..], next, Some(separator));
    assert Incoming(Some(separator)) == separator;
  }

  lemma {:induction false} PastLosesNothing(s: string, lexicon: Lexicon, plan: seq<Event>, start: nat, incoming: Option<string>)
    requires start <= |s| && Ordered(plan, start, |s|) && NoCase(s, lexicon) && plan != [] && !plan[0].Cut?
    ensures Whole(Built(s, lexicon, plan, start, Case(false, false), incoming).top) == Incoming(incoming) + s[start..]
    decreases |plan|, 0
  {
    BuiltPastNested(s, lexicon, plan, start, incoming);
    BuiltLosesNothing(s, lexicon, plan[1..], start, incoming);
  }

  lemma LastSegment(s: string, lexicon: Lexicon, start: nat, incoming: Option<string>)
    requires start <= |s|
    ensures Whole(Built(s, lexicon, [], start, Case(false, false), incoming).top) == Incoming(incoming) + s[start..]
  {
    assert Built(s, lexicon, [], start, Case(false, false), incoming).top == [Segment(s[start..], incoming)];
    assert Whole([]) == "";
  }

  /** A nested command cuts nothing at the top level. */
  lemma BuiltPastNested(s: string, lexicon: Lexicon, plan: seq<Event>, start: nat, incoming: Option<string>)
    requires start <= |s| && Ordered(plan, start, |s|) && plan != [] && !plan[0].Cut?
    ensures Ordered(plan[1..], start, |s|)
    ensures Built(s, lexicon, plan, start, Case(false, false), incoming).top
      == Built(s, lexicon, plan[1..], start, Case(false, false), incoming).top
  {
    if plan[0].Nest? {
      OrderedFrom(plan[1..], start, plan[0].end + 1, |s|);
    }
  }

  /** The segments after the first cut. */
  ghost function CutRest(s: string, lexicon: Lexicon, plan: seq<Event>): seq<Segment>
    requires plan != [] && plan[0].Cut? && plan[0].at + plan[0].width <= |s|
    requires Ordered(plan[1..], plan[0].at + plan[0].width, |s|)
  {
    var i, w := plan[0].at, plan[0].width;
    Built(s, lexicon, plan[1..], i + w, Case(false, false), Some(s[i..i + w])).top
  }

  lemma BuiltFromCut(s: string, lexicon: Lexicon, plan: seq<Event>, start: nat, incoming: Option<string>)
    requires start <= |s| && Ordered(plan, start, |s|) && NoCase(s, lexicon) && plan != [] && plan[0].Cut?
    ensures Built(s, lexicon, plan, start, Case(false, false), incoming).top
      == [Segment(s[start..plan[0].at], incoming)] + CutRest(s, lexicon, plan)
  {
    var i, w := plan[0].at, plan[0].width;
    assert !lexicon.startsCase(s[start..i]);
    assert CaseAfter(Case(false, false), s[start..i], s[i..i + w], lexicon) == Case(false, false);
  }

  lemma BuiltAtCut(s: string, lexicon: Lexicon, plan: seq<Event>, start: nat, incoming: Option<string>, rest: seq<Segment>)
    requires start <= |s| && Ordered(plan, start, |s|) && NoCase(s, lexicon) && plan != [] && plan[0].Cut?
    requires rest == CutRest(s, lexicon, plan)
    requires Whole(rest) == s[plan[0].at..plan[0].at + plan[0].width] + s[plan[0].at + plan[0].width..]
    ensures Whole(Built(s, lexicon, plan, start, Case(false, false), incoming).top) == Incoming(incoming) + s[start..]
  {
    var top := Built(s, lexicon, plan, start, Case(false, false), incoming).top;
    BuiltFromCut(s, lexicon, plan, start, incoming);
    CutLosesNothing(s, start, plan[0].at, plan[0].width, incoming, top, rest);
  }

  lemma CutLosesNothing(
      s: string, start: nat, i: nat, w: nat, incoming: Option<string>, top: seq<Segment>, rest: seq<Segment>)
    requires start <= i && i + w <= |s| && Whole(rest) == s[i..i + w] + s[i + w..]
    requires top == [Segment(s[start..i], incoming)] + rest
    ensures Whole(top) == Incoming(incoming) + s[start..]
  {
    assert top[1..] == rest;
    Regrouped(Incoming(incoming), s, start, i, w);
  }

  lemma Regrouped(before: string, s: string, start: nat, i: nat, w: nat)
    requires start <= i && i + w <= |s|
    ensures before + s[start..i] + (s[i..i + w] + s[i + w..]) == before + s[start..]
  {
    assert s[start..] == s[start..i] + (s[i..i + w] + s[i + w..]);
  }

  /** For a command without `case` the top-level segments and their separators,
      put together again, are the command. */
  lemma SegmentsLoseNothing(s: string, lexicon: Lexicon)
    requires NoCase(s, lexicon)
    ensures Whole(Split(s, lexicon).top) == s
  {
    PlanOrdered(s, 0, 0, ExpectCommand, ExpectCommand);
    BuiltLosesNothing(s, lexicon, Plan(s, 0, 0, ExpectCommand, ExpectCommand), 0, None);
    assert s[0..] == s;
  }

  // ----- Cuts lie at the top level ------------------------------------------

  lemma KindAgrees(c: char, dollar: bool, angle: bool, separates: bool, i: nat, st: State, ret: State)
    requires Returns(st, ret) && (dollar ==> c == '$') && (angle ==> c == '<' || c == '>')
    ensures var x := LexerOf(i, Top, st, ret);
      match KindOf(c, dollar, angle, separates, st, ret)
      case Plain(st', ret') => Returns(st', ret') && NextOn(c, dollar, angle, x) == LexerOf(i + 1, Top, st', ret')
      case Dollar => !st.Escaped? && NextOn(c, dollar, angle, x) == Lexer(i + 2, Paren(x.open), false)
      case Ticks => !st.Escaped? && NextOn(c, dollar, angle, x) == Lexer(i + 1, Tick(x.open), false)
      case Separator => x == Lexer(i, Top, false)
  {
  }

  predicate IsOperator(c: char) {
    c in {'\r', '\n', ';', '|', '&'}
  }

  lemma SeparatorIsPlain(s: string, i: nat, start: nat, q: nat)
    requires start <= i < |s| && i <= q < i + SeparatorWidth(s, i, start)
    ensures IsOperator(s[q])
  {
  }

  lemma {:induction false} PlainSkip(s: string, i: nat, width: nat, p: nat)
    requires i + width <= |s| && i + width <= p && forall q | i <= q < i + width :: IsOperator(s[q])
    ensures TopAt(s, Lexer(i, Top, false), p) <==> TopAt(s, Lexer(i + width, Top, false), p)
    decreases width
  {
    if width > 0 {
      assert IsOperator(s[i]);
      assert Next(s, Lexer(i, Top, false)) == Lexer(i + 1, Top, false);
      PlainSkip(s, i + 1, width - 1, p);
    }
  }

  lemma CutSkips(s: string, i: nat, start: nat, p: nat)
    requires start <= i < |s| && i + SeparatorWidth(s, i, start) <= p
    ensures TopAt(s, Lexer(i, Top, false), p) <==> TopAt(s, Lexer(i + SeparatorWidth(s, i, start), Top, false), p)
  {
    var w := SeparatorWidth(s, i, start);
    forall q | i <= q < i + w ensures IsOperator(s[q]) {
      SeparatorIsPlain(s, i, start, q);
    }
    PlainSkip(s, i, w, p);
  }

  /** Position p, seen from the scanner's place, is at the top level. */
  ghost predicate TopFrom(s: string, i: nat, st: State, ret: State, p: nat) {
    TopAt(s, LexerOf(i, Top, st, ret), p)
  }

  lemma KindAgreesAt(s: string, i: nat, start: nat, st: State, ret: State)
    requires start <= i < |s| && Returns(st, ret)
    ensures var x := LexerOf(i, Top, st, ret);
      match KindAt(s, i, start, st, ret)
      case Plain(st', ret') => Returns(st', ret') && Next(s, x) == LexerOf(i + 1, Top, st', ret')
      case Dollar => !st.Escaped? && Next(s, x) == Lexer(i + 2, Paren(x.open), false)
      case Ticks => !st.Escaped? && Next(s, x) == Lexer(i + 1, Tick(x.open), false)
      case Separator => x == Lexer(i, Top, false)
  {
    var dollar, angle := Two(s, i, '$', '('), Two(s, i, '<', '(') || Two(s, i, '>', '(');
    KindAgrees(s[i], dollar, angle, SeparatorWidth(s, i, start) > 0, i, st, ret);
  }

  ghost predicate Passes(s: string, i: nat, end: Option<nat>, st: State, ret: State, p: nat) {
    TopFrom(s, i, st, ret, p) <==> end.Some? && p > end.value && TopFrom(s, end.value + 1, st, ret, p)
  }

  lemma EntersNested(s: string, i: nat, x: Lexer, p: nat)
    requires x.at == i < |s| && i < p && Next(s, x) == Lexer(i + 2, Paren(x.open), false)
    ensures var end := SubstitutionEnd(s, i + 2, 1, ExpectCommand, ExpectCommand);
      TopAt(s, x, p) <==> end.Some? && p > end.value && TopAt(s, Lexer(end.value + 1, x.open, false), p)
  {
    NestedCloses(s, i, x.open, p);
  }

  lemma EntersTicks(s: string, i: nat, x: Lexer, p: nat)
    requires x.at == i < |s| && i < p && Next(s, x) == Lexer(i + 1, Tick(x.open), false)
    ensures var end := BacktickEnd(s, i + 1);
      TopAt(s, x, p) <==> end.Some? && p > end.value && TopAt(s, Lexer(end.value + 1, x.open, false), p)
  {
    TickCloses(s, i + 1, x.open, p);
  }

  lemma PlainTurn(s: string, i: nat, st: State, ret: State, st': State, ret': State, p: nat)
    requires i < |s| && i < p && Next(s, LexerOf(i, Top, st, ret)) == LexerOf(i + 1, Top, st', ret')
    ensures TopFrom(s, i, st, ret, p) <==> TopFrom(s, i + 1, st', ret', p)
  {
  }

  /** What the scanner passes over without a cut, the lexer passes over too. */
  lemma TurnAgrees(s: string, i: nat, start: nat, st: State, ret: State, p: nat)
    requires start <= i < |s| && i < p && Returns(st, ret)
    ensures match KindAt(s, i, start, st, ret)
      case Plain(st', ret') => Returns(st', ret') && (TopFrom(s, i, st, ret, p) <==> TopFrom(s, i + 1, st', ret', p))
      case Dollar => Passes(s, i, SubstitutionEnd(s, i + 2, 1, ExpectCommand, ExpectCommand), st, ret, p)
      case Ticks => Passes(s, i, BacktickEnd(s, i + 1), st, ret, p)
      case Separator => true
  {
    var x := LexerOf(i, Top, st, ret);
    KindAgreesAt(s, i, start, st, ret);
    match KindAt(s, i, start, st, ret) {
      case Plain(st', ret') => PlainTurn(s, i, st, ret, st', ret', p);
      case Dollar => EntersNested(s, i, x, p);
      case Ticks => EntersTicks(s, i, x, p);
      case Separator =>
    }
  }

  lemma CutTurn(s: string, i: nat, start: nat, st: State, ret: State, p: nat)
    requires start <= i < |s| && Returns(st, ret) && KindAt(s, i, start, st, ret).Separator?
    ensures TopFrom(s, i, st, ret, i)
    ensures var w := SeparatorWidth(s, i, start);
      i + w <= p ==> (TopFrom(s, i, st, ret, p) <==> TopFrom(s, i + w, AfterSeparator, ret, p))
  {
    KindAgreesAt(s, i, start, st, ret);
    if i + SeparatorWidth(s, i, start) <= p {
      CutSkips(s, i, start, p);
    }
  }

  /** Every separator the scanner cuts at lies at the top level. */
  lemma {:induction false} CutsAtTop(s: string, i: nat, start: nat, st: State, ret: State, at: nat, width: nat)
    requires start <= i <= |s| && Returns(st, ret)
    requires Lost !in Plan(s, i, start, st, ret) && Cut(at, width) in Plan(s, i, start, st, ret)
    ensures i <= at && at + width <= |s| && TopFrom(s, i, st, ret, at)
    decreases |s| - i
  {
    if i < at {
      TurnAgrees(s, i, start, st, ret, at);
    }
    KindAgreesAt(s, i, start, st, ret);
    match KindAt(s, i, start, st, ret) {
      case Plain(st', ret') => CutsAtTop(s, i + 1, start, st', ret', at, width);
      case Dollar => CutAfterEnter(s, i, i + 2, SubstitutionEnd(s, i + 2, 1, ExpectCommand, ExpectCommand), start, st, ret, at, width);
      case Ticks => CutAfterEnter(s, i, i + 1, BacktickEnd(s, i + 1), start, st, ret, at, width);
      case Separator =>
        var w := SeparatorWidth(s, i, start);
        CutTurn(s, i, start, st, ret, at);
        if Cut(at, width) != Cut(i, w) {
          CutsAtTop(s, i + w, i + w, AfterSeparator, ret, at, width);
        }
    }
  }

  lemma LostOrNested(s: string, a: nat, end: Option<nat>, start: nat, st: State, ret: State)
    requires start < a <= |s| && (end.Some? ==> a <= end.value < |s|)
    requires Lost !in AfterEnter(s, a, end, start, st, ret)
    ensures end.Some? && AfterEnter(s, a, end, start, st, ret) == [Nest(a, end.value)] + Plan(s, end.value + 1, start, st, ret)
  {
    var plan := AfterEnter(s, a, end, start, st, ret);
    assert plan[0] in plan;
  }

  lemma {:induction false} CutAfterEnter(
      s: string, i: nat, a: nat, end: Option<nat>, start: nat, st: State, ret: State, at: nat, width: nat)
    requires start <= i < a <= |s| && (end.Some? ==> a <= end.value < |s|) && Returns(st, ret)
    requires Lost !in AfterEnter(s, a, end, start, st, ret) && Cut(at, width) in AfterEnter(s, a, end, start, st, ret)
    requires i < at ==> Passes(s, i, end, st, ret, at)
    ensures i <= at && at + width <= |s| && TopFrom(s, i, st, ret, at)
    decreases |s| - i, 0
  {
    LostOrNested(s, a, end, start, st, ret);
    CutsAtTop(s, end.value + 1, start, st, ret, at, width);
  }

  predicate IsBreak(c: char) {
    c == ';' || c == '\n' || c == '\r'
  }

  // ----- The cuts as positions in the command -------------------------------

  function CutsOf(plan: seq<Event>): seq<Event> {
    if plan == [] then [] else (if plan[0].Cut? then [plan[0]] else []) + CutsOf(plan[1..])
  }

  lemma {:induction false} CutsOfFacts(plan: seq<Event>)
    ensures forall e :: e in CutsOf(plan) <==> e in plan && e.Cut?
  {
    if plan != [] {
      CutsOfFacts(plan[1..]);
      assert plan == [plan[0]] + plan[1..];
    }
  }

  lemma {:induction false} WholeOfPrefix(segments: seq<Segment>, more: seq<Segment>)
    ensures Whole(segments + more) == Whole(segments) + Whole(more)
  {
    if segments == [] {
      assert segments + more == more;
    } else {
      assert (segments + more)[1..] == segments[1..] + more;
      WholeOfPrefix(segments[1..], more);
    }
  }

  lemma {:induction false} BuiltSize(s: string, lexicon: Lexicon, plan: seq<Event>, start: nat, k: Case, incoming: Option<string>)
    requires start <= |s| && Ordered(plan, start, |s|)
    ensures var top := Built(s, lexicon, plan, start, k, incoming).top;
      |top| == |CutsOf(plan)| + 1 && top[0].incoming == incoming
    decreases |plan|
  {
    if plan != [] {
      match plan[0] {
        case Lost => BuiltSize(s, lexicon, plan[1..], start, k, incoming);
        case Nest(a, e) =>
          OrderedFrom(plan[1..], start, e + 1, |s|);
          BuiltSize(s, lexicon, plan[1..], start, k, incoming);
        case Cut(i, w) =>
          BuiltSize(s, lexicon, plan[1..], i + w, CaseAfter(k, s[start..i], s[i..i + w], lexicon), Some(s[i..i + w]));
      }
    }
  }

  /** Segment n follows the separator of this cut, which stands where the segments
      before it, the first with `before` characters in front, end. */
  ghost predicate Follows(s: string, top: seq<Segment>, n: nat, cut: Event, start: nat, before: nat) {
    && 1 <= n < |top| && cut.Cut? && cut.at + cut.width <= |s|
    && start + |Whole(top[..n])| == before + cut.at
    && top[n].incoming == Some(s[cut.at..cut.at + cut.width])
  }

  lemma FirstFollows(s: string, first: Segment, rest: seq<Segment>, cut: Event, start: nat)
    requires cut.Cut? && start <= cut.at && cut.at + cut.width <= |s| && first.text == s[start..cut.at]
    requires rest != [] && rest[0].incoming == Some(s[cut.at..cut.at + cut.width])
    ensures Follows(s, [first] + rest, 1, cut, start, |Incoming(first.incoming)|)
  {
    assert ([first] + rest)[..1] == [first];
    assert Whole([first][1..]) == "";
  }

  lemma LaterFollows(s: string, first: Segment, rest: seq<Segment>, n: nat, cut: Event, start: nat, next: nat, width: nat)
    requires start <= next && next + width <= |s| && first.text == s[start..next]
    requires Follows(s, rest, n, cut, next + width, width)
    ensures Follows(s, [first] + rest, n + 1, cut, start, |Incoming(first.incoming)|)
  {
    assert ([first] + rest)[..n + 1] == [first] + rest[..n];
    WholeOfPrefix([first], rest[..n]);
    assert Whole([first][1..]) == "";
  }

  /** The n-th separator stands where the first n segments end. */
  lemma {:induction false} CutPositions(
      s: string, lexicon: Lexicon, plan: seq<Event>, start: nat, incoming: Option<string>, n: nat)
    requires start <= |s| && Ordered(plan, start, |s|) && NoCase(s, lexicon) && n < |CutsOf(plan)|
    ensures Follows(s, Built(s, lexicon, plan, start, Case(false, false), incoming).top, n + 1,
                    CutsOf(plan)[n], start, |Incoming(incoming)|)
    decreases |plan|
  {
    match plan[0] {
      case Lost => CutPositions(s, lexicon, plan[1..], start, incoming, n);
      case Nest(a, e) =>
        OrderedFrom(plan[1..], start, e + 1, |s|);
        CutPositions(s, lexicon, plan[1..], start, incoming, n);
      case Cut(i, w) =>
        var first, rest := Segment(s[start..i], incoming), CutRest(s, lexicon, plan);
        BuiltFromCut(s, lexicon, plan, start, incoming);
        if n > 0 {
          CutPositions(s, lexicon, plan[1..], i + w, Some(s[i..i + w]), n - 1);
          LaterFollows(s, first, rest, n, CutsOf(plan[1..])[n - 1], start, i, w);
        } else {
          BuiltSize(s, lexicon, plan[1..], i + w, Case(false, false), Some(s[i..i + w]));
          FirstFollows(s, first, rest, plan[0], start);
        }
    }
  }

  lemma {:induction false} BuiltMalformed(s: string, lexicon: Lexicon, plan: seq<Event>, start: nat, k: Case, incoming: Option<string>)
    requires start <= |s| && Ordered(plan, start, |s|) && !Built(s, lexicon, plan, start, k, incoming).malformed
    ensures Lost !in plan
    decreases |plan|
  {
    if plan != [] {
      assert plan == [plan[0]] + plan[1..];
      match plan[0] {
        case Lost =>
        case Nest(a, e) =>
          OrderedFrom(plan[1..], start, e + 1, |s|);
          BuiltMalformed(s, lexicon, plan[1..], start, k, incoming);
        case Cut(i, w) =>
          BuiltMalformed(s, lexicon, plan[1..], i + w, CaseAfter(k, s[start..i], s[i..i + w], lexicon), Some(s[i..i + w]));
      }
    }
  }

  ghost function WholePlan(s: string): seq<Event> {
    Plan(s, 0, 0, ExpectCommand, ExpectCommand)
  }

  /** The scanner meets an opening without an end exactly if the lexer ends inside
      a substitution or a backtick. */
  lemma {:induction false} LostFrom(s: string, i: nat, start: nat, st: State, ret: State)
    requires start <= i <= |s| && Returns(st, ret)
    ensures Lost in Plan(s, i, start, st, ret) <==> !TopFrom(s, i, st, ret, |s| + 1)
    decreases |s| - i
  {
    if i < |s| {
      TurnAgrees(s, i, start, st, ret, |s| + 1);
      KindAgreesAt(s, i, start, st, ret);
      match KindAt(s, i, start, st, ret) {
        case Plain(st', ret') => LostFrom(s, i + 1, start, st', ret');
        case Dollar => LostAfterEnter(s, i, i + 2, SubstitutionEnd(s, i + 2, 1, ExpectCommand, ExpectCommand), start, st, ret);
        case Ticks => LostAfterEnter(s, i, i + 1, BacktickEnd(s, i + 1), start, st, ret);
        case Separator =>
          var w := SeparatorWidth(s, i, start);
          CutTurn(s, i, start, st, ret, |s| + 1);
          LostFrom(s, i + w, i + w, AfterSeparator, ret);
      }
    }
  }

  lemma {:induction false} LostAfterEnter(s: string, i: nat, a: nat, end: Option<nat>, start: nat, st: State, ret: State)
    requires start <= i < a <= |s| && (end.Some? ==> a <= end.value < |s|) && Returns(st, ret)
    requires Passes(s, i, end, st, ret, |s| + 1)
    ensures Lost in AfterEnter(s, a, end, start, st, ret) <==> !TopFrom(s, i, st, ret, |s| + 1)
    decreases |s| - i, 0
  {
    if end.Some? {
      LostFrom(s, end.value + 1, start, st, ret);
    } else {
      assert AfterEnter(s, a, end, start, st, ret)[0] == Lost;
    }
  }

  lemma LostExactly(s: string)
    ensures Lost in WholePlan(s) <==> !NothingLeftOpen(s)
  {
    LostFrom(s, 0, 0, ExpectCommand, ExpectCommand);
    PastTheEnd(s, START);
  }

  /** So a text that leaves one open is always reported malformed. */
  lemma LeftOpenIsMalformed(s: string, lexicon: Lexicon)
    requires !NothingLeftOpen(s)
    ensures Split(s, lexicon).malformed
  {
    LostExactly(s);
    PlanOrdered(s, 0, 0, ExpectCommand, ExpectCommand);
    if !Split(s, lexicon).malformed {
      BuiltMalformed(s, lexicon, WholePlan(s), 0, Case(false, false), None);
    }
  }

  lemma SplitCut(s: string, lexicon: Lexicon, n: nat) returns (cut: Event)
    requires NoCase(s, lexicon) && NothingLeftOpen(s) && 1 <= n < |Split(s, lexicon).top|
    ensures cut in WholePlan(s) && Lost !in WholePlan(s)
    ensures Follows(s, Split(s, lexicon).top, n, cut, 0, 0)
  {
    var plan := WholePlan(s);
    PlanOrdered(s, 0, 0, ExpectCommand, ExpectCommand);
    BuiltSize(s, lexicon, plan, 0, Case(false, false), None);
    LostExactly(s);
    CutPositions(s, lexicon, plan, 0, None, n - 1);
    CutsOfFacts(plan);
    cut := CutsOf(plan)[n - 1];
    assert cut in CutsOf(plan);
  }

  /** In a command without `case` that leaves nothing open, the separator before
      each segment lies outside quotes, escapes, backticks and substitutions. */
  lemma SeparatorsAreTop(s: string, lexicon: Lexicon, n: nat)
    requires NoCase(s, lexicon) && NothingLeftOpen(s) && 1 <= n < |Split(s, lexicon).top|
    ensures var top := Split(s, lexicon).top;
      var p := |Whole(top[..n])|;
      && TopAt(s, START, p) && top[n].incoming.Some?
      && p + |top[n].incoming.value| <= |s| && s[p..p + |top[n].incoming.value|] == top[n].incoming.value
  {
    var cut := SplitCut(s, lexicon, n);
    CutsAtTop(s, 0, 0, ExpectCommand, ExpectCommand, cut.at, cut.width);
  }

  lemma PlanCut(s: string, lexicon: Lexicon, cut: Event) returns (n: nat)
    requires NoCase(s, lexicon) && cut in WholePlan(s) && cut.Cut?
    ensures Follows(s, Split(s, lexicon).top, n, cut, 0, 0)
  {
    var plan := WholePlan(s);
    PlanOrdered(s, 0, 0, ExpectCommand, ExpectCommand);
    CutsOfFacts(plan);
    var m :| 0 <= m < |CutsOf(plan)| && CutsOf(plan)[m] == cut;
    CutPositions(s, lexicon, plan, 0, None, m);
    n := m + 1;
  }

  // ----- A command that leaves one open -------------------------------------

  const UNCLOSED := "$(a;b"

  predicate IsUnclosed(s: string) {
    |s| == 5 && s[0] == '$' && s[1] == '(' && s[2] == 'a' && s[3] == ';' && s[4] == 'b'
  }

  lemma UnclosedPlan(s: string)
    requires IsUnclosed(s)
    ensures WholePlan(s) == [Lost, Cut(3, 1)]
  {
    var e := ExpectCommand;
    assert SubstitutionEnd(s, 4, 1, e, e).None?;
    assert SubstitutionEnd(s, 3, 1, e, e).None?;
    assert SubstitutionEnd(s, 2, 1, e, e).None?;
    assert KindAt(s, 4, 4, AfterSeparator, e) == Plain(InArguments, e);
    assert Plan(s, 5, 4, InArguments, e) == [];
    assert Plan(s, 4, 4, AfterSeparator, e) == [];
    assert KindAt(s, 3, 0, InArguments, e) == Separator && SeparatorWidth(s, 3, 0) == 1;
    assert Plan(s, 3, 0, InArguments, e) == [Cut(3, 1)];
    assert KindAt(s, 2, 0, e, e) == Plain(InArguments, e);
    assert Plan(s, 2, 0, e, e) == [Cut(3, 1)];
    assert KindAt(s, 0, 0, e, e) == Dollar;
    assert AfterKind(s, 0, 0, e, e, Dollar) == AfterEnter(s, 2, None, 0, e, e) == [Lost] + Plan(s, 2, 0, e, e);
  }

  lemma UnclosedLexed(s: string)
    requires IsUnclosed(s)
    ensures !TopAt(s, START, 3) && !NothingLeftOpen(s)
  {
    var x2, x3 := Lexer(2, Paren(Top), false), Lexer(3, Paren(Top), false);
    var x4, x5 := Lexer(4, Paren(Top), false), Lexer(5, Paren(Top), false);
    assert Next(s, START) == x2 && Next(s, x2) == x3 && Next(s, x3) == x4 && Next(s, x4) == x5;
    assert Final(s, x4) == Final(s, x5) == x5;
    assert Final(s, x2) == Final(s, x3) == x5;
    assert Final(s, START) == x5;
    assert !TopAt(s, x3, 3) && !TopAt(s, x2, 3);
  }

  lemma UnclosedBuilt(s: string, lexicon: Lexicon)
    requires IsUnclosed(s) && NoCase(s, lexicon)
    ensures Split(s, lexicon).top == [Segment(s[..3], None), Segment(s[4..], Some(s[3..4]))]
  {
    var k := Case(false, false);
    var plan := [Lost, Cut(3, 1)];
    UnclosedPlan(s);
    assert plan[1..] == [Cut(3, 1)] && plan[1..][1..] == [];
    BuiltPastNested(s, lexicon, plan, 0, None);
    BuiltFromCut(s, lexicon, plan[1..], 0, None);
    assert CutRest(s, lexicon, plan[1..]) == [Segment(s[4..], Some(s[3..4]))];
    assert s[0..3] == s[..3];
  }

  /** The scanner cuts `$(a;b` at the semicolon, though the substitution around it
      is open there; and it says so. */
  lemma UnclosedIsCut(lexicon: Lexicon)
    requires NoCase(UNCLOSED, lexicon)
    ensures Split(UNCLOSED, lexicon).top == [Segment("$(a", None), Segment("b", Some(";"))]
    ensures !TopAt(UNCLOSED, START, 3) && !NothingLeftOpen(UNCLOSED) && Split(UNCLOSED, lexicon).malformed
  {
    UnclosedLexed(UNCLOSED);
    UnclosedBuilt(UNCLOSED, lexicon);
    LeftOpenIsMalformed(UNCLOSED, lexicon);
    assert UNCLOSED[..3] == "$(a" && UNCLOSED[4..] == "b" && UNCLOSED[3..4] == ";";
  }
}
