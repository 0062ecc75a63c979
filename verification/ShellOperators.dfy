/** Which operators open a new command: the separators of a split are the shell's
    operators, found wherever the reference lexer has nothing open.
  */
module ShellOperators {
  import opened Common
  import opened ShellScan
  import opened ShellSegments

  // ----- Operators ----------------------------------------------------------

  predicate IsOneChar(c: char) {
    c in {'\r', '\n', ';', '|', '&'}
  }

  predicate IsPair(a: char, b: char) {
    || (a == '\r' && b == '\n')
    || (a == ';' && b in {';', '&'})
    || (a == '|' && b in {'|', '&'})
    || (a == '&' && b == '&')
  }

  /** CR, LF, CR LF, `;`, `;;`, `;&`, `;;&`, `|`, `||`, `|&`, `&` and `&&`. */
  predicate IsSeparator(t: string) {
    || (|t| == 1 && IsOneChar(t[0]))
    || (|t| == 2 && IsPair(t[0], t[1]))
    || (|t| == 3 && t[0] == ';' && t[1] == ';' && t[2] == '&')
  }

  predicate StandsAt(s: string, p: nat, t: string) {
    p + |t| <= |s| && s[p..p + |t|] == t
  }

  /** It stands there, and no longer one does. */
  ghost predicate IsLongestAt(s: string, p: nat, t: string) {
    StandsAt(s, p, t) && IsSeparator(t) && forall o | IsSeparator(o) && StandsAt(s, p, o) :: |o| <= |t|
  }

  /** The character next to position p. */
  predicate AngleBefore(s: string, p: nat) {
    0 < p <= |s| && s[p - 1] == '>'
  }

  predicate AngleAfter(s: string, p: nat) {
    p + 1 < |s| && s[p + 1] == '>'
  }

  /** The character opens a new command, given where the last separator ended: a
      line break or semicolon always, a pipe unless it belongs to `>|`, an
      ampersand unless it belongs to a redirection or nothing but blanks precede
      it. */
  predicate Opens(s: string, p: nat, from: nat)
    requires from <= p < |s|
  {
    || IsBreak(s[p])
    || (s[p] == '|' && !AngleBefore(s, p))
    || (s[p] == '&' && !AngleBefore(s, p) && !AngleAfter(s, p) && !Blank(s[from..p]))
  }

  lemma WidthExactly(s: string, i: nat, start: nat)
    requires start <= i < |s|
    ensures SeparatorWidth(s, i, start) > 0 <==> Opens(s, i, start)
  {
  }

  lemma WidthIsSeparator(s: string, i: nat, start: nat)
    requires start <= i < |s| && SeparatorWidth(s, i, start) > 0
    ensures IsSeparator(s[i..i + SeparatorWidth(s, i, start)])
  {
    var t := s[i..i + SeparatorWidth(s, i, start)];
    assert t[0] == s[i];
    assert |t| >= 2 ==> t[1] == s[i + 1];
    assert |t| == 3 ==> t[2] == s[i + 2];
  }

  lemma WidthIsLongest(s: string, i: nat, start: nat, o: string)
    requires start <= i < |s| && SeparatorWidth(s, i, start) > 0
    requires IsSeparator(o) && StandsAt(s, i, o)
    ensures |o| <= SeparatorWidth(s, i, start)
  {
    assert o[0] == s[i];
    assert |o| >= 2 ==> o[1] == s[i + 1];
    assert |o| == 3 ==> o[2] == s[i + 2];
  }

  // ----- Where the last separator before a position ended -------------------

  /** The end of the last cut that ends at or before q. */
  ghost function LastEnd(plan: seq<Event>, start: nat, q: nat): nat {
    if plan == [] then start
    else
      match plan[0]
      case Cut(i, w) => if i + w <= q then LastEnd(plan[1..], i + w, q) else start
      case _ => LastEnd(plan[1..], start, q)
  }

  lemma {:induction false} NoCutBefore(plan: seq<Event>, from: nat, n: nat, start: nat, q: nat)
    requires Ordered(plan, from, n) && q <= from
    ensures LastEnd(plan, start, q) == start
  {
    if plan != [] {
      match plan[0] {
        case Lost => NoCutBefore(plan[1..], from, n, start, q);
        case Nest(a, e) => NoCutBefore(plan[1..], e + 1, n, start, q);
        case Cut(i, w) =>
      }
    }
  }

  lemma {:induction false} LastEndBetween(plan: seq<Event>, start: nat, q: nat)
    ensures LastEnd(plan, start, q) == start || LastEnd(plan, start, q) <= q
  {
    if plan != [] {
      match plan[0] {
        case Cut(i, w) =>
          if i + w <= q {
            LastEndBetween(plan[1..], i + w, q);
          }
        case _ => LastEndBetween(plan[1..], start, q);
      }
    }
  }

  ghost predicate Due(s: string, plan: seq<Event>, start: nat, q: nat)
    requires start <= q < |s|
  {
    LastEndBetween(plan, start, q);
    Opens(s, q, LastEnd(plan, start, q))
  }

  lemma DueAfterCut(s: string, cut: Event, rest: seq<Event>, start: nat, q: nat)
    requires cut.Cut? && start <= cut.at && cut.at + cut.width <= q < |s| && Due(s, [cut] + rest, start, q)
    ensures Due(s, rest, cut.at + cut.width, q)
  {
    assert ([cut] + rest)[1..] == rest;
  }

  /** Before position i nothing was cut. */
  lemma DueHere(s: string, i: nat, start: nat, st: State, ret: State)
    requires start <= i < |s| && Due(s, Plan(s, i, start, st, ret), start, i)
    ensures Opens(s, i, start)
  {
    PlanOrdered(s, i, start, st, ret);
    NoCutBefore(Plan(s, i, start, st, ret), i, |s|, start, i);
  }

  lemma OpeningIsCut(s: string, i: nat, start: nat, st: State, ret: State)
    requires start <= i < |s| && Returns(st, ret) && TopFrom(s, i, st, ret, i) && Opens(s, i, start)
    ensures KindAt(s, i, start, st, ret).Separator?
  {
    WidthExactly(s, i, start);
  }

  /** What opens a new command where nothing is open is part of a cut. */
  lemma {:induction false} OpeningsAreCut(s: string, i: nat, start: nat, st: State, ret: State, q: nat) returns (at: nat, width: nat)
    requires start <= i <= q < |s| && Returns(st, ret)
    requires Lost !in Plan(s, i, start, st, ret) && TopFrom(s, i, st, ret, q)
    requires Due(s, Plan(s, i, start, st, ret), start, q)
    ensures Cut(at, width) in Plan(s, i, start, st, ret) && at <= q < at + width
    decreases |s| - i, 2
  {
    if i < q {
      TurnAgrees(s, i, start, st, ret, q);
    } else {
      DueHere(s, i, start, st, ret);
      OpeningIsCut(s, i, start, st, ret);
    }
    match KindAt(s, i, start, st, ret) {
      case Plain(st', ret') =>
        assert Plan(s, i, start, st, ret) == Plan(s, i + 1, start, st', ret');
        at, width := OpeningsAreCut(s, i + 1, start, st', ret', q);
      case Dollar =>
        at, width := OpeningAfterEnter(s, i, i + 2, SubstitutionEnd(s, i + 2, 1, ExpectCommand, ExpectCommand), start, st, ret, q);
      case Ticks => at, width := OpeningAfterEnter(s, i, i + 1, BacktickEnd(s, i + 1), start, st, ret, q);
      case Separator => at, width := OpeningAfterCut(s, i, start, st, ret, q);
    }
  }

  lemma {:induction false} OpeningAfterCut(s: string, i: nat, start: nat, st: State, ret: State, q: nat) returns (at: nat, width: nat)
    requires start <= i <= q < |s| && Returns(st, ret) && KindAt(s, i, start, st, ret).Separator?
    requires Lost !in Plan(s, i, start, st, ret) && TopFrom(s, i, st, ret, q)
    requires Due(s, Plan(s, i, start, st, ret), start, q)
    ensures Cut(at, width) in Plan(s, i, start, st, ret) && at <= q < at + width
    decreases |s| - i, 1
  {
    var w := SeparatorWidth(s, i, start);
    var rest := Plan(s, i + w, i + w, AfterSeparator, ret);
    assert Plan(s, i, start, st, ret) == [Cut(i, w)] + rest;
    if q < i + w {
      at, width := i, w;
    } else {
      CutTurn(s, i, start, st, ret, q);
      DueAfterCut(s, Cut(i, w), rest, start, q);
      at, width := OpeningsAreCut(s, i + w, i + w, AfterSeparator, ret, q);
    }
  }

  lemma {:induction false} OpeningAfterEnter(
      s: string, i: nat, a: nat, end: Option<nat>, start: nat, st: State, ret: State, q: nat) returns (at: nat, width: nat)
    requires start <= i < a <= |s| && (end.Some? ==> a <= end.value < |s|) && Returns(st, ret) && i < q < |s|
    requires Lost !in AfterEnter(s, a, end, start, st, ret)
    requires Passes(s, i, end, st, ret, q) && TopFrom(s, i, st, ret, q)
    requires Due(s, AfterEnter(s, a, end, start, st, ret), start, q)
    ensures Cut(at, width) in AfterEnter(s, a, end, start, st, ret) && at <= q < at + width
    decreases |s| - i, 0
  {
    LostOrNested(s, a, end, start, st, ret);
    var plan := AfterEnter(s, a, end, start, st, ret);
    assert plan[1..] == Plan(s, end.value + 1, start, st, ret);
    at, width := OpeningsAreCut(s, end.value + 1, start, st, ret, q);
  }

  /** And every cut is at what opens a new command, as wide as the operator. */
  ghost predicate Operates(s: string, cut: Event, from: nat) {
    && cut.Cut? && from <= cut.at < |s| && Opens(s, cut.at, from)
    && 0 < cut.width <= |s| - cut.at && IsLongestAt(s, cut.at, s[cut.at..cut.at + cut.width])
  }

  lemma CutOperates(s: string, i: nat, start: nat)
    requires start <= i < |s| && SeparatorWidth(s, i, start) > 0
    ensures Operates(s, Cut(i, SeparatorWidth(s, i, start)), start)
  {
    WidthExactly(s, i, start);
    WidthIsSeparator(s, i, start);
    forall o | IsSeparator(o) && StandsAt(s, i, o) ensures |o| <= SeparatorWidth(s, i, start) {
      WidthIsLongest(s, i, start, o);
    }
  }

  // ----- The cuts, one after the other --------------------------------------

  /** The n-th cut operates on the text since the one before it. */
  ghost predicate CutsOperate(s: string, cuts: seq<Event>, start: nat) {
    if cuts == [] then true
    else Operates(s, cuts[0], start) && CutsOperate(s, cuts[1..], cuts[0].at + cuts[0].width)
  }

  lemma OperatesFirst(s: string, cut: Event, rest: seq<Event>, start: nat)
    requires Operates(s, cut, start) && CutsOperate(s, CutsOf(rest), cut.at + cut.width)
    ensures CutsOperate(s, CutsOf([cut] + rest), start)
  {
    assert ([cut] + rest)[1..] == rest;
    assert ([cut] + CutsOf(rest))[1..] == CutsOf(rest);
  }

  lemma {:induction false} PlanOperates(s: string, i: nat, start: nat, st: State, ret: State)
    requires start <= i <= |s|
    ensures CutsOperate(s, CutsOf(Plan(s, i, start, st, ret)), start)
    decreases |s| - i, 2
  {
    if i < |s| {
      match KindAt(s, i, start, st, ret) {
        case Plain(st', ret') =>
          assert Plan(s, i, start, st, ret) == Plan(s, i + 1, start, st', ret');
          PlanOperates(s, i + 1, start, st', ret');
        case Dollar => EnterOperates(s, i, i + 2, SubstitutionEnd(s, i + 2, 1, ExpectCommand, ExpectCommand), start, st, ret);
        case Ticks => EnterOperates(s, i, i + 1, BacktickEnd(s, i + 1), start, st, ret);
        case Separator => SeparatorOperates(s, i, start, st, ret);
      }
    }
  }

  lemma {:induction false} SeparatorOperates(s: string, i: nat, start: nat, st: State, ret: State)
    requires start <= i < |s| && KindAt(s, i, start, st, ret).Separator?
    ensures CutsOperate(s, CutsOf(Plan(s, i, start, st, ret)), start)
    decreases |s| - i, 1
  {
    var w := SeparatorWidth(s, i, start);
    var rest := Plan(s, i + w, i + w, AfterSeparator, ret);
    PlanOperates(s, i + w, i + w, AfterSeparator, ret);
    CutOperates(s, i, start);
    assert Plan(s, i, start, st, ret) == [Cut(i, w)] + rest;
    OperatesFirst(s, Cut(i, w), rest, start);
  }

  lemma {:induction false} EnterOperates(s: string, i: nat, a: nat, end: Option<nat>, start: nat, st: State, ret: State)
    requires start <= i < a <= |s| && (end.Some? ==> a <= end.value < |s|)
    ensures CutsOperate(s, CutsOf(AfterEnter(s, a, end, start, st, ret)), start)
    decreases |s| - i, 0
  {
    var plan := AfterEnter(s, a, end, start, st, ret);
    if end.Some? {
      PlanOperates(s, end.value + 1, start, st, ret);
      assert plan[1..] == Plan(s, end.value + 1, start, st, ret);
    } else {
      PlanOperates(s, a, start, st, ret);
      assert plan[1..] == Plan(s, a, start, st, ret);
    }
    assert CutsOf(plan) == [] + CutsOf(plan[1..]) == CutsOf(plan[1..]);
  }

  ghost function EndBefore(cuts: seq<Event>, n: nat, start: nat): nat
    requires n <= |cuts| && (n > 0 ==> cuts[n - 1].Cut?)
  {
    if n == 0 then start else cuts[n - 1].at + cuts[n - 1].width
  }

  lemma {:induction false} NthOperates(s: string, cuts: seq<Event>, start: nat, n: nat)
    requires CutsOperate(s, cuts, start) && n < |cuts|
    ensures n > 0 ==> cuts[n - 1].Cut?
    ensures Operates(s, cuts[n], EndBefore(cuts, n, start))
  {
    if n > 0 {
      NthOperates(s, cuts[1..], cuts[0].at + cuts[0].width, n - 1);
    }
  }

  /** The cuts come one after the other. */
  ghost predicate Rising(cuts: seq<Event>, start: nat) {
    if cuts == [] then true
    else cuts[0].Cut? && start <= cuts[0].at && Rising(cuts[1..], cuts[0].at + cuts[0].width)
  }

  lemma {:induction false} OperatingRises(s: string, cuts: seq<Event>, start: nat)
    requires CutsOperate(s, cuts, start)
    ensures Rising(cuts, start)
  {
    if cuts != [] {
      OperatingRises(s, cuts[1..], cuts[0].at + cuts[0].width);
    }
  }

  lemma {:induction false} RisingEnds(cuts: seq<Event>, start: nat, n: nat)
    requires Rising(cuts, start) && n <= |cuts|
    ensures n > 0 ==> cuts[n - 1].Cut?
    ensures start <= EndBefore(cuts, n, start)
  {
    if n > 0 {
      RisingEnds(cuts[1..], cuts[0].at + cuts[0].width, n - 1);
      assert n > 1 ==> cuts[1..][n - 2] == cuts[n - 1];
    }
  }

  /** Between the ends of two cuts the earlier one is the last. */
  ghost predicate LiesAfter(cuts: seq<Event>, start: nat, n: nat, q: nat) {
    && Rising(cuts, start) && start <= q && n <= |cuts|
    && (n > 0 ==> cuts[n - 1].Cut? && cuts[n - 1].at + cuts[n - 1].width <= q)
    && (n < |cuts| ==> cuts[n].Cut? && q < cuts[n].at + cuts[n].width)
  }

  lemma LiesAfterRest(cut: Event, rest: seq<Event>, start: nat, n: nat, q: nat)
    requires LiesAfter([cut] + rest, start, n, q) && n > 0
    ensures cut.Cut? && cut.at + cut.width <= q && LiesAfter(rest, cut.at + cut.width, n - 1, q)
    ensures EndBefore([cut] + rest, n, start) == EndBefore(rest, n - 1, cut.at + cut.width)
  {
    var cuts := [cut] + rest;
    assert cuts[1..] == rest;
    RisingEnds(rest, cut.at + cut.width, n - 1);
    assert n > 1 ==> rest[n - 2] == cuts[n - 1];
    assert n < |cuts| ==> rest[n - 1] == cuts[n];
  }

  lemma {:induction false} LastEndOfCuts(plan: seq<Event>, start: nat, q: nat, n: nat)
    requires LiesAfter(CutsOf(plan), start, n, q)
    ensures LastEnd(plan, start, q) == EndBefore(CutsOf(plan), n, start)
  {
    if plan != [] {
      var rest := CutsOf(plan[1..]);
      match plan[0] {
        case Cut(i, w) =>
          assert CutsOf(plan) == [plan[0]] + rest;
          if n > 0 {
            LiesAfterRest(plan[0], rest, start, n, q);
            LastEndOfCuts(plan[1..], i + w, q, n - 1);
          }
        case _ =>
          assert CutsOf(plan) == [] + rest == rest;
          LastEndOfCuts(plan[1..], start, q, n);
      }
    }
  }

  // ----- The separators of a command ----------------------------------------

  /** Where the text of segment n begins: after its separator. */
  ghost function TextStart(top: seq<Segment>, n: nat): nat
    requires n < |top|
  {
    |Whole(top[..n])| + |Incoming(top[n].incoming)|
  }

  lemma CutAt(s: string, lexicon: Lexicon, n: nat) returns (cuts: seq<Event>)
    requires NoCase(s, lexicon) && 1 <= n < |Split(s, lexicon).top|
    ensures cuts == CutsOf(WholePlan(s)) && |cuts| == |Split(s, lexicon).top| - 1 && CutsOperate(s, cuts, 0)
    ensures (forall e | e in cuts :: e.Cut?) && cuts[n - 1].Cut?
    ensures Follows(s, Split(s, lexicon).top, n, cuts[n - 1], 0, 0)
    ensures EndBefore(cuts, n, 0) == TextStart(Split(s, lexicon).top, n)
  {
    var plan := WholePlan(s);
    PlanOrdered(s, 0, 0, ExpectCommand, ExpectCommand);
    BuiltSize(s, lexicon, plan, 0, Case(false, false), None);
    CutPositions(s, lexicon, plan, 0, None, n - 1);
    CutsOfFacts(plan);
    PlanOperates(s, 0, 0, ExpectCommand, ExpectCommand);
    cuts := CutsOf(plan);
    assert cuts[n - 1] in cuts;
    NthOperates(s, cuts, 0, n - 1);
  }

  lemma FirstStart(s: string, lexicon: Lexicon)
    ensures |Split(s, lexicon).top| > 0 && TextStart(Split(s, lexicon).top, 0) == 0
  {
    PlanOrdered(s, 0, 0, ExpectCommand, ExpectCommand);
    BuiltSize(s, lexicon, WholePlan(s), 0, Case(false, false), None);
    assert Split(s, lexicon).top[..0] == [];
  }

  /** The n-th segment's text begins where the cut before it ends. */
  lemma StartIsEnd(s: string, lexicon: Lexicon, n: nat)
    requires NoCase(s, lexicon) && n < |Split(s, lexicon).top|
    ensures var cuts := CutsOf(WholePlan(s));
      n <= |cuts| && (n > 0 ==> cuts[n - 1].Cut?) && EndBefore(cuts, n, 0) == TextStart(Split(s, lexicon).top, n)
  {
    if n > 0 {
      var cuts := CutAt(s, lexicon, n);
    } else {
      FirstStart(s, lexicon);
    }
  }

  /** The separator of a segment is what was cut. */
  ghost predicate SeparatedBy(s: string, top: seq<Segment>, n: nat, from: nat) {
    && 1 <= n < |top| && top[n].incoming.Some?
    && from <= |Whole(top[..n])| < |s| && Opens(s, |Whole(top[..n])|, from)
    && IsLongestAt(s, |Whole(top[..n])|, top[n].incoming.value)
  }

  lemma CutSeparates(s: string, top: seq<Segment>, n: nat, cut: Event, from: nat)
    requires Follows(s, top, n, cut, 0, 0) && Operates(s, cut, from)
    ensures SeparatedBy(s, top, n, from)
  {
  }

  /** In a command without `case`, the separator before each segment is the longest
      operator at its place, and its first character opens a new command there. */
  lemma SeparatorsAreOperators(s: string, lexicon: Lexicon, n: nat)
    requires NoCase(s, lexicon) && 1 <= n < |Split(s, lexicon).top|
    ensures SeparatedBy(s, Split(s, lexicon).top, n, TextStart(Split(s, lexicon).top, n - 1))
  {
    var cuts := CutAt(s, lexicon, n);
    NthOperates(s, cuts, 0, n - 1);
    StartIsEnd(s, lexicon, n - 1);
    CutSeparates(s, Split(s, lexicon).top, n, cuts[n - 1], EndBefore(cuts, n - 1, 0));
  }

  /** Position q comes after the separator of segment n and before the end of the
      next one. */
  ghost predicate Within(top: seq<Segment>, n: nat, q: nat)
    requires n < |top|
  {
    TextStart(top, n) <= q && (n + 1 < |top| ==> q < TextStart(top, n + 1))
  }

  lemma LastEndIsStart(s: string, lexicon: Lexicon, n: nat, q: nat)
    requires NoCase(s, lexicon) && n < |Split(s, lexicon).top| && Within(Split(s, lexicon).top, n, q)
    ensures LastEnd(WholePlan(s), 0, q) == TextStart(Split(s, lexicon).top, n)
  {
    var plan, top := WholePlan(s), Split(s, lexicon).top;
    PlanOrdered(s, 0, 0, ExpectCommand, ExpectCommand);
    BuiltSize(s, lexicon, plan, 0, Case(false, false), None);
    PlanOperates(s, 0, 0, ExpectCommand, ExpectCommand);
    CutsOfFacts(plan);
    StartIsEnd(s, lexicon, n);
    if n + 1 < |top| {
      StartIsEnd(s, lexicon, n + 1);
    }
    OperatingRises(s, CutsOf(plan), 0);
    LastEndOfCuts(plan, 0, q, n);
  }

  /** In a command without `case` that leaves nothing open: outside quotes, escapes,
      backticks and substitutions, every semicolon and line break, every pipe that
      does not belong to `>|`, and every ampersand that belongs to no redirection
      and has text since the last separator is part of a separator. */
  lemma OperatorsSeparate(s: string, lexicon: Lexicon, n: nat, q: nat) returns (m: nat)
    requires NoCase(s, lexicon) && NothingLeftOpen(s) && q < |s| && TopAt(s, START, q)
    requires n < |Split(s, lexicon).top| && Within(Split(s, lexicon).top, n, q)
    requires Opens(s, q, TextStart(Split(s, lexicon).top, n))
    ensures var top := Split(s, lexicon).top;
      1 <= m < |top| && top[m].incoming.Some?
      && |Whole(top[..m])| <= q < |Whole(top[..m])| + |top[m].incoming.value|
  {
    PlanOrdered(s, 0, 0, ExpectCommand, ExpectCommand);
    LostExactly(s);
    LastEndIsStart(s, lexicon, n, q);
    var at, width := OpeningsAreCut(s, 0, 0, ExpectCommand, ExpectCommand, q);
    m := PlanCut(s, lexicon, Cut(at, width));
  }

  /** Every position lies within exactly one segment and its next separator. */
  lemma {:induction false} WithinSome(s: string, lexicon: Lexicon, q: nat, k: nat) returns (n: nat)
    requires NoCase(s, lexicon) && k < |Split(s, lexicon).top| && TextStart(Split(s, lexicon).top, k) <= q
    ensures n < |Split(s, lexicon).top| && Within(Split(s, lexicon).top, n, q)
    decreases |Split(s, lexicon).top| - k
  {
    var top := Split(s, lexicon).top;
    if k + 1 < |top| && TextStart(top, k + 1) <= q {
      n := WithinSome(s, lexicon, q, k + 1);
    } else {
      n := k;
    }
  }

  /** So a line break, a semicolon or a pipe there always separates, unless `>`
      stands before the pipe. */
  lemma BreaksAndPipesSeparate(s: string, lexicon: Lexicon, q: nat) returns (m: nat)
    requires NoCase(s, lexicon) && NothingLeftOpen(s) && q < |s| && TopAt(s, START, q)
    requires s[q] in {'\r', '\n', ';'} || (s[q] == '|' && !(q > 0 && s[q - 1] == '>'))
    ensures var top := Split(s, lexicon).top;
      1 <= m < |top| && top[m].incoming.Some?
      && |Whole(top[..m])| <= q < |Whole(top[..m])| + |top[m].incoming.value|
  {
    FirstStart(s, lexicon);
    var n := WithinSome(s, lexicon, q, 0);
    m := OperatorsSeparate(s, lexicon, n, q);
  }
}
