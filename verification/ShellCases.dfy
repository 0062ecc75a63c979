/** Segments inside a `case` construct: which of them get a head of their own, and
    what makes a command malformed.
  */
module ShellCases {
  import opened Common
  import opened ShellScan
  import opened ShellSegments
  import opened ShellOperators

  // ----- The pieces between the cuts ----------------------------------------

  /** The text between two cuts, and the separators. */
  function PiecesOf(s: string, cuts: seq<Event>, start: nat): seq<string>
    requires start <= |s| && CutsIn(cuts, start, |s|)
  {
    if cuts == [] then [s[start..]]
    else [s[start..cuts[0].at]] + PiecesOf(s, cuts[1..], cuts[0].at + cuts[0].width)
  }

  function SeparatorsOf(s: string, cuts: seq<Event>, start: nat): (r: seq<string>)
    requires start <= |s| && CutsIn(cuts, start, |s|)
    ensures |r| == |cuts|
  {
    if cuts == [] then []
    else [s[cuts[0].at..cuts[0].at + cuts[0].width]] + SeparatorsOf(s, cuts[1..], cuts[0].at + cuts[0].width)
  }

  predicate CutsIn(cuts: seq<Event>, from: nat, n: nat) {
    if cuts == [] then from <= n
    else cuts[0].Cut? && from <= cuts[0].at && 0 < cuts[0].width && cuts[0].at + cuts[0].width <= n
         && CutsIn(cuts[1..], cuts[0].at + cuts[0].width, n)
  }

  lemma {:induction false} EarlierCuts(cuts: seq<Event>, from: nat, later: nat, n: nat)
    requires from <= later && CutsIn(cuts, later, n)
    ensures CutsIn(cuts, from, n)
  {
  }

  lemma {:induction false} OrderedCuts(plan: seq<Event>, from: nat, n: nat)
    requires Ordered(plan, from, n)
    ensures CutsIn(CutsOf(plan), from, n)
  {
    if plan != [] {
      match plan[0] {
        case Lost =>
          OrderedCuts(plan[1..], from, n);
          assert CutsOf(plan) == CutsOf(plan[1..]);
        case Nest(a, e) =>
          OrderedCuts(plan[1..], e + 1, n);
          assert CutsOf(plan) == CutsOf(plan[1..]);
          EarlierCuts(CutsOf(plan[1..]), from, e + 1, n);
        case Cut(i, w) =>
          OrderedCuts(plan[1..], i + w, n);
          assert CutsOf(plan)[1..] == CutsOf(plan[1..]);
      }
    }
  }

  // ----- Inside `case` ------------------------------------------------------

  /** `;;`, `;&` and `;;&`: what ends a clause. */
  predicate EndsAClause(separator: string) {
    separator in {";;", ";&", ";;&"}
  }

  /** Some piece up to the n-th opens a `case` construct. */
  ghost predicate InCase(pieces: seq<string>, lexicon: Lexicon, n: int) {
    exists i | 0 <= i <= n && i < |pieces| :: lexicon.startsCase(pieces[i])
  }

  /** The n-th piece is a pattern: inside `case` a clause ended before it, and nothing
      but blanks stands between. */
  ghost predicate IsPattern(pieces: seq<string>, separators: seq<string>, lexicon: Lexicon, n: int) {
    exists j :: PatternAfter(pieces, separators, lexicon, j, n)
  }

  ghost predicate PatternAfter(pieces: seq<string>, separators: seq<string>, lexicon: Lexicon, j: int, n: int) {
    && 0 <= j < n && j < |separators| && EndsAClause(separators[j]) && InCase(pieces, lexicon, j)
    && forall m | j < m < n && m < |pieces| :: Blank(pieces[m])
  }

  /** The bookkeeping before the n-th piece. */
  ghost function CaseAt(k: Case, pieces: seq<string>, separators: seq<string>, lexicon: Lexicon, n: nat): Case
    requires n <= |separators| && |pieces| == |separators| + 1
    decreases n
  {
    if n == 0 then k
    else CaseAt(CaseAfter(k, pieces[0], separators[0], lexicon), pieces[1..], separators[1..], lexicon, n - 1)
  }

  lemma {:induction false} CaseStep(k: Case, pieces: seq<string>, separators: seq<string>, lexicon: Lexicon, n: nat)
    requires n < |separators| && |pieces| == |separators| + 1
    ensures CaseAt(k, pieces, separators, lexicon, n + 1)
      == CaseAfter(CaseAt(k, pieces, separators, lexicon, n), pieces[n], separators[n], lexicon)
    decreases n
  {
    if n > 0 {
      CaseStep(CaseAfter(k, pieces[0], separators[0], lexicon), pieces[1..], separators[1..], lexicon, n - 1);
    }
  }

  lemma InCaseStep(pieces: seq<string>, lexicon: Lexicon, n: nat)
    requires n < |pieces|
    ensures InCase(pieces, lexicon, n) <==> InCase(pieces, lexicon, n - 1) || lexicon.startsCase(pieces[n])
  {
  }

  lemma PatternStep(pieces: seq<string>, separators: seq<string>, lexicon: Lexicon, n: nat)
    requires n < |separators| && |pieces| == |separators| + 1
    ensures IsPattern(pieces, separators, lexicon, n + 1) <==>
      || (EndsAClause(separators[n]) && InCase(pieces, lexicon, n))
      || (IsPattern(pieces, separators, lexicon, n) && Blank(pieces[n]))
  {
    if j :| PatternAfter(pieces, separators, lexicon, j, n) && Blank(pieces[n]) {
      assert PatternAfter(pieces, separators, lexicon, j, n + 1);
    }
    if EndsAClause(separators[n]) && InCase(pieces, lexicon, n) {
      assert PatternAfter(pieces, separators, lexicon, n, n + 1);
    }
    var next := n + 1;
    if j :| PatternAfter(pieces, separators, lexicon, j, next) {
      if j < n {
        assert PatternAfter(pieces, separators, lexicon, j, n);
      }
    }
  }

  lemma ClauseEnds(separator: string)
    requires IsSeparator(separator)
    ensures EndsClause(separator) <==> EndsAClause(separator)
  {
    var a, b, c := ";;", ";&", ";;&";
    assert |a| == 2 && a[0] == ';' && a[1] == ';';
    assert |b| == 2 && b[0] == ';' && b[1] == '&';
    assert |c| == 3 && c[0] == ';' && c[1] == ';' && c[2] == '&';
    if EndsClause(separator) {
      assert separator == a || separator == b || separator == c;
    }
  }

  const OUTSIDE := Case(false, false)

  lemma {:induction false} CaseAtTells(pieces: seq<string>, separators: seq<string>, lexicon: Lexicon, n: nat)
    requires n <= |separators| && |pieces| == |separators| + 1
    requires forall i | 0 <= i < |separators| :: IsSeparator(separators[i])
    ensures CaseAt(OUTSIDE, pieces, separators, lexicon, n) ==
      Case(InCase(pieces, lexicon, n - 1), IsPattern(pieces, separators, lexicon, n))
  {
    if n > 0 {
      CaseAtTells(pieces, separators, lexicon, n - 1);
      CaseStep(OUTSIDE, pieces, separators, lexicon, n - 1);
      InCaseStep(pieces, lexicon, n - 1);
      PatternStep(pieces, separators, lexicon, n - 1);
      ClauseEnds(separators[n - 1]);
    }
  }

  // ----- The segments -------------------------------------------------------

  lemma {:induction false} PiecesSize(s: string, cuts: seq<Event>, start: nat)
    requires start <= |s| && CutsIn(cuts, start, |s|)
    ensures |PiecesOf(s, cuts, start)| == |cuts| + 1
  {
    if cuts != [] {
      PiecesSize(s, cuts[1..], cuts[0].at + cuts[0].width);
    }
  }

  /** The n-th segment: its piece, with a head if one is due, and the separator before. */
  ghost predicate SegmentTells(
      g: Segment, k: Case, pieces: seq<string>, separators: seq<string>, lexicon: Lexicon, incoming: Option<string>, n: nat)
    requires n <= |separators| && |pieces| == |separators| + 1
  {
    && g.text == CaseText(CaseAt(k, pieces, separators, lexicon, n), pieces[n])
    && g.incoming == if n == 0 then incoming else Some(separators[n - 1])
  }

  lemma {:induction false} BuiltTells(
      s: string, lexicon: Lexicon, plan: seq<Event>, start: nat, k: Case, incoming: Option<string>, n: nat)
    requires start <= |s| && Ordered(plan, start, |s|) && n <= |CutsOf(plan)| && CutsIn(CutsOf(plan), start, |s|)
    ensures var top := Built(s, lexicon, plan, start, k, incoming).top;
      var pieces, separators := PiecesOf(s, CutsOf(plan), start), SeparatorsOf(s, CutsOf(plan), start);
      && |top| == |pieces| == |separators| + 1 == |CutsOf(plan)| + 1
      && SegmentTells(top[n], k, pieces, separators, lexicon, incoming, n)
    decreases |plan|
  {
    PiecesSize(s, CutsOf(plan), start);
    BuiltSize(s, lexicon, plan, start, k, incoming);
    if plan != [] {
      match plan[0] {
        case Lost =>
          assert CutsOf(plan) == CutsOf(plan[1..]);
          BuiltTells(s, lexicon, plan[1..], start, k, incoming, n);
        case Nest(a, e) =>
          assert CutsOf(plan) == CutsOf(plan[1..]);
          OrderedFrom(plan[1..], start, e + 1, |s|);
          BuiltTells(s, lexicon, plan[1..], start, k, incoming, n);
        case Cut(i, w) =>
          assert CutsOf(plan)[1..] == CutsOf(plan[1..]);
          BuiltCutTells(s, lexicon, plan, start, k, incoming, n);
      }
    }
  }

  lemma {:induction false} BuiltCutTells(
      s: string, lexicon: Lexicon, plan: seq<Event>, start: nat, k: Case, incoming: Option<string>, n: nat)
    requires start <= |s| && Ordered(plan, start, |s|) && n <= |CutsOf(plan)| && CutsIn(CutsOf(plan), start, |s|)
    requires plan != [] && plan[0].Cut? && CutsOf(plan)[1..] == CutsOf(plan[1..])
    ensures var top := Built(s, lexicon, plan, start, k, incoming).top;
      var pieces, separators := PiecesOf(s, CutsOf(plan), start), SeparatorsOf(s, CutsOf(plan), start);
      |top| == |pieces| == |separators| + 1 && SegmentTells(top[n], k, pieces, separators, lexicon, incoming, n)
    decreases |plan|, 0
  {
    PiecesSize(s, CutsOf(plan), start);
    BuiltSize(s, lexicon, plan, start, k, incoming);
    var next := plan[0].at + plan[0].width;
    var segment, separator := s[start..plan[0].at], s[plan[0].at..next];
    var ps, ss := PiecesOf(s, CutsOf(plan[1..]), next), SeparatorsOf(s, CutsOf(plan[1..]), next);
    var rest := Built(s, lexicon, plan[1..], next, CaseAfter(k, segment, separator, lexicon), Some(separator)).top;
    BuiltTells(s, lexicon, plan[1..], next, CaseAfter(k, segment, separator, lexicon), Some(separator), if n > 0 then n - 1 else 0);
    OneMoreTells(rest, k, segment, separator, ps, ss, lexicon, incoming, n);
  }

  lemma OneMoreTells(
      rest: seq<Segment>, k: Case, segment: string, separator: string, ps: seq<string>, ss: seq<string>, lexicon: Lexicon,
      incoming: Option<string>, n: nat)
    requires n <= |rest| == |ps| == |ss| + 1
    requires n > 0 ==> SegmentTells(rest[n - 1], CaseAfter(k, segment, separator, lexicon), ps, ss, lexicon, Some(separator), n - 1)
    ensures SegmentTells(
      ([Segment(CaseText(k, segment), incoming)] + rest)[n], k, [segment] + ps, [separator] + ss, lexicon, incoming, n)
  {
    assert ([segment] + ps)[1..] == ps && ([separator] + ss)[1..] == ss;
  }

  lemma {:induction false} PlanCutsAreSeparators(s: string, i: nat, start: nat, st: State, ret: State, cut: Event)
    requires start <= i <= |s| && cut.Cut? && cut in Plan(s, i, start, st, ret)
    ensures cut.at + cut.width <= |s| && IsSeparator(s[cut.at..cut.at + cut.width])
    decreases |s| - i, 0
  {
    if i < |s| {
      match KindAt(s, i, start, st, ret) {
        case Plain(st', ret') => PlanCutsAreSeparators(s, i + 1, start, st', ret', cut);
        case Dollar => EnteredCuts(s, i + 2, SubstitutionEnd(s, i + 2, 1, ExpectCommand, ExpectCommand), start, st, ret, cut);
        case Ticks => EnteredCuts(s, i + 1, BacktickEnd(s, i + 1), start, st, ret, cut);
        case Separator =>
          var w := SeparatorWidth(s, i, start);
          WidthIsSeparator(s, i, start);
          if cut != Cut(i, w) {
            PlanCutsAreSeparators(s, i + w, i + w, AfterSeparator, ret, cut);
          }
      }
    }
  }

  lemma {:induction false} EnteredCuts(s: string, a: nat, end: Option<nat>, start: nat, st: State, ret: State, cut: Event)
    requires start < a <= |s| && (end.Some? ==> a <= end.value < |s|) && cut.Cut?
    requires cut in AfterEnter(s, a, end, start, st, ret)
    ensures cut.at + cut.width <= |s| && IsSeparator(s[cut.at..cut.at + cut.width])
    decreases |s| - a, 1
  {
    if end.Some? {
      assert cut in Plan(s, end.value + 1, start, st, ret);
      PlanCutsAreSeparators(s, end.value + 1, start, st, ret, cut);
    } else {
      assert cut in Plan(s, a, start, st, ret);
      PlanCutsAreSeparators(s, a, start, st, ret, cut);
    }
  }

  lemma {:induction false} AllSeparators(s: string, cuts: seq<Event>, start: nat, n: nat)
    requires start <= |s| && CutsIn(cuts, start, |s|) && n < |cuts|
    ensures cuts[n].Cut? && cuts[n].at + cuts[n].width <= |s|
    ensures SeparatorsOf(s, cuts, start)[n] == s[cuts[n].at..cuts[n].at + cuts[n].width]
  {
    if n > 0 {
      AllSeparators(s, cuts[1..], cuts[0].at + cuts[0].width, n - 1);
    }
  }

  /** Every command, `case` or not: the n-th segment at the top is the text between its
      cuts, with `case _ in ` before it if and only if it is a pattern that is not
      blank. */
  lemma SegmentTextExactly(s: string, lexicon: Lexicon, n: nat) returns (pieces: seq<string>, separators: seq<string>)
    requires n < |Split(s, lexicon).top|
    ensures CutsIn(CutsOf(WholePlan(s)), 0, |s|)
    ensures pieces == PiecesOf(s, CutsOf(WholePlan(s)), 0) && separators == SeparatorsOf(s, CutsOf(WholePlan(s)), 0)
    ensures n < |pieces| == |separators| + 1 == |Split(s, lexicon).top|
    ensures var g := Split(s, lexicon).top[n];
      && g.text == (if IsPattern(pieces, separators, lexicon, n) && !Blank(pieces[n]) then "case _ in " else "") + pieces[n]
      && g.incoming == if n == 0 then None else Some(separators[n - 1])
  {
    var plan := WholePlan(s);
    PlanOrdered(s, 0, 0, ExpectCommand, ExpectCommand);
    OrderedCuts(plan, 0, |s|);
    BuiltSize(s, lexicon, plan, 0, OUTSIDE, None);
    BuiltTells(s, lexicon, plan, 0, OUTSIDE, None, n);
    pieces, separators := PiecesOf(s, CutsOf(plan), 0), SeparatorsOf(s, CutsOf(plan), 0);
    CutsOfFacts(plan);
    forall i | 0 <= i < |separators| ensures IsSeparator(separators[i]) {
      AllSeparators(s, CutsOf(plan), 0, i);
      assert CutsOf(plan)[i] in CutsOf(plan);
      PlanCutsAreSeparators(s, 0, 0, ExpectCommand, ExpectCommand, CutsOf(plan)[i]);
    }
    CaseAtTells(pieces, separators, lexicon, n);
    assert "" + pieces[n] == pieces[n];
  }

  // ----- Malformed commands -------------------------------------------------

  ghost predicate NestsMalformed(s: string, lexicon: Lexicon, plan: seq<Event>) {
    exists nest | nest in plan && nest.Nest? :: nest.a <= nest.end <= |s| && Split(s[nest.a..nest.end], lexicon).malformed
  }

  lemma {:induction false} BuiltMalformedExactly(
      s: string, lexicon: Lexicon, plan: seq<Event>, start: nat, k: Case, incoming: Option<string>)
    requires start <= |s| && Ordered(plan, start, |s|)
    ensures Built(s, lexicon, plan, start, k, incoming).malformed <==> Lost in plan || NestsMalformed(s, lexicon, plan)
    decreases |plan|
  {
    if plan != [] {
      assert plan == [plan[0]] + plan[1..];
      assert forall event :: event in plan <==> event == plan[0] || event in plan[1..];
      match plan[0] {
        case Lost => BuiltMalformedExactly(s, lexicon, plan[1..], start, k, incoming);
        case Nest(a, e) =>
          OrderedFrom(plan[1..], start, e + 1, |s|);
          BuiltMalformedExactly(s, lexicon, plan[1..], start, k, incoming);
        case Cut(i, w) =>
          BuiltMalformedExactly(s, lexicon, plan[1..], i + w, CaseAfter(k, s[start..i], s[i..i + w], lexicon), Some(s[i..i + w]));
      }
    }
  }

  /** A command is malformed if and only if its backticks are ambiguous, it leaves a
      substitution or backtick open, or a command nested in it is malformed. */
  lemma MalformedExactly(s: string, lexicon: Lexicon)
    ensures Split(s, lexicon).malformed <==>
      lexicon.ambiguous(s) || !NothingLeftOpen(s) || NestsMalformed(s, lexicon, WholePlan(s))
  {
    LostExactly(s);
    PlanOrdered(s, 0, 0, ExpectCommand, ExpectCommand);
    BuiltMalformedExactly(s, lexicon, WholePlan(s), 0, OUTSIDE, None);
  }
}
