/** Splitting shell text into command segments.

    Models `_find_backtick_end`, `_find_substitution_end` and `_command_segments` of
    core/destructive_guard.py. Whether a segment opens a `case` construct and
    whether backticks nest ambiguously are decided elsewhere and are parameters.
  */
module ShellScan {
  import opened Common

  datatype State = ExpectCommand | AfterSeparator | InArguments | SingleQuote | DoubleQuote | Escaped

  datatype Segment = Segment(text: string, incoming: Option<string>)

  datatype Lexicon = Lexicon(startsCase: string -> bool, ambiguous: string -> bool)

  /** The two characters stand at position i. */
  predicate Two(s: string, i: nat, a: char, b: char) {
    i + 1 < |s| && s[i] == a && s[i + 1] == b
  }

  // ----- Finding the end of a quoted command --------------------------------

  /** The first unescaped backtick from i on. */
  function BacktickEnd(s: string, i: nat): (r: Option<nat>)
    ensures r.Some? ==> i <= r.value < |s| && s[r.value] == '`'
    decreases if i < |s| then |s| - i else 0
  {
    if i >= |s| then None
    else if s[i] == '\\' then BacktickEnd(s, i + 2)
    else if s[i] == '`' then Some(i)
    else BacktickEnd(s, i + 1)
  }

  /** What the scanner inside a substitution does with one character. */
  datatype Move = Step(depth: nat, st: State, ret: State) | EnterTicks | EnterNested | Finish

  function MoveOf(c: char, dollar: bool, depth: nat, st: State, ret: State): Move
    requires depth > 0
  {
    if st.Escaped? then Step(depth, ret, ret)
    else if st.SingleQuote? then Step(depth, if c == '\'' then InArguments else st, ret)
    else if c == '\\' then Step(depth, Escaped, st)
    else if c == '`' then EnterTicks
    else if dollar then EnterNested
    else if st.DoubleQuote? then Step(depth, if c == '"' then InArguments else st, ret)
    else if c == '\'' then Step(depth, SingleQuote, ret)
    else if c == '"' then Step(depth, DoubleQuote, ret)
    else if c == '(' then Step(depth + 1, st, ret)
    else if c == ')' then (if depth == 1 then Finish else Step(depth - 1, st, ret))
    else Step(depth, st, ret)
  }

  /** The parenthesis that closes `depth` open ones, scanning from i. */
  function SubstitutionEnd(s: string, i: nat, depth: nat, st: State, ret: State): (r: Option<nat>)
    requires depth > 0
    ensures r.Some? ==> i <= r.value < |s| && s[r.value] == ')'
    decreases if i < |s| then |s| - i else 0
  {
    if i >= |s| then None
    else
      match MoveOf(s[i], Two(s, i, '$', '('), depth, st, ret)
      case Step(depth', st', ret') => SubstitutionEnd(s, i + 1, depth', st', ret')
      case Finish => Some(i)
      case EnterTicks =>
        (match BacktickEnd(s, i + 1)
         case None => None
         case Some(e) => SubstitutionEnd(s, e + 1, depth, st, ret))
      case EnterNested =>
        (match SubstitutionEnd(s, i + 2, 1, ExpectCommand, ExpectCommand)
         case None => None
         case Some(e) => SubstitutionEnd(s, e + 1, depth, st, ret))
  }

  method FindBacktickEnd(command: string, opening: nat) returns (r: Option<nat>)
    ensures r == BacktickEnd(command, opening + 1)
  {
    var index := opening + 1;
    while index < |command|
      invariant BacktickEnd(command, opening + 1) == BacktickEnd(command, index)
    {
      if command[index] == '\\' {
        index := index + 2;
        continue;
      }
      if command[index] == '`' {
        return Some(index);
      }
      index := index + 1;
    }
    return None;
  }

  method FindSubstitutionEnd(command: string, openParen: nat) returns (r: Option<nat>)
    ensures r == SubstitutionEnd(command, openParen + 1, 1, ExpectCommand, ExpectCommand)
    decreases if openParen < |command| then |command| - openParen else 0
  {
    var depth := 1;
    var state, returnState := ExpectCommand, ExpectCommand;
    var index := openParen + 1;
    while index < |command|
      invariant depth >= 1 && index > openParen
      invariant SubstitutionEnd(command, openParen + 1, 1, ExpectCommand, ExpectCommand)
        == SubstitutionEnd(command, index, depth, state, returnState)
      decreases if index < |command| then |command| - index else 0
    {
      var character := command[index];
      if state.Escaped? {
        state := returnState;
        index := index + 1;
        continue;
      }
      if state.SingleQuote? {
        if character == '\'' {
          state := InArguments;
        }
        index := index + 1;
        continue;
      }
      if character == '\\' {
        returnState := state;
        state := Escaped;
      } else if character == '`' {
        var end := FindBacktickEnd(command, index);
        if end.None? {
          return None;
        }
        index := end.value;
      } else if Two(command, index, '$', '(') {
        var end := FindSubstitutionEnd(command, index + 1);
        if end.None? {
          return None;
        }
        index := end.value;
      } else if state.DoubleQuote? {
        if character == '"' {
          state := InArguments;
        }
      } else if character == '\'' {
        state := SingleQuote;
      } else if character == '"' {
        state := DoubleQuote;
      } else if character == '(' {
        depth := depth + 1;
      } else if character == ')' {
        depth := depth - 1;
        if depth == 0 {
          return Some(index);
        }
      }
      index := index + 1;
    }
    return None;
  }

  // ----- A reference lexer --------------------------------------------------

  /** What is open, innermost first. */
  datatype Open = Top | Paren(outer: Open) | Double(outer: Open) | Single(outer: Open) | Tick(outer: Open)

  /** A pushdown lexer: where it stands, what is open and whether the next
      character is escaped. */
  datatype Lexer = Lexer(at: nat, open: Open, escaped: bool)

  function Moved(x: Lexer, width: nat, open: Open): Lexer {
    Lexer(x.at + width, open, false)
  }

  /** One step: `dollar` and `angle` tell whether `$(`, or `<(` or `>(`, starts here. */
  function NextOn(c: char, dollar: bool, angle: bool, x: Lexer): (r: Lexer)
    ensures r.at > x.at
  {
    var open := x.open;
    if x.escaped then Moved(x, 1, open)
    else
      match open
      case Single(outer) => Moved(x, 1, if c == '\'' then outer else open)
      case Tick(outer) =>
        if c == '\\' then Lexer(x.at + 1, open, true) else Moved(x, 1, if c == '`' then outer else open)
      case Double(outer) =>
        if c == '\\' then Lexer(x.at + 1, open, true)
        else if c == '`' then Moved(x, 1, Tick(open))
        else if dollar then Moved(x, 2, Paren(open))
        else Moved(x, 1, if c == '"' then outer else open)
      case Paren(outer) =>
        if c == '\\' then Lexer(x.at + 1, open, true)
        else Moved(x, 1,
          if c == '`' then Tick(open) else if c == '\'' then Single(open) else if c == '"' then Double(open)
          else if c == '(' then Paren(open) else if c == ')' then outer else open)
      case Top =>
        if c == '\\' then Lexer(x.at + 1, open, true)
        else if dollar || angle then Moved(x, 2, Paren(open))
        else Moved(x, 1,
          if c == '`' then Tick(open) else if c == '\'' then Single(open) else if c == '"' then Double(open) else open)
  }

  function Next(s: string, x: Lexer): (r: Lexer)
    requires x.at < |s|
    ensures r.at > x.at
  {
    NextOn(s[x.at], Two(s, x.at, '$', '('), Two(s, x.at, '<', '(') || Two(s, x.at, '>', '('), x)
  }

  /** No substitution and no backtick: nothing, or a quote of the text itself. */
  predicate InText(open: Open) {
    open in {Top, Single(Top), Double(Top)}
  }

  /** The lexer comes to position p with nothing open and nothing escaped; a
      position past the end asks that it ends without an open substitution or
      backtick. */
  predicate TopAt(s: string, x: Lexer, p: nat)
    decreases if x.at < |s| then |s| - x.at else 0
  {
    if x.at >= p then x.at == p && x.open.Top? && !x.escaped
    else if x.at >= |s| then InText(x.open)
    else TopAt(s, Next(s, x), p)
  }

  const START := Lexer(0, Top, false)

  /** Where the lexer stands after the whole text. */
  function Final(s: string, x: Lexer): Lexer
    decreases if x.at < |s| then |s| - x.at else 0
  {
    if x.at >= |s| then x else Final(s, Next(s, x))
  }

  /** Every substitution and every backtick of the text is closed. */
  predicate NothingLeftOpen(s: string) {
    InText(Final(s, START).open)
  }

  lemma {:induction false} PastTheEnd(s: string, x: Lexer)
    requires x.at <= |s|
    ensures TopAt(s, x, |s| + 1) <==> InText(Final(s, x).open)
    decreases |s| - x.at
  {
    if x.at < |s| {
      PastTheEnd(s, Next(s, x));
    }
  }

  // ----- The finders agree with the lexer -----------------------------------

  /** From x the lexer closes what is open beyond `base` at the found end, and
      never if none is found. */
  ghost predicate Closes(s: string, x: Lexer, end: Option<nat>, base: Open, p: nat) {
    match end
    case None => !TopAt(s, x, p)
    case Some(e) => TopAt(s, x, p) <==> p > e && TopAt(s, Lexer(e + 1, base, false), p)
  }

  lemma ClosesStep(s: string, x: Lexer, end: Option<nat>, base: Open, p: nat)
    requires x.at < p && x.at < |s| && Closes(s, Next(s, x), end, base, p)
    ensures Closes(s, x, end, base, p)
  {
  }

  /** One construct closes, then the rest. */
  lemma ClosesThen(s: string, x: Lexer, first: Option<nat>, open: Open, end: Option<nat>, base: Open, p: nat)
    requires Closes(s, x, first, open, p)
    requires match first
             case None => end.None?
             case Some(e) => Closes(s, Lexer(e + 1, open, false), end, base, p) && (end.Some? ==> end.value > e)
    ensures Closes(s, x, end, base, p)
  {
  }

  lemma {:induction false} TickCloses(s: string, i: nat, base: Open, p: nat)
    ensures Closes(s, Lexer(i, Tick(base), false), BacktickEnd(s, i), base, p)
    decreases if i < |s| then |s| - i else 0
  {
    if i < p && i < |s| {
      if s[i] == '\\' {
        if i + 1 < p && i + 1 < |s| {
          TickCloses(s, i + 2, base, p);
        }
      } else if s[i] != '`' {
        TickCloses(s, i + 1, base, p);
      }
    }
  }

  function Parens(depth: nat, base: Open): Open {
    if depth == 0 then base else Paren(Parens(depth - 1, base))
  }

  /** The lexer state of a scanner state. */
  function LexerOf(i: nat, base: Open, st: State, ret: State): Lexer {
    var quoting := if st.Escaped? then ret else st;
    Lexer(i, if quoting.SingleQuote? then Single(base) else if quoting.DoubleQuote? then Double(base) else base, st.Escaped?)
  }

  predicate Returns(st: State, ret: State) {
    st.Escaped? ==> !ret.Escaped? && !ret.SingleQuote?
  }

  lemma StepAgrees(c: char, dollar: bool, angle: bool, i: nat, depth: nat, st: State, ret: State, base: Open)
    requires depth > 0 && Returns(st, ret) && (dollar ==> c == '$') && MoveOf(c, dollar, depth, st, ret).Step?
    ensures var m := MoveOf(c, dollar, depth, st, ret);
      && m.depth > 0 && Returns(m.st, m.ret)
      && NextOn(c, dollar, angle, LexerOf(i, Parens(depth, base), st, ret))
        == LexerOf(i + 1, Parens(m.depth, base), m.st, m.ret)
  {
    if st.Escaped? || st.SingleQuote? || st.DoubleQuote? {
      QuotedStepAgrees(c, dollar, angle, i, depth, st, ret, base);
    } else {
      var outer := Parens(depth - 1, base);
      assert Parens(depth, base) == Paren(outer) && Parens(depth + 1, base) == Paren(Paren(outer));
      PlainStepAgrees(c, dollar, angle, i, depth, st, ret, outer);
    }
  }

  lemma PlainStepAgrees(c: char, dollar: bool, angle: bool, i: nat, depth: nat, st: State, ret: State, outer: Open)
    requires !st.Escaped? && !st.SingleQuote? && !st.DoubleQuote?
    requires depth > 0 && (dollar ==> c == '$') && MoveOf(c, dollar, depth, st, ret).Step?
    ensures var m := MoveOf(c, dollar, depth, st, ret);
      && m.depth > 0 && depth - 1 <= m.depth <= depth + 1 && Returns(m.st, m.ret)
      && NextOn(c, dollar, angle, LexerOf(i, Paren(outer), st, ret))
        == LexerOf(i + 1, if m.depth < depth then outer else if m.depth == depth then Paren(outer) else Paren(Paren(outer)),
                   m.st, m.ret)
  {
  }

  lemma QuotedStepAgrees(c: char, dollar: bool, angle: bool, i: nat, depth: nat, st: State, ret: State, base: Open)
    requires st.Escaped? || st.SingleQuote? || st.DoubleQuote?
    requires depth > 0 && Returns(st, ret) && (dollar ==> c == '$') && MoveOf(c, dollar, depth, st, ret).Step?
    ensures var m := MoveOf(c, dollar, depth, st, ret);
      && m.depth == depth && Returns(m.st, m.ret)
      && NextOn(c, dollar, angle, LexerOf(i, Parens(depth, base), st, ret))
        == LexerOf(i + 1, Parens(depth, base), m.st, m.ret)
  {
  }

  lemma EnterAgrees(c: char, dollar: bool, angle: bool, i: nat, depth: nat, st: State, ret: State, base: Open)
    requires depth > 0 && Returns(st, ret) && (dollar ==> c == '$')
    ensures var x := LexerOf(i, Parens(depth, base), st, ret);
      match MoveOf(c, dollar, depth, st, ret)
      case Step(_, _, _) => true
      case EnterTicks => NextOn(c, dollar, angle, x) == Lexer(i + 1, Tick(x.open), false)
      case Finish => NextOn(c, dollar, angle, x) == Lexer(i + 1, base, false)
      case EnterNested =>
        !x.escaped && if x.open.Double? then NextOn(c, dollar, angle, x) == Lexer(i + 2, Paren(x.open), false)
                      else x.open.Paren? && NextOn(c, dollar, angle, x) == Lexer(i + 1, x.open, false)
  {
    assert Parens(depth, base) == Paren(Parens(depth - 1, base));
  }

  /** Inside a substitution the lexer reads `$(` as an open parenthesis. */
  lemma NestedOpens(s: string, i: nat, open: Open, p: nat)
    requires Two(s, i, '$', '(') && i < p && open.Paren?
    ensures TopAt(s, Lexer(i + 1, open, false), p) <==> TopAt(s, Lexer(i + 2, Paren(open), false), p)
  {
    if i + 1 < p {
      assert Next(s, Lexer(i + 1, open, false)) == Lexer(i + 2, Paren(open), false);
    }
  }

  /** A found end is where the lexer, started inside the substitution, first has
      everything closed again that the substitution opened; and none is found
      exactly when it never does. */
  lemma {:induction false} SubstitutionCloses(s: string, i: nat, depth: nat, st: State, ret: State, base: Open, p: nat)
    requires depth > 0 && Returns(st, ret)
    ensures Closes(s, LexerOf(i, Parens(depth, base), st, ret), SubstitutionEnd(s, i, depth, st, ret), base, p)
    decreases if i < |s| then |s| - i else 0, 2
  {
    if i < p && i < |s| {
      var dollar, angle := Two(s, i, '$', '('), Two(s, i, '<', '(') || Two(s, i, '>', '(');
      EnterAgrees(s[i], dollar, angle, i, depth, st, ret, base);
      match MoveOf(s[i], dollar, depth, st, ret) {
        case Step(_, _, _) => StepThen(s, i, depth, st, ret, base, p);
        case EnterTicks => TicksThen(s, i, depth, st, ret, base, p);
        case EnterNested => NestedThen(s, i, depth, st, ret, base, p);
        case Finish => FinishThen(s, LexerOf(i, Parens(depth, base), st, ret), i, base, p);
      }
    } else {
      NothingYet(s, LexerOf(i, Parens(depth, base), st, ret), depth, base, SubstitutionEnd(s, i, depth, st, ret), p);
    }
  }

  lemma NothingYet(s: string, x: Lexer, depth: nat, base: Open, end: Option<nat>, p: nat)
    requires depth > 0 && (x.at >= p || x.at >= |s|)
    requires x.open in {Parens(depth, base), Single(Parens(depth, base)), Double(Parens(depth, base))}
    requires end.Some? ==> x.at <= end.value < |s|
    ensures Closes(s, x, end, base, p)
  {
    assert Parens(depth, base) == Paren(Parens(depth - 1, base));
  }

  lemma FinishThen(s: string, x: Lexer, i: nat, base: Open, p: nat)
    requires x.at == i < |s| && i < p && Next(s, x) == Lexer(i + 1, base, false)
    ensures Closes(s, x, Some(i), base, p)
  {
  }

  lemma {:induction false} StepThen(s: string, i: nat, depth: nat, st: State, ret: State, base: Open, p: nat)
    requires depth > 0 && Returns(st, ret) && i < |s| && i < p
    requires MoveOf(s[i], Two(s, i, '$', '('), depth, st, ret).Step?
    ensures Closes(s, LexerOf(i, Parens(depth, base), st, ret), SubstitutionEnd(s, i, depth, st, ret), base, p)
    decreases |s| - i, 1
  {
    var dollar, angle := Two(s, i, '$', '('), Two(s, i, '<', '(') || Two(s, i, '>', '(');
    var m := MoveOf(s[i], dollar, depth, st, ret);
    StepAgrees(s[i], dollar, angle, i, depth, st, ret, base);
    SubstitutionCloses(s, i + 1, m.depth, m.st, m.ret, base, p);
    ClosesStep(s, LexerOf(i, Parens(depth, base), st, ret), SubstitutionEnd(s, i, depth, st, ret), base, p);
  }

  lemma {:induction false} TicksThen(s: string, i: nat, depth: nat, st: State, ret: State, base: Open, p: nat)
    requires depth > 0 && Returns(st, ret) && i < |s| && i < p
    requires MoveOf(s[i], Two(s, i, '$', '('), depth, st, ret).EnterTicks?
    requires Next(s, LexerOf(i, Parens(depth, base), st, ret))
      == Lexer(i + 1, Tick(LexerOf(i, Parens(depth, base), st, ret).open), false)
    ensures Closes(s, LexerOf(i, Parens(depth, base), st, ret), SubstitutionEnd(s, i, depth, st, ret), base, p)
    decreases |s| - i, 1
  {
    var x := LexerOf(i, Parens(depth, base), st, ret);
    var end, all := BacktickEnd(s, i + 1), SubstitutionEnd(s, i, depth, st, ret);
    TickCloses(s, i + 1, x.open, p);
    if end.Some? {
      SubstitutionCloses(s, end.value + 1, depth, st, ret, base, p);
      assert LexerOf(end.value + 1, Parens(depth, base), st, ret) == Lexer(end.value + 1, x.open, false);
    }
    ClosesThen(s, Next(s, x), end, x.open, all, base, p);
    ClosesStep(s, x, all, base, p);
  }

  lemma {:induction false} NestedThen(s: string, i: nat, depth: nat, st: State, ret: State, base: Open, p: nat)
    requires depth > 0 && Returns(st, ret) && i < |s| && i < p && Two(s, i, '$', '(')
    requires MoveOf(s[i], true, depth, st, ret).EnterNested?
    requires var x := LexerOf(i, Parens(depth, base), st, ret);
      !x.escaped && if x.open.Double? then Next(s, x) == Lexer(i + 2, Paren(x.open), false)
                    else x.open.Paren? && Next(s, x) == Lexer(i + 1, x.open, false)
    ensures Closes(s, LexerOf(i, Parens(depth, base), st, ret), SubstitutionEnd(s, i, depth, st, ret), base, p)
    decreases |s| - i, 1
  {
    var x := LexerOf(i, Parens(depth, base), st, ret);
    var end, all := SubstitutionEnd(s, i + 2, 1, ExpectCommand, ExpectCommand), SubstitutionEnd(s, i, depth, st, ret);
    NestedCloses(s, i, x.open, p);
    if end.Some? {
      SubstitutionCloses(s, end.value + 1, depth, st, ret, base, p);
      assert LexerOf(end.value + 1, Parens(depth, base), st, ret) == Lexer(end.value + 1, x.open, false);
    }
    ClosesThen(s, Lexer(i + 2, Paren(x.open), false), end, x.open, all, base, p);
    if x.open.Paren? {
      NestedOpens(s, i, x.open, p);
      assert Closes(s, Next(s, x), all, base, p);
    }
    ClosesStep(s, x, all, base, p);
  }

  /** The same for a substitution that opens at i. */
  lemma {:induction false} NestedCloses(s: string, i: nat, base: Open, p: nat)
    requires i < |s|
    ensures Closes(s, Lexer(i + 2, Paren(base), false), SubstitutionEnd(s, i + 2, 1, ExpectCommand, ExpectCommand), base, p)
    decreases |s| - i, 0
  {
    assert Parens(1, base) == Paren(Parens(0, base)) == Paren(base);
    SubstitutionCloses(s, i + 2, 1, ExpectCommand, ExpectCommand, base, p);
  }
}
