/** A quarantine record read back gives what was written. */
module QuarantineFacts {
  import opened Common
  import opened Utf8
  import opened Quarantine
  import opened Separated

  // ----- Header lines -------------------------------------------------------

  ghost predicate OneLineValues(fields: seq<Field>) {
    forall f | f in fields :: '\n' !in f.value
  }

  ghost predicate SomeEndsInMark(fields: seq<Field>) {
    exists f | f in fields :: Ends(f.value, MARK)
  }

  predicate IsWord(c: char) {
    'a' <= c <= 'z' || c == '_' || '0' <= c <= '9'
  }

  lemma LabelIsWord(l: Label)
    ensures |Text(l)| >= 5 && forall i | 0 <= i < |Text(l)| :: IsWord(Text(l)[i])
  {
  }

  lemma LineShape(f: Field)
    ensures var line := LineOf(f);
      && |line| == |Text(f.key)| + 4 + |f.value|
      && line[0] == '#' && line[1] == ' ' && line[2] == Text(f.key)[0]
      && (forall i | 0 <= i < |Text(f.key)| :: line[2 + i] == Text(f.key)[i])
      && line[2 + |Text(f.key)|] == ':' && line[3 + |Text(f.key)|] == ' '
      && line[4 + |Text(f.key)|..] == f.value
  {
    LabelIsWord(f.key);
  }

  lemma MarkShape()
    ensures |MARK| == 5 && MARK[0] == '#' && MARK[1] == ' ' && MARK[2] == '-' && MARK[3] == '-' && MARK[4] == '-'
  {
  }

  /** A header line ends in the mark exactly when its value does. */
  lemma LineEndsInMark(f: Field)
    ensures Ends(LineOf(f), MARK) <==> Ends(f.value, MARK)
  {
    LineShape(f);
    LabelIsWord(f.key);
    MarkShape();
    var line, n := LineOf(f), |Text(f.key)|;
    if |f.value| >= 5 {
      assert line[|line| - 5..] == f.value[|f.value| - 5..];
    } else {
      assert forall i | 2 <= i < 2 + n :: line[i] == Text(f.key)[i - 2] && IsWord(line[i]);
      assert line[|line| - 5] == line[|line| - 5..][0] && line[|line| - 4] == line[|line| - 5..][1];
    }
  }

  lemma LineIsOneLine(f: Field)
    requires '\n' !in f.value
    ensures '\n' !in LineOf(f)
  {
    LineShape(f);
    LabelIsWord(f.key);
    var line, n := LineOf(f), |Text(f.key)|;
    forall i | 0 <= i < |line| ensures line[i] != '\n' {
      if i >= n + 4 {
        assert line[i] == f.value[i - n - 4];
      } else if 2 <= i < 2 + n {
        assert IsWord(line[i]);
      }
    }
  }

  lemma {:induction false} LinesFacts(fields: seq<Field>)
    requires OneLineValues(fields)
    ensures OneLineEach(LinesOf(fields)) && (SomeEnds(LinesOf(fields), MARK) <==> SomeEndsInMark(fields))
  {
    if fields != [] {
      var f, rest := fields[0], fields[1..];
      assert f in fields && forall x | x in rest :: x in fields;
      LinesFacts(rest);
      LineIsOneLine(f);
      LineEndsInMark(f);
      assert forall x :: x in fields <==> x == f || x in rest;
      assert forall x :: x in LinesOf(fields) <==> x == LineOf(f) || x in LinesOf(rest);
    }
  }

  lemma SeparatorIsPlain()
    ensures '\n' !in MARK && IsAscii(SEPARATOR)
  {
    MarkShape();
  }

  ghost function Payload(fields: seq<Field>, stored: seq<byte>): seq<byte> {
    Encode(TextOf(LinesOf(fields))) + (Encode(SEPARATOR) + stored)
  }

  /** The body comes back as it was stored exactly when no header value ends in
      the mark. */
  lemma BodySurvivesExactly(fields: seq<Field>, stored: seq<byte>)
    requires OneLineValues(fields)
    ensures BodyOf(Payload(fields, stored)) == stored <==> !SomeEndsInMark(fields)
    ensures !SomeEndsInMark(fields) ==> HeaderOf(Payload(fields, stored)) == Encode(TextOf(LinesOf(fields)))
  {
    LinesFacts(fields);
    SeparatorIsPlain();
    PartsSurviveExactly(LinesOf(fields), MARK, stored);
  }

  // ----- Parsing the header back --------------------------------------------

  ghost predicate Unbroken(v: string) {
    forall i | 0 <= i < |v| :: !IsBreak(v[i])
  }

  lemma LineUnbroken(f: Field)
    requires Unbroken(f.value)
    ensures Unbroken(LineOf(f))
  {
    LineShape(f);
    LabelIsWord(f.key);
    var line, n := LineOf(f), |Text(f.key)|;
    forall i | 0 <= i < |line| ensures !IsBreak(line[i]) {
      if i >= n + 4 {
        assert line[i] == f.value[i - n - 4];
      } else if 2 <= i < 2 + n {
        assert IsWord(line[i]);
      }
    }
  }

  /** The table that the fields spell, later ones over earlier ones. */
  ghost function Table(fields: seq<Field>, known: map<string, string>): map<string, string> {
    if fields == [] then known
    else Table(fields[1..], known[Text(fields[0].key) := Stripped(fields[0].value)])
  }

  lemma StrippedOfLabel(l: Label)
    ensures Stripped([' '] + Text(l)) == Text(l)
  {
    LabelIsWord(l);
    assert ([' '] + Text(l))[1..] == Text(l);
    assert !IsSpace(Text(l)[0]) && !IsSpace(Text(l)[|Text(l)| - 1]);
  }

  lemma StrippedOfSpaced(v: string)
    ensures Stripped([' '] + v) == Stripped(v)
  {
    assert ([' '] + v)[1..] == v;
  }

  lemma ColonOfLine(f: Field)
    ensures var line := LineOf(f);
      && ':' in line && Colon(line) == 2 + |Text(f.key)|
      && line[1..2 + |Text(f.key)|] == [' '] + Text(f.key) && line[3 + |Text(f.key)|..] == [' '] + f.value
  {
    var line, n := LineOf(f), |Text(f.key)|;
    LineShape(f);
    LabelIsWord(f.key);
    assert line[2 + n] == ':';
    assert forall i | 2 <= i < 2 + n :: line[i] == Text(f.key)[i - 2] && IsWord(line[i]);
    assert forall i | 0 <= i < 2 + n :: line[i] != ':';
  }

  lemma LineIsNoMark(f: Field)
    ensures LineOf(f) != MARK && LineOf(f) != "" && LineOf(f)[0] == '#'
  {
    LineShape(f);
    LabelIsWord(f.key);
    MarkShape();
    assert IsWord(LineOf(f)[2]);
  }

  lemma LineParses(f: Field, rest: seq<string>, known: map<string, string>)
    ensures Parsed([LineOf(f)] + rest, known) == Parsed(rest, known[Text(f.key) := Stripped(f.value)])
  {
    LineIsNoMark(f);
    ColonOfLine(f);
    StrippedOfLabel(f.key);
    StrippedOfSpaced(f.value);
    assert ([LineOf(f)] + rest)[1..] == rest;
  }

  lemma {:induction false} HeaderParses(fields: seq<Field>, known: map<string, string>)
    ensures Parsed(LinesOf(fields), known) == Table(fields, known)
  {
    if fields != [] {
      LineParses(fields[0], LinesOf(fields[1..]), known);
      HeaderParses(fields[1..], known[Text(fields[0].key) := Stripped(fields[0].value)]);
    }
  }

  lemma TextSizes(l: Label)
    ensures |Text(l)| == match l
      case BlockedAt => 10 case AgentKey => 5 case ReasonCode => 11 case Target => 6 case Notice => 6
      case OriginalBytes => 14 case StoredBytes => 12 case OriginalDigest => 15 case StoredDigest => 13
      case Truncated => 9 case Encoding => 8 case RecordStatus => 13
    ensures l.Target? ==> Text(l)[0] == 't'
    ensures l.Notice? ==> Text(l)[0] == 'n'
    ensures l.StoredDigest? ==> Text(l)[0] == 's'
    ensures l.RecordStatus? ==> Text(l)[0] == 'r'
  {
  }

  lemma TextInjective(a: Label, b: Label)
    requires Text(a) == Text(b)
    ensures a == b
  {
    TextSizes(a);
    TextSizes(b);
  }

  /** The last field of a label is the one the table keeps. */
  lemma {:induction false} TableKeeps(fields: seq<Field>, known: map<string, string>, n: nat)
    requires n < |fields| && forall m | n < m < |fields| :: fields[m].key != fields[n].key
    ensures Value(Table(fields, known), fields[n].key) == Stripped(fields[n].value)
    decreases |fields|
  {
    var next := known[Text(fields[0].key) := Stripped(fields[0].value)];
    if n > 0 {
      TableKeeps(fields[1..], next, n - 1);
    } else {
      TableForgetsNot(fields[1..], next, fields[0].key);
    }
  }

  lemma {:induction false} TableForgetsNot(fields: seq<Field>, known: map<string, string>, l: Label)
    requires forall m | 0 <= m < |fields| :: fields[m].key != l
    ensures Value(Table(fields, known), l) == Value(known, l)
  {
    if fields != [] {
      if Text(fields[0].key) == Text(l) {
        TextInjective(fields[0].key, l);
      }
      TableForgetsNot(fields[1..], known[Text(fields[0].key) := Stripped(fields[0].value)], l);
    }
  }

  // ----- Escaping -----------------------------------------------------------

  lemma {:induction false} EscapedAt(v: string, i: nat)
    requires i < |Escaped(v)|
    ensures Escaped(v)[i] != '\n' && Escaped(v)[i] != '\r'
    ensures Escaped(v)[i] in v || Escaped(v)[i] in {'\\', 'r', 'n'}
  {
    var head := EscapedChar(v[0]);
    if i >= |head| {
      EscapedAt(v[1..], i - |head|);
      assert Escaped(v)[i] == Escaped(v[1..])[i - |head|];
    } else {
      assert Escaped(v)[i] == head[i];
    }
  }

  lemma {:induction false} EscapedInit(v: string)
    requires v != ""
    ensures Escaped(v) == Escaped(v[..|v| - 1]) + EscapedChar(v[|v| - 1])
  {
    if |v| == 1 {
      assert v[1..] == "" && v[..0] == "";
      assert Escaped("") == "";
    } else {
      EscapedInit(v[1..]);
      assert v[1..][..|v[1..]| - 1] == v[..|v| - 1][1..];
      assert v[..|v| - 1][0] == v[0];
    }
  }

  /** Escaping neither makes nor breaks an end in characters it does not touch. */
  lemma {:induction false} EscapedEnds(v: string, u: string)
    requires forall i | 0 <= i < |u| :: u[i] !in {'\\', '\r', '\n', 'r', 'n'}
    ensures Ends(Escaped(v), u) <==> Ends(v, u)
  {
    if u != "" && v != "" {
      EscapedInit(v);
      var a, last := v[..|v| - 1], v[|v| - 1];
      var w, c := u[..|u| - 1], u[|u| - 1];
      EscapedEnds(a, w);
      assert u == w + [c];
      EndsSplits(a, [last], w, c);
      EndsSplits(Escaped(a), EscapedChar(last), w, c);
      assert v == a + [last];
    }
  }

  lemma EndsSplits(a: string, tail: string, w: string, c: char)
    requires tail != ""
    ensures Ends(a + tail, w + [c]) ==> tail[|tail| - 1] == c
    ensures |tail| == 1 ==> (Ends(a + tail, w + [c]) <==> tail == [c] && Ends(a, w))
  {
    var s, u := a + tail, w + [c];
    if |s| >= |u| {
      assert s[|s| - 1] == s[|s| - |u|..][|u| - 1];
      assert u[|u| - 1] == c;
      if |tail| == 1 {
        assert s[|s| - |u|..] == a[|a| - |w|..] + tail;
        assert s[|s| - |u|..][..|w|] == a[|a| - |w|..];
        assert u[..|w|] == w;
      }
    }
  }

  // ----- The round trip -----------------------------------------------------

  /** A digest's text: hexadecimal digits. */
  ghost predicate IsHex(v: string) {
    v != "" && forall i | 0 <= i < |v| :: '0' <= v[i] <= '9' || 'a' <= v[i] <= 'f'
  }

  ghost predicate HexDigest(hash: seq<byte> -> string) {
    forall b: seq<byte> :: IsHex(hash(b))
  }

  /** Text of letters, digits and hyphens inside. */
  ghost predicate IsPlainWord(v: string) {
    v != "" && v[|v| - 1] != '-' && forall i | 0 <= i < |v| :: 'a' <= v[i] <= 'z' || '0' <= v[i] <= '9' || v[i] == '-'
  }

  /** A value that one header line can hold. */
  ghost predicate Holdable(v: string) {
    Unbroken(v) && !Ends(v, MARK)
  }

  lemma PlainWordFacts(v: string)
    requires IsPlainWord(v)
    ensures Holdable(v) && Stripped(v) == v
  {
    MarkShape();
    if |v| >= 5 {
      assert v[|v| - 5..][4] == v[|v| - 1];
    }
  }

  lemma ConstantsArePlain()
    ensures IsPlainWord("utf-8")
    ensures forall b :: IsPlainWord(BoolText(b)) && IsPlainWord(StatusText(b))
  {
  }

  ghost predicate AllHoldable(fields: seq<Field>) {
    forall f | f in fields :: Holdable(f.value)
  }

  lemma MeasuredArePlain(original: seq<byte>, stored: seq<byte>, hash: seq<byte> -> string, n: nat)
    requires HexDigest(hash) && n < 7
    ensures IsPlainWord(MeasuredFields(original, stored, hash)[n].value)
  {
    ConstantsArePlain();
    assert IsHex(hash(original)) && IsHex(hash(stored));
  }

  lemma MeasuredHoldable(original: seq<byte>, stored: seq<byte>, hash: seq<byte> -> string)
    requires HexDigest(hash)
    ensures AllHoldable(MeasuredFields(original, stored, hash))
  {
    var fields := MeasuredFields(original, stored, hash);
    forall f | f in fields ensures Holdable(f.value) {
      var n :| 0 <= n < |fields| && fields[n] == f;
      MeasuredArePlain(original, stored, hash, n);
      PlainWordFacts(f.value);
    }
  }

  lemma BoolReadsBack(b: bool)
    ensures BoolOf(BoolText(b)) == Some(b)
  {
    var t, f := "true", "false";
    assert t[1..] == "rue" && t[1..][1..] == "ue" && t[1..][1..][1..] == "e" && t[1..][1..][1..][1..] == "";
    assert f[1..] == "alse" && f[1..][1..] == "lse" && f[1..][1..][1..] == "se";
    assert f[1..][1..][1..][1..] == "e" && f[1..][1..][1..][1..][1..] == "";
    LowerIsSame("true");
    LowerIsSame("false");
    assert |t| != |f|;
  }

  lemma {:induction false} LowerIsSame(s: string)
    requires forall i | 0 <= i < |s| :: !('A' <= s[i] <= 'Z')
    ensures Lower(s) == s
  {
    if s != "" {
      LowerIsSame(s[1..]);
    }
  }

  lemma StatusReadsBack(truncated: bool)
    ensures StatusOf(StatusText(truncated), Some(truncated)) == if truncated then Incomplete else Complete
  {
    assert |"complete"| == 8 && |"incomplete"| == 10;
  }

  /** Every measured value is read back as it was written. */
  lemma MeasuredReadsBack(
      original: seq<byte>, stored: seq<byte>, hash: seq<byte> -> string, known: map<string, string>, n: nat)
    requires HexDigest(hash) && n < 7
    ensures var fields := MeasuredFields(original, stored, hash);
      Value(Table(fields, known), fields[n].key) == fields[n].value
  {
    TableKeeps(MeasuredFields(original, stored, hash), known, n);
    MeasuredArePlain(original, stored, hash, n);
    PlainWordFacts(MeasuredFields(original, stored, hash)[n].value);
  }

  /** No header value ends in the mark. */
  ghost predicate Unmarked(h: Head) {
    && !Ends(h.stamp, MARK) && !Ends(h.notice, MARK)
    && !Ends(h.agent, MARK) && !Ends(h.reason, MARK) && !Ends(h.target, MARK)
  }

  /** Whatever its header values, a record's body is read back exactly when none of
      them ends in the mark. */
  lemma RecordBodyExactly(command: string, h: Head, limit: int, hash: seq<byte> -> string)
    requires HexDigest(hash) && '\n' !in h.stamp && '\n' !in h.notice
    ensures BodyOf(Record(command, h, limit, hash)) == Stored(command, limit) <==> Unmarked(h)
    ensures Unmarked(h) ==>
      HeaderOf(Record(command, h, limit, hash))
      == Encode(TextOf(LinesOf(Fields(h, Encode(command), Stored(command, limit), hash))))
  {
    var original, stored := Encode(command), Stored(command, limit);
    var named, measured := NamedFields(h), MeasuredFields(original, stored, hash);
    MarkShape();
    EscapedEnds(h.agent, MARK);
    EscapedEnds(h.reason, MARK);
    EscapedEnds(h.target, MARK);
    MeasuredHoldable(original, stored, hash);
    NamedOneLine(h);
    forall f | f in measured ensures '\n' !in f.value {
      assert forall i | 0 <= i < |f.value| :: !IsBreak(f.value[i]);
    }
    assert forall f :: f in named + measured <==> f in named || f in measured;
    MarkedNames(h);
    BodySurvivesExactly(named + measured, stored);
  }

  lemma NamedOneLine(h: Head)
    requires '\n' !in h.stamp && '\n' !in h.notice
    ensures OneLineValues(NamedFields(h))
  {
    EscapedOneLine(h.agent);
    EscapedOneLine(h.reason);
    EscapedOneLine(h.target);
  }

  lemma EscapedOneLine(v: string)
    ensures '\n' !in Escaped(v)
  {
    forall i | 0 <= i < |Escaped(v)| ensures Escaped(v)[i] != '\n' {
      EscapedAt(v, i);
    }
  }

  lemma MarkedNames(h: Head)
    ensures SomeEndsInMark(NamedFields(h)) <==>
      (Ends(h.stamp, MARK) || Ends(Escaped(h.agent), MARK) || Ends(Escaped(h.reason), MARK)
       || Ends(Escaped(h.target), MARK) || Ends(h.notice, MARK))
  {
    var fields := NamedFields(h);
    assert fields[0] in fields && fields[1] in fields && fields[2] in fields && fields[3] in fields && fields[4] in fields;
  }
}
