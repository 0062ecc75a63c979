/** A quarantine record read back gives what was written, exactly when its header
    values neither end in the mark nor break the header off.
  */
module QuarantineRoundTrip {
  import opened Common
  import opened Utf8
  import opened Separated
  import opened Quarantine
  import opened QuarantineFacts
  import Decimals

  // ----- Lines that a value falls into --------------------------------------

  predicate IsOneLine(v: string) {
    '\n' !in v && '\r' !in v
  }

  /** The lines `str.splitlines` makes of a text that is one line for `\n`. */
  function Pieces(line: string, current: string): (r: seq<string>)
    ensures r != []
  {
    if line == "" then [current]
    else if IsBreak(line[0]) then [current] + Pieces(line[1..], "")
    else Pieces(line[1..], current + [line[0]])
  }

  lemma {:induction false} PiecesSplit(line: string, rest: string, current: string)
    requires IsOneLine(line)
    ensures LinesFrom(line + ['\n'] + rest, current) == Pieces(line, current) + LinesFrom(rest, "")
  {
    var text := line + ['\n'] + rest;
    if line == "" {
      assert text[0] == '\n' && text[1..] == rest;
    } else {
      assert text[0] == line[0] && text[1..] == line[1..] + ['\n'] + rest;
      assert line[0] in line && forall c | c in line[1..] :: c in line;
      PiecesSplit(line[1..], rest, if IsBreak(line[0]) then "" else current + [line[0]]);
    }
  }

  lemma {:induction false} PiecesAfter(before: string, v: string, current: string)
    requires Unbroken(before)
    ensures Pieces(before + v, current) == Pieces(v, current + before)
  {
    if before == "" {
      assert before + v == v && current + before == current;
    } else {
      assert !IsBreak(before[0]);
      assert (before + v)[1..] == before[1..] + v && (before + v)[0] == before[0];
      PiecesAfter(before[1..], v, current + [before[0]]);
      assert current + [before[0]] + before[1..] == current + before;
    }
  }

  /** What stands before a value changes its first line only. */
  lemma {:induction false} PiecesFrom(v: string, current: string)
    ensures Pieces(v, current) == [current + Pieces(v, "")[0]] + Pieces(v, "")[1..]
  {
    if v == "" {
      assert current + "" == current;
    } else if IsBreak(v[0]) {
      assert current + "" == current;
    } else {
      PiecesFrom(v[1..], current + [v[0]]);
      PiecesFrom(v[1..], [v[0]]);
      assert "" + [v[0]] == [v[0]];
      assert current + [v[0]] + Pieces(v[1..], "")[0] == current + ([v[0]] + Pieces(v[1..], "")[0]);
    }
  }

  ghost function AllPieces(fields: seq<Field>): seq<string> {
    if fields == [] then [] else Pieces(LineOf(fields[0]), "") + AllPieces(fields[1..])
  }

  lemma {:induction false} HeaderPieces(fields: seq<Field>)
    requires forall f | f in fields :: IsOneLine(f.value)
    ensures LinesFrom(TextOf(LinesOf(fields)), "") == AllPieces(fields)
  {
    if fields != [] {
      var f := fields[0];
      assert f in fields && forall g | g in fields[1..] :: g in fields;
      LineIsOne(f);
      PiecesSplit(LineOf(f), TextOf(LinesOf(fields[1..])), "");
      HeaderPieces(fields[1..]);
    }
  }

  /** The part of a line before its value. */
  ghost function Before(f: Field): string {
    "# " + Text(f.key) + ": "
  }

  lemma LineOfBefore(f: Field)
    ensures LineOf(f) == Before(f) + f.value && Unbroken(Before(f))
  {
    LineUnbroken(Field(f.key, ""));
    assert LineOf(Field(f.key, "")) == Before(f) + "" == Before(f);
  }

  lemma LineIsOne(f: Field)
    requires IsOneLine(f.value)
    ensures IsOneLine(LineOf(f))
  {
    LineOfBefore(f);
    assert forall i | 0 <= i < |Before(f)| :: !IsBreak(Before(f)[i]);
  }

  // ----- Lines that go on ---------------------------------------------------

  /** The parser reads past the line. */
  predicate GoesOn(line: string) {
    line != MARK && line != "" && line[0] == '#'
  }

  ghost predicate AllGoOn(lines: seq<string>) {
    forall line | line in lines :: GoesOn(line)
  }

  lemma {:induction false} ParsedOfConcat(a: seq<string>, b: seq<string>, known: map<string, string>)
    ensures Parsed(a + b, known) == if AllGoOn(a) then Parsed(b, Parsed(a, known)) else Parsed(a, known)
  {
    if a == [] {
      assert a + b == b;
    } else {
      assert (a + b)[1..] == a[1..] + b && a == [a[0]] + a[1..];
      assert AllGoOn(a) <==> GoesOn(a[0]) && AllGoOn(a[1..]);
      if GoesOn(a[0]) {
        var next := if ':' !in a[0] then known
          else known[Stripped(a[0][1..Colon(a[0])]) := Stripped(a[0][Colon(a[0]) + 1..])];
        ParsedOfConcat(a[1..], b, next);
      }
    }
  }

  /** Every line that the value falls into after its first is one the parser reads
      past. */
  predicate Continues(v: string) {
    forall i | 0 < i < |Pieces(v, "")| :: GoesOn(Pieces(v, "")[i])
  }

  lemma FieldGoesOn(f: Field)
    ensures AllGoOn(Pieces(LineOf(f), "")) <==> Continues(f.value)
  {
    var ps := Pieces(f.value, "");
    LineOfBefore(f);
    PiecesAfter(Before(f), f.value, "");
    PiecesFrom(f.value, "" + Before(f));
    var all := Pieces(LineOf(f), "");
    assert "" + Before(f) == Before(f);
    assert all == Pieces(f.value, Before(f)) == [Before(f) + ps[0]] + ps[1..];
    LineIsNoMark(Field(f.key, ps[0]));
    assert all[0] == LineOf(Field(f.key, ps[0]));
    forall i | 0 < i < |ps| ensures all[i] == ps[i] {
    }
  }

  lemma {:induction false} FieldsGoOn(fields: seq<Field>)
    ensures AllGoOn(AllPieces(fields)) <==> forall f | f in fields :: Continues(f.value)
  {
    if fields != [] {
      FieldGoesOn(fields[0]);
      FieldsGoOn(fields[1..]);
      assert fields == [fields[0]] + fields[1..];
      var a, b := Pieces(LineOf(fields[0]), ""), AllPieces(fields[1..]);
      assert forall line :: line in a + b <==> line in a || line in b;
    }
  }

  lemma {:induction false} PiecesOfConcat(a: seq<Field>, b: seq<Field>)
    ensures AllPieces(a + b) == AllPieces(a) + AllPieces(b)
  {
    if a == [] {
      assert a + b == b;
    } else {
      assert (a + b)[1..] == a[1..] + b;
      PiecesOfConcat(a[1..], b);
    }
  }

  lemma {:induction false} UnbrokenPieces(fields: seq<Field>)
    requires forall f | f in fields :: Unbroken(f.value)
    ensures AllPieces(fields) == LinesOf(fields)
  {
    if fields != [] {
      assert fields[0] in fields && forall f | f in fields[1..] :: f in fields;
      LineUnbroken(fields[0]);
      PiecesAfter(LineOf(fields[0]), "", "");
      assert LineOf(fields[0]) + "" == LineOf(fields[0]) && "" + LineOf(fields[0]) == LineOf(fields[0]);
      UnbrokenPieces(fields[1..]);
    }
  }

  // ----- The round trip -----------------------------------------------------

  /** The values of the header go on, the escaped ones after escaping. */
  ghost predicate HeadContinues(h: Head) {
    && Continues(h.stamp) && Continues(h.notice)
    && Continues(Escaped(h.agent)) && Continues(Escaped(h.reason)) && Continues(Escaped(h.target))
  }

  ghost predicate OwnLines(h: Head) {
    IsOneLine(h.stamp) && IsOneLine(h.notice)
  }

  lemma NamedGoOn(h: Head)
    ensures AllGoOn(AllPieces(NamedFields(h))) <==> HeadContinues(h)
  {
    var fields := NamedFields(h);
    FieldsGoOn(fields);
    assert fields[0] in fields && fields[1] in fields && fields[2] in fields && fields[3] in fields && fields[4] in fields;
  }

  lemma FieldsOneLine(h: Head, original: seq<byte>, stored: seq<byte>, hash: seq<byte> -> string)
    requires OwnLines(h) && HexDigest(hash)
    ensures forall f | f in Fields(h, original, stored, hash) :: IsOneLine(f.value)
  {
    MeasuredHoldable(original, stored, hash);
    forall f | f in Fields(h, original, stored, hash) ensures IsOneLine(f.value) {
      if f in MeasuredFields(original, stored, hash) {
        assert forall i | 0 <= i < |f.value| :: !IsBreak(f.value[i]);
      } else {
        EscapedIsOneLine(h.agent);
        EscapedIsOneLine(h.reason);
        EscapedIsOneLine(h.target);
      }
    }
  }

  lemma EscapedIsOneLine(v: string)
    ensures IsOneLine(Escaped(v))
  {
    forall i | 0 <= i < |Escaped(v)| ensures Escaped(v)[i] != '\n' && Escaped(v)[i] != '\r' {
      EscapedAt(v, i);
    }
  }

  /** What the loader's table is: everything, or what stands before the line at
      which the parser stops. */
  lemma LoadedTable(command: string, h: Head, limit: int, hash: seq<byte> -> string)
    requires OwnLines(h) && HexDigest(hash) && Unmarked(h)
    ensures var named := Parsed(AllPieces(NamedFields(h)), map[]);
      Loaded(Record(command, h, limit, hash), hash).fields
      == if HeadContinues(h) then Table(MeasuredFields(Encode(command), Stored(command, limit), hash), named) else named
  {
    var named, measured := NamedFields(h), MeasuredFields(Encode(command), Stored(command, limit), hash);
    RecordBodyExactly(command, h, limit, hash);
    DecodeEncode(TextOf(LinesOf(named + measured)));
    FieldsOneLine(h, Encode(command), Stored(command, limit), hash);
    HeaderPieces(named + measured);
    PiecesOfConcat(named, measured);
    MeasuredHoldable(Encode(command), Stored(command, limit), hash);
    UnbrokenPieces(measured);
    NamedGoOn(h);
    ParsedOfConcat(AllPieces(named), LinesOf(measured), map[]);
    HeaderParses(measured, Parsed(AllPieces(named), map[]));
  }

  /** Reading the record back gives the longest prefix of whole characters within
      the limit as its body, the right byte counts and truncation flag, and never
      the status corrupt. */
  ghost predicate ReadsBack(command: string, h: Head, limit: int, hash: seq<byte> -> string) {
    var payload := Record(command, h, limit, hash);
    var kept := Fitting(command, if limit < 0 then 0 else limit);
    var entry := Loaded(payload, hash);
    && BodyOf(payload) == Encode(command[..kept])
    && entry.truncated == Some(kept < |command|)
    && entry.originalBytes == Some(|Encode(command)|) && entry.storedBytes == Some(|Encode(command[..kept])|)
    && entry.status == if kept < |command| then Incomplete else Complete
  }

  lemma MeasuredFacts(original: seq<byte>, stored: seq<byte>, hash: seq<byte> -> string, known: map<string, string>)
    requires HexDigest(hash)
    ensures var t := Table(MeasuredFields(original, stored, hash), known);
      && Value(t, OriginalBytes) == Decimals.Decimal(|original|)
      && Value(t, StoredBytes) == Decimals.Decimal(|stored|)
      && Value(t, StoredDigest) == hash(stored)
      && Value(t, Truncated) == BoolText(stored != original)
      && Value(t, RecordStatus) == StatusText(stored != original)
  {
    MeasuredReadsBack(original, stored, hash, known, 0);
    MeasuredReadsBack(original, stored, hash, known, 1);
    MeasuredReadsBack(original, stored, hash, known, 3);
    MeasuredReadsBack(original, stored, hash, known, 4);
    MeasuredReadsBack(original, stored, hash, known, 6);
  }

  lemma RecordRoundTrip(command: string, h: Head, limit: int, hash: seq<byte> -> string)
    requires OwnLines(h) && HexDigest(hash) && Unmarked(h) && HeadContinues(h)
    ensures ReadsBack(command, h, limit, hash)
  {
    var original, stored := Encode(command), Stored(command, limit);
    StoredIsLongestPrefix(command, limit, 0);
    RecordBodyExactly(command, h, limit, hash);
    LoadedTable(command, h, limit, hash);
    MeasuredFacts(original, stored, hash, Parsed(AllPieces(NamedFields(h)), map[]));
    BoolReadsBack(stored != original);
    StatusReadsBack(stored != original);
    Decimals.ParsedDecimal(|original|);
    Decimals.ParsedDecimal(|stored|);
  }

  /** Header values let every record be read back if and only if none ends in the
      mark and each line one falls into is read past. Otherwise the body is cut
      elsewhere, or what is read does not depend on the command at all. */
  lemma RecordsReadBackExactly(h: Head, hash: seq<byte> -> string)
    requires OwnLines(h) && HexDigest(hash)
    ensures (forall command, limit :: ReadsBack(command, h, limit, hash)) <==> Unmarked(h) && HeadContinues(h)
  {
    if Unmarked(h) && HeadContinues(h) {
      forall command, limit ensures ReadsBack(command, h, limit, hash) {
        RecordRoundTrip(command, h, limit, hash);
      }
    } else if !Unmarked(h) {
      RecordBodyExactly("", h, 0, hash);
      StoredIsLongestPrefix("", 0, 0);
      assert !ReadsBack("", h, 0, hash);
    } else {
      LoadedTable("", h, 1, hash);
      LoadedTable("a", h, 1, hash);
      SizesDiffer();
      assert !(ReadsBack("", h, 1, hash) && ReadsBack("a", h, 1, hash));
    }
  }

  lemma SizesDiffer()
    ensures |Encode("")| != |Encode("a")|
  {
    EncodeConcat("", "a");
    assert Encode("a") == Bytes('a') + Encode("");
  }
}
