/** What is read from any file in the quarantine, whether or not this program wrote
    it: its lines, its fields, its flag and its status.
  */
module QuarantineAnswers {
  import opened Common
  import opened Quarantine
  import opened QuarantineFacts
  import opened Utf8

  // ----- Escaping -----------------------------------------------------------

  /** Escaping loses nothing: a header value can be told from its escaped form. */
  lemma {:induction false} EscapedInjective(a: string, b: string)
    requires Escaped(a) == Escaped(b)
    ensures a == b
  {
    if a == "" || b == "" {
      EscapedNonEmpty(a);
      EscapedNonEmpty(b);
    } else {
      var ea, eb := EscapedChar(a[0]), EscapedChar(b[0]);
      assert Escaped(a)[0] == ea[0] && Escaped(b)[0] == eb[0];
      assert ea[0] == '\\' ==> |ea| == 2 && |eb| == 2 && Escaped(a)[1] == ea[1] && Escaped(b)[1] == eb[1];
      assert a[0] == b[0];
      assert Escaped(a)[|ea|..] == Escaped(a[1..]) && Escaped(b)[|eb|..] == Escaped(b[1..]);
      EscapedInjective(a[1..], b[1..]);
      assert a == [a[0]] + a[1..] && b == [b[0]] + b[1..];
    }
  }

  lemma EscapedNonEmpty(v: string)
    ensures Escaped(v) == "" <==> v == ""
  {
  }

  // ----- Lines --------------------------------------------------------------

  /** The width of the line end at the start of the text: CR LF is one. */
  function EndWidth(text: string): nat {
    if text == "" || !IsBreak(text[0]) then 0
    else if |text| >= 2 && text[0] == '\r' && text[1] == '\n' then 2
    else 1
  }

  /** The text is these lines, each but perhaps the last with a line end behind it. */
  ghost predicate FallsInto(text: string, lines: seq<string>)
    decreases |lines|
  {
    if lines == [] then text == "" else
      var line := lines[0];
      && Unbroken(line) && line <= text
      && var rest := text[|line|..];
         if rest == "" then line != "" && |lines| == 1
         else EndWidth(rest) > 0 && FallsInto(rest[EndWidth(rest)..], lines[1..])
  }

  lemma {:induction false} LinesTell(text: string, current: string)
    requires Unbroken(current)
    ensures FallsInto(current + text, LinesFrom(text, current))
    decreases |text|
  {
    var lines := LinesFrom(text, current);
    if text == "" {
      assert current + text == current;
      assert current[|current|..] == "";
    } else if IsBreak(text[0]) {
      var w := EndWidth(text);
      LinesTell(text[w..], "");
      assert (current + text)[|current|..] == text;
      assert "" + text[w..] == text[w..];
      assert lines[1..] == LinesFrom(text[w..], "");
    } else {
      LinesTell(text[1..], current + [text[0]]);
      assert current + [text[0]] + text[1..] == current + text;
    }
  }

  // ----- Fields -------------------------------------------------------------

  ghost predicate BlankIn(s: string, i: nat, j: nat) {
    i <= j <= |s| && forall k | i <= k < j :: IsSpace(s[k])
  }

  /** Nothing but blanks before i and from j on, and none at the ends between. */
  ghost predicate IsCore(s: string, i: nat, j: nat) {
    && i <= j <= |s| && BlankIn(s, 0, i) && BlankIn(s, j, |s|)
    && (i < j ==> !IsSpace(s[i]) && !IsSpace(s[j - 1]))
  }

  lemma {:induction false} StrippedExactly(s: string) returns (i: nat, j: nat)
    ensures IsCore(s, i, j) && Stripped(s) == s[i..j]
    decreases |s|
  {
    if s != "" && IsSpace(s[0]) {
      var rest := s[1..];
      i, j := StrippedExactly(rest);
      BlankBefore(s, i, j);
      i, j := i + 1, j + 1;
      assert rest[i - 1..j - 1] == s[i..j];
    } else if s != "" && IsSpace(s[|s| - 1]) {
      var init := s[..|s| - 1];
      i, j := StrippedExactly(init);
      assert init[i..j] == s[i..j];
      BlankBehind(s, i, j);
    } else {
      i, j := 0, |s|;
      assert s[0..|s|] == s;
    }
  }

  lemma BlankBefore(s: string, i: nat, j: nat)
    requires s != "" && IsSpace(s[0]) && IsCore(s[1..], i, j)
    ensures IsCore(s, i + 1, j + 1)
  {
    forall k | 0 < k < |s| ensures s[k] == s[1..][k - 1] {
    }
  }

  lemma BlankBehind(s: string, i: nat, j: nat)
    requires s != "" && IsSpace(s[|s| - 1]) && IsCore(s[..|s| - 1], i, j)
    ensures IsCore(s, i, j)
  {
    forall k | 0 <= k < |s| - 1 ensures s[k] == s[..|s| - 1][k] {
    }
  }

  /** The reader goes on behind the line: it starts with `#` and is not the mark. */
  predicate ReadOn(line: string) {
    line != "" && line[0] == '#' && line != "# ---"
  }

  /** So many lines are read: the next one, if there is one, stops the reader. */
  ghost predicate ReadUpTo(lines: seq<string>, n: nat) {
    && n <= |lines| && (forall i | 0 <= i < n :: ReadOn(lines[i]))
    && (n < |lines| ==> !ReadOn(lines[n]))
  }

  predicate Gives(line: string, key: string) {
    ':' in line && Colon(line) > 0 && Stripped(line[1..Colon(line)]) == key
  }

  /** The line gives the key this value. */
  predicate GivesValue(line: string, key: string, value: string) {
    Gives(line, key) && Stripped(line[Colon(line) + 1..]) == value
  }

  ghost predicate SomeGives(lines: seq<string>, n: nat, key: string) {
    exists i | 0 <= i < n <= |lines| :: Gives(lines[i], key)
  }

  ghost predicate LastGives(lines: seq<string>, n: nat, key: string, value: string) {
    exists i | 0 <= i < n <= |lines| ::
      GivesValue(lines[i], key, value) && forall m | i < m < n :: !Gives(lines[m], key)
  }

  lemma LaterLastGives(lines: seq<string>, n: nat, key: string, value: string)
    requires 0 < n <= |lines| && LastGives(lines[1..], n - 1, key, value)
    ensures LastGives(lines, n, key, value)
  {
    var i :| 0 <= i < n - 1 && GivesValue(lines[1..][i], key, value) && forall m | i < m < n - 1 :: !Gives(lines[1..][m], key);
    assert GivesValue(lines[i + 1], key, value);
    forall m | i + 1 < m < n ensures !Gives(lines[m], key) {
      assert lines[m] == lines[1..][m - 1];
    }
  }

  lemma FirstLineGives(lines: seq<string>, n: nat, key: string)
    requires 0 < n <= |lines|
    ensures SomeGives(lines, n, key) <==> Gives(lines[0], key) || SomeGives(lines[1..], n - 1, key)
  {
    if i :| 0 <= i < n - 1 && Gives(lines[1..][i], key) {
      assert lines[i + 1] == lines[1..][i];
    }
    if i :| 0 < i < n && Gives(lines[i], key) {
      assert lines[i] == lines[1..][i - 1];
    }
  }

  lemma {:induction false} ReadFieldsTell(lines: seq<string>, n: nat, known: map<string, string>, key: string)
    requires ReadUpTo(lines, n)
    ensures var r := Parsed(lines, known);
      if SomeGives(lines, n, key) then key in r && LastGives(lines, n, key, r[key])
      else key in r <==> key in known
    ensures !SomeGives(lines, n, key) && key in known ==> Parsed(lines, known)[key] == known[key]
    decreases |lines|
  {
    if n > 0 {
      var line, rest := lines[0], lines[1..];
      assert ReadUpTo(rest, n - 1) by {
        assert forall i | 0 <= i < n - 1 :: rest[i] == lines[i + 1];
      }
      var next := if ':' in line then known[Stripped(line[1..Colon(line)]) := Stripped(line[Colon(line) + 1..])] else known;
      assert Parsed(lines, known) == Parsed(rest, next);
      ReadFieldsTell(rest, n - 1, next, key);
      FirstLineGives(lines, n, key);
      if SomeGives(rest, n - 1, key) {
        LaterLastGives(lines, n, key, Parsed(rest, next)[key]);
      } else if Gives(line, key) {
        assert GivesValue(lines[0], key, next[key]);
        forall m | 0 < m < n ensures !Gives(lines[m], key) {
          assert lines[m] == rest[m - 1];
        }
      }
    }
  }

  /** The reader knows exactly the keys that a line gives before the first that stops
      it, each with the value of the last such line. */
  lemma FieldsExactly(lines: seq<string>, n: nat, key: string)
    requires ReadUpTo(lines, n)
    ensures key in Parsed(lines, map[]) <==> SomeGives(lines, n, key)
    ensures key in Parsed(lines, map[]) ==> LastGives(lines, n, key, Parsed(lines, map[])[key])
  {
    ReadFieldsTell(lines, n, map[], key);
  }

  // ----- Flag and status ----------------------------------------------------

  /** The same letters, upper or lower case. */
  ghost predicate Spells(s: string, word: string) {
    |s| == |word| && forall i | 0 <= i < |s| :: s[i] == word[i] || ('A' <= s[i] <= 'Z' && s[i] as int + 32 == word[i] as int)
  }

  lemma {:induction false} LowerTells(s: string)
    ensures |Lower(s)| == |s|
    ensures forall i | 0 <= i < |s| :: Lower(s)[i] == if 'A' <= s[i] <= 'Z' then (s[i] as int + 32) as char else s[i]
  {
    if s != "" {
      LowerTells(s[1..]);
    }
  }

  lemma LowerSpells(s: string, word: string)
    requires forall i | 0 <= i < |word| :: 'a' <= word[i] <= 'z'
    ensures Lower(s) == word <==> Spells(s, word)
  {
    LowerTells(s);
  }

  /** The flag is known exactly if its text is "true" or "false" in any case. */
  lemma FlagExactly(s: string)
    ensures BoolOf(s) == Some(true) <==> Spells(s, "true")
    ensures BoolOf(s) == Some(false) <==> Spells(s, "false")
  {
    LowerSpells(s, "true");
    LowerSpells(s, "false");
    assert |"true"| != |"false"|;
  }

  /** The header claims a digest that the body has not, or claims none and a number
      of bytes that the body has not. */
  ghost predicate Belied(fields: map<string, string>, body: seq<byte>, hash: seq<byte> -> string) {
    var digest := Value(fields, StoredDigest);
    || (digest != "" && hash(body) != digest)
    || (digest == "" && exists n: nat :: NatOf(Value(fields, StoredBytes)) == Some(n) && n != |body|)
  }

  ghost predicate Says(fields: map<string, string>, word: string) {
    "record_status" in fields && fields["record_status"] == word
  }

  ghost predicate SaysNothing(fields: map<string, string>) {
    !Says(fields, "complete") && !Says(fields, "incomplete") && !Says(fields, "corrupt")
  }

  lemma WordsDiffer()
    ensures "complete" != "incomplete" && "complete" != "corrupt" && "incomplete" != "corrupt"
    ensures "complete" != "" && "incomplete" != "" && "corrupt" != ""
  {
    assert |"complete"| == 8 && |"incomplete"| == 10 && |"corrupt"| == 7;
  }

  /** Of any file: its status is corrupt if its header is belied or says so, complete
      or incomplete if it says so or, saying none of the three, its flag does, and
      otherwise unknown. */
  lemma StatusExactly(payload: seq<byte>, hash: seq<byte> -> string)
    ensures var e := Loaded(payload, hash);
      var flag, belied := Value(e.fields, Truncated), Belied(e.fields, BodyOf(payload), hash);
      && (e.status == Corrupt <==> belied || Says(e.fields, "corrupt"))
      && (e.status == Complete <==>
            !belied && (Says(e.fields, "complete") || (SaysNothing(e.fields) && Spells(flag, "false"))))
      && (e.status == Incomplete <==>
            !belied && (Says(e.fields, "incomplete") || (SaysNothing(e.fields) && Spells(flag, "true"))))
      && (e.truncated == Some(true) <==> Spells(flag, "true")) && (e.truncated == Some(false) <==> Spells(flag, "false"))
  {
    var e := Loaded(payload, hash);
    FlagExactly(Value(e.fields, Truncated));
    WordsDiffer();
    assert Text(RecordStatus) == "record_status";
  }
}
