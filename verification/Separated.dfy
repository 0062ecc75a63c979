/** Text lines followed by a separator line and arbitrary bytes: where a search for
    the separator finds it.
  */
module Separated {
  import opened Common
  import opened Utf8

  function Find(payload: seq<byte>, token: seq<byte>): (r: Option<nat>)
    ensures r.Some? ==> r.value + |token| <= |payload| && token <= payload[r.value..]
    ensures r.Some? ==> forall j | 0 <= j < r.value :: !(token <= payload[j..])
    ensures r.None? ==> forall j | 0 <= j <= |payload| :: !(token <= payload[j..])
  {
    if token <= payload then Some(0)
    else if payload == [] then None
    else
      match Find(payload[1..], token)
      case None => assert forall j | 1 <= j <= |payload| :: payload[j..] == payload[1..][j - 1..]; None
      case Some(i) => assert forall j | 1 <= j <= i + 1 :: payload[j..] == payload[1..][j - 1..]; Some(i + 1)
  }

  /** `payload.partition(token)`: what is before the first token, and after it. */
  function Before(payload: seq<byte>, token: seq<byte>): seq<byte> {
    match Find(payload, token)
    case None => payload
    case Some(i) => payload[..i]
  }

  function After(payload: seq<byte>, token: seq<byte>): seq<byte> {
    match Find(payload, token)
    case None => []
    case Some(i) => payload[i + |token|..]
  }

  function TextOf(lines: seq<string>): string {
    if lines == [] then "" else lines[0] + ['\n'] + TextOf(lines[1..])
  }

  predicate Ends(line: string, mark: string) {
    |line| >= |mark| && line[|line| - |mark|..] == mark
  }

  predicate SomeEnds(lines: seq<string>, mark: string) {
    exists line | line in lines :: Ends(line, mark)
  }

  predicate OneLineEach(lines: seq<string>) {
    forall line | line in lines :: '\n' !in line
  }

  lemma LineHoldsMark(text: string, line: string, mark: string, i: nat)
    requires '\n' !in line && '\n' !in mark && i <= |line| < |text| && text[..|line|] == line && text[|line|] == '\n'
    requires mark + ['\n'] <= text[i..]
    ensures Ends(line, mark)
  {
    var token, n := mark + ['\n'], |mark|;
    assert forall j | 0 <= j <= n :: text[i + j] == text[i..][j] == token[j];
    assert text[i + n] == '\n' && forall j | 0 <= j < n :: text[i + j] == mark[j];
    assert forall j | 0 <= j < |line| :: text[j] == line[j];
    assert i + n >= |line|;
    assert |line| >= i + n;
    assert line[i..] == mark;
  }

  /** In the text a separator stands only at the end of a line ending in the mark. */
  lemma {:induction false} SeparatorEndsLine(lines: seq<string>, mark: string, i: nat)
    requires OneLineEach(lines) && '\n' !in mark && i < |TextOf(lines)|
    requires mark + ['\n'] <= (TextOf(lines) + (mark + ['\n']))[i..]
    ensures SomeEnds(lines, mark)
  {
    var line, rest := lines[0], TextOf(lines[1..]);
    var text := TextOf(lines) + (mark + ['\n']);
    assert lines[0] in lines;
    assert text == line + ['\n'] + (rest + (mark + ['\n']));
    if i > |line| {
      assert text[i..] == (rest + (mark + ['\n']))[i - |line| - 1..];
      assert forall x | x in lines[1..] :: x in lines;
      SeparatorEndsLine(lines[1..], mark, i - |line| - 1);
      var x :| x in lines[1..] && Ends(x, mark);
      assert x in lines;
    } else {
      LineHoldsMark(text, line, mark, i);
    }
  }

  /** And at the end of each such line one does. */
  lemma {:induction false} MarkedLineHoldsSeparator(lines: seq<string>, mark: string) returns (i: nat)
    requires SomeEnds(lines, mark)
    ensures i < |TextOf(lines)| && mark + ['\n'] <= TextOf(lines)[i..]
  {
    var line, rest, text := lines[0], TextOf(lines[1..]), TextOf(lines);
    if Ends(line, mark) {
      i := |line| - |mark|;
      assert text[i..] == (mark + ['\n']) + rest;
    } else {
      var x :| x in lines && Ends(x, mark);
      assert x in lines[1..];
      var j := MarkedLineHoldsSeparator(lines[1..], mark);
      i := |line| + 1 + j;
      assert text[i..] == rest[j..];
    }
  }

  lemma EncodeGrows(s: string, t: string)
    requires s <= t
    ensures Encode(s) <= Encode(t)
  {
    EncodeConcat(s, t[|s|..]);
    assert t == s + t[|s|..];
  }

  lemma TokenAt(text: string, token: string, tail: seq<byte>, i: nat)
    requires i < |text| && token <= text[i..]
    ensures var j := |Encode(text[..i])|;
      j < |Encode(text)| && Encode(token) <= (Encode(text) + tail)[j..]
  {
    var before, after := text[..i], text[i..];
    assert text == before + after;
    EncodeConcat(before, after);
    EncodeGrows(token, after);
    assert (Encode(text) + tail)[|Encode(before)|..] == Encode(after) + tail;
  }

  lemma NoEarlyToken(lines: seq<string>, mark: string, stored: seq<byte>, j: nat)
    requires OneLineEach(lines) && '\n' !in mark && IsAscii(mark + ['\n'])
    requires var token := mark + ['\n'];
      j < |Encode(TextOf(lines))| && Encode(token) <= (Encode(TextOf(lines)) + (Encode(token) + stored))[j..]
    ensures SomeEnds(lines, mark)
  {
    var token := mark + ['\n'];
    var text := TextOf(lines) + token;
    var all := Encode(TextOf(lines)) + (Encode(token) + stored);
    EncodeConcat(TextOf(lines), token);
    assert Encode(text)[j..] == all[j..|Encode(text)|];
    assert Encode(token) <= Encode(text)[j..];
    var i := AsciiFound(text, token, j);
    assert i < |TextOf(lines)| by {
      if TextOf(lines) <= text[..i] {
        EncodeGrows(TextOf(lines), text[..i]);
      }
    }
    SeparatorEndsLine(lines, mark, i);
  }

  /** Lines and bytes come apart as they were put together exactly when no line
      ends in the mark. */
  lemma PartsSurviveExactly(lines: seq<string>, mark: string, stored: seq<byte>)
    requires OneLineEach(lines) && '\n' !in mark && IsAscii(mark + ['\n'])
    ensures var token := Encode(mark + ['\n']);
      var all := Encode(TextOf(lines)) + (token + stored);
      && (After(all, token) == stored <==> !SomeEnds(lines, mark))
      && (!SomeEnds(lines, mark) ==> Before(all, token) == Encode(TextOf(lines)))
  {
    var token, text := Encode(mark + ['\n']), Encode(TextOf(lines));
    var all := text + (token + stored);
    assert all[|text|..] == token + stored;
    var found := Find(all, token);
    assert found.Some? && found.value <= |text|;
    if SomeEnds(lines, mark) {
      var i := MarkedLineHoldsSeparator(lines, mark);
      TokenAt(TextOf(lines), mark + ['\n'], token + stored, i);
      assert |After(all, token)| > |stored|;
    } else {
      if found.value < |text| {
        NoEarlyToken(lines, mark, stored, found.value);
      }
      assert all[|text| + |token|..] == stored && all[..|text|] == text;
    }
  }
}
