/** UTF-8 as RFC 3629, sections 3 and 4, defines it, and decoding that ignores
    what is not UTF-8.
  */
module Utf8 {
  import opened Common

  newtype byte = x: int | 0 <= x < 256

  function Bytes(c: char): (r: seq<byte>)
    ensures 1 <= |r| <= 4
  {
    var n := c as int;
    if n < 0x80 then [n as byte]
    else if n < 0x800 then [(0xC0 + n / 64) as byte, (0x80 + n % 64) as byte]
    else if n < 0x1_0000 then
      [(0xE0 + n / 4096) as byte, (0x80 + n / 64 % 64) as byte, (0x80 + n % 64) as byte]
    else
      [(0xF0 + n / 262144) as byte, (0x80 + n / 4096 % 64) as byte, (0x80 + n / 64 % 64) as byte, (0x80 + n % 64) as byte]
  }

  function Encode(s: string): seq<byte> {
    if s == "" then [] else Bytes(s[0]) + Encode(s[1..])
  }

  predicate Continues(b: byte) {
    0x80 <= b < 0xC0
  }

  predicate IsScalar(n: int) {
    0 <= n < 0xD800 || 0xE000 <= n < 0x11_0000
  }

  /** The character at the start of the bytes, if a well-formed one stands there. */
  function First(b: seq<byte>): (r: Option<char>)
    ensures r.Some? ==> |Bytes(r.value)| <= |b|
  {
    if b == [] then None
    else if b[0] < 0x80 then Some(b[0] as char)
    else if 0xC2 <= b[0] < 0xE0 && |b| >= 2 && Continues(b[1]) then
      Some(((b[0] as int - 0xC0) * 64 + (b[1] as int - 0x80)) as char)
    else if 0xE0 <= b[0] < 0xF0 && |b| >= 3 && Continues(b[1]) && Continues(b[2]) then
      var n := (b[0] as int - 0xE0) * 4096 + (b[1] as int - 0x80) * 64 + (b[2] as int - 0x80);
      if n >= 0x800 && IsScalar(n) then Some(n as char) else None
    else if 0xF0 <= b[0] < 0xF5 && |b| >= 4 && Continues(b[1]) && Continues(b[2]) && Continues(b[3]) then
      var n := (b[0] as int - 0xF0) * 262144 + (b[1] as int - 0x80) * 4096 + (b[2] as int - 0x80) * 64 + (b[3] as int - 0x80);
      if n >= 0x1_0000 && IsScalar(n) then Some(n as char) else None
    else None
  }

  /** Decoding with errors ignored: bytes that start no character are dropped. */
  function Decode(b: seq<byte>): string
    decreases |b|
  {
    if b == [] then ""
    else
      match First(b)
      case Some(c) => [c] + Decode(b[|Bytes(c)|..])
      case None => Decode(b[1..])
  }

  lemma Sextets(n: nat)
    requires n < 0x11_0000
    ensures n / 64 * 64 + n % 64 == n
    ensures n / 4096 * 4096 + n / 64 % 64 * 64 + n % 64 == n
    ensures n / 262144 * 262144 + n / 4096 % 64 * 4096 + n / 64 % 64 * 64 + n % 64 == n
  {
    assert n / 64 / 64 == n / 4096 && n / 4096 / 64 == n / 262144;
  }

  lemma FirstOfTwo(c: char, rest: seq<byte>)
    requires 0x80 <= c as int < 0x800
    ensures First(Bytes(c) + rest) == Some(c)
  {
    var n, b := c as int, Bytes(c) + rest;
    Sextets(n);
    assert b[0] as int == 0xC0 + n / 64 && b[1] as int == 0x80 + n % 64;
  }

  lemma FirstOfThree(c: char, rest: seq<byte>)
    requires 0x800 <= c as int < 0x1_0000
    ensures First(Bytes(c) + rest) == Some(c)
  {
    var n, b := c as int, Bytes(c) + rest;
    Sextets(n);
    assert b[0] as int == 0xE0 + n / 4096 && b[1] as int == 0x80 + n / 64 % 64 && b[2] as int == 0x80 + n % 64;
    assert |b| >= 3 && Continues(b[1]) && Continues(b[2]) && 0xE0 <= b[0] < 0xF0;
  }

  lemma FirstOfFour(c: char, rest: seq<byte>)
    requires 0x1_0000 <= c as int
    ensures First(Bytes(c) + rest) == Some(c)
  {
    var n, b := c as int, Bytes(c) + rest;
    Sextets(n);
    assert b[0] as int == 0xF0 + n / 262144 && b[1] as int == 0x80 + n / 4096 % 64;
    assert b[2] as int == 0x80 + n / 64 % 64 && b[3] as int == 0x80 + n % 64;
    assert |b| >= 4 && Continues(b[1]) && Continues(b[2]) && Continues(b[3]) && 0xF0 <= b[0] < 0xF5;
  }

  lemma FirstOfBytes(c: char, rest: seq<byte>)
    ensures First(Bytes(c) + rest) == Some(c)
  {
    if c as int >= 0x1_0000 {
      FirstOfFour(c, rest);
    } else if c as int >= 0x800 {
      FirstOfThree(c, rest);
    } else if c as int >= 0x80 {
      FirstOfTwo(c, rest);
    }
  }

  lemma {:induction false} EncodeConcat(a: string, b: string)
    ensures Encode(a + b) == Encode(a) + Encode(b)
  {
    if a == "" {
      assert a + b == b;
    } else {
      assert (a + b)[0] == a[0] && (a + b)[1..] == a[1..] + b;
      EncodeConcat(a[1..], b);
    }
  }

  /** What is left of a character that was cut decodes to nothing. */
  lemma PartialIsDropped(c: char, n: nat)
    requires n < |Bytes(c)|
    ensures Decode(Bytes(c)[..n]) == ""
  {
    var b := Bytes(c)[..n];
    if n > 0 {
      assert First(b).None?;
      TailIsDropped(b[1..]);
    }
  }

  lemma {:induction false} TailIsDropped(b: seq<byte>)
    requires forall i | 0 <= i < |b| :: Continues(b[i])
    ensures Decode(b) == ""
  {
    if b != [] {
      assert First(b).None?;
      TailIsDropped(b[1..]);
    }
  }

  /** How many whole characters fit into n bytes. */
  function Fitting(s: string, n: nat): (k: nat)
    ensures k <= |s|
  {
    if s == "" || |Bytes(s[0])| > n then 0 else 1 + Fitting(s[1..], n - |Bytes(s[0])|)
  }

  /** It is the largest number that does. */
  lemma {:induction false} FittingIsLargest(s: string, n: nat, k: nat)
    requires k <= |s|
    ensures |Encode(s[..Fitting(s, n)])| <= n
    ensures k <= Fitting(s, n) <==> |Encode(s[..k])| <= n
  {
    if k > 0 {
      assert s[..k][1..] == s[1..][..k - 1];
    }
    if s != "" && |Bytes(s[0])| <= n {
      var m := Fitting(s[1..], n - |Bytes(s[0])|);
      assert s[..m + 1][1..] == s[1..][..m];
      FittingIsLargest(s[1..], n - |Bytes(s[0])|, if k > 0 then k - 1 else 0);
    }
  }

  /** Decoding the first n bytes of a text gives the characters that fit whole. */
  lemma {:induction false} DecodedPrefix(s: string, n: nat)
    requires n <= |Encode(s)|
    ensures Decode(Encode(s)[..n]) == s[..Fitting(s, n)]
  {
    if s != "" {
      var head, all := Bytes(s[0]), Encode(s);
      if |head| <= n {
        var cut := all[..n];
        var rest := Encode(s[1..])[..n - |head|];
        assert cut == head + rest;
        FirstOfBytes(s[0], rest);
        assert cut[|head|..] == rest;
        DecodedPrefix(s[1..], n - |head|);
        assert s[..Fitting(s, n)] == [s[0]] + s[1..][..Fitting(s[1..], n - |head|)];
      } else {
        assert all[..n] == head[..n];
        PartialIsDropped(s[0], n);
      }
    }
  }

  lemma {:induction false} FittingAll(s: string)
    ensures Fitting(s, |Encode(s)|) == |s|
  {
    if s != "" {
      FittingAll(s[1..]);
    }
  }

  /** Decoding undoes encoding. */
  lemma DecodeEncode(s: string)
    ensures Decode(Encode(s)) == s
  {
    DecodedPrefix(s, |Encode(s)|);
    FittingAll(s);
    assert Encode(s)[..|Encode(s)|] == Encode(s);
  }

  // ----- Plain ASCII inside encoded text ------------------------------------

  predicate IsAscii(s: string) {
    forall c | c in s :: c as int < 0x80
  }

  /** Encoded text starts with encoded ASCII exactly when the text starts with it. */
  lemma {:induction false} AsciiPrefix(text: string, ascii: string)
    requires IsAscii(ascii)
    ensures Encode(ascii) <= Encode(text) <==> ascii <= text
  {
    if ascii == "" {
      assert Encode(ascii) == [];
    } else {
      assert ascii[0] in ascii;
      assert forall c | c in ascii[1..] :: c in ascii;
      assert Bytes(ascii[0]) == [(ascii[0] as int) as byte];
      if text != "" {
        AsciiPrefix(text[1..], ascii[1..]);
        var head := Bytes(text[0]);
        var ea, et := Encode(ascii), Encode(text);
        assert ea[0] == (ascii[0] as int) as byte && ea[1..] == Encode(ascii[1..]);
        if ea <= et {
          assert et[0] == ea[0];
          assert head == [et[0]] && text[0] == ascii[0];
          assert et[1..] == Encode(text[1..]);
          assert ea[1..] <= et[1..];
        }
        if ascii <= text {
          assert text[0] == ascii[0] && ascii[1..] <= text[1..];
          assert et[1..] == Encode(text[1..]);
          assert et == [et[0]] + et[1..] && ea == [ea[0]] + ea[1..];
        }
      }
    }
  }

  /** Where encoded ASCII stands in encoded text, the ASCII stands in the text. */
  lemma {:induction false} AsciiFound(text: string, ascii: string, j: nat) returns (i: nat)
    requires IsAscii(ascii) && ascii != "" && j <= |Encode(text)| && Encode(ascii) <= Encode(text)[j..]
    ensures i <= |text| && j == |Encode(text[..i])| && ascii <= text[i..]
  {
    if j == 0 {
      assert Encode(text)[0..] == Encode(text);
      AsciiPrefix(text, ascii);
      assert text[..0] == "" && text[0..] == text;
      return 0;
    }
    var head := Bytes(text[0]);
    assert ascii[0] in ascii;
    assert Encode(ascii)[0] == (ascii[0] as int) as byte;
    assert Encode(text)[j] == Encode(text)[j..][0] == Encode(ascii)[0];
    assert j >= |head|;
    assert Encode(text)[j..] == Encode(text[1..])[j - |head|..];
    var k := AsciiFound(text[1..], ascii, j - |head|);
    assert text[..k + 1][1..] == text[1..][..k];
    assert text[k + 1..] == text[1..][k..];
    return k + 1;
  }
}
