/** Quarantine records: a header of text lines, a separator and the stored bytes.

    Models `_encode_record`, `_header_value`, `_parse_header`, `_record_from_bytes`
    and `_gc` of core/quarantine.py. The digest is a parameter; so is the fixed
    notice line.
  */
module Quarantine {
  import opened Common
  import opened Utf8
  import opened Separated
  import Decimals

  const MARK := "# ---"
  const SEPARATOR := MARK + ['\n']

  datatype Label =
    | BlockedAt | AgentKey | ReasonCode | Target | Notice | OriginalBytes | StoredBytes
    | OriginalDigest | StoredDigest | Truncated | Encoding | RecordStatus

  function Text(l: Label): string {
    match l
    case BlockedAt => "blocked_at"
    case AgentKey => "agent"
    case ReasonCode => "reason_code"
    case Target => "target"
    case Notice => "notice"
    case OriginalBytes => "original_bytes"
    case StoredBytes => "stored_bytes"
    case OriginalDigest => "original_sha256"
    case StoredDigest => "stored_sha256"
    case Truncated => "truncated"
    case Encoding => "encoding"
    case RecordStatus => "record_status"
  }

  datatype Field = Field(key: Label, value: string)

  // ----- Writing ------------------------------------------------------------

  function EscapedChar(c: char): string {
    if c == '\\' then ['\\', '\\'] else if c == '\r' then ['\\', 'r'] else if c == '\n' then ['\\', 'n'] else [c]
  }

  /** `_header_value`. */
  function Escaped(v: string): string {
    if v == "" then "" else EscapedChar(v[0]) + Escaped(v[1..])
  }

  /** The body that is kept: at most `limit` bytes, cut back to whole characters. */
  function Stored(command: string, limit: int): seq<byte> {
    var original := Encode(command);
    if limit >= |original| then original
    else Encode(Decode(original[..if limit < 0 then 0 else limit]))
  }

  datatype Head = Head(stamp: string, agent: string, reason: string, target: string, notice: string)

  function BoolText(b: bool): string {
    if b then "true" else "false"
  }

  function StatusText(truncated: bool): string {
    if truncated then "incomplete" else "complete"
  }

  function NamedFields(h: Head): seq<Field> {
    [Field(BlockedAt, h.stamp), Field(AgentKey, Escaped(h.agent)), Field(ReasonCode, Escaped(h.reason)),
     Field(Target, Escaped(h.target)), Field(Notice, h.notice)]
  }

  function MeasuredFields(original: seq<byte>, stored: seq<byte>, hash: seq<byte> -> string): seq<Field> {
    [Field(OriginalBytes, Decimals.Decimal(|original|)), Field(StoredBytes, Decimals.Decimal(|stored|)),
     Field(OriginalDigest, hash(original)), Field(StoredDigest, hash(stored)),
     Field(Truncated, BoolText(stored != original)), Field(Encoding, "utf-8"),
     Field(RecordStatus, StatusText(stored != original))]
  }

  function Fields(h: Head, original: seq<byte>, stored: seq<byte>, hash: seq<byte> -> string): seq<Field> {
    NamedFields(h) + MeasuredFields(original, stored, hash)
  }

  function LineOf(f: Field): string {
    "# " + Text(f.key) + ": " + f.value
  }

  function LinesOf(fields: seq<Field>): seq<string> {
    if fields == [] then [] else [LineOf(fields[0])] + LinesOf(fields[1..])
  }

  /** `_encode_record`. */
  function Record(command: string, h: Head, limit: int, hash: seq<byte> -> string): seq<byte> {
    var stored := Stored(command, limit);
    Encode(TextOf(LinesOf(Fields(h, Encode(command), stored, hash)))) + (Encode(SEPARATOR) + stored)
  }

  // ----- Reading ------------------------------------------------------------

  /** The line boundaries of `str.splitlines`. */
  predicate IsBreak(c: char) {
    c in {'\n', '\r', '\U{b}', '\U{c}', '\U{1c}', '\U{1d}', '\U{1e}', '\U{85}', '\U{2028}', '\U{2029}'}
  }

  function LinesFrom(text: string, current: string): seq<string>
    decreases |text|
  {
    if text == "" then (if current == "" then [] else [current])
    else if IsBreak(text[0]) then
      [current] + LinesFrom(if text[0] == '\r' && |text| > 1 && text[1] == '\n' then text[2..] else text[1..], "")
    else LinesFrom(text[1..], current + [text[0]])
  }

  function Stripped(s: string): string {
    if s != "" && IsSpace(s[0]) then Stripped(s[1..])
    else if s != "" && IsSpace(s[|s| - 1]) then Stripped(s[..|s| - 1])
    else s
  }

  function Colon(s: string): (i: nat)
    requires ':' in s
    ensures i < |s| && s[i] == ':' && forall j | 0 <= j < i :: s[j] != ':'
  {
    if s[0] == ':' then 0 else 1 + Colon(s[1..])
  }

  /** `_parse_header` on its lines; a later line overrides an earlier one. */
  function Parsed(lines: seq<string>, known: map<string, string>): map<string, string> {
    if lines == [] then known
    else if lines[0] == MARK || lines[0] == "" || lines[0][0] != '#' then known
    else if ':' !in lines[0] then Parsed(lines[1..], known)
    else
      var i := Colon(lines[0]);
      Parsed(lines[1..], known[Stripped(lines[0][1..i]) := Stripped(lines[0][i + 1..])])
  }

  function HeaderOf(payload: seq<byte>): seq<byte> {
    Before(payload, Encode(SEPARATOR))
  }

  function BodyOf(payload: seq<byte>): seq<byte> {
    After(payload, Encode(SEPARATOR))
  }

  datatype Status = Complete | Incomplete | Corrupt | Unknown

  datatype Entry = Entry(
    fields: map<string, string>, truncated: Option<bool>, originalBytes: Option<nat>, storedBytes: Option<nat>, status: Status)

  function Value(fields: map<string, string>, l: Label): string {
    if Text(l) in fields then fields[Text(l)] else ""
  }

  function Lower(s: string): string {
    if s == "" then "" else [if 'A' <= s[0] <= 'Z' then (s[0] as int + 32) as char else s[0]] + Lower(s[1..])
  }

  function BoolOf(s: string): Option<bool> {
    if Lower(s) == "true" then Some(true) else if Lower(s) == "false" then Some(false) else None
  }

  function NatOf(s: string): Option<nat> {
    match Decimals.Parsed(s)
    case None => None
    case Some(n) => Some(n)
  }

  function StatusOf(s: string, truncated: Option<bool>): Status {
    if s == "complete" then Complete
    else if s == "incomplete" then Incomplete
    else if s == "corrupt" then Corrupt
    else if truncated == Some(true) then Incomplete
    else if truncated == Some(false) then Complete
    else Unknown
  }

  /** The stored content does not match what the header claims. */
  predicate Mismatch(fields: map<string, string>, body: seq<byte>, hash: seq<byte> -> string) {
    if Value(fields, StoredDigest) != "" then hash(body) != Value(fields, StoredDigest)
    else NatOf(Value(fields, StoredBytes)).Some? && NatOf(Value(fields, StoredBytes)).value != |body|
  }

  /** `_record_from_bytes`. */
  function Loaded(payload: seq<byte>, hash: seq<byte> -> string): Entry {
    var fields := Parsed(LinesFrom(Decode(HeaderOf(payload)), ""), map[]);
    var truncated := BoolOf(Value(fields, Truncated));
    Entry(
      fields, truncated, NatOf(Value(fields, OriginalBytes)), NatOf(Value(fields, StoredBytes)),
      if Mismatch(fields, BodyOf(payload), hash) then Corrupt else StatusOf(Value(fields, RecordStatus), truncated))
  }

  // ----- The stored prefix --------------------------------------------------

  /** What is stored is the longest prefix of whole characters within the limit. */
  lemma StoredIsLongestPrefix(command: string, limit: int, k: nat)
    requires k <= |command|
    ensures var n := if limit < 0 then 0 else limit;
      var kept := Fitting(command, n);
      && Stored(command, limit) == Encode(command[..kept]) && |Stored(command, limit)| <= n
      && (k > kept ==> |Encode(command[..k])| > n)
      && (Stored(command, limit) == Encode(command) <==> kept == |command|)
  {
    var n := if limit < 0 then 0 else limit;
    var kept := Fitting(command, n);
    FittingIsLargest(command, n, k);
    FittingIsLargest(command, n, |command|);
    assert command[..|command|] == command;
    if limit < |Encode(command)| {
      DecodedPrefix(command, n);
    }
  }

  // ----- Collecting old entries ---------------------------------------------

  datatype File = File(name: string, mtime: int, size: nat)

  datatype Limits = Limits(entries: nat, total: int, ttl: int)

  function TotalSize(files: seq<File>): nat {
    if files == [] then 0 else files[0].size + TotalSize(files[1..])
  }

  ghost predicate OldestFirst(files: seq<File>) {
    forall i, j | 0 <= i < j < |files| :: files[i].mtime <= files[j].mtime
  }

  predicate Expired(f: File, limits: Limits, now: int) {
    now - f.mtime > limits.ttl
  }

  method DropExpired(files: seq<File>, limits: Limits, now: int) returns (kept: seq<File>, removed: nat)
    requires OldestFirst(files)
    ensures removed <= |files| && kept == files[removed..]
    ensures forall i | 0 <= i < |files| :: now - files[i].mtime > limits.ttl <==> i < removed
  {
    kept, removed := [], 0;
    for n := 0 to |files|
      invariant removed <= n && kept == files[removed..n]
      invariant forall i | 0 <= i < n :: Expired(files[i], limits, now) <==> i < removed
    {
      assert removed < n ==> files[removed].mtime <= files[n].mtime;
      if Expired(files[n], limits, now) {
        removed := removed + 1;
      } else {
        kept := kept + [files[n]];
      }
    }
  }

  method DropExcess(files: seq<File>, limit: nat) returns (kept: seq<File>, removed: nat)
    ensures removed == if |files| > limit then |files| - limit else 0
    ensures kept == files[removed..]
  {
    kept, removed := files, 0;
    while |kept| > limit
      invariant removed <= |files| && kept == files[removed..]
      invariant removed > 0 ==> |files| - removed >= limit
    {
      kept := kept[1..];
      removed := removed + 1;
    }
  }

  method DropOversize(files: seq<File>, limit: int) returns (kept: seq<File>, removed: nat)
    ensures removed <= |files| && kept == files[removed..]
    ensures kept != [] ==> TotalSize(kept) <= limit
    ensures removed > 0 ==> TotalSize(files[removed - 1..]) > limit
  {
    kept, removed := files, 0;
    var total := TotalSize(files);
    while total > limit && kept != []
      invariant removed <= |files| && kept == files[removed..] && total == TotalSize(kept)
      invariant removed > 0 ==> TotalSize(files[removed - 1..]) > limit
      decreases |kept|
    {
      total := total - kept[0].size;
      kept := kept[1..];
      removed := removed + 1;
    }
  }

  /** `_gc`, its unlinks successful: what stays is the newest part, and as much of
      it as the age and both caps allow. */
  method Collect(files: seq<File>, limits: Limits, now: int) returns (kept: seq<File>, removed: nat)
    requires OldestFirst(files)
    ensures removed <= |files| && kept == files[removed..]
    ensures forall f | f in kept :: now - f.mtime <= limits.ttl
    ensures |kept| <= limits.entries && (kept != [] ==> TotalSize(kept) <= limits.total)
    ensures removed > 0 ==>
      (now - files[removed - 1].mtime > limits.ttl || |files| - (removed - 1) > limits.entries
       || TotalSize(files[removed - 1..]) > limits.total)
  {
    var young, a := DropExpired(files, limits, now);
    var few, b := DropExcess(young, limits.entries);
    var c;
    kept, c := DropOversize(few, limits.total);
    removed := a + b + c;
    assert few == files[a + b..];
    if c > 0 {
      assert few[c - 1..] == files[removed - 1..];
    }
  }
}
