/** What patterns match and which paths the scan covers, said by pieces of text and
    by the components of paths.
  */
module ScopeAnswers {
  import opened Common
  import opened Paths
  import opened ScopePolicy

  // ----- Patterns -----------------------------------------------------------

  function TokenText(t: Token): string {
    match t
    case Literal(c) => [c]
    case AnyOne => "?"
    case AnyMany => "*"
    case OneOf(members) => "[" + members + "]"
  }

  function PatternText(ts: seq<Token>): string {
    if ts == [] then "" else TokenText(ts[0]) + PatternText(ts[1..])
  }

  function Unnegated(members: string): string {
    if members != "" && members[0] == '!' then members[1..] else members
  }

  /** What a bracket expression can hold: at least one member, and the closing bracket
      only as the first. */
  predicate IsBody(members: string) {
    var rest := Unnegated(members);
    rest != "" && forall i | 1 <= i < |rest| :: rest[i] != ']'
  }

  /** A bracket expression stands at the start of the text. */
  ghost predicate StartsBracket(p: string, k: nat) {
    1 <= k < |p| && p[0] == '[' && p[k] == ']' && IsBody(p[1..k])
  }

  lemma {:induction false} ClosingFromExactly(p: string, from: nat)
    requires from <= |p|
    ensures var r := ClosingFrom(p, from);
      && (r.None? <==> forall i | from <= i < |p| :: p[i] != ']')
      && (r.Some? ==> p[r.value] == ']' && forall i | from <= i < r.value :: p[i] != ']')
    decreases |p| - from
  {
    if from < |p| {
      ClosingFromExactly(p, from + 1);
    }
  }

  /** Where the members start, behind the bracket and a mark of negation. */
  function MembersAt(p: string): nat {
    if |p| > 1 && p[1] == '!' then 2 else 1
  }

  lemma BodyTo(p: string, k: nat)
    requires 1 <= k < |p| && p[0] == '['
    ensures IsBody(p[1..k]) <==> MembersAt(p) < k && forall i | MembersAt(p) < i < k :: p[i] != ']'
  {
    var at := MembersAt(p);
    var body := p[1..k];
    if k > 1 {
      assert body[0] == p[1];
      assert Unnegated(body) == p[at..k];
      assert forall i | at < i < k :: p[i] == p[at..k][i - at];
      assert forall i | 1 <= i < k - at :: p[at..k][i] == p[at + i];
    }
  }

  lemma ClosingExactly(p: string, k: nat)
    requires p != "" && p[0] == '['
    ensures StartsBracket(p, k) <==> Closing(p) == Some(k)
  {
    var i := MembersAt(p);
    var j := if i < |p| && p[i] == ']' then i + 1 else i;
    ClosingFromExactly(p, j);
    if 1 <= k < |p| {
      BodyTo(p, k);
    }
  }

  /** One token after the other: a star, a question mark, a bracket expression if one
      starts there, and otherwise the character. Nothing of the pattern is lost. */
  ghost predicate ReadsAs(p: string, ts: seq<Token>)
    decreases |ts|
  {
    if ts == [] then p == "" else
      && p != "" && TokenText(ts[0]) <= p && ReadsAs(p[|TokenText(ts[0])|..], ts[1..])
      && match ts[0]
         case AnyMany => true
         case AnyOne => true
         case OneOf(members) => StartsBracket(p, |members| + 1)
         case Literal(c) => c != '*' && c != '?' && forall k :: !StartsBracket(p, k)
  }

  lemma {:induction false} TokensExactly(p: string)
    ensures ReadsAs(p, Tokens(p))
    decreases |p|
  {
    if p != "" {
      var ts := Tokens(p);
      if p[0] == '[' {
        forall k ensures StartsBracket(p, k) <==> Closing(p) == Some(k) {
          if k >= 0 {
            ClosingExactly(p, k);
          }
        }
      }
      if p[0] == '[' && Closing(p).Some? {
        var k := Closing(p).value;
        assert StartsBracket(p, k);
        BracketFirst(p, k);
        TokensExactly(p[k + 1..]);
      } else {
        assert TokenText(ts[0]) == [p[0]] && p[..1] == [p[0]];
        TokensExactly(p[1..]);
      }
      assert ts[1..] == Tokens(p[|TokenText(ts[0])|..]);
    }
  }

  lemma BracketFirst(p: string, k: nat)
    requires StartsBracket(p, k)
    ensures TokenText(OneOf(p[1..k])) == p[..k + 1] && |p[1..k]| + 1 == k
  {
  }

  // ----- Bracket expressions ------------------------------------------------

  datatype Range = Range(low: char, high: char)

  /** Three characters with a hyphen in the middle are a range, any other a character
      alone. */
  function RangesOf(members: string): seq<Range> {
    if members == "" then []
    else if |members| >= 3 && members[1] == '-' then [Range(members[0], members[2])] + RangesOf(members[3..])
    else [Range(members[0], members[0])] + RangesOf(members[1..])
  }

  ghost predicate WithinOne(ranges: seq<Range>, c: char) {
    exists r | r in ranges :: r.low <= c <= r.high
  }

  lemma WithinMore(first: Range, rest: seq<Range>, c: char)
    ensures WithinOne([first] + rest, c) <==> first.low <= c <= first.high || WithinOne(rest, c)
  {
    assert first in [first] + rest;
    assert forall r :: r in [first] + rest <==> r == first || r in rest;
  }

  lemma {:induction false} MemberExactly(members: string, c: char)
    ensures Member(members, c) <==> WithinOne(RangesOf(members), c)
    decreases |members|
  {
    if members != "" {
      if |members| >= 3 && members[1] == '-' {
        MemberExactly(members[3..], c);
        WithinMore(Range(members[0], members[2]), RangesOf(members[3..]), c);
      } else {
        MemberExactly(members[1..], c);
        WithinMore(Range(members[0], members[0]), RangesOf(members[1..]), c);
      }
    }
  }

  // ----- Matching -----------------------------------------------------------

  function Joint(parts: seq<string>): string {
    if parts == [] then "" else parts[0] + Joint(parts[1..])
  }

  /** The star takes any text, every other token one character that fits it. */
  ghost predicate Takes(t: Token, part: string) {
    match t
    case AnyMany => true
    case AnyOne => |part| == 1
    case Literal(c) => part == [c]
    case OneOf(members) =>
      && |part| == 1
      && (WithinOne(RangesOf(Unnegated(members)), part[0]) <==> !(members != "" && members[0] == '!'))
  }

  ghost predicate Covers(ts: seq<Token>, parts: seq<string>) {
    |parts| == |ts| && forall i | 0 <= i < |ts| :: Takes(ts[i], parts[i])
  }

  lemma FitsExactly(t: Token, c: char)
    requires !t.AnyMany?
    ensures Fits(t, c) <==> Takes(t, [c])
  {
    if t.OneOf? {
      MemberExactly(Unnegated(t.members), c);
    }
  }

  lemma {:induction false} GlobCut(s: string, ts: seq<Token>) returns (parts: seq<string>)
    requires Glob(s, ts)
    ensures Covers(ts, parts) && Joint(parts) == s
    decreases |ts|, |s|
  {
    if ts == [] {
      parts := [];
    } else if ts[0].AnyMany? && Glob(s, ts[1..]) {
      var rest := GlobCut(s, ts[1..]);
      parts := [""] + rest;
      assert parts[1..] == rest && "" + s == s;
    } else if ts[0].AnyMany? {
      var more := GlobCut(s[1..], ts);
      parts := [[s[0]] + more[0]] + more[1..];
      assert parts[1..] == more[1..];
      assert [s[0]] + more[0] + Joint(more[1..]) == [s[0]] + (more[0] + Joint(more[1..]));
    } else {
      FitsExactly(ts[0], s[0]);
      var rest := GlobCut(s[1..], ts[1..]);
      parts := [[s[0]]] + rest;
      assert parts[1..] == rest;
    }
  }

  lemma {:induction false} CutGlobs(parts: seq<string>, ts: seq<Token>)
    requires Covers(ts, parts)
    ensures Glob(Joint(parts), ts)
    decreases |ts|, if parts == [] then 0 else |parts[0]|
  {
    if ts != [] {
      var s := Joint(parts);
      assert Takes(ts[0], parts[0]);
      if ts[0].AnyMany? && parts[0] != "" {
        var fewer := [parts[0][1..]] + parts[1..];
        assert fewer[1..] == parts[1..];
        CutGlobs(fewer, ts);
        assert s == parts[0] + Joint(parts[1..]) && s[1..] == parts[0][1..] + Joint(parts[1..]);
      } else {
        CutGlobs(parts[1..], ts[1..]);
        if ts[0].AnyMany? {
          assert s == Joint(parts[1..]);
        } else {
          assert parts[0] == [parts[0][0]] && s[0] == parts[0][0] && s[1..] == Joint(parts[1..]);
          FitsExactly(ts[0], s[0]);
        }
      }
    }
  }

  /** A text matches a pattern exactly if it can be cut into pieces, one for each
      token. */
  lemma GlobExactly(s: string, ts: seq<Token>)
    ensures Glob(s, ts) <==> exists parts :: Covers(ts, parts) && Joint(parts) == s
  {
    if Glob(s, ts) {
      var parts := GlobCut(s, ts);
    }
    if parts :| Covers(ts, parts) && Joint(parts) == s {
      CutGlobs(parts, ts);
    }
  }

  /** Besides, a pattern matches the directory before its final slash and two stars,
      and one without them the path it spells. */
  lemma MatchesExactly(path: string, pattern: string)
    ensures Matches(path, pattern) <==>
      || Glob(path, Tokens(pattern)) || pattern == path + "/**"
      || (pattern == path && forall d: string :: pattern != d + "/**")
  {
    var suffix := "/**";
    assert (path + suffix)[|path|..] == suffix && (path + suffix)[..|path|] == path;
    if |pattern| >= 3 && pattern[|pattern| - 3..] == suffix {
      var d := pattern[..|pattern| - 3];
      assert pattern == d + suffix;
    }
    forall d: string | pattern == d + suffix ensures WithoutSuffix(pattern, suffix) == d {
      assert pattern[|pattern| - 3..] == suffix;
    }
  }

  // ----- Exclusion ----------------------------------------------------------

  lemma {:induction false} SlashedNormal(path: string)
    requires '\\' !in path
    ensures Slashed(path) == path
  {
    if path != "" {
      SlashedNormal(path[1..]);
      assert path == [path[0]] + path[1..];
    }
  }

  lemma DotFirst(path: string)
    requires "./" <= path
    ensures Components(path)[0] == "."
  {
    assert path == "." + "/" + path[2..];
    ComponentsOfJoin(".", path[2..]);
    ComponentsOfPlain(".");
  }

  /** Of a normal path the first component decides. */
  lemma HardExcludedExactly(path: string)
    requires Normal(path)
    ensures IsHardExcluded(path) <==>
      var first := Components(path)[0];
      IsProtectedName(first) || first in {".git", ".hg", ".svn", ".codegraph", ".fablize"}
  {
    SlashedNormal(path);
    if "./" <= path {
      DotFirst(path);
    }
  }

  lemma DotIsDropped(path: string)
    ensures FirstSegment("./" + path) == FirstSegment(path)
  {
    assert ("./" + path)[0] == '.' && ("./" + path)[1..] == "/" + path && ("/" + path)[1..] == path;
    assert Slashed("./" + path) == ['.'] + (['/'] + Slashed(path)) == "./" + Slashed(path);
    assert ("./" + Slashed(path))[2..] == Slashed(path);
  }

  /** However its slashes are written, and whatever `./` it starts with. */
  lemma SpellingsAgree(path: string)
    ensures IsHardExcluded("./" + path) <==> IsHardExcluded(path)
    ensures IsHardExcluded(Slashed(path)) <==> IsHardExcluded(path)
    ensures IsSoftExcluded(Slashed(path)) <==> IsSoftExcluded(path)
    ensures '\\' !in Slashed(path)
  {
    SlashedTwice(path);
    DotIsDropped(path);
    assert FirstSegment(Slashed(path)) == FirstSegment(path);
  }

  lemma {:induction false} SlashedTwice(path: string)
    ensures Slashed(Slashed(path)) == Slashed(path) && '\\' !in Slashed(path)
  {
    if path != "" {
      SlashedTwice(path[1..]);
    }
  }

  lemma {:induction false} NonEmptyNormal(parts: seq<string>)
    requires forall i | 0 <= i < |parts| :: parts[i] != ""
    ensures NonEmpty(parts) == parts
  {
    if parts != [] {
      NonEmptyNormal(parts[1..]);
    }
  }

  /** The chain stands among the components, one right after the other. */
  ghost predicate Holds(names: seq<string>, chain: seq<string>) {
    exists before, behind :: names == before + chain + behind
  }

  lemma ChainExactly(names: seq<string>, chain: seq<string>)
    ensures HasChain(names, chain) <==> Holds(names, chain)
  {
    if i: nat :| i <= |names| && ChainAt(names, chain, i) {
      assert names == names[..i] + chain + names[i + |chain|..];
    }
    if before, behind :| names == before + chain + behind {
      assert names[|before|..|before| + |chain|] == chain;
      assert ChainAt(names, chain, |before|);
    }
  }

  lemma SoftExcludedExactly(path: string)
    requires Normal(path)
    ensures IsSoftExcluded(path) <==> exists chain | chain in SOFT_CHAINS :: Holds(Components(path), chain)
  {
    SlashedNormal(path);
    NonEmptyNormal(Components(path));
    forall chain | chain in SOFT_CHAINS ensures HasChain(Components(path), chain) <==> Holds(Components(path), chain) {
      ChainExactly(Components(path), chain);
    }
  }

  // ----- The two decisions --------------------------------------------------

  /** The directory lies on the way to the text before the pattern's first wildcard, or
      below it if there is a wildcard. */
  lemma CanMatchBelowExactly(directory: string, pattern: string)
    ensures CanMatchBelow(directory, pattern) <==>
      var fixed := FixedPrefix(pattern);
      || fixed == "" || Components(directory) <= Components(fixed)
      || (fixed != pattern && Components(fixed) <= Components(directory))
  {
    BelowIsComponentPrefix(FixedPrefix(pattern), directory);
    BelowIsComponentPrefix(directory, FixedPrefix(pattern));
    JoinedComponents(directory);
    JoinedComponents(FixedPrefix(pattern));
  }

  /** A path that some pattern of the list matches. */
  ghost predicate Listed(path: string, patterns: seq<string>) {
    exists i | 0 <= i < |patterns| :: Matches(path, patterns[i])
  }

  /** The configuration itself is always in scope; of the rest nothing hard-excluded
      is; an include wins over an exclude, and both over the soft exclusions. */
  lemma InScopeExactly(path: string, c: Config)
    ensures InScope(path, c) <==>
      || path == c.config
      || (!IsHardExcluded(path)
          && (Listed(path, c.included) || (!Listed(path, c.excluded) && !IsSoftExcluded(path))))
    ensures ShouldDescend(path, c) <==>
      || path == Components(c.config)[0]
      || (!IsHardExcluded(path)
          && (|| Listed(path, c.included) || HasIncludedDescendant(path, c.included)
              || (!Listed(path, c.excluded) && !IsSoftExcluded(path))))
  {
  }
}
