/** Which project paths the provenance scan covers, and which directories it may
    skip.

    Models `is_path_in_scope`, `should_descend` and the pattern matching under
    them in core/provenance_policy.py, with `fnmatchcase` written out.
  */
module ScopePolicy {
  import opened Common
  import opened Paths

  // ----- Glob patterns ------------------------------------------------------

  datatype Token = Literal(c: char) | AnyOne | AnyMany | OneOf(members: string)

  /** The end of a bracket expression whose contents start at `from`. */
  function ClosingFrom(p: string, from: nat): (r: Option<nat>)
    requires from <= |p|
    ensures r.Some? ==> from <= r.value < |p|
    decreases |p| - from
  {
    if from == |p| then None
    else if p[from] == ']' then Some(from)
    else ClosingFrom(p, from + 1)
  }

  function Closing(p: string): (r: Option<nat>)
    requires p != "" && p[0] == '['
    ensures r.Some? ==> 1 <= r.value < |p|
  {
    var i := if |p| > 1 && p[1] == '!' then 2 else 1;
    var j := if i < |p| && p[i] == ']' then i + 1 else i;
    ClosingFrom(p, j)
  }

  function Tokens(p: string): seq<Token>
    decreases |p|
  {
    if p == "" then []
    else if p[0] == '*' then [AnyMany] + Tokens(p[1..])
    else if p[0] == '?' then [AnyOne] + Tokens(p[1..])
    else if p[0] == '[' && Closing(p).Some? then
      [OneOf(p[1..Closing(p).value])] + Tokens(p[Closing(p).value + 1..])
    else [Literal(p[0])] + Tokens(p[1..])
  }

  /** Single characters and ranges of a bracket expression. */
  predicate Member(members: string, c: char) {
    if members == "" then false
    else if |members| >= 3 && members[1] == '-' then members[0] <= c <= members[2] || Member(members[3..], c)
    else members[0] == c || Member(members[1..], c)
  }

  predicate InClass(members: string, c: char) {
    if members != "" && members[0] == '!' then !Member(members[1..], c) else Member(members, c)
  }

  predicate Fits(t: Token, c: char) {
    match t
    case Literal(x) => x == c
    case AnyOne => true
    case AnyMany => true
    case OneOf(members) => InClass(members, c)
  }

  /** `*` stands for any characters, the separator among them. */
  predicate Glob(s: string, ts: seq<Token>)
    decreases |ts|, |s|
  {
    if ts == [] then s == ""
    else if ts[0].AnyMany? then Glob(s, ts[1..]) || (s != "" && Glob(s[1..], ts))
    else s != "" && Fits(ts[0], s[0]) && Glob(s[1..], ts[1..])
  }

  // ----- The policy ---------------------------------------------------------

  /** `config` is the path of the configuration file itself. */
  datatype Config = Config(included: seq<string>, excluded: seq<string>, config: string)

  const SOFT_CHAINS: set<seq<string>> := {
    ["node_modules"], [".venv"], ["venv"], ["__pycache__"], [".pytest_cache"], [".mypy_cache"], [".ruff_cache"],
    [".next", "cache"], [".turbo"], [".parcel-cache"], [".angular", "cache"], [".nuxt"], [".svelte-kit"]}

  function WithoutSuffix(s: string, suffix: string): string {
    if |suffix| > 0 && |s| >= |suffix| && s[|s| - |suffix|..] == suffix then s[..|s| - |suffix|] else s
  }

  /** `_matches`. */
  predicate Matches(path: string, pattern: string) {
    Glob(path, Tokens(pattern)) || path == WithoutSuffix(pattern, "/**")
  }

  predicate MatchesAny(path: string, patterns: seq<string>) {
    exists p | p in patterns :: Matches(path, p)
  }

  function Slashed(s: string): string {
    if s == "" then "" else [if s[0] == '\\' then '/' else s[0]] + Slashed(s[1..])
  }

  function WithoutDots(s: string): string {
    if "./" <= s then WithoutDots(s[2..]) else s
  }

  function FirstSegment(path: string): string {
    Components(WithoutDots(Slashed(path)))[0]
  }

  predicate IsHardExcluded(path: string) {
    var head := FirstSegment(path);
    head in {".codegraph", ".fablize"} || IsProtectedName(head) || head in {".git", ".hg", ".svn"}
  }

  function NonEmpty(parts: seq<string>): seq<string> {
    if parts == [] then []
    else (if parts[0] == "" then [] else [parts[0]]) + NonEmpty(parts[1..])
  }

  predicate ChainAt(segments: seq<string>, chain: seq<string>, i: nat) {
    i + |chain| <= |segments| && segments[i..i + |chain|] == chain
  }

  predicate HasChain(segments: seq<string>, chain: seq<string>) {
    exists i: nat | i <= |segments| :: ChainAt(segments, chain, i)
  }

  /** `_has_soft_excluded_chain`. */
  predicate IsSoftExcluded(path: string) {
    exists chain | chain in SOFT_CHAINS :: HasChain(NonEmpty(Components(Slashed(path))), chain)
  }

  predicate InScope(path: string, c: Config) {
    if path == c.config then true
    else if IsHardExcluded(path) then false
    else if MatchesAny(path, c.included) then true
    else if MatchesAny(path, c.excluded) then false
    else !IsSoftExcluded(path)
  }

  predicate IsSpecial(c: char) {
    c == '*' || c == '?' || c == '['
  }

  predicate Plain(segment: string) {
    forall c | c in segment :: !IsSpecial(c)
  }

  /** The leading segments without wildcards. */
  function PlainHead(parts: seq<string>): (r: seq<string>)
    ensures r <= parts
    ensures forall i | 0 <= i < |r| :: Plain(r[i])
    ensures |r| < |parts| ==> !Plain(parts[|r|])
  {
    if parts == [] || !Plain(parts[0]) then [] else [parts[0]] + PlainHead(parts[1..])
  }

  function FixedPrefix(pattern: string): string {
    var head := PlainHead(Components(pattern));
    if head == [] then "" else Joined(head)
  }

  /** `_include_can_match_descendant`. */
  predicate CanMatchBelow(directory: string, pattern: string) {
    var fixed := FixedPrefix(pattern);
    || fixed == ""
    || fixed == directory || directory + "/" <= fixed
    || (fixed != pattern && fixed + "/" <= directory)
  }

  predicate HasIncludedDescendant(directory: string, patterns: seq<string>) {
    exists p | p in patterns :: CanMatchBelow(directory, p)
  }

  predicate ShouldDescend(path: string, c: Config) {
    if path == Components(c.config)[0] then true
    else if IsHardExcluded(path) then false
    else if MatchesAny(path, c.included) then true
    else if MatchesAny(path, c.excluded) || IsSoftExcluded(path) then HasIncludedDescendant(path, c.included)
    else true
  }

  lemma PlainHeadIs(parts: seq<string>, n: nat)
    requires n <= |parts| && forall i | 0 <= i < n :: Plain(parts[i])
    requires n < |parts| ==> !Plain(parts[n])
    ensures PlainHead(parts) == parts[..n]
  {
    var r := PlainHead(parts);
    assert r == parts[..|r|];
    assert forall i | 0 <= i < |r| :: r[i] == parts[i];
  }

  /** `_fixed_prefix` as its loop. */
  method CollectFixedPrefix(pattern: string) returns (prefix: string)
    ensures prefix == FixedPrefix(pattern)
  {
    var segments := Components(pattern);
    var kept: seq<string> := [];
    var n := 0;
    while n < |segments| && Plain(segments[n])
      invariant n <= |segments| && kept == segments[..n]
      invariant forall i | 0 <= i < n :: Plain(segments[i])
    {
      kept := kept + [segments[n]];
      n := n + 1;
    }
    PlainHeadIs(segments, n);
    prefix := if kept == [] then "" else Joined(kept);
  }

  // ----- Matching -----------------------------------------------------------

  lemma {:induction false} GlobConcat(a: string, b: string, ts: seq<Token>, us: seq<Token>)
    requires Glob(a, ts) && Glob(b, us)
    ensures Glob(a + b, ts + us)
    decreases |ts|, |a|
  {
    if ts == [] {
      assert a + b == b && ts + us == us;
    } else {
      assert (ts + us)[1..] == ts[1..] + us;
      if ts[0].AnyMany? && Glob(a, ts[1..]) {
        GlobConcat(a, b, ts[1..], us);
      } else {
        assert (a + b)[1..] == a[1..] + b;
        GlobConcat(a[1..], b, if ts[0].AnyMany? then ts else ts[1..], us);
      }
    }
  }

  lemma {:induction false} StarMatchesAll(s: string)
    ensures Glob(s, [AnyMany])
  {
    if s != "" {
      StarMatchesAll(s[1..]);
    }
  }

  /** A final star also takes whatever follows. */
  lemma {:induction false} FinalStarExtends(s: string, ts: seq<Token>, more: string)
    requires Glob(s, ts + [AnyMany])
    ensures Glob(s + more, ts + [AnyMany])
    decreases |ts|, |s|
  {
    var all := ts + [AnyMany];
    if ts == [] {
      assert all == [AnyMany];
      StarMatchesAll(s + more);
    } else {
      assert all[1..] == ts[1..] + [AnyMany];
      if ts[0].AnyMany? && Glob(s, all[1..]) {
        FinalStarExtends(s, ts[1..], more);
      } else {
        assert (s + more)[1..] == s[1..] + more;
        if ts[0].AnyMany? {
          FinalStarExtends(s[1..], ts, more);
        } else {
          FinalStarExtends(s[1..], ts[1..], more);
        }
      }
    }
  }

  lemma {:induction false} TokensConcat(a: string, b: string)
    requires '[' !in a
    ensures Tokens(a + b) == Tokens(a) + Tokens(b)
  {
    if a == "" {
      assert a + b == b;
    } else {
      assert (a + b)[0] == a[0] && (a + b)[1..] == a[1..] + b;
      TokensConcat(a[1..], b);
    }
  }

  /** A text without brackets matches itself as a pattern. */
  lemma {:induction false} MatchesItself(s: string)
    requires '[' !in s
    ensures Glob(s, Tokens(s))
  {
    if s != "" {
      MatchesItself(s[1..]);
      if s[0] == '*' {
        assert Tokens(s)[1..] == Tokens(s[1..]);
        StarTakesOne(s[1..], Tokens(s)[1..], s[0]);
      } else {
        assert Tokens(s)[1..] == Tokens(s[1..]);
      }
    }
  }

  lemma StarTakesOne(s: string, ts: seq<Token>, c: char)
    requires Glob(s, ts)
    ensures Glob([c] + s, [AnyMany] + ts)
  {
    var all := [AnyMany] + ts;
    assert all[1..] == ts;
    assert ([c] + s)[1..] == s;
    assert Glob(s, all);
  }

  /** A pattern that starts with plain text matches only what starts with it. */
  lemma {:induction false} PlainTextFirst(s: string, f: string, rest: string)
    requires Plain(f)
    ensures Glob(s, Tokens(f + rest)) <==> f <= s && Glob(s[|f|..], Tokens(rest))
  {
    if f == "" {
      assert f + rest == rest;
    } else {
      assert f[0] in f;
      assert (f + rest)[0] == f[0] && (f + rest)[1..] == f[1..] + rest;
      assert Plain(f[1..]);
      assert Tokens(f + rest)[1..] == Tokens(f[1..] + rest);
      if s != "" {
        PlainTextFirst(s[1..], f[1..], rest);
        assert f <= s <==> f[0] == s[0] && f[1..] <= s[1..];
        if f <= s {
          assert s[1..][|f| - 1..] == s[|f|..];
        }
      }
    }
  }

  // ----- Normal paths and their directories ---------------------------------

  /** A normalised relative path. */
  predicate Normal(path: string) {
    '\\' !in path && forall i | 0 <= i < |Components(path)| :: Components(path)[i] != "" && Components(path)[i] != "."
  }

  predicate Below(directory: string, path: string) {
    directory + "/" <= path
  }

  lemma {:induction false} NormalIsSlashed(path: string)
    requires '\\' !in path
    ensures Slashed(path) == path
  {
    if path != "" {
      NormalIsSlashed(path[1..]);
      assert path == [path[0]] + path[1..];
    }
  }

  lemma {:induction false} KeptWhole(parts: seq<string>)
    requires forall i | 0 <= i < |parts| :: parts[i] != ""
    ensures NonEmpty(parts) == parts
  {
    if parts != [] {
      KeptWhole(parts[1..]);
      assert parts == [parts[0]] + parts[1..];
    }
  }

  lemma LeadingDot(path: string)
    requires "./" <= path
    ensures Components(path)[0] == "."
  {
    var rest := path[2..];
    assert path == "." + "/" + rest;
    ComponentsOfJoin(".", rest);
    ComponentsOfPlain(".");
  }

  lemma NoLeadingDot(path: string)
    requires Components(path)[0] != "."
    ensures WithoutDots(path) == path
  {
    if "./" <= path {
      LeadingDot(path);
    }
  }

  lemma NormalFacts(path: string)
    requires Normal(path)
    ensures Slashed(path) == path && FirstSegment(path) == Components(path)[0]
    ensures NonEmpty(Components(path)) == Components(path)
  {
    NormalIsSlashed(path);
    NoLeadingDot(path);
    KeptWhole(Components(path));
  }

  lemma BelowFacts(directory: string, path: string)
    requires Normal(path) && Below(directory, path)
    ensures Normal(directory) && Components(directory) <= Components(path)
  {
    var rest := path[|directory| + 1..];
    assert path == directory + "/" + rest;
    ComponentsOfJoin(directory, rest);
    assert forall i | 0 <= i < |Components(directory)| :: Components(directory)[i] == Components(path)[i];
    assert forall c | c in directory :: c in path;
  }

  lemma SharedExclusions(directory: string, path: string)
    requires Normal(path) && Below(directory, path)
    ensures IsHardExcluded(directory) <==> IsHardExcluded(path)
    ensures IsSoftExcluded(directory) ==> IsSoftExcluded(path)
  {
    BelowFacts(directory, path);
    NormalFacts(directory);
    NormalFacts(path);
    var ds, ps := Components(directory), Components(path);
    if chain :| chain in SOFT_CHAINS && HasChain(ds, chain) {
      var i: nat :| i <= |ds| && ChainAt(ds, chain, i);
      assert ds == ps[..|ds|];
      assert ps[i..i + |chain|] == ds[i..i + |chain|];
      assert ChainAt(ps, chain, i);
    }
  }

  predicate EndsInStar(pattern: string) {
    pattern != "" && pattern[|pattern| - 1] == '*'
  }

  lemma StarTokens(pattern: string)
    requires EndsInStar(pattern) && '[' !in pattern
    ensures Tokens(pattern) == Tokens(pattern[..|pattern| - 1]) + [AnyMany]
  {
    var init := pattern[..|pattern| - 1];
    assert pattern == init + "*";
    TokensConcat(init, "*");
    assert Tokens("*") == [AnyMany] + Tokens("");
  }

  lemma DirectoryPattern(directory: string, rest: string)
    requires '[' !in directory
    ensures Glob(directory + "/" + rest, Tokens(directory + "/**"))
  {
    MatchesItself(directory);
    TokensConcat(directory, "/**");
    var tail := Tokens("/**");
    assert "/**"[1..] == "**" && "**"[1..] == "*" && "*"[1..] == "";
    assert tail == [Literal('/'), AnyMany, AnyMany];
    StarMatchesAll(rest);
    assert tail[1..] == [AnyMany, AnyMany] && tail[1..][1..] == [AnyMany];
    assert Glob(rest, tail[1..]);
    assert ("/" + rest)[1..] == rest;
    GlobConcat(directory, "/" + rest, Tokens(directory), tail);
    assert directory + "/" + rest == directory + ("/" + rest);
  }

  /** An exclude pattern that ends in a star excludes everything below whatever
      it excludes. */
  lemma StarExcludesBelow(directory: string, path: string, pattern: string)
    requires Below(directory, path) && EndsInStar(pattern) && '[' !in pattern && Matches(directory, pattern)
    ensures Matches(path, pattern)
  {
    var more := path[|directory|..];
    assert path == directory + more;
    if directory == WithoutSuffix(pattern, "/**") && directory != pattern {
      var rest := path[|directory| + 1..];
      assert pattern == directory + "/**";
      DirectoryPattern(directory, rest);
      assert path == directory + "/" + rest;
    } else {
      if directory == pattern {
        MatchesItself(directory);
      }
      StarTokens(pattern);
      FinalStarExtends(directory, Tokens(pattern[..|pattern| - 1]), more);
    }
  }

  // ----- Include patterns and their fixed prefix ----------------------------

  lemma {:induction false} PlainJoined(parts: seq<string>)
    requires parts != [] && forall p | p in parts :: Plain(p)
    ensures Plain(Joined(parts))
  {
    if |parts| > 1 {
      PlainJoined(parts[1..]);
      var tail := Joined(parts[1..]);
      assert Plain(parts[0]) && Plain(tail);
      forall c | c in Joined(parts) ensures !IsSpecial(c) {
        assert c in parts[0] || c == '/' || c in tail;
      }
    }
  }

  /** The fixed prefix is plain, and ends the pattern or stops at a separator. */
  lemma FixedPrefixFacts(pattern: string)
    ensures var fixed := FixedPrefix(pattern);
      && Plain(fixed)
      && (fixed == "" || fixed == pattern || fixed + "/" <= pattern)
  {
    var parts := Components(pattern);
    var head := PlainHead(parts);
    JoinedComponents(pattern);
    if head != [] {
      PlainJoined(head);
      var rest := parts[|head|..];
      assert parts == head + rest;
      if rest == [] {
        assert head == parts;
      } else {
        JoinedOfConcat(head, rest);
        assert pattern == Joined(head) + "/" + Joined(rest);
      }
    }
  }

  /** A path that a pattern matches is the fixed prefix or lies below it. */
  lemma MatchedUnderPrefix(path: string, pattern: string)
    requires Matches(path, pattern) && FixedPrefix(pattern) != ""
    ensures var fixed := FixedPrefix(pattern);
      path == fixed || (fixed + "/" <= path && fixed != pattern)
  {
    var fixed := FixedPrefix(pattern);
    FixedPrefixFacts(pattern);
    if Glob(path, Tokens(pattern)) {
      if fixed == pattern {
        assert fixed + "" == pattern;
        PlainTextFirst(path, fixed, "");
      } else {
        var f, rest := fixed + "/", pattern[|fixed| + 1..];
        assert pattern == f + rest;
        assert Plain(f);
        PlainTextFirst(path, f, rest);
      }
    } else if path != pattern {
      SuffixedUnderPrefix(path, pattern);
    }
  }

  lemma SuffixedUnderPrefix(path: string, pattern: string)
    requires pattern == path + "/**" && FixedPrefix(pattern) != ""
    ensures var fixed := FixedPrefix(pattern);
      path == fixed || (fixed + "/" <= path && fixed != pattern)
  {
    var fixed := FixedPrefix(pattern);
    FixedPrefixFacts(pattern);
    assert pattern[|pattern| - 1] == '*' && pattern[|pattern| - 1] in pattern;
    assert fixed != pattern;
    assert pattern[|fixed|] == (fixed + "/")[|fixed|] == '/';
    assert forall i | |path| < i < |pattern| :: pattern[i] == '*';
    assert |fixed| <= |path|;
    assert path == pattern[..|path|] && fixed == pattern[..|fixed|];
    if |fixed| < |path| {
      assert fixed + "/" == pattern[..|fixed| + 1];
    }
  }

  /** An include pattern that matches a path can match below each of the path's
      directories. */
  lemma IncludedBelow(directory: string, path: string, pattern: string)
    requires Below(directory, path) && Matches(path, pattern)
    ensures CanMatchBelow(directory, pattern)
  {
    var fixed := FixedPrefix(pattern);
    if fixed != "" {
      MatchedUnderPrefix(path, pattern);
      assert fixed <= path && directory <= path;
      assert path[|directory|] == (directory + "/")[|directory|] == '/';
      if |directory| < |fixed| {
        assert fixed == path[..|fixed|];
        assert directory + "/" == path[..|directory| + 1];
        assert directory + "/" <= fixed;
      } else if |directory| == |fixed| {
        assert directory == fixed;
      } else {
        assert fixed + "/" == path[..|fixed| + 1];
        assert fixed + "/" <= directory;
      }
    }
  }

  lemma IncludedBelowAny(directory: string, path: string, patterns: seq<string>)
    requires Below(directory, path) && MatchesAny(path, patterns)
    ensures HasIncludedDescendant(directory, patterns)
  {
    var p :| p in patterns && Matches(path, p);
    IncludedBelow(directory, path, p);
  }

  // ----- Pruning ------------------------------------------------------------

  /** The configuration file lies in a directory of the root. */
  predicate ConfigInTopDirectory(c: Config) {
    |Components(c.config)| == 2
  }

  lemma ConfigHead(directory: string, c: Config)
    requires ConfigInTopDirectory(c) && Below(directory, c.config)
    ensures directory == Components(c.config)[0]
  {
    var rest := c.config[|directory| + 1..];
    assert c.config == directory + "/" + rest;
    ComponentsOfJoin(directory, rest);
    assert |Components(directory)| == 1;
    JoinedComponents(directory);
  }

  /** The scan skips a directory of an in-scope path exactly when the directory is
      excluded though the path is not, and no include pattern reaches below it. */
  lemma SkipsExactly(directory: string, path: string, c: Config)
    requires Normal(path) && Below(directory, path) && InScope(path, c) && ConfigInTopDirectory(c)
    ensures !ShouldDescend(directory, c) <==>
      && directory != Components(c.config)[0]
      && !MatchesAny(path, c.included) && !MatchesAny(directory, c.included)
      && MatchesAny(directory, c.excluded) && !MatchesAny(path, c.excluded)
      && !HasIncludedDescendant(directory, c.included)
  {
    SharedExclusions(directory, path);
    if path == c.config {
      ConfigHead(directory, c);
    } else if MatchesAny(path, c.included) {
      IncludedBelowAny(directory, path, c.included);
    }
  }

  /** With exclude patterns that end in a star and use no brackets, the scan
      reaches every in-scope path. */
  lemma PruningHidesNothing(directory: string, path: string, c: Config)
    requires Normal(path) && Below(directory, path) && InScope(path, c) && ConfigInTopDirectory(c)
    requires forall e | e in c.excluded :: EndsInStar(e) && '[' !in e
    ensures ShouldDescend(directory, c)
  {
    SkipsExactly(directory, path, c);
    if e :| e in c.excluded && Matches(directory, e) {
      StarExcludesBelow(directory, path, e);
    }
  }

  /** A bare name does not qualify: it excludes the directory but nothing in it, so
      whatever in it is not excluded otherwise is in scope and never visited. */
  lemma BareNameHidesContents(name: string, rest: string, config: string)
    requires Plain(name) && Normal(name + "/" + rest) && |Components(config)| == 2
    requires name != Components(config)[0] && name + "/" + rest != config
    requires !IsHardExcluded(name + "/" + rest) && !IsSoftExcluded(name + "/" + rest)
    ensures var c := Config([], [name], config);
      InScope(name + "/" + rest, c) && !ShouldDescend(name, c)
  {
    var c, path := Config([], [name], config), name + "/" + rest;
    assert name + "" == name;
    PlainTextFirst(name, name, "");
    PlainTextFirst(path, name, "");
    assert Matches(name, name);
    assert name in c.excluded;
    assert !Matches(path, name) by {
      assert path[|name|..] != "";
      assert |WithoutSuffix(name, "/**")| <= |name| < |path|;
    }
    SkipsExactly(name, path, c);
  }
}
