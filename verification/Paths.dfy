/** Slash-separated paths and the names the state directory reserves. */
module Paths {

  /** The slash-separated components of a path. */
  function Components(s: string): (r: seq<string>)
    ensures r != []
  {
    if s == "" then [""]
    else if s[0] == '/' then [""] + Components(s[1..])
    else var r := Components(s[1..]); [[s[0]] + r[0]] + r[1..]
  }

  function Joined(parts: seq<string>): string
    requires parts != []
  {
    if |parts| == 1 then parts[0] else parts[0] + "/" + Joined(parts[1..])
  }

  lemma JoinedAfter(c: char, parts: seq<string>)
    requires parts != []
    ensures Joined([[c] + parts[0]] + parts[1..]) == [c] + Joined(parts)
  {
    assert ([[c] + parts[0]] + parts[1..])[1..] == parts[1..];
  }

  lemma JoinedAfterSlash(parts: seq<string>)
    requires parts != []
    ensures Joined([""] + parts) == ['/'] + Joined(parts)
  {
    assert ([""] + parts)[1..] == parts;
  }

  lemma {:induction false} JoinedComponents(s: string)
    ensures Joined(Components(s)) == s
  {
    if s != "" {
      var rest := s[1..];
      JoinedComponents(rest);
      JoinedAfterSlash(Components(rest));
      JoinedAfter(s[0], Components(rest));
      assert s == [s[0]] + rest;
    }
  }

  lemma {:induction false} ComponentsOfJoin(a: string, b: string)
    ensures Components(a + "/" + b) == Components(a) + Components(b)
  {
    var s := a + "/" + b;
    if a == "" {
      assert s[1..] == b;
    } else {
      assert s[0] == a[0] && s[1..] == a[1..] + "/" + b;
      ComponentsOfJoin(a[1..], b);
    }
  }

  lemma {:induction false} JoinedOfConcat(a: seq<string>, b: seq<string>)
    requires a != [] && b != []
    ensures Joined(a + b) == Joined(a) + "/" + Joined(b)
  {
    if |a| == 1 {
      assert (a + b)[1..] == b;
    } else {
      assert (a + b)[1..] == a[1..] + b;
      JoinedOfConcat(a[1..], b);
    }
  }

  /** `is_protected_state_name` of core/state_layout.py on a POSIX system. */
  predicate IsProtectedName(name: string) {
    || name in {".smtw", ".fable-lite", ".smtw-migration.lock", ".smtw-migration-receipt.json"}
    || ".smtw.migrating-" <= name
    || ".smtw-migration-receipt.json.tmp-" <= name
  }

  lemma {:induction false} ComponentsOfJoined(parts: seq<string>)
    requires parts != [] && forall p | p in parts :: '/' !in p
    ensures Components(Joined(parts)) == parts
  {
    if |parts| == 1 {
      ComponentsOfPlain(parts[0]);
    } else {
      ComponentsOfJoined(parts[1..]);
      ComponentsOfJoin(parts[0], Joined(parts[1..]));
      ComponentsOfPlain(parts[0]);
    }
  }

  lemma {:induction false} ComponentsOfPlain(s: string)
    requires '/' !in s
    ensures Components(s) == [s]
  {
    if s != "" {
      ComponentsOfPlain(s[1..]);
      assert s == [s[0]] + s[1..];
    }
  }

  lemma {:induction false} ComponentsHaveNoSlash(s: string)
    ensures forall p | p in Components(s) :: '/' !in p
  {
    if s != "" {
      ComponentsHaveNoSlash(s[1..]);
    }
  }

  /** A path is another or lies below it exactly if its components begin with the
      other's. */
  lemma BelowIsComponentPrefix(path: string, above: string)
    ensures path == above || above + "/" <= path <==> Components(above) <= Components(path)
  {
    var cs, ps := Components(above), Components(path);
    if above + "/" <= path {
      var rest := path[|above| + 1..];
      assert path == above + "/" + rest;
      ComponentsOfJoin(above, rest);
    }
    if cs <= ps {
      JoinedComponents(above);
      JoinedComponents(path);
      var rest := ps[|cs|..];
      assert ps == cs + rest;
      if rest == [] {
        assert ps == cs;
      } else {
        JoinedOfConcat(cs, rest);
        assert path == above + "/" + Joined(rest);
      }
    }
  }
}
