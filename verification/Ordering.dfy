/** Lexicographic order on strings and the sorted listing of a finite set of keys.

    Python compares strings code point by code point, and `sorted` on a set of
    distinct keys has exactly one answer. `Ascending` characterises that answer
    and `Sorted` is it.
  */
module Ordering {
  import opened Common

  predicate Le(a: string, b: string) {
    a == [] || (b != [] && (a[0] < b[0] || (a[0] == b[0] && Le(a[1..], b[1..]))))
  }

  predicate Lt(a: string, b: string) {
    Le(a, b) && a != b
  }

  lemma LeReflexive(a: string)
    ensures Le(a, a)
  {
  }

  lemma LeTotal(a: string, b: string)
    ensures Le(a, b) || Le(b, a)
  {
  }

  lemma {:induction false} LeAntisymmetric(a: string, b: string)
    requires Le(a, b) && Le(b, a)
    ensures a == b
  {
    if a != [] && b != [] {
      LeAntisymmetric(a[1..], b[1..]);
      assert a == [a[0]] + a[1..] && b == [b[0]] + b[1..];
    }
  }

  lemma {:induction false} LeTransitive(a: string, b: string, c: string)
    requires Le(a, b) && Le(b, c)
    ensures Le(a, c)
  {
    if a != [] && b != [] && c != [] && a[0] == b[0] == c[0] {
      LeTransitive(a[1..], b[1..], c[1..]);
    }
  }

  /** Strictly increasing, hence free of duplicates. */
  ghost predicate Ascending(s: seq<string>) {
    forall i, j | 0 <= i < j < |s| :: Lt(s[i], s[j])
  }

  ghost function Elements<T>(s: seq<T>): set<T> {
    set x | x in s
  }

  lemma EmptyElements<T>(s: seq<T>)
    ensures s == [] <==> Elements(s) == {}
  {
    if s != [] {
      assert s[0] in Elements(s);
    }
  }

  lemma ElementsOfConcat<T>(a: seq<T>, b: seq<T>)
    ensures Elements(a + b) == Elements(a) + Elements(b)
  {
  }

  predicate IsLeast(m: string, s: set<string>) {
    m in s && forall x | x in s :: Le(m, x)
  }

  lemma LeastExists(s: set<string>)
    requires s != {}
    ensures exists m :: IsLeast(m, s)
    decreases s
  {
    var x :| x in s;
    var rest := s - {x};
    LeReflexive(x);
    if rest == {} {
      assert s == {x};
      assert IsLeast(x, s);
    } else {
      LeastExists(rest);
      var m :| IsLeast(m, rest);
      LeTotal(m, x);
      if Le(m, x) {
        assert IsLeast(m, s);
      } else {
        forall y | y in rest ensures Le(x, y) {
          LeTransitive(x, m, y);
        }
        assert IsLeast(x, s);
      }
    }
  }

  lemma LeastUnique(s: set<string>)
    ensures forall m, n | IsLeast(m, s) && IsLeast(n, s) :: m == n
  {
    forall m, n | IsLeast(m, s) && IsLeast(n, s) ensures m == n {
      LeAntisymmetric(m, n);
    }
  }

  function Least(s: set<string>): (least: string)
    requires s != {}
    ensures IsLeast(least, s)
  {
    LeastExists(s);
    LeastUnique(s);
    var m :| IsLeast(m, s);
    m
  }

  /** The sorted listing of a set. */
  function Sorted(s: set<string>): (r: seq<string>)
    ensures Elements(r) == s
    ensures Ascending(r)
    decreases s
  {
    if s == {} then [] else
      var m := Least(s);
      var rest := Sorted(s - {m});
      assert Elements([m] + rest) == {m} + Elements(rest) by { ElementsOfConcat([m], rest); }
      [m] + rest
  }

  /** A sorted listing is unique, so any correct sort returns `Sorted`. */
  lemma {:induction false} SortedUnique(a: seq<string>, b: seq<string>)
    requires Ascending(a) && Ascending(b)
    requires Elements(a) == Elements(b)
    ensures a == b
  {
    EmptyElements(a);
    EmptyElements(b);
    if a == [] {
      return;
    }
    assert a[0] in Elements(b) && b[0] in Elements(a);
    LeReflexive(a[0]);
    LeReflexive(b[0]);
    assert Le(a[0], b[0]) && Le(b[0], a[0]);
    LeAntisymmetric(a[0], b[0]);
    TailElements(a);
    TailElements(b);
    SortedUnique(a[1..], b[1..]);
    assert a == [a[0]] + a[1..] && b == [b[0]] + b[1..];
  }

  lemma TailElements(a: seq<string>)
    requires Ascending(a) && a != []
    ensures Ascending(a[1..])
    ensures Elements(a[1..]) == Elements(a) - {a[0]}
  {
    forall x | x in Elements(a) - {a[0]} ensures x in a[1..] {
      var i :| 0 <= i < |a| && a[i] == x;
      assert a[1..][i - 1] == x;
    }
    forall x | x in a[1..] ensures x in Elements(a) && x != a[0] {
      var i :| 0 <= i < |a| - 1 && a[1..][i] == x;
      assert a[i + 1] == x;
      assert Lt(a[0], a[i + 1]);
    }
  }

  lemma {:induction false} AscendingSize(keys: seq<string>)
    requires Ascending(keys)
    ensures |Elements(keys)| == |keys|
  {
    if keys == [] {
      EmptyElements(keys);
    } else {
      TailElements(keys);
      AscendingSize(keys[1..]);
      assert Elements(keys) == Elements(keys[1..]) + {keys[0]};
    }
  }

  lemma AscendingDistinct(keys: seq<string>)
    requires Ascending(keys)
    ensures Distinct(keys)
  {
    forall i, j | 0 <= i < j < |keys| ensures keys[i] != keys[j] {
      assert Lt(keys[i], keys[j]);
    }
  }
}
