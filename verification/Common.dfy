/** What every part of the model uses. */
module Common {

  datatype Option<+T> = None | Some(value: T)

  lemma SubsetSize<T>(a: set<T>, b: set<T>)
    requires a <= b
    ensures |a| <= |b|
    ensures |a| == |b| ==> a == b
  {
    assert |b - a| == |b| - |a|;
    assert b == a + (b - a);
  }

  /** No element twice. */
  ghost predicate Distinct<T>(s: seq<T>) {
    forall i, j | 0 <= i < j < |s| :: s[i] != s[j]
  }

  lemma DistinctAppended<T>(s: seq<T>, x: T)
    requires Distinct(s) && x !in s
    ensures Distinct(s + [x])
  {
  }

  lemma DistinctTail<T>(s: seq<T>)
    requires Distinct(s) && s != []
    ensures Distinct(s[1..])
    ensures forall x :: x in s[1..] <==> x in s && x != s[0]
  {
    assert s == [s[0]] + s[1..];
  }

  /** Without any occurrence of the key. */
  function Without(s: seq<string>, key: string): (r: seq<string>)
    ensures forall k :: k in r <==> k in s && k != key
    ensures |r| <= |s|
  {
    if s == [] then []
    else if s[0] == key then Without(s[1..], key)
    else [s[0]] + Without(s[1..], key)
  }

  lemma {:induction false} WithoutDistinct(s: seq<string>, key: string)
    requires Distinct(s)
    ensures Distinct(Without(s, key))
    ensures |Without(s, key)| == if key in s then |s| - 1 else |s|
  {
    if s != [] {
      assert Distinct(s[1..]);
      WithoutDistinct(s[1..], key);
      assert s[0] !in s[1..];
    }
  }

  /** What `str.isspace` and `str.strip` take for white space. */
  predicate IsSpace(c: char) {
    || c in {' ', '\t', '\n', '\r', '\U{b}', '\U{c}', '\U{1c}', '\U{1d}', '\U{1e}', '\U{1f}', '\U{85}', '\U{a0}'}
    || c in {'\U{1680}', '\U{2028}', '\U{2029}', '\U{202f}', '\U{205f}', '\U{3000}'}
    || '\U{2000}' <= c <= '\U{200a}'
  }
}
