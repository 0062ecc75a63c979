/** Induction over runs and over repeated calls, stated once for any system. */
module Runs {

  /** An invariant of every step holds from any point of a run on. */
  lemma {:induction false} Invariance<W(!new), S(!new)>(
      ws: seq<W>, steps: seq<S>, follows: (W, S, W) -> bool, allowed: S -> bool, inv: W -> bool, m: nat, n: nat)
    requires |ws| == |steps| + 1 && m <= n <= |steps|
    requires forall i | 0 <= i < |steps| :: follows(ws[i], steps[i], ws[i + 1])
    requires forall s | s in steps :: allowed(s)
    requires forall w, s, v | inv(w) && allowed(s) && follows(w, s, v) :: inv(v)
    requires inv(ws[m])
    ensures inv(ws[n])
    decreases n
  {
    if m < n {
      Invariance(ws, steps, follows, allowed, inv, m, n - 1);
      assert follows(ws[n - 1], steps[n - 1], ws[n - 1 + 1]);
      assert steps[n - 1] in steps;
    }
  }

  function Iterate<T>(f: T -> T, x: T, n: nat): T
    decreases n
  {
    if n == 0 then x else Iterate(f, f(x), n - 1)
  }

  lemma {:induction false} IterateCompose<T>(f: T -> T, x: T, a: nat, b: nat)
    ensures Iterate(f, x, a + b) == Iterate(f, Iterate(f, x, a), b)
    decreases a
  {
    if a > 0 {
      IterateCompose(f, f(x), a - 1, b);
    }
  }

  /** A preorder that every call respects relates the start to every later value. */
  lemma {:induction false} IterateKeeps<T(!new)>(f: T -> T, x: T, n: nat, inv: T -> bool, rel: (T, T) -> bool)
    requires inv(x)
    requires forall y {:trigger f(y)} | inv(y) :: inv(f(y)) && rel(y, f(y)) && rel(y, y)
    requires forall a, b, c {:trigger rel(a, b), rel(b, c)} | rel(a, b) && rel(b, c) :: rel(a, c)
    ensures inv(Iterate(f, x, n)) && rel(x, Iterate(f, x, n))
    decreases n
  {
    assert rel(x, f(x));
    if n > 0 {
      IterateKeeps(f, f(x), n - 1, inv, rel);
    }
  }

  ghost predicate NeverGrows<T(!new)>(f: T -> T, inv: T -> bool, size: T -> nat) {
    forall y {:trigger f(y)} | inv(y) :: inv(f(y)) && size(f(y)) <= size(y)
  }

  ghost predicate Shortens<T(!new), K>(
      f: T -> T, inv: T -> bool, waiting: (T, K, nat) -> bool, key: K, size: T -> nat, stride: nat) {
    forall y, a: nat {:trigger waiting(y, key, a), f(y)} | inv(y) && waiting(y, key, a) && size(f(y)) == size(y) ::
      stride <= a && waiting(f(y), key, a - stride)
  }

  /** A wait that every call shortens by a stride, unless the size drops, ends. */
  lemma {:induction false} IterateReaches<T(!new), K>(
      f: T -> T, x: T, n: nat, inv: T -> bool, waiting: (T, K, nat) -> bool, key: K, size: T -> nat, stride: nat, away: nat)
    requires inv(x) && waiting(x, key, away) && away < stride * n
    requires NeverGrows(f, inv, size) && Shortens(f, inv, waiting, key, size, stride)
    ensures size(Iterate(f, x, n)) < size(x)
    decreases n
  {
    if n == 0 {
      assert false;
    }
    if size(f(x)) < size(x) {
      IterateShrinks(f, f(x), n - 1, inv, size);
    } else {
      assert stride * n == stride * (n - 1) + stride;
      IterateReaches(f, f(x), n - 1, inv, waiting, key, size, stride, away - stride);
    }
  }

  lemma {:induction false} IterateShrinks<T(!new)>(f: T -> T, x: T, n: nat, inv: T -> bool, size: T -> nat)
    requires inv(x) && NeverGrows(f, inv, size)
    ensures inv(Iterate(f, x, n)) && size(Iterate(f, x, n)) <= size(x)
    decreases n
  {
    if n > 0 {
      IterateShrinks(f, f(x), n - 1, inv, size);
    }
  }

  /** The sum of `rounds` over the sizes up to n. */
  function Total(rounds: nat -> nat, n: nat): nat {
    if n == 0 then 0 else rounds(n) + Total(rounds, n - 1)
  }

  lemma {:induction false} TotalGrows(rounds: nat -> nat, a: nat, b: nat)
    requires a <= b
    ensures Total(rounds, a) <= Total(rounds, b)
  {
    if a < b {
      TotalGrows(rounds, a, b - 1);
    }
  }

  /** If the size drops within `rounds` calls until nothing is left to do, the
      calls come to an end, within the sum of the rounds. */
  lemma {:induction false} IterateEnds<T(!new)>(
      f: T -> T, x: T, inv: T -> bool, settled: T -> bool, size: T -> nat, rounds: nat -> nat) returns (n: nat)
    requires inv(x) && NeverGrows(f, inv, size)
    requires forall y {:trigger settled(y)} | inv(y) && !settled(y) :: size(Iterate(f, y, rounds(size(y)))) < size(y)
    ensures settled(Iterate(f, x, n)) && n <= Total(rounds, size(x))
    decreases size(x)
  {
    if settled(x) {
      return 0;
    }
    var k := rounds(size(x));
    var r := Iterate(f, x, k);
    IterateShrinks(f, x, k, inv, size);
    var m := IterateEnds(f, r, inv, settled, size, rounds);
    IterateCompose(f, x, k, m);
    TotalGrows(rounds, size(r), size(x) - 1);
    return k + m;
  }
}
