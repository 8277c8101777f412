/**
 Registers fed one item at a time, over any state type. Nothing here knows about CRC-32.
 */
module Folds {
  function Fold<S, X>(f: (S, X) -> S, s: S, xs: seq<X>): S
    decreases |xs|
  {
    if xs == [] then s else Fold(f, f(s, xs[0]), xs[1..])
  }

  function Iterate<S>(f: S -> S, x: S, n: nat): S
    decreases n
  {
    if n == 0 then x else Iterate(f, f(x), n - 1)
  }

  function Flatten<X, Y>(parts: X -> seq<Y>, xs: seq<X>): seq<Y> {
    if xs == [] then [] else parts(xs[0]) + Flatten(parts, xs[1..])
  }

  // Feeding in pieces is feeding at once.
  lemma {:induction false} FoldAppend<S, X>(f: (S, X) -> S, s: S, a: seq<X>, b: seq<X>)
    ensures Fold(f, s, a + b) == Fold(f, Fold(f, s, a), b)
    decreases |a|
  {
    if a == [] {
      assert a + b == b;
    } else {
      assert (a + b)[0] == a[0] && (a + b)[1..] == a[1..] + b;
      FoldAppend(f, f(s, a[0]), a[1..], b);
    }
  }

  lemma FoldSnoc<S, X>(f: (S, X) -> S, s: S, xs: seq<X>, k: nat)
    requires k < |xs|
    ensures Fold(f, s, xs[..k + 1]) == f(Fold(f, s, xs[..k]), xs[k])
  {
    assert xs[..k + 1] == xs[..k] + [xs[k]];
    FoldAppend(f, s, xs[..k], [xs[k]]);
  }

  lemma {:induction false} FoldIsInjective<S(!new), X(!new)>(f: (S, X) -> S, s: S, t: S, xs: seq<X>)
    requires forall u, v, x :: f(u, x) == f(v, x) ==> u == v
    requires Fold(f, s, xs) == Fold(f, t, xs)
    ensures s == t
    decreases |xs|
  {
    if xs != [] {
      FoldIsInjective(f, f(s, xs[0]), f(t, xs[0]), xs[1..]);
    }
  }

  lemma {:induction false} IterateIsInjective<S(!new)>(f: S -> S, x: S, y: S, n: nat)
    requires forall u, v :: f(u) == f(v) ==> u == v
    requires Iterate(f, x, n) == Iterate(f, y, n)
    ensures x == y
    decreases n
  {
    if n > 0 {
      IterateIsInjective(f, f(x), f(y), n - 1);
    }
  }

  // If each item is itself a string of smaller items, feeding either way is the same.
  lemma {:induction false} FoldFlatten<S(!new), X(!new), Y>(f: (S, Y) -> S, g: (S, X) -> S, parts: X -> seq<Y>, s: S, xs: seq<X>)
    requires forall u, x :: g(u, x) == Fold(f, u, parts(x))
    ensures Fold(g, s, xs) == Fold(f, s, Flatten(parts, xs))
    decreases |xs|
  {
    if xs != [] {
      FoldAppend(f, s, parts(xs[0]), Flatten(parts, xs[1..]));
      FoldFlatten(f, g, parts, g(s, xs[0]), xs[1..]);
    }
  }

  // The low items of a word, lowest first.
  function Lows<W, Y>(low: W -> Y, down: W -> W, w: W, n: nat): seq<Y>
    decreases n
  {
    if n == 0 then [] else [low(w)] + Lows(low, down, down(w), n - 1)
  }

  // Combining a whole word and then stepping n times is feeding its n lowest items one by one,
  // with the rest of the word still on top.
  lemma {:induction false} IterateIsFold<S(!new), Y>(
    f: S -> S, g: (S, Y) -> S, add: (S, S) -> S, low: S -> Y, down: S -> S, s: S, w: S, n: nat)
    requires forall u, v :: f(add(u, v)) == add(g(u, low(v)), down(v))
    ensures Iterate(f, add(s, w), n) == add(Fold(g, s, Lows(low, down, w, n)), Iterate(down, w, n))
    decreases n
  {
    if n > 0 {
      assert f(add(s, w)) == add(g(s, low(w)), down(w));
      IterateIsFold(f, g, add, low, down, g(s, low(w)), down(w), n - 1);
      assert Lows(low, down, w, n) == [low(w)] + Lows(low, down, down(w), n - 1);
    }
  }

  lemma {:induction false} IterateAdds<S>(f: S -> S, x: S, m: nat, n: nat)
    ensures Iterate(f, x, m + n) == Iterate(f, Iterate(f, x, m), n)
    decreases m
  {
    if m > 0 {
      IterateAdds(f, f(x), m - 1, n);
    }
  }

  lemma LowsOfFour<W, Y>(low: W -> Y, down: W -> W, w0: W, n: nat)
    ensures var w1 := down(w0); var w2 := down(w1); var w3 := down(w2);
            Lows(low, down, w0, n + 4) == [low(w0), low(w1), low(w2), low(w3)] + Lows(low, down, down(w3), n)
  {
    var w1 := down(w0);
    var w2 := down(w1);
    var w3 := down(w2);
    var rest := Lows(low, down, down(w3), n);
    assert Lows(low, down, w3, n + 1) == [low(w3)] + rest;
    assert Lows(low, down, w2, n + 2) == [low(w2)] + Lows(low, down, w3, n + 1);
    assert Lows(low, down, w1, n + 3) == [low(w1)] + Lows(low, down, w2, n + 2);
    assert Lows(low, down, w0, n + 4) == [low(w0)] + Lows(low, down, w1, n + 3);
  }

  lemma FoldOfFour<S, X>(f: (S, X) -> S, s: S, x: seq<X>)
    requires |x| == 4
    ensures Fold(f, s, x) == f(f(f(f(s, x[0]), x[1]), x[2]), x[3])
  {
    assert x[1..][1..] == x[2..] && x[2..][1..] == x[3..] && x[3..][1..] == [];
    assert Fold(f, f(f(f(s, x[0]), x[1]), x[2]), x[3..]) == f(f(f(f(s, x[0]), x[1]), x[2]), x[3]);
    assert Fold(f, f(f(s, x[0]), x[1]), x[2..]) == Fold(f, f(f(f(s, x[0]), x[1]), x[2]), x[3..]);
    assert Fold(f, f(s, x[0]), x[1..]) == Fold(f, f(f(s, x[0]), x[1]), x[2..]);
  }

  lemma FlattenOfFour<X, Y>(parts: X -> seq<Y>, x0: X, x1: X, x2: X, x3: X)
    ensures Flatten(parts, [x0, x1, x2, x3]) == parts(x0) + (parts(x1) + (parts(x2) + parts(x3)))
  {
    assert [x0, x1, x2, x3][1..] == [x1, x2, x3] && [x1, x2, x3][1..] == [x2, x3] && [x2, x3][1..] == [x3] && [x3][1..] == [];
    assert Flatten(parts, [x3]) == parts(x3) + [] == parts(x3);
    assert Flatten(parts, [x2, x3]) == parts(x2) + parts(x3);
    assert Flatten(parts, [x1, x2, x3]) == parts(x1) + (parts(x2) + parts(x3));
  }

  lemma {:induction false} FlattenIsInjective<X(!new), Y>(parts: X -> seq<Y>, n: nat, a: seq<X>, b: seq<X>)
    requires forall o :: |parts(o)| == n
    requires forall o, p :: parts(o) == parts(p) ==> o == p
    requires |a| == |b| && Flatten(parts, a) == Flatten(parts, b)
    ensures a == b
  {
    if a != [] {
      var x, y := Flatten(parts, a), Flatten(parts, b);
      assert x[..n] == parts(a[0]) && x[n..] == Flatten(parts, a[1..]);
      assert y[..n] == parts(b[0]) && y[n..] == Flatten(parts, b[1..]);
      FlattenIsInjective(parts, n, a[1..], b[1..]);
      assert a == [a[0]] + a[1..] && b == [b[0]] + b[1..];
    }
  }

  lemma {:induction false} FlattenLength<X(!new), Y>(parts: X -> seq<Y>, n: nat, xs: seq<X>)
    requires forall o :: |parts(o)| == n
    ensures |Flatten(parts, xs)| == n * |xs|
  {
    if xs != [] {
      FlattenLength(parts, n, xs[1..]);
    }
  }

  lemma FoldNone<S, X>(f: (S, X) -> S, s: S)
    ensures Fold(f, s, []) == s
  {
  }

  lemma IterateNone<S>(f: S -> S, x: S)
    ensures Iterate(f, x, 0) == x
  {
  }

  lemma IterateOne<S>(f: S -> S, x: S)
    ensures Iterate(f, x, 1) == f(x)
  {
    assert Iterate(f, f(x), 0) == f(x);
  }
}
