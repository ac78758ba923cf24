/** Folding a sequence from the left, with and without output. */
module Folds {

  datatype Option<T> = None | Some(value: T)

  function Fold<S, X>(step: (S, X) -> S, s: S, xs: seq<X>): S {
    if xs == [] then s else step(Fold(step, s, xs[..|xs| - 1]), xs[|xs| - 1])
  }

  lemma {:induction false} FoldAppend<S, X>(step: (S, X) -> S, s: S, xs: seq<X>, ys: seq<X>)
    ensures Fold(step, s, xs + ys) == Fold(step, Fold(step, s, xs), ys)
  {
    if ys == [] {
      assert xs + ys == xs;
    } else {
      assert (xs + ys)[..|xs + ys| - 1] == xs + ys[..|ys| - 1];
      FoldAppend(step, s, xs, ys[..|ys| - 1]);
    }
  }

  lemma FoldOne<S, X>(step: (S, X) -> S, s: S, x: X)
    ensures Fold(step, s, [x]) == step(s, x)
  {
    assert [x][..0] == [];
  }

  lemma FoldAtMostOne<S, X>(step: (S, X) -> S, s: S, xs: seq<X>)
    requires |xs| <= 1
    ensures Fold(step, s, xs) == if xs == [] then s else step(s, xs[0])
  {
    if xs != [] {
      FoldOne(step, s, xs[0]);
      assert xs == [xs[0]];
    }
  }

  /** A machine that emits a sequence of outputs for every input. */
  function Run<S, X, E>(step: (S, X) -> (S, seq<E>), s: S, xs: seq<X>): (S, seq<E>) {
    if xs == [] then (s, []) else
    var (s1, e1) := Run(step, s, xs[..|xs| - 1]);
    var (s2, e2) := step(s1, xs[|xs| - 1]);
    (s2, e1 + e2)
  }

  /** A machine whose outputs are consumed as soon as they are emitted. */
  function Pipe<S, X, E, T>(step: (S, X) -> (S, seq<E>), feed: (T, E) -> T, j: (S, T), xs: seq<X>): (S, T) {
    if xs == [] then j else
    var j1 := Pipe(step, feed, j, xs[..|xs| - 1]);
    var (s, es) := step(j1.0, xs[|xs| - 1]);
    (s, Fold(feed, j1.1, es))
  }

  lemma {:induction false} PipeIsRunThenFold<S, X, E, T>(
    step: (S, X) -> (S, seq<E>), feed: (T, E) -> T, s: S, t: T, xs: seq<X>)
    ensures Pipe(step, feed, (s, t), xs) == (Run(step, s, xs).0, Fold(feed, t, Run(step, s, xs).1))
  {
    if xs != [] {
      var init := xs[..|xs| - 1];
      PipeIsRunThenFold(step, feed, s, t, init);
      var (s1, e1) := Run(step, s, init);
      FoldAppend(feed, t, e1, step(s1, xs[|xs| - 1]).1);
    }
  }

  lemma SplitLast<T>(a: seq<T>, b: seq<T>)
    requires b != []
    ensures a + b == (a + b[..|b| - 1]) + [b[|b| - 1]]
  {
  }

  lemma Member<T>(s: set<T>) returns (x: T)
    requires s != {}
    ensures x in s
  {
    x :| x in s;
  }

  lemma Snoc<T>(s: seq<T>)
    requires s != []
    ensures s == s[..|s| - 1] + [s[|s| - 1]]
  {
  }

  /** What every element contributes, one after another. */
  function Collect<A, B>(xs: seq<A>, f: A -> seq<B>): seq<B> {
    if xs == [] then [] else Collect(xs[..|xs| - 1], f) + f(xs[|xs| - 1])
  }

  lemma {:induction false} CollectAppend<A, B>(xs: seq<A>, ys: seq<A>, f: A -> seq<B>)
    ensures Collect(xs + ys, f) == Collect(xs, f) + Collect(ys, f)
  {
    if ys == [] {
      assert xs + ys == xs;
    } else {
      assert (xs + ys)[..|xs + ys| - 1] == xs + ys[..|ys| - 1];
      CollectAppend(xs, ys[..|ys| - 1], f);
    }
  }

  lemma CollectOne<A, B>(x: A, f: A -> seq<B>)
    ensures Collect([x], f) == f(x)
  {
    assert [x][..0] == [];
  }

  lemma {:induction false} CollectNone<A, B>(xs: seq<A>, f: A -> seq<B>)
    requires forall i :: 0 <= i < |xs| ==> f(xs[i]) == []
    ensures Collect(xs, f) == []
  {
    if xs != [] {
      CollectNone(xs[..|xs| - 1], f);
    }
  }

  ghost predicate Distinct<T>(s: seq<T>) {
    forall i, j :: 0 <= i < j < |s| ==> s[i] != s[j]
  }

  lemma {:induction false} SubsetSize<T>(a: set<T>, b: set<T>)
    requires a <= b
    ensures |a| <= |b|
  {
    if a != {} {
      var x := Member(a);
      SubsetSize(a - {x}, b - {x});
    }
  }
}
