/** Maps and left folds over sequences. */
module Folding {
  function Fold<S, A>(step: (S, A) -> S, s: S, xs: seq<A>): S
    decreases xs
  {
    if xs == [] then s else Fold(step, step(s, xs[0]), xs[1..])
  }

  lemma {:induction false} FoldConcat<S, A>(step: (S, A) -> S, s: S, xs: seq<A>, ys: seq<A>)
    ensures Fold(step, s, xs + ys) == Fold(step, Fold(step, s, xs), ys)
    decreases xs
  {
    if xs == [] {
      assert xs + ys == ys;
    } else {
      assert (xs + ys)[1..] == xs[1..] + ys;
      FoldConcat(step, step(s, xs[0]), xs[1..], ys);
    }
  }

  function Map<A, B>(f: A -> B, xs: seq<A>): (ys: seq<B>)
    ensures |ys| == |xs|
    ensures forall i | 0 <= i < |xs| :: ys[i] == f(xs[i])
  {
    if xs == [] then [] else [f(xs[0])] + Map(f, xs[1..])
  }

  /** A draft under construction and the complaints collected on the way. */
  datatype Progress<D> = Progress(draft: D, errors: seq<string>)

  /** The progress after a section: everything added, or at least one complaint more. */
  ghost predicate SectionResult<D>(p: Progress<D>, q: Progress<D>, clean: bool, added: D) {
    |q.errors| >= |p.errors| && if clean then q == Progress(added, p.errors) else |q.errors| > |p.errors|
  }

  /** If each item is either added or complained about, a whole section behaves that way too. */
  lemma {:induction false} Section<A(!new), F, D(!new)>(
      step: (Progress<D>, F) -> Progress<D>, pathOf: F -> string, write: A -> F,
      p: Progress<D>, xs: seq<A>, good: A -> bool, add: (D, A) -> D)
    requires forall x, d, e | x in xs ::
      step(Progress(d, e), write(x))
      == (if good(x) then Progress(add(d, x), e) else Progress(d, e + [pathOf(write(x))]))
    ensures SectionResult(p, Fold(step, p, Map(write, xs)), forall x | x in xs :: good(x), Fold(add, p.draft, xs))
    decreases xs
  {
    if xs != [] {
      assert xs[0] in xs && p == Progress(p.draft, p.errors);
      Section(step, pathOf, write, step(p, write(xs[0])), xs[1..], good, add);
      assert (forall x | x in xs :: good(x)) <==> good(xs[0]) && forall x | x in xs[1..] :: good(x);
    }
  }

  /** Two sections in a row: clean when both are, and then both additions are in. */
  lemma {:induction false} SectionThen<D>(p: Progress<D>, q: Progress<D>, r: Progress<D>, clean1: bool,
          clean2: bool, d1: D, d2: D)
    requires SectionResult(p, q, clean1, d1)
    requires SectionResult(q, r, clean2, d2)
    ensures SectionResult(p, r, clean1 && clean2, d2)
  {
  }

  lemma {:induction false} ConcatAssociates<A>(w: seq<A>, x: seq<A>, y: seq<A>, z: seq<A>)
    ensures w + x + y + z == w + (x + y + z)
  {
  }

  function FlatMap<A, B>(f: A -> seq<B>, xs: seq<A>): seq<B> {
    if xs == [] then [] else f(xs[0]) + FlatMap(f, xs[1..])
  }

  lemma {:induction false} FlatMapConcat<A, B>(f: A -> seq<B>, xs: seq<A>, ys: seq<A>)
    ensures FlatMap(f, xs + ys) == FlatMap(f, xs) + FlatMap(f, ys)
  {
    if xs == [] {
      assert xs + ys == ys;
    } else {
      assert (xs + ys)[1..] == xs[1..] + ys;
      FlatMapConcat(f, xs[1..], ys);
    }
  }

  lemma {:induction false} FlatMapOne<A, B>(f: A -> seq<B>, x: A)
    ensures FlatMap(f, [x]) == f(x)
  {
  }

  function Without<A>(xs: seq<A>, i: nat): (r: seq<A>)
    requires i < |xs|
    ensures |r| == |xs| - 1
  {
    xs[..i] + xs[i + 1..]
  }

  lemma {:induction false} OneOut<A, B>(f: A -> seq<B>, xs: seq<A>, i: nat)
    requires i < |xs|
    ensures multiset(Without(xs, i)) == multiset(xs) - multiset{xs[i]}
    ensures multiset(FlatMap(f, xs)) == multiset(f(xs[i])) + multiset(FlatMap(f, Without(xs, i)))
  {
    var before, after := xs[..i], xs[i + 1..];
    assert xs == before + ([xs[i]] + after) && ([xs[i]] + after)[1..] == after;
    FlatMapConcat(f, before, [xs[i]] + after);
    FlatMapConcat(f, before, after);
  }

  lemma {:induction false} FlatMapPermuted<A, B>(f: A -> seq<B>, xs: seq<A>, ys: seq<A>)
    requires multiset(xs) == multiset(ys)
    ensures multiset(FlatMap(f, xs)) == multiset(FlatMap(f, ys))
    decreases |xs|
  {
    assert |multiset(xs)| == |xs| && |multiset(ys)| == |ys|;
    if xs != [] {
      assert xs[0] in multiset(ys);
      var i :| 0 <= i < |ys| && ys[i] == xs[0];
      OneOut(f, xs, 0);
      OneOut(f, ys, i);
      FlatMapPermuted(f, Without(xs, 0), Without(ys, i));
    }
  }

  lemma {:induction false} FlatMapEmpty<A, B>(f: A -> seq<B>, xs: seq<A>)
    ensures FlatMap(f, xs) == [] <==> forall x | x in xs :: f(x) == []
  {
    if xs != [] {
      FlatMapEmpty(f, xs[1..]);
      assert xs == [xs[0]] + xs[1..];
    }
  }

  /** f(0) + f(1) + ... + f(n - 1). */
  function Collect<B>(f: nat -> seq<B>, n: nat): seq<B> {
    if n == 0 then [] else Collect(f, n - 1) + f(n - 1)
  }

  lemma {:induction false} CollectEmpty<B>(f: nat -> seq<B>, n: nat)
    ensures Collect(f, n) == [] <==> forall i: nat | i < n :: f(i) == []
  {
    if n > 0 {
      CollectEmpty(f, n - 1);
    }
  }
}
