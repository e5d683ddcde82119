/** Loop shapes the extractor uses over and over, as functions: appending
    what each element of a selection contributes (goquery's `Each` with an
    `append` inside), and trying candidate selectors in order until one gives
    something. */
module Seqs {
  import opened Wrappers

  /** What `f` gives for each element of `xs`, concatenated in order. */
  function FlatMap<A, B>(xs: seq<A>, f: A -> seq<B>): seq<B> {
    if |xs| == 0 then [] else FlatMap(xs[..|xs| - 1], f) + f(xs[|xs| - 1])
  }

  lemma FlatMapSnoc<A, B>(xs: seq<A>, x: A, f: A -> seq<B>)
    ensures FlatMap(xs + [x], f) == FlatMap(xs, f) + f(x)
  {
    assert (xs + [x])[..|xs|] == xs;
  }

  /** The step a loop over `xs` takes: one more element appended. */
  lemma FlatMapPrefix<A, B>(xs: seq<A>, k: nat, f: A -> seq<B>)
    requires k < |xs|
    ensures FlatMap(xs[..k + 1], f) == FlatMap(xs[..k], f) + f(xs[k])
  {
    assert xs[..k + 1][..k] == xs[..k];
  }

  lemma FlatMapSingle<A, B>(x: A, f: A -> seq<B>)
    ensures FlatMap([x], f) == f(x)
  {
    assert [x][..0] == [];
  }

  /** FlatMap distributes over concatenation. */
  lemma {:induction false} FlatMapConcat<A, B>(xs: seq<A>, ys: seq<A>, f: A -> seq<B>)
    ensures FlatMap(xs + ys, f) == FlatMap(xs, f) + FlatMap(ys, f)
    decreases |ys|
  {
    if |ys| == 0 {
      assert xs + ys == xs;
    } else {
      var init := ys[..|ys| - 1];
      FlatMapConcat(xs, init, f);
      assert (xs + ys)[..|xs + ys| - 1] == xs + init;
    }
  }

  /** Like FlatMap, but `f` also receives the position of the element, the
      `i` of `Each(func(i int, ...))`. */
  function FlatMapIndexed<A, B>(xs: seq<A>, f: (nat, A) -> seq<B>): seq<B> {
    if |xs| == 0 then [] else FlatMapIndexed(xs[..|xs| - 1], f) + f(|xs| - 1, xs[|xs| - 1])
  }

  lemma FlatMapIndexedSnoc<A, B>(xs: seq<A>, x: A, f: (nat, A) -> seq<B>)
    ensures FlatMapIndexed(xs + [x], f) == FlatMapIndexed(xs, f) + f(|xs|, x)
  {
    assert (xs + [x])[..|xs|] == xs;
  }

  lemma FlatMapIndexedPrefix<A, B>(xs: seq<A>, k: nat, f: (nat, A) -> seq<B>)
    requires k < |xs|
    ensures FlatMapIndexed(xs[..k + 1], f) == FlatMapIndexed(xs[..k], f) + f(k, xs[k])
  {
    assert xs[..k + 1][..k] == xs[..k];
  }

  /** Every element of a FlatMapIndexed result comes from some position. */
  lemma {:induction false} FlatMapIndexedFrom<A, B>(xs: seq<A>, f: (nat, A) -> seq<B>, P: B -> bool)
    requires forall i :: 0 <= i < |xs| ==> forall y :: y in f(i, xs[i]) ==> P(y)
    ensures forall y :: y in FlatMapIndexed(xs, f) ==> P(y)
  {
    if |xs| > 0 {
      var init := xs[..|xs| - 1];
      assert forall i :: 0 <= i < |init| ==> init[i] == xs[i];
      FlatMapIndexedFrom(init, f, P);
    }
  }

  /** Every element of a FlatMap result comes from some element. */
  lemma {:induction false} FlatMapFrom<A, B>(xs: seq<A>, f: A -> seq<B>, P: B -> bool)
    requires forall i :: 0 <= i < |xs| ==> forall y :: y in f(xs[i]) ==> P(y)
    ensures forall y :: y in FlatMap(xs, f) ==> P(y)
  {
    if |xs| > 0 {
      var init := xs[..|xs| - 1];
      assert forall i :: 0 <= i < |init| ==> init[i] == xs[i];
      FlatMapFrom(init, f, P);
    }
  }

  /** FlatMap is empty exactly when every element contributes nothing. */
  lemma {:induction false} FlatMapEmpty<A, B>(xs: seq<A>, f: A -> seq<B>)
    ensures FlatMap(xs, f) == [] <==> forall i :: 0 <= i < |xs| ==> f(xs[i]) == []
  {
    if |xs| > 0 {
      var init := xs[..|xs| - 1];
      FlatMapEmpty(init, f);
      assert forall i :: 0 <= i < |init| ==> init[i] == xs[i];
    }
  }

  /** Element-wise image of a sequence. */
  function Map<A, B>(xs: seq<A>, f: A -> B): (ys: seq<B>)
    ensures |ys| == |xs|
    ensures forall i :: 0 <= i < |xs| ==> ys[i] == f(xs[i])
  {
    if |xs| == 0 then [] else Map(xs[..|xs| - 1], f) + [f(xs[|xs| - 1])]
  }

  /** Elements after a fixed head are the images, in order. */
  lemma HeadThenMap<A, B>(head: seq<B>, xs: seq<A>, f: A -> B)
    ensures |head + Map(xs, f)| == |head| + |xs|
    ensures forall k :: 0 <= k < |xs| ==> (head + Map(xs, f))[|head| + k] == f(xs[k])
  {
  }

  lemma MapPrefix<A, B>(xs: seq<A>, k: nat, f: A -> B)
    requires k < |xs|
    ensures Map(xs[..k + 1], f) == Map(xs[..k], f) + [f(xs[k])]
  {
    assert xs[..k + 1][..k] == xs[..k];
  }

  /** The result of the first candidate for which `f` gives something
      non-empty, tried in the order given; empty when no candidate does. */
  function FirstHit<T>(candidates: seq<string>, f: string -> seq<T>): seq<T>
    decreases |candidates|
  {
    if |candidates| == 0 then []
    else if f(candidates[0]) != [] then f(candidates[0])
    else FirstHit(candidates[1..], f)
  }

  /** A non-empty outcome is the result of some candidate all of whose
      predecessors give nothing; an empty one means every candidate gives
      nothing. */
  lemma {:induction false} FirstHitSpec<T>(candidates: seq<string>, f: string -> seq<T>)
    ensures var r := FirstHit(candidates, f);
      r != [] ==>
        (exists k :: 0 <= k < |candidates| && r == f(candidates[k])
                     && forall i :: 0 <= i < k ==> f(candidates[i]) == [])
    ensures FirstHit(candidates, f) == [] ==> forall i :: 0 <= i < |candidates| ==> f(candidates[i]) == []
    decreases |candidates|
  {
    if |candidates| > 0 && f(candidates[0]) == [] {
      var r := FirstHit(candidates[1..], f);
      FirstHitSpec(candidates[1..], f);
      assert forall i :: 1 <= i < |candidates| ==> candidates[1..][i - 1] == candidates[i];
      if r != [] {
        var k :| 0 <= k < |candidates| - 1 && r == f(candidates[1..][k])
                && forall i :: 0 <= i < k ==> f(candidates[1..][i]) == [];
        assert r == f(candidates[k + 1]);
      }
    }
  }

  /** Skipping a candidate that gives nothing does not change the outcome:
      the step a loop over candidates takes when a selector misses. */
  lemma FirstHitSkip<T>(candidates: seq<string>, k: nat, f: string -> seq<T>)
    requires k < |candidates| && f(candidates[k]) == []
    ensures FirstHit(candidates[k..], f) == FirstHit(candidates[k + 1..], f)
  {
    assert candidates[k..][1..] == candidates[k + 1..];
  }

  /** A candidate that gives something ends the search with its own result. */
  lemma FirstHitHere<T>(candidates: seq<string>, k: nat, f: string -> seq<T>)
    requires k < |candidates| && f(candidates[k]) != []
    ensures FirstHit(candidates[k..], f) == f(candidates[k])
  {
    assert candidates[k..][0] == candidates[k];
  }

  /** FlatMap for callbacks that may panic: the results in order, or the
      first panic. */
  function FlatMapOutcome<A, B>(xs: seq<A>, f: A -> Outcome<seq<B>>): Outcome<seq<B>> {
    if |xs| == 0 then Returned([])
    else match FlatMapOutcome(xs[..|xs| - 1], f)
      case Panicked(why) => Panicked(why)
      case Returned(acc) =>
        match f(xs[|xs| - 1])
          case Panicked(why) => Panicked(why)
          case Returned(more) => Returned(acc + more)
  }

  lemma FlatMapOutcomePrefix<A, B>(xs: seq<A>, k: nat, f: A -> Outcome<seq<B>>)
    requires k < |xs|
    ensures FlatMapOutcome(xs[..k + 1], f) ==
      match FlatMapOutcome(xs[..k], f)
        case Panicked(why) => Panicked(why)
        case Returned(acc) =>
          match f(xs[k])
            case Panicked(why) => Panicked(why)
            case Returned(more) => Returned(acc + more)
  {
    assert xs[..k + 1][..k] == xs[..k];
  }

  /** A panic in some prefix is the panic of the whole. */
  lemma {:induction false} FlatMapOutcomePanics<A, B>(xs: seq<A>, k: nat, f: A -> Outcome<seq<B>>)
    requires k <= |xs| && FlatMapOutcome(xs[..k], f).Panicked?
    ensures FlatMapOutcome(xs, f) == FlatMapOutcome(xs[..k], f)
    decreases |xs| - k
  {
    if k < |xs| {
      FlatMapOutcomePrefix(xs, k, f);
      FlatMapOutcomePanics(xs, k + 1, f);
    } else {
      assert xs[..k] == xs;
    }
  }

  /** Without a panic anywhere, FlatMapOutcome is FlatMap. */
  lemma {:induction false} FlatMapOutcomeReturns<A, B>(xs: seq<A>, f: A -> Outcome<seq<B>>, g: A -> seq<B>)
    requires forall i :: 0 <= i < |xs| ==> f(xs[i]) == Returned(g(xs[i]))
    ensures FlatMapOutcome(xs, f) == Returned(FlatMap(xs, g))
  {
    if |xs| > 0 {
      var init := xs[..|xs| - 1];
      assert forall i :: 0 <= i < |init| ==> init[i] == xs[i];
      FlatMapOutcomeReturns(init, f, g);
    }
  }

  /** FlatMapIndexed for callbacks that may panic. */
  function FlatMapIndexedOutcome<A, B>(xs: seq<A>, f: (nat, A) -> Outcome<seq<B>>): Outcome<seq<B>> {
    if |xs| == 0 then Returned([])
    else match FlatMapIndexedOutcome(xs[..|xs| - 1], f)
      case Panicked(why) => Panicked(why)
      case Returned(acc) =>
        match f(|xs| - 1, xs[|xs| - 1])
          case Panicked(why) => Panicked(why)
          case Returned(more) => Returned(acc + more)
  }

  lemma FlatMapIndexedOutcomePrefix<A, B>(xs: seq<A>, k: nat, f: (nat, A) -> Outcome<seq<B>>)
    requires k < |xs|
    ensures FlatMapIndexedOutcome(xs[..k + 1], f) ==
      match FlatMapIndexedOutcome(xs[..k], f)
        case Panicked(why) => Panicked(why)
        case Returned(acc) =>
          match f(k, xs[k])
            case Panicked(why) => Panicked(why)
            case Returned(more) => Returned(acc + more)
  {
    assert xs[..k + 1][..k] == xs[..k];
  }

  lemma {:induction false} FlatMapIndexedOutcomePanics<A, B>(xs: seq<A>, k: nat, f: (nat, A) -> Outcome<seq<B>>)
    requires k <= |xs| && FlatMapIndexedOutcome(xs[..k], f).Panicked?
    ensures FlatMapIndexedOutcome(xs, f) == FlatMapIndexedOutcome(xs[..k], f)
    decreases |xs| - k
  {
    if k < |xs| {
      FlatMapIndexedOutcomePrefix(xs, k, f);
      FlatMapIndexedOutcomePanics(xs, k + 1, f);
    } else {
      assert xs[..k] == xs;
    }
  }

  /** A property every returned contribution has, the returned whole has. */
  lemma {:induction false} FlatMapOutcomeFrom<A, B>(xs: seq<A>, f: A -> Outcome<seq<B>>, P: B -> bool)
    requires forall i :: 0 <= i < |xs| ==> f(xs[i]).Returned? ==> forall y :: y in f(xs[i]).value ==> P(y)
    ensures FlatMapOutcome(xs, f).Returned? ==> forall y :: y in FlatMapOutcome(xs, f).value ==> P(y)
  {
    if |xs| > 0 {
      var init := xs[..|xs| - 1];
      assert forall i :: 0 <= i < |init| ==> init[i] == xs[i];
      FlatMapOutcomeFrom(init, f, P);
    }
  }

  lemma {:induction false} FlatMapIndexedOutcomeFrom<A, B>(xs: seq<A>, f: (nat, A) -> Outcome<seq<B>>, P: B -> bool)
    requires forall i :: 0 <= i < |xs| ==> f(i, xs[i]).Returned? ==> forall y :: y in f(i, xs[i]).value ==> P(y)
    ensures FlatMapIndexedOutcome(xs, f).Returned? ==> forall y :: y in FlatMapIndexedOutcome(xs, f).value ==> P(y)
  {
    if |xs| > 0 {
      var init := xs[..|xs| - 1];
      assert forall i :: 0 <= i < |init| ==> init[i] == xs[i];
      FlatMapIndexedOutcomeFrom(init, f, P);
    }
  }
}
