/** Cutting a stream of points into batches. */
module Batches {
  function Concat<T>(batches: seq<seq<T>>): seq<T> {
    if batches == [] then [] else batches[0] + Concat(batches[1..])
  }

  /** As many batches of exactly `size` as the stream holds. */
  function Full<T>(xs: seq<T>, size: nat): (batches: seq<seq<T>>)
    requires size > 0
    ensures forall i :: 0 <= i < |batches| ==> |batches[i]| == size
    decreases |xs|
  {
    if |xs| < size then [] else [xs[..size]] + Full(xs[size..], size)
  }

  /** What the full batches leave over. */
  function Rest<T>(xs: seq<T>, size: nat): (rest: seq<T>)
    requires size > 0
    ensures |rest| < size
    decreases |xs|
  {
    if |xs| < size then xs else Rest(xs[size..], size)
  }

  /** All of the stream: full batches and, last, a shorter one if something is left. */
  function All<T>(xs: seq<T>, size: nat): (batches: seq<seq<T>>)
    requires size > 0
    ensures forall i :: 0 <= i < |batches| ==> 1 <= |batches[i]| <= size
    decreases |xs|
  {
    if xs == [] then []
    else if |xs| <= size then [xs]
    else [xs[..size]] + All(xs[size..], size)
  }

  lemma {:induction false} ConcatAppend<T>(a: seq<seq<T>>, b: seq<seq<T>>)
    ensures Concat(a + b) == Concat(a) + Concat(b)
  {
    if a == [] {
      assert a + b == b;
    } else {
      assert (a + b)[1..] == a[1..] + b;
      ConcatAppend(a[1..], b);
    }
  }

  /** Batching loses, repeats and reorders nothing. */
  lemma {:induction false} FullConserves<T>(xs: seq<T>, size: nat)
    requires size > 0
    ensures Concat(Full(xs, size)) + Rest(xs, size) == xs
    decreases |xs|
  {
    if |xs| >= size {
      FullConserves(xs[size..], size);
      assert Full(xs, size)[1..] == Full(xs[size..], size);
      assert xs == xs[..size] + xs[size..];
    }
  }

  lemma {:induction false} AllConserves<T>(xs: seq<T>, size: nat)
    requires size > 0
    ensures Concat(All(xs, size)) == xs
    decreases |xs|
  {
    if |xs| > size {
      AllConserves(xs[size..], size);
      assert All(xs, size)[1..] == All(xs[size..], size);
      assert xs == xs[..size] + xs[size..];
    } else if xs != [] {
      assert [xs][1..] == [];
      assert xs + [] == xs;
    }
  }

  /** Handing over a stream in two parts gives the batches of handing it over at once. */
  lemma {:induction false} FullSplit<T>(a: seq<T>, b: seq<T>, size: nat)
    requires size > 0
    ensures Full(a + b, size) == Full(a, size) + Full(Rest(a, size) + b, size)
    ensures Rest(a + b, size) == Rest(Rest(a, size) + b, size)
    decreases |a|
  {
    if |a| >= size {
      FullSplit(a[size..], b, size);
      assert (a + b)[..size] == a[..size] && (a + b)[size..] == a[size..] + b;
    }
  }

  /** A prefix of the batches gives a prefix of the stream. */
  lemma ConcatPrefix<T>(batches: seq<seq<T>>, k: nat)
    requires k <= |batches|
    ensures Concat(batches[..k]) <= Concat(batches)
  {
    ConcatAppend(batches[..k], batches[k..]);
    assert batches[..k] + batches[k..] == batches;
  }

  /** There is one way to cut a stream into batches of exactly `size` and a rest shorter than that. */
  lemma {:induction false} FullIs<T>(xs: seq<T>, batches: seq<seq<T>>, rest: seq<T>, size: nat)
    requires size > 0 && Concat(batches) + rest == xs
    requires (forall i :: 0 <= i < |batches| ==> |batches[i]| == size) && |rest| < size
    ensures Full(xs, size) == batches && Rest(xs, size) == rest
    decreases |batches|
  {
    if batches == [] {
      assert Concat(batches) + rest == rest;
    } else {
      var first, more := batches[0], batches[1..];
      assert xs == first + (Concat(more) + rest);
      assert xs[..size] == first && xs[size..] == Concat(more) + rest;
      FullIs(xs[size..], more, rest, size);
    }
  }

  /** And one way to cut it into batches of exactly `size`, of which only the last may be shorter, and none is empty. */
  lemma {:induction false} AllIs<T>(xs: seq<T>, batches: seq<seq<T>>, size: nat)
    requires size > 0 && Concat(batches) == xs
    requires forall i :: 0 <= i < |batches| ==> 1 <= |batches[i]| <= size && (i < |batches| - 1 ==> |batches[i]| == size)
    ensures All(xs, size) == batches
    decreases |batches|
  {
    if batches != [] {
      var first, more := batches[0], batches[1..];
      assert xs == first + Concat(more);
      if more == [] {
        assert xs == first;
        assert batches == [first];
      } else {
        assert Concat(more) == more[0] + Concat(more[1..]);
        assert xs[..size] == first && xs[size..] == Concat(more);
        AllIs(xs[size..], more, size);
      }
    }
  }

  /** Only the last batch is short. */
  lemma {:induction false} AllShort<T>(xs: seq<T>, size: nat)
    requires size > 0
    ensures forall i :: 0 <= i < |All(xs, size)| - 1 ==> |All(xs, size)[i]| == size
    decreases |xs|
  {
    if |xs| > size {
      AllShort(xs[size..], size);
      assert All(xs, size)[1..] == All(xs[size..], size);
    }
  }
}
