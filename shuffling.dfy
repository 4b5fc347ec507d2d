/**
 * Shuffling the training data in lock-step (`shuffle` of the network
 * utilities): one random permutation, applied to the inputs and to the
 * targets alike. The random numbers the permutation is drawn from are a
 * parameter.
 */
module Shuffling {
  import opened Wrappers

  /** One sample: its features, flattened. */
  type Row = seq<real>

  /** A NumPy array of samples: `shape == (|rows|,) + featureShape`. */
  datatype Dataset = Dataset(featureShape: seq<nat>, rows: seq<Row>)

  datatype ShuffleError = RowCountMismatch

  function Remove<T>(s: seq<T>, k: nat): (r: seq<T>)
    requires k < |s|
    ensures |r| == |s| - 1
    ensures multiset(r) + multiset{s[k]} == multiset(s)
  {
    assert s == s[..k] + [s[k]] + s[k + 1..];
    s[..k] + s[k + 1..]
  }

  function Zip<T, U>(xs: seq<T>, ys: seq<U>): (r: seq<(T, U)>)
    requires |xs| == |ys|
    ensures |r| == |xs|
    ensures forall k :: 0 <= k < |r| ==> r[k] == (xs[k], ys[k])
  {
    seq(|xs|, k requires 0 <= k < |xs| => (xs[k], ys[k]))
  }

  lemma ZipRemove<T, U>(xs: seq<T>, ys: seq<U>, k: nat)
    requires |xs| == |ys| && k < |xs|
    ensures Zip(Remove(xs, k), Remove(ys, k)) == Remove(Zip(xs, ys), k)
  {
  }

  /** The index picked from `n` remaining items by the next random number. */
  function Pick(draws: seq<nat>, n: nat): (k: nat)
    requires n > 0
    ensures k < n
  {
    (if draws == [] then 0 else draws[0]) % n
  }

  /**
   * Fisher-Yates selection: pick one of the remaining positions, take the
   * element there from both sequences, repeat on the rest.
   */
  function PermuteTogether<T, U>(xs: seq<T>, ys: seq<U>, draws: seq<nat>): (r: (seq<T>, seq<U>))
    requires |xs| == |ys|
    decreases |xs|
    ensures |r.0| == |xs| && |r.1| == |ys|
    ensures multiset(r.0) == multiset(xs) && multiset(r.1) == multiset(ys)
    ensures multiset(Zip(r.0, r.1)) == multiset(Zip(xs, ys))
  {
    if xs == [] then ([], [])
    else
      var k := Pick(draws, |xs|);
      var rest := PermuteTogether(Remove(xs, k), Remove(ys, k), if draws == [] then [] else draws[1..]);
      PickStep(xs, ys, k, rest.0, rest.1);
      ([xs[k]] + rest.0, [ys[k]] + rest.1)
  }

  lemma ZipCons<T, U>(a: T, b: U, xs: seq<T>, ys: seq<U>)
    requires |xs| == |ys|
    ensures Zip([a] + xs, [b] + ys) == [(a, b)] + Zip(xs, ys)
  {
  }

  /** Putting element `k` in front of a permutation of the rest permutes the whole. */
  lemma PickOne<T>(s: seq<T>, k: nat, s': seq<T>)
    requires k < |s| && multiset(s') == multiset(Remove(s, k))
    ensures multiset([s[k]] + s') == multiset(s)
  {
    assert multiset([s[k]] + s') == multiset{s[k]} + multiset(s');
  }

  /** Taking element `k` first, then a permutation of the rest, permutes the whole. */
  lemma PickStep<T, U>(xs: seq<T>, ys: seq<U>, k: nat, xs': seq<T>, ys': seq<U>)
    requires |xs| == |ys| && k < |xs| && |xs'| == |ys'|
    requires multiset(xs') == multiset(Remove(xs, k)) && multiset(ys') == multiset(Remove(ys, k))
    requires multiset(Zip(xs', ys')) == multiset(Zip(Remove(xs, k), Remove(ys, k)))
    ensures multiset([xs[k]] + xs') == multiset(xs) && multiset([ys[k]] + ys') == multiset(ys)
    ensures multiset(Zip([xs[k]] + xs', [ys[k]] + ys')) == multiset(Zip(xs, ys))
  {
    PickOne(xs, k, xs');
    PickOne(ys, k, ys');
    var z := Zip(xs, ys);
    ZipRemove(xs, ys, k);
    ZipCons(xs[k], ys[k], xs', ys');
    assert z[k] == (xs[k], ys[k]);
    PickOne(z, k, Zip(xs', ys'));
  }

  /** Permuting one sequence together with itself gives two equal sequences. */
  lemma {:induction false} PermuteSelf<T>(xs: seq<T>, draws: seq<nat>)
    ensures PermuteTogether(xs, xs, draws).0 == PermuteTogether(xs, xs, draws).1
  {
    if xs != [] {
      var k := Pick(draws, |xs|);
      PermuteSelf(Remove(xs, k), if draws == [] then [] else draws[1..]);
    }
  }

  /**
   * `shuffle(input, target)`: both arrays permuted by the same permutation;
   * a missing target stays missing; differing row counts are a ValueError.
   */
  function Shuffle(input: Dataset, target: Option<Dataset>, draws: seq<nat>)
    : (r: Result<(Dataset, Option<Dataset>), ShuffleError>)
    ensures r.Failure? <==> target.Some? && |target.value.rows| != |input.rows|
    ensures r.Success? ==>
              var (x, y) := r.value;
              x.featureShape == input.featureShape && |x.rows| == |input.rows|
              && multiset(x.rows) == multiset(input.rows)
              && y.Some? == target.Some?
    ensures r.Success? && target.Some? ==>
              var (x, y) := r.value;
              y.value.featureShape == target.value.featureShape
              && |y.value.rows| == |target.value.rows|
              && multiset(y.value.rows) == multiset(target.value.rows)
              && multiset(Zip(x.rows, y.value.rows)) == multiset(Zip(input.rows, target.value.rows))
  {
    match target
    case None =>
      var p := PermuteTogether(input.rows, input.rows, draws);
      Success((input.(rows := p.0), None))
    case Some(t) =>
      if |t.rows| != |input.rows| then Failure(RowCountMismatch)
      else
        var p := PermuteTogether(input.rows, t.rows, draws);
        Success((input.(rows := p.0), Some(t.(rows := p.1))))
  }

  /** Shuffling an array with itself keeps the two copies equal. */
  lemma ShuffleSameArrays(x: Dataset, draws: seq<nat>)
    ensures Shuffle(x, Some(x), draws).Success?
    ensures Shuffle(x, Some(x), draws).value.1 == Some(Shuffle(x, Some(x), draws).value.0)
  {
    PermuteSelf(x.rows, draws);
  }
}
