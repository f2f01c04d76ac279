/** Sums, concatenation and repetition over sequences, shared by the collation,
    masking and loss modules. */
module Seqs {

  /** Sum of naturals, built from the right end so that a prefix sum grows by one element. */
  function Sum(xs: seq<nat>): nat
  {
    if xs == [] then 0 else Sum(xs[..|xs| - 1]) + xs[|xs| - 1]
  }

  /** The length of every element of `ls`. */
  function Lengths<T>(ls: seq<seq<T>>): (r: seq<nat>)
    ensures |r| == |ls|
    ensures forall i :: 0 <= i < |ls| ==> r[i] == |ls[i]|
  {
    seq(|ls|, i requires 0 <= i < |ls| => |ls[i]|)
  }

  /** `ls[0] + ls[1] + ... + ls[|ls| - 1]`, built from the right end. */
  function Concat<T>(ls: seq<seq<T>>): seq<T>
  {
    if ls == [] then [] else Concat(ls[..|ls| - 1]) + ls[|ls| - 1]
  }

  /** `n` copies of `x`. */
  function Repeat<T>(x: T, n: nat): (r: seq<T>)
    ensures |r| == n
    ensures forall i :: 0 <= i < n ==> r[i] == x
  {
    seq(n, _ => x)
  }

  lemma {:induction false} SumAppend(xs: seq<nat>, ys: seq<nat>)
    ensures Sum(xs + ys) == Sum(xs) + Sum(ys)
    decreases |ys|
  {
    if ys != [] {
      var zs := xs + ys;
      assert zs[..|zs| - 1] == xs + ys[..|ys| - 1];
      SumAppend(xs, ys[..|ys| - 1]);
    } else {
      assert xs + ys == xs;
    }
  }

  /** A prefix sum plus the next element never exceeds the whole sum. */
  lemma {:induction false} PrefixSumBound(xs: seq<nat>, i: nat)
    requires i < |xs|
    ensures Sum(xs[..i + 1]) == Sum(xs[..i]) + xs[i]
    ensures Sum(xs[..i + 1]) <= Sum(xs)
  {
    assert xs[..i + 1][..i] == xs[..i];
    assert xs == xs[..i + 1] + xs[i + 1..];
    SumAppend(xs[..i + 1], xs[i + 1..]);
  }

  /** The sum of `n` copies of `w`. */
  lemma {:induction false} SumUniform(xs: seq<nat>, w: nat)
    requires forall i :: 0 <= i < |xs| ==> xs[i] == w
    ensures Sum(xs) == |xs| * w
  {
    if xs != [] {
      SumUniform(xs[..|xs| - 1], w);
    }
  }

  /** The concatenation is as long as the sum of the parts' lengths. */
  lemma {:induction false} ConcatLength<T>(ls: seq<seq<T>>)
    ensures |Concat(ls)| == Sum(Lengths(ls))
  {
    if ls != [] {
      ConcatLength(ls[..|ls| - 1]);
      assert Lengths(ls)[..|ls| - 1] == Lengths(ls[..|ls| - 1]);
    }
  }

  /** Element `t` of part `k` sits at offset `Sum(lengths of parts before k) + t`. */
  lemma {:induction false} ConcatAt<T>(ls: seq<seq<T>>, k: nat, t: nat)
    requires k < |ls| && t < |ls[k]|
    ensures Sum(Lengths(ls)[..k]) + t < |Concat(ls)|
    ensures Concat(ls)[Sum(Lengths(ls)[..k]) + t] == ls[k][t]
  {
    var init := ls[..|ls| - 1];
    ConcatLength(init);
    assert Lengths(ls)[..|ls| - 1] == Lengths(init);
    if k == |ls| - 1 {
    } else {
      ConcatAt(init, k, t);
      assert Lengths(ls)[..k] == Lengths(init)[..k];
    }
  }

  /** Parts of one width `w`: element `t` of part `k` sits at offset `w * k + t`. */
  lemma UniformConcatAt<T>(ls: seq<seq<T>>, w: nat, k: nat, t: nat)
    requires forall i :: 0 <= i < |ls| ==> |ls[i]| == w
    requires k < |ls| && t < w
    ensures |Concat(ls)| == |ls| * w
    ensures w * k + t < |Concat(ls)| && Concat(ls)[w * k + t] == ls[k][t]
  {
    ConcatLength(ls);
    SumUniform(Lengths(ls), w);
    SumUniform(Lengths(ls)[..k], w);
    ConcatAt(ls, k, t);
    assert k * w == w * k;
  }

  /** Concatenation distributes over appending one part. */
  lemma ConcatSnoc<T>(ls: seq<seq<T>>, x: seq<T>)
    ensures Concat(ls + [x]) == Concat(ls) + x
  {
    assert (ls + [x])[..|ls|] == ls;
  }
}
