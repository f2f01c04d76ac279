/** `SLRModel.masked_bn` of slr_network_multi_add_block_sim.py: gathers the
    valid frames of every clip of a padded batch into one flat run, applies
    the network to that run, and spreads the result back into padded clips
    with zero frames. The network (`self.conv2d`, whose batch statistics see
    the whole run at once) is a function `net` from the gathered run to a run
    of as many frames; `zero` is the zero frame. */
module MaskedBn {
  import opened Seqs

  /** The shape `masked_bn` expects: `len_x` not empty, its first entry (the
      padded clip length) the largest, and `inputs` long enough that every
      slice of line 116 is read in full. The last slice ends furthest out, at
      `len_x[0] * (|len_x| - 1) + len_x[-1]`; frames past it are never read. */
  ghost predicate PaddedBatch<F>(inputs: seq<F>, lens: seq<nat>)
  {
    && |lens| > 0
    && (forall i :: 0 <= i < |lens| ==> lens[i] <= lens[0])
    && lens[0] * (|lens| - 1) + lens[|lens| - 1] <= |inputs|
  }

  lemma BlockInRange<F>(inputs: seq<F>, lens: seq<nat>, idx: nat)
    requires PaddedBatch(inputs, lens) && idx < |lens|
    ensures lens[0] * idx + lens[idx] <= |inputs|
  {
    var w, last := lens[0], |lens| - 1;
    if idx < last {
      assert w * idx + w == w * (idx + 1);
      MulLe(idx + 1, last, w);
    }
  }

  /** A last clip shorter than `len_x[0]` needs no frames after it: `len_x =
      [3, 1]` reads `inputs[0:3]` and `inputs[3:4]`, so four frames suffice. */
  lemma ShortLastClipAdmitted<F>(a: F, b: F, c: F, d: F)
    ensures PaddedBatch([a, b, c, d], [3, 1])
    ensures Gather([a, b, c, d], [3, 1]) == [a, b, c, d]
  {
    var inputs, lens := [a, b, c, d], [3, 1];
    assert PaddedBatch(inputs, lens);
    assert Block(inputs, lens, 0) == [a, b, c];
    assert Block(inputs, lens, 1) == [d];
    assert Blocks(inputs, lens) == [[a, b, c], [d]];
    ConcatSnoc([[a, b, c]], [d]);
    ConcatSnoc([], [a, b, c]);
    assert [[a, b, c]] == [] + [[a, b, c]];
    assert Concat([[a, b, c], [d]]) == [a, b, c, d];
  }

  lemma MulLe(a: nat, b: nat, w: nat)
    requires a <= b
    ensures w * a <= w * b
  {
  }

  /** `inputs[len_x[0] * idx : len_x[0] * idx + lgt]`: the valid frames of clip `idx`. */
  function Block<F>(inputs: seq<F>, lens: seq<nat>, idx: nat): (b: seq<F>)
    requires PaddedBatch(inputs, lens) && idx < |lens|
    ensures |b| == lens[idx]
  {
    BlockInRange(inputs, lens, idx);
    inputs[lens[0] * idx .. lens[0] * idx + lens[idx]]
  }

  /** The valid frames of every clip. */
  function Blocks<F>(inputs: seq<F>, lens: seq<nat>): (bs: seq<seq<F>>)
    requires PaddedBatch(inputs, lens)
    ensures |bs| == |lens| && forall idx :: 0 <= idx < |lens| ==> bs[idx] == Block(inputs, lens, idx)
  {
    seq(|lens|, idx requires 0 <= idx < |lens| => Block(inputs, lens, idx))
  }

  /** The first `torch.cat` of line 116: the valid frames of all clips, back to back. */
  function Gather<F>(inputs: seq<F>, lens: seq<nat>): seq<F>
    requires PaddedBatch(inputs, lens)
  {
    Concat(Blocks(inputs, lens))
  }

  /** `pad(tensor, length)`: the frames followed by zero frames up to `length`. */
  function Pad<G>(frames: seq<G>, length: nat, zero: G): (r: seq<G>)
    requires |frames| <= length
    ensures |r| == length
    ensures forall t :: 0 <= t < length ==> r[t] == if t < |frames| then frames[t] else zero
  {
    frames + Repeat(zero, length - |frames|)
  }

  /** `x[sum(len_x[:idx]) : sum(len_x[:idx + 1])]`, padded to `len_x[0]`. */
  function Piece<G>(x: seq<G>, lens: seq<nat>, idx: nat, zero: G): (p: seq<G>)
    requires |x| == Sum(lens) && idx < |lens| && lens[idx] <= lens[0]
    ensures |p| == lens[0]
  {
    PrefixSumBound(lens, idx);
    Pad(x[Sum(lens[..idx]) .. Sum(lens[..idx + 1])], lens[0], zero)
  }

  /** The padded pieces of the second `torch.cat` of line 118. */
  function Pieces<G>(x: seq<G>, lens: seq<nat>, zero: G): (ps: seq<seq<G>>)
    requires |x| == Sum(lens) && |lens| > 0 && forall i :: 0 <= i < |lens| ==> lens[i] <= lens[0]
    ensures |ps| == |lens|
    ensures forall i :: 0 <= i < |lens| ==> ps[i] == Piece(x, lens, i, zero) && |ps[i]| == lens[0]
  {
    seq(|lens|, idx requires 0 <= idx < |lens| => Piece(x, lens, idx, zero))
  }

  /** `masked_bn(inputs, len_x)`, with the network `net` and the zero frame `zero`. */
  function MaskedBn<F, G>(inputs: seq<F>, lens: seq<nat>, net: seq<F> -> seq<G>, zero: G): seq<G>
    requires PaddedBatch(inputs, lens) && |net(Gather(inputs, lens))| == |Gather(inputs, lens)|
  {
    GatherLength(inputs, lens);
    Concat(Pieces(net(Gather(inputs, lens)), lens, zero))
  }

  /** The gathered run is as long as the valid frames of all clips together. */
  lemma GatherLength<F>(inputs: seq<F>, lens: seq<nat>)
    requires PaddedBatch(inputs, lens)
    ensures |Gather(inputs, lens)| == Sum(lens)
  {
    var blocks := seq(|lens|, idx requires 0 <= idx < |lens| => Block(inputs, lens, idx));
    ConcatLength(blocks);
    assert Lengths(blocks) == lens;
  }

  /** Valid frame `t` of clip `idx` sits in the gathered run right after the
      valid frames of the clips before it. */
  lemma GatherAt<F>(inputs: seq<F>, lens: seq<nat>, idx: nat, t: nat)
    requires PaddedBatch(inputs, lens) && idx < |lens| && t < lens[idx]
    ensures Sum(lens[..idx]) + t < |Gather(inputs, lens)|
    ensures lens[0] * idx + t < |inputs|
    ensures Gather(inputs, lens)[Sum(lens[..idx]) + t] == inputs[lens[0] * idx + t]
  {
    var blocks := seq(|lens|, idx requires 0 <= idx < |lens| => Block(inputs, lens, idx));
    assert Gather(inputs, lens) == Concat(blocks);
    ConcatAt(blocks, idx, t);
    assert Lengths(blocks) == lens;
    BlockAt(inputs, lens, idx, t);
    assert blocks[idx] == Block(inputs, lens, idx);
  }

  lemma BlockAt<F>(inputs: seq<F>, lens: seq<nat>, idx: nat, t: nat)
    requires PaddedBatch(inputs, lens) && idx < |lens| && t < lens[idx]
    ensures lens[0] * idx + t < |inputs|
    ensures Block(inputs, lens, idx)[t] == inputs[lens[0] * idx + t]
  {
    BlockInRange(inputs, lens, idx);
  }

  /** The output is the padded batch again, `|len_x| * len_x[0]` frames: in
      clip `idx`, the first `len_x[idx]` frames are the network's output for
      that clip's valid frames, in order, and every other frame is zero. */
  lemma {:induction false} MaskedBnAt<F, G>(inputs: seq<F>, lens: seq<nat>, net: seq<F> -> seq<G>, zero: G, idx: nat, t: nat)
    requires PaddedBatch(inputs, lens) && |net(Gather(inputs, lens))| == |Gather(inputs, lens)|
    requires idx < |lens| && t < lens[0]
    ensures |MaskedBn(inputs, lens, net, zero)| == |lens| * lens[0]
    ensures lens[0] * idx + t < |MaskedBn(inputs, lens, net, zero)|
    ensures t < lens[idx] ==> Sum(lens[..idx]) + t < |Gather(inputs, lens)|
    ensures MaskedBn(inputs, lens, net, zero)[lens[0] * idx + t] ==
      if t < lens[idx] then net(Gather(inputs, lens))[Sum(lens[..idx]) + t] else zero
  {
    GatherLength(inputs, lens);
    var x := net(Gather(inputs, lens));
    var pieces := Pieces(x, lens, zero);
    UniformConcatAt(pieces, lens[0], idx, t);
    PieceAt(x, lens, idx, zero, t);
  }

  /** The network sees only valid frames: two padded batches whose clips agree
      on their first `len_x[idx]` frames give the same output, whatever their
      padding frames hold. */
  lemma MaskedBnIgnoresPadding<F, G>(inputs: seq<F>, other: seq<F>, lens: seq<nat>, net: seq<F> -> seq<G>, zero: G)
    requires PaddedBatch(inputs, lens) && |net(Gather(inputs, lens))| == |Gather(inputs, lens)|
    requires PaddedBatch(other, lens) && |net(Gather(other, lens))| == |Gather(other, lens)|
    requires forall idx :: 0 <= idx < |lens| ==> Block(inputs, lens, idx) == Block(other, lens, idx)
    ensures MaskedBn(inputs, lens, net, zero) == MaskedBn(other, lens, net, zero)
  {
    assert Blocks(inputs, lens) == Blocks(other, lens);
  }

  lemma PieceAt<G>(x: seq<G>, lens: seq<nat>, idx: nat, zero: G, t: nat)
    requires |x| == Sum(lens) && idx < |lens| && lens[idx] <= lens[0] && t < lens[0]
    ensures t < lens[idx] ==> Sum(lens[..idx]) + t < |x|
    ensures Piece(x, lens, idx, zero)[t] == if t < lens[idx] then x[Sum(lens[..idx]) + t] else zero
  {
    PrefixSumBound(lens, idx);
    var lo, hi := Sum(lens[..idx]), Sum(lens[..idx + 1]);
    var run := x[lo..hi];
    assert |run| == lens[idx];
    assert Piece(x, lens, idx, zero) == Pad(run, lens[0], zero);
    if t < lens[idx] {
      assert run[t] == x[lo + t];
    }
  }
}
