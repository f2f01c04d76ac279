/** `BaseFeeder.collate_fn` of dataset/dataloader_video.py: turns a batch of
    (clip, gloss ids, info) samples into padded clips, per-clip lengths and a
    flat label list. A frame is an opaque value `F`. */
module Collate {
  import opened Wrappers
  import opened Seqs

  /** One item of the batch: the clip's frames, its gloss ids and its file info. */
  datatype Sample<F, I> = Sample(video: seq<F>, glosses: seq<int>, info: I)

  datatype CollateError =
    | EmptyBatch              // `zip(*batch)` has nothing to unpack
    | BadKernelCode(at: nat)  // code `at` is empty, or a 'K'/'P' code without a digit after it
    | ZeroStride              // a 'P0' code makes `len(vid) / total_stride` divide by zero
    | EmptyClip               // `vid[0]` / `vid[-1]` of a clip with no frames

  /** What the scan of the kernel codes carries from one code to the next. */
  datatype ScanState = ScanState(leftPad: nat, lastStride: nat, totalStride: nat)

  datatype Collated<F, I> = Collated(
    videos: seq<seq<F>>,
    videoLengths: seq<nat>,
    labels: seq<int>,
    labelLengths: seq<nat>,
    infos: seq<I>)

  // ---------------------------------------------------------------------------
  // Ordering the batch, longest clip first (a stable sort, as Python's `sorted`).

  ghost predicate LongestFirst<F, I>(s: seq<Sample<F, I>>)
  {
    forall i, j :: 0 <= i < j < |s| ==> |s[i].video| >= |s[j].video|
  }

  /** The samples of `s` whose clip has exactly `n` frames, in their order in `s`. */
  function WithLength<F, I>(s: seq<Sample<F, I>>, n: nat): seq<Sample<F, I>>
  {
    if s == [] then []
    else (if |s[0].video| == n then [s[0]] else []) + WithLength(s[1..], n)
  }

  /** Puts `x` before every sample of `sorted` that is not longer than it. */
  function InsertByLength<F, I>(x: Sample<F, I>, sorted: seq<Sample<F, I>>): (r: seq<Sample<F, I>>)
    ensures |r| == |sorted| + 1
  {
    if sorted == [] || |x.video| >= |sorted[0].video| then [x] + sorted
    else [sorted[0]] + InsertByLength(x, sorted[1..])
  }

  function SortByLength<F, I>(batch: seq<Sample<F, I>>): (r: seq<Sample<F, I>>)
    ensures |r| == |batch|
  {
    if batch == [] then [] else InsertByLength(batch[0], SortByLength(batch[1..]))
  }

  lemma {:induction false} InsertByLengthPermutes<F, I>(x: Sample<F, I>, sorted: seq<Sample<F, I>>)
    ensures multiset(InsertByLength(x, sorted)) == multiset(sorted) + multiset{x}
  {
    if sorted != [] && |x.video| < |sorted[0].video| {
      InsertByLengthPermutes(x, sorted[1..]);
      assert sorted == [sorted[0]] + sorted[1..];
    }
  }

  lemma {:induction false} InsertByLengthSorted<F, I>(x: Sample<F, I>, sorted: seq<Sample<F, I>>)
    requires LongestFirst(sorted)
    ensures LongestFirst(InsertByLength(x, sorted))
  {
    if sorted != [] && |x.video| < |sorted[0].video| {
      var rest := InsertByLength(x, sorted[1..]);
      InsertByLengthSorted(x, sorted[1..]);
      InsertByLengthPermutes(x, sorted[1..]);
      forall k | 0 <= k < |rest| ensures |sorted[0].video| >= |rest[k].video| {
        assert rest[k] in multiset(sorted[1..]) + multiset{x};
        if rest[k] != x {
          assert rest[k] in sorted[1..];
        }
      }
      assert InsertByLength(x, sorted) == [sorted[0]] + rest;
    }
  }

  lemma {:induction false} InsertByLengthStable<F, I>(x: Sample<F, I>, sorted: seq<Sample<F, I>>, n: nat)
    requires LongestFirst(sorted)
    ensures WithLength(InsertByLength(x, sorted), n) == WithLength([x] + sorted, n)
  {
    if sorted == [] || |x.video| >= |sorted[0].video| {
    } else {
      var rest := InsertByLength(x, sorted[1..]);
      InsertByLengthStable(x, sorted[1..], n);
      assert ([sorted[0]] + rest)[1..] == rest;
      assert ([x] + sorted)[1..] == sorted;
      assert ([x] + sorted[1..])[1..] == sorted[1..];
    }
  }

  /** The batch order of line 194: longest clip first, a permutation of the
      batch, and clips of equal length keep their batch order. */
  lemma {:induction false} SortByLengthCorrect<F, I>(batch: seq<Sample<F, I>>)
    ensures LongestFirst(SortByLength(batch))
    ensures multiset(SortByLength(batch)) == multiset(batch)
    ensures forall n :: WithLength(SortByLength(batch), n) == WithLength(batch, n)
  {
    if batch != [] {
      var rest := SortByLength(batch[1..]);
      SortByLengthCorrect(batch[1..]);
      InsertByLengthSorted(batch[0], rest);
      InsertByLengthPermutes(batch[0], rest);
      assert batch == [batch[0]] + batch[1..];
      forall n ensures WithLength(SortByLength(batch), n) == WithLength(batch, n) {
        InsertByLengthStable(batch[0], rest, n);
        assert ([batch[0]] + rest)[1..] == rest;
      }
    }
  }

  // ---------------------------------------------------------------------------
  // The scan of the kernel codes ('K5', 'P2', ...), lines 197-207.

  /** `int(c)` for a one-character string: `Some` of its value for an ASCII digit. */
  function DigitValue(c: char): Option<nat>
  {
    if '0' <= c <= '9' then Some(c as int - '0' as int) else None
  }

  /** Python's `int(x / 2)`: the quotient truncated toward zero. */
  function TruncHalf(x: int): (r: int)
    ensures x >= 0 ==> 2 * r <= x < 2 * r + 2
    ensures x < 0 ==> 2 * r >= x > 2 * r - 2
    ensures x >= -1 ==> r >= 0
  {
    if x >= 0 then x / 2 else -((-x) / 2)
  }

  /** The first two characters of a code: all the scan ever reads of it. */
  function CodeHead(code: string): string
  {
    if |code| <= 2 then code else code[..2]
  }

  /** One step of the scan over the code at position `at`. */
  function ScanStep(st: ScanState, code: string, at: nat): Result<ScanState, CollateError>
  {
    if |code| == 0 then Err(BadKernelCode(at))
    else if code[0] != 'K' && code[0] != 'P' then Ok(st)
    else if |code| < 2 || DigitValue(code[1]).None? then Err(BadKernelCode(at))
    else
      var d := DigitValue(code[1]).value;
      if code[0] == 'K' then
        var pad := TruncHalf(d - 1);
        Ok(st.(leftPad := st.leftPad * st.lastStride + pad))
      else
        Ok(st.(lastStride := d, totalStride := st.totalStride * d))
  }

  /** The state after scanning all of `codes` from `left_pad = 0, last_stride = 1, total_stride = 1`. */
  function Scan(codes: seq<string>): Result<ScanState, CollateError>
  {
    if codes == [] then Ok(ScanState(0, 1, 1))
    else match Scan(codes[..|codes| - 1])
      case Err(e) => Err(e)
      case Ok(st) => ScanStep(st, codes[|codes| - 1], |codes| - 1)
  }

  predicate IsLayerCode(code: string)
  {
    |code| > 0 && (code[0] == 'K' || code[0] == 'P')
  }

  /** A code the scan cannot read: empty, or a layer code without a digit second. */
  predicate Malformed(code: string)
  {
    |code| == 0 || (IsLayerCode(code) && (|code| < 2 || DigitValue(code[1]).None?))
  }

  /** The pool size of a well-formed 'P' code, 1 for any other code. */
  function PoolFactor(code: string): nat
  {
    if |code| >= 2 && code[0] == 'P' && DigitValue(code[1]).Some? then DigitValue(code[1]).value else 1
  }

  /** Product of the pool sizes of all 'P' codes. */
  function PoolProduct(codes: seq<string>): nat
  {
    if codes == [] then 1 else PoolProduct(codes[..|codes| - 1]) * PoolFactor(codes[|codes| - 1])
  }

  /** The scan fails exactly at the first malformed code, and otherwise its
      total stride is the product of all pool sizes. */
  lemma {:induction false} ScanOutcome(codes: seq<string>)
    ensures Scan(codes).Err? <==> exists i :: 0 <= i < |codes| && Malformed(codes[i])
    ensures Scan(codes).Err? ==>
      exists i :: && 0 <= i < |codes| && Malformed(codes[i])
                  && Scan(codes).error == BadKernelCode(i)
                  && forall j :: 0 <= j < i ==> !Malformed(codes[j])
    ensures Scan(codes).Ok? ==> Scan(codes).value.totalStride == PoolProduct(codes)
  {
    if codes != [] {
      var init := codes[..|codes| - 1];
      ScanOutcome(init);
      assert forall j :: 0 <= j < |init| ==> init[j] == codes[j];
      if Scan(init).Err? {
        var i :| 0 <= i < |init| && Malformed(init[i]) && Scan(init).error == BadKernelCode(i)
          && forall j :: 0 <= j < i ==> !Malformed(init[j]);
        assert Malformed(codes[i]);
      }
    }
  }

  /** The product of the pool sizes is zero exactly when some pool size is. */
  lemma {:induction false} PoolProductZero(codes: seq<string>)
    ensures PoolProduct(codes) == 0 <==> exists i :: 0 <= i < |codes| && PoolFactor(codes[i]) == 0
  {
    if codes != [] {
      var init := codes[..|codes| - 1];
      PoolProductZero(init);
      assert forall j :: 0 <= j < |init| ==> init[j] == codes[j];
      if exists i :: 0 <= i < |codes| && PoolFactor(codes[i]) == 0 {
        var i :| 0 <= i < |codes| && PoolFactor(codes[i]) == 0;
        if i < |init| {
          assert PoolFactor(init[i]) == 0;
        }
      }
    }
  }

  /** A scan that succeeds has a zero total stride exactly when the codes
      hold a well-formed `'P0'`: the case that divides by zero at line 211. */
  lemma ScanZeroStride(codes: seq<string>)
    ensures Scan(codes).Ok? ==>
      (Scan(codes).value.totalStride == 0 <==>
       exists i :: 0 <= i < |codes| && |codes[i]| >= 2 && codes[i][0] == 'P' && DigitValue(codes[i][1]) == Some(0))
  {
    ScanOutcome(codes);
    PoolProductZero(codes);
  }

  /** A code that is neither 'K…' nor 'P…' leaves the scan unchanged. */
  lemma {:induction false} ScanIgnoresOtherCodes(before: seq<string>, code: string)
    requires |code| > 0 && !IsLayerCode(code)
    ensures Scan(before + [code]) == Scan(before)
  {
    assert (before + [code])[..|before|] == before;
  }

  /** Only the first two characters of each code matter. */
  lemma {:induction false} ScanReadsTwoCharacters(codes: seq<string>, heads: seq<string>)
    requires |heads| == |codes|
    requires forall i :: 0 <= i < |codes| ==> heads[i] == CodeHead(codes[i])
    ensures Scan(heads) == Scan(codes)
  {
    if codes != [] {
      ScanReadsTwoCharacters(codes[..|codes| - 1], heads[..|heads| - 1]);
    }
  }

  /** The configuration of the loader's debug entry point (line 264): a left pad
      of six frames and a total stride of four. */
  lemma DefaultKernelScan()
    ensures Scan(["K5", "P2", "K5", "P2"]) == Ok(ScanState(6, 2, 4))
  {
    assert ["K5", "P2", "K5", "P2"][..3] == ["K5", "P2", "K5"];
    assert ["K5", "P2", "K5"][..2] == ["K5", "P2"];
    assert ["K5", "P2"][..1] == ["K5"];
    assert ["K5"][..0] == [];
  }

  /** The loop of lines 197-207. */
  method ScanKernelCodes(codes: seq<string>) returns (r: Result<ScanState, CollateError>)
    ensures r == Scan(codes)
  {
    var st := ScanState(0, 1, 1);
    var i := 0;
    while i < |codes|
      invariant 0 <= i <= |codes|
      invariant Scan(codes[..i]) == Ok(st)
    {
      assert codes[..i + 1][..i] == codes[..i];
      var code := codes[i];
      if |code| == 0 {
        r := Err(BadKernelCode(i));
        ScanErrorSticks(codes, i + 1);
        return;
      }
      if code[0] == 'K' || code[0] == 'P' {
        if |code| < 2 || DigitValue(code[1]).None? {
          r := Err(BadKernelCode(i));
          ScanErrorSticks(codes, i + 1);
          return;
        }
        var d: nat := DigitValue(code[1]).value;
        if code[0] == 'K' {
          var scaled: nat := st.leftPad * st.lastStride;
          st := st.(leftPad := scaled + TruncHalf(d - 1));
        } else {
          st := st.(lastStride := d, totalStride := st.totalStride * d);
        }
      }
      i := i + 1;
    }
    assert codes[..|codes|] == codes;
    r := Ok(st);
  }

  /** Once the scan of a prefix fails, the scan of the whole fails the same way. */
  lemma {:induction false} ScanErrorSticks(codes: seq<string>, n: nat)
    requires n <= |codes| && Scan(codes[..n]).Err?
    ensures Scan(codes) == Scan(codes[..n])
    decreases |codes| - n
  {
    if n < |codes| {
      assert codes[..n + 1][..n] == codes[..n];
      ScanErrorSticks(codes, n + 1);
    } else {
      assert codes[..n] == codes;
    }
  }

  // ---------------------------------------------------------------------------
  // Lengths and padding, lines 208-233.

  lemma DivMod(a: nat, s: nat)
    requires s > 0
    ensures a == (a / s) * s + a % s && 0 <= a % s < s
  {
  }

  lemma {:induction false} MulStep(a: nat, b: nat, s: nat)
    requires a > b
    ensures a * s >= b * s + s
    decreases a - b
  {
    if a > b + 1 {
      MulStep(a - 1, b, s);
      assert a * s == (a - 1) * s + s;
    } else {
      assert a * s == b * s + s;
    }
  }

  lemma MulMod(q: nat, s: nat)
    requires s > 0
    ensures (q * s) % s == 0
  {
    var a := q * s;
    DivMod(a, s);
    var p := a / s;
    if p < q { MulStep(q, p, s); }
    if p > q { MulStep(p, q, s); }
  }

  /** Two distinct multiples of `s` are at least `s` apart. */
  lemma MultiplesApart(x: nat, y: nat, s: nat)
    requires s > 0 && x % s == 0 && y % s == 0 && y < x
    ensures x >= y + s
  {
    DivMod(x, s);
    DivMod(y, s);
    var p, q := x / s, y / s;
    if p <= q {
      if p < q { MulStep(q, p, s); }
      assert false;
    }
    MulStep(p, q, s);
  }

  /** `ceil(n / s) * s`: `n` rounded up to a multiple of the stride. */
  function RoundUp(n: nat, s: nat): (r: nat)
    requires s > 0
    ensures r % s == 0 && n <= r < n + s
  {
    var q := (n + s - 1) / s;
    DivMod(n + s - 1, s);
    MulMod(q, s);
    q * s
  }

  lemma RoundUpMonotonic(m: nat, n: nat, s: nat)
    requires s > 0 && m <= n
    ensures RoundUp(m, s) <= RoundUp(n, s)
  {
    var x, y := RoundUp(m, s), RoundUp(n, s);
    if x > y {
      MultiplesApart(x, y, s);
    }
  }

  /** `padded` holds `left` copies of the first frame of `v`, then `v`, then
      copies of its last frame, `total` frames in all. */
  ghost predicate EdgePadded<F>(v: seq<F>, left: nat, total: nat, padded: seq<F>)
  {
    && 0 < |v| && left + |v| <= total
    && |padded| == total
    && (forall t :: 0 <= t < left ==> padded[t] == v[0])
    && (forall t :: 0 <= t < |v| ==> padded[left + t] == v[t])
    && (forall t :: left + |v| <= t < total ==> padded[t] == v[|v| - 1])
  }

  /** The padded clip of lines 214-221 and 226-232. */
  function PadEdges<F>(v: seq<F>, left: nat, total: nat): (r: seq<F>)
    requires |v| > 0 && left + |v| <= total
    ensures EdgePadded(v, left, total, r)
  {
    Repeat(v[0], left) + v + Repeat(v[|v| - 1], total - left - |v|)
  }

  /** `i` clamped into `[0, hi]`. */
  function Clamp(i: int, hi: nat): nat
  {
    if i < 0 then 0 else if i > hi then hi else i
  }

  /** Edge replication reads the clip at the clamped index: frame `t` of the
      padded clip is frame `t - left` of the clip, clamped to its ends. */
  lemma EdgePaddedIsClamped<F>(v: seq<F>, left: nat, total: nat, padded: seq<F>, t: nat)
    requires EdgePadded(v, left, total, padded) && t < total
    ensures padded[t] == v[Clamp(t - left, |v| - 1)]
  {
    if left <= t < left + |v| {
      assert padded[left + (t - left)] == v[t - left];
    }
  }

  /** Length of each clip after the image-branch padding (line 211). */
  function PaddedLength(n: nat, st: ScanState): nat
    requires st.totalStride > 0
  {
    RoundUp(n, st.totalStride) + 2 * st.leftPad
  }

  // ---------------------------------------------------------------------------
  // The flat label list, lines 234-242.

  /** Splits `flat` into consecutive pieces of the given lengths: how the
      sequence loss reads `padded_label` back with `label_length`. */
  function SplitByLengths(flat: seq<int>, lengths: seq<nat>): seq<seq<int>>
    requires Sum(lengths) == |flat|
    decreases |lengths|
  {
    if lengths == [] then []
    else
      var n := lengths[|lengths| - 1];
      var init := lengths[..|lengths| - 1];
      SplitByLengths(flat[..|flat| - n], init) + [flat[|flat| - n..]]
  }

  /** Reading the flat list back with `label_length` recovers every label. */
  lemma {:induction false} SplitConcat(labels: seq<seq<int>>)
    ensures |Concat(labels)| == Sum(Lengths(labels))
    ensures SplitByLengths(Concat(labels), Lengths(labels)) == labels
  {
    ConcatLength(labels);
    if labels != [] {
      var init, last := labels[..|labels| - 1], labels[|labels| - 1];
      SplitConcat(init);
      LengthsSnoc(labels);
      SplitSnoc(Concat(init), last, Lengths(init));
    }
  }

  lemma LengthsSnoc(labels: seq<seq<int>>)
    requires labels != []
    ensures Lengths(labels) == Lengths(labels[..|labels| - 1]) + [|labels[|labels| - 1]|]
  {
  }

  /** Splitting `flat + last` by `lengths + [|last|]` splits `flat` by `lengths`, then yields `last`. */
  lemma SplitSnoc(flat: seq<int>, last: seq<int>, lengths: seq<nat>)
    requires Sum(lengths) == |flat|
    ensures Sum(lengths + [|last|]) == |flat + last|
    ensures SplitByLengths(flat + last, lengths + [|last|]) == SplitByLengths(flat, lengths) + [last]
  {
    var ls := lengths + [|last|];
    assert ls[..|ls| - 1] == lengths;
    var whole := flat + last;
    assert whole[..|whole| - |last|] == flat;
    assert whole[|whole| - |last|..] == last;
  }

  /** The `extend` loop of lines 238-240. */
  method FlattenLabels(labels: seq<seq<int>>) returns (flat: seq<int>)
    ensures flat == Concat(labels)
  {
    flat := [];
    for i := 0 to |labels|
      invariant flat == Concat(labels[..i])
    {
      assert labels[..i + 1][..i] == labels[..i];
      flat := flat + labels[i];
    }
    assert labels[..|labels|] == labels;
  }

  function Videos<F, I>(s: seq<Sample<F, I>>): (r: seq<seq<F>>)
    ensures |r| == |s| && forall i :: 0 <= i < |s| ==> r[i] == s[i].video
  {
    seq(|s|, i requires 0 <= i < |s| => s[i].video)
  }

  function Labels<F, I>(s: seq<Sample<F, I>>): (r: seq<seq<int>>)
    ensures |r| == |s| && forall i :: 0 <= i < |s| ==> r[i] == s[i].glosses
  {
    seq(|s|, i requires 0 <= i < |s| => s[i].glosses)
  }

  function Infos<F, I>(s: seq<Sample<F, I>>): (r: seq<I>)
    ensures |r| == |s| && forall i :: 0 <= i < |s| ==> r[i] == s[i].info
  {
    seq(|s|, i requires 0 <= i < |s| => s[i].info)
  }

  /** A batch ready to be padded: not empty, longest clip first, no clip without frames. */
  ghost predicate ClipsReady<F, I>(sorted: seq<Sample<F, I>>)
  {
    && |sorted| > 0
    && LongestFirst(sorted)
    && forall i :: 0 <= i < |sorted| ==> |sorted[i].video| > 0
  }

  /** The image-branch layout of lines 209-222: lengths rounded up to a stride
      multiple plus a left pad on each side; every clip padded to the first
      clip's length with copies of its first frame, then the clip itself at
      offset `leftPad`, then copies of its last frame. */
  ghost predicate ImagePadded<F, I>(sorted: seq<Sample<F, I>>, st: ScanState, videos: seq<seq<F>>, lengths: seq<nat>)
    requires st.totalStride > 0
  {
    && |videos| == |lengths| == |sorted| > 0
    && forall i :: 0 <= i < |sorted| ==>
      var v, lp := sorted[i].video, st.leftPad;
      && |v| > 0
      && lengths[i] == PaddedLength(|v|, st)
      && |v| + 2 * lp <= lengths[i] <= lengths[0]
      && EdgePadded(v, lp, lengths[0], videos[i])
  }

  /** The feature-branch layout of lines 224-233: lengths are the frame
      counts; every clip is extended on the right with copies of its last
      frame up to the first clip's frame count. */
  ghost predicate FeaturesPadded<F, I>(sorted: seq<Sample<F, I>>, videos: seq<seq<F>>, lengths: seq<nat>)
  {
    && |videos| == |lengths| == |sorted| > 0
    && forall i :: 0 <= i < |sorted| ==>
      var v := sorted[i].video;
      && lengths[i] == |v| <= lengths[0]
      && EdgePadded(v, 0, lengths[0], videos[i])
  }

  /** Lines 234-242: no label lists at all when every label is empty,
      otherwise the labels back to back with their lengths. */
  ghost predicate LabelsFlattened<F, I>(sorted: seq<Sample<F, I>>, labels: seq<int>, labelLengths: seq<nat>)
  {
    if forall i :: 0 <= i < |sorted| ==> sorted[i].glosses == [] then
      labels == [] && labelLengths == []
    else
      && labelLengths == Lengths(Labels(sorted))
      && labels == Concat(Labels(sorted))
      && |labels| == Sum(labelLengths)
  }

  /** Padded clips and their lengths for clips of images (lines 209-222). */
  function PadImageBatch<F, I>(sorted: seq<Sample<F, I>>, st: ScanState): (r: (seq<seq<F>>, seq<nat>))
    requires ClipsReady(sorted) && st.totalStride > 0
    ensures ImagePadded(sorted, st, r.0, r.1)
  {
    var maxLen := |sorted[0].video|;
    var rightPad := RoundUp(maxLen, st.totalStride) - maxLen + st.leftPad;
    var paddedLen := maxLen + st.leftPad + rightPad;
    var lengths := seq(|sorted|, i requires 0 <= i < |sorted| => PaddedLength(|sorted[i].video|, st));
    PaddedLengthsBounded(sorted, st, lengths);
    var videos := seq(|sorted|, i requires 0 <= i < |sorted| => PadEdges(sorted[i].video, st.leftPad, paddedLen));
    (videos, lengths)
  }

  lemma PaddedLengthsBounded<F, I>(sorted: seq<Sample<F, I>>, st: ScanState, lengths: seq<nat>)
    requires ClipsReady(sorted) && st.totalStride > 0
    requires |lengths| == |sorted|
    requires forall i :: 0 <= i < |sorted| ==> lengths[i] == PaddedLength(|sorted[i].video|, st)
    ensures forall i :: 0 <= i < |sorted| ==> |sorted[i].video| + 2 * st.leftPad <= lengths[i] <= lengths[0]
  {
    forall i | 0 <= i < |sorted| ensures lengths[i] <= lengths[0] {
      if i > 0 {
        RoundUpMonotonic(|sorted[i].video|, |sorted[0].video|, st.totalStride);
      }
    }
  }

  /** Padded clips and their lengths for clips of feature vectors (lines 224-233). */
  function PadFeatureBatch<F, I>(sorted: seq<Sample<F, I>>): (r: (seq<seq<F>>, seq<nat>))
    requires ClipsReady(sorted)
    ensures FeaturesPadded(sorted, r.0, r.1)
  {
    var maxLen := |sorted[0].video|;
    var videos := seq(|sorted|, i requires 0 <= i < |sorted| => PadEdges(sorted[i].video, 0, maxLen));
    var lengths := seq(|sorted|, i requires 0 <= i < |sorted| => |sorted[i].video|);
    (videos, lengths)
  }

  lemma SortedClipsReady<F, I>(batch: seq<Sample<F, I>>)
    requires batch != [] && forall i :: 0 <= i < |batch| ==> batch[i].video != []
    ensures ClipsReady(SortByLength(batch))
  {
    var sorted := SortByLength(batch);
    SortByLengthCorrect(batch);
    forall i | 0 <= i < |sorted| ensures |sorted[i].video| > 0 {
      assert sorted[i] in multiset(batch);
    }
  }

  /** Whether collation of `batch` fails, and how, in the order the source meets its errors. */
  function CollateOutcome<F, I>(batch: seq<Sample<F, I>>, codes: seq<string>, imageClips: bool): Option<CollateError>
  {
    if batch == [] then Some(EmptyBatch)
    else if Scan(codes).Err? then Some(Scan(codes).error)
    else if imageClips && Scan(codes).value.totalStride == 0 then Some(ZeroStride)
    else if exists i :: 0 <= i < |batch| && batch[i].video == [] then Some(EmptyClip)
    else None
  }

  /** `collate_fn`. `imageClips` is the test `len(video[0].shape) > 3`: clips
      of images (padded on both sides to a stride multiple) rather than of
      feature vectors (padded on the right only). */
  method CollateFn<F, I>(batch: seq<Sample<F, I>>, codes: seq<string>, imageClips: bool)
    returns (r: Result<Collated<F, I>, CollateError>)
    ensures r.Err? <==> CollateOutcome(batch, codes, imageClips).Some?
    ensures r.Err? ==> r.error == CollateOutcome(batch, codes, imageClips).value
    ensures r.Ok? ==> ClipsReady(SortByLength(batch)) && r.value.infos == Infos(SortByLength(batch))
    ensures r.Ok? && imageClips ==>
      ImagePadded(SortByLength(batch), Scan(codes).value, r.value.videos, r.value.videoLengths)
    ensures r.Ok? && !imageClips ==>
      FeaturesPadded(SortByLength(batch), r.value.videos, r.value.videoLengths)
    ensures r.Ok? ==> LabelsFlattened(SortByLength(batch), r.value.labels, r.value.labelLengths)
  {
    if batch == [] {
      return Err(EmptyBatch);
    }
    var sorted := SortByLength(batch);
    var scanned := ScanKernelCodes(codes);
    if scanned.Err? {
      return Err(scanned.error);
    }
    var st := scanned.value;
    if imageClips && st.totalStride == 0 {
      return Err(ZeroStride);
    }
    if exists i :: 0 <= i < |batch| && batch[i].video == [] {
      return Err(EmptyClip);
    }
    SortedClipsReady(batch);
    var padded := if imageClips then PadImageBatch(sorted, st) else PadFeatureBatch(sorted);
    var labels, labelLengths := CollateLabels(sorted);
    r := Ok(Collated(padded.0, padded.1, labels, labelLengths, Infos(sorted)));
  }

  /** Lines 234-242: the label lengths and the flat label list. */
  method CollateLabels<F, I>(sorted: seq<Sample<F, I>>) returns (labels: seq<int>, labelLengths: seq<nat>)
    ensures LabelsFlattened(sorted, labels, labelLengths)
  {
    labelLengths := Lengths(Labels(sorted));
    if forall i :: 0 <= i < |sorted| ==> labelLengths[i] == 0 {
      return [], [];
    }
    labels := FlattenLabels(Labels(sorted));
    ConcatLength(Labels(sorted));
  }
}
