/** The index bookkeeping of `SLRModel.forward` in
    slr_network_multi_add_block_sim.py: once the top-k boundary frames of a
    branch are chosen, they are sorted, turned into one (start, end) segment
    per gloss, and each segment is pooled into one row. The similarity scores
    and the top-k choice are inputs; a frame is an opaque value. */
module Segments {
  import opened Wrappers

  /** A pair `[start, end]` of the list `se`. */
  datatype Segment = Segment(start: int, end: int)

  /** What one pooled row is made of: the mean of frames `[from, to)`, or frame `at` alone. */
  datatype PooledRow = Mean(from: int, to: int) | Frame(at: int)

  // ---------------------------------------------------------------------------
  // `conv1d_output.roll(1, 0)`, line 133.

  /** The clip shifted one frame forward in time, the last frame wrapping to the front. */
  function Roll<T>(x: seq<T>): (r: seq<T>)
    ensures |r| == |x|
    ensures forall t :: 0 <= t < |x| ==> r[t] == x[(t - 1) % |x|]
  {
    if x == [] then [] else [x[|x| - 1]] + x[..|x| - 1]
  }

  // ---------------------------------------------------------------------------
  // `sorted(paired, key=lambda x: x[1])`, line 137: the chosen frames in time order.

  ghost predicate Ascending(s: seq<nat>)
  {
    forall i, j :: 0 <= i < j < |s| ==> s[i] < s[j]
  }

  ghost predicate Distinct(s: seq<nat>)
  {
    forall i, j :: 0 <= i < j < |s| ==> s[i] != s[j]
  }

  function InsertAscending(x: nat, s: seq<nat>): (r: seq<nat>)
    ensures |r| == |s| + 1
  {
    if s == [] || x <= s[0] then [x] + s else [s[0]] + InsertAscending(x, s[1..])
  }

  function SortAscending(s: seq<nat>): (r: seq<nat>)
    ensures |r| == |s|
  {
    if s == [] then [] else InsertAscending(s[0], SortAscending(s[1..]))
  }

  lemma {:induction false} InsertAscendingPermutes(x: nat, s: seq<nat>)
    ensures multiset(InsertAscending(x, s)) == multiset(s) + multiset{x}
  {
    if s != [] && x > s[0] {
      InsertAscendingPermutes(x, s[1..]);
      assert s == [s[0]] + s[1..];
    }
  }

  lemma {:induction false} InsertAscendingCorrect(x: nat, s: seq<nat>)
    requires Ascending(s) && x !in s
    ensures Ascending(InsertAscending(x, s))
  {
    if s != [] && x > s[0] {
      var rest := InsertAscending(x, s[1..]);
      assert x !in s[1..];
      InsertAscendingCorrect(x, s[1..]);
      InsertAscendingPermutes(x, s[1..]);
      forall k | 0 <= k < |rest| ensures s[0] < rest[k] {
        assert rest[k] in multiset(s[1..]) + multiset{x};
        if rest[k] != x {
          assert rest[k] in s[1..];
        }
      }
      assert InsertAscending(x, s) == [s[0]] + rest;
    }
  }

  /** Sorting distinct frame indices puts them in strictly increasing order and
      loses none of them. */
  lemma {:induction false} SortAscendingCorrect(s: seq<nat>)
    requires Distinct(s)
    ensures Ascending(SortAscending(s))
    ensures multiset(SortAscending(s)) == multiset(s)
  {
    if s != [] {
      assert s == [s[0]] + s[1..];
      SortAscendingCorrect(s[1..]);
      assert s[0] !in multiset(s[1..]);
      InsertAscendingCorrect(s[0], SortAscending(s[1..]));
      InsertAscendingPermutes(s[0], SortAscending(s[1..]));
    }
  }

  // ---------------------------------------------------------------------------
  // The list `se`, lines 138-145.

  /** Segment `j` of `k = |s|` for boundaries `s` of a branch with `n` frames. */
  function SegmentAt(s: seq<nat>, n: nat, j: nat): (g: Segment)
    requires j < |s|
  {
    if j == 0 then Segment(0, s[0])
    else if j == |s| - 1 then Segment(s[|s| - 1], n - 1)
    else Segment(s[j - 1], s[j])
  }

  /** The loop of lines 139-145. */
  method BuildSegments(s: seq<nat>, n: nat) returns (se: seq<Segment>)
    ensures |se| == |s|
    ensures forall j :: 0 <= j < |s| ==> se[j] == SegmentAt(s, n, j)
  {
    se := [];
    for j := 0 to |s|
      invariant |se| == j
      invariant forall i :: 0 <= i < j ==> se[i] == SegmentAt(s, n, i)
    {
      if j == 0 {
        se := se + [Segment(0, s[j])];
      } else if j == |s| - 1 {
        se := se + [Segment(s[|s| - 1], n - 1)];
      } else {
        se := se + [Segment(s[j - 1], s[j])];
      }
    }
  }

  /** For ascending boundaries inside the clip every segment lies in the clip
      with its start no later than its end. */
  lemma SegmentBounds(s: seq<nat>, n: nat, j: nat)
    requires Ascending(s) && j < |s| && forall i :: 0 <= i < |s| ==> s[i] < n
    ensures 0 <= SegmentAt(s, n, j).start <= SegmentAt(s, n, j).end <= n - 1
  {
    assert s[j] < n;
    if 0 < j < |s| - 1 {
      assert s[j - 1] < s[j];
    }
  }

  /** The shape of the list: `(0, s0)` first; for two or more boundaries
      `(s_{k-1}, n-1)` last; the middle segments chain end to start; and the
      last segment does not start where the one before it ends. */
  lemma SegmentShape(s: seq<nat>, n: nat)
    requires Ascending(s) && |s| > 0
    ensures SegmentAt(s, n, 0) == Segment(0, s[0])
    ensures |s| >= 2 ==> SegmentAt(s, n, |s| - 1) == Segment(s[|s| - 1], n - 1)
    ensures forall j :: 1 <= j <= |s| - 2 ==> SegmentAt(s, n, j).start == SegmentAt(s, n, j - 1).end
    ensures |s| >= 2 ==> SegmentAt(s, n, |s| - 1).start > SegmentAt(s, n, |s| - 2).end
  {
    if |s| >= 2 {
      assert s[|s| - 2] < s[|s| - 1];
    }
  }

  /** Frame `t` is averaged into some row: it lies in `[start, end)` of a segment. */
  ghost predicate Covered(s: seq<nat>, n: nat, t: int)
  {
    exists j :: 0 <= j < |s| && SegmentAt(s, n, j).start <= t < SegmentAt(s, n, j).end
  }

  /** The frames the segments average over. With one boundary `s0` the only
      segment is `(0, s0)`, so exactly the frames before `s0`. With two or
      more, the frames before the second-to-last boundary, and those from the
      last boundary up to, not including, the last frame; the frames between
      the last two boundaries, and the last frame, are in no mean. */
  lemma {:induction false} SegmentCoverage(s: seq<nat>, n: nat, t: int)
    requires Ascending(s) && |s| > 0 && forall i :: 0 <= i < |s| ==> s[i] < n
    ensures Covered(s, n, t) <==>
      if |s| == 1 then 0 <= t < s[0]
      else (0 <= t < s[|s| - 2]) || (s[|s| - 1] <= t < n - 1)
  {
    var k := |s|;
    if k == 1 && 0 <= t < s[0] {
      assert SegmentAt(s, n, 0).start <= t < SegmentAt(s, n, 0).end;
    }
    if k > 1 && 0 <= t < s[k - 2] {
      CoveredBelow(s, n, t, k - 2);
    }
    if k > 1 && s[k - 1] <= t < n - 1 {
      assert SegmentAt(s, n, k - 1).start <= t < SegmentAt(s, n, k - 1).end;
    }
    if Covered(s, n, t) {
      var j :| 0 <= j < k && SegmentAt(s, n, j).start <= t < SegmentAt(s, n, j).end;
      if 0 < j < k - 1 {
        assert s[j] <= s[k - 2];
      }
    }
  }

  /** Every frame before boundary `m` (for `m` below the last one) is in a segment. */
  lemma {:induction false} CoveredBelow(s: seq<nat>, n: nat, t: int, m: nat)
    requires Ascending(s) && m < |s| - 1 && 0 <= t < s[m]
    ensures Covered(s, n, t)
    decreases m
  {
    if m == 0 || t >= s[m - 1] {
      assert SegmentAt(s, n, m).start <= t < SegmentAt(s, n, m).end;
    } else {
      CoveredBelow(s, n, t, m - 1);
    }
  }

  // ---------------------------------------------------------------------------
  // One row per segment, lines 146-155.

  function RowFor(g: Segment): PooledRow
  {
    if g.end != g.start then Mean(g.start, g.end) else Frame(g.start)
  }

  /** A row that reads only frames of a clip of `n` frames: a mean over a
      non-empty range of them, or one of them. */
  predicate RowInClip(row: PooledRow, n: nat)
  {
    match row
    case Mean(from, to) => 0 <= from < to <= n
    case Frame(at) => 0 <= at < n
  }

  /** The loop of lines 147-153. */
  method PoolRows(se: seq<Segment>) returns (rows: seq<PooledRow>)
    ensures |rows| == |se|
    ensures forall j :: 0 <= j < |se| ==> rows[j] == RowFor(se[j])
  {
    rows := [];
    for j := 0 to |se|
      invariant |rows| == j
      invariant forall i :: 0 <= i < j ==> rows[i] == RowFor(se[i])
    {
      var g := se[j];
      if g.end != g.start {
        rows := rows + [Mean(g.start, g.end)];
      } else {
        rows := rows + [Frame(g.start)];
      }
    }
  }

  /** The rows of one branch, from its chosen boundary frames. */
  function BranchRows(picked: seq<nat>, n: nat): (rows: seq<PooledRow>)
    ensures |rows| == |picked|
  {
    var s := SortAscending(picked);
    seq(|s|, j requires 0 <= j < |s| => RowFor(SegmentAt(s, n, j)))
  }

  /** For `k` distinct chosen frames of a clip of `n` frames there are exactly
      `k` rows, each made only of frames of the clip. */
  lemma BranchRowsInClip(picked: seq<nat>, n: nat)
    requires Distinct(picked) && forall i :: 0 <= i < |picked| ==> picked[i] < n
    ensures forall j :: 0 <= j < |picked| ==> RowInClip(BranchRows(picked, n)[j], n)
  {
    var s := SortAscending(picked);
    SortAscendingCorrect(picked);
    forall i | 0 <= i < |s| ensures s[i] < n {
      assert s[i] in multiset(picked);
    }
    forall j | 0 <= j < |s| ensures RowInClip(RowFor(SegmentAt(s, n, j)), n) {
      SegmentBounds(s, n, j);
    }
  }

  /** The chosen frames of one branch: the indices `topk` returned, which
      are distinct, inside the clip, and `label_lgt[0]` of them. */
  datatype Branch = Branch(frames: nat, picked: seq<nat>)

  ghost predicate ValidBranch(b: Branch, k: nat)
  {
    |b.picked| == k && Distinct(b.picked) && forall i :: 0 <= i < k ==> b.picked[i] < b.frames
  }

  /** The loop of lines 130-155 over the branches: for each, sort the chosen
      frames, build the segments and pool one row per segment. `torch.concat`
      of no rows fails, so a batch whose first sample has no gloss fails. */
  method PoolBranches(branches: seq<Branch>, k: nat) returns (r: Option<seq<seq<PooledRow>>>)
    requires forall i :: 0 <= i < |branches| ==> ValidBranch(branches[i], k)
    ensures r.None? <==> k == 0 && |branches| > 0
    ensures r.Some? ==> |r.value| == |branches|
    ensures r.Some? ==> forall i :: 0 <= i < |branches| ==>
      && r.value[i] == BranchRows(branches[i].picked, branches[i].frames)
      && |r.value[i]| == k
      && forall j :: 0 <= j < k ==> RowInClip(r.value[i][j], branches[i].frames)
  {
    var pooled: seq<seq<PooledRow>> := [];
    for i := 0 to |branches|
      invariant |pooled| == i
      invariant i > 0 ==> k > 0
      invariant forall m :: 0 <= m < i ==> pooled[m] == BranchRows(branches[m].picked, branches[m].frames)
    {
      var b := branches[i];
      if k == 0 {
        return None;
      }
      var s := SortAscending(b.picked);
      var se := BuildSegments(s, b.frames);
      var rows := PoolRows(se);
      pooled := pooled + [rows];
    }
    forall i | 0 <= i < |branches|
      ensures forall j :: 0 <= j < k ==> RowInClip(pooled[i][j], branches[i].frames)
    {
      BranchRowsInClip(branches[i].picked, branches[i].frames);
    }
    r := Some(pooled);
  }
}
