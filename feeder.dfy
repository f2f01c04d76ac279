/** The per-sample reading of `BaseFeeder` in dataset/dataloader_video.py:
    the gloss-string parsing shared by `read_memmap`, `read_numpy` and
    `read_video`, the frame subsampling of `read_video`, and `__len__`. */
module Feeder {
  import opened Wrappers

  /** The gloss dictionary: gloss word to its entry, whose first item is the gloss id. */
  type GlossDict = map<string, seq<int>>

  datatype ParseError = EmptyEntry(gloss: string)  // `dict[phase][0]` of an empty entry

  // ---------------------------------------------------------------------------
  // Python's `s.split(" ")`.

  /** The pieces of `s` between single spaces; consecutive spaces give empty pieces. */
  function SplitSpaces(s: string): (r: seq<string>)
    ensures |r| > 0
  {
    if s == [] then [""]
    else
      var rest := SplitSpaces(s[1..]);
      if s[0] == ' ' then [""] + rest else [[s[0]] + rest[0]] + rest[1..]
  }

  /** `" ".join(pieces)`. */
  function JoinSpaces(pieces: seq<string>): string
    requires |pieces| > 0
  {
    if |pieces| == 1 then pieces[0] else pieces[0] + " " + JoinSpaces(pieces[1..])
  }

  /** Splitting loses nothing: joining the pieces with single spaces gives the string back,
      and no piece contains a space. */
  lemma {:induction false} SplitSpacesRoundTrip(s: string)
    ensures JoinSpaces(SplitSpaces(s)) == s
    ensures forall k :: 0 <= k < |SplitSpaces(s)| ==> ' ' !in SplitSpaces(s)[k]
  {
    if s != [] {
      var rest := SplitSpaces(s[1..]);
      SplitSpacesRoundTrip(s[1..]);
      if s[0] == ' ' {
        assert ([""] + rest)[1..] == rest;
      } else {
        var r := [[s[0]] + rest[0]] + rest[1..];
        if |rest| == 1 {
          assert s == [s[0]] + s[1..];
        } else {
          assert r[1..] == rest[1..];
          assert JoinSpaces(rest) == rest[0] + " " + JoinSpaces(rest[1..]);
          assert s == [s[0]] + s[1..];
        }
        forall k | 0 <= k < |r| ensures ' ' !in r[k] {
          if k > 0 { assert r[k] == rest[k]; }
        }
      }
    }
  }

  // ---------------------------------------------------------------------------
  // Gloss ids of a label string, lines 89-94 (and 112-117, 134-139).

  /** Whether a piece of the label yields an id: not empty, and a dictionary word. */
  predicate Kept(piece: string, dict: GlossDict)
  {
    piece != "" && piece in dict
  }

  /** The ids of the kept pieces, in order; an empty entry for a kept piece is an error. */
  function GlossIds(pieces: seq<string>, dict: GlossDict): Result<seq<int>, ParseError>
  {
    if pieces == [] then Ok([])
    else match GlossIds(pieces[..|pieces| - 1], dict)
      case Err(e) => Err(e)
      case Ok(ids) =>
        var p := pieces[|pieces| - 1];
        if !Kept(p, dict) then Ok(ids)
        else if dict[p] == [] then Err(EmptyEntry(p))
        else Ok(ids + [dict[p][0]])
  }

  /** The number of kept pieces. */
  function KeptCount(pieces: seq<string>, dict: GlossDict): nat
  {
    if pieces == [] then 0
    else KeptCount(pieces[..|pieces| - 1], dict) + (if Kept(pieces[|pieces| - 1], dict) then 1 else 0)
  }

  /** Parsing fails exactly when a kept piece has an empty entry; otherwise
      there is one id per kept piece, so never more ids than pieces. */
  lemma {:induction false} GlossIdsCount(pieces: seq<string>, dict: GlossDict)
    ensures GlossIds(pieces, dict).Err? <==>
      exists k :: 0 <= k < |pieces| && Kept(pieces[k], dict) && dict[pieces[k]] == []
    ensures GlossIds(pieces, dict).Ok? ==>
      |GlossIds(pieces, dict).value| == KeptCount(pieces, dict) <= |pieces|
  {
    if pieces != [] {
      var init := pieces[..|pieces| - 1];
      GlossIdsCount(init, dict);
      assert forall k :: 0 <= k < |init| ==> init[k] == pieces[k];
      if GlossIds(init, dict).Err? {
        var k :| 0 <= k < |init| && Kept(init[k], dict) && dict[init[k]] == [];
        assert pieces[k] == init[k];
      }
    }
  }

  /** Parsing works piece by piece and keeps the order: the ids of two runs of
      pieces are the ids of the first run followed by those of the second. */
  lemma {:induction false} GlossIdsAppend(a: seq<string>, b: seq<string>, dict: GlossDict)
    requires GlossIds(a, dict).Ok? && GlossIds(b, dict).Ok?
    ensures GlossIds(a + b, dict) == Ok(GlossIds(a, dict).value + GlossIds(b, dict).value)
    decreases |b|
  {
    if b == [] {
      assert a + b == a;
      assert GlossIds(a, dict).value + [] == GlossIds(a, dict).value;
    } else {
      var b', p := b[..|b| - 1], b[|b| - 1];
      assert (a + b)[..|a + b| - 1] == a + b';
      assert (a + b)[|a + b| - 1] == p;
      assert GlossIds(b', dict).Ok?;
      GlossIdsAppend(a, b', dict);
      var ia, ib' := GlossIds(a, dict).value, GlossIds(b', dict).value;
      if Kept(p, dict) {
        assert dict[p] != [];
        assert ia + ib' + [dict[p][0]] == ia + (ib' + [dict[p][0]]);
      }
    }
  }

  /** A single piece yields `dict[piece][0]` when kept, and nothing otherwise. */
  lemma GlossIdsSingle(p: string, dict: GlossDict)
    ensures GlossIds([p], dict) ==
      if !Kept(p, dict) then Ok([]) else if dict[p] == [] then Err(EmptyEntry(p)) else Ok([dict[p][0]])
  {
    assert [p][..0] == [];
    assert GlossIds([], dict) == Ok([]);
    if Kept(p, dict) && dict[p] != [] {
      assert [] + [dict[p][0]] == [dict[p][0]];
    }
  }

  /** The loop of lines 89-94: the ids of a label string. */
  method ParseLabel(glossText: string, dict: GlossDict) returns (r: Result<seq<int>, ParseError>)
    ensures r == GlossIds(SplitSpaces(glossText), dict)
  {
    var pieces := SplitSpaces(glossText);
    var ids: seq<int> := [];
    for i := 0 to |pieces|
      invariant GlossIds(pieces[..i], dict) == Ok(ids)
    {
      assert pieces[..i + 1][..i] == pieces[..i];
      var phase := pieces[i];
      if phase == "" {
        continue;
      }
      if phase in dict {
        if dict[phase] == [] {
          r := Err(EmptyEntry(phase));
          GlossErrorSticks(pieces, i + 1, dict);
          return;
        }
        ids := ids + [dict[phase][0]];
      }
    }
    assert pieces[..|pieces|] == pieces;
    r := Ok(ids);
  }

  lemma {:induction false} GlossErrorSticks(pieces: seq<string>, n: nat, dict: GlossDict)
    requires n <= |pieces| && GlossIds(pieces[..n], dict).Err?
    ensures GlossIds(pieces, dict) == GlossIds(pieces[..n], dict)
    decreases |pieces| - n
  {
    if n < |pieces| {
      assert pieces[..n + 1][..n] == pieces[..n];
      GlossErrorSticks(pieces, n + 1, dict);
    } else {
      assert pieces[..n] == pieces;
    }
  }

  // ---------------------------------------------------------------------------
  // Frame subsampling of `read_video`, line 133.

  /** Python's slice `frames[start::step]`; `read_video` takes it with `step`
      the frame interval and `start` a random offset below it. */
  function SliceStep<T>(frames: seq<T>, start: nat, step: nat): seq<T>
    requires step > 0
    decreases |frames| - start
  {
    if start >= |frames| then [] else [frames[start]] + SliceStep(frames, start + step, step)
  }

  /** The slice keeps frames `start`, `start + step`, ... */
  lemma {:induction false} SliceStepAt<T>(frames: seq<T>, start: nat, step: nat, j: nat)
    requires step > 0 && j < |SliceStep(frames, start, step)|
    ensures start + j * step < |frames|
    ensures SliceStep(frames, start, step)[j] == frames[start + j * step]
    decreases j
  {
    if j > 0 {
      SliceStepAt(frames, start + step, step, j - 1);
      assert start + step + (j - 1) * step == start + j * step;
    }
  }

  /** ... and stops at the first position past the end: none of those positions
      inside the clip is skipped. */
  lemma {:induction false} SliceStepLength<T>(frames: seq<T>, start: nat, step: nat)
    requires step > 0
    ensures start >= |frames| ==> SliceStep(frames, start, step) == []
    ensures start < |frames| ==> |frames| <= start + |SliceStep(frames, start, step)| * step
    decreases |frames| - start
  {
    if start < |frames| {
      var rest := SliceStep(frames, start + step, step);
      assert |SliceStep(frames, start, step)| == |rest| + 1;
      SliceStepLength(frames, start + step, step);
      MulSucc(|rest|, step);
    }
  }

  lemma MulSucc(n: nat, s: nat)
    ensures (n + 1) * s == n * s + s
  {
  }

  // ---------------------------------------------------------------------------
  // `__len__`, lines 244-245.

  /** The number of samples: one less than the entries of the info file.
      Python's `len` raises on a negative length, so an empty info file has
      no length. */
  function SampleCount(entries: nat): (r: Option<nat>)
    ensures r.Some? <==> entries > 0
    ensures r.Some? ==> r.value + 1 == entries
  {
    if entries == 0 then None else Some(entries - 1)
  }
}
