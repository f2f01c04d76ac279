# Batch collation, gloss parsing and segment bookkeeping of a slow-fast sign-language recogniser

This project models the discrete logic of a continuous sign-language recognition
system. That system has a slow-fast video backbone, temporal convolutions, a BiLSTM
and CTC losses. Everything numeric (frames, features, similarity scores, loss
values) is an input here. What is modelled and proved is the index and sequence
bookkeeping around those numbers:

- **`Collate`** (`BaseFeeder.collate_fn`). It orders a batch longest clip first.
  It scans the layer codes (`'K5'`, `'P2'`, …) into a left pad and a total
  stride. In the image branch it rounds every clip length up to a stride
  multiple, adds the pad on both sides, and pads every clip by repeating its
  edge frames. In the feature branch it pads every clip on the right. It then
  flattens the gloss labels.
- **`Feeder`** (`BaseFeeder.read_*`, `__len__`). It turns a space-separated
  gloss string into gloss ids through the gloss dictionary. It also covers the
  strided frame subsampling of `read_video` and the sample count.
- **`Segments`** (`SLRModel.forward`). The boundary frames chosen by `topk` are
  sorted, turned into one `(start, end)` segment per gloss, and pooled into one
  row per segment. It also covers the one-frame `roll` that the similarity
  compares against.
- **`MaskedBn`** (`SLRModel.masked_bn`). It gathers the valid frames of a
  padded batch, runs the network on them, and re-pads the result with zeros.
- **`Criterion`** (`SLRModel.criterion_calculation`). It decides which named
  loss terms the loss weights switch on, and sums them.
- **`Seqs`** and **`Wrappers`** hold shared helpers: sums, concatenation and
  `Option`/`Result`.

Frames are values of an opaque type parameter. Loss values and weights are
exact `real`s. The image/feature branch test of `collate_fn`
(`len(video[0].shape) > 3`) becomes the boolean `imageClips`. The module-level
`kernel_sizes` becomes the parameter `codes`.

Where the code raises, the model returns an error value:

- an empty batch;
- an unreadable layer code;
- a `'P0'` code, which divides by zero in the image branch;
- a clip with no frames;
- a gloss-dictionary entry with no id;
- a `Slow`/`Fast` loss weight without a `SeqCTC` weight.

The model does not claim any of these are bugs.

## Model

| member | source | states |
|---|---|---|
| Collate.SortByLengthCorrect | dataset/dataloader_video.py:194 | The sorted batch is longest clip first and a permutation of the batch. Clips of equal length keep their batch order, as Python's stable `sorted(..., reverse=True)` does. |
| Collate.ScanOutcome | dataset/dataloader_video.py:197-207 | The code scan fails iff some code is malformed: empty, or a `K`/`P` code without a digit second. The error names the first malformed position. On success the total stride is the product of all pool sizes. |
| Collate.ScanZeroStride | dataset/dataloader_video.py:201-211 | A successful scan has total stride 0 iff some code is a well-formed `P0`, the case in which line 211 divides by zero. |
| Collate.ScanIgnoresOtherCodes | dataset/dataloader_video.py:201-207 | A non-empty code that starts with neither `K` nor `P` leaves left pad, last stride and total stride unchanged. |
| Collate.ScanReadsTwoCharacters | dataset/dataloader_video.py:202-206 | Only the first two characters of each code matter: truncating every code to them gives the same scan. |
| Collate.DefaultKernelScan | dataset/dataloader_video.py:264 | The configuration `['K5','P2','K5','P2']` yields left pad 6, last stride 2, total stride 4. |
| Collate.ScanKernelCodes | dataset/dataloader_video.py:197-207 | The loop computes exactly the scan: `K<d>` sets `left_pad := left_pad*last_stride + int((d-1)/2)`, and `P<d>` sets `last_stride := d` and multiplies `total_stride` by `d`. |
| Collate.TruncHalf | dataset/dataloader_video.py:204 | `int(x/2)` truncates toward zero (bounds for both signs), so `K0` and `K1` add no padding. |
| Collate.RoundUp | dataset/dataloader_video.py:211 | `ceil(n/s)*s` is a multiple of `s` in `[n, n+s)`. |
| Collate.RoundUpMonotonic | dataset/dataloader_video.py:210-212 | Rounding up keeps order, so the longest clip gets the largest rounded length. |
| Collate.PadEdges | dataset/dataloader_video.py:214-221 | A padded clip is `left` copies of the first frame, then the clip unchanged, then copies of the last frame up to the target length. |
| Collate.EdgePaddedIsClamped | dataset/dataloader_video.py:214-221 | Edge padding reads the clip at a clamped index: padded frame `t` is clip frame `clamp(t-left, 0, n-1)`. |
| Collate.PaddedLengthsBounded | dataset/dataloader_video.py:210-213 | Every `video_length[i]` is at least the clip length plus twice the left pad, and at most `video_length[0]`. |
| Collate.PadImageBatch | dataset/dataloader_video.py:208-222 | Image branch: `video_length[i] = ceil(len_i/stride)*stride + 2*left_pad`. The common padded length, computed through `right_pad`, equals `video_length[0]`. Each clip is edge-padded to it at offset `left_pad`. |
| Collate.PadFeatureBatch | dataset/dataloader_video.py:223-233 | Feature branch: lengths are the raw frame counts, and each clip is extended on the right only, with its last frame, to the longest clip's length. |
| Collate.SplitConcat | dataset/dataloader_video.py:234-242 | The flat label list is `sum(label_length)` long. Cutting it back by `label_length` recovers every label. |
| Collate.FlattenLabels | dataset/dataloader_video.py:238-241 | The `extend` loop yields the labels back to back, in sorted-batch order. |
| Collate.CollateLabels | dataset/dataloader_video.py:234-242 | `label_length` holds every label's length in sorted-batch order; when all are zero the labels are `[]`/`[]`, else the flat list is the labels back to back and is `sum(label_length)` long. |
| Collate.CollateFn | dataset/dataloader_video.py:193-242 | Collation fails iff the batch is empty, the codes are malformed, a `P0` stride meets the image branch, or a clip is empty, in that order. Otherwise the clips are padded per branch and the infos follow the sorted order. Labels give `[]`/`[]` when all are empty, else the flat list and per-label lengths. |
| Feeder.SplitSpacesRoundTrip | dataset/dataloader_video.py:90 | `split(" ")` loses nothing: joining the pieces with single spaces restores the string, and no piece contains a space. |
| Feeder.GlossIdsCount | dataset/dataloader_video.py:89-94 | Parsing fails iff a kept token (non-empty and in the dictionary) has an empty entry. Otherwise there is exactly one id per kept token, so no more ids than tokens. |
| Feeder.GlossIdsAppend | dataset/dataloader_video.py:89-94 | Parsing is token by token and keeps order: the ids of two token runs are the first run's ids followed by the second's. |
| Feeder.GlossIdsSingle | dataset/dataloader_video.py:91-94 | A single token gives nothing if it is empty or not in the dictionary, else `dict[token][0]`. |
| Feeder.ParseLabel | dataset/dataloader_video.py:89-94 | The loop, shared with lines 112-117 and 134-139, computes exactly the parse of the split label string. |
| Feeder.SliceStepAt | dataset/dataloader_video.py:133 | Element `j` of `frames[offset::interval]` is frame `offset + j*interval`. |
| Feeder.SliceStepLength | dataset/dataloader_video.py:133 | The slice is empty when the offset is past the clip. Otherwise it runs until the next kept position falls past the end, so no in-range position is skipped. |
| Feeder.SampleCount | dataset/dataloader_video.py:244-245 | The sample count is one less than the number of info entries, and undefined (Python's `len` raises) for no entries. |
| Segments.Roll | slr_network_multi_add_block_sim.py:133 | `roll(1, 0)`: `r[t] = x[(t-1) mod n]`, so frame 0 is compared with the last frame. |
| Segments.SortAscendingCorrect | slr_network_multi_add_block_sim.py:135-137 | Sorting distinct chosen indices gives them strictly ascending, with none lost or added. |
| Segments.BuildSegments | slr_network_multi_add_block_sim.py:138-145 | The loop yields exactly `k` segments. Segment `j` is `(0, s0)` for `j = 0` (also when `k = 1`), `(s_{k-1}, n-1)` for the last, else `(s_{j-1}, s_j)`. |
| Segments.SegmentBounds | slr_network_multi_add_block_sim.py:138-145 | For ascending boundaries inside the clip, every segment has `0 <= start <= end <= n-1`. |
| Segments.SegmentShape | slr_network_multi_add_block_sim.py:139-145 | The first segment is `(0, s0)` and for `k >= 2` the last is `(s_{k-1}, n-1)`. Middle segments chain end to start. The last segment starts strictly after the one before it ends. |
| Segments.SegmentCoverage | slr_network_multi_add_block_sim.py:138-153 | For `k = 1` a frame is averaged into some row iff `t < s0`. For `k >= 2` it is iff `t < s_{k-2}` or `s_{k-1} <= t < n-1`, so the frames between the last two boundaries, and the last frame, are in no mean. |
| Segments.PoolRows | slr_network_multi_add_block_sim.py:146-153 | Exactly one row per segment: the mean over `[start, end)` when `end != start`, else frame `start` alone. |
| Segments.BranchRowsInClip | slr_network_multi_add_block_sim.py:135-153 | Given `k` distinct chosen frames of an `n`-frame clip, each of the `k` rows reads only frames of the clip, and a mean covers a non-empty range. |
| Segments.PoolBranches | slr_network_multi_add_block_sim.py:130-155 | Over all branches, each pooled feature has exactly `k = label_lgt[0]` rows, all inside its clip. With `k = 0` the concatenation fails. |
| MaskedBn.GatherAt | slr_network_multi_add_block_sim.py:116 | Valid frame `t` of clip `idx` (`inputs[L0*idx + t]`) sits in the gathered run at `sum(len_x[:idx]) + t`. |
| MaskedBn.GatherLength | slr_network_multi_add_block_sim.py:116 | The gathered run has `sum(len_x)` frames. |
| MaskedBn.ShortLastClipAdmitted | slr_network_multi_add_block_sim.py:116 | A batch `len_x = [3, 1]` over four frames is admitted and gathers all four, since the last slice `inputs[3:4]` needs no padding after it. |
| MaskedBn.Pad | slr_network_multi_add_block_sim.py:112-114 | `pad` keeps the frames and fills with zero frames up to the length. |
| MaskedBn.PieceAt | slr_network_multi_add_block_sim.py:118-119 | Piece `idx` is the run `[sum(len_x[:idx]), sum(len_x[:idx+1]))` zero-padded to `L0`. |
| MaskedBn.MaskedBnAt | slr_network_multi_add_block_sim.py:111-120 | The output has `|len_x|*L0` frames. In clip `idx` the first `len_x[idx]` frames are the network's outputs for that clip's valid frames, in order, and the rest are zero. |
| MaskedBn.MaskedBnIgnoresPadding | slr_network_multi_add_block_sim.py:111-120 | Two padded batches whose clips agree on their valid frames give the same output: the network never sees padding frames. |
| Criterion.TermsForNames | slr_network_multi_add_block_sim.py:186-236 | The terms one weight key adds are named exactly as the key table says, with no name twice. |
| Criterion.ProducerUnique | slr_network_multi_add_block_sim.py:186-236 | No loss name can come from two different weight keys. |
| Criterion.AllTermsFails | slr_network_multi_add_block_sim.py:193-195 | The calculation fails iff some weight is `Slow` or `Fast` and there is no `SeqCTC` weight, and the error is that missing key. |
| Criterion.AllTermsNameSet | slr_network_multi_add_block_sim.py:185-236 | The `total_loss` keys are exactly those the key table gives for the weights present. `SeqCTC`→`SeqCTC`. `Slow`/`Fast`→`Slow_1`/`Fast_2`, plus `ConvCTC_i` with a `ConvCTC` weight and `Dist_i` with a `Dist` weight. `ConvCTC`→`ConvCTC`, `Dist`→`Dist`, `Cosine`→`Cosine_0..2`. Any other key gives nothing. |
| Criterion.AllTermsNamesDistinct | slr_network_multi_add_block_sim.py:184-236 | With distinct weight keys no `total_loss` entry is written twice, so each term is added to `loss` exactly once. |
| Criterion.WeightTerms | slr_network_multi_add_block_sim.py:186-236 | One pass of the loop body computes exactly the key's terms, each value scaled as the source does (`Slow`/`Fast` by both weights), or the missing-key error. |
| Criterion.CriterionCalculation | slr_network_multi_add_block_sim.py:182-237 | The loop yields the terms of all weights in dictionary order, or the first error. The returned `loss` is the sum of all `total_loss` values. |

## Left out

- Neural layers are not modelled: the slow-fast backbone, the temporal convolutions, `Attention`, the BiLSTM, the classifiers and the gloss encoder. They are tensor numerics of an external framework.
- MaskedBn.MaskedBn: `self.conv2d` is an arbitrary function from a run of frames to a run of as many frames. Its arithmetic, including batch-norm statistics, is not modelled.
- Floating point is not modelled: losses and weights are exact reals, so float rounding of the sums in `criterion_calculation` is not captured.
- The cosine similarities, `topk` scoring and tie-breaking, `avg_pool1d`, and the CTC, distillation and cosine losses are inputs, not computed.
- Segments.PoolBranches: the chosen indices are taken as `topk` delivers them (distinct, inside the clip, `label_lgt[0]` of them). `topk` with `k` above the frame count raises in the framework and is not modelled.
- Segments.PoolBranches: the model follows one sample per batch, as `forward`'s `squeeze` and `topk` over the time axis do.
- Collate.CollateFn: tensors become sequences of opaque frames. `torch.stack`, `permute` and `LongTensor` are layout only and are not modelled.
- Collate.RoundUp: `np.ceil` on a float quotient is modelled as exact integer ceiling. Float error for lengths beyond 2^53 is not captured.
- Collate.DigitValue: only ASCII digits are modelled. Python's `int` also accepts other Unicode decimal digits.
- Feeder.SliceStep: the random offset `torch.randint(0, frame_interval)` is a parameter. A zero `frame_interval` (where `randint` and the slice raise) is excluded by the precondition.
- I/O is not modelled: `np.load`, `cv2`, `glob`, `np.memmap`, `pickle`, `init_memmap`, `byte_to_img`, and the timing helpers.
- Augmentation (`video_augmentation`), `normalize`'s float scaling and beam-search decoding are external or numeric code.
- The `__main__` debug block is not modelled beyond the layer-code configuration it passes (see `Collate.DefaultKernelScan`).
- MaskedBn.MaskedBn: an empty `len_x` is excluded by the precondition; in the source the first `torch.cat` of line 116 then gets an empty list and raises, and that error is not modelled.
- MaskedBn.MaskedBn: the precondition asks for `len_x[0] * (|len_x| - 1) + len_x[-1]` frames, the end of the last slice of line 116, so that every slice is read in full; a longer buffer is allowed and its extra frames are never read. It also asks that `len_x[0]` be the largest entry. Outside these bounds the source's slices clamp: a block read short either silently drops frames that `len_x` calls valid (and `pad` fills the gap with zeros), or, when a block longer than `len_x[0]` is read in full, `pad` raises. Neither outcome is modelled.
