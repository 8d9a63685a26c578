# Segment builder model

This project is a Dafny model of `build_candidates`, the segment builder of the clip tool. It turns loudness peaks into candidate clip windows in three steps:

1. It centres a window of `clip_duration` seconds on each peak. It then shifts the window, without shrinking it, into `[0, video_duration]`. When the video is shorter than a clip, the window is the whole video.
2. It sorts the windows by start, in place.
3. It sweeps them left to right. A window is absorbed into the last accumulated window when its start is no later than that window's end plus `merge_margin`. Absorbing raises only the end.

Everything lives in module `Segmenter` in `segmenter.dfy`, and times are `real`. The source's loops have the same shape in the model:

- `ClampPeak` reassigns `start` and `end` step by step.
- `RawWindows` appends one window per peak.
- `SortByStart` is an in-place insertion sort on an `array<Window>`.
- `MergeSweep` appends to its accumulator or overwrites its last element.

Each method is proved against a specification function:

- `Clamp` gives the clamped window case by case.
- `Absorb` is one step of the sweep.
- `Sweep` is the left fold of `Absorb`.

The properties of the builder are lemmas about these functions. `BuildCandidates` collects them in its postcondition.

The merge can be described as a partition of the sorted windows into runs. The ghost function `Cuts` gives the input position that opened each output window. `MergesRuns` states that each output window starts at its run's first start and ends at the largest end in the run (`RunEnd`).

Where the docstring and the code disagree, the model follows the code:

- The docstring at scripts/segmenter.py:16 says segments "closer than" the margin merge. The test at scripts/segmenter.py:51 is `<=`, so a gap exactly equal to the margin also merges. `Absorb` uses `<=`.
- The code validates nothing. The model demands only `clip_duration > 0` and `video_duration >= 0`, so a zero-length video is accepted. Any `merge_margin` is accepted, including a negative one, and separation is proved for every sign of the margin.

## Model

| member | source | states |
|---|---|---|
| Segmenter.ClampFitsVideo | scripts/segmenter.py:19-36 | The clamped window lies in `[0, video_duration]`. It is exactly `clip_duration` long when the video is at least that long, and it is `(0, video_duration)` otherwise. It contains its peak when the peak is within the video. It stays centred on the peak when the centred window already fits. |
| Segmenter.ClampPeak | scripts/segmenter.py:27-36 | The source's sequence of reassignments (centre, fix the left edge with `min`, then fix the right edge with `max`) yields the case-by-case `Clamp` window. |
| Segmenter.RawWindows | scripts/segmenter.py:21-38 | The raw list has one window per peak, in peak order, and window `i` is the clamp of peak `i`. |
| Segmenter.ClampTiesIdentical | scripts/segmenter.py:27-41 | Two clamped windows with the same start are the same window, so the order a sort leaves among ties cannot be observed. |
| Segmenter.SortByStart | scripts/segmenter.py:41 | After the in-place sort the array is ordered by start and is a permutation (same multiset) of the array before. |
| Segmenter.SortedPermutationUnique | scripts/segmenter.py:41 | Two sorted permutations of a list whose ties are identical are equal, so every correct sort of the raw windows gives the same list. |
| Segmenter.Absorb | scripts/segmenter.py:46-55 | One sweep step either keeps the number of accumulated windows or adds one. It never alters any accumulated window except the last. |
| Segmenter.Sweep | scripts/segmenter.py:44-57 | The sweep gives at most one output window per input window, and gives an empty output exactly for an empty input. |
| Segmenter.MergeSweep | scripts/segmenter.py:44-57 | The merge loop, which appends or overwrites `merged[-1]`, returns exactly the left fold `Sweep` of the sorted windows. |
| Segmenter.RunEndIsMax | scripts/segmenter.py:52-53 | `RunEnd` of a run is the end of one of its windows, and no window of the run ends later. It is the run's maximum end. |
| Segmenter.SweepMergesRuns | scripts/segmenter.py:45-55 | The opening positions split the input into consecutive non-empty runs starting at 0. Output window `k` starts where run `k`'s first window starts and ends at the largest end in run `k`. |
| Segmenter.SweepSeparated | scripts/segmenter.py:51-55 | Consecutive output windows satisfy `next.start > prev.end + merge_margin`, for any sign of the margin. |
| Segmenter.SweepFixesSeparated | scripts/segmenter.py:44-55 | A list that is already separated by more than the margin passes through the sweep unchanged. |
| Segmenter.SweepFixedIffSeparated | scripts/segmenter.py:44-55 | The sweep leaves a list unchanged if and only if the list is separated by more than the margin. |
| Segmenter.SweepIdempotent | scripts/segmenter.py:44-55 | Sweeping the output again with the same margin returns it unchanged. |
| Segmenter.SweepOpenedByInput | scripts/segmenter.py:49-53 | Every output window starts where some input window starts and ends no earlier than that window. The merge keeps `prev_start` and only raises the end through `max`. |
| Segmenter.SweepKeepsSorted | scripts/segmenter.py:41-55 | Over input sorted by start, the output is sorted by start. |
| Segmenter.SweepAbsorbedInto | scripts/segmenter.py:49-55 | Input window `i` ends no later than some output window, and that output window was opened by an input window at a position no later than `i`. |
| Segmenter.SweepCoversInput | scripts/segmenter.py:41-55 | Over input sorted by start, every input window lies inside some output window. |
| Segmenter.SweepInBounds | scripts/segmenter.py:49-55 | When every input window is within `[0, video_duration]`, so is every output window. |
| Segmenter.RawWindowsFit | scripts/segmenter.py:21-38 | Every raw window is within the video. When the video is at least a clip long, every raw window is at least `clip_duration` long. |
| Segmenter.CandidatesShape | scripts/segmenter.py:41-57 | The merge of a sorted arrangement of the raw windows has the following shape: it is empty exactly when there are no raw windows; it has at most as many windows as raw windows; it is sorted by start; it is separated by more than the margin; and it is a fixed point of the sweep. |
| Segmenter.CandidatesCoverRaw | scripts/segmenter.py:41-55 | Every raw window lies inside some output window, and every output window starts where some raw window starts. |
| Segmenter.CandidatesFit | scripts/segmenter.py:27-55 | Output windows stay within the video and are at least as long as the raw windows are. |
| Segmenter.BuildCandidates | scripts/segmenter.py:3-57 | The whole builder proceeds as follows. Raw window `i` is the clamp of peak `i`. The sorted list is a permutation of the raw list, ordered by start. The result is the sweep of the sorted list. The result is empty exactly when there are no peaks and has at most one window per peak. Every output window is within `[0, video_duration]`. The output is sorted and separated by more than the margin. It covers every raw window, and each output window is opened by a raw window. Each window is at least `clip_duration` long when the video is. Sweeping the result again changes nothing. |
| Segmenter.NearbyPeaksMerge | scripts/segmenter.py:19-57 | Peaks 5, 6 and 50, with a 10 s clip, a 60 s video and a 1 s margin, give the raw windows (0,10), (1,11) and (45,55). Any sorted arrangement of them merges to (0,11) and (45,55). |
| Segmenter.SinglePeakKept | scripts/segmenter.py:19-57 | A single peak yields exactly its clamped window, whatever the margin. |
| Segmenter.ClampScenarios | scripts/segmenter.py:27-36 | With a 10 s clip, peak 2 in a 60 s video gives (0,10) and peak 58 gives (50,60). Any peak in an 8 s video gives (0,8). |

## Left out

- Double-precision rounding: times are `real`, so the IEEE-754 effects of `t - half`, `t + half` and `end - clip_duration` are not reproduced.
- SortByStart: its contract states ordering and permutation, not stability. The insertion sort moves a window only past strictly later starts, so it is stable. Ties are unobservable anyway: tied windows are identical (ClampTiesIdentical), and every sorted permutation is the same list (SortedPermutationUnique).
- BuildCandidates: sorting and merging are proved from the start of each window; the source's key function `seg[0]` is the same field. Python's list aliasing and the tuple representation are not modelled. Lists are Dafny sequences, and the sort works on an array copy of the raw list.
- scripts/analysis.py is not part of this model. Its peak detection is a wrapper over library audio loading, RMS framing and an unstable `argsort` over floating-point values, and its behaviour is defined by those libraries.
- clipper.py is not part of this model. It is the command-line driver: argument parsing, an `ffprobe` subprocess, file checks and printing.
- scripts/renderer.py is not part of this model. It runs `ffmpeg` subprocesses and creates directories; the `segments[:max_clips]` truncation around that I/O is trivial.
- scripts/downloader.py is not part of this model. It runs a `yt-dlp` subprocess and globs files by modification time.
- Input validation: the source rejects nothing. `clip_duration > 0` and `video_duration >= 0` are preconditions, and a non-positive clip length or a negative video length is outside the model.
