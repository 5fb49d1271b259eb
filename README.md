# Chunked data generator: a verified model

This project models the data-loading adapter of a physics-analysis toolkit.
The adapter hands columnar event data to a training loop in chunks. The
modelled code is `tools/DataGenerator.py`. It has two parts:

- `chunk(tot, n_split, index)` splits `tot` items into `n_split` contiguous
  half-open ranges `[start, stop)`. With `d = tot // n_split` and
  `r = tot % n_split`, the first `r` ranges hold `d + 1` items and the rest
  hold `d`. This is module `Chunking` in `chunk.dfy`.
- The `DataGenerator` class. Its constructor collects the `.root` input files
  and checks the splitting strategy and the split count. This is module
  `Setup` in `setup.dfy`, with `Generator.NewDataGenerator`. Its `load`
  picks the slice of the event array for a chunk index, applies the optional
  `small` cap and records the index and the slice. Its `__getitem__` serves
  the recorded slice again or loads a new one. These are class
  `Generator.DataGenerator` in `generator.dfy`.

What is proved:

- The chunks follow the intended size list `[d+1]*r + [d]*(n_split-r)`. Each
  chunk starts at the sum of the sizes before it.
- The chunks are contiguous, start at 0, stop at `tot`, and lie in order
  without overlap.
- Concatenated in index order, the chunk slices rebuild the sliced sequence.
  Under the `events` strategy, the batches for indices `0 .. n_split-1`
  therefore hand out every selected event exactly once, in order.
- Constructor checks: which configurations are accepted, and the per-file
  substitution. A negative `n_split` with the exact strategy `"files"`
  becomes the number of input files. That substitution fails on an empty
  file list. It does not happen for `"Files"`, which still passes the
  case-insensitive strategy check.
- `load` and `__getitem__`: which range is served under each strategy, what
  the cap does, the error paths, and what state is recorded.

Behaviour of the code that the model keeps as written:

- `chunk` never checks its arguments. Here `0 < n_split` and
  `0 <= index < n_split` are preconditions. A caller might expect an
  invalid-argument error for such input; the code has no such check.
- Under the `"files"` strategy, `load` computes a file range and never uses it.
  Every file is read and the whole filtered array is returned for any index.
- `load` with a negative index serves the whole array but records chunk index
  0. Afterwards, `__getitem__(0)` returns that whole array from the cache
  instead of chunk 0 (`LoadAllThenItemZero`, from the contracts of `Load` and
  `GetItem`).
- The failed split check formats its message with an undefined name, so it
  raises a name error instead of the intended runtime error. The model reports
  every split failure as `BadSplit`.
- A selection on an empty array fails: the efficiency report at line 109
  divides by zero.
- `__getitem__(-1)` before any load finds no stored data (`NoDataLoaded`).

## Model

| member | source | states |
|---|---|---|
| Chunking.Chunk | tools/DataGenerator.py:14-27 | the size of chunk `index` is the entry at `index` of the intended size list `[d+1]*r + [d]*(n_split-r)` |
| Chunking.ReferenceSizes | tools/DataGenerator.py:23 | the intended size list has `n_split` entries, `d + 1` at indices below `r` and `d` from `r` on |
| Chunking.ChunkSize | tools/DataGenerator.py:20-27 | every chunk holds `d` or `d + 1` items; it holds `d + 1` exactly when its index is below `r`; its size is the entry of `[d+1]*r + [d]*(n_split-r)` at its index |
| Chunking.LargerChunksFirst | tools/DataGenerator.py:20-25 | a chunk is never smaller than a later chunk |
| Chunking.ChunksContiguous | tools/DataGenerator.py:24-27 | chunk `i` stops where chunk `i + 1` starts |
| Chunking.ChunksSpanTotal | tools/DataGenerator.py:24-27 | chunk 0 starts at 0 and chunk `n_split - 1` stops at `tot` |
| Chunking.ChunkStartIsPrefixSum | tools/DataGenerator.py:23-27 | each chunk starts at the sum of the reference sizes before it and stops at the sum up to and including its own |
| Chunking.ReferenceSizesSumToTotal | tools/DataGenerator.py:20-23 | the intended size list adds up to `tot` |
| Chunking.ChunkWithinTotal | tools/DataGenerator.py:14-27 | for `tot >= 0` every chunk satisfies `0 <= start <= stop <= tot` |
| Chunking.ChunksOrdered | tools/DataGenerator.py:24-27 | for `tot >= 0`, starts and stops grow with the index, and an earlier chunk stops no later than a later one starts (no overlap) |
| Chunking.PiecesArePrefix | tools/DataGenerator.py:24-27 | the slices of chunks `0 .. m-1`, concatenated, are the prefix of the sequence up to where chunk `m - 1` stops |
| Chunking.ChunksCoverSequence | tools/DataGenerator.py:14-27 | the slices of all chunks, concatenated in index order, rebuild the whole sequence: full coverage without gaps or overlaps |
| Chunking.FewItemsLeaveEmptyChunks | tools/DataGenerator.py:20-27 | with `tot < n_split`, chunk `i` is `[i, i+1)` for `i < tot` and the empty range at `tot` otherwise |
| Chunking.OneItemPerChunk | tools/DataGenerator.py:20-27 | splitting `n` items into `n` chunks gives chunk `i` the range `[i, i+1)` |
| Chunking.SingleChunkIsWhole | tools/DataGenerator.py:20-27 | a split into one chunk gives `[0, tot)` |
| Chunking.FirstChunkIsPartial | tools/DataGenerator.py:20-25 | with at least two chunks and two items, chunk 0 holds fewer than `tot` items |
| Chunking.TenInThree | tools/DataGenerator.py:14-27 | ten items in three chunks give `[0,4)`, `[4,7)`, `[7,10)` |
| Setup.JoinPath | tools/DataGenerator.py:57 | the joined path extends the directory and ends with the listed name |
| Setup.RootFilesIn | tools/DataGenerator.py:55-57 | a directory contributes at most as many files as it lists |
| Setup.ListRootFiles | tools/DataGenerator.py:55-57 | the loop over a directory listing returns exactly the joined `.root` entries of `RootFilesIn`, in listing order |
| Setup.InputFiles | tools/DataGenerator.py:49-59 | collection fails only with an unknown-input error |
| Setup.CollectInputFiles | tools/DataGenerator.py:49-59 | the constructor's loop returns exactly the file list of `InputFiles`, or the error naming the first unusable input |
| Setup.FailurePersists | tools/DataGenerator.py:58-59 | once an input is rejected, later inputs do not change the outcome |
| Setup.RootFilesInAreRootFiles | tools/DataGenerator.py:55-57 | every entry taken from a directory listing, joined to the directory, ends in `.root`, and every `.root` entry of the listing is taken, joined to the directory |
| Setup.InputFilesAreRootFiles | tools/DataGenerator.py:50-57 | every collected input file ends in `.root`; every input named `.root` is collected, and so is every joined `.root` entry of every directory input |
| Setup.InputFilesFailIff | tools/DataGenerator.py:50-59 | collection succeeds exactly when every input is a `.root` name or a directory; on failure the error names the first input that is neither |
| Setup.ResolveSplit | tools/DataGenerator.py:61-75 | an accepted split has a known strategy and a positive count; a failure is `UnknownStrategy` for an unknown strategy and `BadSplit` otherwise |
| Setup.ResolveSplitSucceedsIff | tools/DataGenerator.py:61-75 | the split is accepted exactly when the strategy is `files` or `events` ignoring case and either a positive int was given or the exact strategy `files` with a negative number and at least one file; the accepted count is positive and is the given int or the number of files; a failure is `UnknownStrategy` or `BadSplit` accordingly |
| Setup.PerFileSplitEdgeCases | tools/DataGenerator.py:62-75 | `files` with `-1` or `-1.0` gives the file count or fails on no files; `Files` with `-1` passes the strategy check but fails the split check; a float count such as `2.0` fails |
| Setup.Configure | tools/DataGenerator.py:48-75 | an accepted configuration has a known strategy, a positive split count and exactly the file list collection yields; an unknown-input failure is the failure of collection |
| Setup.ConfigureValid | tools/DataGenerator.py:48-75 | an accepted configuration has a known strategy, a positive split count and only `.root` files |
| Generator.Filter | tools/DataGenerator.py:107-108 | the filtered array is no longer than the input and holds only accepted events |
| Generator.FilterAppend | tools/DataGenerator.py:107-108 | filtering a concatenation is the concatenation of the filtered parts |
| Generator.FilterKeepsAccepted | tools/DataGenerator.py:107-108 | every accepted event is kept, in order: the accepted event at position `k` sits at the position given by the number of accepted events before it; everything is kept when all events are accepted |
| Generator.AcceptedEventKept | tools/DataGenerator.py:107-108 | filtering around an accepted event is the filtered prefix, that event, and the filtered suffix |
| Generator.Capped | tools/DataGenerator.py:116-117 | a positive `small` keeps the start and leaves at most `small` entries (exactly `small` when the range had that many); no cap or a non-positive one leaves the range unchanged |
| Generator.DataGenerator.constructor | tools/DataGenerator.py:61-81 | stores the checked configuration with recorded index -1 and no data |
| Generator.DataGenerator.Len | tools/DataGenerator.py:87-88 | the length is the configured split count, which is positive |
| Generator.DataGenerator.Selected | tools/DataGenerator.py:105-108 | the selected array is no longer than the read one and is the read one when there is no selection |
| Generator.DataGenerator.EntryRange | tools/DataGenerator.py:92-117 | the entry range `load` slices lies inside the selected array |
| Generator.DataGenerator.LoadResult | tools/DataGenerator.py:90-126 | a load fails only with `EmptyInputWithSelection`; it returns at most the selected array and at most `small` events under a positive cap |
| Generator.DataGenerator.Load | tools/DataGenerator.py:90-126 | returns the slice `LoadResult` describes; on success records the index (0 for a negative one) and the slice; on failure changes nothing |
| Generator.DataGenerator.GetItem | tools/DataGenerator.py:128-132 | for the recorded index returns the stored slice (or no data before any load) without changing state; otherwise behaves as an uncapped `Load` of that index |
| Generator.DataGenerator.SelectedKeepsAccepted | tools/DataGenerator.py:105-108 | under a selection the selected array holds only accepted events, and every accepted event of the read array appears in it, in order, at the position given by the number of accepted events before it |
| Generator.DataGenerator.LoadAllTakesEverything | tools/DataGenerator.py:92-114 | a negative index takes the whole selected array under either strategy |
| Generator.DataGenerator.LoadEventsTakesChunk | tools/DataGenerator.py:111-112 | under `events`, index `i >= 0` takes `chunk(len(selected), n_split, i)` |
| Generator.DataGenerator.LoadFilesTakesEverything | tools/DataGenerator.py:99-114 | under `files`, every index takes the whole selected array |
| Generator.DataGenerator.LoadFailsIff | tools/DataGenerator.py:106-109 | a load fails exactly when a selection meets an empty array; otherwise it returns as many events as its entry range spans |
| Generator.DataGenerator.EventsBatchesCoverSelection | tools/DataGenerator.py:111-126 | under `events`, the batches of indices `0 .. n_split-1`, concatenated, are the selected array |
| Generator.DataGenerator.LoadAllRecordedAsChunkZero | tools/DataGenerator.py:92-124 | under `events`, with at least two chunks and two selected events, the slice a negative-index load returns is longer than chunk 0, the chunk whose index it records |
| Generator.LoadAllThenItemZero | tools/DataGenerator.py:92-132 | under `events`, a negative-index load followed by `__getitem__(0)` serves the whole selected array for item 0 from the cache, which is longer than chunk 0 |
| Generator.NewDataGenerator | tools/DataGenerator.py:32-75 | construction fails exactly when `Configure` fails, with its error; otherwise it yields a fresh generator holding the collected files and the resolved split count, with nothing loaded |

## Left out

- tools/syncer.py is not part of this model. It patches plotting and
  serialization functions at run time and copies files with shell commands
  at exit. None of that is an algorithm.
- `scalar_branches` and `vector_branch` (lines 134-148) reshape and pad arrays
  with numpy and awkward, using float padding values. They are not modelled.
- Reading the trees (`uproot.concatenate` at line 104), `branches` and
  `tree_name` are not modelled. The field `events` stands for what reading
  every input file yields. The files are assumed not to change between loads.
- Read failures of `uproot.concatenate` are not modelled: a missing file or
  tree, or an empty file list, which an accepted `events` configuration
  allows. Under `events`, `events` may be any sequence, the empty one
  included.
- The selection is an external callable that returns a mask for the whole
  array. It is modelled as a predicate on single events, so a mask that
  depends on other events is not captured.
- `os.path.isdir` and `os.listdir` are given with each input name. Joining
  assumes listed names contain no separator, as directory listings do.
- The efficiency message at line 109 is not modelled. Its division by zero on
  an empty array is modelled as `EmptyInputWithSelection`.
- The Keras `Sequence` base class and the `__main__` block are not modelled.
- Setup.Lower: lower-cases ASCII letters only. No non-ASCII character
  lower-cases to a single letter of `files` or `events` (U+0130 lower-cases
  to `i` followed by U+0307), so the strategy check is unaffected.
- Setup.ResolveSplit: only `int` and `float` values of `n_split` are
  distinguished. Every other value is `OtherArg`, which the split check
  rejects; a negative value of another numeric type, such as a numpy integer,
  with the strategy `files` would be replaced by the file count and succeed.
- Setup.ResolveSplit: the source raises a runtime error, a name error or a
  type error. The model keeps only which check failed: the input, the
  strategy, or the split.
- Chunking.Chunk: indices outside `[0, n_split)` and `n_split <= 0` are
  excluded by preconditions. The code does not check them.
- Generator.DataGenerator.Load: an index of `n_split` or more is excluded by a
  precondition. The training loop only asks for indices below `__len__`. The
  code records such an index; under `events` it returns an empty slice, and
  under `files` the whole array.
- Generator.DataGenerator.GetItem: the same precondition as `Load`.
- `small` is modelled as an optional integer. Other values are not modelled.
