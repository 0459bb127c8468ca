# osu! file cleanup, modelled in Dafny

`osu_file_cleanup.py` is a console tool. It walks an osu! `Songs` folder and
deletes beatmaps (`.osu` files) whose text holds one of the chosen
`Mode: N` markers. When no beatmap is left in a song folder, it removes the
folder too. The scan and delete pass is spread over a thread pool of
`max(cpu_count - 4, 1)` workers: the file list is cut into chunks, each
worker runs `process_files` on its chunk with its own `tqdm` progress bar,
and the main thread adds up the counts the workers return.

The project models that core in five modules:

- `Builtins` (`builtins.dfy`): the few Python built-ins the core relies on,
  with Python's own edge cases:
  - `range` with a zero step raises ValueError;
  - slices clamp their bounds;
  - `s[-k:]`;
  - `in` on strings is substring search;
  - `str.endswith`.
- `Partitioner` (`partition.dfy`): the chunk split of lines 163-177, written
  as the code is. It is both a function and the imperative method
  `SplitFiles`, which builds the list of chunks in an array and extends its
  last entry in place.
- `Cleanup` (`cleanup.dfy`): one pass.
  - `delete_file` and the `process_files` loop, with the progress bar as a
    class whose fields the methods update.
  - The dispatch loop of lines 179-184 and the `total_deleted` loop of lines
    187-189.
  - The whole pass as a function (`Pass`) and as a method (`RunPass`) proved
    equal to it.
- `Menu` (`menu.dfy`):
  - the two menus, over the lines the user types;
  - the table from mode option to markers;
  - a `Session` class holding the process-wide `modes_to_delete`, which one
    round of `main`'s loop reads and reassigns.
- `Findings` (`findings.dfy`): three defects of the code, described below,
  each with its corrected definition.

The filesystem is abstracted. Each scanned file, a `ScannedFile`, carries two
things:

- its text, after decoding with errors ignored;
- the names `os.listdir` reports for its folder once the file itself is
  removed.

The pass then depends only on these values, the markers and the CPU count.

## Model

| member | source | states |
|---|---|---|
| Builtins.Range | osu_file_cleanup.py:175 | `range(0, stop, c)` raises ValueError exactly when `c == 0`; otherwise its `k`-th element is `k * c` and every element is below `stop` |
| Builtins.RangeLength | osu_file_cleanup.py:175 | `range(start, stop, step)` has `ceil((stop - start) / step)` elements, none when `start >= stop` |
| Builtins.Slice | osu_file_cleanup.py:175 | `files[i:i + c]` is the plain slice when both bounds lie inside the list, and never longer than the list |
| Builtins.Tail | osu_file_cleanup.py:177 | `files[-k:]` is the last `k` files, or the whole list when it is shorter |
| Builtins.ContainsMeaning | osu_file_cleanup.py:46 | `mode in content` holds exactly when the marker occurs at some index of the text |
| Partitioner.NumThreads | osu_file_cleanup.py:163 | the pool has at least one worker and at least `cpu_count - 4`, and is exactly one of the two |
| Partitioner.ExtendLast | osu_file_cleanup.py:177 | `file_chunks[-1].extend(tail)` changes only the last chunk, which grows by `tail` |
| Partitioner.FlattenExtendLast | osu_file_cleanup.py:177 | after the extension the chunks, joined, are the old ones joined followed by `tail` |
| Partitioner.SplitFiles | osu_file_cleanup.py:174-177 | the comprehension filling an array followed by the in-place extension gives exactly the chunk list (or exception) of `Partition` |
| Partitioner.ComprehensionBlocks | osu_file_cleanup.py:175 | for `1 <= c <= n` the comprehension yields `n // c` consecutive, unclipped blocks of `c` files starting at 0 |
| Partitioner.PartitionBlocks | osu_file_cleanup.py:174-177 | for `1 <= w <= n` the split succeeds and is the `n // c` blocks of `c = n // w` files, the last one extended by the `n % w` trailing files |
| Partitioner.RemainderTail | osu_file_cleanup.py:176-177 | the files appended to the last chunk are none exactly when `n % w == 0` |
| Partitioner.PartitionFailsIffShort | osu_file_cleanup.py:174-175 | the split raises exactly when there are fewer files than workers (none at all included), and then it is the ValueError of a zero step |
| Partitioner.PartitionExact | osu_file_cleanup.py:174-177 | when `w <= n` and `n % w < n // w`: exactly `w` chunks, the first `w - 1` of `n // w` files, the last of `n // w + n % w`, and joined in order they are the file list |
| Partitioner.PartitionOverlaps | osu_file_cleanup.py:174-177 | when `n % w >= n // w >= 1`: more than `w` chunks which, joined, are the first `m` files followed again by the last `n % w`, with `n - n % w < m <= n`, so more than `n` files in all |
| Partitioner.PartitionOverlapPrefix | osu_file_cleanup.py:174-181 | in that case the first `w` chunks, the ones submitted before line 181 fails, join up to exactly the first `n - n % w` files |
| Cleanup.MatchesMeaning | osu_file_cleanup.py:46 | `any(mode in content ...)` holds exactly when some marker occurs in the text |
| Cleanup.BeatmapLeftMeaning | osu_file_cleanup.py:53 | `any(file.endswith('.osu') ...)` holds exactly when some name of the listing ends with `.osu` |
| Cleanup.DeleteFileMeaning | osu_file_cleanup.py:42-59 | a file is removed exactly when some marker occurs in its text (never with no markers); the folder is then kept if a `.osu` name is left, removed if the listing is empty, and `os.rmdir` raises if only other names are left |
| Cleanup.CountDeleted | osu_file_cleanup.py:72-76 | a chunk never reports more removals than it has files |
| Cleanup.FirstFailure | osu_file_cleanup.py:73-75 | the index of the first file on which `delete_file` raises: no earlier file raises, and that one does when it exists |
| Cleanup.CountDeletedAppend | osu_file_cleanup.py:72-76 | removal counts add up over consecutive pieces of a file list |
| Cleanup.NoMarkersDeleteNothing | osu_file_cleanup.py:46 | with an empty `modes_to_delete` no file is removed and nothing raises |
| Cleanup.ProgressBar.constructor | osu_file_cleanup.py:172 | `tqdm(total=0)` starts with count 0 and total 0 |
| Cleanup.ProgressBar.Update | osu_file_cleanup.py:75 | `update(k)` adds `k` to the count and leaves the total alone |
| Cleanup.ProcessFiles | osu_file_cleanup.py:61-76 | the loop returns what `ProcessChunk` specifies (the number of removals, or the OSError of the first failing file) and advances the bar once for each file before that failure |
| Cleanup.ProcessChunkMeaning | osu_file_cleanup.py:61-76 | a worker returns the chunk's removal count when no file in it raises, and DirectoryNotEmpty otherwise |
| Cleanup.Dispatch | osu_file_cleanup.py:179-184 | every chunk is submitted with its bar's total set to its size, exactly when there are no more chunks than bars; otherwise the first `w` are, and IndexError follows; counts are untouched |
| Cleanup.TotalDeleted | osu_file_cleanup.py:187-189 | the accumulation loop returns `Aggregate` of the results: the first re-raised exception, or the sum |
| Cleanup.AggregateStaysFailed | osu_file_cleanup.py:188-189 | once `future.result()` has raised, the later results do not change the outcome |
| Cleanup.AggregateMeaning | osu_file_cleanup.py:187-189 | the total is a number exactly when no worker raised, and then it is the sum of all counts |
| Cleanup.OkTotalAppend | osu_file_cleanup.py:189 | the sum of the counts adds up over consecutive pieces of the results |
| Cleanup.OkTotalPermutation | osu_file_cleanup.py:188-189 | the sum of the counts does not depend on the order the results come in |
| Cleanup.AggregateOrderIndependent | osu_file_cleanup.py:188-189 | whatever order `as_completed` yields the futures in, the pass raises in the same cases and otherwise reports the same total |
| Cleanup.NewBars | osu_file_cleanup.py:172 | `w` fresh, distinct bars, all at count 0 and total 0 |
| Cleanup.RunWorkers | osu_file_cleanup.py:183 | running `process_files` on each submitted chunk with its own bar gives `ChunkResults`, and each bar's count grows by the files its worker got through before any raise (`FirstFailure`) |
| Cleanup.RunPass | osu_file_cleanup.py:163-189 | the pass as code (bars, split, dispatch, workers, sum) gives `Pass`; each used bar ends with its chunk's size as total and, as count, the files its worker got through before any raise, the unused ones stay at zero |
| Cleanup.ChunksAggregate | osu_file_cleanup.py:179-189 | summing the workers' results gives the removal count over all their files joined, unless some file made its worker raise |
| Cleanup.PassTooFewFiles | osu_file_cleanup.py:174-175 | with fewer files than workers the pass ends in ValueError and no file is handed to a worker |
| Cleanup.PassExact | osu_file_cleanup.py:163-189 | when the split is exact the `w` chunks handed to the workers hold every file exactly once, and the pass reports the number of removals (at most `n`) unless some folder removal raised |
| Cleanup.PassSingleWorker | osu_file_cleanup.py:163-177 | on a machine of at most five CPUs a non-empty file list is handed out as a single chunk, and the pass reports its removal count unless some folder removal raised |
| Cleanup.PassOverlap | osu_file_cleanup.py:174-184 | when `n % w >= n // w >= 1` the pass ends in IndexError after the first `n - n % w` files, and no others, were handed to `w` workers |
| Menu.GetModeOption | osu_file_cleanup.py:25-30 | returns the first typed line among "1".."6" with the number of lines read, all earlier lines being invalid; None when the input ends first |
| Menu.ChooseFileType | osu_file_cleanup.py:101-116 | returns the meaning (`*.osu`, `*.mp4\|*.avi\|*.flv`, or quit) of the first line among "1".."3", all earlier lines being invalid; None when the input ends first |
| Menu.MarkersFor | osu_file_cleanup.py:144-156 | options "1" to "5" assign a marker list and no other answer does |
| Menu.AllButStandardIsTheOthers | osu_file_cleanup.py:144-153 | option 1 searches exactly for the markers of options 3, 4 and 5 and never for that of option 2 |
| Menu.Session.constructor | osu_file_cleanup.py:7 | `modes_to_delete` starts empty |
| Menu.Session.SelectCriteria | osu_file_cleanup.py:142-156 | a beatmap round sets the markers of its option and stops on "6"; a video round keeps whatever an earlier round left |
| Menu.Session.Round | osu_file_cleanup.py:139-189 | a round runs no pass exactly on option "6"; otherwise it runs the pass with the markers `modes_to_delete` then holds; the loop goes on to another round exactly when the round did not quit and its pass reported a total, since an uncaught ValueError, IndexError or OSError ends the program |
| Menu.PassWithoutMarkers | osu_file_cleanup.py:42-46 | a pass with no markers reports no removal whenever it reports a number |
| Menu.FirstRoundVideos | osu_file_cleanup.py:139-162 | a video round run first uses the empty marker list of line 7, so it reports 0 whenever it reports a total |
| Menu.VideosAfterCatch | osu_file_cleanup.py:139-162 | after a beatmap round with option 4, a video round follows exactly when that round's pass reported a total, and it searches the videos for `Mode: 3` |
| Menu.OptionOneKeepsStandard | osu_file_cleanup.py:144-145 | under option 1 a beatmap whose text is `Mode: 1` is kept |
| Menu.OptionOneRemovesCatch | osu_file_cleanup.py:46-56 | under option 1 a `Mode: 3` beatmap is removed along with its then empty folder |
| Menu.TwoSongsOneWorker | osu_file_cleanup.py:163-189 | two songs on one worker under option 1: one chunk and a total of 1 |
| Findings.IntendedPartition | osu_file_cleanup.py:174-177 | the intended split has `min(n, w)` chunks |
| Findings.IntendedCoversOnce | osu_file_cleanup.py:174-177 | the intended chunks, joined in order, are the file list, for every `n` and `w` |
| Findings.IntendedSizes | osu_file_cleanup.py:174-177 | the intended chunks are at most `w`, never empty: `n // m` files each and `n // m + n % m` in the last |
| Findings.IntendedAgreesWhenExact | osu_file_cleanup.py:174-177 | where the code raises nothing and repeats no file, its split is the intended one |
| Findings.IntendedPassCounts | osu_file_cleanup.py:163-189 | a pass over the intended split uses at most `w` workers, hands every file to exactly one of them and raises only when `os.rmdir` does |
| Findings.NoFilesRaises | osu_file_cleanup.py:174-175 | a pass over no files raises ValueError as written, and reports 0 over the intended split |
| Findings.SevenFilesFourWorkers | osu_file_cleanup.py:174-181 | seven files on four workers: seven chunks repeating the last three files, IndexError, only the first four files handed to workers |
| Findings.LeftoverAudioRaises | osu_file_cleanup.py:51-54 | a removed beatmap whose folder still holds its audio makes the pass end in OSError, which nothing catches, so the program ends |
| Findings.IntendedDeleteFileAgrees | osu_file_cleanup.py:51-54 | the intended `delete_file` never raises, removes the same files, and agrees with the written one wherever that does not raise |

## Left out

- Console I/O is left out. This covers the folder-path prompt (line 135),
  every `print`, and the menu texts. The menus are modelled on the list of
  lines the user types. When that list ends, the model returns None; Python
  would raise EOFError there.
- `quit()` (lines 114 and 156) is modelled as the `Quit` choice or a round
  that returns None, not as ending the process.
- The glob of lines 161-162 is left out. The scanned files are a parameter.
  Note that the video pattern `*.mp4|*.avi|*.flv` is one literal glob
  pattern, since glob has no `|` alternation.
- Opening and reading a file (line 44) is not modelled as an operation. A
  file's text is given already decoded with errors ignored, so the
  UnicodeDecodeError branch (lines 57-58) never fires.
- Failures of `open` and `os.remove` are not modelled: every scanned file
  opens and is removable.
- The threads run one after another, in chunk order. `AggregateOrderIndependent`
  shows that the order results complete in does not change the outcome.
  Races between workers on a shared folder are not modelled: each file's
  folder listing is what that file's worker observes.
- Time is left out: `calculate_elapsed_time` (lines 78-91) and the clock
  reads (lines 160-167 and 194-199) only feed printed messages.
- `tqdm` display options and `close()` (lines 191-192) are left out. A bar
  is its count and its total.
- `os.cpu_count()` returning None (a TypeError at line 163) is left out: the
  CPU count is a `nat`.
- The model follows the code, including where it does less than the
  program's own messages and comments say, or less than a cleaner should:
  - The menu at line 104 warns that videos are deleted "IMMEDIATLY", but
    line 46 still tests each video's bytes, read as text, against
    `modes_to_delete`. That list is empty before any beatmap round, so a
    first video round removes nothing.
  - The comment at line 51 says the folder is checked for being empty, but
    line 53 only checks that no `.osu` name is left. `os.rmdir` then raises
    OSError on a folder still holding other files. That error ends the
    worker, `future.result()` re-raises it at line 189, and it ends the
    program.
  - The split of lines 174-177 is neither complete nor free of repeats for
    every file count and worker count (see Findings).
  - A folder with no files at all raises ValueError at line 175, and the
    program ends.

## Findings

| source | as written | input that shows it | evidently intended | confidence | as-written member | corrected member |
|---|---|---|---|---|---|---|
| osu_file_cleanup.py:174-175 | `chunk_size` is 0 when there are fewer files than workers, so `range(..., 0)` raises ValueError before any file is handed to a worker | a folder with no beatmaps at all, on any machine | a short list is split into fewer chunks, and no files make an empty pass | not executed | Findings.NoFilesRaises | Findings.IntendedPassCounts |
| osu_file_cleanup.py:174-181 | when `n % w >= n // w >= 1`, the comprehension makes more than `w` chunks and the extension repeats the last `n % w` files; line 181 then raises IndexError after `w` chunks were submitted, and the last `n % w` files are never handed to a worker | seven files on an eight-CPU machine (four workers) | `w` consecutive chunks covering every file exactly once, the last taking the remainder | not executed | Findings.SevenFilesFourWorkers | Findings.IntendedCoversOnce |
| osu_file_cleanup.py:51-54 | the folder is removed with `os.rmdir` once no `.osu` name is left, but `os.rmdir` raises OSError on a folder still holding other files; nothing catches it, so the program ends | a `Mode: 3` beatmap under option 4 whose song folder keeps `audio.mp3` | the folder is removed only when it is empty and kept otherwise, without raising | not executed | Findings.LeftoverAudioRaises | Findings.IntendedDeleteFileAgrees |
