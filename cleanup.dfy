/** One cleanup pass of osu_file_cleanup.py: the per-file decision of
    `delete_file` (lines 32-59), the counting loop of `process_files`
    (lines 61-76), the dispatch of chunks to progress bars (lines 179-184),
    the `total_deleted` accumulation (lines 187-189), and the pass that ties
    them to the partition of lines 163-177. Workers run one after another
    here; the filesystem is replaced by what each file's test observes. */
module Cleanup {
  import opened Builtins
  import opened Partitioner

  /** What `delete_file` observes of one scanned file: its text (read with
      decoding errors ignored) and the names `os.listdir` reports for its
      folder once the file itself has been removed. */
  datatype ScannedFile = ScannedFile(content: string, folderAfterRemoval: seq<string>)

  /** What one call of `delete_file` does. */
  datatype Removal =
    | Kept                          // no marker found; returns 0
    | Removed(folderRemoved: bool)  // os.remove, and os.rmdir when no `.osu` is left; returns 1
    | RmdirFailed                   // os.remove, then os.rmdir raises OSError

  /** Line 46: `any(mode in content for mode in modes_to_delete)`, left to right. */
  predicate Matches(markers: seq<string>, content: string)
    decreases |markers|
  {
    markers != [] && (Contains(markers[0], content) || Matches(markers[1..], content))
  }

  /** Some marker occurs in the text. */
  lemma {:induction false} MatchesMeaning(markers: seq<string>, content: string)
    ensures Matches(markers, content) <==> exists i :: 0 <= i < |markers| && Contains(markers[i], content)
    decreases |markers|
  {
    if markers != [] {
      MatchesMeaning(markers[1..], content);
      assert forall i :: 1 <= i < |markers| ==> markers[i] == markers[1..][i - 1];
    }
  }

  /** Line 53: `any(f.endswith('.osu') for f in os.listdir(dir))`, left to right. */
  predicate BeatmapLeft(listing: seq<string>)
    decreases |listing|
  {
    listing != [] && (EndsWith(listing[0], ".osu") || BeatmapLeft(listing[1..]))
  }

  /** Some name of the listing ends with `.osu`. */
  lemma {:induction false} BeatmapLeftMeaning(listing: seq<string>)
    ensures BeatmapLeft(listing) <==> exists j :: 0 <= j < |listing| && EndsWith(listing[j], ".osu")
    decreases |listing|
  {
    if listing != [] {
      BeatmapLeftMeaning(listing[1..]);
      assert forall j :: 1 <= j < |listing| ==> listing[j] == listing[1..][j - 1];
    }
  }

  /** `delete_file` (lines 32-59) for the markers currently in `modes_to_delete`. */
  function DeleteFile(markers: seq<string>, f: ScannedFile): Removal
  {
    if !Matches(markers, f.content) then Kept
    else if BeatmapLeft(f.folderAfterRemoval) then Removed(false)
    else if f.folderAfterRemoval == [] then Removed(true)
    else RmdirFailed
  }

  /** A file is removed exactly when some marker occurs in its text; then its
      folder goes too when the listing is empty, stays when a `.osu` name is
      left, and `os.rmdir` raises when only other names are left. */
  lemma DeleteFileMeaning(markers: seq<string>, f: ScannedFile)
    ensures var r := DeleteFile(markers, f);
      && (r != Kept <==> exists i :: 0 <= i < |markers| && Contains(markers[i], f.content))
      && (markers == [] ==> r == Kept)
      && (r == Removed(false) <==> (r != Kept &&
        exists j :: 0 <= j < |f.folderAfterRemoval| && EndsWith(f.folderAfterRemoval[j], ".osu")))
      && (r == Removed(true) <==> r != Kept && f.folderAfterRemoval == [])
      && (r == RmdirFailed <==> (r != Kept && f.folderAfterRemoval != [] &&
        forall j :: 0 <= j < |f.folderAfterRemoval| ==> !EndsWith(f.folderAfterRemoval[j], ".osu")))
  {
    MatchesMeaning(markers, f.content);
    BeatmapLeftMeaning(f.folderAfterRemoval);
  }

  /** The value `delete_file` returns when it returns: 1 after a removal, else 0. */
  function Deleted(r: Removal): nat
  {
    if r == Kept then 0 else 1
  }

  /** Number of files of `files` that `delete_file` removes. */
  function CountDeleted(markers: seq<string>, files: seq<ScannedFile>): (d: nat)
    ensures d <= |files|
  {
    if files == [] then 0
    else CountDeleted(markers, files[..|files| - 1]) + Deleted(DeleteFile(markers, files[|files| - 1]))
  }

  /** Index of the first file on which `delete_file` raises, or `|files|`. */
  function FirstFailure(markers: seq<string>, files: seq<ScannedFile>): (i: nat)
    ensures i <= |files|
    ensures forall k :: 0 <= k < i ==> DeleteFile(markers, files[k]) != RmdirFailed
    ensures i < |files| ==> DeleteFile(markers, files[i]) == RmdirFailed
  {
    if files == [] then 0
    else if DeleteFile(markers, files[0]) == RmdirFailed then 0
    else 1 + FirstFailure(markers, files[1..])
  }

  /** What `process_files` returns for one chunk, or the OSError it raises. */
  function ProcessChunk(markers: seq<string>, chunk: seq<ScannedFile>): Result<nat, PyError>
  {
    if FirstFailure(markers, chunk) < |chunk| then Err(DirectoryNotEmpty) else Ok(CountDeleted(markers, chunk))
  }

  /** Removal counts add up over consecutive pieces of a file list. */
  lemma {:induction false} CountDeletedAppend(markers: seq<string>, a: seq<ScannedFile>, b: seq<ScannedFile>)
    ensures CountDeleted(markers, a + b) == CountDeleted(markers, a) + CountDeleted(markers, b)
  {
    if b != [] {
      var b' := b[..|b| - 1];
      assert (a + b)[..|a + b| - 1] == a + b';
      assert (a + b)[|a + b| - 1] == b[|b| - 1];
      CountDeletedAppend(markers, a, b');
    } else {
      assert a + b == a;
    }
  }

  /** A pass with no markers (a video pass before any beatmap pass) removes
      nothing and raises nothing. */
  lemma {:induction false} NoMarkersDeleteNothing(files: seq<ScannedFile>)
    ensures CountDeleted([], files) == 0
    ensures FirstFailure([], files) == |files|
  {
    if files != [] {
      NoMarkersDeleteNothing(files[..|files| - 1]);
    }
  }

  /** A progress bar of `tqdm`: the count of updates and the announced total. */
  class ProgressBar {
    var n: nat
    var total: nat

    /** `tqdm(total=0, ...)`. */
    constructor ()
      ensures n == 0 && total == 0
    {
      n, total := 0, 0;
    }

    /** `update(k)`. */
    method Update(k: nat)
      modifies this
      ensures n == old(n) + k && total == old(total)
    {
      n := n + k;
    }
  }

  /** `process_files` (lines 61-76): call `delete_file` on every file of the
      chunk, sum what it returns, and advance the bar once per file; an
      OSError from `delete_file` ends the loop before that file's update. */
  method ProcessFiles(markers: seq<string>, chunk: seq<ScannedFile>, bar: ProgressBar) returns (r: Result<nat, PyError>)
    modifies bar
    ensures r == ProcessChunk(markers, chunk)
    ensures bar.n == old(bar.n) + FirstFailure(markers, chunk) && bar.total == old(bar.total)
  {
    var deleted := 0;
    var i := 0;
    while i < |chunk|
      invariant 0 <= i <= |chunk|
      invariant deleted == CountDeleted(markers, chunk[..i])
      invariant forall k :: 0 <= k < i ==> DeleteFile(markers, chunk[k]) != RmdirFailed
      invariant bar.n == old(bar.n) + i && bar.total == old(bar.total)
    {
      var outcome := DeleteFile(markers, chunk[i]);
      if outcome == RmdirFailed {
        return Err(DirectoryNotEmpty);
      }
      assert chunk[..i + 1][..i] == chunk[..i];
      deleted := deleted + Deleted(outcome);
      bar.Update(1);
      i := i + 1;
    }
    assert chunk[..i] == chunk;
    return Ok(deleted);
  }

  /** Lines 179-184: hand chunk `i` to worker `i` after setting
      `thread_progresses[i].total`; a chunk past the last bar raises
      IndexError, after the earlier chunks have already been submitted. */
  method Dispatch<T>(chunks: seq<seq<T>>, bars: seq<ProgressBar>) returns (submitted: seq<seq<T>>, ok: bool)
    requires forall i, j :: 0 <= i < j < |bars| ==> bars[i] != bars[j]
    modifies set b | b in bars
    ensures ok <==> |chunks| <= |bars|
    ensures submitted == if ok then chunks else chunks[..|bars|]
    ensures forall i :: 0 <= i < |bars| ==> bars[i].n == old(bars[i].n)
    ensures forall i :: 0 <= i < |bars| ==>
      bars[i].total == if i < |submitted| then |submitted[i]| else old(bars[i].total)
  {
    submitted := [];
    var i := 0;
    while i < |chunks|
      invariant 0 <= i <= |chunks| && i <= |bars|
      invariant submitted == chunks[..i]
      invariant forall j :: 0 <= j < |bars| ==> bars[j].n == old(bars[j].n)
      invariant forall j :: 0 <= j < |bars| ==> bars[j].total == if j < i then |chunks[j]| else old(bars[j].total)
    {
      if i == |bars| {
        return submitted, false;
      }
      bars[i].total := |chunks[i]|;
      submitted := submitted + [chunks[i]];
      i := i + 1;
    }
    assert chunks[..i] == chunks;
    return submitted, true;
  }

  /** Lines 187-189, with the results in the order the futures complete: the
      first exception `future.result()` re-raises, or the sum of the counts. */
  function Aggregate(results: seq<Result<nat, PyError>>): Result<nat, PyError>
  {
    if results == [] then Ok(0)
    else
      var before := Aggregate(results[..|results| - 1]);
      var last := results[|results| - 1];
      if before.Err? then before
      else if last.Err? then last
      else Ok(before.value + last.value)
  }

  /** The accumulation loop of lines 187-189. */
  method TotalDeleted(results: seq<Result<nat, PyError>>) returns (total: Result<nat, PyError>)
    ensures total == Aggregate(results)
  {
    var sum := 0;
    for i := 0 to |results|
      invariant Aggregate(results[..i]) == Ok(sum)
    {
      assert results[..i + 1][..i] == results[..i];
      if results[i].Err? {
        AggregateStaysFailed(results, i + 1);
        return results[i];
      }
      sum := sum + results[i].value;
    }
    assert results[..|results|] == results;
    return Ok(sum);
  }

  /** Once an exception has been re-raised, later results are never read. */
  lemma {:induction false} AggregateStaysFailed(results: seq<Result<nat, PyError>>, i: nat)
    requires i <= |results| && Aggregate(results[..i]).Err?
    ensures Aggregate(results) == Aggregate(results[..i])
    decreases |results| - i
  {
    if i < |results| {
      var next := results[..i + 1];
      assert next[..i] == results[..i];
      AggregateStaysFailed(results, i + 1);
    } else {
      assert results[..i] == results;
    }
  }

  /** The sum of the counts of the results that are not exceptions. */
  function OkTotal(results: seq<Result<nat, PyError>>): nat
  {
    if results == [] then 0
    else OkTotal(results[..|results| - 1]) + (var last := results[|results| - 1]; if last.Ok? then last.value else 0)
  }

  /** `total_deleted` fails exactly when some worker raised, and otherwise is
      the sum of all counts. */
  lemma {:induction false} AggregateMeaning(results: seq<Result<nat, PyError>>)
    ensures Aggregate(results).Ok? <==> forall i :: 0 <= i < |results| ==> results[i].Ok?
    ensures Aggregate(results).Ok? ==> Aggregate(results).value == OkTotal(results)
  {
    if results != [] {
      var init := results[..|results| - 1];
      AggregateMeaning(init);
      assert forall i :: 0 <= i < |init| ==> init[i] == results[i];
    }
  }

  lemma {:induction false} OkTotalAppend(a: seq<Result<nat, PyError>>, b: seq<Result<nat, PyError>>)
    ensures OkTotal(a + b) == OkTotal(a) + OkTotal(b)
  {
    if b != [] {
      var b' := b[..|b| - 1];
      assert (a + b)[..|a + b| - 1] == a + b';
      assert (a + b)[|a + b| - 1] == b[|b| - 1];
      OkTotalAppend(a, b');
    } else {
      assert a + b == a;
    }
  }

  /** Reordering the results does not change the sum of their counts. */
  lemma {:induction false} OkTotalPermutation(a: seq<Result<nat, PyError>>, b: seq<Result<nat, PyError>>)
    requires multiset(a) == multiset(b)
    ensures OkTotal(a) == OkTotal(b)
    decreases |a|
  {
    if a == [] {
      assert |b| == |multiset(b)| == 0;
    } else {
      var init := a[..|a| - 1];
      var j := MatchLast(a, b);
      OkTotalPermutation(init, WithoutAt(b, j));
      assert a == init + [a[|a| - 1]];
      OkTotalAppend(init, [a[|a| - 1]]);
      OkTotalWithout(b, j);
    }
  }

  /** The last element of `a` sits somewhere in its permutation `b`, and
      taking it out of both leaves permutations of each other. */
  lemma MatchLast<T>(a: seq<T>, b: seq<T>) returns (j: nat)
    requires a != [] && multiset(a) == multiset(b)
    ensures j < |b| && b[j] == a[|a| - 1]
    ensures multiset(a[..|a| - 1]) == multiset(WithoutAt(b, j))
  {
    var x := a[|a| - 1];
    assert a == a[..|a| - 1] + [x];
    assert x in multiset(b);
    j :| 0 <= j < |b| && b[j] == x;
  }

  /** `s` with its element at `j` taken out. */
  function WithoutAt<T>(s: seq<T>, j: nat): (r: seq<T>)
    requires j < |s|
    ensures multiset(r) == multiset(s) - multiset{s[j]}
  {
    assert s == s[..j] + [s[j]] + s[j + 1..];
    s[..j] + s[j + 1..]
  }

  /** Taking one result out lowers the sum by that result's count. */
  lemma OkTotalWithout(s: seq<Result<nat, PyError>>, j: nat)
    requires j < |s|
    ensures OkTotal(s) == OkTotal(WithoutAt(s, j)) + OkTotal([s[j]])
  {
    var before, x, after := s[..j], [s[j]], s[j + 1..];
    SplitAt(s, j);
    OkTotalAppend(before + x, after);
    OkTotalAppend(before, x);
    OkTotalAppend(before, after);
  }

  lemma SplitAt<T>(s: seq<T>, j: nat)
    requires j < |s|
    ensures s == s[..j] + [s[j]] + s[j + 1..]
  {
  }

  /** Lines 187-189 do not depend on the completion order of the futures:
      any order raises in the same cases and otherwise gives the same total. */
  lemma AggregateOrderIndependent(a: seq<Result<nat, PyError>>, b: seq<Result<nat, PyError>>)
    requires multiset(a) == multiset(b)
    ensures Aggregate(a).Ok? <==> Aggregate(b).Ok?
    ensures Aggregate(a).Ok? ==> Aggregate(a).value == Aggregate(b).value
  {
    AggregateMeaning(a);
    AggregateMeaning(b);
    forall i | 0 <= i < |b| ensures b[i] in a {
      assert b[i] in multiset(a);
    }
    forall i | 0 <= i < |a| ensures a[i] in b {
      assert a[i] in multiset(b);
    }
    if Aggregate(a).Ok? {
      OkTotalPermutation(a, b);
    }
  }

  /** The outcome of one pass: the chunks handed to the workers, and the
      final count or the exception that ended the pass. A worker stops at
      the first file of its chunk that raises (`FirstFailure`), so it reads
      every file it was handed only when nothing raises (`NoFailure`). */
  datatype PassOutcome = PassOutcome(processed: seq<seq<ScannedFile>>, total: Result<nat, PyError>)

  /** `process_files` on each chunk, in chunk order. */
  function ChunkResults(markers: seq<string>, chunks: seq<seq<ScannedFile>>): (r: seq<Result<nat, PyError>>)
    ensures |r| == |chunks|
  {
    seq(|chunks|, k requires 0 <= k < |chunks| => ProcessChunk(markers, chunks[k]))
  }

  /** Lines 163-189 for one pass over the scanned files. */
  function Pass(markers: seq<string>, files: seq<ScannedFile>, cpuCount: nat): PassOutcome
  {
    var w := NumThreads(cpuCount);
    var split := Partition(files, w);
    if split.Err? then PassOutcome([], Err(split.error))
    else if |split.value| > w then PassOutcome(split.value[..w], Err(IndexOutOfRange))
    else PassOutcome(split.value, Aggregate(ChunkResults(markers, split.value)))
  }

  /** `thread_progresses` (line 172): `w` fresh, distinct bars at zero. */
  method NewBars(w: nat) returns (bars: seq<ProgressBar>)
    ensures |bars| == w
    ensures forall i :: 0 <= i < w ==> fresh(bars[i]) && bars[i].n == 0 && bars[i].total == 0
    ensures forall i, j :: 0 <= i < j < w ==> bars[i] != bars[j]
  {
    bars := [];
    while |bars| < w
      invariant |bars| <= w
      invariant forall i :: 0 <= i < |bars| ==> fresh(bars[i]) && bars[i].n == 0 && bars[i].total == 0
      invariant forall i, j :: 0 <= i < j < |bars| ==> bars[i] != bars[j]
    {
      var bar := new ProgressBar();
      bars := bars + [bar];
    }
  }

  /** The submitted workers, run one after another: chunk `k` on bar `k`. */
  method RunWorkers(markers: seq<string>, chunks: seq<seq<ScannedFile>>, bars: seq<ProgressBar>)
      returns (results: seq<Result<nat, PyError>>)
    requires |chunks| <= |bars|
    requires forall i, j :: 0 <= i < j < |bars| ==> bars[i] != bars[j]
    modifies set b | b in bars
    ensures results == ChunkResults(markers, chunks)
    ensures forall i :: 0 <= i < |bars| ==> bars[i].total == old(bars[i].total)
    ensures forall i :: 0 <= i < |bars| ==>
      bars[i].n == old(bars[i].n) + if i < |chunks| then FirstFailure(markers, chunks[i]) else 0
  {
    results := [];
    for k := 0 to |chunks|
      invariant results == ChunkResults(markers, chunks[..k])
      invariant forall i :: 0 <= i < |bars| ==> bars[i].total == old(bars[i].total)
      invariant forall i :: 0 <= i < |bars| ==>
        bars[i].n == old(bars[i].n) + if i < k then FirstFailure(markers, chunks[i]) else 0
    {
      var r := ProcessFiles(markers, chunks[k], bars[k]);
      results := results + [r];
    }
    assert chunks[..|chunks|] == chunks;
  }

  /** Lines 163-189 with the workers run one after another: create the
      bars, split the list, dispatch, process each submitted chunk, sum. */
  method RunPass(markers: seq<string>, files: seq<ScannedFile>, cpuCount: nat)
      returns (outcome: PassOutcome, bars: seq<ProgressBar>)
    ensures outcome == Pass(markers, files, cpuCount)
    ensures |bars| == NumThreads(cpuCount) && |outcome.processed| <= |bars|
    ensures forall i :: 0 <= i < |bars| ==> fresh(bars[i])
    ensures forall k :: 0 <= k < |outcome.processed| ==>
      bars[k].total == |outcome.processed[k]| && bars[k].n == FirstFailure(markers, outcome.processed[k])
    ensures forall k :: |outcome.processed| <= k < |bars| ==> bars[k].total == 0 && bars[k].n == 0
  {
    var w := NumThreads(cpuCount);
    bars := NewBars(w);
    var split := SplitFiles(files, w);
    if split.Err? {
      return PassOutcome([], Err(split.error)), bars;
    }
    var submitted, ok := Dispatch(split.value, bars);
    var results := RunWorkers(markers, submitted, bars);
    if !ok {
      return PassOutcome(submitted, Err(IndexOutOfRange)), bars;
    }
    var total := TotalDeleted(results);
    return PassOutcome(submitted, total), bars;
  }

  /** No file of `files` makes `delete_file` raise. */
  ghost predicate NoFailure(markers: seq<string>, files: seq<ScannedFile>)
  {
    forall k :: 0 <= k < |files| ==> DeleteFile(markers, files[k]) != RmdirFailed
  }

  lemma NoFailureAppend(markers: seq<string>, a: seq<ScannedFile>, b: seq<ScannedFile>)
    ensures NoFailure(markers, a + b) <==> NoFailure(markers, a) && NoFailure(markers, b)
  {
    forall k | 0 <= k < |a| ensures (a + b)[k] == a[k] {}
    forall k | 0 <= k < |b| ensures (a + b)[|a| + k] == b[k] {}
    if NoFailure(markers, a) && NoFailure(markers, b) {
      forall k | 0 <= k < |a + b| ensures DeleteFile(markers, (a + b)[k]) != RmdirFailed {
        if k >= |a| {
          assert (a + b)[k] == b[k - |a|];
        }
      }
    }
  }

  /** What a worker reports is determined by its files' failures and count. */
  lemma ProcessChunkMeaning(markers: seq<string>, chunk: seq<ScannedFile>)
    ensures ProcessChunk(markers, chunk) ==
      if NoFailure(markers, chunk) then Ok(CountDeleted(markers, chunk)) else Err(DirectoryNotEmpty)
  {
    var i := FirstFailure(markers, chunk);
    if i < |chunk| {
      assert DeleteFile(markers, chunk[i]) == RmdirFailed;
    }
  }

  /** Summing the workers' results in chunk order gives the count over all
      their files joined, unless some file made its worker raise. */
  lemma {:induction false} ChunksAggregate(markers: seq<string>, chunks: seq<seq<ScannedFile>>)
    ensures Aggregate(ChunkResults(markers, chunks)) ==
      if NoFailure(markers, Flatten(chunks)) then Ok(CountDeleted(markers, Flatten(chunks)))
      else Err(DirectoryNotEmpty)
  {
    if chunks != [] {
      var m := |chunks| - 1;
      var init, last := chunks[..m], chunks[m];
      ChunkResultsInit(markers, chunks);
      ChunksAggregate(markers, init);
      ProcessChunkMeaning(markers, last);
      assert Flatten(chunks) == Flatten(init) + last;
      CountDeletedAppend(markers, Flatten(init), last);
      NoFailureAppend(markers, Flatten(init), last);
    }
  }

  lemma ChunkResultsInit(markers: seq<string>, chunks: seq<seq<ScannedFile>>)
    requires chunks != []
    ensures var m, results := |chunks| - 1, ChunkResults(markers, chunks);
      && results[..m] == ChunkResults(markers, chunks[..m])
      && results[m] == ProcessChunk(markers, chunks[m])
  {
  }

  /** Fewer scanned files than workers — none at all included — end the pass
      with the ValueError of `range(..., 0)` before any file is examined. */
  lemma PassTooFewFiles(markers: seq<string>, files: seq<ScannedFile>, cpuCount: nat)
    requires |files| < NumThreads(cpuCount)
    ensures Pass(markers, files, cpuCount) == PassOutcome([], Err(ZeroStep))
  {
    PartitionFailsIffShort(files, NumThreads(cpuCount));
  }

  /** When the split is exact (`w <= n` and `n % w < n // w`) every file is
      handed to exactly one of `w` workers, and the pass reports the number
      of files whose text holds a marker — at most `n` — unless some removal
      of a folder raised. */
  lemma PassExact(markers: seq<string>, files: seq<ScannedFile>, cpuCount: nat)
    requires var w := NumThreads(cpuCount); w <= |files| && |files| % w < |files| / w
    ensures var outcome := Pass(markers, files, cpuCount);
      && |outcome.processed| == NumThreads(cpuCount)
      && Flatten(outcome.processed) == files
      && outcome.total == (if NoFailure(markers, files) then Ok(CountDeleted(markers, files)) else Err(DirectoryNotEmpty))
      && (outcome.total.Ok? ==> outcome.total.value <= |files|)
  {
    var w := NumThreads(cpuCount);
    PartitionExact(files, w);
    ChunksAggregate(markers, Partition(files, w).value);
  }

  /** With one worker (a machine of at most five CPUs) the whole list is a
      single chunk. */
  lemma PassSingleWorker(markers: seq<string>, files: seq<ScannedFile>, cpuCount: nat)
    requires cpuCount <= 5 && files != []
    ensures Pass(markers, files, cpuCount).processed == [files]
    ensures Pass(markers, files, cpuCount).total ==
      if NoFailure(markers, files) then Ok(CountDeleted(markers, files)) else Err(DirectoryNotEmpty)
  {
    assert NumThreads(cpuCount) == 1;
    PassExact(markers, files, cpuCount);
    var processed := Pass(markers, files, cpuCount).processed;
    assert |processed| == 1;
    assert processed == [processed[0]];
    assert processed[..0] == [];
    assert Flatten(processed) == files;
    assert Flatten(processed[..0]) == [];
    assert Flatten(processed) == Flatten(processed[..0]) + processed[0];
    assert processed[0] == files;
  }

  /** When `n % w >= n // w >= 1`, the pass ends in IndexError at line 181
      after the first `w` chunks were submitted: those hold the first
      `n - n % w` files, and the other `n % w` files are never handed out. */
  lemma PassOverlap(markers: seq<string>, files: seq<ScannedFile>, cpuCount: nat)
    requires var w := NumThreads(cpuCount); |files| % w >= |files| / w >= 1
    ensures var outcome, w := Pass(markers, files, cpuCount), NumThreads(cpuCount);
      && outcome.total == Err(IndexOutOfRange)
      && |outcome.processed| == w
      && |files| % w <= |files|
      && Flatten(outcome.processed) == files[..|files| - |files| % w]
  {
    var w := NumThreads(cpuCount);
    PartitionOverlapPrefix(files, w);
  }
}
