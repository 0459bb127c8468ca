/** Two places where osu_file_cleanup.py departs from what it evidently
    means to do, each with the concrete input that shows it and the
    corrected definition beside it: the split of lines 163-177, meant to
    give at most `w` consecutive chunks covering every scanned file exactly
    once with the last chunk taking the remainder; and the folder removal of
    lines 51-54, meant to remove a folder only once it is empty. */
module Findings {
  import opened Builtins
  import opened Partitioner
  import opened Cleanup

  /** The intended split: `m = min(n, w)` chunks of `n // m` files, the last
      one also taking the `n % m` left over; no chunk for no files. */
  function IntendedPartition<T>(files: seq<T>, w: nat): (chunks: seq<seq<T>>)
    requires w >= 1
    ensures |chunks| == if |files| < w then |files| else w
  {
    var n := |files|;
    var m := if n < w then n else w;
    if m == 0 then []
    else
      var c := n / m;
      SizeFacts(n, m);
      TimesIsProduct(m, c);
      BlocksOf(files, c, m - 1) + [files[Times(m - 1, c)..]]
  }

  /** The intended split unfolded: `m - 1` blocks of `c = n // m`, then the rest. */
  lemma IntendedShape<T>(files: seq<T>, w: nat) returns (m: nat, c: nat)
    requires w >= 1 && files != []
    ensures m == (if |files| < w then |files| else w) && 1 <= m
    ensures c == |files| / m && c >= 1
    ensures Times(m - 1, c) <= Times(m, c) <= |files|
    ensures |files| - Times(m, c) == |files| % m
    ensures IntendedPartition(files, w) == BlocksOf(files, c, m - 1) + [files[Times(m - 1, c)..]]
  {
    var n := |files|;
    m := if n < w then n else w;
    c := n / m;
    SizeFacts(n, m);
    TimesIsProduct(m, c);
    DivStep(n, m);
  }

  /** `q` blocks followed by everything after them join up to the whole list. */
  lemma BlocksThenRest<T>(files: seq<T>, c: nat, q: nat)
    requires Times(q, c) <= |files|
    ensures Flatten(BlocksOf(files, c, q) + [files[Times(q, c)..]]) == files
  {
    var blocks, t := BlocksOf(files, c, q), Times(q, c);
    var last := files[t..];
    FlattenSnoc(blocks, last);
    FlattenBlocksOf(files, c, q);
    assert files[..t] + last == files;
  }

  /** Its chunks, joined in order, are the scanned files: each file is
      handed to exactly one worker, whatever `n` and `w` are. */
  lemma IntendedCoversOnce<T>(files: seq<T>, w: nat)
    requires w >= 1
    ensures Flatten(IntendedPartition(files, w)) == files
  {
    if files != [] {
      var m, c := IntendedShape(files, w);
      BlocksThenRest(files, c, m - 1);
    }
  }

  /** Every chunk but the last holds `n // m` files and the last `n // m +
      n % m`, with `n // m >= 1`: no worker is handed an empty chunk. */
  lemma IntendedSizes<T>(files: seq<T>, w: nat)
    requires w >= 1 && files != []
    ensures var n, chunks := |files|, IntendedPartition(files, w);
      var m := |chunks|;
      && 1 <= m <= w
      && n / m >= 1
      && (forall k :: 0 <= k < m - 1 ==> |chunks[k]| == n / m)
      && |chunks[m - 1]| == n / m + n % m
  {
    var m, c := IntendedShape(files, w);
    var blocks := BlocksOf(files, c, m - 1);
    var chunks := IntendedPartition(files, w);
    forall k | 0 <= k < m - 1 ensures |chunks[k]| == c {
      BlockAt(files, c, m - 1, k);
      assert chunks[k] == blocks[k];
    }
  }

  /** Chunks are determined by their sizes and by what they join up to. */
  lemma {:induction false} FlattenSizesDetermine<T>(a: seq<seq<T>>, b: seq<seq<T>>)
    requires |a| == |b| && forall k :: 0 <= k < |a| ==> |a[k]| == |b[k]|
    requires Flatten(a) == Flatten(b)
    ensures a == b
  {
    if a != [] {
      var m := |a| - 1;
      var len := |Flatten(a[..m])|;
      assert Flatten(a) == Flatten(a[..m]) + a[m];
      assert Flatten(b) == Flatten(b[..m]) + b[m];
      assert Flatten(a[..m]) == Flatten(a)[..len] == Flatten(b[..m]);
      assert a[m] == Flatten(a)[len..] == b[m];
      FlattenSizesDetermine(a[..m], b[..m]);
      assert a == a[..m] + [a[m]] && b == b[..m] + [b[m]];
    }
  }

  /** Where the split as written raises nothing and holds no file twice
      (`w <= n` and `n % w < n // w`), it is the intended split. */
  lemma IntendedAgreesWhenExact<T>(files: seq<T>, w: nat)
    requires 1 <= w <= |files| && |files| % w < |files| / w
    ensures Partition(files, w) == Ok(IntendedPartition(files, w))
  {
    PartitionExact(files, w);
    IntendedSizes(files, w);
    IntendedCoversOnce(files, w);
    var written, intended := Partition(files, w).value, IntendedPartition(files, w);
    var c := |files| / w;
    assert |intended| == w;
    forall k | 0 <= k < w ensures |written[k]| == |intended[k]| {
      if k < w - 1 {
        assert |written[k]| == c && |intended[k]| == c;
      }
    }
    FlattenSizesDetermine(written, intended);
  }

  /** One pass over the intended split: the same workers and the same sum. */
  function IntendedPass(markers: seq<string>, files: seq<ScannedFile>, cpuCount: nat): PassOutcome
  {
    var chunks := IntendedPartition(files, NumThreads(cpuCount));
    PassOutcome(chunks, Aggregate(ChunkResults(markers, chunks)))
  }

  /** The intended pass hands every file to exactly one of at most
      `NumThreads` workers, and raises only when `os.rmdir` does: for any
      number of files, none included. */
  lemma IntendedPassCounts(markers: seq<string>, files: seq<ScannedFile>, cpuCount: nat)
    ensures var outcome := IntendedPass(markers, files, cpuCount);
      && |outcome.processed| <= NumThreads(cpuCount)
      && Flatten(outcome.processed) == files
      && outcome.total == (if NoFailure(markers, files) then Ok(CountDeleted(markers, files)) else Err(DirectoryNotEmpty))
  {
    var chunks := IntendedPartition(files, NumThreads(cpuCount));
    IntendedCoversOnce(files, NumThreads(cpuCount));
    ChunksAggregate(markers, chunks);
  }

  /** As written, a folder with no beatmaps at all ends the pass, and the
      program, with a ValueError before any worker starts, where nothing
      should happen. */
  lemma NoFilesRaises(markers: seq<string>, cpuCount: nat)
    ensures Partition<ScannedFile>([], NumThreads(cpuCount)) == Err(ZeroStep)
    ensures Pass(markers, [], cpuCount) == PassOutcome([], Err(ZeroStep))
    ensures IntendedPass(markers, [], cpuCount) == PassOutcome([], Ok(0))
  {
    PartitionFailsIffShort<ScannedFile>([], NumThreads(cpuCount));
    PassTooFewFiles(markers, [], cpuCount);
  }

  /** As written, seven files on four workers (an eight-CPU machine) are cut
      into seven chunks, the last of which repeats the final three files; the
      pass then fails with IndexError at the fifth chunk. */
  lemma SevenFilesFourWorkers(files: seq<ScannedFile>, markers: seq<string>)
    requires |files| == 7
    ensures Partition(files, 4).Ok?
    ensures var chunks := Partition(files, 4).value;
      && |chunks| == 7
      && Flatten(chunks) == files + files[4..]
    ensures Pass(markers, files, 8).total == Err(IndexOutOfRange)
    ensures Flatten(Pass(markers, files, 8).processed) == files[..4]
    ensures Flatten(IntendedPartition(files, 4)) == files
  {
    var c, q := PartitionBlocks(files, 4);
    assert c == 1 && q == 7;
    TimesIsProduct(7, 1);
    ExtendedCover(files, 1, 7, RemainderTail(files, 4), Partition(files, 4).value);
    assert RemainderTail(files, 4) == files[4..];
    assert files[..7] == files;
    PassOverlap(markers, files, 8);
    IntendedCoversOnce(files, 4);
  }

  /** As written, removing a matching beatmap whose folder keeps no `.osu`
      file but still holds its audio makes `os.rmdir` raise, and the worker's
      OSError, re-raised at line 189, ends the pass and the program. */
  lemma LeftoverAudioRaises()
    ensures var song := ScannedFile("Mode: 3", ["audio.mp3"]);
      && DeleteFile(["Mode: 3"], song) == RmdirFailed
      && ProcessChunk(["Mode: 3"], [song]) == Err(DirectoryNotEmpty)
      && Pass(["Mode: 3"], [song], 4) == PassOutcome([[song]], Err(DirectoryNotEmpty))
  {
    var song := ScannedFile("Mode: 3", ["audio.mp3"]);
    assert Contains("Mode: 3", song.content);
    assert !EndsWith("audio.mp3", ".osu");
    assert !BeatmapLeft(["audio.mp3"]);
    assert FirstFailure(["Mode: 3"], [song]) == 0;
    PassSingleWorker(["Mode: 3"], [song], 4);
    assert !NoFailure(["Mode: 3"], [song]);
  }

  /** `delete_file` as evidently meant ("Check if the folder is empty", line
      51): the folder is removed when nothing is left in it and kept
      otherwise, and nothing raises. */
  function IntendedDeleteFile(markers: seq<string>, f: ScannedFile): Removal
  {
    if !Matches(markers, f.content) then Kept
    else Removed(f.folderAfterRemoval == [])
  }

  /** The intended `delete_file` never raises, removes the same files as the
      one written, and agrees with it on every file where that one does not
      raise. */
  lemma IntendedDeleteFileAgrees(markers: seq<string>, f: ScannedFile)
    ensures IntendedDeleteFile(markers, f) != RmdirFailed
    ensures IntendedDeleteFile(markers, f) != Kept <==> DeleteFile(markers, f) != Kept
    ensures DeleteFile(markers, f) != RmdirFailed ==> IntendedDeleteFile(markers, f) == DeleteFile(markers, f)
    ensures IntendedDeleteFile(markers, f) == Removed(true) <==> DeleteFile(markers, f) == Removed(true)
  {
    DeleteFileMeaning(markers, f);
  }
}
