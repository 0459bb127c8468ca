/** The static split of the scanned file list among the worker threads
    (osu_file_cleanup.py, lines 163-177), modelled as the code is written,
    including the two shapes of input on which it misbehaves. */
module Partitioner {
  import opened Builtins

  /** `max(os.cpu_count() - 4, 1)`: four cores are left to the host, and at
      least one worker is used. */
  function NumThreads(cpuCount: nat): (w: nat)
    ensures w >= 1 && w >= cpuCount - 4
    ensures w == 1 || w == cpuCount - 4
  {
    if cpuCount > 5 then cpuCount - 4 else 1
  }

  /** The chunks joined back together in order. */
  function Flatten<T>(chunks: seq<seq<T>>): seq<T>
  {
    if chunks == [] then [] else Flatten(chunks[..|chunks| - 1]) + chunks[|chunks| - 1]
  }

  /** The comprehension `[files[i:i + c] for i in starts]`. */
  function Slices<T>(files: seq<T>, starts: seq<nat>, c: nat): seq<seq<T>>
  {
    seq(|starts|, k requires 0 <= k < |starts| => Slice(files, starts[k], starts[k] + c))
  }

  /** The chunk list that lines 174-177 build for `w` workers, or the
      exception they raise. */
  function Partition<T>(files: seq<T>, w: nat): Result<seq<seq<T>>, PyError>
    requires w >= 1
  {
    var n := |files|;
    var c := n / w;
    var range := Range(0, n - c + 1, c);
    if range.Err? then Err(range.error)
    else
      var chunks := Slices(files, range.value, c);
      if n % w == 0 then Ok(chunks)
      else if chunks == [] then Err(IndexOutOfRange)
      else Ok(ExtendLast(chunks, Tail(files, n % w)))
  }

  /** `chunks[-1].extend(tail)`: only the last chunk changes, and it grows by `tail`. */
  function ExtendLast<T>(chunks: seq<seq<T>>, tail: seq<T>): (r: seq<seq<T>>)
    requires chunks != []
    ensures |r| == |chunks| && r[..|r| - 1] == chunks[..|chunks| - 1]
    ensures r[|r| - 1] == chunks[|chunks| - 1] + tail
  {
    var m := |chunks| - 1;
    chunks[..m] + [chunks[m] + tail]
  }

  /** Extending the last chunk adds `tail` at the end of the joined chunks. */
  lemma FlattenExtendLast<T>(chunks: seq<seq<T>>, tail: seq<T>)
    requires chunks != []
    ensures Flatten(ExtendLast(chunks, tail)) == Flatten(chunks) + tail
  {
    var m := |chunks| - 1;
    assert chunks == chunks[..m] + [chunks[m]];
    FlattenSnoc(chunks[..m], chunks[m]);
    FlattenSnoc(chunks[..m], chunks[m] + tail);
  }

  /** Lines 174-177 step by step: the comprehension fills a list of chunks,
      and `file_chunks[-1].extend(...)` then grows its last entry in place. */
  method SplitFiles<T>(files: seq<T>, w: nat) returns (r: Result<seq<seq<T>>, PyError>)
    requires w >= 1
    ensures r == Partition(files, w)
  {
    var n := |files|;
    var c := n / w;
    var range := Range(0, n - c + 1, c);
    if range.Err? {
      return Err(range.error);
    }
    var starts := range.value;
    var chunks := new seq<T>[|starts|](k requires 0 <= k < |starts| => Slice(files, starts[k], starts[k] + c));
    assert chunks[..] == Slices(files, starts, c);
    if n % w != 0 {
      if chunks.Length == 0 {
        return Err(IndexOutOfRange);
      }
      ghost var before := chunks[..];
      chunks[chunks.Length - 1] := chunks[chunks.Length - 1] + Tail(files, n % w);
      assert chunks[..] == ExtendLast(before, Tail(files, n % w));
    }
    r := Ok(chunks[..]);
  }

  /** The chunk size `n // w` and the remainder `n % w`. */
  lemma SizeFacts(n: nat, w: nat)
    requires w >= 1
    ensures n == w * (n / w) + n % w && 0 <= n % w < w
    ensures n / w <= n
    ensures n / w == 0 <==> n < w
  {
    if n < w {
      DivUnique(n, w, 0, n);
    } else {
      MulMonotone(1, w, n / w);
    }
  }

  /** The first `q` blocks of `c` files each: `files[0:c]`, `files[c:2c]`, ... */
  function BlocksOf<T>(files: seq<T>, c: nat, q: nat): (r: seq<seq<T>>)
    requires Times(q, c) <= |files|
    ensures |r| == q
  {
    if q == 0 then [] else BlocksOf(files, c, q - 1) + [files[Times(q - 1, c)..Times(q, c)]]
  }

  /** Block `k` is the `c` files from offset `k * c`. */
  lemma {:induction false} BlockAt<T>(files: seq<T>, c: nat, q: nat, k: nat)
    requires Times(q, c) <= |files| && k < q
    ensures Times(k + 1, c) <= Times(q, c)
    ensures BlocksOf(files, c, q)[k] == files[Times(k, c)..Times(k + 1, c)]
  {
    if k < q - 1 {
      BlockAt(files, c, q - 1, k);
      assert BlocksOf(files, c, q)[k] == BlocksOf(files, c, q - 1)[k];
    }
  }

  /** The first `j` of `q` blocks are the first `j` blocks. */
  lemma {:induction false} BlocksPrefix<T>(files: seq<T>, c: nat, q: nat, j: nat)
    requires Times(q, c) <= |files| && j <= q
    ensures Times(j, c) <= |files|
    ensures BlocksOf(files, c, q)[..j] == BlocksOf(files, c, j)
  {
    TimesMonotone(j, q, c);
    if j < q {
      BlocksPrefix(files, c, q - 1, j);
      assert BlocksOf(files, c, q)[..j] == BlocksOf(files, c, q - 1)[..j];
    }
  }

  /** Consecutive blocks join up to a prefix of the list. */
  lemma {:induction false} FlattenBlocksOf<T>(files: seq<T>, c: nat, q: nat)
    requires Times(q, c) <= |files|
    ensures Flatten(BlocksOf(files, c, q)) == files[..Times(q, c)]
  {
    if q > 0 {
      var init, lo, hi := BlocksOf(files, c, q - 1), Times(q - 1, c), Times(q, c);
      FlattenBlocksOf(files, c, q - 1);
      FlattenSnoc(init, files[lo..hi]);
      assert files[..lo] + files[lo..hi] == files[..hi];
    }
  }

  lemma FlattenSnoc<T>(init: seq<seq<T>>, last: seq<T>)
    ensures Flatten(init + [last]) == Flatten(init) + last
  {
    assert (init + [last])[..|init|] == init;
  }

  /** The comprehension of line 175 with `1 <= c <= n`: `range` yields the
      `n // c` starts `0, c, 2c, ...`, and none of the slices is clipped. */
  lemma ComprehensionBlocks<T>(files: seq<T>, c: nat)
    requires 1 <= c <= |files|
    ensures Range(0, |files| - c + 1, c).Ok?
    ensures var starts := Range(0, |files| - c + 1, c).value;
      && |starts| == |files| / c
      && Times(|files| / c, c) <= |files|
      && Slices(files, starts, c) == BlocksOf(files, c, |files| / c)
  {
    var n := |files|;
    var starts := Range(0, n - c + 1, c).value;
    RangeLength(0, n - c + 1, c);
    DivStep(n, c);
    var q := n / c;
    assert |starts| == q;
    assert Times(q, c) <= n by {
      TimesIsProduct(q, c);
    }
    SlicesAreBlocks(files, c, q, starts);
  }

  /** Slices of `c` files from the starts `0, c, 2c, ...` are the blocks. */
  lemma SlicesAreBlocks<T>(files: seq<T>, c: nat, q: nat, starts: seq<nat>)
    requires Times(q, c) <= |files| && |starts| == q
    requires forall k :: 0 <= k < q ==> starts[k] == Times(k, c)
    ensures Slices(files, starts, c) == BlocksOf(files, c, q)
  {
    var slices, blocks := Slices(files, starts, c), BlocksOf(files, c, q);
    forall k | 0 <= k < q ensures slices[k] == blocks[k] {
      BlockAt(files, c, q, k);
      assert slices[k] == Slice(files, starts[k], starts[k] + c);
    }
  }

  /** Lines 174-177 when `range` does not raise: the comprehension's `q`
      blocks of `c = n // w` files, then the extension of the last one. */
  lemma PartitionBlocks<T>(files: seq<T>, w: nat) returns (c: nat, q: nat)
    requires 1 <= w <= |files|
    ensures c == |files| / w && c >= 1 && q == |files| / c && q >= 1
    ensures Times(q, c) <= |files|
    ensures var blocks, tail := BlocksOf(files, c, q), RemainderTail(files, w);
      Partition(files, w) == Ok(if tail == [] then blocks else ExtendLast(blocks, tail))
  {
    var n := |files|;
    c, q := BlockCount(n, w);
    ComprehensionBlocks(files, c);
    var range := Range(0, n - c + 1, c);
    var chunks := Slices(files, range.value, c);
    assert chunks == BlocksOf(files, c, q) && chunks != [];
    if n % w == 0 {
      assert Partition(files, w) == Ok(chunks);
    } else {
      assert Tail(files, n % w) == RemainderTail(files, w);
      assert Partition(files, w) == Ok(ExtendLast(chunks, Tail(files, n % w)));
    }
  }

  /** With `1 <= w <= n`, the chunk size `c = n // w` is at least one and
      so is the number `n // c` of full chunks. */
  lemma BlockCount(n: nat, w: nat) returns (c: nat, q: nat)
    requires 1 <= w <= n
    ensures c == n / w && 1 <= c <= n && q == n / c && q >= 1
  {
    SizeFacts(n, w);
    c := n / w;
    q := n / c;
    DivStep(n, c);
  }

  /** What the extension at line 177 appends: the last `n % w` files, or nothing. */
  function RemainderTail<T>(files: seq<T>, w: nat): (tail: seq<T>)
    requires w >= 1
    ensures |files| % w == 0 <==> tail == []
  {
    if |files| % w == 0 then [] else Tail(files, |files| % w)
  }

  /** `q` blocks with `tail` added to the last one: the blocks before it are
      untouched, and the last grows by `tail`. */
  lemma ExtendedInit<T>(files: seq<T>, c: nat, q: nat, tail: seq<T>, chunks: seq<seq<T>>)
    requires q >= 1 && Times(q, c) <= |files|
    requires chunks == if tail == [] then BlocksOf(files, c, q) else ExtendLast(BlocksOf(files, c, q), tail)
    ensures |chunks| == q && Times(q - 1, c) <= |files|
    ensures chunks[..q - 1] == BlocksOf(files, c, q - 1)
    ensures |chunks[q - 1]| == c + |tail|
  {
    var blocks := BlocksOf(files, c, q);
    assert blocks[..q - 1] == BlocksOf(files, c, q - 1);
  }

  /** The same chunks join up to the first `q` blocks then `tail`. */
  lemma ExtendedCover<T>(files: seq<T>, c: nat, q: nat, tail: seq<T>, chunks: seq<seq<T>>)
    requires q >= 1 && Times(q, c) <= |files|
    requires chunks == if tail == [] then BlocksOf(files, c, q) else ExtendLast(BlocksOf(files, c, q), tail)
    ensures |chunks| == q
    ensures Flatten(chunks) == files[..Times(q, c)] + tail
  {
    var blocks := BlocksOf(files, c, q);
    FlattenBlocksOf(files, c, q);
    if tail != [] {
      FlattenExtendLast(blocks, tail);
    }
  }

  /** `range(0, n - c + 1, c)` raises exactly when there are fewer files
      than workers — the empty list included — since then `c == 0`. */
  lemma PartitionFailsIffShort<T>(files: seq<T>, w: nat)
    requires w >= 1
    ensures Partition(files, w).Err? <==> |files| < w
    ensures Partition(files, w).Err? ==> Partition(files, w).error == ZeroStep
  {
    SizeFacts(|files|, w);
    if |files| >= w {
      var c, q := PartitionBlocks(files, w);
    }
  }

  /** The case the code handles as intended: when `w <= n` and
      `n % w < n // w`, exactly `w` chunks come out, the first `w - 1` of
      size `n // w` and the last of size `n // w + n % w`, and joined in
      order they give back `files`. */
  lemma PartitionExact<T>(files: seq<T>, w: nat)
    requires 1 <= w <= |files| && |files| % w < |files| / w
    ensures Partition(files, w).Ok?
    ensures var chunks := Partition(files, w).value;
      && |chunks| == w
      && (forall k :: 0 <= k < w - 1 ==> |chunks[k]| == |files| / w)
      && |chunks[w - 1]| == |files| / w + |files| % w
      && Flatten(chunks) == files
  {
    var n, r := |files|, |files| % w;
    var c := ExactCount(n, w);
    var c', q := PartitionBlocks(files, w);
    assert RemainderTail(files, w) == files[n - r..];
    ExactCover(files, c, w, RemainderTail(files, w), Partition(files, w).value);
  }

  /** `q` blocks that reach up to `tail`, with `tail` added to the last one:
      `q - 1` chunks of `c` files, one of `c + |tail|`, and all of `files`. */
  lemma ExactCover<T>(files: seq<T>, c: nat, q: nat, tail: seq<T>, chunks: seq<seq<T>>)
    requires q >= 1 && Times(q, c) <= |files| && tail == files[Times(q, c)..]
    requires chunks == if tail == [] then BlocksOf(files, c, q) else ExtendLast(BlocksOf(files, c, q), tail)
    ensures |chunks| == q
    ensures forall k :: 0 <= k < q - 1 ==> |chunks[k]| == c
    ensures |chunks[q - 1]| == c + |tail|
    ensures Flatten(chunks) == files
  {
    ExtendedInit(files, c, q, tail, chunks);
    ExtendedCover(files, c, q, tail, chunks);
    InitSizes(files, c, q, chunks);
    PrefixThenRest(files, Times(q, c));
  }

  lemma PrefixThenRest<T>(s: seq<T>, t: nat)
    requires t <= |s|
    ensures s[..t] + s[t..] == s
  {
  }

  /** Chunks whose first `q - 1` are blocks: those hold `c` files each. */
  lemma InitSizes<T>(files: seq<T>, c: nat, q: nat, chunks: seq<seq<T>>)
    requires q >= 1 && Times(q - 1, c) <= |files|
    requires |chunks| == q && chunks[..q - 1] == BlocksOf(files, c, q - 1)
    ensures forall k :: 0 <= k < q - 1 ==> |chunks[k]| == c
  {
    var init := chunks[..q - 1];
    forall k | 0 <= k < q - 1 ensures |chunks[k]| == c {
      BlockAt(files, c, q - 1, k);
      assert chunks[k] == init[k];
    }
  }

  /** The case the code gets wrong: when `n % w >= n // w >= 1` the
      comprehension yields `q = n // c > w` chunks covering the first
      `m = q * c > n - r` files, and the extension then appends the trailing
      `r = n % w` files again, so that the chunks hold `m + r > n` files. */
  lemma PartitionOverlaps<T>(files: seq<T>, w: nat)
    requires w >= 1 && |files| % w >= |files| / w >= 1
    ensures Partition(files, w).Ok? && |files| % w <= |files|
    ensures var n, c, r := |files|, |files| / w, |files| % w;
      var chunks := Partition(files, w).value;
      var m := Times(|chunks|, c);
      && |chunks| > w
      && n - r < m <= n
      && Flatten(chunks) == files[..m] + files[n - r..]
      && |Flatten(chunks)| > n
  {
    var n, r := |files|, |files| % w;
    var c, q := OverlapCount(n, w);
    var c', q' := PartitionBlocks(files, w);
    var tail := RemainderTail(files, w);
    assert tail == files[n - r..];
    var chunks := Partition(files, w).value;
    ExtendedCover(files, c, q, tail, chunks);
    assert |chunks| == q;
  }

  /** In the same case the first `w` chunks, those a pool of `w` workers is
      handed before line 181 fails, are plain blocks covering the first
      `n - n % w` files. */
  lemma PartitionOverlapPrefix<T>(files: seq<T>, w: nat)
    requires w >= 1 && |files| % w >= |files| / w >= 1
    ensures Partition(files, w).Ok? && |Partition(files, w).value| > w
    ensures |files| % w <= |files|
    ensures Flatten(Partition(files, w).value[..w]) == files[..|files| - |files| % w]
  {
    var c, q := OverlapCount(|files|, w);
    var c', q' := PartitionBlocks(files, w);
    var chunks := Partition(files, w).value;
    ExtendedInit(files, c, q, RemainderTail(files, w), chunks);
    ExtendedPrefix(files, c, q, w, chunks);
  }

  /** Chunks whose first `q - 1` are blocks: the first `w < q` of them join
      up to the first `w` blocks' worth of files. */
  lemma ExtendedPrefix<T>(files: seq<T>, c: nat, q: nat, w: nat, chunks: seq<seq<T>>)
    requires w < q && Times(q - 1, c) <= |files|
    requires |chunks| == q && chunks[..q - 1] == BlocksOf(files, c, q - 1)
    ensures Times(w, c) <= |files|
    ensures Flatten(chunks[..w]) == files[..Times(w, c)]
  {
    BlocksPrefix(files, c, q - 1, w);
    assert chunks[..w] == chunks[..q - 1][..w];
    FlattenBlocksOf(files, c, w);
  }

  /** With `c = n // w` and `n % w >= c >= 1`, there are at least `w`
      files, `range` steps `q = n // c > w` times, and the last full block
      ends past `n - n % w`. */
  lemma OverlapCount(n: nat, w: nat) returns (c: nat, q: nat)
    requires w >= 1 && n % w >= n / w >= 1
    ensures w <= n && c == n / w && c >= 1 && q == n / c
    ensures q > w && n % w <= n && n - n % w < Times(q, c) <= n
    ensures Times(w, c) == n - n % w
  {
    SizeFacts(n, w);
    c := n / w;
    MulMonotone(1, c, w);
    q := n / c;
    assert n == c * q + n % c;
    if q <= w {
      MulMonotone(q + 1, w + 1, c);
    }
    MulMonotone(w + 1, q, c);
    TimesIsProduct(q, c);
    TimesIsProduct(w, c);
  }

  /** With `w <= n` and `n % w < c = n // w`, `range` steps exactly `w`
      times and the blocks end at `n - n % w`. */
  lemma ExactCount(n: nat, w: nat) returns (c: nat)
    requires 1 <= w <= n && n % w < n / w
    ensures c == n / w && c >= 1 && n / c == w
    ensures Times(w, c) == n - n % w
  {
    SizeFacts(n, w);
    c := n / w;
    DivUnique(n, c, w, n % w);
    TimesIsProduct(w, c);
  }
}
