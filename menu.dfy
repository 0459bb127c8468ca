/** The menus of osu_file_cleanup.py reduced to the choices they validate
    (`get_mode_option`, lines 9-30; `choose_file_type`, lines 94-116), the
    table from mode option to markers (lines 144-156), and the process-wide
    `modes_to_delete` (line 7) that one round of main's loop (lines 139-202)
    reads and reassigns. The lines a user types are given as a sequence. */
module Menu {
  import opened Builtins
  import opened Partitioner
  import opened Cleanup

  /** The answers `get_mode_option` accepts (line 28). */
  const ModeOptions: seq<string> := ["1", "2", "3", "4", "5", "6"]

  /** The glob patterns `choose_file_type` returns (lines 109 and 111). The
      second is one literal pattern: glob has no `|` alternation. */
  const BeatmapPattern: string := "*.osu"
  const VideoPattern: string := "*.mp4|*.avi|*.flv"

  /** `get_mode_option` (lines 25-30) over the lines the user types: the
      first line that is one of "1".."6" and the number of lines read, or
      None when the input ends first. */
  method GetModeOption(inputs: seq<string>) returns (choice: Option<string>, consumed: nat)
    ensures consumed <= |inputs|
    ensures choice.Some? ==>
      && consumed >= 1
      && choice.value == inputs[consumed - 1]
      && choice.value in ModeOptions
      && forall k :: 0 <= k < consumed - 1 ==> inputs[k] !in ModeOptions
    ensures choice.None? ==> consumed == |inputs| && forall k :: 0 <= k < |inputs| ==> inputs[k] !in ModeOptions
  {
    consumed := 0;
    while consumed < |inputs|
      invariant consumed <= |inputs|
      invariant forall k :: 0 <= k < consumed ==> inputs[k] !in ModeOptions
    {
      var option := inputs[consumed];
      consumed := consumed + 1;
      if option in ModeOptions {
        return Some(option), consumed;
      }
    }
    return None, consumed;
  }

  /** What `choose_file_type` makes of an answer: a glob pattern, quitting,
      or nothing (the question is asked again). */
  datatype FileTypeChoice = Glob(pattern: string) | Quit

  function FileTypeFor(answer: string): Option<FileTypeChoice>
  {
    if answer == "1" then Some(Glob(BeatmapPattern))
    else if answer == "2" then Some(Glob(VideoPattern))
    else if answer == "3" then Some(Quit)
    else None
  }

  /** `choose_file_type` (lines 101-116) over the lines the user types: the
      meaning of the first answer among "1", "2", "3", and the number of
      lines read, or None when the input ends first. */
  method ChooseFileType(inputs: seq<string>) returns (choice: Option<FileTypeChoice>, consumed: nat)
    ensures consumed <= |inputs|
    ensures choice.Some? ==>
      && consumed >= 1
      && Some(choice.value) == FileTypeFor(inputs[consumed - 1])
      && choice.value in [Glob(BeatmapPattern), Glob(VideoPattern), Quit]
      && forall k :: 0 <= k < consumed - 1 ==> FileTypeFor(inputs[k]).None?
    ensures choice.None? ==> consumed == |inputs| && forall k :: 0 <= k < |inputs| ==> FileTypeFor(inputs[k]).None?
  {
    consumed := 0;
    while consumed < |inputs|
      invariant consumed <= |inputs|
      invariant forall k :: 0 <= k < consumed ==> FileTypeFor(inputs[k]).None?
    {
      var answer := FileTypeFor(inputs[consumed]);
      consumed := consumed + 1;
      if answer.Some? {
        return answer, consumed;
      }
    }
    return None, consumed;
  }

  /** Lines 144-156: the marker list options "1" to "5" assign to
      `modes_to_delete`; None for every other answer ("6" quits). */
  function MarkersFor(option: string): (m: Option<seq<string>>)
    ensures m.Some? <==> option in {"1", "2", "3", "4", "5"}
  {
    if option == "1" then Some(["Mode: 2", "Mode: 3", "Mode: 4"])
    else if option == "2" then Some(["Mode: 1"])
    else if option == "3" then Some(["Mode: 2"])
    else if option == "4" then Some(["Mode: 3"])
    else if option == "5" then Some(["Mode: 4"])
    else None
  }

  /** Option "1" ("all modes except Standard") searches for exactly the
      markers of options "3", "4" and "5" together, and never for the marker
      of option "2" ("only Standard"). */
  lemma AllButStandardIsTheOthers()
    ensures MarkersFor("1").value == MarkersFor("3").value + MarkersFor("4").value + MarkersFor("5").value
    ensures MarkersFor("2").value[0] !in MarkersFor("1").value
  {
  }

  /** The main loop's state: the process-wide `modes_to_delete` (line 7). */
  class Session {
    var modesToDelete: seq<string>

    /** Module load: `modes_to_delete = []`. */
    constructor ()
      ensures modesToDelete == []
    {
      modesToDelete := [];
    }

    /** Lines 142-156: a beatmap round takes the markers of its mode option, or
        quits on "6"; a video round asks for no option and keeps whatever
        markers an earlier round left. Returns false when the program quits. */
    method SelectCriteria(pattern: string, option: Option<string>) returns (proceed: bool)
      requires pattern == BeatmapPattern || pattern == VideoPattern
      requires option.Some? <==> pattern == BeatmapPattern
      requires option.Some? ==> option.value in ModeOptions
      modifies this
      ensures proceed <==> option != Some("6")
      ensures modesToDelete ==
        if option.Some? && MarkersFor(option.value).Some? then MarkersFor(option.value).value else old(modesToDelete)
    {
      if pattern == BeatmapPattern {
        var markers := MarkersFor(option.value);
        if markers.Some? {
          modesToDelete := markers.value;
        } else {
          return false;
        }
      }
      return true;
    }

    /** One round of main's loop once the menus have been answered: select
        the criteria, then run the pass over the scanned files with whatever
        `modes_to_delete` then holds. The outcome is None when the round
        quits on "6". The loop goes on to another round only when the pass
        reported a total: nothing around lines 175, 181 and 189 catches the
        ValueError, the IndexError or a worker's OSError, so each of them
        ends the program. */
    method Round(pattern: string, option: Option<string>, files: seq<ScannedFile>, cpuCount: nat)
        returns (outcome: Option<PassOutcome>, continues: bool)
      requires pattern == BeatmapPattern || pattern == VideoPattern
      requires option.Some? <==> pattern == BeatmapPattern
      requires option.Some? ==> option.value in ModeOptions
      modifies this
      ensures modesToDelete ==
        if option.Some? && MarkersFor(option.value).Some? then MarkersFor(option.value).value else old(modesToDelete)
      ensures outcome.None? <==> option == Some("6")
      ensures outcome.Some? ==> outcome.value == Pass(modesToDelete, files, cpuCount)
      ensures continues <==> option != Some("6") && outcome.value.total.Ok?
    {
      var proceed := SelectCriteria(pattern, option);
      if !proceed {
        return None, false;
      }
      var result, bars := RunPass(modesToDelete, files, cpuCount);
      return Some(result), result.total.Ok?;
    }
  }

  /** A pass without markers never reports a removal. */
  lemma PassWithoutMarkers(files: seq<ScannedFile>, cpuCount: nat)
    ensures var total := Pass([], files, cpuCount).total;
      total.Ok? ==> total.value == 0
  {
    var w := NumThreads(cpuCount);
    var split := Partition(files, w);
    if split.Ok? && |split.value| <= w {
      ChunksAggregate([], split.value);
      NoMarkersDeleteNothing(Flatten(split.value));
    }
  }

  /** A video round run first searches with the empty marker list of line 7,
      so it reports no removal whatever files it scans. */
  method FirstRoundVideos(files: seq<ScannedFile>, cpuCount: nat) returns (outcome: Option<PassOutcome>)
    ensures outcome.Some?
    ensures outcome.value.total.Ok? ==> outcome.value.total.value == 0
  {
    var session := new Session();
    var continues;
    outcome, continues := session.Round(VideoPattern, None, files, cpuCount);
    PassWithoutMarkers(files, cpuCount);
  }

  /** A video round after a beatmap round reuses that round's markers. The
      video round happens only when the beatmap round's pass reported a
      total; an exception in that pass ends the program first. */
  method VideosAfterCatch(beatmaps: seq<ScannedFile>, videos: seq<ScannedFile>, cpuCount: nat)
      returns (first: Option<PassOutcome>, second: Option<PassOutcome>)
    ensures first == Some(Pass(["Mode: 3"], beatmaps, cpuCount))
    ensures second.Some? <==> first.value.total.Ok?
    ensures second.Some? ==> second.value == Pass(["Mode: 3"], videos, cpuCount)
  {
    var session := new Session();
    var continues;
    first, continues := session.Round(BeatmapPattern, Some("4"), beatmaps, cpuCount);
    if continues {
      second, continues := session.Round(VideoPattern, None, videos, cpuCount);
    } else {
      second := None;
    }
  }

  /** Between strings of one length, `in` is equality. */
  lemma SameLengthContains(p: string, t: string)
    requires |p| == |t|
    ensures Contains(p, t) <==> p == t
  {
  }

  /** Under option "1" a beatmap whose text is `Mode: 1` is kept, whatever
      its folder holds. */
  lemma OptionOneKeepsStandard(listing: seq<string>)
    ensures DeleteFile(MarkersFor("1").value, ScannedFile("Mode: 1", listing)) == Kept
  {
    var markers := MarkersFor("1").value;
    forall i | 0 <= i < |markers| ensures !Contains(markers[i], "Mode: 1") {
      SameLengthContains(markers[i], "Mode: 1");
    }
  }

  /** Under option "1" a beatmap whose text is `Mode: 3` goes, and its folder
      too once nothing is left in it. */
  lemma OptionOneRemovesCatch()
    ensures DeleteFile(MarkersFor("1").value, ScannedFile("Mode: 3", [])) == Removed(true)
  {
    var markers := MarkersFor("1").value;
    SameLengthContains(markers[1], "Mode: 3");
  }

  /** A folder of two songs with one worker: under option "1" the `Mode: 3`
      beatmap and its emptied folder go, the `Mode: 1` beatmap stays, and
      the pass reports one removal out of two files read. */
  lemma TwoSongsOneWorker()
    ensures var kept, gone := ScannedFile("Mode: 1", ["x.osu"]), ScannedFile("Mode: 3", []);
      Pass(MarkersFor("1").value, [kept, gone], 4) == PassOutcome([[kept, gone]], Ok(1))
  {
    var kept, gone := ScannedFile("Mode: 1", ["x.osu"]), ScannedFile("Mode: 3", []);
    var markers := MarkersFor("1").value;
    OptionOneKeepsStandard(["x.osu"]);
    OptionOneRemovesCatch();
    var files := [kept, gone];
    PassSingleWorker(markers, files, 4);
    assert NoFailure(markers, files);
    assert CountDeleted(markers, files) == 1 by {
      assert files[..1] == [kept];
    }
  }
}
