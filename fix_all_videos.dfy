/**
 * fix_all_videos.py: re-encode every video of one directory with ffmpeg
 * into a temporary directory, copy each re-encoded file back over its
 * original and delete the temporary copy. The machine's core counts,
 * whether the bundled ffmpeg exists and what each ffmpeg run does are
 * inputs; the thread pool is a sequential loop over the videos.
 */
module FixAllVideos {
  import opened Wrappers
  import opened Text
  import opened FileSystem
  import Paths

  // ---------------------------------------------------------------------
  // Worker count and executable
  // ---------------------------------------------------------------------

  /** The core count used: physical cores, else logical cores, else undetected. */
  function CoreCount(physical: Option<nat>, logical: Option<nat>): Option<nat>
  {
    if physical.Some? then physical else logical
  }

  /** int(c * 0.75) on a non-negative c is the integer quotient 3c/4. */
  lemma FloorThreeQuarters(c: nat)
    ensures ((c as real) * 0.75).Floor == 3 * c / 4
  {
    var k := 3 * c / 4;
    assert 4 * k <= 3 * c < 4 * k + 4;
    assert (k as real) <= (c as real) * 0.75 < (k as real) + 1.0;
  }

  /**
   * get_optimal_threads: three quarters of the cores, rounded down, kept
   * within 2..5; 2 when no core count is detected.
   */
  function GetOptimalThreads(physical: Option<nat>, logical: Option<nat>): (r: int)
    ensures 2 <= r <= 5
    ensures CoreCount(physical, logical) == None ==> r == 2
    ensures CoreCount(physical, logical).Some? ==>
      r == Max(2, Min(5, ((CoreCount(physical, logical).value as real) * 0.75).Floor))
  {
    match CoreCount(physical, logical)
    case None => 2
    case Some(c) =>
      FloorThreeQuarters(c);
      Max(2, Min(5, 3 * c / 4))
  }

  /** The worker count for each core count. */
  lemma OptimalThreadsTable(c: nat)
    ensures c <= 3 ==> GetOptimalThreads(Some(c), None) == 2
    ensures 4 <= c <= 5 ==> GetOptimalThreads(Some(c), None) == 3
    ensures c == 6 ==> GetOptimalThreads(Some(c), None) == 4
    ensures c >= 7 ==> GetOptimalThreads(Some(c), None) == 5
  {
    assert c <= 3 ==> 3 * c / 4 <= 2;
    assert 4 <= c <= 5 ==> 3 * c / 4 == 3;
    assert c == 6 ==> 3 * c / 4 == 4;
    assert c >= 7 ==> 3 * c / 4 >= 5;
  }

  /** More cores never mean fewer workers. */
  lemma OptimalThreadsMonotone(c: nat, d: nat)
    requires c <= d
    ensures GetOptimalThreads(Some(c), None) <= GetOptimalThreads(Some(d), None)
  {
    assert 3 * c <= 3 * d;
    assert 3 * c / 4 <= 3 * d / 4;
  }

  const DefaultFfmpegPath: string := "C:/Users/leduc/AppData/Local/Programs/Python/ffmpeg/bin/ffmpeg.exe"

  /** get_ffmpeg_path: the bundled executable when it exists, else "ffmpeg" from PATH. */
  function GetFfmpegPath(defaultPathExists: bool): (r: string)
    ensures r != ""
    ensures r == DefaultFfmpegPath <==> defaultPathExists
    ensures !defaultPathExists ==> r == "ffmpeg"
  {
    if defaultPathExists then DefaultFfmpegPath else "ffmpeg"
  }

  // ---------------------------------------------------------------------
  // Naming and the conversion command
  // ---------------------------------------------------------------------

  const FixedSuffix: string := "_fixed.mp4"

  /** The name of the temporary output: the input's basename without its extension, plus "_fixed.mp4". */
  function TempOutputName(inputPath: string): string
  {
    Paths.SplitExtRoot(Paths.Basename(inputPath)) + FixedSuffix
  }

  /**
   * For an input that is an entry of a directory, the temporary name is
   * built from the entry's own name, is itself a valid entry name and ends
   * with ".mp4".
   */
  lemma TempOutputNameOfEntry(dir: string, video: string)
    requires ValidName(video)
    ensures TempOutputName(Paths.Join(dir, video)) == Paths.SplitExtRoot(video) + FixedSuffix
    ensures ValidName(TempOutputName(Paths.Join(dir, video)))
    ensures EndsWith(TempOutputName(Paths.Join(dir, video)), ".mp4")
  {
    Paths.BasenameOfJoin(dir, video);
    Paths.SplitExtRootNoSeparator(video);
    FixedNameValid(Paths.SplitExtRoot(video));
  }

  /** Appending "_fixed.mp4" to a separator-free stem gives a valid name ending with ".mp4". */
  lemma FixedNameValid(root: string)
    requires Paths.NoSeparator(root)
    ensures ValidName(root + FixedSuffix)
    ensures EndsWith(root + FixedSuffix, ".mp4")
  {
    var name := root + FixedSuffix;
    forall j | 0 <= j < |name| ensures name[j] != '/' {
      if j >= |root| {
        assert name[j] == FixedSuffix[j - |root|];
      }
    }
    assert name[|name| - 4..] == FixedSuffix[6..];
  }

  /** The video filter: fit into 1280x720 keeping the aspect ratio, then pad to 1280x720. */
  const ScaleFilter: string := "scale=1280:720:force_original_aspect_ratio=decrease,pad=1280:720:(ow-iw)/2:(oh-ih)/2"

  /** The ffmpeg argument vector of fix_video. */
  function FixCommand(ffmpegPath: string, inputPath: string, tempPath: string): seq<string>
  {
    [ffmpegPath,
     "-i", inputPath,
     "-vf", ScaleFilter,
     "-c:v", "libx264",
     "-preset", "fast",
     "-crf", "23",
     "-c:a", "aac",
     "-b:a", "128k",
     "-pix_fmt", "yuv420p",
     "-metadata:s:v:0", "rotate=0",
     "-movflags", "+faststart",
     "-threads", "2",
     "-max_muxing_queue_size", "9999",
     "-y",
     tempPath]
  }

  /**
   * The command has 27 arguments: it starts with the executable and the
   * input, limits ffmpeg to two threads and ends by overwriting the
   * temporary output.
   */
  lemma FixCommandShape(ffmpegPath: string, inputPath: string, tempPath: string)
    ensures |FixCommand(ffmpegPath, inputPath, tempPath)| == 27
    ensures FixCommand(ffmpegPath, inputPath, tempPath)[..3] == [ffmpegPath, "-i", inputPath]
    ensures FixCommand(ffmpegPath, inputPath, tempPath)[21..23] == ["-threads", "2"]
    ensures FixCommand(ffmpegPath, inputPath, tempPath)[25..] == ["-y", tempPath]
  {
    var cmd := FixCommand(ffmpegPath, inputPath, tempPath);
    assert cmd[21] == "-threads" && cmd[22] == "2";
  }

  /** Only the executable and the two paths vary between conversion commands. */
  lemma FixCommandFixedOptions(p: string, i: string, t: string, p': string, i': string, t': string, k: int)
    requires 0 <= k < 27 && k != 0 && k != 2 && k != 26
    ensures FixCommand(p, i, t)[k] == FixCommand(p', i', t')[k]
  {
  }

  // ---------------------------------------------------------------------
  // One video
  // ---------------------------------------------------------------------

  /**
   * What one subprocess.run of ffmpeg did: it could not be started (the
   * call raised), or it exited with a return code after writing data to
   * the output path, or without writing it.
   */
  datatype FfmpegRun = SpawnFailed | Exited(returnCode: int, written: Option<Bytes>)

  predicate Succeeded(run: FfmpegRun)
  {
    run.Exited? && run.returnCode == 0
  }

  /** The temporary directory after the run: -y overwrites whatever was at the output name. */
  function AfterRun(tmp: map<string, Entry>, tempName: string, run: FfmpegRun): map<string, Entry>
  {
    if run.Exited? && run.written.Some? then WriteAt(tmp, tempName, run.written.value) else tmp
  }

  /**
   * What every task of a batch shares: the input and temporary directories'
   * paths, the executable, and what the ffmpeg run converting the file at
   * a given input path does.
   */
  datatype Job = Job(inDir: string, tmpDir: string, ffmpegPath: string, convert: string -> FfmpegRun)

  /** The entries of the input directory and of the temporary directory. */
  datatype Dirs = Dirs(input: map<string, Entry>, temp: map<string, Entry>)

  function InputPath(job: Job, video: string): string { Paths.Join(job.inDir, video) }
  function TempName(job: Job, video: string): string { TempOutputName(InputPath(job, video)) }
  function TempPath(job: Job, video: string): string { Paths.Join(job.tmpDir, TempName(job, video)) }

  /** The command fix_video runs for video. */
  function Command(job: Job, video: string): seq<string>
  {
    FixCommand(job.ffmpegPath, InputPath(job, video), TempPath(job, video))
  }

  /** What the run of Command(job, video) does. */
  function RunOf(job: Job, video: string): FfmpegRun { job.convert(InputPath(job, video)) }

  /** What fix_video returns (None for False) and the temporary entries it leaves. */
  datatype Fixed = Fixed(path: Option<string>, temp: map<string, Entry>)

  /** fix_video on the input entry video, with the temporary directory present. */
  function FixVideoSpec(job: Job, d: Dirs, video: string): Fixed
  {
    if video !in d.input then Fixed(None, d.temp)
    else
      var run := RunOf(job, video);
      Fixed(if Succeeded(run) then Some(TempPath(job, video)) else None, AfterRun(d.temp, TempName(job, video), run))
  }

  /**
   * fix_video returns a path exactly when the input exists and ffmpeg
   * exits with 0, and that path is the temporary output; a missing input
   * leaves the temporary directory alone, and the run touches no other
   * name there.
   */
  lemma FixVideoResult(job: Job, d: Dirs, video: string)
    ensures FixVideoSpec(job, d, video).path.Some? <==> video in d.input && Succeeded(RunOf(job, video))
    ensures FixVideoSpec(job, d, video).path.Some? ==> FixVideoSpec(job, d, video).path.value == TempPath(job, video)
    ensures video !in d.input ==> FixVideoSpec(job, d, video).temp == d.temp
    ensures forall k :: k in d.temp && k != TempName(job, video) ==>
      k in FixVideoSpec(job, d, video).temp && FixVideoSpec(job, d, video).temp[k] == d.temp[k]
  {
  }

  /** What process_video_task leaves and returns. */
  datatype TaskResult = TaskResult(dirs: Dirs, ok: bool)

  /**
   * process_video_task: the fixed file replaces the original only if it
   * exists as a regular file; copy2 from a directory raises and yields False.
   */
  function TaskSpec(job: Job, d: Dirs, video: string): TaskResult
  {
    var fixed := FixVideoSpec(job, d, video);
    var tempName := TempName(job, video);
    if fixed.path.None? || tempName !in fixed.temp then TaskResult(Dirs(d.input, fixed.temp), false)
    else match fixed.temp[tempName]
      case Subdir => TaskResult(Dirs(d.input, fixed.temp), false)
      case File(data) => TaskResult(Dirs(WriteAt(d.input, video, data), fixed.temp - {tempName}), true)
  }

  /** A task that returns False leaves the input directory untouched. */
  lemma TaskFailureKeepsInput(job: Job, d: Dirs, video: string)
    requires !TaskSpec(job, d, video).ok
    ensures TaskSpec(job, d, video).dirs.input == d.input
  {
  }

  /**
   * A conversion that does not succeed (ffmpeg cannot start or exits with a
   * non-zero code) makes the task return False, and a missing input does
   * not touch the temporary directory either.
   */
  lemma TaskConversionFailure(job: Job, d: Dirs, video: string)
    requires video !in d.input || !Succeeded(RunOf(job, video))
    ensures TaskSpec(job, d, video).dirs.input == d.input
    ensures !TaskSpec(job, d, video).ok
    ensures video !in d.input ==> TaskSpec(job, d, video).dirs.temp == d.temp
  {
  }

  /**
   * A run that exits with 0 after writing data replaces the original with
   * that data and leaves no temporary file behind; the rest of the
   * temporary directory is as before.
   */
  lemma TaskSuccess(job: Job, d: Dirs, video: string, data: Bytes)
    requires video in d.input && ValidName(video)
    requires RunOf(job, video) == Exited(0, Some(data))
    requires var t := Paths.SplitExtRoot(video) + FixedSuffix; !(t in d.temp && d.temp[t].Subdir?)
    ensures TaskSpec(job, d, video) ==
      TaskResult(Dirs(WriteAt(d.input, video, data), d.temp - {Paths.SplitExtRoot(video) + FixedSuffix}), true)
  {
    var tempName := TempName(job, video);
    TempOutputNameOfEntry(job.inDir, video);
    assert tempName == Paths.SplitExtRoot(video) + FixedSuffix;
    var tmp1 := WriteAt(d.temp, tempName, data);
    assert AfterRun(d.temp, tempName, RunOf(job, video)) == tmp1;
    assert FixVideoSpec(job, d, video) == Fixed(Some(TempPath(job, video)), tmp1);
    assert tmp1[tempName] == File(data);
    WriteThenRemove(d.temp, tempName, data);
    assert TaskSpec(job, d, video) == TaskResult(Dirs(WriteAt(d.input, video, data), tmp1 - {tempName}), true);
  }

  /** A task changes at most the entry of its own video and adds no input entry. */
  lemma TaskFrame(job: Job, d: Dirs, video: string)
    ensures TaskSpec(job, d, video).dirs.input.Keys == d.input.Keys
    ensures forall k :: k in d.input && k != video ==> TaskSpec(job, d, video).dirs.input[k] == d.input[k]
  {
  }

  // ---------------------------------------------------------------------
  // The batch
  // ---------------------------------------------------------------------

  const VideoExtensions: seq<string> := [".mp4", ".mov", ".avi", ".mkv"]

  /** f.lower().endswith(('.mp4', '.mov', '.avi', '.mkv')) */
  predicate IsVideoName(name: string)
  {
    exists i | 0 <= i < |VideoExtensions| :: EndsWith(Lower(name), VideoExtensions[i])
  }

  /** A listed name selected by the comprehension: a regular file with a video extension. */
  predicate IsVideoFile(m: map<string, Entry>, name: string)
  {
    name in m && m[name].File? && IsVideoName(name)
  }

  /** The list comprehension over a listing, in listing order. */
  function SelectVideos(listing: seq<string>, m: map<string, Entry>): seq<string>
    decreases |listing|
  {
    if |listing| == 0 then []
    else
      var last := listing[|listing| - 1];
      SelectVideos(listing[..|listing| - 1], m) + (if IsVideoFile(m, last) then [last] else [])
  }

  lemma {:induction false} SelectVideosMembers(listing: seq<string>, m: map<string, Entry>, n: string)
    ensures n in SelectVideos(listing, m) <==> n in listing && IsVideoFile(m, n)
    decreases |listing|
  {
    if |listing| > 0 {
      var k := |listing| - 1;
      SelectVideosMembers(listing[..k], m, n);
      assert listing == listing[..k] + [listing[k]];
    }
  }

  lemma {:induction false} SelectVideosDistinct(listing: seq<string>, m: map<string, Entry>)
    requires forall i, j :: 0 <= i < j < |listing| ==> listing[i] != listing[j]
    ensures forall i, j :: 0 <= i < j < |SelectVideos(listing, m)| ==>
      SelectVideos(listing, m)[i] != SelectVideos(listing, m)[j]
    decreases |listing|
  {
    if |listing| > 0 {
      var k := |listing| - 1;
      var init := listing[..k];
      SelectVideosDistinct(init, m);
      if IsVideoFile(m, listing[k]) {
        SelectVideosMembers(init, m, listing[k]);
        assert listing[k] !in init;
      }
    }
  }

  /** The selection from a listing of m: each selected video once, and exactly the video files of m. */
  lemma SelectVideosFacts(listing: seq<string>, m: map<string, Entry>)
    requires IsListing(listing, m)
    ensures forall i, j :: 0 <= i < j < |SelectVideos(listing, m)| ==>
      SelectVideos(listing, m)[i] != SelectVideos(listing, m)[j]
    ensures forall n :: n in SelectVideos(listing, m) <==> IsVideoFile(m, n)
  {
    SelectVideosDistinct(listing, m);
    forall n ensures n in SelectVideos(listing, m) <==> IsVideoFile(m, n) {
      SelectVideosMembers(listing, m, n);
    }
  }

  /** Upper-case extensions are selected as well: "CLIP.MKV" is a video name. */
  lemma UpperCaseExtension()
    ensures IsVideoName("CLIP.MKV")
  {
    assert Lower("CLIP.MKV") == "clip.mkv";
    assert EndsWith(Lower("CLIP.MKV"), VideoExtensions[3]);
  }

  /** The directories after a batch and its success_count. */
  datatype BatchResult = BatchResult(dirs: Dirs, successes: nat)

  /** The tasks in order, each on the directories the previous ones left. */
  function BatchSpec(job: Job, d: Dirs, videos: seq<string>): BatchResult
    decreases |videos|
  {
    if |videos| == 0 then BatchResult(d, 0)
    else
      var before := BatchSpec(job, d, videos[..|videos| - 1]);
      var task := TaskSpec(job, before.dirs, videos[|videos| - 1]);
      BatchResult(task.dirs, if task.ok then before.successes + 1 else before.successes)
  }

  /** The batch over a prefix extended by one video runs that video's task last. */
  lemma BatchStep(job: Job, d: Dirs, videos: seq<string>, i: int)
    requires 0 <= i < |videos|
    ensures var before := BatchSpec(job, d, videos[..i]);
      var task := TaskSpec(job, before.dirs, videos[i]);
      BatchSpec(job, d, videos[..i + 1]) ==
        BatchResult(task.dirs, if task.ok then before.successes + 1 else before.successes)
  {
    assert videos[..i + 1][..i] == videos[..i];
  }

  /**
   * success_count never exceeds the number of videos; the input directory
   * keeps its names, and an entry that is not one of the videos keeps its
   * content.
   */
  lemma {:induction false} BatchFrame(job: Job, d: Dirs, videos: seq<string>, k: string)
    ensures BatchSpec(job, d, videos).successes <= |videos|
    ensures BatchSpec(job, d, videos).dirs.input.Keys == d.input.Keys
    ensures k in d.input && k !in videos ==> BatchSpec(job, d, videos).dirs.input[k] == d.input[k]
    decreases |videos|
  {
    if |videos| > 0 {
      var n := |videos| - 1;
      BatchFrame(job, d, videos[..n], k);
      TaskFrame(job, BatchSpec(job, d, videos[..n]).dirs, videos[n]);
      assert videos == videos[..n] + [videos[n]];
    }
  }

  /** When no conversion succeeds, nothing in the input directory changes and nothing is counted. */
  lemma {:induction false} BatchAllFail(job: Job, d: Dirs, videos: seq<string>)
    requires forall v :: !Succeeded(RunOf(job, v))
    ensures BatchSpec(job, d, videos).dirs.input == d.input
    ensures BatchSpec(job, d, videos).successes == 0
    decreases |videos|
  {
    if |videos| > 0 {
      BatchAllFail(job, d, videos[..|videos| - 1]);
    }
  }

  // ---------------------------------------------------------------------
  // The operations on directories
  // ---------------------------------------------------------------------

  /** The job of a run on these two directories. */
  function JobFor(input: Directory, temp: Directory, defaultPathExists: bool, convert: string -> FfmpegRun): Job
  {
    Job(input.path, temp.path, GetFfmpegPath(defaultPathExists), convert)
  }

  /**
   * fix_video(join(input.path, video), temp.path): creates the temporary
   * directory when missing, runs ffmpeg (ran is the command it was given)
   * and returns the temporary path when the return code is 0.
   */
  method FixVideo(input: Directory, video: string, temp: Directory,
                  defaultPathExists: bool, convert: string -> FfmpegRun)
    returns (fixedPath: Option<string>, ran: Option<seq<string>>)
    requires input != temp && input.Valid() && temp.Valid()
    modifies temp
    ensures temp.Valid()
    ensures temp.present == (old(temp.present) || video in input.entries)
    ensures ran == if video in input.entries then Some(Command(JobFor(input, temp, defaultPathExists, convert), video)) else None
    ensures Fixed(fixedPath, temp.entries) ==
      FixVideoSpec(JobFor(input, temp, defaultPathExists, convert), Dirs(input.entries, old(temp.entries)), video)
  {
    fixedPath, ran := None, None;
    if video !in input.entries {
      return;
    }
    if !temp.present {
      temp.MakeDirs();
    }
    var ffmpegPath := GetFfmpegPath(defaultPathExists);
    var inputPath := Paths.Join(input.path, video);
    var tempName := TempOutputName(inputPath);
    var tempPath := Paths.Join(temp.path, tempName);
    var cmd := FixCommand(ffmpegPath, inputPath, tempPath);
    ghost var job := JobFor(input, temp, defaultPathExists, convert);
    assert tempName == TempName(job, video) && tempPath == TempPath(job, video);
    assert cmd == Command(job, video);
    ran := Some(cmd);
    var run := convert(inputPath);
    ghost var before := temp.entries;
    if run.Exited? && run.written.Some? {
      TempOutputNameOfEntry(input.path, video);
      temp.Write(tempName, run.written.value);
    }
    assert temp.entries == AfterRun(before, tempName, run);
    if run.Exited? && run.returnCode == 0 {
      fixedPath := Some(tempPath);
    }
  }

  /**
   * process_video_task: fix the video, then copy the fixed file over the
   * original and delete the fixed file. ok is the returned flag.
   */
  method ProcessVideoTask(input: Directory, video: string, temp: Directory,
                          defaultPathExists: bool, convert: string -> FfmpegRun)
    returns (ok: bool)
    requires input != temp && input.Valid() && temp.Valid()
    modifies input, temp
    ensures input.Valid() && temp.Valid() && input.present == old(input.present)
    ensures temp.present == (old(temp.present) || video in old(input.entries))
    ensures TaskResult(Dirs(input.entries, temp.entries), ok) ==
      TaskSpec(JobFor(input, temp, defaultPathExists, convert), Dirs(old(input.entries), old(temp.entries)), video)
  {
    ghost var job := JobFor(input, temp, defaultPathExists, convert);
    ghost var d := Dirs(input.entries, temp.entries);
    var fixedPath, _ := FixVideo(input, video, temp, defaultPathExists, convert);
    ghost var fixed := Fixed(fixedPath, temp.entries);
    assert fixed == FixVideoSpec(job, d, video);
    ok := false;
    if fixedPath.Some? {
      var tempName := TempOutputName(Paths.Join(input.path, video));
      assert tempName == TempName(job, video);
      if tempName in temp.entries && temp.entries[tempName].File? {
        var data := temp.entries[tempName].data;
        assert input.present && ValidName(video);
        input.Write(video, data);
        ok := temp.Remove(tempName);
        assert TaskSpec(job, d, video) == TaskResult(Dirs(WriteAt(d.input, video, data), fixed.temp - {tempName}), true);
      } else {
        assert TaskSpec(job, d, video) == TaskResult(Dirs(d.input, fixed.temp), false);
      }
    } else {
      assert TaskSpec(job, d, video) == TaskResult(Dirs(d.input, fixed.temp), false);
    }
  }

  /**
   * The worker pool of process_all_videos, run one task after another: every
   * video is processed in order and the successes are counted.
   */
  method FixEach(input: Directory, temp: Directory, videos: seq<string>,
                 defaultPathExists: bool, convert: string -> FfmpegRun)
    returns (successCount: nat)
    requires input != temp && input.Valid() && temp.Valid() && input.present && temp.present
    modifies input, temp
    ensures input.Valid() && temp.Valid() && input.present && temp.present
    ensures BatchResult(Dirs(input.entries, temp.entries), successCount) ==
      BatchSpec(JobFor(input, temp, defaultPathExists, convert), Dirs(old(input.entries), old(temp.entries)), videos)
  {
    ghost var job := JobFor(input, temp, defaultPathExists, convert);
    ghost var d0 := Dirs(input.entries, temp.entries);
    successCount := 0;
    var i := 0;
    while i < |videos|
      invariant 0 <= i <= |videos|
      invariant input.Valid() && temp.Valid() && input.present && temp.present
      invariant BatchSpec(job, d0, videos[..i]) == BatchResult(Dirs(input.entries, temp.entries), successCount)
    {
      ghost var before := BatchSpec(job, d0, videos[..i]);
      BatchStep(job, d0, videos, i);
      var ok := ProcessVideoTask(input, videos[i], temp, defaultPathExists, convert);
      assert TaskSpec(job, before.dirs, videos[i]) == TaskResult(Dirs(input.entries, temp.entries), ok);
      if ok {
        successCount := successCount + 1;
      }
      assert BatchSpec(job, d0, videos[..i + 1]) == BatchResult(Dirs(input.entries, temp.entries), successCount);
      i := i + 1;
    }
    assert videos[..i] == videos;
  }

  /**
   * process_all_videos: videoFiles is the filtered listing, workers the
   * thread count computed once there is something to do.
   */
  method ProcessAllVideos(input: Directory, temp: Directory,
                          physical: Option<nat>, logical: Option<nat>,
                          defaultPathExists: bool, convert: string -> FfmpegRun)
    returns (videoFiles: seq<string>, successCount: nat, workers: Option<int>)
    requires input != temp && input.Valid() && temp.Valid()
    modifies input, temp
    ensures input.Valid() && temp.Valid() && input.present == old(input.present)
    ensures !old(input.present) ==>
      videoFiles == [] && temp.present == old(temp.present) && temp.entries == old(temp.entries)
    ensures old(input.present) ==> temp.present
    ensures forall i, j :: 0 <= i < j < |videoFiles| ==> videoFiles[i] != videoFiles[j]
    ensures forall n :: n in videoFiles <==> old(input.present) && IsVideoFile(old(input.entries), n)
    ensures workers == if videoFiles == [] then None else Some(GetOptimalThreads(physical, logical))
    ensures BatchResult(Dirs(input.entries, temp.entries), successCount) ==
      BatchSpec(JobFor(input, temp, defaultPathExists, convert), Dirs(old(input.entries), old(temp.entries)), videoFiles)
  {
    videoFiles, successCount, workers := [], 0, None;
    if !input.present {
      return;
    }
    if !temp.present {
      temp.MakeDirs();
    }
    ghost var d0 := Dirs(input.entries, temp.entries);
    assert d0 == Dirs(old(input.entries), old(temp.entries));
    var listing := input.ListDir();
    videoFiles := SelectVideos(listing, input.entries);
    SelectVideosFacts(listing, d0.input);
    assert forall n :: n in videoFiles <==> IsVideoFile(old(input.entries), n);
    if videoFiles == [] {
      return;
    }
    workers := Some(GetOptimalThreads(physical, logical));

    successCount := FixEach(input, temp, videoFiles, defaultPathExists, convert);
  }
}
