# ffmpeg process governor and video batch tools, modelled in Dafny

The repository is a set of Python scripts around an external ffmpeg
executable. This project models the decision logic of four of them:

- **limit_ffmpeg.py** is the eviction governor.
  - It counts running processes whose lower-cased name contains "ffmpeg".
  - It sorts them by creation time, keeps the oldest `max_processes` and
    terminates the rest.
  - Its monitor loop evicts only when the count is above the ceiling.
- **ffmpeg_limiter.py** holds the limiter helpers.
  - Settings with their defaults (path `""`, 3 processes, 2 threads).
  - The slot test `count < max_processes` and the polling wait for a free slot.
  - The command builder: `[path or "ffmpeg", "-i", input, "-threads", str(threads)]`,
    then `key, str(value)` for every option whose value is not None, then
    the output.
  - The order of steps in `run_ffmpeg_with_limits`.
- **fix_all_videos.py** is the batch re-encoder.
  - Worker count `max(2, min(5, int(0.75 * cores)))`, and the choice of
    ffmpeg executable.
  - The temporary name `<stem>_fixed.mp4` and the 27-argument ffmpeg command.
  - Per video: convert into the temporary directory, copy the result over
    the original, delete the temporary file.
  - The whole batch: select the video files, run one task per file, count
    the successes.
- **replace_converted.py** is the converted-file replacer.
  - Every file whose lower-cased name ends with `_converted.mp4` is copied
    over the file named by a case-sensitive `replace('_converted.mp4', '.mp4')`.
  - The converted file is then deleted.
  - Missing originals are skipped.

The operating system is an input.

- A process enumeration is a `seq<ProcInfo>`. An entry whose info could not
  be read (NoSuchProcess, AccessDenied, ZombieProcess) is `Inaccessible`.
- The pids whose `terminate()` raises form an input set. Eviction returns
  the trace of its terminate attempts.
- Core counts and whether the bundled ffmpeg exists are parameters.
- What ffmpeg does to each input path is a function `convert` from the path
  to a `FfmpegRun`: it could not be started, or it exited with a code and
  possibly wrote an output file.
- A directory is a `FileSystem.Directory` object: whether it exists, and a
  map from entry name to a regular file (its bytes) or a sub-directory.
  `copy2`, `os.remove`, `os.makedirs` and `os.listdir` are its methods. The
  order of `os.listdir` is chosen nondeterministically.

Modules:

| module | contents |
|---|---|
| `Wrappers` | the `Option` type |
| `Text` | ASCII `str.lower`, `endswith`, `in`, `str.replace`, `str(int)` |
| `Paths` | `posixpath.join`, `basename`, `splitext` |
| `Census` | the process enumeration and the matching census |
| `LimitFfmpeg` | limit_ffmpeg.py |
| `FfmpegLimiter` | ffmpeg_limiter.py |
| `FileSystem` | directory entries and the `Directory` class |
| `FixAllVideos` | fix_all_videos.py |
| `ReplaceConverted` | replace_converted.py |

Notes on what the code does:

- `process_all_videos` creates the temporary directory before it looks for
  videos. A missing temporary directory therefore exists afterwards even
  when no video is found.
- The batch fixer neither waits for a limiter slot nor uses the limiter's
  command builder. It hard-codes `-threads 2`.
- No backup is taken before the original is overwritten.
- In `process_video_task`, the original is overwritten before the
  temporary file is removed. If the removal then failed, the task would
  report False with the original already replaced. In the model, removing
  a file that was just copied never fails.
- In ffmpeg_limiter.py, an empty `ffmpeg_path` falls back to `"ffmpeg"`;
  whether the configured path exists is not checked.
- Upper-case quirk in replace_converted.py: a name such as
  `CLIP_CONVERTED.MP4` is selected, because the test is case-insensitive.
  The replacement is case-sensitive, so the name maps to itself. `copy2`
  onto the same file raises, the error is caught, and nothing changes
  (`ReplaceConverted.UnmappedNameFails`, `ReplaceConverted.UpperCaseUnmapped`).

## Model

| member | source | states |
|---|---|---|
| Census.Matching | limit_ffmpeg.py:13-35 | the census: one (pid, create_time) record per readable entry whose lower-cased name contains "ffmpeg", in enumeration order, never more than the enumeration; characterised by MatchingCountsEntries and MatchingMembers |
| Census.CountFfmpegProcesses | limit_ffmpeg.py:11-20 | the returned count is the size of the census, with one record per enumerated entry that is an ffmpeg process |
| Census.MatchingCountsEntries | limit_ffmpeg.py:13-20 | the census size is the number of positions of the enumeration holding a readable entry whose lower-cased name contains "ffmpeg"; unreadable entries contribute nothing |
| Census.MatchingMembers | limit_ffmpeg.py:27-35 | a (pid, create_time) record is in the census exactly when some readable ffmpeg entry of the enumeration has that pid and create_time |
| LimitFfmpeg.CollectFfmpegProcesses | limit_ffmpeg.py:24-35 | the collected list is the census, in enumeration order |
| LimitFfmpeg.SortByCreateTime | limit_ffmpeg.py:38 | list.sort(key=create_time) as a stable insertion sort; characterised by SortSorted, SortPermutes and SortStable, which together fix its result |
| LimitFfmpeg.InsertSorted | limit_ffmpeg.py:38 | inserting into a list sorted by create_time keeps it sorted |
| LimitFfmpeg.InsertPermutes | limit_ffmpeg.py:38 | insertion adds exactly the inserted record to the multiset |
| LimitFfmpeg.InsertStable | limit_ffmpeg.py:38 | the new record goes after every record with the same create_time |
| LimitFfmpeg.SortSorted | limit_ffmpeg.py:38 | the sorted census is ordered by create_time, oldest first |
| LimitFfmpeg.SortPermutes | limit_ffmpeg.py:38 | sorting is a permutation of the census |
| LimitFfmpeg.SortStable | limit_ffmpeg.py:38 | sorting keeps the enumeration order among records with equal create_time, as list.sort does |
| LimitFfmpeg.SortedCensusSize | limit_ffmpeg.py:38 | sorting keeps the number of records |
| LimitFfmpeg.Keep | limit_ffmpeg.py:41 | processes_to_keep, the first max_processes records of the sorted census; characterised by EvictionPartition, OldestSurvive and NothingToKill |
| LimitFfmpeg.Kill | limit_ffmpeg.py:42 | processes_to_kill, the sorted census after its first max_processes records; characterised by EvictionPartition, OldestSurvive and NothingToKill |
| LimitFfmpeg.EvictionPartition | limit_ffmpeg.py:38-42 | keep followed by kill is the census sorted by create_time; keep has min(n, max_processes) records and kill has max(0, n - max_processes) |
| LimitFfmpeg.OldestSurvive | limit_ffmpeg.py:38-42 | every kept process is at least as old as every process marked for termination |
| LimitFfmpeg.NothingToKill | limit_ffmpeg.py:41-42 | with at most max_processes ffmpeg processes, the kill list is empty and everything is kept |
| LimitFfmpeg.UnterminatedPermutation | limit_ffmpeg.py:45-51 | how many records survive a set of terminations depends only on the multiset of records |
| LimitFfmpeg.MatchingWithoutPids | limit_ffmpeg.py:45-51 | the census of the table after the terminated pids have left is the old census without those pids |
| LimitFfmpeg.EvictionReachesCeiling | limit_ffmpeg.py:41-51 | when no terminate call raises and terminated processes leave the process table, at most max_processes ffmpeg processes remain |
| LimitFfmpeg.KillExcessFfmpegProcesses | limit_ffmpeg.py:22-53 | returns max(0, n - max_processes); attempts terminate exactly once per kill-list entry, in sorted order; an entry succeeds exactly when its pid is not refused, and a failure does not stop the others |
| LimitFfmpeg.MonitorStep | limit_ffmpeg.py:68-73 | one pass of the monitor evicts only when the current count exceeds max_processes; otherwise nothing is terminated |
| FfmpegLimiter.GetFfmpegSettings | ffmpeg_limiter.py:7-14 | each missing key takes its default (path "", max 3, threads 2); each present key keeps its configured value |
| FfmpegLimiter.LimitFfmpegProcesses | ffmpeg_limiter.py:16-36 | a slot is free exactly when the number of ffmpeg processes is below the configured maximum |
| FfmpegLimiter.WaitForFfmpegSlot | ffmpeg_limiter.py:38-49 | stops at the first poll that finds a free slot, and no earlier poll found one; it is not ready only when no observed poll found a free slot |
| FfmpegLimiter.FfmpegExecutable | ffmpeg_limiter.py:64 | the executable is the configured path when non-empty, and "ffmpeg" otherwise |
| FfmpegLimiter.GivenOptionsMembers | ffmpeg_limiter.py:75-78 | a (flag, text) pair is added exactly when some option has that flag and the non-None value text |
| FfmpegLimiter.GivenOptionsShorter | ffmpeg_limiter.py:75-78 | no more pairs than options, and as many exactly when no value is None |
| FfmpegLimiter.OptionArgsAt | ffmpeg_limiter.py:78 | the option arguments alternate flag, text, in option order, two per given option |
| FfmpegLimiter.FfmpegCommand | ffmpeg_limiter.py:68-81 | the argument list the builder produces; characterised by FfmpegCommandShape, with the given options described by GivenOptionsMembers and GivenOptionsShorter |
| FfmpegLimiter.FfmpegCommandShape | ffmpeg_limiter.py:68-81 | the command is [exe, "-i", input, "-threads", str(threads)], then flag and text of each given option in order, then the output as last element; its length is 6 + 2 * (number of non-None options) |
| FfmpegLimiter.AppendOptions | ffmpeg_limiter.py:75-78 | the loop extends the command by the flag and text of every option whose value is not None, in iteration order |
| FfmpegLimiter.GetFfmpegCommandWithLimits | ffmpeg_limiter.py:51-83 | the built list is the command described by FfmpegCommandShape; None or empty options add nothing |
| FfmpegLimiter.RunFfmpegWithLimits | ffmpeg_limiter.py:85-105 | waits for a slot exactly when wait_for_slot is set and only then uses polls; the command handed to subprocess.run is the built command, after a poll that found a free slot |
| Text.ParseNatToString | ffmpeg_limiter.py:71 | str() of a non-negative thread count is a decimal rendering that reads back as the same number |
| FixAllVideos.FloorThreeQuarters | fix_all_videos.py:20 | int(c * 0.75) equals the integer quotient 3c/4 for every core count c |
| FixAllVideos.GetOptimalThreads | fix_all_videos.py:12-22 | physical cores, else logical cores; 2 when neither is detected; otherwise max(2, min(5, floor(0.75 c))), always between 2 and 5 |
| FixAllVideos.OptimalThreadsTable | fix_all_videos.py:19-20 | up to 3 cores give 2 workers, 4-5 give 3, 6 gives 4, 7 or more give 5 |
| FixAllVideos.OptimalThreadsMonotone | fix_all_videos.py:19-20 | more cores never give fewer workers |
| FixAllVideos.GetFfmpegPath | fix_all_videos.py:24-31 | the bundled path exactly when it exists, otherwise "ffmpeg" |
| Paths.Join | fix_all_videos.py:49 | posixpath.join of two components; characterised by BasenameOfJoin |
| Paths.Basename | fix_all_videos.py:47 | posixpath.basename, the text after the last '/'; characterised by BasenameOfJoin |
| Paths.SplitExtRoot | fix_all_videos.py:48 | posixpath.splitext(p)[0], with the leading-dot rule; characterised by SplitExtParts and SplitExtRootNoSeparator |
| Paths.BasenameOfJoin | fix_all_videos.py:47 | the basename of input_dir joined with a listed name is that name |
| Paths.SplitExtParts | fix_all_videos.py:48 | splitext splits a path into root and extension that give it back; the extension is empty or one '.' followed by no '.' and no '/' |
| Paths.SplitExtRootNoSeparator | fix_all_videos.py:48 | the root of a separator-free name is a separator-free prefix |
| FixAllVideos.TempOutputName | fix_all_videos.py:47-49 | the name f"{base_name}_fixed.mp4" of the temporary output; characterised by TempOutputNameOfEntry and FixedNameValid |
| FixAllVideos.TempOutputNameOfEntry | fix_all_videos.py:47-49 | the temporary output name of a directory entry is its splitext root plus "_fixed.mp4", a valid entry name ending with ".mp4" |
| FixAllVideos.FixedNameValid | fix_all_videos.py:49 | a separator-free stem plus "_fixed.mp4" is a valid entry name ending with ".mp4" |
| FixAllVideos.FixCommand | fix_all_videos.py:52-68 | the 27-element ffmpeg argument list of fix_video; characterised by FixCommandShape and FixCommandFixedOptions |
| FixAllVideos.FixCommandShape | fix_all_videos.py:52-68 | the command has 27 elements; it starts [ffmpeg_path, "-i", input_path], has "-threads", "2" at positions 21-22 and ends with "-y", temp_output_path |
| FixAllVideos.FixCommandFixedOptions | fix_all_videos.py:53-66 | every element except the executable, the input and the output is the same for all calls |
| FixAllVideos.FixVideoSpec | fix_all_videos.py:33-82 | the returned path and the temporary directory after fix_video; characterised by FixVideoResult, and FixVideo is proved to end in it |
| FixAllVideos.FixVideoResult | fix_all_videos.py:33-82 | fix_video returns a path exactly when the input exists and ffmpeg exits with 0, and that path is the temporary output; a missing input leaves the temporary directory unchanged; the run touches no other temporary name |
| FixAllVideos.FixVideo | fix_all_videos.py:33-82 | runs ffmpeg with the 27-argument command exactly when the input exists, after creating the temporary directory if missing; the result and the temporary directory are those FixVideoResult describes |
| FixAllVideos.TaskSpec | fix_all_videos.py:84-105 | the directories and the returned flag after process_video_task; characterised by TaskFailureKeepsInput, TaskConversionFailure, TaskSuccess and TaskFrame, and ProcessVideoTask is proved to end in it |
| FixAllVideos.TaskFailureKeepsInput | fix_all_videos.py:89-105 | a task that returns False leaves the input directory untouched |
| FixAllVideos.TaskConversionFailure | fix_all_videos.py:89-105 | when the input is missing or ffmpeg does not exit with 0, the task returns False and the input directory is unchanged |
| FixAllVideos.TaskSuccess | fix_all_videos.py:89-101 | when ffmpeg exits with 0 and writes data, the original holds that data, the temporary file is gone, the rest of the temporary directory is as before, and the task returns True |
| FixAllVideos.TaskFrame | fix_all_videos.py:84-105 | a task changes at most its own video's entry and adds no input entry |
| FixAllVideos.ProcessVideoTask | fix_all_videos.py:84-105 | the new directories and the returned flag are those the task lemmas above describe |
| FixAllVideos.SelectVideos | fix_all_videos.py:117-119 | video_files, the listed regular files with a lower-cased video extension, in listing order; characterised by SelectVideosFacts and UpperCaseExtension |
| FixAllVideos.SelectVideosFacts | fix_all_videos.py:117-119 | video_files lists each name once, and a name is listed exactly when it is a regular file whose lower-cased name ends with .mp4, .mov, .avi or .mkv |
| FixAllVideos.UpperCaseExtension | fix_all_videos.py:119 | an upper-case extension such as "CLIP.MKV" is selected |
| FixAllVideos.BatchSpec | fix_all_videos.py:131-146 | the directories and success_count after running the tasks in order; characterised by BatchFrame and BatchAllFail, and FixEach is proved to end in it |
| FixAllVideos.BatchFrame | fix_all_videos.py:131-146 | success_count is at most the number of videos; the batch keeps the input directory's names and leaves every entry that is not a selected video unchanged |
| FixAllVideos.BatchAllFail | fix_all_videos.py:131-146 | when no conversion succeeds, the input directory is unchanged and success_count is 0 |
| FixAllVideos.FixEach | fix_all_videos.py:131-144 | the pool, run in the order of video_files, leaves the directories and the success count that folding the task over the videos gives |
| FixAllVideos.ProcessAllVideos | fix_all_videos.py:107-146 | a missing input directory changes nothing; otherwise the temporary directory exists afterwards, even with no videos; selection as in SelectVideosFacts; workers are computed only for a non-empty list; the final state is the fold of the tasks |
| FileSystem.WriteAt | fix_all_videos.py:94 | writing to a name adds that name with the data, keeps every other entry, and leaves the level unchanged when the name is a sub-directory |
| FileSystem.RemoveFile | replace_converted.py:42 | os.remove succeeds exactly on a regular file and removes only that name |
| FileSystem.Directory.MakeDirs | fix_all_videos.py:113-114 | afterwards the directory exists, with the same entries |
| FileSystem.Directory.ListDir | replace_converted.py:15 | os.listdir returns every entry name exactly once |
| FileSystem.Directory.Copy2 | replace_converted.py:38 | copy2 fails on a missing or directory source and on source equal to destination; otherwise the destination holds the source's data |
| FileSystem.Directory.Remove | replace_converted.py:42 | os.remove removes a regular file and fails on anything else |
| FileSystem.Directory.Write | fix_all_videos.py:72 | the output file ffmpeg writes lands at its name |
| ReplaceConverted.SelectConverted | replace_converted.py:15-16 | converted_files, the listed names whose lower-cased form ends with "_converted.mp4", in listing order; characterised by SelectConvertedMembers and SelectConvertedDistinct |
| Text.ReplaceAll | replace_converted.py:28 | str.replace, left to right and non-overlapping; characterised by ReplaceAllAbsent, ReplaceAllTrailing and ReplaceAllNotLonger |
| ReplaceConverted.OriginalName | replace_converted.py:28 | original_file, the converted name with every "_converted.mp4" replaced by ".mp4"; characterised by LowerCaseSuffixMapped, UnmappedNameFails and UpperCaseUnmapped |
| ReplaceConverted.SelectConvertedMembers | replace_converted.py:15-16 | a name is selected exactly when it is listed and its lower-cased form ends with "_converted.mp4" |
| ReplaceConverted.SelectConvertedDistinct | replace_converted.py:15-16 | selection from a listing without repeats has no repeats |
| ReplaceConverted.SuffixSelected | replace_converted.py:16 | any name ending with "_converted.mp4" is selected |
| ReplaceConverted.LowerCaseSuffixMapped | replace_converted.py:28 | a name ending with "_converted.mp4" maps to a different name ending with ".mp4" |
| Text.ReplaceAllTrailing | replace_converted.py:28 | str.replace always replaces a trailing occurrence of a pattern whose first character does not recur in it, and the result ends with the replacement |
| Text.ReplaceAllAbsent | replace_converted.py:28 | str.replace without an occurrence returns the string unchanged |
| Text.ReplaceAllNotLonger | replace_converted.py:28 | replacing "_converted.mp4" by the shorter ".mp4" never lengthens a name, and a name of the same length is unchanged |
| ReplaceConverted.UnmappedNameFails | replace_converted.py:28-42 | a selected name that does not contain "_converted.mp4" case-sensitively maps to itself; copy2 onto itself raises and nothing changes |
| ReplaceConverted.UpperCaseUnmapped | replace_converted.py:15-28 | every stem without 'c' plus "_CONVERTED.MP4" is selected and maps to itself |
| ReplaceConverted.ReplaceOne | replace_converted.py:26-47 | the entries after one pass of the loop body, and whether it skipped, failed or replaced; characterised by OriginalMissingSkipped, ReplacedContent, UnmappedNameFails and ReplaceOneFrame |
| ReplaceConverted.ReplaceEach | replace_converted.py:24-47 | the entries and success_count after the loop; characterised by ReplaceCountBounded and ReplaceEachFrame, and ReplaceConvertedFiles is proved to end in it |
| ReplaceConverted.OriginalMissingSkipped | replace_converted.py:33-35 | a converted file whose original is missing is skipped, with no change and no count |
| ReplaceConverted.ReplacedContent | replace_converted.py:38-45 | on success the original holds the converted file's data, the converted name is gone, and the step counts as a success |
| ReplaceConverted.ReplaceOneFrame | replace_converted.py:28-43 | one step changes at most the converted name and its original and creates no name |
| ReplaceConverted.ReplaceCountBounded | replace_converted.py:24-49 | success_count never exceeds the number of converted files |
| ReplaceConverted.ReplaceEachFrame | replace_converted.py:15-43 | names that are neither a converted file nor the original of one keep their entry, and no name is created |
| ReplaceConverted.ReplaceConvertedFiles | replace_converted.py:8-49 | a missing directory changes nothing; the converted files are listed once each, exactly the selected names; the final directory and success_count are the fold of the loop body over them |

## Left out

- psutil and the OS process table are inputs: enumerations, and the set of pids whose terminate raises. No process is actually signalled.
- A process whose name psutil reports as None would make `.lower()` raise an AttributeError that the source does not catch. The model gives every readable entry a name.
- create_time is a real number. The float representation is not modelled.
- `ram_limit` is read into the settings and never used, so it is left out of `Settings`.
- loguru logging, `config` loading and argparse are left out. The configuration is an `AppConfig` value.
- `time.sleep` and the endless monitor loop. `LimitFfmpeg.MonitorStep` is one pass of the loop.
- `FfmpegLimiter.WaitForFfmpegSlot` sees a finite sequence of polls. When no observed poll finds a slot it returns not ready, where the source would keep waiting. Termination of the real wait is not modelled.
- LimitFfmpeg.EvictionReachesCeiling: it assumes that a terminated process leaves the table before the next census. Processes that start or stop on their own during eviction are not modelled.
- Negative `max_processes`, where Python's negative slice indices apply, is excluded by the type `nat`.
- `subprocess.run` and ffmpeg's transcoding are the input function `convert`, keyed by the input path. The content of the input file influences the outcome only through that function. `FixVideo` returns the command it would run as `ran`.
- The `ThreadPoolExecutor` is a sequential loop in the order of `video_files`. Two videos with the same stem, such as `a.mp4` and `a.mov`, share the temporary name `a_fixed.mp4`. Under real concurrency their tasks could interfere, which the model does not capture. `as_completed` order is irrelevant because only the count is kept.
- The temporary directory is assumed to be a different `Directory` object from the input directory. A temporary directory inside or equal to the input directory is not modelled.
- `kill_ffmpeg_processes` (taskkill) and the `finally` block that calls it are shell-outs with no state of their own in the model.
- cleanup.py, kill_ffmpeg.py and Fix/demo_openai_api.py are not part of this model.
- `copy2`'s metadata copying and the contents of sub-directories are not modelled. Writing onto a sub-directory name leaves the directory level unchanged.
- Paths are POSIX paths with '/' as the separator. Windows drive letters and '\\' separators are not modelled.
- `str.lower` is modelled on ASCII letters only.
- Exceptions other than the modelled ones are not modelled. For copy2 these are a missing source, a directory source, and the same file. For os.remove they are a missing name and a directory. For subprocess.run it is a failed spawn. Permission or disk errors are examples of what is left out.
