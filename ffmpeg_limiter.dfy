/**
 * ffmpeg_limiter.py: settings with their defaults, the "may a new ffmpeg
 * start?" check, the polling wait for a free slot, the command builder and
 * the order of steps in run_ffmpeg_with_limits.
 *
 * The configuration and the process enumerations are inputs. The polling
 * wait sees a finite sequence of enumerations, one per poll.
 */
module FfmpegLimiter {
  import opened Wrappers
  import opened Text
  import opened Census

  /** The entries of config.app the limiter reads; None when the key is absent. */
  datatype AppConfig = AppConfig(
    ffmpegPath: Option<string>,
    maxFfmpegProcesses: Option<int>,
    ffmpegThreadsPerProcess: Option<int>)

  datatype Settings = Settings(ffmpegPath: string, maxProcesses: int, threadsPerProcess: int)

  const DefaultMaxProcesses: int := 3
  const DefaultThreadsPerProcess: int := 2

  /** get_ffmpeg_settings: each setting is the configured value, or its default. */
  function GetFfmpegSettings(cfg: AppConfig): (s: Settings)
    ensures cfg.ffmpegPath == None ==> s.ffmpegPath == ""
    ensures cfg.maxFfmpegProcesses == None ==> s.maxProcesses == 3
    ensures cfg.ffmpegThreadsPerProcess == None ==> s.threadsPerProcess == 2
    ensures cfg.ffmpegPath.Some? ==> s.ffmpegPath == cfg.ffmpegPath.value
    ensures cfg.maxFfmpegProcesses.Some? ==> s.maxProcesses == cfg.maxFfmpegProcesses.value
    ensures cfg.ffmpegThreadsPerProcess.Some? ==> s.threadsPerProcess == cfg.ffmpegThreadsPerProcess.value
  {
    Settings(
      match cfg.ffmpegPath case Some(p) => p case None => "",
      match cfg.maxFfmpegProcesses case Some(m) => m case None => DefaultMaxProcesses,
      match cfg.ffmpegThreadsPerProcess case Some(t) => t case None => DefaultThreadsPerProcess)
  }

  /** The slot predicate: fewer ffmpeg processes than the configured maximum. */
  predicate SlotFree(cfg: AppConfig, procs: seq<ProcInfo>)
  {
    |Matching(procs)| < GetFfmpegSettings(cfg).maxProcesses
  }

  /** limit_ffmpeg_processes: count the ffmpeg processes and compare with the ceiling. */
  method LimitFfmpegProcesses(cfg: AppConfig, procs: seq<ProcInfo>) returns (free: bool)
    ensures free <==> |Matching(procs)| < GetFfmpegSettings(cfg).maxProcesses
  {
    var settings := GetFfmpegSettings(cfg);
    var currentCount := CountFfmpegProcesses(procs);
    free := currentCount < settings.maxProcesses;
  }

  /**
   * wait_for_ffmpeg_slot over the enumerations seen at successive polls.
   * It stops at the first poll that finds a free slot (ready, and pollsUsed
   * is that poll's number); ready is false only when no poll found one,
   * which is where the source would go on waiting.
   */
  method WaitForFfmpegSlot(cfg: AppConfig, polls: seq<seq<ProcInfo>>) returns (ready: bool, pollsUsed: nat)
    ensures pollsUsed <= |polls|
    ensures ready <==> exists j :: 0 <= j < |polls| && SlotFree(cfg, polls[j])
    ensures ready ==> 0 < pollsUsed && SlotFree(cfg, polls[pollsUsed - 1])
    ensures forall j :: 0 <= j < pollsUsed - 1 ==> !SlotFree(cfg, polls[j])
    ensures !ready ==> pollsUsed == |polls|
  {
    ready, pollsUsed := false, 0;
    while !ready && pollsUsed < |polls|
      invariant pollsUsed <= |polls|
      invariant ready ==> 0 < pollsUsed && SlotFree(cfg, polls[pollsUsed - 1])
      invariant forall j :: 0 <= j < pollsUsed && !(ready && j == pollsUsed - 1) ==> !SlotFree(cfg, polls[j])
    {
      ready := LimitFfmpegProcesses(cfg, polls[pollsUsed]);
      pollsUsed := pollsUsed + 1;
    }
  }

  // ---------------------------------------------------------------------
  // The command builder
  // ---------------------------------------------------------------------

  /** An option value: None, or the text str(value) gives. */
  datatype OptionValue = NoValue | Value(text: string)

  /** The options that are not None, as (flag, text) pairs in iteration order. */
  function GivenOptions(options: seq<(string, OptionValue)>): seq<(string, string)>
    decreases |options|
  {
    if |options| == 0 then []
    else
      var last := options[|options| - 1];
      GivenOptions(options[..|options| - 1]) + (if last.1.Value? then [(last.0, last.1.text)] else [])
  }

  /** The arguments a list of (flag, text) pairs contributes: flag, text, flag, text, ... */
  function OptionArgs(pairs: seq<(string, string)>): seq<string>
    decreases |pairs|
  {
    if |pairs| == 0 then []
    else OptionArgs(pairs[..|pairs| - 1]) + [pairs[|pairs| - 1].0, pairs[|pairs| - 1].1]
  }

  /** `settings["ffmpeg_path"] or "ffmpeg"` */
  function FfmpegExecutable(cfg: AppConfig): (exe: string)
    ensures exe != ""
    ensures GetFfmpegSettings(cfg).ffmpegPath != "" ==> exe == GetFfmpegSettings(cfg).ffmpegPath
    ensures GetFfmpegSettings(cfg).ffmpegPath == "" ==> exe == "ffmpeg"
  {
    var path := GetFfmpegSettings(cfg).ffmpegPath;
    if path != "" then path else "ffmpeg"
  }

  function OptionsOrEmpty(options: Option<seq<(string, OptionValue)>>): seq<(string, OptionValue)>
  {
    match options case Some(o) => o case None => []
  }

  /** The fixed head of the command: executable, input and thread count. */
  function BaseCommand(exe: string, inputFile: string, threads: int): seq<string>
  {
    [exe, "-i", inputFile, "-threads", IntToString(threads)]
  }

  /** The argument vector get_ffmpeg_command_with_limits builds. */
  function FfmpegCommand(cfg: AppConfig, inputFile: string, outputFile: string,
                         options: Option<seq<(string, OptionValue)>>): seq<string>
  {
    BaseCommand(FfmpegExecutable(cfg), inputFile, GetFfmpegSettings(cfg).threadsPerProcess)
      + OptionArgs(GivenOptions(OptionsOrEmpty(options))) + [outputFile]
  }

  lemma {:induction false} OptionArgsAt(pairs: seq<(string, string)>)
    ensures |OptionArgs(pairs)| == 2 * |pairs|
    ensures forall k :: 0 <= k < |pairs| ==>
      OptionArgs(pairs)[2 * k] == pairs[k].0 && OptionArgs(pairs)[2 * k + 1] == pairs[k].1
    decreases |pairs|
  {
    if |pairs| > 0 {
      var n := |pairs| - 1;
      OptionArgsAt(pairs[..n]);
      forall k | 0 <= k < n ensures pairs[..n][k] == pairs[k] { }
    }
  }

  /** A (flag, text) pair is given exactly when some option has that flag and a non-None value. */
  lemma {:induction false} GivenOptionsMembers(options: seq<(string, OptionValue)>, key: string, text: string)
    ensures (key, text) in GivenOptions(options) <==> exists i :: 0 <= i < |options| && options[i] == (key, Value(text))
    decreases |options|
  {
    if |options| > 0 {
      var n := |options| - 1;
      GivenOptionsMembers(options[..n], key, text);
      if exists i :: 0 <= i < n && options[..n][i] == (key, Value(text)) {
        var i :| 0 <= i < n && options[..n][i] == (key, Value(text));
        assert options[i] == options[..n][i];
      }
      if exists i :: 0 <= i < |options| && options[i] == (key, Value(text)) {
        var i :| 0 <= i < |options| && options[i] == (key, Value(text));
        if i < n {
          assert options[..n][i] == options[i];
        }
      }
    }
  }

  lemma {:induction false} GivenOptionsShorter(options: seq<(string, OptionValue)>)
    ensures |GivenOptions(options)| <= |options|
    ensures |GivenOptions(options)| == |options| <==> forall i :: 0 <= i < |options| ==> options[i].1.Value?
    decreases |options|
  {
    if |options| > 0 {
      var n := |options| - 1;
      GivenOptionsShorter(options[..n]);
      assert forall i :: 0 <= i < n ==> options[..n][i] == options[i];
    }
  }

  /**
   * The shape of the command: executable, "-i", input, "-threads", threads,
   * then two arguments per option whose value is not None, in order, then
   * the output file: 6 + 2 * (number of given options) arguments.
   */
  lemma FfmpegCommandShape(cfg: AppConfig, inputFile: string, outputFile: string,
                           options: Option<seq<(string, OptionValue)>>)
    ensures var cmd := FfmpegCommand(cfg, inputFile, outputFile, options);
      var given := GivenOptions(OptionsOrEmpty(options));
      && |cmd| == 6 + 2 * |given|
      && cmd[..5] == [FfmpegExecutable(cfg), "-i", inputFile, "-threads",
                      IntToString(GetFfmpegSettings(cfg).threadsPerProcess)]
      && cmd[|cmd| - 1] == outputFile
      && forall k :: 0 <= k < |given| ==> cmd[5 + 2 * k] == given[k].0 && cmd[6 + 2 * k] == given[k].1
  {
    var given := GivenOptions(OptionsOrEmpty(options));
    OptionArgsAt(given);
  }

  lemma OptionArgsStep(items: seq<(string, OptionValue)>, i: nat)
    requires i < |items|
    ensures OptionArgs(GivenOptions(items[..i + 1]))
         == OptionArgs(GivenOptions(items[..i]))
            + (if items[i].1.Value? then [items[i].0, items[i].1.text] else [])
  {
    assert items[..i + 1][..i] == items[..i];
    var given := GivenOptions(items[..i]);
    if items[i].1.Value? {
      var pair := (items[i].0, items[i].1.text);
      assert GivenOptions(items[..i + 1]) == given + [pair];
      assert (given + [pair])[..|given|] == given;
    } else {
      assert GivenOptions(items[..i + 1]) == given;
    }
  }

  /** The loop of get_ffmpeg_command_with_limits: flag and text of each option whose value is not None. */
  method AppendOptions(base: seq<string>, items: seq<(string, OptionValue)>) returns (cmd: seq<string>)
    ensures cmd == base + OptionArgs(GivenOptions(items))
  {
    cmd := base;
    var i := 0;
    while i < |items|
      invariant 0 <= i <= |items|
      invariant cmd == base + OptionArgs(GivenOptions(items[..i]))
    {
      OptionArgsStep(items, i);
      ghost var done := OptionArgs(GivenOptions(items[..i]));
      var key := items[i].0;
      var value := items[i].1;
      if value.Value? {
        cmd := cmd + [key, value.text];
        assert cmd == base + (done + [key, value.text]);
      }
      i := i + 1;
    }
    assert items[..i] == items;
  }

  /** get_ffmpeg_command_with_limits: the base command, extended once per given option, then the output. */
  method GetFfmpegCommandWithLimits(cfg: AppConfig, inputFile: string, outputFile: string,
                                    options: Option<seq<(string, OptionValue)>>)
    returns (cmd: seq<string>)
    ensures cmd == FfmpegCommand(cfg, inputFile, outputFile, options)
  {
    var settings := GetFfmpegSettings(cfg);
    var ffmpegPath := if settings.ffmpegPath != "" then settings.ffmpegPath else "ffmpeg";
    assert ffmpegPath == FfmpegExecutable(cfg);
    cmd := BaseCommand(ffmpegPath, inputFile, settings.threadsPerProcess);
    if options.Some? && |options.value| > 0 {
      cmd := AppendOptions(cmd, options.value);
    } else {
      assert GivenOptions(OptionsOrEmpty(options)) == [];
    }
    cmd := cmd + [outputFile];
  }

  /**
   * run_ffmpeg_with_limits: wait for a slot first exactly when wait_for_slot
   * is set, then build the command and hand it to subprocess.run. `ran` is
   * the command handed over; it is None only while the wait is still
   * blocked after the last observed poll.
   */
  method RunFfmpegWithLimits(cfg: AppConfig, inputFile: string, outputFile: string,
                             options: Option<seq<(string, OptionValue)>>, waitForSlot: bool,
                             polls: seq<seq<ProcInfo>>)
    returns (pollsUsed: nat, ran: Option<seq<string>>)
    ensures pollsUsed <= |polls|
    ensures !waitForSlot ==> pollsUsed == 0 && ran.Some?
    ensures waitForSlot ==> (ran.Some? <==> exists j :: 0 <= j < |polls| && SlotFree(cfg, polls[j]))
    ensures waitForSlot && ran.Some? ==> 0 < pollsUsed <= |polls| && SlotFree(cfg, polls[pollsUsed - 1])
    ensures forall j :: 0 <= j < pollsUsed - 1 ==> !SlotFree(cfg, polls[j])
    ensures ran.Some? ==> ran.value == FfmpegCommand(cfg, inputFile, outputFile, options)
  {
    pollsUsed, ran := 0, None;
    var ready := true;
    if waitForSlot {
      ready, pollsUsed := WaitForFfmpegSlot(cfg, polls);
    }
    if ready {
      var cmd := GetFfmpegCommandWithLimits(cfg, inputFile, outputFile, options);
      ran := Some(cmd);
    }
  }
}
