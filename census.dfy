/**
 * The process census: one enumeration of the OS process table (what
 * psutil.process_iter yields) and the selection of ffmpeg processes in it.
 * The enumeration is an input; nothing here queries an OS.
 */
module Census {
  import opened Text

  /** One entry of an enumeration. */
  datatype ProcInfo =
    | Listed(pid: int, name: string, createTime: real)
      /** reading this entry's info raised NoSuchProcess, AccessDenied or ZombieProcess */
    | Inaccessible

  /** What the eviction code keeps of a matching process. */
  datatype ProcRecord = ProcRecord(pid: int, createTime: real)

  const ToolName: string := "ffmpeg"

  /** An entry counts as an ffmpeg process when its lower-cased name contains "ffmpeg". */
  predicate IsFfmpeg(p: ProcInfo)
  {
    p.Listed? && Contains(Lower(p.name), ToolName)
  }

  function RecordOf(p: ProcInfo): ProcRecord
    requires p.Listed?
  {
    ProcRecord(p.pid, p.createTime)
  }

  /** The ffmpeg processes of an enumeration, in enumeration order. */
  function Matching(procs: seq<ProcInfo>): (r: seq<ProcRecord>)
    ensures |r| <= |procs|
    decreases |procs|
  {
    if |procs| == 0 then []
    else
      var last := procs[|procs| - 1];
      Matching(procs[..|procs| - 1]) + (if IsFfmpeg(last) then [RecordOf(last)] else [])
  }

  /** The positions of the enumeration that hold an ffmpeg process. */
  function MatchingIndices(procs: seq<ProcInfo>): set<int>
  {
    set i | 0 <= i < |procs| && IsFfmpeg(procs[i])
  }

  /**
   * The census size equals the number of enumerated entries that are
   * ffmpeg processes; inaccessible entries contribute nothing.
   */
  lemma {:induction false} MatchingCountsEntries(procs: seq<ProcInfo>)
    ensures |Matching(procs)| == |MatchingIndices(procs)|
    decreases |procs|
  {
    if |procs| > 0 {
      var n := |procs| - 1;
      var init := procs[..n];
      MatchingCountsEntries(init);
      var below := MatchingIndices(init);
      assert forall i :: i in below <==> 0 <= i < n && IsFfmpeg(procs[i]) by {
        forall i | 0 <= i < n ensures procs[i] == init[i] { }
      }
      if IsFfmpeg(procs[n]) {
        assert MatchingIndices(procs) == below + {n};
      } else {
        assert MatchingIndices(procs) == below;
      }
    }
  }

  /** A record is in the census exactly when some listed ffmpeg entry produced it. */
  lemma {:induction false} MatchingMembers(procs: seq<ProcInfo>, r: ProcRecord)
    ensures r in Matching(procs) <==>
      exists i :: 0 <= i < |procs| && IsFfmpeg(procs[i]) && RecordOf(procs[i]) == r
    decreases |procs|
  {
    if |procs| > 0 {
      var n := |procs| - 1;
      var init := procs[..n];
      MatchingMembers(init, r);
      if r in Matching(init) {
        var i :| 0 <= i < |init| && IsFfmpeg(init[i]) && RecordOf(init[i]) == r;
        assert procs[i] == init[i];
      }
      if exists i :: 0 <= i < |procs| && IsFfmpeg(procs[i]) && RecordOf(procs[i]) == r {
        var i :| 0 <= i < |procs| && IsFfmpeg(procs[i]) && RecordOf(procs[i]) == r;
        if i < n {
          assert init[i] == procs[i];
        }
      }
    }
  }

  /** count_ffmpeg_processes: a counter incremented once per matching entry. */
  method CountFfmpegProcesses(procs: seq<ProcInfo>) returns (count: nat)
    ensures count == |Matching(procs)|
  {
    count := 0;
    var i := 0;
    while i < |procs|
      invariant 0 <= i <= |procs|
      invariant count == |Matching(procs[..i])|
    {
      assert procs[..i + 1][..i] == procs[..i];
      if IsFfmpeg(procs[i]) {
        count := count + 1;
      }
      i := i + 1;
    }
    assert procs[..i] == procs;
  }
}
