/**
 * The eviction governor of limit_ffmpeg.py: collect the ffmpeg processes of
 * an enumeration, sort them by creation time, keep the oldest
 * max_processes and send terminate to the rest; and one step of the monitor
 * loop that evicts only when the census exceeds the ceiling.
 *
 * The outcome of each terminate call is an input: `refused` holds the pids
 * for which psutil.Process(pid).terminate() raises NoSuchProcess or
 * AccessDenied. The methods return the terminate attempts they make.
 */
module LimitFfmpeg {
  import opened Wrappers
  import opened Census

  // ---------------------------------------------------------------------
  // Sorting by create_time: list.sort is stable, so equal creation times
  // keep their enumeration order.
  // ---------------------------------------------------------------------

  predicate SortedByCreateTime(s: seq<ProcRecord>)
  {
    forall i, j :: 0 <= i < j < |s| ==> s[i].createTime <= s[j].createTime
  }

  /** Put x after every record of t created no later than x. */
  function InsertByCreateTime(t: seq<ProcRecord>, x: ProcRecord): seq<ProcRecord>
    decreases |t|
  {
    if |t| == 0 then [x]
    else if t[|t| - 1].createTime <= x.createTime then t + [x]
    else InsertByCreateTime(t[..|t| - 1], x) + [t[|t| - 1]]
  }

  /** The list that ffmpeg_processes.sort(key=create_time) produces. */
  function SortByCreateTime(s: seq<ProcRecord>): seq<ProcRecord>
    decreases |s|
  {
    if |s| == 0 then []
    else InsertByCreateTime(SortByCreateTime(s[..|s| - 1]), s[|s| - 1])
  }

  /** The records of s with creation time k, in their order in s. */
  function WithCreateTime(s: seq<ProcRecord>, k: real): seq<ProcRecord>
    decreases |s|
  {
    if |s| == 0 then []
    else WithCreateTime(s[..|s| - 1], k) + (if s[|s| - 1].createTime == k then [s[|s| - 1]] else [])
  }

  lemma {:induction false} WithCreateTimeConcat(a: seq<ProcRecord>, b: seq<ProcRecord>, k: real)
    ensures WithCreateTime(a + b, k) == WithCreateTime(a, k) + WithCreateTime(b, k)
    decreases |b|
  {
    if |b| > 0 {
      var n := |b| - 1;
      assert (a + b)[..|a + b| - 1] == a + b[..n];
      assert (a + b)[|a + b| - 1] == b[n];
      WithCreateTimeConcat(a, b[..n], k);
    } else {
      assert a + b == a;
    }
  }

  lemma {:induction false} InsertPermutes(t: seq<ProcRecord>, x: ProcRecord)
    ensures multiset(InsertByCreateTime(t, x)) == multiset(t) + multiset{x}
    decreases |t|
  {
    if |t| > 0 && t[|t| - 1].createTime > x.createTime {
      var n := |t| - 1;
      InsertPermutes(t[..n], x);
      assert t == t[..n] + [t[n]];
    }
  }

  lemma {:induction false} InsertSorted(t: seq<ProcRecord>, x: ProcRecord)
    requires SortedByCreateTime(t)
    ensures SortedByCreateTime(InsertByCreateTime(t, x))
    decreases |t|
  {
    if |t| > 0 && t[|t| - 1].createTime > x.createTime {
      var n := |t| - 1;
      var init := t[..n];
      InsertSorted(init, x);
      InsertPermutes(init, x);
      var u := InsertByCreateTime(init, x);
      forall i | 0 <= i < |u| ensures u[i].createTime <= t[n].createTime {
        assert u[i] in multiset(u);
        if u[i] in multiset(init) {
          var j :| 0 <= j < |init| && init[j] == u[i];
          assert t[j] == init[j];
        }
      }
    }
  }

  lemma WithCreateTimeSingle(x: ProcRecord, k: real)
    ensures WithCreateTime([x], k) == if x.createTime == k then [x] else []
  {
    assert [x][..0] == [];
  }

  lemma {:induction false} InsertStable(t: seq<ProcRecord>, x: ProcRecord, k: real)
    ensures WithCreateTime(InsertByCreateTime(t, x), k) == WithCreateTime(t, k) + WithCreateTime([x], k)
    decreases |t|
  {
    if |t| == 0 {
      WithCreateTimeSingle(x, k);
    } else if t[|t| - 1].createTime <= x.createTime {
      WithCreateTimeConcat(t, [x], k);
    } else {
      var n := |t| - 1;
      var init, last := t[..n], t[n];
      var u := InsertByCreateTime(init, x);
      assert InsertByCreateTime(t, x) == u + [last];
      assert t == init + [last];
      InsertStable(init, x, k);
      WithCreateTimeConcat(u, [last], k);
      WithCreateTimeConcat(init, [last], k);
      WithCreateTimeSingle(x, k);
      WithCreateTimeSingle(last, k);
      // x is strictly older than last, so at most one of them has time k
      assert WithCreateTime([x], k) == [] || WithCreateTime([last], k) == [];
    }
  }

  /** The sorted list is ordered by creation time. */
  lemma {:induction false} SortSorted(s: seq<ProcRecord>)
    ensures SortedByCreateTime(SortByCreateTime(s))
    decreases |s|
  {
    if |s| > 0 {
      SortSorted(s[..|s| - 1]);
      InsertSorted(SortByCreateTime(s[..|s| - 1]), s[|s| - 1]);
    }
  }

  /** The sorted list holds exactly the records of the input. */
  lemma {:induction false} SortPermutes(s: seq<ProcRecord>)
    ensures multiset(SortByCreateTime(s)) == multiset(s)
    decreases |s|
  {
    if |s| > 0 {
      var n := |s| - 1;
      SortPermutes(s[..n]);
      InsertPermutes(SortByCreateTime(s[..n]), s[n]);
      assert s == s[..n] + [s[n]];
    }
  }

  /** Records with equal creation time keep their relative order. */
  lemma {:induction false} SortStable(s: seq<ProcRecord>, k: real)
    ensures WithCreateTime(SortByCreateTime(s), k) == WithCreateTime(s, k)
    decreases |s|
  {
    if |s| > 0 {
      var n := |s| - 1;
      SortStable(s[..n], k);
      InsertStable(SortByCreateTime(s[..n]), s[n], k);
      WithCreateTimeConcat(s[..n], [s[n]], k);
      assert s == s[..n] + [s[n]];
    }
  }

  // ---------------------------------------------------------------------
  // The keep / kill partition
  // ---------------------------------------------------------------------

  /** ffmpeg_processes after the sort. */
  function SortedCensus(procs: seq<ProcInfo>): seq<ProcRecord>
  {
    SortByCreateTime(Matching(procs))
  }

  /** processes_to_keep = ffmpeg_processes[:max_processes] */
  function Keep(procs: seq<ProcInfo>, maxProcesses: nat): seq<ProcRecord>
  {
    var sorted := SortedCensus(procs);
    sorted[..Min(maxProcesses, |sorted|)]
  }

  /** processes_to_kill = ffmpeg_processes[max_processes:] */
  function Kill(procs: seq<ProcInfo>, maxProcesses: nat): seq<ProcRecord>
  {
    var sorted := SortedCensus(procs);
    sorted[Min(maxProcesses, |sorted|)..]
  }

  lemma SortedCensusSize(procs: seq<ProcInfo>)
    ensures |SortedCensus(procs)| == |Matching(procs)|
  {
    SortPermutes(Matching(procs));
    assert |multiset(SortedCensus(procs))| == |multiset(Matching(procs))|;
  }

  /**
   * Keep followed by Kill is the census sorted by creation time; Keep has
   * min(n, max_processes) records and Kill the remaining max(0, n - max_processes).
   */
  lemma EvictionPartition(procs: seq<ProcInfo>, maxProcesses: nat)
    ensures Keep(procs, maxProcesses) + Kill(procs, maxProcesses) == SortedCensus(procs)
    ensures SortedByCreateTime(SortedCensus(procs))
    ensures multiset(SortedCensus(procs)) == multiset(Matching(procs))
    ensures |Keep(procs, maxProcesses)| == Min(|Matching(procs)|, maxProcesses)
    ensures |Kill(procs, maxProcesses)|
         == if |Matching(procs)| > maxProcesses then |Matching(procs)| - maxProcesses else 0
  {
    SortedCensusSize(procs);
    SortSorted(Matching(procs));
    SortPermutes(Matching(procs));
  }

  /** The oldest survive: no killed process is older than a kept one. */
  lemma OldestSurvive(procs: seq<ProcInfo>, maxProcesses: nat)
    ensures forall i, j :: 0 <= i < |Keep(procs, maxProcesses)| && 0 <= j < |Kill(procs, maxProcesses)| ==>
      Keep(procs, maxProcesses)[i].createTime <= Kill(procs, maxProcesses)[j].createTime
  {
    var sorted := SortedCensus(procs);
    var m := Min(maxProcesses, |sorted|);
    SortSorted(Matching(procs));
    forall i, j | 0 <= i < m && 0 <= j < |sorted| - m
      ensures sorted[..m][i].createTime <= sorted[m..][j].createTime
    {
      assert sorted[..m][i] == sorted[i] && sorted[m..][j] == sorted[m + j];
    }
  }

  /** With at most max_processes ffmpeg processes nothing is killed. */
  lemma NothingToKill(procs: seq<ProcInfo>, maxProcesses: nat)
    requires |Matching(procs)| <= maxProcesses
    ensures Kill(procs, maxProcesses) == []
    ensures Keep(procs, maxProcesses) == SortedCensus(procs)
  {
    SortedCensusSize(procs);
  }

  // ---------------------------------------------------------------------
  // What remains after eviction
  // ---------------------------------------------------------------------

  /** The records of s whose pid is not in gone. */
  function Unterminated(s: seq<ProcRecord>, gone: set<int>): seq<ProcRecord>
    decreases |s|
  {
    if |s| == 0 then []
    else Unterminated(s[..|s| - 1], gone) + (if s[|s| - 1].pid in gone then [] else [s[|s| - 1]])
  }

  lemma {:induction false} UnterminatedConcat(a: seq<ProcRecord>, b: seq<ProcRecord>, gone: set<int>)
    ensures Unterminated(a + b, gone) == Unterminated(a, gone) + Unterminated(b, gone)
    decreases |b|
  {
    if |b| > 0 {
      var n := |b| - 1;
      assert (a + b)[..|a + b| - 1] == a + b[..n];
      assert (a + b)[|a + b| - 1] == b[n];
      UnterminatedConcat(a, b[..n], gone);
    } else {
      assert a + b == a;
    }
  }

  lemma {:induction false} UnterminatedShorter(s: seq<ProcRecord>, gone: set<int>)
    ensures |Unterminated(s, gone)| <= |s|
    decreases |s|
  {
    if |s| > 0 {
      UnterminatedShorter(s[..|s| - 1], gone);
    }
  }

  lemma {:induction false} UnterminatedAllGone(s: seq<ProcRecord>, gone: set<int>)
    requires forall i :: 0 <= i < |s| ==> s[i].pid in gone
    ensures Unterminated(s, gone) == []
    decreases |s|
  {
    if |s| > 0 {
      UnterminatedAllGone(s[..|s| - 1], gone);
    }
  }

  /** Filtering depends only on the multiset of records, not their order. */
  lemma {:induction false} UnterminatedPermutation(s: seq<ProcRecord>, t: seq<ProcRecord>, gone: set<int>)
    requires multiset(s) == multiset(t)
    ensures |Unterminated(s, gone)| == |Unterminated(t, gone)|
    decreases |s|
  {
    if |s| == 0 {
      assert |t| == |multiset(t)| == 0;
    } else {
      var n := |s| - 1;
      var x := s[n];
      assert s == s[..n] + [x];
      assert x in multiset(t);
      var j :| 0 <= j < |t| && t[j] == x;
      var rest := t[..j] + t[j + 1..];
      assert t == t[..j] + [x] + t[j + 1..];
      assert multiset(t) == multiset(t[..j]) + multiset{x} + multiset(t[j + 1..]);
      assert multiset(rest) == multiset(t[..j]) + multiset(t[j + 1..]);
      assert multiset(s) == multiset(s[..n]) + multiset{x};
      assert multiset(s[..n]) == multiset(s) - multiset{x};
      assert multiset(rest) == multiset(t) - multiset{x};
      UnterminatedPermutation(s[..n], rest, gone);
      UnterminatedConcat(t[..j] + [x], t[j + 1..], gone);
      UnterminatedConcat(t[..j], [x], gone);
      UnterminatedConcat(t[..j], t[j + 1..], gone);
      assert Unterminated([x], gone) == Unterminated([], gone) + (if x.pid in gone then [] else [x]);
    }
  }

  /** The enumeration without the entries whose pid is in gone. */
  function WithoutPids(procs: seq<ProcInfo>, gone: set<int>): seq<ProcInfo>
    decreases |procs|
  {
    if |procs| == 0 then []
    else
      var last := procs[|procs| - 1];
      WithoutPids(procs[..|procs| - 1], gone) + (if last.Listed? && last.pid in gone then [] else [last])
  }

  lemma {:induction false} MatchingWithoutPids(procs: seq<ProcInfo>, gone: set<int>)
    ensures Matching(WithoutPids(procs, gone)) == Unterminated(Matching(procs), gone)
    decreases |procs|
  {
    if |procs| > 0 {
      var n := |procs| - 1;
      var last := procs[n];
      var w := WithoutPids(procs[..n], gone);
      MatchingWithoutPids(procs[..n], gone);
      var tail := if last.Listed? && last.pid in gone then [] else [last];
      var w' := w + tail;
      assert WithoutPids(procs, gone) == w';
      if tail == [] {
        assert w' == w;
      } else {
        assert w'[..|w'| - 1] == w;
      }
      var m := Matching(procs[..n]);
      var mt := if IsFfmpeg(last) then [RecordOf(last)] else [];
      UnterminatedConcat(m, mt, gone);
      if IsFfmpeg(last) {
        assert Unterminated(mt, gone) == Unterminated([], gone) + (if last.pid in gone then [] else mt);
      }
    }
  }

  /**
   * The pids that eviction terminates: those of Kill whose terminate call
   * does not raise.
   */
  function TerminatedPids(procs: seq<ProcInfo>, maxProcesses: nat, refused: set<int>): set<int>
  {
    var kill := Kill(procs, maxProcesses);
    set i | 0 <= i < |kill| && kill[i].pid !in refused :: kill[i].pid
  }

  /**
   * If every terminate call succeeds and a terminated process leaves the
   * process table, at most max_processes ffmpeg processes remain.
   */
  lemma EvictionReachesCeiling(procs: seq<ProcInfo>, maxProcesses: nat, refused: set<int>)
    requires forall i :: 0 <= i < |Kill(procs, maxProcesses)| ==> Kill(procs, maxProcesses)[i].pid !in refused
    ensures |Matching(WithoutPids(procs, TerminatedPids(procs, maxProcesses, refused)))| <= maxProcesses
  {
    var gone := TerminatedPids(procs, maxProcesses, refused);
    var keep, kill := Keep(procs, maxProcesses), Kill(procs, maxProcesses);
    MatchingWithoutPids(procs, gone);
    EvictionPartition(procs, maxProcesses);
    UnterminatedPermutation(Matching(procs), SortedCensus(procs), gone);
    UnterminatedConcat(keep, kill, gone);
    forall i | 0 <= i < |kill| ensures kill[i].pid in gone { }
    UnterminatedAllGone(kill, gone);
    UnterminatedShorter(keep, gone);
  }

  // ---------------------------------------------------------------------
  // The operations
  // ---------------------------------------------------------------------

  datatype Termination = Terminated(pid: int) | TerminateFailed(pid: int)

  /** The loop at limit_ffmpeg.py:27-35: append one record per ffmpeg entry. */
  method CollectFfmpegProcesses(procs: seq<ProcInfo>) returns (found: seq<ProcRecord>)
    ensures found == Matching(procs)
  {
    found := [];
    var i := 0;
    while i < |procs|
      invariant 0 <= i <= |procs|
      invariant found == Matching(procs[..i])
    {
      assert procs[..i + 1][..i] == procs[..i];
      if IsFfmpeg(procs[i]) {
        found := found + [ProcRecord(procs[i].pid, procs[i].createTime)];
      }
      i := i + 1;
    }
    assert procs[..i] == procs;
  }

  /**
   * kill_excess_ffmpeg_processes: one terminate attempt per record of Kill,
   * in sorted order, a failure on one pid not stopping the others; returns
   * the number of records in Kill.
   */
  method KillExcessFfmpegProcesses(procs: seq<ProcInfo>, maxProcesses: nat, refused: set<int>)
    returns (killed: nat, attempts: seq<Termination>)
    ensures killed == |Kill(procs, maxProcesses)|
    ensures killed == if |Matching(procs)| > maxProcesses then |Matching(procs)| - maxProcesses else 0
    ensures |attempts| == killed
    ensures forall i :: 0 <= i < |attempts| ==>
      attempts[i].pid == Kill(procs, maxProcesses)[i].pid &&
      (attempts[i].Terminated? <==> attempts[i].pid !in refused)
  {
    var ffmpegProcesses := CollectFfmpegProcesses(procs);
    ffmpegProcesses := SortByCreateTime(ffmpegProcesses);
    var cut := Min(maxProcesses, |ffmpegProcesses|);
    var processesToKill := ffmpegProcesses[cut..];
    EvictionPartition(procs, maxProcesses);

    attempts := [];
    var i := 0;
    while i < |processesToKill|
      invariant 0 <= i <= |processesToKill|
      invariant |attempts| == i
      invariant forall j :: 0 <= j < i ==>
        attempts[j].pid == processesToKill[j].pid && (attempts[j].Terminated? <==> attempts[j].pid !in refused)
    {
      var pid := processesToKill[i].pid;
      if pid in refused {
        attempts := attempts + [TerminateFailed(pid)];
      } else {
        attempts := attempts + [Terminated(pid)];
      }
      i := i + 1;
    }
    killed := |processesToKill|;
  }

  /**
   * One pass of the monitor loop: census from the first enumeration, and
   * eviction, which enumerates again, only when that census exceeds the ceiling.
   */
  method MonitorStep(first: seq<ProcInfo>, second: seq<ProcInfo>, maxProcesses: nat, refused: set<int>)
    returns (currentCount: nat, killed: Option<nat>, attempts: seq<Termination>)
    ensures currentCount == |Matching(first)|
    ensures currentCount <= maxProcesses ==> killed == None && attempts == []
    ensures currentCount > maxProcesses ==>
      killed == Some(|Kill(second, maxProcesses)|) && |attempts| == |Kill(second, maxProcesses)|
    ensures forall i :: 0 <= i < |attempts| ==>
      attempts[i].pid == Kill(second, maxProcesses)[i].pid &&
      (attempts[i].Terminated? <==> attempts[i].pid !in refused)
  {
    currentCount := CountFfmpegProcesses(first);
    killed, attempts := None, [];
    if currentCount > maxProcesses {
      var n;
      n, attempts := KillExcessFfmpegProcesses(second, maxProcesses, refused);
      killed := Some(n);
    }
  }
}
