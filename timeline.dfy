/** The Gantt chart and the finishing metrics as all four engines keep them:
    the invariant of their loops, the step that records one slice, and what
    holds when they return. */
module Timeline {
  import opened Records

  /** Every entry is a positive slice with `end == start + exec`, entries come
      in time order and do not overlap. */
  ghost predicate Ordered(g: seq<Entry>) {
    (forall k :: 0 <= k < |g| ==> 0 < g[k].exec && g[k].end == g[k].start + g[k].exec) &&
    (forall k, j :: 0 <= k < j < |g| ==> g[k].end <= g[j].start)
  }

  /** Every entry belongs to one of the processes, which had arrived when it started,
      and ends no later than that process's completion once it is finished. */
  ghost predicate Attributed(s: seq<Proc>, g: seq<Entry>) {
    (forall k :: 0 <= k < |g| ==> HasPid(s, g[k].pid)) &&
    (forall k, i :: 0 <= k < |g| && 0 <= i < |s| && g[k].pid == s[i].pid ==>
       s[i].arrival <= g[k].start && (s[i].remaining == 0 ==> g[k].end <= s[i].completion))
  }

  /** End of the last entry of the chart, or 0 when it is empty. */
  function ChartEnd(g: seq<Entry>): int {
    if g == [] then 0 else g[|g| - 1].end
  }

  /** `Ordered`, stated entry by entry as the chart grows: each new entry is a
      positive slice that starts no earlier than the previous one ended. */
  ghost predicate Chained(g: seq<Entry>) {
    g == [] ||
    (var h := g[..|g| - 1];
     var e := g[|g| - 1];
     Chained(h) && ChartEnd(h) <= e.start && 0 < e.exec && e.end == e.start + e.exec)
  }

  /** A chained chart is ordered, and no entry ends after its last one. */
  lemma {:induction false} ChainedOrdered(g: seq<Entry>)
    requires Chained(g)
    ensures Ordered(g) && forall k :: 0 <= k < |g| ==> g[k].end <= ChartEnd(g)
  {
    if g != [] {
      var h := g[..|g| - 1];
      ChainedOrdered(h);
      assert forall k :: 0 <= k < |h| ==> h[k] == g[k];
      if h != [] {
        assert h[|h| - 1].end == ChartEnd(h);
      }
    }
  }

  /** `Attributed` with the position of each entry's process written down in `o`. */
  ghost predicate Owned(s: seq<Proc>, g: seq<Entry>, o: seq<nat>) {
    |o| == |g| &&
    forall k :: 0 <= k < |g| ==>
      o[k] < |s| && s[o[k]].pid == g[k].pid && s[o[k]].arrival <= g[k].start &&
      (s[o[k]].remaining == 0 ==> g[k].end <= s[o[k]].completion)
  }

  /** The bookkeeping of one process against the chart. */
  ghost predicate Accounted(p: Proc, g: seq<Entry>) {
    0 < p.burst && 0 <= p.remaining &&
    // work done so far plus work left is the burst
    Served(g, p.pid) + p.remaining == p.burst &&
    // the metrics stay 0 until the process finishes, and are then
    // stamped with the end of its last entry
    (p.remaining > 0 ==> p.completion == 0 && p.turnaround == 0 && p.waiting == 0) &&
    (p.remaining == 0 ==> Stamped(p, LastEnd(g, p.pid))) &&
    // its slices all lie between its arrival and the end of its last entry
    (Served(g, p.pid) > 0 ==> p.arrival + Served(g, p.pid) <= LastEnd(g, p.pid))
  }

  /** The state of a run at clock `t`; `o` names the process of each entry. */
  ghost predicate Bookkept(s: seq<Proc>, g: seq<Entry>, o: seq<nat>, t: int) {
    0 <= t && Chained(g) && ChartEnd(g) <= t && Owned(s, g, o) &&
    (forall i :: 0 <= i < |s| ==> Accounted(s[i], g))
  }

  /** What every engine guarantees when it returns. */
  ghost predicate Schedule(s: seq<Proc>, g: seq<Entry>) {
    Ordered(g) && Attributed(s, g) &&
    (forall i :: 0 <= i < |s| ==>
       s[i].remaining == 0 && Stamped(s[i], LastEnd(g, s[i].pid)) &&
       s[i].waiting >= 0 && Served(g, s[i].pid) == s[i].burst) &&
    TotalExec(g) == SumBurst(s) &&
    TotalWaiting(s) == TotalTurnaround(s) - SumBurst(s) && TotalWaiting(s) >= 0
  }

  /** With no processes there is nothing to run: the chart of a schedule is empty. */
  lemma {:induction false} EmptySchedule(s: seq<Proc>, g: seq<Entry>)
    requires Schedule(s, g) && s == []
    ensures g == []
  {
  }

  /** The state before the first iteration. */
  lemma {:induction false} Start(s: seq<Proc>)
    requires forall i :: 0 <= i < |s| ==> Fresh(s[i])
    ensures Bookkept(s, [], [], 0)
  {
  }

  lemma {:induction false} LastEndBound(g: seq<Entry>, t: int, pid: int)
    requires 0 <= t && forall k :: 0 <= k < |g| ==> g[k].end <= t
    ensures LastEnd(g, pid) <= t
  {
    if g != [] {
      var h := g[..|g| - 1];
      assert forall k :: 0 <= k < |h| ==> h[k] == g[k];
      LastEndBound(h, t, pid);
    }
  }

  /** The step that Round-Robin, SRT and SJN repeat: record a slice of `exec` time units for
      the process at position `k` from clock `t`, advance the clock, decrement its
      remaining time, and stamp its metrics if that reached 0. */
  method Execute(ps: array<Proc>, k: nat, exec: int, t: int, gantt: seq<Entry>)
    returns (g: seq<Entry>, now: int)
    requires k < ps.Length
    modifies ps
    ensures g == gantt + [Entry(old(ps[k]).pid, exec, t, t + exec)] && now == t + exec
    ensures ps[..] == old(ps[..])[k := Advance(old(ps[k]), exec, now)]
  {
    g := gantt + [Entry(ps[k].pid, exec, t, t + exec)];
    now := t + exec;
    ps[k] := ps[k].(remaining := ps[k].remaining - exec);
    if ps[k].remaining == 0 {
      ps[k] := Stamp(ps[k], now);
    }
  }

  /** Running the process at position `k` for `e` time units from clock `t`
      appends its entry, advances the clock to `t + e` and keeps the invariant. */
  lemma {:induction false} RunSlice(s: seq<Proc>, g: seq<Entry>, o: seq<nat>, t: int, k: nat, e: int)
    requires Bookkept(s, g, o, t) && DistinctPids(s)
    requires k < |s| && s[k].arrival <= t && 0 < e <= s[k].remaining
    ensures Bookkept(s[k := Advance(s[k], e, t + e)], g + [Entry(s[k].pid, e, t, t + e)], o + [k], t + e)
  {
    var p := Advance(s[k], e, t + e);
    var s' := s[k := p];
    var en := Entry(s[k].pid, e, t, t + e);
    var g' := g + [en];
    ChainedOrdered(g);
    SliceChart(g, en, t);
    SliceOwned(s, g, o, t, k, e);
    forall i | 0 <= i < |s'| ensures Accounted(s'[i], g') {
      AppendEntry(g, en, s[i].pid);
      LastEndBound(g, t, s[i].pid);
      assert Accounted(s[i], g);
      if i != k {
        assert s'[i] == s[i] && s[i].pid != en.pid;
      }
    }
  }

  /** `RunSlice` for an array whose ids the roster indexes, with the state after the slice named. */
  lemma {:induction false} SliceBook(roster: Roster, s: seq<Proc>, g: seq<Entry>, o: seq<nat>, t: int, k: nat, e: int,
                                     s': seq<Proc>, g': seq<Entry>, o': seq<nat>, t': int)
    requires k < |s| && s[k].arrival <= t && 0 < e <= s[k].remaining
    requires Kept(roster, s) && Bookkept(s, g, o, t)
    requires t' == t + e && s' == s[k := Advance(s[k], e, t')] && o' == o + [k]
    requires g' == g + [Entry(s[k].pid, e, t, t')]
    ensures Bookkept(s', g', o', t')
  {
    IndexedDistinct(s, roster.index);
    RunSlice(s, g, o, t, k, e);
    assert s' == s[k := Advance(s[k], e, t + e)] && g' == g + [Entry(s[k].pid, e, t, t + e)];
  }

  lemma {:induction false} SliceChart(g: seq<Entry>, en: Entry, t: int)
    requires Chained(g) && ChartEnd(g) <= t
    requires 0 < en.exec && en.start == t && en.end == t + en.exec
    ensures Chained(g + [en]) && ChartEnd(g + [en]) == en.end
  {
    assert (g + [en])[..|g|] == g;
  }

  lemma {:induction false} SliceOwned(s: seq<Proc>, g: seq<Entry>, o: seq<nat>, t: int, k: nat, e: int)
    requires Owned(s, g, o) && forall j :: 0 <= j < |g| ==> g[j].end <= t
    requires k < |s| && s[k].arrival <= t && 0 < e <= s[k].remaining
    ensures Owned(s[k := Advance(s[k], e, t + e)], g + [Entry(s[k].pid, e, t, t + e)], o + [k])
  {
    var s' := s[k := Advance(s[k], e, t + e)];
    var g' := g + [Entry(s[k].pid, e, t, t + e)];
    var o' := o + [k];
    forall j | 0 <= j < |g'|
      ensures o'[j] < |s'| && s'[o'[j]].pid == g'[j].pid && s'[o'[j]].arrival <= g'[j].start
      ensures s'[o'[j]].remaining == 0 ==> g'[j].end <= s'[o'[j]].completion
    {
      if j < |g| {
        assert g'[j] == g[j] && o'[j] == o[j];
      }
    }
  }

  /** With distinct ids, the positions in `o` give the id-level statement. */
  lemma {:induction false} OwnedAttributed(s: seq<Proc>, g: seq<Entry>, o: seq<nat>)
    requires Owned(s, g, o) && DistinctPids(s)
    ensures Attributed(s, g)
  {
    forall k | 0 <= k < |g| ensures HasPid(s, g[k].pid) {
      assert s[o[k]].pid == g[k].pid;
    }
  }

  /** When every process is finished the invariant gives the engine's guarantee. */
  lemma {:induction false} Finish(s: seq<Proc>, g: seq<Entry>, o: seq<nat>, t: int)
    requires Bookkept(s, g, o, t) && DistinctPids(s)
    requires forall i :: 0 <= i < |s| ==> s[i].remaining == 0
    ensures Schedule(s, g)
  {
    ChainedOrdered(g);
    OwnedAttributed(s, g, o);
    TotalIsSumServed(g, s);
    forall i | 0 <= i < |s|
      ensures Served(g, s[i].pid) + s[i].remaining == s[i].burst
      ensures s[i].waiting >= 0 && s[i].waiting == s[i].turnaround - s[i].burst
      ensures Stamped(s[i], LastEnd(g, s[i].pid))
    {
      assert Accounted(s[i], g);
    }
    ServedAll(g, s);
    TotalsRelation(s);
    TotalWaitingNonNegative(s);
  }

  // ---------------------------------------------------------------- non-preemptive runs

  /** Before it finishes, a process has not run at all. */
  ghost predicate Untouched(s: seq<Proc>) {
    forall i :: 0 <= i < |s| ==> s[i].remaining == 0 || s[i].remaining == s[i].burst
  }

  /** Every entry runs its process for its whole burst. */
  ghost predicate WholeSlices(s: seq<Proc>, g: seq<Entry>, o: seq<nat>) {
    |o| == |g| && forall k :: 0 <= k < |g| ==> o[k] < |s| && g[k].exec == s[o[k]].burst
  }

  /** The chart of a non-preemptive engine: one entry per process, each as long as its burst. */
  ghost predicate RunsWhole(s: seq<Proc>, g: seq<Entry>) {
    |g| == |s| &&
    forall k, i :: 0 <= k < |g| && 0 <= i < |s| && g[k].pid == s[i].pid ==> g[k].exec == s[i].burst
  }

  /** Number of entries of process `pid`. */
  function Entries(g: seq<Entry>, pid: int): nat {
    if g == [] then 0 else Entries(g[..|g| - 1], pid) + (if g[|g| - 1].pid == pid then 1 else 0)
  }

  /** A new whole slice keeps `WholeSlices`. */
  lemma {:induction false} WholeSliceStep(s: seq<Proc>, g: seq<Entry>, o: seq<nat>, k: nat, p: Proc, en: Entry)
    requires WholeSlices(s, g, o) && k < |s| && SameInput(p, s[k]) && en.exec == s[k].burst
    ensures WholeSlices(s[k := p], g + [en], o + [k])
  {
    var s', g', o' := s[k := p], g + [en], o + [k];
    forall j | 0 <= j < |g'| ensures o'[j] < |s'| && g'[j].exec == s'[o'[j]].burst {
      if j < |g| {
        assert g'[j] == g[j] && o'[j] == o[j];
      }
    }
  }

  /** With distinct ids, whole slices at the recorded positions are whole slices of the
      processes with those ids. */
  lemma {:induction false} WholeRuns(s: seq<Proc>, g: seq<Entry>, o: seq<nat>)
    requires WholeSlices(s, g, o) && Owned(s, g, o) && DistinctPids(s) && |g| == |s|
    ensures RunsWhole(s, g)
  {
    forall k, i | 0 <= k < |g| && 0 <= i < |s| && g[k].pid == s[i].pid ensures g[k].exec == s[i].burst {
      assert s[o[k]].pid == s[i].pid;
    }
  }

  /** What Shortest-Job-Next and Priority, which run every chosen process to
      completion, add to the bookkeeping of their loops: no process has run in
      part, every entry is a whole burst, and there is one entry per finished process. */
  ghost predicate WholeBook(s: seq<Proc>, g: seq<Entry>, o: seq<nat>, c: int) {
    Untouched(s) && WholeSlices(s, g, o) && |g| == c
  }

  /** Prepared records, before anything has run, satisfy `WholeBook`. */
  lemma {:induction false} WholeStart(s: seq<Proc>)
    requires Prepared(s)
    ensures WholeBook(s, [], [], 0)
  {
    forall i | 0 <= i < |s| ensures s[i].remaining == s[i].burst {
      assert Fresh(s[i]);
    }
  }

  /** Running an unfinished process for all of its remaining time keeps `WholeBook`,
      with one more entry and one more finished process. */
  lemma {:induction false} WholeStep(s: seq<Proc>, g: seq<Entry>, o: seq<nat>, c: int, k: nat, t: int, en: Entry)
    requires WholeBook(s, g, o, c) && k < |s| && s[k].remaining > 0 && en.exec == s[k].remaining
    ensures WholeBook(s[k := Advance(s[k], s[k].remaining, t)], g + [en], o + [k], c + 1)
  {
    var s' := s[k := Advance(s[k], s[k].remaining, t)];
    WholeSliceStep(s, g, o, k, s'[k], en);
    forall i | 0 <= i < |s'| ensures s'[i].remaining == 0 || s'[i].remaining == s'[i].burst {
      if i != k { assert s'[i] == s[i]; }
    }
  }

  /** When every process is counted as finished, the bookkeeping and `WholeBook`
      give the schedule, with one whole entry per process and the input fields kept. */
  lemma {:induction false} WholeFinish(roster: Roster, s: seq<Proc>, g: seq<Entry>, o: seq<nat>, t: int, c: int)
    requires Kept(roster, s) && Bookkept(s, g, o, t) && c == CountDone(s, |s|)
    requires WholeBook(s, g, o, c) && c >= |s|
    ensures Schedule(s, g) && RunsWhole(s, g) && SameInputs(s, roster.input)
  {
    CountDoneAll(s, |s|);
    IndexedDistinct(s, roster.index);
    Finish(s, g, o, t);
    WholeRuns(s, g, o);
  }

  /** When every entry of `pid` is `b` long, `pid` is served `b` times its number of entries. */
  lemma {:induction false} ServedWhole(g: seq<Entry>, pid: int, b: int)
    requires forall k :: 0 <= k < |g| && g[k].pid == pid ==> g[k].exec == b
    ensures Served(g, pid) == Entries(g, pid) * b
  {
    if g != [] {
      var h := g[..|g| - 1];
      assert forall k :: 0 <= k < |h| ==> h[k] == g[k];
      ServedWhole(h, pid, b);
    }
  }

  lemma UnitFactor(n: int, b: int)
    requires n * b == b && b > 0
    ensures n == 1
  {
    assert (n - 1) * b == 0;
  }

  /** In a non-preemptive schedule every process appears in exactly one entry. */
  lemma {:induction false} OneEntryEach(s: seq<Proc>, g: seq<Entry>)
    requires Schedule(s, g) && RunsWhole(s, g) && forall i :: 0 <= i < |s| ==> s[i].burst > 0
    ensures forall i :: 0 <= i < |s| ==> Entries(g, s[i].pid) == 1
  {
    forall i | 0 <= i < |s| ensures Entries(g, s[i].pid) == 1 {
      ServedWhole(g, s[i].pid, s[i].burst);
      UnitFactor(Entries(g, s[i].pid), s[i].burst);
    }
  }
}
