/** Shortest-Job-Next: the ready queue is sorted by remaining time on every
    decision and its head runs to completion. */
module SjnEngine {
  import opened Records
  import opened Sorting
  import opened Queues
  import opened Timeline
  import opened ArrivalOrder
  import ReadyLoop

  /** The invariant of the loop: `c` counts the finished processes, each of which
      was run once, for its whole burst; the others have not run yet. */
  ghost predicate Inv(roster: Roster, s: seq<Proc>, g: seq<Entry>, o: seq<nat>, q: seq<nat>, t: int, c: int) {
    ReadyLoop.Inv(roster, s, g, o, q, t, c) && WholeBook(s, g, o, c)
  }

  method RunSjn(ps: array<Proc>) returns (gantt: seq<Entry>)
    requires Prepared(ps[..])
    modifies ps
    ensures Schedule(ps[..], gantt) && RunsWhole(ps[..], gantt)
    ensures SameInputs(ps[..], SortBy(old(ps[..]), ArrivalKey)) && ArrivalSorted(ps[..])
  {
    SortByArrival(ps);
    SortByArrivalPrepared(old(ps[..]));
    ghost var roster := RosterOf(ps[..]);
    StartInv(ps[..]);
    gantt := Simulate(ps, roster);
    SameInputsSorted(ps[..], roster.input);
  }

  /** The main loop, on the records sorted by arrival. */
  method Simulate(ps: array<Proc>, ghost roster: Roster) returns (gantt: seq<Entry>)
    requires Inv(roster, ps[..], [], [], [], 0, 0)
    modifies ps
    ensures Schedule(ps[..], gantt) && RunsWhole(ps[..], gantt) && SameInputs(ps[..], roster.input)
  {
    var currentTime := 0;
    var completed := 0;
    var readyQueue: seq<nat> := [];
    gantt := [];
    ghost var owners: seq<nat> := [];
    while completed < ps.Length
      invariant Inv(roster, ps[..], gantt, owners, readyQueue, currentTime, completed)
      decreases WorkLeft(ps[..], ps.Length), roster.horizon - currentTime
    {
      var s := ps[..];
      ghost var qa := readyQueue;
      // add the processes that have arrived
      readyQueue := Admit(s, readyQueue, currentTime, None);
      ReadyLoop.AdmitInv(roster, s, gantt, owners, qa, currentTime, completed);
      if |readyQueue| == 0 {
        ReadyLoop.IdleInv(roster, s, gantt, owners, qa, currentTime, completed);
        currentTime := currentTime + 1;
        continue;
      }
      var chosen;
      chosen, readyQueue, gantt, owners, currentTime, completed :=
        Serve(ps, roster, readyQueue, gantt, owners, currentTime, completed);
    }
    WholeFinish(roster, ps[..], gantt, owners, currentTime, completed);
  }

  /** One decision: sort the ready queue by remaining time, run its head to
      completion, and filter the finished processes out of the queue. */
  method Serve(ps: array<Proc>, ghost roster: Roster, queue: seq<nat>, gantt: seq<Entry>, ghost owners: seq<nat>,
               currentTime: int, completed: int)
    returns (chosen: nat, queue': seq<nat>, gantt': seq<Entry>, ghost owners': seq<nat>, currentTime': int,
             completed': int)
    requires queue != [] && Inv(roster, ps[..], gantt, owners, queue, currentTime, completed)
    requires ReadyLoop.AllReady(ps[..], queue, currentTime)
    modifies ps
    ensures Inv(roster, ps[..], gantt', owners', queue', currentTime', completed')
    ensures completed' == completed + 1
    ensures WorkLeft(ps[..], ps.Length) < old(WorkLeft(ps[..], ps.Length))
    // the head of the stable sort: the shortest job among all that are ready,
    // earliest in the queue among equals
    ensures chosen < ps.Length && chosen == queue[FirstMin(queue, RemainingKey(old(ps[..])))]
    ensures ShortestReady(old(ps[..]), chosen, currentTime)
    ensures var e := old(ps[chosen].burst);
            currentTime' == currentTime + e &&
            gantt' == gantt + [Entry(old(ps[chosen].pid), e, currentTime, currentTime')] &&
            ps[..] == old(ps[..])[chosen := Advance(old(ps[chosen]), e, currentTime')]
    // the filter drops exactly the process that ran
    ensures queue' == SortBy(queue, RemainingKey(old(ps[..])))[1..]
  {
    ghost var s := ps[..];
    var sorted := SortBy(queue, RemainingKey(ps[..]));
    SortInv(roster, s, gantt, owners, queue, currentTime, completed, sorted);
    chosen := sorted[0];
    var exec := ps[chosen].remaining;
    gantt', currentTime' := Execute(ps, chosen, exec, currentTime, gantt);
    owners' := owners + [chosen];
    if ps[chosen].remaining == 0 {
      completed' := completed + 1;
    } else {
      completed' := completed;
    }
    queue' := KeepUnfinished(sorted, ps[..]);
    SliceInv(roster, s, gantt, owners, sorted, currentTime, completed, chosen, exec,
             ps[..], gantt', owners', currentTime', queue', completed');
    Progress(s, chosen, ps[chosen]);
  }

  /** Process `k` has arrived by `t`, is unfinished, and no ready process has a
      shorter burst. */
  ghost predicate ShortestReady(s: seq<Proc>, k: nat, t: int) {
    k < |s| && s[k].arrival <= t && s[k].remaining > 0 &&
    forall i :: 0 <= i < |s| && s[i].arrival <= t && s[i].remaining > 0 ==> s[k].burst <= s[i].burst
  }

  lemma {:induction false} StartInv(s: seq<Proc>)
    requires Prepared(s)
    ensures Inv(RosterOf(s), s, [], [], [], 0, 0)
  {
    ReadyLoop.StartInv(s);
    WholeStart(s);
  }

  /** Sorting the queue keeps the invariant; its new head is the shortest ready job. */
  lemma {:induction false} SortInv(roster: Roster, s: seq<Proc>, g: seq<Entry>, o: seq<nat>, q: seq<nat>, t: int,
                                   c: int, sorted: seq<nat>)
    requires Inv(roster, s, g, o, q, t, c) && q != [] && sorted == SortBy(q, RemainingKey(s))
    requires ReadyLoop.AllReady(s, q, t)
    ensures Inv(roster, s, g, o, sorted, t, c) && sorted != [] && sorted[0] < |s|
    ensures sorted[0] == q[FirstMin(q, RemainingKey(s))]
    ensures ShortestReady(s, sorted[0], t) && s[sorted[0]].remaining == s[sorted[0]].burst
  {
    SortedQueue(s, q, t);
    var k := sorted[0];
    assert k in sorted;
    forall i | 0 <= i < |s| && s[i].arrival <= t && s[i].remaining > 0 ensures s[k].burst <= s[i].burst {
      assert i in q;
    }
  }

  /** Running the head of the sorted queue to completion keeps the invariant, and
      the filter then leaves the rest of the queue. */
  lemma {:induction false} SliceInv(roster: Roster, s: seq<Proc>, g: seq<Entry>, o: seq<nat>, q: seq<nat>, t: int,
                                    c: int, k: nat, e: int,
                                    s': seq<Proc>, g': seq<Entry>, o': seq<nat>, t': int, q': seq<nat>, c': int)
    requires Inv(roster, s, g, o, q, t, c) && q != [] && k == q[0] && k < |s| && e == s[k].remaining
    requires t' == t + e && s' == s[k := Advance(s[k], e, t')] && o' == o + [k]
    requires g' == g + [Entry(s[k].pid, e, t, t')]
    requires forall x :: x in q ==> x < |s'|
    requires q' == KeepUnfinished(q, s')
    requires c' == (if s'[k].remaining == 0 then c + 1 else c)
    ensures Inv(roster, s', g', o', q', t', c') && q' == q[1..] && c' == c + 1
  {
    assert k in q;
    var p := Advance(s[k], e, t');
    SliceBook(roster, s, g, o, t, k, e, s', g', o', t');
    KeptUpdate(roster, s, k, p);
    TailOk(s, q, t);
    QueueOkUpdate(s, q[1..], t, k, p, t');
    KeepUnfinishedHead(q, s');
    CountDoneUpdate(s, |s|, k, p);
    WholeStep(s, g, o, c, k, t', Entry(s[k].pid, e, t, t'));
  }
}
