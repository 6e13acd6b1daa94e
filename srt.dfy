/** Shortest-Remaining-Time: the ready queue is re-sorted by remaining time on
    every decision, and a slice is cut short when another process arrives. */
module SrtEngine {
  import opened Records
  import opened Sorting
  import opened Queues
  import opened Timeline
  import opened ArrivalOrder
  import opened ReadyLoop

  /** Some process arrives strictly after `t` and strictly before `t + r`. */
  predicate ArrivesDuring(s: seq<Proc>, t: int, r: int) {
    exists i | 0 <= i < |s| :: t < s[i].arrival < t + r
  }

  /** The records that arrive strictly after `t`, in their order. */
  function Later(s: seq<Proc>, t: int): (r: seq<Proc>)
    ensures forall p :: p in r <==> p in s && p.arrival > t
  {
    if s == [] then []
    else
      assert forall p :: p in s <==> p == s[0] || p in s[1..] by { assert s == [s[0]] + s[1..]; }
      (if s[0].arrival > t then [s[0]] else []) + Later(s[1..], t)
  }

  /** The arrival time of the first of the later records once sorted by arrival:
      the earliest arrival strictly after `t`. */
  function NextArrival(s: seq<Proc>, t: int): (a: int)
    requires exists i | 0 <= i < |s| :: s[i].arrival > t
    ensures a > t && (exists i | 0 <= i < |s| :: s[i].arrival == a)
    ensures forall i | 0 <= i < |s| :: s[i].arrival > t ==> a <= s[i].arrival
  {
    var later := Later(s, t);
    var w :| 0 <= w < |s| && s[w].arrival > t;
    assert s[w] in later;
    SortByHead(later, ArrivalKey);
    var m := FirstMin(later, ArrivalKey);
    assert later[m] in later;
    assert forall i | 0 <= i < |s| && s[i].arrival > t :: s[i] in later;
    SortBy(later, ArrivalKey)[0].arrival
  }

  /** How long the chosen process runs from `t` when it has `r` time units left:
      all of them, unless a process arrives before it would finish, in which case
      it runs until the earliest later arrival. */
  function SliceLength(s: seq<Proc>, t: int, r: int): (e: int)
    requires r > 0
    ensures 0 < e <= r
    ensures e < r <==> ArrivesDuring(s, t, r)
    ensures e < r ==> (exists i | 0 <= i < |s| :: s[i].arrival == t + e) &&
                      forall i | 0 <= i < |s| :: s[i].arrival > t ==> t + e <= s[i].arrival
  {
    if ArrivesDuring(s, t, r) then NextArrival(s, t) - t else r
  }

  method RunSrt(ps: array<Proc>) returns (gantt: seq<Entry>)
    requires Prepared(ps[..])
    modifies ps
    ensures Schedule(ps[..], gantt)
    ensures SameInputs(ps[..], SortBy(old(ps[..]), ArrivalKey)) && ArrivalSorted(ps[..])
  {
    SortByArrival(ps);
    SortByArrivalPrepared(old(ps[..]));
    ghost var roster := RosterOf(ps[..]);
    StartInv(ps[..]);
    gantt := Simulate(ps, roster);
    SameInputsSorted(ps[..], roster.input);
  }

  /** The main loop, on the records sorted by arrival. */
  method Simulate(ps: array<Proc>, ghost roster: Roster) returns (gantt: seq<Entry>)
    requires Inv(roster, ps[..], [], [], [], 0, 0)
    modifies ps
    ensures Schedule(ps[..], gantt) && SameInputs(ps[..], roster.input)
  {
    var currentTime := 0;
    var completed := 0;
    var readyQueue: seq<nat> := [];
    gantt := [];
    ghost var owners: seq<nat> := [];
    while completed < ps.Length
      invariant Inv(roster, ps[..], gantt, owners, readyQueue, currentTime, completed)
      decreases WorkLeft(ps[..], ps.Length), roster.horizon - currentTime
    {
      var s := ps[..];
      ghost var qa := readyQueue;
      // add the processes that have arrived
      readyQueue := Admit(s, readyQueue, currentTime, None);
      AdmitInv(roster, s, gantt, owners, qa, currentTime, completed);
      if |readyQueue| == 0 {
        IdleInv(roster, s, gantt, owners, qa, currentTime, completed);
        currentTime := currentTime + 1;
        continue;
      }
      var chosen;
      chosen, readyQueue, gantt, owners, currentTime, completed :=
        Serve(ps, roster, readyQueue, gantt, owners, currentTime, completed);
    }
    FinishInv(roster, ps[..], gantt, owners, readyQueue, currentTime, completed);
  }

  /** One decision: sort the ready queue by remaining time, run its head until it
      finishes or the next arrival, and drop it from the queue if it finished. */
  method Serve(ps: array<Proc>, ghost roster: Roster, queue: seq<nat>, gantt: seq<Entry>, ghost owners: seq<nat>,
               currentTime: int, completed: int)
    returns (chosen: nat, queue': seq<nat>, gantt': seq<Entry>, ghost owners': seq<nat>, currentTime': int,
             completed': int)
    requires queue != [] && Inv(roster, ps[..], gantt, owners, queue, currentTime, completed)
    modifies ps
    ensures Inv(roster, ps[..], gantt', owners', queue', currentTime', completed')
    ensures WorkLeft(ps[..], ps.Length) < old(WorkLeft(ps[..], ps.Length))
    // the head of the stable sort: smallest remaining time, earliest in the queue among equals
    ensures chosen < ps.Length && chosen == queue[FirstMin(queue, RemainingKey(old(ps[..])))]
    ensures forall x :: x in queue ==> old(ps[chosen].remaining) <= old(ps[x].remaining)
    ensures var e := SliceLength(old(ps[..]), currentTime, old(ps[chosen].remaining));
            currentTime' == currentTime + e &&
            gantt' == gantt + [Entry(old(ps[chosen].pid), e, currentTime, currentTime')] &&
            ps[..] == old(ps[..])[chosen := Advance(old(ps[chosen]), e, currentTime')]
    ensures var sorted := SortBy(queue, RemainingKey(old(ps[..])));
            queue' == if ps[chosen].remaining == 0 then sorted[1..] else sorted
  {
    ghost var s := ps[..];
    var sorted := SortBy(queue, RemainingKey(ps[..]));
    SortInv(roster, s, gantt, owners, queue, currentTime, completed, sorted);
    chosen := sorted[0];
    var exec := SliceLength(ps[..], currentTime, ps[chosen].remaining);
    gantt', currentTime' := Execute(ps, chosen, exec, currentTime, gantt);
    owners' := owners + [chosen];
    if ps[chosen].remaining == 0 {
      queue' := sorted[1..];
      completed' := completed + 1;
    } else {
      queue' := sorted;
      completed' := completed;
    }
    SliceInv(roster, s, gantt, owners, sorted, currentTime, completed, chosen, exec,
             ps[..], gantt', owners', currentTime', queue', completed');
    Progress(s, chosen, ps[chosen]);
  }

  /** Re-sorting the queue keeps the invariant. */
  lemma {:induction false} SortInv(roster: Roster, s: seq<Proc>, g: seq<Entry>, o: seq<nat>, q: seq<nat>, t: int,
                                   c: int, sorted: seq<nat>)
    requires Inv(roster, s, g, o, q, t, c) && q != [] && sorted == SortBy(q, RemainingKey(s))
    ensures Inv(roster, s, g, o, sorted, t, c) && sorted != [] && sorted[0] < |s|
    ensures sorted[0] == q[FirstMin(q, RemainingKey(s))]
    ensures forall x :: x in q ==> s[sorted[0]].remaining <= s[x].remaining
  {
    SortedQueue(s, q, t);
  }

  /** A slice for the head of the queue keeps the invariant; a finished head leaves the
      queue and is counted. */
  lemma {:induction false} SliceInv(roster: Roster, s: seq<Proc>, g: seq<Entry>, o: seq<nat>, q: seq<nat>, t: int,
                                    c: int, k: nat, e: int,
                                    s': seq<Proc>, g': seq<Entry>, o': seq<nat>, t': int, q': seq<nat>, c': int)
    requires Inv(roster, s, g, o, q, t, c) && q != [] && k == q[0] && k < |s| && 0 < e <= s[k].remaining
    requires t' == t + e && s' == s[k := Advance(s[k], e, t')] && o' == o + [k]
    requires g' == g + [Entry(s[k].pid, e, t, t')]
    requires q' == (if s'[k].remaining == 0 then q[1..] else q)
    requires c' == (if s'[k].remaining == 0 then c + 1 else c)
    ensures Inv(roster, s', g', o', q', t', c')
  {
    assert k in q;
    SliceBook(roster, s, g, o, t, k, e, s', g', o', t');
    KeptUpdate(roster, s, k, Advance(s[k], e, t'));
    if s'[k].remaining == 0 {
      TailOk(s, q, t);
      QueueOkUpdate(s, q[1..], t, k, Advance(s[k], e, t'), t');
      CountDoneUpdate(s, |s|, k, Advance(s[k], e, t'));
    } else {
      QueueOkAdvance(s, q, t, k, Advance(s[k], e, t'), t');
      CountDoneSame(s, |s|, k, Advance(s[k], e, t'));
    }
  }

  /** When every process is counted as finished the invariant gives the promised schedule. */
  lemma {:induction false} FinishInv(roster: Roster, s: seq<Proc>, g: seq<Entry>, o: seq<nat>, q: seq<nat>, t: int,
                                     c: int)
    requires Inv(roster, s, g, o, q, t, c) && c >= |s|
    ensures Schedule(s, g) && SameInputs(s, roster.input)
  {
    CountDoneAll(s, |s|);
    IndexedDistinct(s, roster.index);
    Finish(s, g, o, t);
  }
}
