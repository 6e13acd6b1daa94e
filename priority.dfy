/** Non-preemptive priority scheduling: on every decision the ready list is
    rebuilt from the processes, sorted by priority (lower value first) and then
    by arrival time, and its head runs to completion. */
module PriorityEngine {
  import opened Records
  import opened Sorting
  import opened Queues
  import opened Timeline

  /** The comparator `a.priority - b.priority || a.arrivalTime - b.arrivalTime`
      on positions of `s`. */
  function PriorityKey(s: seq<Proc>): nat -> Key {
    (i: nat) => if i < |s| then Key(s[i].priority, s[i].arrival) else Key(0, 0)
  }

  /** The comparator as written: the priority difference, or, when that is 0
      (false for `||`), the arrival difference; negative when `a` goes first. */
  function PriorityCompare(a: Proc, b: Proc): int {
    if a.priority - b.priority != 0 then a.priority - b.priority else a.arrival - b.arrival
  }

  /** On positions of `s`, the comparator orders two processes as their keys do:
      it is negative exactly when the first key is lexicographically smaller and
      zero exactly when the keys are equal. */
  lemma {:induction false} PriorityKeyAgrees(s: seq<Proc>, i: nat, j: nat)
    requires i < |s| && j < |s|
    ensures PriorityCompare(s[i], s[j]) < 0 <==> KeyLt(PriorityKey(s)(i), PriorityKey(s)(j))
    ensures PriorityCompare(s[i], s[j]) == 0 <==> PriorityKey(s)(i) == PriorityKey(s)(j)
  {
  }

  /** The processes that have arrived by `t` and are unfinished, in array order. */
  function Ready(s: seq<Proc>, t: int): (r: seq<nat>)
    ensures forall x: nat :: x in r <==> x < |s| && s[x].arrival <= t && s[x].remaining > 0
    ensures QueueOk(s, r, t)
    ensures forall a, b :: 0 <= a < b < |r| ==> r[a] < r[b]
  {
    AdmitOk(s, [], t, None);
    ArrivalsOrdered(s, [], t, None, |s|);
    Arrivals(s, [], t, None, |s|)
  }

  /** Process `k` is ready at `t` and is the one the sort puts first: no ready
      process has a smaller priority value, none with the same priority arrived
      earlier, and among those equal in both `k` comes first in the array. */
  ghost predicate HighestReady(s: seq<Proc>, k: nat, t: int) {
    k < |s| && s[k].arrival <= t && s[k].remaining > 0 &&
    forall i :: 0 <= i < |s| && s[i].arrival <= t && s[i].remaining > 0 ==>
      s[k].priority < s[i].priority ||
      (s[k].priority == s[i].priority && (s[k].arrival < s[i].arrival || (s[k].arrival == s[i].arrival && k <= i)))
  }

  /** The invariant of the loop: `c` counts the finished processes, each of which
      was run once, for its whole burst; the others have not run yet. */
  ghost predicate Inv(roster: Roster, s: seq<Proc>, g: seq<Entry>, o: seq<nat>, t: int, c: int) {
    Kept(roster, s) && Bookkept(s, g, o, t) && c == CountDone(s, |s|) && WholeBook(s, g, o, c)
  }

  method RunPriority(ps: array<Proc>) returns (gantt: seq<Entry>)
    requires Prepared(ps[..])
    modifies ps
    ensures Schedule(ps[..], gantt) && RunsWhole(ps[..], gantt)
    ensures SameInputs(ps[..], old(ps[..]))
  {
    var currentTime := 0;
    var completed := 0;
    gantt := [];
    ghost var owners: seq<nat> := [];
    ghost var roster := RosterOf(ps[..]);
    StartInv(ps[..]);
    while completed < ps.Length
      invariant Inv(roster, ps[..], gantt, owners, currentTime, completed)
      decreases WorkLeft(ps[..], ps.Length), roster.horizon - currentTime
    {
      var s := ps[..];
      var readyQueue := Ready(s, currentTime);
      if |readyQueue| == 0 {
        IdleInv(roster, s, gantt, owners, currentTime, completed);
        currentTime := currentTime + 1;
        continue;
      }
      var chosen;
      chosen, gantt, owners, currentTime, completed :=
        Serve(ps, roster, readyQueue, gantt, owners, currentTime, completed);
    }
    WholeFinish(roster, ps[..], gantt, owners, currentTime, completed);
  }

  /** One decision: sort the ready list, run its head to completion and record
      its metrics. */
  method Serve(ps: array<Proc>, ghost roster: Roster, readyQueue: seq<nat>, gantt: seq<Entry>,
               ghost owners: seq<nat>, currentTime: int, completed: int)
    returns (chosen: nat, gantt': seq<Entry>, ghost owners': seq<nat>, currentTime': int, completed': int)
    requires readyQueue == Ready(ps[..], currentTime) && readyQueue != []
    requires Inv(roster, ps[..], gantt, owners, currentTime, completed)
    modifies ps
    ensures Inv(roster, ps[..], gantt', owners', currentTime', completed')
    ensures completed' == completed + 1
    ensures WorkLeft(ps[..], ps.Length) < old(WorkLeft(ps[..], ps.Length))
    ensures chosen < ps.Length && chosen == readyQueue[FirstMin(readyQueue, PriorityKey(old(ps[..])))]
    ensures HighestReady(old(ps[..]), chosen, currentTime)
    ensures var e := old(ps[chosen].burst);
            currentTime' == currentTime + e &&
            gantt' == gantt + [Entry(old(ps[chosen].pid), e, currentTime, currentTime')] &&
            ps[..] == old(ps[..])[chosen := Advance(old(ps[chosen]), e, currentTime')]
  {
    ghost var s := ps[..];
    var sorted := SortBy(readyQueue, PriorityKey(ps[..]));
    SelectInv(s, currentTime, readyQueue, sorted);
    chosen := sorted[0];
    var exec := ps[chosen].remaining;
    gantt' := gantt + [Entry(ps[chosen].pid, exec, currentTime, currentTime + exec)];
    currentTime' := currentTime + exec;
    ps[chosen] := Stamp(ps[chosen].(remaining := 0), currentTime');
    completed' := completed + 1;
    owners' := owners + [chosen];
    assert ps[..] == s[chosen := Advance(s[chosen], exec, currentTime')];
    SliceInv(roster, s, gantt, owners, currentTime, completed, chosen, exec,
             ps[..], gantt', owners', currentTime', completed');
    Progress(s, chosen, ps[chosen]);
  }

  lemma {:induction false} StartInv(s: seq<Proc>)
    requires Prepared(s)
    ensures Inv(RosterOf(s), s, [], [], 0, 0)
  {
    var r := RosterOf(s);
    assert Kept(r, s);
    Start(s);
    CountDoneNone(s, |s|);
    WholeStart(s);
  }

  /** An idle tick keeps the invariant, and happens only before the last arrival. */
  lemma {:induction false} IdleInv(roster: Roster, s: seq<Proc>, g: seq<Entry>, o: seq<nat>, t: int, c: int)
    requires Inv(roster, s, g, o, t, c) && |Ready(s, t)| == 0 && c < |s|
    ensures Inv(roster, s, g, o, t + 1, c) && t < roster.horizon
  {
    CountDoneAll(s, |s|);
    var w :| 0 <= w < |s| && s[w].remaining != 0;
    assert Accounted(s[w], g);
    assert w !in Ready(s, t);
  }

  /** The head of the sorted ready list is the first ready process with the
      smallest key, and that is the highest-priority ready process, ties going
      to the earlier arrival and then to the earlier position. */
  lemma {:induction false} SelectInv(s: seq<Proc>, t: int, q: seq<nat>, sorted: seq<nat>)
    requires q == Ready(s, t) && q != [] && sorted == SortBy(q, PriorityKey(s))
    ensures sorted != [] && sorted[0] == q[FirstMin(q, PriorityKey(s))]
    ensures HighestReady(s, sorted[0], t)
  {
    SortByHead(q, PriorityKey(s));
    var m := FirstMin(q, PriorityKey(s));
    var k := q[m];
    assert k in q;
    forall i | 0 <= i < |s| && s[i].arrival <= t && s[i].remaining > 0
      ensures s[k].priority < s[i].priority ||
              (s[k].priority == s[i].priority && (s[k].arrival < s[i].arrival || (s[k].arrival == s[i].arrival && k <= i)))
    {
      var x: nat := i;
      assert x in q;
      var j :| 0 <= j < |q| && q[j] == i;
      assert KeyLe(PriorityKey(s)(k), PriorityKey(s)(i));
      if j < m {
        assert KeyLt(PriorityKey(s)(k), PriorityKey(s)(i));
      } else if m < j {
        assert k < i;
      }
    }
  }

  /** Running a ready process to completion keeps the invariant. */
  lemma {:induction false} SliceInv(roster: Roster, s: seq<Proc>, g: seq<Entry>, o: seq<nat>, t: int, c: int,
                                    k: nat, e: int, s': seq<Proc>, g': seq<Entry>, o': seq<nat>, t': int, c': int)
    requires Inv(roster, s, g, o, t, c) && k < |s| && s[k].arrival <= t && s[k].remaining > 0 && e == s[k].remaining
    requires t' == t + e && s' == s[k := Advance(s[k], e, t')] && o' == o + [k]
    requires g' == g + [Entry(s[k].pid, e, t, t')] && c' == c + 1
    ensures Inv(roster, s', g', o', t', c')
  {
    var p := Advance(s[k], e, t');
    SliceBook(roster, s, g, o, t, k, e, s', g', o', t');
    KeptUpdate(roster, s, k, p);
    CountDoneUpdate(s, |s|, k, p);
    WholeStep(s, g, o, c, k, t', Entry(s[k].pid, e, t, t'));
  }
}
