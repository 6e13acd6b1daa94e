/** Round-Robin: a FIFO ready queue, slices of at most one quantum. */
module RoundRobinEngine {
  import opened Records
  import opened Queues
  import opened Timeline

  function Min(a: int, b: int): (m: int)
    ensures m <= a && m <= b && (m == a || m == b)
  {
    if a < b then a else b
  }

  /** Some process still has work left: the loop condition. */
  predicate Pending(s: seq<Proc>) {
    exists i | 0 <= i < |s| :: s[i].remaining > 0
  }

  /** No slice is longer than the quantum, and a shorter slice is the last one of its process. */
  ghost predicate QuantumBounded(g: seq<Entry>, quantum: int) {
    (forall k :: 0 <= k < |g| ==> g[k].exec <= quantum) &&
    (forall k, j :: 0 <= k < j < |g| && g[k].exec < quantum ==> g[j].pid != g[k].pid)
  }

  /** `QuantumBounded`, stated entry by entry as the chart grows. */
  ghost predicate Quantized(g: seq<Entry>, quantum: int) {
    g == [] ||
    (var h := g[..|g| - 1];
     var e := g[|g| - 1];
     Quantized(h, quantum) && e.exec <= quantum &&
     forall k :: 0 <= k < |h| && h[k].exec < quantum ==> h[k].pid != e.pid)
  }

  lemma {:induction false} QuantizedBounded(g: seq<Entry>, quantum: int)
    requires Quantized(g, quantum)
    ensures QuantumBounded(g, quantum)
  {
    if g != [] {
      var h := g[..|g| - 1];
      QuantizedBounded(h, quantum);
      assert forall k :: 0 <= k < |h| ==> h[k] == g[k];
    }
  }

  /** While the run goes on, a process that got a short slice is finished. */
  ghost predicate ShortSlicesFinish(s: seq<Proc>, g: seq<Entry>, o: seq<nat>, quantum: int)
    requires Owned(s, g, o)
  {
    forall k :: 0 <= k < |g| && g[k].exec < quantum ==> s[o[k]].remaining == 0
  }

  /** The invariant of the Round-Robin loop over the array contents `s`, the chart `g`,
      the queue `q` and the clock `t`; `roster` is fixed by the array on entry. */
  ghost predicate Inv(roster: Roster, s: seq<Proc>, g: seq<Entry>, o: seq<nat>, q: seq<nat>, t: int,
                      quantum: int)
  {
    Kept(roster, s) && Bookkept(s, g, o, t) && QueueOk(s, q, t) &&
    Quantized(g, quantum) && ShortSlicesFinish(s, g, o, quantum)
  }

  method RunRoundRobin(ps: array<Proc>, quantum: int) returns (gantt: seq<Entry>)
    requires quantum > 0 && Prepared(ps[..])
    modifies ps
    ensures Schedule(ps[..], gantt) && SameInputs(ps[..], old(ps[..]))
    ensures QuantumBounded(gantt, quantum)
  {
    ghost var roster := RosterOf(ps[..]);
    StartInv(ps[..], quantum);
    gantt := Simulate(ps, roster, quantum);
  }

  /** The main loop. */
  method Simulate(ps: array<Proc>, ghost roster: Roster, quantum: int) returns (gantt: seq<Entry>)
    requires quantum > 0 && Inv(roster, ps[..], [], [], [], 0, quantum)
    modifies ps
    ensures Schedule(ps[..], gantt) && SameInputs(ps[..], roster.input) && QuantumBounded(gantt, quantum)
  {
    var currentTime := 0;
    var queue: seq<nat> := [];
    gantt := [];
    ghost var owners: seq<nat> := [];
    while Pending(ps[..])
      invariant Inv(roster, ps[..], gantt, owners, queue, currentTime, quantum)
      decreases WorkLeft(ps[..], ps.Length), roster.horizon - currentTime
    {
      var s := ps[..];
      ghost var qa := queue;
      // admit the processes that have arrived
      queue := Admit(s, queue, currentTime, None);
      AdmitInv(roster, s, gantt, owners, qa, currentTime, quantum);
      if |queue| == 0 {
        // idle: every unfinished process is still to arrive
        IdleInv(roster, s, gantt, owners, qa, currentTime, quantum);
        currentTime := currentTime + 1;
        continue;
      }
      queue, gantt, owners, currentTime := Serve(ps, roster, queue, gantt, owners, currentTime, quantum);
    }
    FinishInv(roster, ps[..], gantt, owners, queue, currentTime, quantum);
  }

  lemma {:induction false} StartInv(s: seq<Proc>, quantum: int)
    requires Prepared(s)
    ensures Inv(RosterOf(s), s, [], [], [], 0, quantum)
  {
    var r := RosterOf(s);
    assert Kept(r, s);
    Start(s);
    assert QueueOk(s, [], 0) && Quantized([], quantum) && ShortSlicesFinish(s, [], [], quantum);
  }

  /** When no work is left the invariant gives the promised schedule. */
  lemma {:induction false} FinishInv(roster: Roster, s: seq<Proc>, g: seq<Entry>, o: seq<nat>, q: seq<nat>, t: int,
                                     quantum: int)
    requires Inv(roster, s, g, o, q, t, quantum)
    requires !Pending(s)
    ensures Schedule(s, g) && SameInputs(s, roster.input) && QuantumBounded(g, quantum)
  {
    IndexedDistinct(s, roster.index);
    Finish(s, g, o, t);
    QuantizedBounded(g, quantum);
  }

  /** One turn of the head of the queue: run it for a slice of at most one quantum, then either
      finish it or put it back behind the processes that arrived meanwhile. */
  method Serve(ps: array<Proc>, ghost roster: Roster, queue: seq<nat>, gantt: seq<Entry>, ghost owners: seq<nat>,
               currentTime: int, quantum: int)
    returns (queue': seq<nat>, gantt': seq<Entry>, ghost owners': seq<nat>, currentTime': int)
    requires quantum > 0 && queue != [] && queue[0] < ps.Length
    requires Inv(roster, ps[..], gantt, owners, queue, currentTime, quantum)
    modifies ps
    ensures Inv(roster, ps[..], gantt', owners', queue', currentTime', quantum)
    ensures WorkLeft(ps[..], ps.Length) < old(WorkLeft(ps[..], ps.Length))
    ensures var k := queue[0];
            var e := Min(quantum, old(ps[k].remaining));
            currentTime' == currentTime + e &&
            gantt' == gantt + [Entry(old(ps[k].pid), e, currentTime, currentTime')] &&
            ps[..] == old(ps[..])[k := Advance(old(ps[k]), e, currentTime')]
    // a preempted process goes back behind the processes that arrived during its slice
    ensures var k := queue[0];
            queue' == if ps[k].remaining == 0 then queue[1..]
                      else queue[1..] + Arrivals(ps[..], queue[1..], currentTime', Some(k), ps.Length) + [k]
  {
    ghost var s := ps[..];
    var k := queue[0];
    var exec := Min(quantum, ps[k].remaining);
    queue' := queue[1..];
    gantt', currentTime' := Execute(ps, k, exec, currentTime, gantt);
    owners' := owners + [k];
    SliceInv(roster, s, gantt, owners, queue, currentTime, quantum, k, exec, ps[..], gantt', owners', currentTime');
    Progress(s, k, ps[k]);
    if ps[k].remaining != 0 {
      ghost var q1 := queue';
      queue' := Admit(ps[..], queue', currentTime', Some(k));
      RequeueInv(roster, ps[..], gantt', owners', q1, currentTime', quantum, k);
      queue' := queue' + [k];
    }
  }

  /** Admission keeps the invariant; afterwards the queue is empty only when
      every unfinished process is still to arrive. */
  lemma {:induction false} AdmitInv(roster: Roster, s: seq<Proc>, g: seq<Entry>, o: seq<nat>, q: seq<nat>, t: int,
                 quantum: int)
    requires Inv(roster, s, g, o, q, t, quantum)
    ensures Inv(roster, s, g, o, q + Arrivals(s, q, t, None, |s|), t, quantum)
    ensures q + Arrivals(s, q, t, None, |s|) != [] ==> (q + Arrivals(s, q, t, None, |s|))[0] < |s|
  {
    AdmitOk(s, q, t, None);
    var r := q + Arrivals(s, q, t, None, |s|);
    if r != [] { assert r[0] in r; }
  }

  /** An idle tick keeps the invariant: when admission found nothing, every unfinished
      process is still to arrive, so the clock stays below the last arrival. */
  lemma {:induction false} IdleInv(roster: Roster, s: seq<Proc>, g: seq<Entry>, o: seq<nat>, q: seq<nat>, t: int,
                                   quantum: int)
    requires Inv(roster, s, g, o, q, t, quantum) && |q + Arrivals(s, q, t, None, |s|)| == 0
    requires Pending(s)
    ensures Inv(roster, s, g, o, q + Arrivals(s, q, t, None, |s|), t + 1, quantum) && t < roster.horizon
  {
    AdmitOk(s, q, t, None);
    var w :| 0 <= w < |s| && s[w].remaining > 0;
    assert s[w].arrival > t;
    assert q + Arrivals(s, q, t, None, |s|) == [];
  }

  /** One slice for the head of a freshly admitted queue keeps the invariant (without the head
      in the queue) and uses up some of the remaining work. */
  lemma {:induction false} SliceInv(roster: Roster, s: seq<Proc>, g: seq<Entry>, o: seq<nat>, q: seq<nat>, t: int,
                 quantum: int, k: nat, e: int,
                 s': seq<Proc>, g': seq<Entry>, o': seq<nat>, t': int)
    requires quantum > 0 && q != [] && k == q[0] && k < |s| && e == Min(quantum, s[k].remaining)
    requires Inv(roster, s, g, o, q, t, quantum)
    requires t' == t + e && s' == s[k := Advance(s[k], e, t')] && o' == o + [k]
    requires g' == g + [Entry(s[k].pid, e, t, t')]
    ensures Inv(roster, s', g', o', q[1..], t', quantum)
    ensures k !in q[1..] && s'[k].arrival <= t'
  {
    assert k in q;
    SliceBook(roster, s, g, o, t, k, e, s', g', o', t');
    SliceQueue(roster, s, g, o, q, t, quantum, k, e, s', g', o', t');
    KeptUpdate(roster, s, k, Advance(s[k], e, t'));
  }

  lemma {:induction false} SliceQueue(roster: Roster, s: seq<Proc>, g: seq<Entry>, o: seq<nat>, q: seq<nat>,
                                      t: int, quantum: int, k: nat, e: int,
                                      s': seq<Proc>, g': seq<Entry>, o': seq<nat>, t': int)
    requires quantum > 0 && q != [] && k == q[0] && k < |s| && e == Min(quantum, s[k].remaining)
    requires QueueOk(s, q, t) && Kept(roster, s) && Owned(s, g, o)
    requires Quantized(g, quantum) && ShortSlicesFinish(s, g, o, quantum)
    requires t' == t + e && s' == s[k := Advance(s[k], e, t')] && o' == o + [k]
    requires g' == g + [Entry(s[k].pid, e, t, t')]
    ensures QueueOk(s', q[1..], t') && k !in q[1..] && s'[k].arrival <= t'
    ensures Quantized(g', quantum)
    ensures Owned(s', g', o') ==> ShortSlicesFinish(s', g', o', quantum)
  {
    assert k in q;
    IndexedDistinct(s, roster.index);
    TailOk(s, q, t);
    QueueOkUpdate(s, q[1..], t, k, Advance(s[k], e, t'), t');
    QuantumStep(s, g, o, quantum, k, Entry(s[k].pid, e, t, t'), Advance(s[k], e, t'));
  }

  /** Admitting the arrivals of the slice and then pushing the preempted process keeps the invariant. */
  lemma {:induction false} RequeueInv(roster: Roster, s: seq<Proc>, g: seq<Entry>, o: seq<nat>, q: seq<nat>, t: int,
                   quantum: int, k: nat)
    requires Inv(roster, s, g, o, q, t, quantum)
    requires k < |s| && k !in q && s[k].remaining > 0 && s[k].arrival <= t
    ensures Inv(roster, s, g, o, q + Arrivals(s, q, t, Some(k), |s|) + [k], t, quantum)
  {
    AdmitOk(s, q, t, Some(k));
    PushOk(s, q + Arrivals(s, q, t, Some(k), |s|), t, k);
  }

  /** A slice of `min(quantum, remaining)` for an unfinished process keeps the quantum discipline. */
  lemma {:induction false} QuantumStep(s: seq<Proc>, g: seq<Entry>, o: seq<nat>, quantum: int,
                                       k: nat, en: Entry, p: Proc)
    requires Owned(s, g, o) && DistinctPids(s) && Quantized(g, quantum) && ShortSlicesFinish(s, g, o, quantum)
    requires k < |s| && s[k].remaining > 0 && en.pid == s[k].pid && p.pid == s[k].pid
    requires en.exec <= quantum && (en.exec < quantum ==> p.remaining == 0)
    ensures Quantized(g + [en], quantum)
    ensures Owned(s[k := p], g + [en], o + [k]) ==> ShortSlicesFinish(s[k := p], g + [en], o + [k], quantum)
  {
    var g' := g + [en];
    assert g'[..|g|] == g;
    forall j | 0 <= j < |g| && g[j].exec < quantum ensures g[j].pid != en.pid {
      assert o[j] != k;
    }
    if Owned(s[k := p], g', o + [k]) {
      var s' := s[k := p];
      var o' := o + [k];
      forall j | 0 <= j < |g'| && g'[j].exec < quantum ensures s'[o'[j]].remaining == 0 {
        if j < |g| {
          assert g'[j] == g[j] && o'[j] == o[j] && o[j] != k;
        }
      }
    }
  }
}
