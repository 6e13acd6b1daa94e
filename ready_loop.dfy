/** The loop that Shortest-Remaining-Time and Shortest-Job-Next share: admit the
    arrived processes to the ready queue, tick the clock when it is empty, and
    count the processes that finish. */
module ReadyLoop {
  import opened Records
  import opened Queues
  import opened Timeline

  /** The invariant of the loop: `c` counts the finished processes. */
  ghost predicate Inv(roster: Roster, s: seq<Proc>, g: seq<Entry>, o: seq<nat>, q: seq<nat>, t: int, c: int) {
    Kept(roster, s) && Bookkept(s, g, o, t) && QueueOk(s, q, t) && c == CountDone(s, |s|)
  }

  /** Every process that has arrived by `t` and is unfinished is in the queue. */
  ghost predicate AllReady(s: seq<Proc>, q: seq<nat>, t: int) {
    forall i :: 0 <= i < |s| && s[i].arrival <= t && s[i].remaining > 0 ==> i in q
  }

  lemma {:induction false} StartInv(s: seq<Proc>)
    requires Prepared(s)
    ensures Inv(RosterOf(s), s, [], [], [], 0, 0)
  {
    var r := RosterOf(s);
    assert Kept(r, s);
    Start(s);
    CountDoneNone(s, |s|);
    assert QueueOk(s, [], 0);
  }

  /** Admission keeps the invariant and queues every arrived, unfinished process. */
  lemma {:induction false} AdmitInv(roster: Roster, s: seq<Proc>, g: seq<Entry>, o: seq<nat>, q: seq<nat>, t: int,
                                    c: int)
    requires Inv(roster, s, g, o, q, t, c)
    ensures Inv(roster, s, g, o, q + Arrivals(s, q, t, None, |s|), t, c)
    ensures AllReady(s, q + Arrivals(s, q, t, None, |s|), t)
  {
    AdmitOk(s, q, t, None);
  }

  /** An idle tick keeps the invariant, and happens only before the last arrival. */
  lemma {:induction false} IdleInv(roster: Roster, s: seq<Proc>, g: seq<Entry>, o: seq<nat>, q: seq<nat>, t: int,
                                   c: int)
    requires Inv(roster, s, g, o, q, t, c) && |q + Arrivals(s, q, t, None, |s|)| == 0 && c < |s|
    ensures Inv(roster, s, g, o, q + Arrivals(s, q, t, None, |s|), t + 1, c) && t < roster.horizon
  {
    AdmitOk(s, q, t, None);
    CountDoneAll(s, |s|);
    var w :| 0 <= w < |s| && s[w].remaining != 0;
    assert Accounted(s[w], g);
    assert s[w].arrival > t;
    assert q + Arrivals(s, q, t, None, |s|) == [];
  }
}
