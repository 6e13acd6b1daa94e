/** Process records, Gantt entries, the preparation step that builds the
    records from the form rows, and the sums and counts the engines keep. */
module Records {

  datatype Option<T> = None | Some(value: T)

  /** One row of the process form: its id and the three integers typed into it. */
  datatype Form = Form(pid: int, arrival: int, burst: int, priority: int)

  /** A process record: the immutable input and the engine's bookkeeping fields. */
  datatype Proc = Proc(pid: int, arrival: int, burst: int, priority: int,
                       remaining: int, completion: int, turnaround: int, waiting: int)

  /** One block of the Gantt chart. */
  datatype Entry = Entry(pid: int, exec: int, start: int, end: int)

  /** The record built from a form row, before the filter. */
  function Initial(f: Form): Proc {
    Proc(f.pid, f.arrival, f.burst, f.priority, f.burst, 0, 0, 0)
  }

  /** A record as the preparation step leaves it. */
  predicate Fresh(p: Proc) {
    p.burst > 0 && p.remaining == p.burst &&
    p.completion == 0 && p.turnaround == 0 && p.waiting == 0
  }

  /** The records built from the form rows, keeping those with a positive burst. */
  function Prepare(forms: seq<Form>): (r: seq<Proc>)
    ensures |r| <= |forms|
    ensures forall p :: p in r ==> Fresh(p)
    ensures forall f :: f in forms ==> (f.burst > 0 <==> Initial(f) in r)
  {
    if forms == [] then []
    else (if forms[0].burst > 0 then [Initial(forms[0])] else []) + Prepare(forms[1..])
  }

  /** Nothing else goes into the prepared list: every record is the one built from
      a row with a positive burst. */
  lemma {:induction false} PrepareFromRows(forms: seq<Form>)
    ensures forall p :: p in Prepare(forms) ==> exists f :: f in forms && f.burst > 0 && p == Initial(f)
  {
    if forms != [] {
      PrepareFromRows(forms[1..]);
      assert forall f :: f in forms[1..] ==> f in forms;
    }
  }

  /** Preparation works row by row: it maps and filters without reordering. */
  lemma {:induction false} PrepareAppend(a: seq<Form>, b: seq<Form>)
    ensures Prepare(a + b) == Prepare(a) + Prepare(b)
  {
    if a != [] {
      assert (a + b)[0] == a[0];
      assert (a + b)[1..] == a[1..] + b;
      PrepareAppend(a[1..], b);
    } else {
      assert a + b == b;
    }
  }

  /** Ids are assigned in order from `first`. */
  predicate IdsFrom(forms: seq<Form>, first: int) {
    forall i :: 0 <= i < |forms| ==> forms[i].pid == first + i
  }

  predicate IdsIncreasing(s: seq<Proc>) {
    forall i, j :: 0 <= i < j < |s| ==> s[i].pid < s[j].pid
  }

  /** Rows numbered first, first+1, ... give records with increasing ids, all at least `first`. */
  lemma {:induction false} PrepareIdsIncreasing(forms: seq<Form>, first: int)
    requires IdsFrom(forms, first)
    ensures IdsIncreasing(Prepare(forms))
    ensures forall p :: p in Prepare(forms) ==> first <= p.pid
  {
    if forms != [] {
      PrepareIdsIncreasing(forms[1..], first + 1);
    }
  }

  predicate DistinctPids(s: seq<Proc>) {
    forall i, j :: 0 <= i < |s| && 0 <= j < |s| && i != j ==> s[i].pid != s[j].pid
  }

  /** What every engine demands of its input: prepared records with distinct ids. */
  predicate Prepared(s: seq<Proc>) {
    (forall i :: 0 <= i < |s| ==> Fresh(s[i])) && DistinctPids(s)
  }

  /** An element found at two positions occurs at least twice. */
  lemma {:induction false} RepeatCount<T>(q: seq<T>, a: nat, b: nat)
    requires a < b < |q| && q[a] == q[b]
    ensures multiset(q)[q[a]] >= 2
  {
    assert q == q[..a] + [q[a]] + q[a + 1..b] + [q[b]] + q[b + 1..];
  }

  /** Records with distinct ids occur once each. */
  lemma {:induction false} DistinctPidsCount(s: seq<Proc>, x: Proc)
    requires DistinctPids(s)
    ensures multiset(s)[x] <= 1
  {
    if s != [] {
      var t := s[1..];
      assert s == [s[0]] + t;
      assert DistinctPids(t) by {
        forall i, j | 0 <= i < |t| && 0 <= j < |t| && i != j ensures t[i].pid != t[j].pid {
          assert t[i] == s[i + 1] && t[j] == s[j + 1];
        }
      }
      DistinctPidsCount(t, x);
      if s[0] == x {
        assert x !in t by {
          forall i | 0 <= i < |t| ensures t[i] != x { assert t[i] == s[i + 1]; }
        }
      }
    }
  }

  /** Among records with distinct ids, the id determines the record. */
  lemma {:induction false} SamePid(s: seq<Proc>, x: Proc, y: Proc)
    requires DistinctPids(s) && x in s && y in s && x.pid == y.pid
    ensures x == y
  {
    var a :| 0 <= a < |s| && s[a] == x;
    var b :| 0 <= b < |s| && s[b] == y;
    assert a == b;
  }

  /** Reordering prepared records leaves them prepared. */
  lemma {:induction false} PreparedPermutation(s: seq<Proc>, r: seq<Proc>)
    requires Prepared(s) && multiset(s) == multiset(r)
    ensures Prepared(r)
  {
    forall i | 0 <= i < |r| ensures Fresh(r[i]) {
      assert r[i] in multiset(r);
      assert r[i] in s;
    }
    forall i, j | 0 <= i < |r| && 0 <= j < |r| && i != j ensures r[i].pid != r[j].pid {
      if r[i].pid == r[j].pid {
        assert r[i] in multiset(s) && r[j] in multiset(s);
        SamePid(s, r[i], r[j]);
        if i < j { RepeatCount(r, i, j); } else { RepeatCount(r, j, i); }
        DistinctPidsCount(s, r[i]);
      }
    }
  }

  /** The input fields of two records agree. */
  predicate SameInput(p: Proc, q: Proc) {
    p.pid == q.pid && p.arrival == q.arrival && p.burst == q.burst && p.priority == q.priority
  }

  predicate SameInputs(s: seq<Proc>, t: seq<Proc>) {
    |s| == |t| && forall i :: 0 <= i < |s| ==> SameInput(s[i], t[i])
  }

  /** Each id of `s` is mapped by `index` to its position; this makes the ids distinct. */
  predicate Indexed(s: seq<Proc>, index: map<int, nat>) {
    forall i :: 0 <= i < |s| ==> s[i].pid in index && index[s[i].pid] == i
  }

  /** The position of each id of a sequence with distinct ids. */
  function IndexOf(s: seq<Proc>): (index: map<int, nat>)
    requires DistinctPids(s)
    ensures Indexed(s, index)
  {
    if s == [] then map[]
    else
      var h := s[..|s| - 1];
      assert DistinctPids(h) by {
        assert forall i :: 0 <= i < |h| ==> h[i] == s[i];
      }
      IndexOf(h)[s[|s| - 1].pid := |s| - 1]
  }

  lemma {:induction false} IndexedDistinct(s: seq<Proc>, index: map<int, nat>)
    requires Indexed(s, index)
    ensures DistinctPids(s)
  {
    forall i, j | 0 <= i < |s| && 0 <= j < |s| && i != j ensures s[i].pid != s[j].pid {
      assert index[s[i].pid] == i && index[s[j].pid] == j;
    }
  }

  /** What stays fixed while an engine runs: the records it was given, the
      positions of their ids, and a time by which all of them have arrived. */
  datatype Roster = Roster(input: seq<Proc>, index: map<int, nat>, horizon: int)

  /** The array contents `s` still hold the records of the roster (up to their
      running fields). */
  predicate Kept(r: Roster, s: seq<Proc>) {
    SameInputs(s, r.input) && Indexed(s, r.index) && forall i :: 0 <= i < |s| ==> s[i].arrival <= r.horizon
  }

  /** The roster of a prepared array. */
  function RosterOf(s: seq<Proc>): (r: Roster)
    requires DistinctPids(s)
    ensures Kept(r, s) && r.input == s
  {
    Roster(s, IndexOf(s), MaxArrival(s))
  }

  /** Rewriting the running fields of one record keeps the input fields. */
  lemma {:induction false} KeptUpdate(r: Roster, s: seq<Proc>, k: nat, p: Proc)
    requires Kept(r, s) && k < |s| && SameInput(p, s[k])
    ensures Kept(r, s[k := p])
  {
    var s' := s[k := p];
    assert forall i :: 0 <= i < |s| ==> SameInput(s'[i], s[i]);
  }

  /** Running an unfinished process for a positive time lowers the work left. */
  lemma {:induction false} Progress(s: seq<Proc>, k: nat, p: Proc)
    requires k < |s| && p.remaining < s[k].remaining && 0 < s[k].remaining
    ensures WorkLeft(s[k := p], |s|) < WorkLeft(s, |s|)
  {
    WorkLeftUpdate(s, |s|, k, p);
  }

  /** The finishing metrics of a record that completed at time `c`. */
  predicate Stamped(p: Proc, c: int) {
    p.completion == c && p.turnaround == c - p.arrival && p.waiting == p.turnaround - p.burst
  }

  /** Stamps the metrics of a record that completes at time `c`. */
  function Stamp(p: Proc, c: int): (r: Proc)
    ensures Stamped(r, c) && SameInput(r, p) && r.remaining == p.remaining
  {
    p.(completion := c, turnaround := c - p.arrival, waiting := (c - p.arrival) - p.burst)
  }

  /** The record after running for `e`, the clock then reading `c`: its remaining
      time drops by `e`, and the metrics are stamped when it reaches 0. */
  function Advance(p: Proc, e: int, c: int): (r: Proc)
    ensures SameInput(r, p) && r.remaining == p.remaining - e
    ensures r.remaining == 0 ==> Stamped(r, c)
    ensures r.remaining != 0 ==> r.completion == p.completion && r.turnaround == p.turnaround && r.waiting == p.waiting
  {
    var q := p.(remaining := p.remaining - e);
    if q.remaining == 0 then Stamp(q, c) else q
  }

  // ---------------------------------------------------------------- Gantt sums

  /** Total time the Gantt chart gives to process `pid`. */
  function Served(g: seq<Entry>, pid: int): int {
    if g == [] then 0
    else Served(g[..|g| - 1], pid) + (if g[|g| - 1].pid == pid then g[|g| - 1].exec else 0)
  }

  /** End of the last entry of process `pid`, or 0 when it has none. */
  function LastEnd(g: seq<Entry>, pid: int): int {
    if g == [] then 0
    else if g[|g| - 1].pid == pid then g[|g| - 1].end
    else LastEnd(g[..|g| - 1], pid)
  }

  /** Total time over all entries. */
  function TotalExec(g: seq<Entry>): int {
    if g == [] then 0 else TotalExec(g[..|g| - 1]) + g[|g| - 1].exec
  }

  lemma AppendEntry(g: seq<Entry>, e: Entry, pid: int)
    ensures Served(g + [e], pid) == Served(g, pid) + (if e.pid == pid then e.exec else 0)
    ensures LastEnd(g + [e], pid) == if e.pid == pid then e.end else LastEnd(g, pid)
    ensures TotalExec(g + [e]) == TotalExec(g) + e.exec
  {
    assert (g + [e])[..|g|] == g;
  }

  /** Sum of `Served` over the ids of `s`. */
  function SumServed(g: seq<Entry>, s: seq<Proc>): int {
    if s == [] then 0 else Served(g, s[0].pid) + SumServed(g, s[1..])
  }

  /** Some record of `s` has id `pid`. */
  predicate HasPid(s: seq<Proc>, pid: int) {
    exists i :: 0 <= i < |s| && s[i].pid == pid
  }

  /** Appending an entry of one of the processes of `s` adds its length to the sum once. */
  lemma {:induction false} SumServedAppend(g: seq<Entry>, e: Entry, s: seq<Proc>)
    requires DistinctPids(s)
    ensures SumServed(g + [e], s) == SumServed(g, s) + (if HasPid(s, e.pid) then e.exec else 0)
  {
    if s != [] {
      var t := s[1..];
      AppendEntry(g, e, s[0].pid);
      assert forall i :: 0 <= i < |t| ==> t[i] == s[i + 1];
      assert DistinctPids(t) by {
        forall i, j | 0 <= i < |t| && 0 <= j < |t| && i != j ensures t[i].pid != t[j].pid {
          assert t[i] == s[i + 1] && t[j] == s[j + 1];
        }
      }
      SumServedAppend(g, e, t);
      assert HasPid(s, e.pid) <==> e.pid == s[0].pid || HasPid(t, e.pid) by {
        if HasPid(s, e.pid) && e.pid != s[0].pid {
          var i :| 0 <= i < |s| && s[i].pid == e.pid;
          assert t[i - 1].pid == e.pid;
        }
        if HasPid(t, e.pid) {
          var i :| 0 <= i < |t| && t[i].pid == e.pid;
          assert s[i + 1].pid == e.pid;
        }
      }
      if e.pid == s[0].pid {
        assert !HasPid(t, e.pid) by {
          forall i | 0 <= i < |t| ensures t[i].pid != e.pid {
            assert t[i] == s[i + 1];
          }
        }
      }
    }
  }

  /** When every entry belongs to a process of `s`, the chart's total is the sum of the services. */
  lemma {:induction false} TotalIsSumServed(g: seq<Entry>, s: seq<Proc>)
    requires DistinctPids(s)
    requires forall k :: 0 <= k < |g| ==> HasPid(s, g[k].pid)
    ensures TotalExec(g) == SumServed(g, s)
  {
    if g == [] {
      assert SumServed([], s) == 0 by { SumServedEmpty(s); }
    } else {
      var h, e := g[..|g| - 1], g[|g| - 1];
      assert g == h + [e];
      TotalIsSumServed(h, s);
      AppendEntry(h, e, 0);
      SumServedAppend(h, e, s);
    }
  }

  lemma {:induction false} SumServedEmpty(s: seq<Proc>)
    ensures SumServed([], s) == 0
  {
    if s != [] { SumServedEmpty(s[1..]); }
  }

  // ---------------------------------------------------------------- sums over records

  function SumBurst(s: seq<Proc>): int {
    if s == [] then 0 else s[0].burst + SumBurst(s[1..])
  }

  /** The positive part of a record's remaining time. */
  function Work(p: Proc): nat {
    if p.remaining > 0 then p.remaining else 0
  }

  /** Work left in the first `n` records. */
  function WorkLeft(s: seq<Proc>, n: nat): nat
    requires n <= |s|
  {
    if n == 0 then 0 else WorkLeft(s, n - 1) + Work(s[n - 1])
  }

  /** The integer totals the results table adds up. */
  function TotalTurnaround(s: seq<Proc>): int {
    if s == [] then 0 else s[0].turnaround + TotalTurnaround(s[1..])
  }

  function TotalWaiting(s: seq<Proc>): int {
    if s == [] then 0 else s[0].waiting + TotalWaiting(s[1..])
  }

  /** Number of finished records among the first `n`. */
  function CountDone(s: seq<Proc>, n: nat): (c: nat)
    requires n <= |s|
    ensures c <= n
  {
    if n == 0 then 0 else CountDone(s, n - 1) + (if s[n - 1].remaining == 0 then 1 else 0)
  }

  /** Changing one record changes the remaining work by its own change. */
  lemma {:induction false} WorkLeftUpdate(s: seq<Proc>, n: nat, k: nat, p: Proc)
    requires n <= |s| && k < |s|
    ensures WorkLeft(s[k := p], n) == WorkLeft(s, n) - (if k < n then Work(s[k]) - Work(p) else 0)
  {
    if n > 0 {
      WorkLeftUpdate(s, n - 1, k, p);
    }
  }

  /** Finishing one unfinished record raises the count of finished ones by one. */
  lemma {:induction false} CountDoneUpdate(s: seq<Proc>, n: nat, k: nat, p: Proc)
    requires n <= |s| && k < |s| && s[k].remaining != 0 && p.remaining == 0
    ensures CountDone(s[k := p], n) == CountDone(s, n) + (if k < n then 1 else 0)
  {
    if n > 0 {
      CountDoneUpdate(s, n - 1, k, p);
    }
  }

  /** Changing a record without changing whether it is finished keeps the count. */
  lemma {:induction false} CountDoneSame(s: seq<Proc>, n: nat, k: nat, p: Proc)
    requires n <= |s| && k < |s| && (s[k].remaining == 0 <==> p.remaining == 0)
    ensures CountDone(s[k := p], n) == CountDone(s, n)
  {
    if n > 0 {
      CountDoneSame(s, n - 1, k, p);
    }
  }

  /** Before anything runs no record is finished. */
  lemma {:induction false} CountDoneNone(s: seq<Proc>, n: nat)
    requires n <= |s| && forall i :: 0 <= i < n ==> s[i].remaining != 0
    ensures CountDone(s, n) == 0
  {
    if n > 0 {
      CountDoneNone(s, n - 1);
    }
  }

  /** The count reaches `n` exactly when each of the first `n` records is finished. */
  lemma {:induction false} CountDoneAll(s: seq<Proc>, n: nat)
    requires n <= |s|
    ensures CountDone(s, n) == n <==> forall i :: 0 <= i < n ==> s[i].remaining == 0
  {
    if n > 0 {
      CountDoneAll(s, n - 1);
    }
  }

  /** When every record has been served its burst, the chart serves the total of the bursts. */
  lemma {:induction false} ServedAll(g: seq<Entry>, s: seq<Proc>)
    requires forall i :: 0 <= i < |s| ==> Served(g, s[i].pid) == s[i].burst
    ensures SumServed(g, s) == SumBurst(s)
  {
    if s != [] {
      assert forall i :: 0 <= i < |s[1..]| ==> s[1..][i] == s[i + 1];
      ServedAll(g, s[1..]);
    }
  }

  lemma {:induction false} TotalsRelation(s: seq<Proc>)
    requires forall i :: 0 <= i < |s| ==> s[i].waiting == s[i].turnaround - s[i].burst
    ensures TotalWaiting(s) == TotalTurnaround(s) - SumBurst(s)
  {
    if s != [] {
      assert forall i :: 0 <= i < |s[1..]| ==> s[1..][i] == s[i + 1];
      TotalsRelation(s[1..]);
    }
  }

  lemma {:induction false} TotalWaitingNonNegative(s: seq<Proc>)
    requires forall i :: 0 <= i < |s| ==> s[i].waiting >= 0
    ensures TotalWaiting(s) >= 0
  {
    if s != [] {
      assert forall i :: 0 <= i < |s[1..]| ==> s[1..][i] == s[i + 1];
      TotalWaitingNonNegative(s[1..]);
    }
  }

  /** The largest arrival time, a bound for the clock while processes wait to arrive. */
  function MaxArrival(s: seq<Proc>): (m: int)
    ensures forall i :: 0 <= i < |s| ==> s[i].arrival <= m
  {
    if s == [] then 0
    else var m := MaxArrival(s[1..]); if s[0].arrival > m then s[0].arrival else m
  }
}
