/** Ready queues as sequences of positions in the process array, and the
    admission step that every engine performs at the top of its loop. */
module Queues {
  import opened Records
  import opened Sorting

  /** No position occurs twice in the queue. */
  predicate Distinct(q: seq<nat>) {
    q == [] || (q[0] !in q[1..] && Distinct(q[1..]))
  }

  lemma {:induction false} DistinctApart(q: seq<nat>, a: nat, b: nat)
    requires Distinct(q) && a < b < |q|
    ensures q[a] != q[b]
  {
    if a == 0 {
      assert q[b] == q[1..][b - 1];
    } else {
      DistinctApart(q[1..], a - 1, b - 1);
    }
  }

  lemma {:induction false} ApartDistinct(q: seq<nat>)
    requires forall a, b :: 0 <= a < b < |q| ==> q[a] != q[b]
    ensures Distinct(q)
  {
    if q != [] {
      var t := q[1..];
      forall j | 0 <= j < |t| ensures t[j] != q[0] { assert t[j] == q[j + 1]; }
      forall a, b | 0 <= a < b < |t| ensures t[a] != t[b] { assert t[a] == q[a + 1] && t[b] == q[b + 1]; }
      ApartDistinct(t);
    }
  }

  /** Joining two queues without repeats and without common positions gives one without repeats. */
  lemma {:induction false} DistinctAppend(q: seq<nat>, r: seq<nat>)
    requires Distinct(q) && Distinct(r) && forall x :: x in r ==> x !in q
    ensures Distinct(q + r)
  {
    if q == [] {
      assert q + r == r;
    } else {
      assert (q + r)[1..] == q[1..] + r;
      assert forall x :: x in q[1..] ==> x in q;
      DistinctAppend(q[1..], r);
    }
  }

  /** A ready queue as the engines keep it between iterations: valid distinct
      positions of unfinished processes that have arrived by `t`. */
  ghost predicate QueueOk(s: seq<Proc>, q: seq<nat>, t: int) {
    Distinct(q) &&
    forall x :: x in q ==> x < |s| && s[x].remaining > 0 && s[x].arrival <= t
  }

  /** Position `i` is admitted: arrived by `t`, unfinished, not queued and not the skipped one. */
  predicate Eligible(s: seq<Proc>, q: seq<nat>, t: int, skip: Option<nat>, i: nat)
    requires i < |s|
  {
    s[i].arrival <= t && i !in q && s[i].remaining > 0 && skip != Some(i)
  }

  /** The positions below `n` that admission appends, in array order. */
  function Arrivals(s: seq<Proc>, q: seq<nat>, t: int, skip: Option<nat>, n: nat): (r: seq<nat>)
    requires n <= |s|
    ensures forall x: nat :: x in r <==> x < n && Eligible(s, q, t, skip, x)
    ensures Distinct(r)
  {
    if n == 0 then []
    else
      var r0 := Arrivals(s, q, t, skip, n - 1);
      var last: seq<nat> := if Eligible(s, q, t, skip, n - 1) then [n - 1] else [];
      DistinctAppend(r0, last);
      r0 + last
  }

  /** The admission loop: walk the processes in array order and push every
      eligible one onto the tail of the queue. */
  method Admit(s: seq<Proc>, queue: seq<nat>, t: int, skip: Option<nat>) returns (r: seq<nat>)
    ensures r == queue + Arrivals(s, queue, t, skip, |s|)
  {
    r := queue;
    for i := 0 to |s|
      invariant r == queue + Arrivals(s, queue, t, skip, i)
    {
      ArrivalsNext(s, queue, t, skip, i);
      if s[i].arrival <= t && i !in r && s[i].remaining > 0 && skip != Some(i) {
        AppendAssoc(queue, Arrivals(s, queue, t, skip, i), [i]);
        r := r + [i];
      }
    }
  }

  /** One more position considered: it is appended exactly when eligible, and it was not there yet. */
  lemma {:induction false} ArrivalsNext(s: seq<Proc>, q: seq<nat>, t: int, skip: Option<nat>, i: nat)
    requires i < |s|
    ensures Arrivals(s, q, t, skip, i + 1) ==
            Arrivals(s, q, t, skip, i) + if Eligible(s, q, t, skip, i) then [i] else []
    ensures i !in Arrivals(s, q, t, skip, i)
    ensures i in q + Arrivals(s, q, t, skip, i) <==> i in q
  {
  }

  lemma AppendAssoc(a: seq<nat>, b: seq<nat>, c: seq<nat>)
    ensures (a + b) + c == a + (b + c)
  {
  }

  /** Admission appends positions in increasing order. */
  lemma {:induction false} ArrivalsOrdered(s: seq<Proc>, q: seq<nat>, t: int, skip: Option<nat>, n: nat)
    requires n <= |s|
    ensures forall a, b :: 0 <= a < b < |Arrivals(s, q, t, skip, n)| ==>
              Arrivals(s, q, t, skip, n)[a] < Arrivals(s, q, t, skip, n)[b]
  {
    if n > 0 {
      ArrivalsOrdered(s, q, t, skip, n - 1);
      var r0 := Arrivals(s, q, t, skip, n - 1);
      assert forall a :: 0 <= a < |r0| ==> r0[a] < n - 1 by {
        forall a | 0 <= a < |r0| ensures r0[a] < n - 1 {
          var x: nat := r0[a];
          assert x in r0;
        }
      }
    }
  }

  /** Admitting keeps the queue well formed, and afterwards every arrived,
      unfinished process (other than the skipped one) is queued. */
  lemma {:induction false} AdmitOk(s: seq<Proc>, q: seq<nat>, t: int, skip: Option<nat>)
    requires QueueOk(s, q, t)
    ensures QueueOk(s, q + Arrivals(s, q, t, skip, |s|), t)
    ensures forall i :: 0 <= i < |s| && s[i].arrival <= t && s[i].remaining > 0 && skip != Some(i) ==>
              i in q + Arrivals(s, q, t, skip, |s|)
  {
    var a := Arrivals(s, q, t, skip, |s|);
    var r := q + a;
    DistinctAppend(q, a);
    forall i | 0 <= i < |s| && s[i].arrival <= t && s[i].remaining > 0 && skip != Some(i)
      ensures i in r
    {
      if i !in q { assert i in a; }
    }
  }

  /** The queue with its head dropped stays well formed. */
  lemma {:induction false} TailOk(s: seq<Proc>, q: seq<nat>, t: int)
    requires QueueOk(s, q, t) && q != []
    ensures QueueOk(s, q[1..], t) && q[0] !in q[1..]
  {
    assert forall x :: x in q[1..] ==> x in q;
  }

  lemma {:induction false} DistinctCount(q: seq<nat>, x: nat)
    requires Distinct(q)
    ensures multiset(q)[x] <= 1
  {
    if q != [] {
      assert q == [q[0]] + q[1..];
      DistinctCount(q[1..], x);
      if q[0] == x {
        assert multiset(q[1..])[x] == 0;
      }
    }
  }

  /** A permutation of a queue without repeats has no repeats. */
  lemma {:induction false} DistinctPermutation(q: seq<nat>, r: seq<nat>)
    requires Distinct(q) && multiset(q) == multiset(r)
    ensures Distinct(r)
  {
    forall a, b | 0 <= a < b < |r| ensures r[a] != r[b] {
      if r[a] == r[b] {
        RepeatCount(r, a, b);
        DistinctCount(q, r[a]);
      }
    }
    ApartDistinct(r);
  }

  /** Any permutation of a well-formed queue is well formed. */
  lemma {:induction false} PermutationOk(s: seq<Proc>, q: seq<nat>, r: seq<nat>, t: int)
    requires QueueOk(s, q, t) && multiset(q) == multiset(r)
    ensures QueueOk(s, r, t)
    ensures forall x :: x in r <==> x in q
  {
    DistinctPermutation(q, r);
    forall x ensures x in r <==> x in q {
      assert x in r <==> x in multiset(r);
      assert x in q <==> x in multiset(q);
    }
  }

  /** The queue with its finished processes filtered out, in queue order. */
  function KeepUnfinished(q: seq<nat>, s: seq<Proc>): (r: seq<nat>)
    requires forall x :: x in q ==> x < |s|
    ensures forall x :: x in r <==> x in q && s[x].remaining > 0
    ensures Distinct(q) ==> Distinct(r)
  {
    if q == [] then []
    else
      assert q[0] in q;
      assert forall y :: y in q[1..] ==> y in q;
      var r := KeepUnfinished(q[1..], s);
      var first: seq<nat> := if s[q[0]].remaining > 0 then [q[0]] else [];
      assert Distinct(q) ==> Distinct(first + r) by {
        if Distinct(q) { DistinctAppend(first, r); }
      }
      first + r
  }

  /** The filter works element by element: filtering a queue in two parts is
      filtering each part and concatenating, so the queue order is kept. */
  lemma {:induction false} KeepUnfinishedAppend(a: seq<nat>, b: seq<nat>, s: seq<Proc>)
    requires (forall x :: x in a ==> x < |s|) && (forall x :: x in b ==> x < |s|)
    ensures KeepUnfinished(a + b, s) == KeepUnfinished(a, s) + KeepUnfinished(b, s)
  {
    if a == [] {
      assert a + b == b;
    } else {
      assert a[0] in a;
      assert forall y :: y in a[1..] ==> y in a;
      var first: seq<nat> := if s[a[0]].remaining > 0 then [a[0]] else [];
      var l := KeepUnfinished(a[1..], s);
      var r := KeepUnfinished(b, s);
      assert KeepUnfinished(a + b, s) == first + KeepUnfinished(a[1..] + b, s) by {
        assert (a + b)[0] == a[0];
        assert (a + b)[1..] == a[1..] + b;
      }
      KeepUnfinishedAppend(a[1..], b, s);
      AppendAssoc(first, l, r);
    }
  }

  /** Filtering a queue of unfinished processes keeps all of it. */
  lemma {:induction false} KeepUnfinishedAll(q: seq<nat>, s: seq<Proc>)
    requires forall x :: x in q ==> x < |s| && s[x].remaining > 0
    ensures KeepUnfinished(q, s) == q
  {
    if q != [] {
      assert q[0] in q;
      assert forall y :: y in q[1..] ==> y in q;
      KeepUnfinishedAll(q[1..], s);
      var first: seq<nat> := [q[0]];
      assert KeepUnfinished(q, s) == first + KeepUnfinished(q[1..], s);
      assert q == first + q[1..];
    }
  }

  /** When only the head of the queue has finished, the filter drops exactly the head. */
  lemma {:induction false} KeepUnfinishedHead(q: seq<nat>, s: seq<Proc>)
    requires q != [] && (forall x :: x in q ==> x < |s|) && q[0] < |s| && s[q[0]].remaining == 0
    requires forall x :: x in q[1..] ==> x < |s| && s[x].remaining > 0
    ensures KeepUnfinished(q, s) == q[1..]
  {
    assert forall y :: y in q ==> y == q[0] || y in q[1..] by { assert q == [q[0]] + q[1..]; }
    KeepUnfinishedAll(q[1..], s);
    var none: seq<nat> := [];
    assert KeepUnfinished(q, s) == none + KeepUnfinished(q[1..], s);
  }

  /** Changing a process that is not queued, or letting the clock advance, keeps the queue well formed. */
  lemma {:induction false} QueueOkUpdate(s: seq<Proc>, q: seq<nat>, t: int, k: nat, p: Proc, t': int)
    requires QueueOk(s, q, t) && k < |s| && k !in q && t <= t'
    ensures QueueOk(s[k := p], q, t')
  {
  }

  /** Running a queued process without finishing it, while the clock advances, keeps the queue well formed. */
  lemma {:induction false} QueueOkAdvance(s: seq<Proc>, q: seq<nat>, t: int, k: nat, p: Proc, t': int)
    requires QueueOk(s, q, t) && k < |s| && t <= t' && p.arrival == s[k].arrival && p.remaining > 0
    ensures QueueOk(s[k := p], q, t')
  {
  }

  /** The comparator `a.remainingTime - b.remainingTime` on queue positions of `s`. */
  function RemainingKey(s: seq<Proc>): nat -> Key {
    (i: nat) => if i < |s| then Key(s[i].remaining, 0) else Key(0, 0)
  }

  /** The comparator as written: negative when `a` goes first. */
  function RemainingCompare(a: Proc, b: Proc): int {
    a.remaining - b.remaining
  }

  /** On positions of `s`, the comparator orders two processes as their keys do:
      it is negative exactly when the first key is smaller and zero exactly when
      the keys are equal. */
  lemma {:induction false} RemainingKeyAgrees(s: seq<Proc>, i: nat, j: nat)
    requires i < |s| && j < |s|
    ensures RemainingCompare(s[i], s[j]) < 0 <==> KeyLt(RemainingKey(s)(i), RemainingKey(s)(j))
    ensures RemainingCompare(s[i], s[j]) == 0 <==> RemainingKey(s)(i) == RemainingKey(s)(j)
  {
  }

  /** Sorting a well-formed queue by remaining time keeps it well formed; its new head is
      the first queued process with the least remaining time. */
  lemma {:induction false} SortedQueue(s: seq<Proc>, q: seq<nat>, t: int)
    requires QueueOk(s, q, t) && q != []
    ensures var r := SortBy<nat>(q, RemainingKey(s));
            QueueOk(s, r, t) && r != [] && r[0] < |s| && r[0] == q[FirstMin(q, RemainingKey(s))] &&
            forall x :: x in q ==> s[r[0]].remaining <= s[x].remaining
  {
    var r := SortBy<nat>(q, RemainingKey(s));
    SortByCorrect<nat>(q, RemainingKey(s));
    PermutationOk(s, q, r, t);
    SortByHead(q, RemainingKey(s));
    var m := FirstMin(q, RemainingKey(s));
    assert q[m] in q;
    forall x | x in q ensures s[r[0]].remaining <= s[x].remaining {
      var j :| 0 <= j < |q| && q[j] == x;
      assert KeyLe(RemainingKey(s)(q[m]), RemainingKey(s)(q[j]));
    }
  }

  /** Pushing an arrived, unfinished process that is not yet queued keeps the queue well formed. */
  lemma {:induction false} PushOk(s: seq<Proc>, q: seq<nat>, t: int, x: nat)
    requires QueueOk(s, q, t) && x !in q && x < |s| && s[x].remaining > 0 && s[x].arrival <= t
    ensures QueueOk(s, q + [x], t)
  {
    assert forall y :: y in q + [x] <==> y in q || y == x;
    DistinctAppend(q, [x]);
  }
}
