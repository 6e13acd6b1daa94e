/** The initial in-place sort by arrival time that Shortest-Remaining-Time and
    Shortest-Job-Next perform on the prepared records. */
module ArrivalOrder {
  import opened Records
  import opened Sorting

  /** The comparator `a.arrivalTime - b.arrivalTime`. */
  function ArrivalKey(p: Proc): Key {
    Key(p.arrival, 0)
  }

  /** The comparator as written: negative when `a` goes first. */
  function ArrivalCompare(a: Proc, b: Proc): int {
    a.arrival - b.arrival
  }

  /** The comparator orders two records as their keys do: it is negative exactly
      when the first key is smaller and zero exactly when the keys are equal. */
  lemma {:induction false} ArrivalKeyAgrees(a: Proc, b: Proc)
    ensures ArrivalCompare(a, b) < 0 <==> KeyLt(ArrivalKey(a), ArrivalKey(b))
    ensures ArrivalCompare(a, b) == 0 <==> ArrivalKey(a) == ArrivalKey(b)
  {
  }

  /** Sorts the array in place, stably, by arrival time. */
  method SortByArrival(ps: array<Proc>)
    modifies ps
    ensures ps[..] == SortBy(old(ps[..]), ArrivalKey)
  {
    var sorted := SortBy(ps[..], ArrivalKey);
    SortByCorrect(ps[..], ArrivalKey);
    for i := 0 to ps.Length
      invariant forall j :: 0 <= j < i ==> ps[j] == sorted[j]
    {
      ps[i] := sorted[i];
    }
    assert ps[..] == sorted;
  }

  /** The sorted records are the prepared records, reordered, in arrival order. */
  lemma {:induction false} SortByArrivalPrepared(s: seq<Proc>)
    requires Prepared(s)
    ensures Prepared(SortBy(s, ArrivalKey)) && multiset(SortBy(s, ArrivalKey)) == multiset(s)
    ensures ArrivalSorted(SortBy(s, ArrivalKey))
  {
    SortByCorrect(s, ArrivalKey);
    PreparedPermutation(s, SortBy(s, ArrivalKey));
    var r := SortBy(s, ArrivalKey);
    forall i, j | 0 <= i < j < |r| ensures r[i].arrival <= r[j].arrival {
      assert KeyLe(ArrivalKey(r[i]), ArrivalKey(r[j]));
    }
  }

  ghost predicate ArrivalSorted(s: seq<Proc>) {
    forall i, j :: 0 <= i < j < |s| ==> s[i].arrival <= s[j].arrival
  }

  /** Running the records does not change their arrival order. */
  lemma {:induction false} SameInputsSorted(s: seq<Proc>, r: seq<Proc>)
    requires SameInputs(s, r) && ArrivalSorted(r)
    ensures ArrivalSorted(s)
  {
    forall i, j | 0 <= i < j < |s| ensures s[i].arrival <= s[j].arrival {
      assert SameInput(s[i], r[i]) && SameInput(s[j], r[j]);
    }
  }
}
