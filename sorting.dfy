/** The stable sort that the engines get from `Array.prototype.sort` with a
    numeric comparator. A comparator `a.x - b.x || a.y - b.y` orders by the
    pair `Key(x, y)` lexicographically; equal keys keep their input order. */
module Sorting {

  datatype Key = Key(major: int, minor: int)

  predicate KeyLt(a: Key, b: Key) {
    a.major < b.major || (a.major == b.major && a.minor < b.minor)
  }

  predicate KeyLe(a: Key, b: Key) {
    KeyLt(a, b) || a == b
  }

  /** Puts `x` into `l` in front of the first element whose key is strictly larger. */
  function Insert<T>(x: T, l: seq<T>, key: T -> Key): seq<T> {
    if l == [] then [x]
    else if KeyLt(key(x), key(l[0])) then [x] + l
    else [l[0]] + Insert(x, l[1..], key)
  }

  /** Insertion sort, taking the elements from left to right, so that ties keep their order. */
  function SortBy<T>(s: seq<T>, key: T -> Key): seq<T> {
    if s == [] then [] else Insert(s[|s| - 1], SortBy(s[..|s| - 1], key), key)
  }

  ghost predicate SortedBy<T>(s: seq<T>, key: T -> Key) {
    forall i, j :: 0 <= i < j < |s| ==> KeyLe(key(s[i]), key(s[j]))
  }

  lemma {:induction false} InsertElements<T>(x: T, l: seq<T>, key: T -> Key)
    ensures multiset(Insert(x, l, key)) == multiset(l) + multiset{x}
    ensures |Insert(x, l, key)| == |l| + 1
  {
    if l != [] && !KeyLt(key(x), key(l[0])) {
      InsertElements(x, l[1..], key);
      assert l == [l[0]] + l[1..];
    }
  }

  /** A key no larger than the head's can go in front of a sorted sequence. */
  lemma {:induction false} ConsSorted<T>(x: T, l: seq<T>, key: T -> Key)
    requires SortedBy(l, key) && (l != [] ==> KeyLe(key(x), key(l[0])))
    ensures SortedBy([x] + l, key)
  {
    forall i, j | 0 <= i < j < |[x] + l| ensures KeyLe(key(([x] + l)[i]), key(([x] + l)[j])) {
      assert ([x] + l)[j] == l[j - 1];
      if i > 0 {
        assert ([x] + l)[i] == l[i - 1];
      } else if j > 1 {
        assert KeyLe(key(l[0]), key(l[j - 1]));
      }
    }
  }

  lemma {:induction false} InsertSorted<T>(x: T, l: seq<T>, key: T -> Key)
    requires SortedBy(l, key)
    ensures SortedBy(Insert(x, l, key), key)
  {
    if l == [] {
    } else if KeyLt(key(x), key(l[0])) {
      ConsSorted(x, l, key);
    } else {
      var t := l[1..];
      assert SortedBy(t, key) by {
        forall i, j | 0 <= i < j < |t| ensures KeyLe(key(t[i]), key(t[j])) {
          assert t[i] == l[i + 1] && t[j] == l[j + 1];
        }
      }
      InsertSorted(x, t, key);
      if t != [] {
        InsertHead(x, t, key);
        assert KeyLe(key(l[0]), key(t[0])) by { assert t[0] == l[1]; }
      }
      ConsSorted(l[0], Insert(x, t, key), key);
    }
  }

  /** The sort returns a permutation of its input, sorted by key. */
  lemma {:induction false} SortByCorrect<T>(s: seq<T>, key: T -> Key)
    ensures multiset(SortBy(s, key)) == multiset(s)
    ensures |SortBy(s, key)| == |s|
    ensures SortedBy(SortBy(s, key), key)
  {
    if s != [] {
      var h := s[..|s| - 1];
      SortByCorrect(h, key);
      InsertElements(s[|s| - 1], SortBy(h, key), key);
      InsertSorted(s[|s| - 1], SortBy(h, key), key);
      assert s == h + [s[|s| - 1]];
    }
  }

  /** The elements of `s` whose key is `k`, in their order in `s`. */
  function WithKey<T>(s: seq<T>, key: T -> Key, k: Key): seq<T> {
    if s == [] then [] else (if key(s[0]) == k then [s[0]] else []) + WithKey(s[1..], key, k)
  }

  lemma {:induction false} WithKeyAppend<T>(a: seq<T>, b: seq<T>, key: T -> Key, k: Key)
    ensures WithKey(a + b, key, k) == WithKey(a, key, k) + WithKey(b, key, k)
  {
    if a == [] {
      assert a + b == b;
    } else {
      assert (a + b)[0] == a[0];
      assert (a + b)[1..] == a[1..] + b;
      WithKeyAppend(a[1..], b, key, k);
    }
  }

  lemma {:induction false} TailSorted<T>(l: seq<T>, key: T -> Key)
    requires SortedBy(l, key) && l != []
    ensures SortedBy(l[1..], key)
    ensures |l| > 1 ==> KeyLe(key(l[0]), key(l[1..][0]))
  {
    var t := l[1..];
    forall i, j | 0 <= i < j < |t| ensures KeyLe(key(t[i]), key(t[j])) {
      assert t[i] == l[i + 1] && t[j] == l[j + 1];
    }
  }

  /** Inserting into a sorted sequence puts `x` behind every element with the same key. */
  lemma {:induction false} InsertStable<T>(x: T, l: seq<T>, key: T -> Key, k: Key)
    requires SortedBy(l, key)
    ensures WithKey(Insert(x, l, key), key, k) == WithKey(l, key, k) + (if key(x) == k then [x] else [])
  {
    var mine: seq<T> := if key(x) == k then [x] else [];
    if l == [] {
      assert [x][1..] == [];
      assert WithKey([x], key, k) == mine + WithKey([x][1..], key, k);
    } else if KeyLt(key(x), key(l[0])) {
      var xs := [x] + l;
      assert xs[0] == x && xs[1..] == l;
      assert WithKey(xs, key, k) == mine + WithKey(l, key, k);
      if key(x) == k {
        LargerKeys(l, key, k);
      }
    } else {
      var t := l[1..];
      TailSorted(l, key);
      InsertStable(x, t, key, k);
      var head: seq<T> := if key(l[0]) == k then [l[0]] else [];
      var ys := [l[0]] + Insert(x, t, key);
      assert ys[0] == l[0] && ys[1..] == Insert(x, t, key);
      assert WithKey(ys, key, k) == head + WithKey(Insert(x, t, key), key, k);
      assert WithKey(l, key, k) == head + WithKey(t, key, k);
      assert head + (WithKey(t, key, k) + mine) == (head + WithKey(t, key, k)) + mine;
    }
  }

  /** A sorted sequence whose head has a key above `k` has no element with key `k`. */
  lemma {:induction false} LargerKeys<T>(l: seq<T>, key: T -> Key, k: Key)
    requires SortedBy(l, key) && l != [] && KeyLt(k, key(l[0]))
    ensures WithKey(l, key, k) == []
  {
    var t := l[1..];
    if t != [] {
      TailSorted(l, key);
      LargerKeys(t, key, k);
    }
  }

  /** The sort is stable: the elements with any one key come out in the order they went in. */
  lemma {:induction false} SortByStable<T>(s: seq<T>, key: T -> Key, k: Key)
    ensures WithKey(SortBy(s, key), key, k) == WithKey(s, key, k)
  {
    if s != [] {
      var h := s[..|s| - 1];
      var x := s[|s| - 1];
      var mine: seq<T> := if key(x) == k then [x] else [];
      assert s == h + [x];
      assert SortBy(s, key) == Insert(x, SortBy(h, key), key);
      SortByStable(h, key, k);
      SortByCorrect(h, key);
      InsertStable(x, SortBy(h, key), key, k);
      WithKeyAppend(h, [x], key, k);
      assert [x][1..] == [];
      assert WithKey([x], key, k) == mine + WithKey([x][1..], key, k);
      assert WithKey([x], key, k) == mine;
    }
  }

  /** Position of the first element with the smallest key. */
  function FirstMin<T>(s: seq<T>, key: T -> Key): (m: nat)
    requires s != []
    ensures m < |s|
    ensures forall j :: 0 <= j < |s| ==> KeyLe(key(s[m]), key(s[j]))
    ensures forall j :: 0 <= j < m ==> KeyLt(key(s[m]), key(s[j]))
  {
    if |s| == 1 then 0
    else
      var m := FirstMin(s[..|s| - 1], key);
      if KeyLt(key(s[|s| - 1]), key(s[m])) then |s| - 1 else m
  }

  lemma {:induction false} InsertHead<T>(x: T, l: seq<T>, key: T -> Key)
    requires l != []
    ensures Insert(x, l, key)[0] == if KeyLt(key(x), key(l[0])) then x else l[0]
  {
  }

  /** The head of the sorted sequence is the first element of the input with the smallest key:
      the engines' choice `readyQueue[0]` after the sort. */
  lemma {:induction false} SortByHead<T>(s: seq<T>, key: T -> Key)
    requires s != []
    ensures SortBy(s, key) != [] && SortBy(s, key)[0] == s[FirstMin(s, key)]
  {
    if |s| == 1 {
      assert SortBy(s[..0], key) == [];
    } else {
      var h := s[..|s| - 1];
      SortByHead(h, key);
      InsertHead(s[|s| - 1], SortBy(h, key), key);
      assert h[FirstMin(h, key)] == s[FirstMin(h, key)];
    }
  }
}
