/**
 * A stable sort of a sequence by a string key, ascending or descending: the model of
 * `Array.prototype.sort` (stable since ECMAScript 2019) with a comparator that
 * compares the keys of two elements, or the keys swapped for descending order.
 */
module Sorting {
  import opened Seqs
  import opened Strings

  /** Key `a` may come before key `b` in the chosen direction. */
  predicate Ordered(a: string, b: string, descending: bool) {
    if descending then LexLeq(b, a) else LexLeq(a, b)
  }

  lemma OrderedTotal(a: string, b: string, descending: bool)
    ensures Ordered(a, b, descending) || Ordered(b, a, descending)
  {
    LexLeqTotal(a, b);
  }

  lemma OrderedTransitive(a: string, b: string, c: string, descending: bool)
    requires Ordered(a, b, descending) && Ordered(b, c, descending)
    ensures Ordered(a, c, descending)
  {
    if descending {
      LexLeqTransitive(c, b, a);
    } else {
      LexLeqTransitive(a, b, c);
    }
  }

  /** Every earlier element's key is ordered before every later one's. */
  ghost predicate SortedByKey<T>(s: seq<T>, key: T -> string, descending: bool) {
    forall i, j :: 0 <= i < j < |s| ==> Ordered(key(s[i]), key(s[j]), descending)
  }

  /** The elements of `s` whose key is `k`, in their order in `s`. */
  function WithKey<T>(s: seq<T>, key: T -> string, k: string): seq<T> {
    Keep(s, x => key(x) == k)
  }

  /** Places `x` before the first element whose key it may precede, so that it stays ahead of equal keys. */
  function Insert<T>(x: T, s: seq<T>, key: T -> string, descending: bool): seq<T> {
    if s == [] || Ordered(key(x), key(s[0]), descending) then [x] + s
    else [s[0]] + Insert(x, s[1..], key, descending)
  }

  /** Insertion sort: each element is inserted into the sorted rest of the sequence. */
  function SortByKey<T>(s: seq<T>, key: T -> string, descending: bool): seq<T> {
    if s == [] then [] else Insert(s[0], SortByKey(s[1..], key, descending), key, descending)
  }

  lemma {:induction false} InsertPermutation<T>(x: T, s: seq<T>, key: T -> string, descending: bool)
    ensures multiset(Insert(x, s, key, descending)) == multiset{x} + multiset(s)
  {
    if s != [] && !Ordered(key(x), key(s[0]), descending) {
      InsertPermutation(x, s[1..], key, descending);
      assert s == [s[0]] + s[1..];
    }
  }

  lemma {:induction false} InsertSorted<T>(x: T, s: seq<T>, key: T -> string, descending: bool)
    requires SortedByKey(s, key, descending)
    ensures SortedByKey(Insert(x, s, key, descending), key, descending)
  {
    var r := Insert(x, s, key, descending);
    if s == [] {
    } else if Ordered(key(x), key(s[0]), descending) {
      forall j | 1 <= j < |r|
        ensures Ordered(key(r[0]), key(r[j]), descending)
      {
        if j > 1 {
          OrderedTransitive(key(x), key(s[0]), key(s[j - 1]), descending);
        }
      }
    } else {
      var u := Insert(x, s[1..], key, descending);
      InsertSorted(x, s[1..], key, descending);
      InsertPermutation(x, s[1..], key, descending);
      OrderedTotal(key(x), key(s[0]), descending);
      forall j | 0 <= j < |u|
        ensures Ordered(key(s[0]), key(u[j]), descending)
      {
        assert u[j] in multiset(u);
        if u[j] != x {
          assert u[j] in s[1..];
        }
      }
      assert r == [s[0]] + u;
    }
  }

  /**
   * Inserting `x` into a sorted sequence puts it ahead of every element with the
   * same key and leaves the order among the others alone.
   */
  lemma {:induction false} InsertWithKey<T>(x: T, s: seq<T>, key: T -> string, descending: bool, k: string)
    requires SortedByKey(s, key, descending)
    ensures WithKey(Insert(x, s, key, descending), key, k)
         == (if key(x) == k then [x] else []) + WithKey(s, key, k)
  {
    var p := (y: T) => key(y) == k;
    if s == [] || Ordered(key(x), key(s[0]), descending) {
      KeepCons(x, s, p);
    } else {
      var y, tail := s[0], s[1..];
      InsertWithKey(x, tail, key, descending, k);
      KeepCons(y, Insert(x, tail, key, descending), p);
      KeepCons(y, tail, p);
      assert s == [y] + tail;
      assert key(x) == k ==> key(y) != k by {
        LexLeqReflexive(key(x));
      }
      WithKeyStep(x, y, WithKey(tail, key, k), key(x) == k, key(y) == k);
    }
  }

  /** The list reasoning of InsertWithKey's second case, on plain values. */
  lemma WithKeyStep<T>(x: T, y: T, rest: seq<T>, xk: bool, yk: bool)
    requires xk ==> !yk
    ensures (if yk then [y] else []) + ((if xk then [x] else []) + rest)
         == (if xk then [x] else []) + ((if yk then [y] else []) + rest)
  {
  }

  /** The sort's result is a permutation of its input. */
  lemma {:induction false} SortPermutation<T>(s: seq<T>, key: T -> string, descending: bool)
    ensures multiset(SortByKey(s, key, descending)) == multiset(s)
  {
    if s != [] {
      SortPermutation(s[1..], key, descending);
      InsertPermutation(s[0], SortByKey(s[1..], key, descending), key, descending);
      assert s == [s[0]] + s[1..];
    }
  }

  /** The sort's result is ordered by key in the chosen direction. */
  lemma {:induction false} SortSorted<T>(s: seq<T>, key: T -> string, descending: bool)
    ensures SortedByKey(SortByKey(s, key, descending), key, descending)
  {
    if s != [] {
      SortSorted(s[1..], key, descending);
      InsertSorted(s[0], SortByKey(s[1..], key, descending), key, descending);
    }
  }

  /** The sort is stable: elements with equal keys keep their relative order. */
  lemma {:induction false} SortStable<T>(s: seq<T>, key: T -> string, descending: bool, k: string)
    ensures WithKey(SortByKey(s, key, descending), key, k) == WithKey(s, key, k)
  {
    if s != [] {
      SortStable(s[1..], key, descending, k);
      SortSorted(s[1..], key, descending);
      InsertWithKey(s[0], SortByKey(s[1..], key, descending), key, descending, k);
      KeepCons(s[0], s[1..], (y: T) => key(y) == k);
      assert s == [s[0]] + s[1..];
    }
  }
}
