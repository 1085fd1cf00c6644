/**
 A stable sort, descending by an integer key, over sequences.

 Python's `sorted(xs, key=f, reverse=True)` keeps elements with equal keys in
 their original relative order. That promise is captured by `SameKeyOrder`:
 for every key value, the sub-sequence of elements carrying that key is the
 same before and after sorting. `SortDesc` is an insertion sort with that
 property, and `SortedStableUnique` shows that the property together with
 non-increasing keys pins the result down completely, so any stable sort
 (Python's Timsort included) produces exactly `SortDesc`'s output.
 */
module StableSort {

  /** The elements of `s` whose key is `k`, in their order in `s`. */
  function KeyFilter<T>(s: seq<T>, key: T -> int, k: int): (r: seq<T>)
    ensures |r| <= |s|
  {
    if |s| == 0 then []
    else if key(s[0]) == k then [s[0]] + KeyFilter(s[1..], key, k)
    else KeyFilter(s[1..], key, k)
  }

  /** Keys never increase from left to right. */
  predicate NonIncreasing<T>(s: seq<T>, key: T -> int) {
    forall i, j :: 0 <= i < j < |s| ==> key(s[i]) >= key(s[j])
  }

  /** `r` lists, for every key value, the same elements as `s` in the same order. */
  ghost predicate SameKeyOrder<T>(s: seq<T>, r: seq<T>, key: T -> int) {
    forall k :: KeyFilter(r, key, k) == KeyFilter(s, key, k)
  }

  lemma {:induction false} KeyFilterConcat<T>(a: seq<T>, b: seq<T>, key: T -> int, k: int)
    ensures KeyFilter(a + b, key, k) == KeyFilter(a, key, k) + KeyFilter(b, key, k)
  {
    if |a| == 0 {
      assert a + b == b;
    } else {
      var ab := a + b;
      assert ab[0] == a[0];
      assert ab[1..] == a[1..] + b;
      KeyFilterConcat(a[1..], b, key, k);
      if key(a[0]) == k {
        calc {
          KeyFilter(ab, key, k);
          [a[0]] + KeyFilter(a[1..] + b, key, k);
          [a[0]] + (KeyFilter(a[1..], key, k) + KeyFilter(b, key, k));
          ([a[0]] + KeyFilter(a[1..], key, k)) + KeyFilter(b, key, k);
        }
      }
    }
  }

  /**
   Inserts `x` into `s` in front of the first element whose key is not
   larger than `x`'s, so that `x` precedes the elements it ties with.
   */
  function Insert<T>(x: T, s: seq<T>, key: T -> int): (r: seq<T>)
    ensures |r| == |s| + 1
    ensures r[0] == x || (|s| > 0 && r[0] == s[0])
  {
    if |s| == 0 || key(x) >= key(s[0]) then [x] + s
    else
      assert s == [s[0]] + s[1..];
      [s[0]] + Insert(x, s[1..], key)
  }

  /** Insertion adds exactly `x`. */
  lemma {:induction false} InsertPermutes<T>(x: T, s: seq<T>, key: T -> int)
    ensures multiset(Insert(x, s, key)) == multiset(s) + multiset{x}
  {
    if |s| > 0 && key(x) < key(s[0]) {
      InsertPermutes(x, s[1..], key);
      assert s == [s[0]] + s[1..];
    }
  }

  /** Insertion keeps a non-increasing sequence non-increasing. */
  lemma {:induction false} InsertSorted<T>(x: T, s: seq<T>, key: T -> int)
    requires NonIncreasing(s, key)
    ensures NonIncreasing(Insert(x, s, key), key)
  {
    if |s| > 0 && key(x) < key(s[0]) {
      var rest := Insert(x, s[1..], key);
      InsertSorted(x, s[1..], key);
      assert key(rest[0]) <= key(s[0]);
      var r := [s[0]] + rest;
      forall i, j | 0 <= i < j < |r|
        ensures key(r[i]) >= key(r[j])
      {
        if i == 0 {
          assert r[j] == rest[j - 1];
          if j > 1 {
            assert key(rest[0]) >= key(rest[j - 1]);
          }
        } else {
          assert r[i] == rest[i - 1] && r[j] == rest[j - 1];
        }
      }
    }
  }

  /** Inserting `x` leaves every key's sub-sequence as if `x` had been put at the front. */
  lemma {:induction false} InsertKeyFilter<T>(x: T, s: seq<T>, key: T -> int, k: int)
    ensures KeyFilter(Insert(x, s, key), key, k) == KeyFilter([x] + s, key, k)
  {
    if |s| == 0 || key(x) >= key(s[0]) {
    } else {
      var rest := Insert(x, s[1..], key);
      InsertKeyFilter(x, s[1..], key, k);
      KeyFilterConcat([s[0]], rest, key, k);
      KeyFilterConcat([x], s[1..], key, k);
      KeyFilterConcat([s[0]], s[1..], key, k);
      KeyFilterConcat([x], s, key, k);
      assert s == [s[0]] + s[1..];
    }
  }

  /** Stable insertion sort, largest key first. */
  function SortDesc<T>(s: seq<T>, key: T -> int): (r: seq<T>)
    ensures |r| == |s|
  {
    if |s| == 0 then []
    else
      assert s == [s[0]] + s[1..];
      Insert(s[0], SortDesc(s[1..], key), key)
  }

  /** `SortDesc` orders by non-increasing key. */
  lemma {:induction false} SortDescSorted<T>(s: seq<T>, key: T -> int)
    ensures NonIncreasing(SortDesc(s, key), key)
  {
    if |s| > 0 {
      SortDescSorted(s[1..], key);
      InsertSorted(s[0], SortDesc(s[1..], key), key);
    }
  }

  /** `SortDesc` only reorders its input. */
  lemma {:induction false} SortDescPermutes<T>(s: seq<T>, key: T -> int)
    ensures multiset(SortDesc(s, key)) == multiset(s)
  {
    if |s| > 0 {
      SortDescPermutes(s[1..], key);
      InsertPermutes(s[0], SortDesc(s[1..], key), key);
      assert s == [s[0]] + s[1..];
      assert multiset(s) == multiset(s[1..]) + multiset{s[0]};
    }
  }

  /** `SortDesc` is stable: equal keys keep their input order. */
  lemma {:induction false} SortDescStable<T>(s: seq<T>, key: T -> int)
    ensures SameKeyOrder(s, SortDesc(s, key), key)
  {
    if |s| > 0 {
      SortDescStable(s[1..], key);
      forall k
        ensures KeyFilter(SortDesc(s, key), key, k) == KeyFilter(s, key, k)
      {
        InsertKeyFilter(s[0], SortDesc(s[1..], key), key, k);
        KeyFilterConcat([s[0]], SortDesc(s[1..], key), key, k);
        KeyFilterConcat([s[0]], s[1..], key, k);
        assert s == [s[0]] + s[1..];
      }
    }
  }

  /** In a non-increasing sequence no element has a key above the first one's. */
  lemma {:induction false} KeyFilterAboveHead<T>(s: seq<T>, key: T -> int, k: int)
    requires NonIncreasing(s, key)
    requires |s| > 0 && k > key(s[0])
    ensures KeyFilter(s, key, k) == []
  {
    if |s| > 1 {
      KeyFilterAboveHead(s[1..], key, k);
    }
  }

  /** The first element heads the sub-sequence of its own key. */
  lemma KeyFilterHead<T>(s: seq<T>, key: T -> int)
    requires |s| > 0
    ensures KeyFilter(s, key, key(s[0])) == [s[0]] + KeyFilter(s[1..], key, key(s[0]))
  {
  }

  /**
   Two arrangements with non-increasing keys and the same per-key order are
   equal: a stable descending sort has exactly one possible result.
   */
  lemma {:induction false} SortedStableUnique<T>(r1: seq<T>, r2: seq<T>, key: T -> int)
    requires NonIncreasing(r1, key) && NonIncreasing(r2, key)
    requires forall k :: KeyFilter(r1, key, k) == KeyFilter(r2, key, k)
    ensures r1 == r2
    decreases |r1|
  {
    if |r1| == 0 {
      if |r2| > 0 {
        KeyFilterHead(r2, key);
        assert false;
      }
    } else if |r2| == 0 {
      KeyFilterHead(r1, key);
      assert false;
    } else {
      var a, b := key(r1[0]), key(r2[0]);
      if a > b {
        KeyFilterAboveHead(r2, key, a);
        KeyFilterHead(r1, key);
        assert false;
      } else if b > a {
        KeyFilterAboveHead(r1, key, b);
        KeyFilterHead(r2, key);
        assert false;
      } else {
        assert KeyFilter(r1, key, a)[0] == r1[0];
        assert KeyFilter(r2, key, a)[0] == r2[0];
        forall k
          ensures KeyFilter(r1[1..], key, k) == KeyFilter(r2[1..], key, k)
        {
          var p := if a == k then [r1[0]] else [];
          assert KeyFilter(r1, key, k) == p + KeyFilter(r1[1..], key, k);
          assert KeyFilter(r2, key, k) == p + KeyFilter(r2[1..], key, k);
          assert KeyFilter(r1[1..], key, k) == KeyFilter(r1, key, k)[|p|..];
        }
        SortedStableUnique(r1[1..], r2[1..], key);
        assert r1 == [r1[0]] + r1[1..];
        assert r2 == [r2[0]] + r2[1..];
      }
    }
  }
}
