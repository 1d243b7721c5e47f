/**
 * `Array.prototype.sort` with a descending comparator `(a, b) => key(b) - key(a)`.
 * ECMAScript requires that sort to be stable, so it is modelled by a stable
 * insertion sort: a later element is inserted after every element whose key
 * is at least its own.
 */
module StableSort {

  ghost predicate NonIncreasing<T>(s: seq<T>, key: T -> real)
  {
    forall i, j :: 0 <= i < j < |s| ==> key(s[i]) >= key(s[j])
  }

  /** The elements of `s` whose key is `v`, in their order in `s`. */
  function WithKey<T>(s: seq<T>, key: T -> real, v: real): seq<T>
  {
    if |s| == 0 then []
    else (if key(s[0]) == v then [s[0]] else []) + WithKey(s[1..], key, v)
  }

  lemma {:induction false} WithKeyAppend<T>(s: seq<T>, t: seq<T>, key: T -> real, v: real)
    ensures WithKey(s + t, key, v) == WithKey(s, key, v) + WithKey(t, key, v)
  {
    if |s| > 0 {
      assert (s + t)[1..] == s[1..] + t;
      WithKeyAppend(s[1..], t, key, v);
    } else {
      assert s + t == t;
    }
  }

  lemma {:induction false} WithKeyAbsent<T>(s: seq<T>, key: T -> real, v: real)
    requires forall i :: 0 <= i < |s| ==> key(s[i]) < v
    ensures WithKey(s, key, v) == []
  {
    if |s| > 0 {
      WithKeyAbsent(s[1..], key, v);
    }
  }

  function Insert<T>(x: T, s: seq<T>, key: T -> real): (r: seq<T>)
    requires NonIncreasing(s, key)
    ensures NonIncreasing(r, key)
    ensures multiset(r) == multiset(s) + multiset{x}
    ensures |r| == |s| + 1
  {
    if |s| == 0 then [x]
    else if key(s[0]) >= key(x) then
      var rest := Insert(x, s[1..], key);
      HeadBound(s[0], s[1..], x, rest, key);
      ConsNonIncreasing(s[0], rest, key);
      assert multiset([s[0]] + rest) == multiset(s) + multiset{x} by {
        assert s == [s[0]] + s[1..];
      }
      [s[0]] + rest
    else
      ConsNonIncreasing(x, s, key);
      [x] + s
  }

  /** An element with a larger key than the head of `s` goes in front. */
  lemma InsertAhead<T>(x: T, s: seq<T>, key: T -> real)
    requires NonIncreasing(s, key)
    requires |s| > 0 && key(x) > key(s[0])
    ensures Insert(x, s, key) == [x] + s
  {
  }

  /** An element whose key bounds the keys of `t` and of `x` bounds every element of a permutation of `t` and `x`. */
  lemma HeadBound<T>(h: T, t: seq<T>, x: T, rest: seq<T>, key: T -> real)
    requires multiset(rest) == multiset(t) + multiset{x}
    requires key(h) >= key(x) && forall k :: 0 <= k < |t| ==> key(h) >= key(t[k])
    ensures forall k :: 0 <= k < |rest| ==> key(h) >= key(rest[k])
  {
    forall k | 0 <= k < |rest| ensures key(h) >= key(rest[k]) {
      assert rest[k] in multiset(t) + multiset{x};
    }
  }

  lemma ConsNonIncreasing<T>(h: T, t: seq<T>, key: T -> real)
    requires NonIncreasing(t, key)
    requires forall k :: 0 <= k < |t| ==> key(h) >= key(t[k])
    ensures NonIncreasing([h] + t, key)
  {
    forall i, j | 0 <= i < j < |[h] + t| ensures key(([h] + t)[i]) >= key(([h] + t)[j]) {
      if i > 0 {
        assert ([h] + t)[i] == t[i - 1];
      }
      assert ([h] + t)[j] == t[j - 1];
    }
  }

  /** The stable descending sort of `s` by `key`: sorted, and a permutation of `s`. */
  function Sort<T>(s: seq<T>, key: T -> real): (r: seq<T>)
    ensures NonIncreasing(r, key)
    ensures multiset(r) == multiset(s)
    ensures |r| == |s|
  {
    if |s| == 0 then []
    else
      assert s == s[..|s| - 1] + [s[|s| - 1]];
      Insert(s[|s| - 1], Sort(s[..|s| - 1], key), key)
  }

  lemma SplitLast<T>(s: seq<T>)
    requires |s| > 0
    ensures s == s[..|s| - 1] + [s[|s| - 1]]
  {
  }

  lemma AppendAssoc<T>(a: seq<T>, b: seq<T>, c: seq<T>)
    ensures a + (b + c) == (a + b) + c
  {
  }

  lemma {:induction false} InsertWithKey<T>(x: T, s: seq<T>, key: T -> real, v: real)
    requires NonIncreasing(s, key)
    ensures WithKey(Insert(x, s, key), key, v) == WithKey(s, key, v) + (if key(x) == v then [x] else [])
  {
    var tail := if key(x) == v then [x] else [];
    if |s| == 0 {
      assert Insert(x, s, key) == [x];
      assert WithKey([x], key, v) == tail + WithKey([x][1..], key, v);
    } else if key(s[0]) >= key(x) {
      var head := if key(s[0]) == v then [s[0]] else [];
      var rest := Insert(x, s[1..], key);
      assert Insert(x, s, key) == [s[0]] + rest;
      InsertWithKey(x, s[1..], key, v);
      assert ([s[0]] + rest)[1..] == rest;
      calc {
        WithKey([s[0]] + rest, key, v);
        head + WithKey(rest, key, v);
        head + (WithKey(s[1..], key, v) + tail);
        { AppendAssoc(head, WithKey(s[1..], key, v), tail); }
        (head + WithKey(s[1..], key, v)) + tail;
        WithKey(s, key, v) + tail;
      }
    } else {
      assert Insert(x, s, key) == [x] + s;
      assert ([x] + s)[1..] == s;
      assert WithKey([x] + s, key, v) == tail + WithKey(s, key, v);
      if key(x) == v {
        WithKeyAbsent(s, key, v);
      }
    }
  }

  /**
   * Stability: for every key value, the elements carrying it appear in the
   * sorted result in exactly the order they had in the input.
   */
  lemma {:induction false} SortIsStable<T>(s: seq<T>, key: T -> real, v: real)
    ensures WithKey(Sort(s, key), key, v) == WithKey(s, key, v)
  {
    if |s| > 0 {
      var init, x := s[..|s| - 1], s[|s| - 1];
      var tail := if key(x) == v then [x] else [];
      assert Sort(s, key) == Insert(x, Sort(init, key), key);
      SortIsStable(init, key, v);
      InsertWithKey(x, Sort(init, key), key, v);
      assert WithKey(Sort(s, key), key, v) == WithKey(init, key, v) + tail;
      SplitLast(s);
      WithKeyAppend(init, [x], key, v);
      assert WithKey([x], key, v) == tail + WithKey([x][1..], key, v);
      assert [x][1..] == [];
    }
  }

  /** An element no larger than every element of a sorted sequence goes at its end. */
  lemma {:induction false} InsertLast<T>(x: T, s: seq<T>, key: T -> real)
    requires NonIncreasing(s, key)
    requires forall k :: 0 <= k < |s| ==> key(s[k]) >= key(x)
    ensures Insert(x, s, key) == s + [x]
  {
    if |s| > 0 {
      InsertLast(x, s[1..], key);
      assert s == [s[0]] + s[1..];
      AppendAssoc([s[0]], s[1..], [x]);
    }
  }

  /** Sorting input that is already in order changes nothing. */
  lemma {:induction false} SortOfSorted<T>(s: seq<T>, key: T -> real)
    requires NonIncreasing(s, key)
    ensures Sort(s, key) == s
  {
    if |s| > 0 {
      var init, x := s[..|s| - 1], s[|s| - 1];
      SortOfSorted(init, key);
      InsertLast(x, init, key);
      SplitLast(s);
    }
  }
}
