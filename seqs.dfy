/**
 * Sequence helpers shared by the model: filtering, first-appearance
 * de-duplication and flattening. Every definition recurses on the LAST
 * element, so that a loop that appends one element at a time matches one
 * unfolding of the definition.
 */
module Seqs {

  /** `s.filter(p)`: the elements of `s` satisfying `p`, in order. */
  function Filter<T>(s: seq<T>, p: T -> bool): (r: seq<T>)
    ensures |r| <= |s|
    ensures forall i :: 0 <= i < |r| ==> p(r[i])
  {
    if |s| == 0 then []
    else Filter(s[..|s| - 1], p) + (if p(s[|s| - 1]) then [s[|s| - 1]] else [])
  }

  lemma {:induction false} FilterAppend<T>(s: seq<T>, t: seq<T>, p: T -> bool)
    ensures Filter(s + t, p) == Filter(s, p) + Filter(t, p)
    decreases |t|
  {
    if |t| > 0 {
      var last := t[|t| - 1];
      assert (s + t)[..|s + t| - 1] == s + t[..|t| - 1];
      FilterAppend(s, t[..|t| - 1], p);
    } else {
      assert s + t == s;
    }
  }

  lemma {:induction false} FilterMember<T>(s: seq<T>, p: T -> bool, x: T)
    ensures x in Filter(s, p) <==> x in s && p(x)
  {
    if |s| > 0 {
      FilterMember(s[..|s| - 1], p, x);
      assert s == s[..|s| - 1] + [s[|s| - 1]];
    }
  }

  /** Filtering by a stronger condition after a weaker one is filtering by the stronger one alone. */
  lemma {:induction false} FilterOfFilter<T>(s: seq<T>, weak: T -> bool, strong: T -> bool)
    requires forall x :: strong(x) ==> weak(x)
    ensures Filter(Filter(s, weak), strong) == Filter(s, strong)
  {
    if |s| > 0 {
      var init, x := s[..|s| - 1], s[|s| - 1];
      FilterOfFilter(init, weak, strong);
      FilterAppend(Filter(init, weak), if weak(x) then [x] else [], strong);
      assert Filter([x], strong) == Filter([], strong) + (if strong(x) then [x] else []);
    }
  }

  /** Elements of `s` without repetitions, each at the position of its first appearance. */
  function Distinct<T(==)>(s: seq<T>): (r: seq<T>)
    ensures forall i :: 0 <= i < |r| ==> r[i] in s
    ensures forall i :: 0 <= i < |s| ==> s[i] in r
    ensures NoDuplicates(r)
  {
    if |s| == 0 then []
    else
      var r := Distinct(s[..|s| - 1]);
      var x := s[|s| - 1];
      if x in r then r else r + [x]
  }

  lemma DistinctSnoc<T>(s: seq<T>, x: T)
    ensures Distinct(s + [x]) == if x in Distinct(s) then Distinct(s) else Distinct(s) + [x]
  {
    assert (s + [x])[..|s|] == s;
  }

  ghost predicate NoDuplicates<T>(s: seq<T>)
  {
    forall i, j :: 0 <= i < j < |s| ==> s[i] != s[j]
  }

  /** `ss.flat()`: the concatenation of all sequences in `ss`, in order. */
  function Concat<T>(ss: seq<seq<T>>): (r: seq<T>)
  {
    if |ss| == 0 then [] else Concat(ss[..|ss| - 1]) + ss[|ss| - 1]
  }

  lemma ConcatSnoc<T>(ss: seq<seq<T>>, s: seq<T>)
    ensures Concat(ss + [s]) == Concat(ss) + s
  {
    assert (ss + [s])[..|ss|] == ss;
  }

  lemma {:induction false} ConcatMember<T>(ss: seq<seq<T>>, x: T)
    ensures x in Concat(ss) <==> exists k :: 0 <= k < |ss| && x in ss[k]
  {
    if |ss| > 0 {
      var init := ss[..|ss| - 1];
      ConcatMember(init, x);
      assert forall k :: 0 <= k < |init| ==> init[k] == ss[k];
    }
  }

  /** Growing the visited prefix of `t` by one element, after a fixed `s`. */
  lemma PrefixStep<T>(s: seq<T>, t: seq<T>, i: nat)
    requires i < |t|
    ensures s + t[..i + 1] == (s + t[..i]) + [t[i]]
  {
  }

  lemma SliceStep<T>(t: seq<T>, i: nat)
    requires i < |t|
    ensures t[..i + 1] == t[..i] + [t[i]]
  {
  }

  lemma PrefixEnds<T>(s: seq<T>, t: seq<T>)
    ensures s + t[..0] == s && t[..|t|] == t
  {
  }
}
