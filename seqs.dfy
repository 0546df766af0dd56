/** Sequence helpers shared by the whole pipeline: filtering (the list
    comprehensions with a condition and the boolean row masks of the analysis),
    counting, subsequences and joining strings with a separator. */
module Seqs {

  /** `r` can be obtained from `s` by deleting elements: same elements, same order. */
  predicate IsSubsequence<T(==)>(r: seq<T>, s: seq<T>)
    decreases |s|
  {
    r == [] ||
    (s != [] && ((r[0] == s[0] && IsSubsequence(r[1..], s[1..])) || IsSubsequence(r, s[1..])))
  }

  /** The number of elements of `s` that satisfy `p`. */
  function Count<T>(p: T -> bool, s: seq<T>): nat
  {
    if s == [] then 0 else (if p(s[0]) then 1 else 0) + Count(p, s[1..])
  }

  /** The elements of `s` that satisfy `p`, kept in their original order. */
  function Filter<T(==)>(p: T -> bool, s: seq<T>): (r: seq<T>)
    ensures |r| == Count(p, s)
    ensures forall i :: 0 <= i < |r| ==> r[i] in s && p(r[i])
    ensures forall i :: 0 <= i < |s| && p(s[i]) ==> s[i] in r
    ensures IsSubsequence(r, s)
  {
    if s == [] then []
    else if p(s[0]) then [s[0]] + Filter(p, s[1..])
    else Filter(p, s[1..])
  }

  /** Filtering a concatenation filters each part. */
  lemma {:induction false} FilterAppend<T>(p: T -> bool, a: seq<T>, b: seq<T>)
    ensures Filter(p, a + b) == Filter(p, a) + Filter(p, b)
  {
    if a != [] {
      assert (a + b)[1..] == a[1..] + b;
      FilterAppend(p, a[1..], b);
    } else {
      assert a + b == b;
    }
  }

  /** Two conditions that never hold together select at most |s| elements in all. */
  lemma {:induction false} ExclusiveCounts<T>(p: T -> bool, q: T -> bool, s: seq<T>)
    requires forall x :: !(p(x) && q(x))
    ensures Count(p, s) + Count(q, s) <= |s|
  {
    if s != [] {
      ExclusiveCounts(p, q, s[1..]);
    }
  }

  /** No element of `s` satisfies `p` exactly when none is selected. */
  lemma {:induction false} CountZero<T>(p: T -> bool, s: seq<T>)
    ensures Count(p, s) == 0 <==> forall i :: 0 <= i < |s| ==> !p(s[i])
  {
    if s != [] {
      CountZero(p, s[1..]);
      assert forall i :: 1 <= i < |s| ==> s[i] == s[1..][i - 1];
    }
  }

  /** `", ".join(xs)` in Python: the elements of `xs` with `sep` between neighbours. */
  function Join(sep: string, xs: seq<string>): string
  {
    if xs == [] then ""
    else if |xs| == 1 then xs[0]
    else xs[0] + sep + Join(sep, xs[1..])
  }

  /** `part` starts at offset `i` of `whole`. */
  predicate OccursAt(part: string, whole: string, i: int)
  {
    0 <= i <= |whole| - |part| && whole[i..i + |part|] == part
  }

  /** `part in whole` for Python strings. */
  predicate Occurs(part: string, whole: string)
  {
    exists i :: 0 <= i <= |whole| - |part| && OccursAt(part, whole, i)
  }

  /** An occurrence inside the tail of a concatenation is an occurrence in the whole. */
  lemma OccursAfter(part: string, front: string, back: string)
    requires Occurs(part, back)
    ensures Occurs(part, front + back)
  {
    var i :| 0 <= i <= |back| - |part| && OccursAt(part, back, i);
    assert (front + back)[|front| + i..|front| + i + |part|] == back[i..i + |part|];
    assert OccursAt(part, front + back, |front| + i);
  }

  lemma OccursSelf(s: string)
    ensures Occurs(s, s)
  {
    assert OccursAt(s, s, 0);
  }

  /** An occurrence in the middle part of a concatenation is an occurrence in the whole. */
  lemma OccursInside(part: string, front: string, middle: string, back: string)
    requires Occurs(part, middle)
    ensures Occurs(part, front + middle + back)
  {
    var i :| 0 <= i <= |middle| - |part| && OccursAt(part, middle, i);
    var w := front + middle + back;
    assert w[|front| + i..|front| + i + |part|] == middle[i..i + |part|];
    assert OccursAt(part, w, |front| + i);
  }

  /** Every element of `xs` occurs in `Join(sep, xs)`. */
  lemma {:induction false} JoinContains(sep: string, xs: seq<string>, k: nat)
    requires k < |xs|
    ensures Occurs(xs[k], Join(sep, xs))
  {
    var j := Join(sep, xs);
    if |xs| == 1 {
      assert OccursAt(xs[0], j, 0);
    } else if k == 0 {
      assert j == xs[0] + (sep + Join(sep, xs[1..]));
      assert j[0..|xs[0]|] == xs[0];
      assert OccursAt(xs[0], j, 0);
    } else {
      JoinContains(sep, xs[1..], k - 1);
      assert j == (xs[0] + sep) + Join(sep, xs[1..]);
      OccursAfter(xs[k], xs[0] + sep, Join(sep, xs[1..]));
    }
  }
}
