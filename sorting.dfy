/**
 * Ordering of command names. The source sorts with `localeCompare`, whose
 * collation depends on the host locale; this model fixes it to the
 * lexicographic order on characters.
 */
module Sorting {

  /** `a` sorts before or equal to `b`. */
  predicate NameLeq(a: string, b: string)
  {
    |a| == 0 || (|b| > 0 && (a[0] < b[0] || (a[0] == b[0] && NameLeq(a[1..], b[1..]))))
  }

  lemma {:induction false} NameLeqTotal(a: string, b: string)
    ensures NameLeq(a, b) || NameLeq(b, a)
  {
    if |a| > 0 && |b| > 0 && a[0] == b[0] {
      NameLeqTotal(a[1..], b[1..]);
    }
  }

  lemma {:induction false} NameLeqTransitive(a: string, b: string, c: string)
    requires NameLeq(a, b) && NameLeq(b, c)
    ensures NameLeq(a, c)
  {
    if |a| > 0 && a[0] == b[0] && b[0] == c[0] {
      NameLeqTransitive(a[1..], b[1..], c[1..]);
    }
  }

  predicate Sorted(s: seq<string>)
  {
    forall i, j :: 0 <= i < j < |s| ==> NameLeq(s[i], s[j])
  }

  /** Insert `x` into a sorted sequence, keeping it sorted. */
  function Insert(x: string, s: seq<string>): (r: seq<string>)
    requires Sorted(s)
    ensures Sorted(r)
    ensures multiset(r) == multiset(s) + multiset{x}
  {
    if |s| == 0 then [x]
    else if NameLeq(x, s[0]) then
      InsertFrontSorted(x, s);
      [x] + s
    else
      NameLeqTotal(x, s[0]);
      var t := Insert(x, s[1..]);
      assert s == [s[0]] + s[1..];
      InsertTailSorted(s[0], s[1..], x, t);
      [s[0]] + t
  }

  lemma InsertFrontSorted(x: string, s: seq<string>)
    requires Sorted(s) && |s| > 0 && NameLeq(x, s[0])
    ensures Sorted([x] + s)
  {
    forall j | 0 < j < |s| + 1 ensures NameLeq(x, ([x] + s)[j]) {
      if j > 1 { NameLeqTransitive(x, s[0], s[j - 1]); }
    }
  }

  lemma InsertTailSorted(h: string, tail: seq<string>, x: string, t: seq<string>)
    requires Sorted([h] + tail) && NameLeq(h, x) && Sorted(t)
    requires multiset(t) == multiset(tail) + multiset{x}
    ensures Sorted([h] + t)
  {
    forall j | 0 <= j < |t| ensures NameLeq(h, t[j]) {
      assert t[j] in multiset(t);
      if t[j] != x {
        assert t[j] in multiset(tail);
        var k :| 0 <= k < |tail| && tail[k] == t[j];
        var ht := [h] + tail;
        assert ht[0] == h && ht[k + 1] == t[j];
        assert NameLeq(ht[0], ht[k + 1]);
      }
    }
  }

  /** The names in ascending order: sorted, and a permutation of the input. */
  function Sort(s: seq<string>): (r: seq<string>)
    ensures Sorted(r)
    ensures multiset(r) == multiset(s)
  {
    if |s| == 0 then []
    else
      assert s == [s[0]] + s[1..];
      Insert(s[0], Sort(s[1..]))
  }
}
