/**
 * Array operations the pages use on their lists, as pure functions on sequences:
 * `filter`, `filter(..).length`, `find`, `findIndex`, the stable `sort` with a comparator,
 * and the insertion-ordered distinct values of a `Set` built from a list.
 */
module Seqs {
  import opened Wrappers

  /** The elements of `s` satisfying `p`, in their original order. */
  function Filter<T>(p: T -> bool, s: seq<T>): (r: seq<T>)
    ensures |r| <= |s|
    ensures forall k :: 0 <= k < |r| ==> r[k] in s && p(r[k])
    decreases |s|
  {
    if |s| == 0 then []
    else (if p(s[0]) then [s[0]] else []) + Filter(p, s[1..])
  }

  /** How many elements of `s` satisfy `p` (`s.filter(p).length`). */
  function Count<T>(p: T -> bool, s: seq<T>): (n: nat)
    ensures n <= |s|
  {
    |Filter(p, s)|
  }

  /** `a` can be obtained from `b` by deleting elements: order is kept. */
  ghost predicate IsSubseq<T>(a: seq<T>, b: seq<T>)
    decreases |b|
  {
    if |a| == 0 then true
    else if |b| == 0 then false
    else if a[0] == b[0] then IsSubseq(a[1..], b[1..])
    else IsSubseq(a, b[1..])
  }

  /** No value occurs twice. */
  ghost predicate NoDup<T>(s: seq<T>) {
    forall i, j :: 0 <= i < j < |s| ==> s[i] != s[j]
  }

  lemma {:induction false} FilterMembership<T>(p: T -> bool, s: seq<T>, x: T)
    ensures x in Filter(p, s) <==> x in s && p(x)
    decreases |s|
  {
    if |s| > 0 {
      FilterMembership(p, s[1..], x);
      assert s == [s[0]] + s[1..];
    }
  }

  /** Every element satisfying `p` is kept as often as it occurs; no other element is kept. */
  lemma {:induction false} FilterMultiset<T>(p: T -> bool, s: seq<T>, x: T)
    ensures multiset(Filter(p, s))[x] == if p(x) then multiset(s)[x] else 0
    decreases |s|
  {
    if |s| > 0 {
      FilterMultiset(p, s[1..], x);
      assert s == [s[0]] + s[1..];
    }
  }

  lemma {:induction false} FilterIsSubseq<T>(p: T -> bool, s: seq<T>)
    ensures IsSubseq(Filter(p, s), s)
    decreases |s|
  {
    if |s| > 0 {
      var r := Filter(p, s[1..]);
      FilterIsSubseq(p, s[1..]);
      if p(s[0]) {
        assert Filter(p, s) == [s[0]] + r;
        assert (Filter(p, s))[1..] == r;
      } else {
        assert Filter(p, s) == r;
        SubseqDropFront(r, s);
      }
    }
  }

  /** If `a` is a subsequence of the tail of `b`, it is a subsequence of `b`. */
  lemma {:induction false} SubseqDropFront<T>(a: seq<T>, b: seq<T>)
    requires |b| > 0 && IsSubseq(a, b[1..])
    ensures IsSubseq(a, b)
    decreases |a| + |b|
  {
    if |a| > 0 && a[0] == b[0] {
      // IsSubseq(a, b[1..]) with a[0] == b[0] gives IsSubseq(a[1..], rest of b[1..])
      SubseqTail(a, b[1..]);
    }
  }

  /** Dropping the head of a non-empty subsequence keeps it a subsequence. */
  lemma {:induction false} SubseqTail<T>(a: seq<T>, b: seq<T>)
    requires |a| > 0 && IsSubseq(a, b)
    ensures IsSubseq(a[1..], b)
    decreases |a| + |b|
  {
    if |b| > 0 {
      if a[0] == b[0] {
        if |a| > 1 {
          SubseqDropFront(a[1..], b);
        }
      } else {
        SubseqTail(a, b[1..]);
        if |a| > 1 {
          SubseqDropFront(a[1..], b);
        }
      }
    }
  }

  /** A filter that keeps every element returns the list itself. */
  lemma {:induction false} FilterKeepsAll<T>(p: T -> bool, s: seq<T>)
    requires forall i :: 0 <= i < |s| ==> p(s[i])
    ensures Filter(p, s) == s
    decreases |s|
  {
    if |s| > 0 {
      FilterKeepsAll(p, s[1..]);
      assert s == [s[0]] + s[1..];
    }
  }

  /**
   * Three predicates that are pairwise exclusive on `s` count at most `|s|` elements together,
   * and exactly `|s|` when every element satisfies one of them.
   */
  lemma {:induction false} CountThree<T>(p1: T -> bool, p2: T -> bool, p3: T -> bool, s: seq<T>)
    requires forall i :: 0 <= i < |s| ==> !(p1(s[i]) && p2(s[i])) && !(p1(s[i]) && p3(s[i])) && !(p2(s[i]) && p3(s[i]))
    ensures Count(p1, s) + Count(p2, s) + Count(p3, s) <= |s|
    ensures (forall i :: 0 <= i < |s| ==> p1(s[i]) || p2(s[i]) || p3(s[i])) ==>
              Count(p1, s) + Count(p2, s) + Count(p3, s) == |s|
    decreases |s|
  {
    if |s| > 0 {
      CountThree(p1, p2, p3, s[1..]);
      assert forall p: T -> bool :: Count(p, s) == (if p(s[0]) then 1 else 0) + Count(p, s[1..]);
    }
  }

  /** The first index whose element satisfies `p` (`findIndex`, with -1 as `None`). */
  function FindIndex<T>(p: T -> bool, s: seq<T>): (r: Option<nat>)
    ensures r.Some? ==> r.value < |s| && p(s[r.value]) && forall j :: 0 <= j < r.value ==> !p(s[j])
    ensures r.None? ==> forall i :: 0 <= i < |s| ==> !p(s[i])
    decreases |s|
  {
    if |s| == 0 then None
    else if p(s[0]) then Some(0)
    else match FindIndex(p, s[1..])
      case None => None
      case Some(k) => Some(k + 1)
  }

  /** The first element satisfying `p` (`find`, with `undefined` as `None`). */
  function Find<T>(p: T -> bool, s: seq<T>): (r: Option<T>)
    ensures r.None? <==> forall i :: 0 <= i < |s| ==> !p(s[i])
    ensures r.Some? ==> exists i :: 0 <= i < |s| && s[i] == r.value && p(s[i]) &&
                          forall j :: 0 <= j < i ==> !p(s[j])
  {
    match FindIndex(p, s)
    case None => None
    case Some(i) => Some(s[i])
  }

  /** The distinct values of `s`, each once, in order of first occurrence (`Array.from(new Set(s))`). */
  function Distinct<T(==)>(s: seq<T>): (r: seq<T>)
    ensures forall k :: 0 <= k < |r| ==> r[k] in s
    ensures forall k :: 0 <= k < |s| ==> s[k] in r
    decreases |s|
  {
    if |s| == 0 then []
    else
      var r := Distinct(s[..|s| - 1]);
      if s[|s| - 1] in r then r else r + [s[|s| - 1]]
  }

  /** The index of the first occurrence of `x` in `s`. */
  function FirstIndex<T(==)>(s: seq<T>, x: T): (i: nat)
    requires x in s
    ensures i < |s| && s[i] == x && forall j :: 0 <= j < i ==> s[j] != x
  {
    if s[0] == x then 0 else 1 + FirstIndex(s[1..], x)
  }

  lemma {:induction false} FirstIndexPrefix<T>(s: seq<T>, n: nat, x: T)
    requires n <= |s| && x in s[..n]
    ensures x in s && FirstIndex(s, x) == FirstIndex(s[..n], x)
  {
    var k := FirstIndex(s[..n], x);
    assert s[k] == x;
    var i := FirstIndex(s, x);
    assert i <= k;
    assert s[..n][i] == x;
  }

  /** `Distinct` lists no value twice, and lists the values in order of first occurrence. */
  lemma {:induction false} DistinctOrder<T>(s: seq<T>)
    ensures NoDup(Distinct(s))
    ensures forall i, j :: 0 <= i < j < |Distinct(s)| ==>
              FirstIndex(s, Distinct(s)[i]) < FirstIndex(s, Distinct(s)[j])
    decreases |s|
  {
    if |s| > 0 {
      var pre := s[..|s| - 1];
      var r := Distinct(pre);
      var last := s[|s| - 1];
      DistinctOrder(pre);
      forall x | x in r ensures FirstIndex(s, x) == FirstIndex(pre, x) && FirstIndex(s, x) < |s| - 1 {
        FirstIndexPrefix(s, |s| - 1, x);
      }
      if last !in r {
        assert last !in pre;
        assert FirstIndex(s, last) == |s| - 1;
      }
    }
  }

  /** `a` and `b` are ordered by the comparator `le` ("a may come before b"). */
  ghost predicate SortedBy<T>(le: (T, T) -> bool, s: seq<T>) {
    forall i, j :: 0 <= i < j < |s| ==> le(s[i], s[j])
  }

  /** `le` is total and transitive: the orders a JavaScript comparator must describe. */
  ghost predicate TotalPreorder<T(!new)>(le: (T, T) -> bool) {
    && (forall x, y :: le(x, y) || le(y, x))
    && (forall x, y, z :: le(x, y) && le(y, z) ==> le(x, z))
  }

  /** Puts `x` in front of the first element it may precede. */
  function Insert<T>(le: (T, T) -> bool, x: T, s: seq<T>): (r: seq<T>)
    ensures |r| == |s| + 1 && multiset(r) == multiset(s) + multiset{x}
    decreases |s|
  {
    if |s| == 0 then [x]
    else if le(x, s[0]) then [x] + s
    else
      assert s == [s[0]] + s[1..];
      [s[0]] + Insert(le, x, s[1..])
  }

  /** The list ordered by `le`; elements the comparator ties keep their relative order. */
  function SortBy<T>(le: (T, T) -> bool, s: seq<T>): (r: seq<T>)
    ensures |r| == |s| && multiset(r) == multiset(s)
    decreases |s|
  {
    if |s| == 0 then []
    else
      assert s == [s[0]] + s[1..];
      Insert(le, s[0], SortBy(le, s[1..]))
  }

  lemma {:induction false} InsertSorted<T(!new)>(le: (T, T) -> bool, x: T, s: seq<T>)
    requires TotalPreorder(le) && SortedBy(le, s)
    ensures SortedBy(le, Insert(le, x, s))
    decreases |s|
  {
    if |s| > 0 && !le(x, s[0]) {
      var t := Insert(le, x, s[1..]);
      InsertSorted(le, x, s[1..]);
      forall k | 0 <= k < |t| ensures le(s[0], t[k]) {
        assert t[k] in multiset(t);
        assert t[k] in multiset(s[1..]) + multiset{x};
        if t[k] != x {
          assert t[k] in s[1..];
          var m :| 0 <= m < |s[1..]| && s[1..][m] == t[k];
          assert s[1 + m] == t[k];
        }
      }
    }
  }

  lemma {:induction false} SortBySorted<T(!new)>(le: (T, T) -> bool, s: seq<T>)
    requires TotalPreorder(le)
    ensures SortedBy(le, SortBy(le, s))
    decreases |s|
  {
    if |s| > 0 {
      SortBySorted(le, s[1..]);
      InsertSorted(le, s[0], SortBy(le, s[1..]));
    }
  }
}
