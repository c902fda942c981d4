/** Lexicographic order on sequences of integers and stable sorting by a total preorder. */
module Ordering {
  import opened PythonSequences

  // ------------------------------------------------------------ lexicographic

  /** Python's `<=` on strings: code point by code point, a prefix before its extensions. */
  predicate TextLeq(a: string, b: string) {
    a == "" || (b != "" && (a[0] < b[0] || (a[0] == b[0] && TextLeq(a[1..], b[1..]))))
  }

  lemma {:induction false} TextLeqTotal(a: string, b: string)
    ensures TextLeq(a, b) || TextLeq(b, a)
    ensures TextLeq(a, b) && TextLeq(b, a) ==> a == b
    ensures a == b ==> TextLeq(a, b)
  {
    if a != "" && b != "" {
      TextLeqTotal(a[1..], b[1..]);
      assert a == [a[0]] + a[1..] && b == [b[0]] + b[1..];
    }
  }

  /** A beginning of the other text, or smaller where they first differ. */
  lemma {:induction false} TextLeqIff(a: string, b: string)
    ensures TextLeq(a, b) <==> a <= b || exists k: nat :: DiffersAt(a, b, k) && a[k] < b[k]
  {
    if a != "" && b != "" {
      var x, y := a[1..], b[1..];
      TextLeqIff(x, y);
      assert a == [a[0]] + x && b == [b[0]] + y;
      assert a <= b <==> a[0] == b[0] && x <= y;
      if a[0] == b[0] {
        DiffersLater(a, b);
        if k: nat :| DiffersAt(x, y, k) && x[k] < y[k] { assert DiffersAt(a, b, k + 1); }
        if k: nat :| DiffersAt(a, b, k) && a[k] < b[k] { assert DiffersAt(x, y, k - 1); }
      } else {
        assert DiffersAt(a, b, 0);
      }
    }
  }

  ghost predicate DiffersAt<T>(a: seq<T>, b: seq<T>, k: nat) {
    k < |a| && k < |b| && a[..k] == b[..k] && a[k] != b[k]
  }

  /** Behind a common first element nothing changes. */
  lemma DiffersLater<T>(a: seq<T>, b: seq<T>)
    requires a != [] && b != [] && a[0] == b[0]
    ensures forall k: nat :: DiffersAt(a, b, k) ==> k > 0 && DiffersAt(a[1..], b[1..], k - 1)
    ensures forall k: nat :: DiffersAt(a[1..], b[1..], k) ==> DiffersAt(a, b, k + 1)
  {
    var x, y := a[1..], b[1..];
    forall k: nat | DiffersAt(a, b, k) ensures k > 0 && DiffersAt(x, y, k - 1) {
      if k > 0 { assert x[..k - 1] == a[..k][1..] && y[..k - 1] == b[..k][1..]; }
    }
    forall k: nat | DiffersAt(x, y, k) ensures DiffersAt(a, b, k + 1) {
      assert a[..k + 1] == [a[0]] + x[..k] && b[..k + 1] == [b[0]] + y[..k];
    }
  }

  lemma {:induction false} TextLeqTransitive(a: string, b: string, c: string)
    requires TextLeq(a, b) && TextLeq(b, c)
    ensures TextLeq(a, c)
  {
    if a != "" && a[0] == b[0] == c[0] {
      TextLeqTransitive(a[1..], b[1..], c[1..]);
    }
  }

  // ------------------------------------------------------------------ sorting

  ghost predicate TotalPreorder<T(!new)>(leq: (T, T) -> bool) {
    && (forall x, y :: leq(x, y) || leq(y, x))
    && (forall x, y, z :: leq(x, y) && leq(y, z) ==> leq(x, z))
  }

  ghost predicate IsSorted<T>(leq: (T, T) -> bool, s: seq<T>) {
    forall i, j :: 0 <= i < j < |s| ==> leq(s[i], s[j])
  }

  /** Insert after every element that may stay in front. */
  function Insert<T>(leq: (T, T) -> bool, s: seq<T>, x: T): seq<T>
  {
    if s == [] || leq(s[|s| - 1], x) then s + [x] else Insert(leq, s[..|s| - 1], x) + [s[|s| - 1]]
  }

  /** Python's `sorted`: stable, smallest first. */
  function Sort<T>(leq: (T, T) -> bool, s: seq<T>): seq<T> {
    if s == [] then [] else Insert(leq, Sort(leq, s[..|s| - 1]), s[|s| - 1])
  }

  /** Where `Insert` puts the newcomer: after exactly the elements that may precede it. */
  lemma {:induction false} InsertSplits<T>(leq: (T, T) -> bool, s: seq<T>, x: T) returns (at: nat)
    ensures at <= |s| && Insert(leq, s, x) == s[..at] + [x] + s[at..]
    ensures forall i :: at <= i < |s| ==> !leq(s[i], x)
    ensures at > 0 ==> leq(s[at - 1], x)
  {
    if s == [] || leq(s[|s| - 1], x) {
      at := |s|;
      assert s[..at] + [x] + s[at..] == s + [x];
    } else {
      at := InsertSplits(leq, s[..|s| - 1], x);
      SplitGrows(s, x, at);
    }
  }

  lemma SplitGrows<T>(s: seq<T>, x: T, at: nat)
    requires at < |s|
    ensures var init := s[..|s| - 1]; init[..at] + [x] + init[at..] + [s[|s| - 1]] == s[..at] + [x] + s[at..]
  {
  }

  lemma InsertKeepsElements<T>(leq: (T, T) -> bool, s: seq<T>, x: T)
    ensures multiset(Insert(leq, s, x)) == multiset(s) + multiset{x}
  {
    hide Insert;
    var at := InsertSplits(leq, s, x);
    assert s == s[..at] + s[at..];
    calc {
      multiset(s[..at] + [x] + s[at..]);
      multiset(s[..at]) + multiset{x} + multiset(s[at..]);
      multiset(s[..at] + s[at..]) + multiset{x};
    }
  }

  lemma {:induction false} SortKeepsElements<T>(leq: (T, T) -> bool, s: seq<T>)
    ensures multiset(Sort(leq, s)) == multiset(s)
  {
    if s != [] {
      SortKeepsElements(leq, s[..|s| - 1]);
      InsertKeepsElements(leq, Sort(leq, s[..|s| - 1]), s[|s| - 1]);
      assert s == s[..|s| - 1] + [s[|s| - 1]];
    }
  }

  lemma {:induction false} InsertKeepsSorted<T(!new)>(leq: (T, T) -> bool, s: seq<T>, x: T)
    requires TotalPreorder(leq) && IsSorted(leq, s)
    ensures IsSorted(leq, Insert(leq, s, x))
  {
    if s != [] && !leq(s[|s| - 1], x) {
      var init, last := s[..|s| - 1], s[|s| - 1];
      InsertKeepsSorted(leq, init, x);
      InsertKeepsElements(leq, init, x);
      var front := Insert(leq, init, x);
      forall i | 0 <= i < |front| ensures leq(front[i], last) {
        assert front[i] in multiset(front);
        assert front[i] in init || front[i] == x;
      }
    } else if s != [] {
      forall i | 0 <= i < |s| ensures leq(s[i], x) {
        assert i < |s| - 1 ==> leq(s[i], s[|s| - 1]);
      }
    }
  }

  lemma {:induction false} SortIsSorted<T(!new)>(leq: (T, T) -> bool, s: seq<T>)
    requires TotalPreorder(leq)
    ensures IsSorted(leq, Sort(leq, s))
  {
    if s != [] {
      SortIsSorted(leq, s[..|s| - 1]);
      InsertKeepsSorted(leq, Sort(leq, s[..|s| - 1]), s[|s| - 1]);
    }
  }

  lemma {:induction false} SortedIsFixed<T>(leq: (T, T) -> bool, s: seq<T>)
    requires IsSorted(leq, s)
    ensures Sort(leq, s) == s
  {
    if s != [] {
      SortedIsFixed(leq, s[..|s| - 1]);
      assert s == s[..|s| - 1] + [s[|s| - 1]];
      if |s| > 1 { assert leq(s[|s| - 2], s[|s| - 1]); }
    }
  }

  lemma LastIsGreatest<T>(leq: (T, T) -> bool, s: seq<T>, x: T)
    requires IsSorted(leq, s) && x in multiset(s)
    ensures s != [] && (x == s[|s| - 1] || leq(x, s[|s| - 1]))
  {
    var i :| 0 <= i < |s| && s[i] == x;
  }

  lemma WithoutLast<T>(s: seq<T>)
    requires s != []
    ensures multiset(s[..|s| - 1]) == multiset(s) - multiset{s[|s| - 1]}
    ensures s[|s| - 1] in multiset(s)
  {
    assert s == s[..|s| - 1] + [s[|s| - 1]];
  }

  /** No two different elements of the sequence tie. */
  ghost predicate TieFree<T>(leq: (T, T) -> bool, s: seq<T>) {
    forall x, y :: x in s && y in s && leq(x, y) && leq(y, x) ==> x == y
  }

  lemma PrefixKeeps<T>(leq: (T, T) -> bool, s: seq<T>)
    requires s != [] && IsSorted(leq, s)
    ensures IsSorted(leq, s[..|s| - 1]) && (TieFree(leq, s) ==> TieFree(leq, s[..|s| - 1]))
  {
  }

  lemma LastsAgree<T>(leq: (T, T) -> bool, a: seq<T>, b: seq<T>)
    requires a != [] && multiset(a) == multiset(b)
    requires IsSorted(leq, a) && IsSorted(leq, b) && TieFree(leq, a)
    ensures b != [] && a[|a| - 1] == b[|b| - 1]
  {
    assert a[|a| - 1] in multiset(a);
    LastIsGreatest(leq, b, a[|a| - 1]);
    assert b[|b| - 1] in multiset(b);
    LastIsGreatest(leq, a, b[|b| - 1]);
  }

  /** When no two different elements tie, sorting forgets the order of its input. */
  lemma {:induction false} SortedIsCanonical<T(!new)>(leq: (T, T) -> bool, a: seq<T>, b: seq<T>)
    requires multiset(a) == multiset(b)
    requires IsSorted(leq, a) && IsSorted(leq, b) && TieFree(leq, a)
    ensures a == b
  {
    hide IsSorted, TieFree;
    if a == [] {
      if b != [] { WithoutLast(b); }
    } else {
      LastsAgree(leq, a, b);
      WithoutLast(a);
      WithoutLast(b);
      PrefixKeeps(leq, a);
      PrefixKeeps(leq, b);
      SortedIsCanonical(leq, a[..|a| - 1], b[..|b| - 1]);
      assert a == a[..|a| - 1] + [a[|a| - 1]] && b == b[..|b| - 1] + [b[|b| - 1]];
    }
  }

  lemma SortForgetsOrder<T(!new)>(leq: (T, T) -> bool, a: seq<T>, b: seq<T>)
    requires TotalPreorder(leq) && multiset(a) == multiset(b)
    requires TieFree(leq, a)
    ensures Sort(leq, a) == Sort(leq, b)
  {
    SortIsSorted(leq, a);
    SortIsSorted(leq, b);
    SortKeepsElements(leq, a);
    SortKeepsElements(leq, b);
    forall x | x in Sort(leq, a) ensures x in a {
      assert x in multiset(Sort(leq, a));
    }
    SortedIsCanonical(leq, Sort(leq, a), Sort(leq, b));
  }

  // -------------------------------------------------- sequences without repeats

  lemma {:induction false} DistinctCount<T>(s: seq<T>, x: T)
    requires Distinct(s)
    ensures multiset(s)[x] == if x in s then 1 else 0
  {
    if s != [] {
      DistinctCount(s[..|s| - 1], x);
      assert s == s[..|s| - 1] + [s[|s| - 1]];
    }
  }

  lemma DistinctSameElements<T>(a: seq<T>, b: seq<T>)
    requires Distinct(a) && Distinct(b)
    requires forall x :: x in a <==> x in b
    ensures multiset(a) == multiset(b)
  {
    forall x ensures multiset(a)[x] == multiset(b)[x] {
      DistinctCount(a, x);
      DistinctCount(b, x);
    }
  }

  lemma PermutationKeepsDistinct<T>(a: seq<T>, b: seq<T>)
    requires multiset(a) == multiset(b) && Distinct(a)
    ensures Distinct(b)
  {
    forall i, j | 0 <= i < j < |b| ensures b[i] != b[j] {
      if b[i] == b[j] {
        assert b == b[..i] + [b[i]] + b[i + 1..j] + [b[j]] + b[j + 1..];
        assert multiset(b)[b[i]] >= 2;
        DistinctCount(a, b[i]);
      }
    }
  }

  lemma SortMembers<T>(leq: (T, T) -> bool, s: seq<T>)
    ensures |Sort(leq, s)| == |s|
    ensures forall x :: x in Sort(leq, s) <==> x in s
    ensures Distinct(s) ==> Distinct(Sort(leq, s))
  {
    SortKeepsElements(leq, s);
    var t := Sort(leq, s);
    assert |multiset(t)| == |multiset(s)|;
    forall x ensures x in t <==> x in s {
      assert x in t <==> x in multiset(t);
      assert x in s <==> x in multiset(s);
    }
    if Distinct(s) { PermutationKeepsDistinct(s, t); }
  }
}
