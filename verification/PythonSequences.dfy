/** Tuples and sets as the engines build them: deduplicated, filtered, counted. */
module PythonSequences {

  /** No element occurs twice. */
  ghost predicate Distinct<T>(s: seq<T>) {
    forall i, j :: 0 <= i < j < |s| ==> s[i] != s[j]
  }

  /** Appending keeps a sequence free of repeats exactly when the element is new. */
  lemma AppendKeepsDistinctIff<T>(s: seq<T>, x: T)
    ensures Distinct(s + [x]) <==> Distinct(s) && x !in s
  {
    var t := s + [x];
    if Distinct(t) {
      assert t[|s|] == x;
      forall i | 0 <= i < |s| ensures s[i] != x {
        assert t[i] == s[i];
      }
      forall i, j | 0 <= i < j < |s| ensures s[i] != s[j] {
        assert t[i] == s[i] && t[j] == s[j];
      }
    }
  }

  /** `tuple(dict.fromkeys(s))`: each element where it first occurs. */
  function FirstOccurrences<T(==)>(s: seq<T>): seq<T> {
    if s == [] then []
    else
      var init, last := FirstOccurrences(s[..|s| - 1]), s[|s| - 1];
      if last in init then init else init + [last]
  }

  lemma {:induction false} FirstOccurrencesMeaning<T>(s: seq<T>)
    ensures forall x :: x in FirstOccurrences(s) <==> x in s
    ensures Distinct(FirstOccurrences(s))
  {
    if s != [] {
      FirstOccurrencesMeaning(s[..|s| - 1]);
      assert s == s[..|s| - 1] + [s[|s| - 1]];
    }
  }

  /** The members of `s` that are in `wanted`, in order. */
  function Keep<T(==)>(s: seq<T>, wanted: set<T>): seq<T> {
    if s == [] then [] else Keep(s[..|s| - 1], wanted) + if s[|s| - 1] in wanted then [s[|s| - 1]] else []
  }

  lemma {:induction false} KeepMeaning<T>(s: seq<T>, wanted: set<T>)
    ensures forall x :: x in Keep(s, wanted) <==> x in s && x in wanted
    ensures |Keep(s, wanted)| <= |s|
    ensures |Keep(s, wanted)| == |s| <==> forall x :: x in s ==> x in wanted
  {
    if s != [] {
      KeepMeaning(s[..|s| - 1], wanted);
      assert s == s[..|s| - 1] + [s[|s| - 1]];
    }
  }

  /** Extending a tuple without repeats keeps it as a prefix. */
  lemma {:induction false} FirstOccurrencesExtends<T>(a: seq<T>, b: seq<T>)
    requires FirstOccurrences(a) == a
    ensures a <= FirstOccurrences(a + b)
  {
    if b == [] {
      assert a + b == a;
    } else {
      FirstOccurrencesExtends(a, b[..|b| - 1]);
      assert (a + b)[..|a + b| - 1] == a + b[..|b| - 1];
    }
  }

  lemma {:induction false} FirstOccurrencesIsIdempotent<T>(s: seq<T>)
    ensures FirstOccurrences(FirstOccurrences(s)) == FirstOccurrences(s)
  {
    if s != [] {
      var init, last := s[..|s| - 1], s[|s| - 1];
      FirstOccurrencesIsIdempotent(init);
      var f := FirstOccurrences(init);
      if last !in f {
        assert (f + [last])[..|f + [last]| - 1] == f;
      }
    }
  }

  lemma NoMembers<T>(s: seq<T>)
    ensures s == [] <==> forall x :: x !in s
  {
    if s != [] { assert s[0] in s; }
  }

  /** A subset has no more elements. */
  lemma {:induction false} SubsetCount<T>(small: set<T>, large: set<T>)
    requires small <= large
    ensures |small| <= |large|
    decreases small
  {
    if x :| x in small {
      SubsetCount(small - {x}, large - {x});
    }
  }
}
