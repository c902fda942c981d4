/** The sort key of instruction versions: digit runs compare by value, other text by code point. */
module VersionKey {
  import opened PythonText
  import opened Ordering

  /** `(1, digits, text)` for a digit run stripped of leading zeros, `(0, 0, text)` for other text. */
  datatype Chunk = Chunk(kind: int, digits: nat, text: string)

  predicate IsDigit(c: char) { '0' <= c <= '9' }

  lemma TenDigits(c: char)
    ensures IsDigit(c) <==> c in {'0', '1', '2', '3', '4', '5', '6', '7', '8', '9'}
  {
  }

  predicate AllDigits(s: string) {
    forall i :: 0 <= i < |s| ==> IsDigit(s[i])
  }

  function StripZeros(s: string): string {
    if s != "" && s[0] == '0' then StripZeros(s[1..]) else s
  }

  function ChunkOf(part: string): Chunk {
    if part != "" && AllDigits(part) then
      var stripped := StripZeros(part);
      var normalized := if stripped == "" then "0" else stripped;
      Chunk(1, |normalized|, normalized)
    else Chunk(0, 0, part)
  }

  /** The length of the leading run of characters of one kind. */
  function RunLength(s: string): (n: nat)
    requires s != ""
    ensures 0 < n <= |s|
    ensures forall i :: 0 <= i < n ==> IsDigit(s[i]) == IsDigit(s[0])
    ensures n < |s| ==> IsDigit(s[n]) != IsDigit(s[0])
  {
    if |s| == 1 || IsDigit(s[1]) != IsDigit(s[0]) then 1 else 1 + RunLength(s[1..])
  }

  /** The maximal runs of digits and of other characters, in order. */
  function Parts(s: string): (parts: seq<string>) {
    if s == "" then [] else [s[..RunLength(s)]] + Parts(s[RunLength(s)..])
  }

  ghost predicate OneKind(part: string) {
    part != "" && forall k :: 0 <= k < |part| ==> IsDigit(part[k]) == IsDigit(part[0])
  }

  ghost predicate KindsDiffer(left: string, right: string) {
    left != "" && right != "" && IsDigit(left[0]) != IsDigit(right[0])
  }

  /** Splitting loses nothing: the parts are maximal runs of one kind. */
  lemma {:induction false} PartsSplit(s: string)
    ensures Concat(Parts(s)) == s
    ensures s != "" ==> Parts(s) != [] && Parts(s)[0] != "" && Parts(s)[0][0] == s[0]
    ensures forall part :: part in Parts(s) ==> OneKind(part)
    ensures forall i :: 0 < i < |Parts(s)| ==> KindsDiffer(Parts(s)[i - 1], Parts(s)[i])
    decreases |s|
  {
    if s != "" {
      var n := RunLength(s);
      PartsSplit(s[n..]);
      assert s == s[..n] + s[n..];
      assert OneKind(s[..n]);
    }
  }

  function Key(version: string): seq<Chunk> {
    var parts := Parts(Lower(version));
    seq(|parts|, i requires 0 <= i < |parts| => ChunkOf(parts[i]))
  }

  /** The loop over the split version, appending one chunk per nonempty part. */
  method VersionSortKey(version: string) returns (chunks: seq<Chunk>)
    ensures chunks == Key(version)
  {
    chunks := [];
    var rest := Lower(version);
    while rest != ""
      invariant |chunks| + |Parts(rest)| == |Key(version)|
      invariant chunks == Key(version)[..|chunks|]
      invariant Parts(rest) == Parts(Lower(version))[|chunks|..]
      decreases |rest|
    {
      var n := RunLength(rest);
      assert Parts(rest)[0] == rest[..n] && Parts(rest)[1..] == Parts(rest[n..]);
      chunks := chunks + [ChunkOf(rest[..n])];
      rest := rest[n..];
    }
  }

  // ------------------------------------------------------------ numeric meaning

  function DigitValue(c: char): (d: nat)
    requires IsDigit(c)
    ensures d < 10
  {
    c as int - '0' as int
  }

  /** The number a digit run denotes. */
  function Value(s: string): nat
    requires AllDigits(s)
  {
    if s == "" then 0 else Value(s[..|s| - 1]) * 10 + DigitValue(s[|s| - 1])
  }

  function Pow10(n: nat): (p: nat)
    ensures p > 0
  {
    if n == 0 then 1 else 10 * Pow10(n - 1)
  }

  lemma {:induction false} ValueFromFront(s: string)
    requires AllDigits(s) && s != ""
    ensures Value(s) == DigitValue(s[0]) * Pow10(|s| - 1) + Value(s[1..])
    ensures Value(s) < Pow10(|s|)
  {
    if |s| == 1 {
      assert s[..0] == "" && s[1..] == "";
    } else {
      var init, d := s[..|s| - 1], DigitValue(s[|s| - 1]);
      ValueFromFront(init);
      assert s[1..][..|s| - 2] == init[1..];
      ScaleByTen(DigitValue(s[0]), Pow10(|s| - 2), Value(init[1..]), d);
    }
  }

  lemma ScaleByTen(lead: nat, p: nat, tail: nat, d: nat)
    ensures (lead * p + tail) * 10 + d == lead * (10 * p) + (tail * 10 + d)
  {
  }

  lemma {:induction false} StripZerosKeepsValue(s: string)
    requires AllDigits(s)
    ensures AllDigits(StripZeros(s)) && Value(StripZeros(s)) == Value(s)
    ensures StripZeros(s) != "" ==> StripZeros(s)[0] != '0'
  {
    if s != "" && s[0] == '0' {
      StripZerosKeepsValue(s[1..]);
      ValueFromFront(s);
    }
  }

  lemma {:induction false} EqualLengthDigits(a: string, b: string)
    requires AllDigits(a) && AllDigits(b) && |a| == |b|
    ensures TextLeq(a, b) <==> Value(a) <= Value(b)
    ensures Value(a) == Value(b) ==> a == b
  {
    if a != "" {
      EqualLengthDigits(a[1..], b[1..]);
      ValueFromFront(a);
      ValueFromFront(b);
      assert a == [a[0]] + a[1..] && b == [b[0]] + b[1..];
      BoundedTail(a[1..]);
      BoundedTail(b[1..]);
      LeadingDigitDecides(DigitValue(a[0]), DigitValue(b[0]), Pow10(|a| - 1), Value(a[1..]), Value(b[1..]));
    }
  }

  lemma BoundedTail(s: string)
    requires AllDigits(s)
    ensures Value(s) < Pow10(|s|)
  {
    if s != "" { ValueFromFront(s); }
  }

  lemma LeadingDigitDecides(d: nat, e: nat, p: nat, x: nat, y: nat)
    requires x < p && y < p
    ensures d < e ==> d * p + x < e * p + y
    ensures e < d ==> e * p + y < d * p + x
  {
    if d < e {
      assert (d + 1) * p <= e * p;
    } else if e < d {
      assert (e + 1) * p <= d * p;
    }
  }

  predicate ChunkLeq(a: Chunk, b: Chunk) {
    a.kind < b.kind || (a.kind == b.kind && (a.digits < b.digits || (a.digits == b.digits && TextLeq(a.text, b.text))))
  }

  lemma {:induction false} PowersGrow(m: nat, n: nat)
    requires m <= n
    ensures Pow10(m) <= Pow10(n)
  {
    if m < n { PowersGrow(m, n - 1); }
  }

  /** Digit runs of any length compare by their numeric value, whatever their leading zeros. */
  lemma DigitRunsCompareByValue(a: string, b: string)
    requires a != "" && b != "" && AllDigits(a) && AllDigits(b)
    ensures ChunkLeq(ChunkOf(a), ChunkOf(b)) <==> Value(a) <= Value(b)
    ensures ChunkOf(a) == ChunkOf(b) <==> Value(a) == Value(b)
  {
    var na, nb := ChunkOf(a).text, ChunkOf(b).text;
    StripZerosKeepsValue(a);
    StripZerosKeepsValue(b);
    assert AllDigits(na) && AllDigits(nb) && Value(na) == Value(a) && Value(nb) == Value(b) by {
      assert Value("0") == 0 by { assert "0"[..0] == ""; }
    }
    if |na| == |nb| {
      EqualLengthDigits(na, nb);
    } else if |na| < |nb| {
      ShorterIsSmaller(na, nb);
    } else {
      ShorterIsSmaller(nb, na);
    }
  }

  lemma ShorterIsSmaller(a: string, b: string)
    requires AllDigits(a) && AllDigits(b) && 0 < |a| < |b| && b[0] != '0'
    ensures Value(a) < Value(b)
  {
    hide Value, Pow10;
    BoundedTail(a);
    PowersGrow(|a|, |b| - 1);
    ValueFromFront(b);
    AtLeastOnce(DigitValue(b[0]), Pow10(|b| - 1));
  }

  lemma AtLeastOnce(d: nat, p: nat)
    requires d >= 1
    ensures d * p >= p
  {
  }

  // ---------------------------------------------------------------- key order

  /** Tuple comparison: the first difference decides, a prefix comes first. */
  predicate KeyLeq(a: seq<Chunk>, b: seq<Chunk>) {
    a == [] || (b != [] && (if a[0] == b[0] then KeyLeq(a[1..], b[1..]) else ChunkLeq(a[0], b[0])))
  }

  lemma ChunkOrder(a: Chunk, b: Chunk, c: Chunk)
    ensures ChunkLeq(a, b) || ChunkLeq(b, a)
    ensures ChunkLeq(a, b) && ChunkLeq(b, a) <==> a == b
    ensures ChunkLeq(a, b) && ChunkLeq(b, c) ==> ChunkLeq(a, c)
  {
    TextLeqTotal(a.text, b.text);
    if TextLeq(a.text, b.text) && TextLeq(b.text, c.text) { TextLeqTransitive(a.text, b.text, c.text); }
  }

  /** A beginning of the other key, or smaller where they first differ. */
  lemma {:induction false} KeyLeqIff(a: seq<Chunk>, b: seq<Chunk>)
    ensures KeyLeq(a, b) <==> a <= b || exists k: nat :: DiffersAt(a, b, k) && ChunkLeq(a[k], b[k])
  {
    if a != [] && b != [] {
      var x, y := a[1..], b[1..];
      KeyLeqIff(x, y);
      assert a == [a[0]] + x && b == [b[0]] + y;
      assert a <= b <==> a[0] == b[0] && x <= y;
      if a[0] == b[0] {
        DiffersLater(a, b);
        if k: nat :| DiffersAt(x, y, k) && ChunkLeq(x[k], y[k]) { assert DiffersAt(a, b, k + 1); }
        if k: nat :| DiffersAt(a, b, k) && ChunkLeq(a[k], b[k]) { assert DiffersAt(x, y, k - 1); }
      } else {
        assert DiffersAt(a, b, 0);
      }
    }
  }

  /** Other text compares by code point, and comes before digits. */
  lemma TextComesFirst(a: string, b: string)
    requires b != "" && !AllDigits(b)
    ensures a != "" && AllDigits(a) ==> !ChunkLeq(ChunkOf(a), ChunkOf(b)) && ChunkLeq(ChunkOf(b), ChunkOf(a))
    ensures a != "" && !AllDigits(a) ==> (ChunkLeq(ChunkOf(a), ChunkOf(b)) <==> TextLeq(a, b))
    ensures !AllDigits(a) ==> (ChunkOf(a) == ChunkOf(b) <==> a == b)
  {
  }

  /** Two parts of versions that the comparison does not tell apart. */
  ghost predicate SamePart(p: string, q: string) {
    p == q || (p != "" && q != "" && AllDigits(p) && AllDigits(q) && Value(p) == Value(q))
  }

  /** Versions have one key iff their parts, letters folded, agree up to the leading zeros of digit runs. */
  lemma EqualKeys(v: string, w: string)
    ensures var p, q := Parts(Lower(v)), Parts(Lower(w));
            Key(v) == Key(w) <==> |p| == |q| && forall i :: 0 <= i < |p| ==> SamePart(p[i], q[i])
  {
    hide ChunkOf, Value, StripZeros, Parts, SamePart;
    var p, q := Parts(Lower(v)), Parts(Lower(w));
    if |p| == |q| {
      PartsSplit(Lower(v));
      PartsSplit(Lower(w));
      forall i | 0 <= i < |p| ensures Key(v)[i] == Key(w)[i] <==> SamePart(p[i], q[i]) {
        assert OneKind(p[i]) && OneKind(q[i]);
        SameChunk(p[i], q[i]);
      }
    }
  }

  lemma SameChunk(p: string, q: string)
    requires p != "" && q != ""
    ensures ChunkOf(p) == ChunkOf(q) <==> SamePart(p, q)
  {
    if AllDigits(p) && AllDigits(q) {
      DigitRunsCompareByValue(p, q);
    } else if !AllDigits(q) {
      TextComesFirst(p, q);
    } else {
      TextComesFirst(q, p);
    }
  }

  lemma {:induction false} KeyLeqTotal(a: seq<Chunk>, b: seq<Chunk>)
    ensures KeyLeq(a, b) || KeyLeq(b, a)
    ensures KeyLeq(a, b) && KeyLeq(b, a) <==> a == b
  {
    if a != [] && b != [] {
      ChunkOrder(a[0], b[0], b[0]);
      KeyLeqTotal(a[1..], b[1..]);
      assert a == [a[0]] + a[1..] && b == [b[0]] + b[1..];
    } else if a == b {
    }
  }

  lemma {:induction false} KeyLeqTransitive(a: seq<Chunk>, b: seq<Chunk>, c: seq<Chunk>)
    requires KeyLeq(a, b) && KeyLeq(b, c)
    ensures KeyLeq(a, c)
  {
    if a != [] {
      ChunkOrder(a[0], b[0], c[0]);
      ChunkOrder(b[0], c[0], a[0]);
      if a[0] == b[0] == c[0] {
        KeyLeqTransitive(a[1..], b[1..], c[1..]);
      }
    }
  }
}
