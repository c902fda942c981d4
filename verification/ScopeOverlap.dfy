/**
 * Scope patterns: how the coordinator decides that two scopes overlap, and what
 * the patterns mean when a changed path is matched against them.
 */
module ScopeOverlap {
  import opened PythonText

  // ------------------------------------------------------------ string tools

  function DropWhile(f: char -> bool, s: string): string {
    if s != "" && f(s[0]) then DropWhile(f, s[1..]) else s
  }

  function DropWhileEnd(f: char -> bool, s: string): string {
    if s != "" && f(s[|s| - 1]) then DropWhileEnd(f, s[..|s| - 1]) else s
  }

  predicate IsDotOrSlash(c: char) { c == '.' || c == '/' }

  predicate IsSlash(c: char) { c == '/' }

  predicate IsWildcard(c: char) { c == '*' || c == '?' || c == '[' }

  function ForwardSlashes(s: string): (r: string)
    ensures |r| == |s|
  {
    seq(|s|, i requires 0 <= i < |s| => if s[i] == '\\' then '/' else s[i])
  }

  predicate StartsWith(s: string, prefix: string) { |prefix| <= |s| && s[..|prefix|] == prefix }

  // ----------------------------------------------------- the coordinator's test

  function Normalized(pattern: string): string {
    DropWhile(IsDotOrSlash, DropWhileEnd(IsSpace, DropWhile(IsSpace, ForwardSlashes(pattern))))
  }

  /** The index of the first wildcard, or the length when there is none. */
  function FirstWildcard(s: string): (k: nat)
    ensures k <= |s| && (k < |s| ==> IsWildcard(s[k]))
    ensures forall i :: 0 <= i < k ==> !IsWildcard(s[i])
  {
    if s == "" || IsWildcard(s[0]) then 0 else 1 + FirstWildcard(s[1..])
  }

  function StaticPrefix(pattern: string): string {
    var normalized := Normalized(pattern);
    DropWhileEnd(IsSlash, normalized[..FirstWildcard(normalized)])
  }

  predicate PrefixOverlaps(left: string, right: string) {
    left == "" || right == "" || left == right || StartsWith(left, right + "/") || StartsWith(right, left + "/")
  }

  predicate ScopesOverlap(left: seq<string>, right: seq<string>) {
    exists a, b :: a in left && b in right && PrefixOverlaps(StaticPrefix(a), StaticPrefix(b))
  }

  /** The path is the prefix itself or lies in the directory it names; every path lies below the empty prefix. */
  ghost predicate Below(prefix: string, path: string) {
    prefix == "" || path == prefix || exists rest :: path == prefix + "/" + rest
  }

  ghost predicate BelowBoth(left: string, right: string, path: string) { Below(left, path) && Below(right, path) }

  /** Scopes overlap exactly when static prefixes of two of their patterns have a path below both. */
  lemma OverlapIff(left: seq<string>, right: seq<string>)
    ensures ScopesOverlap(left, right) <==>
              exists a, b, path :: a in left && b in right && BelowBoth(StaticPrefix(a), StaticPrefix(b), path)
  {
    forall a, b
      ensures PrefixOverlaps(StaticPrefix(a), StaticPrefix(b)) <==>
                exists path :: BelowBoth(StaticPrefix(a), StaticPrefix(b), path)
    {
      PrefixOverlapsIff(StaticPrefix(a), StaticPrefix(b));
    }
    hide PrefixOverlaps, StaticPrefix, BelowBoth;
  }

  lemma PrefixOverlapsIff(left: string, right: string)
    ensures PrefixOverlaps(left, right) <==> exists path :: BelowBoth(left, right, path)
  {
    if PrefixOverlaps(left, right) {
      var longer := if |left| >= |right| then left else right;
      BelowStart(left, longer);
      BelowStart(right, longer);
      assert BelowBoth(left, right, longer);
    }
    if path :| BelowBoth(left, right, path) {
      if left != "" && right != "" {
        if |left| <= |right| { NestedPrefixes(left, right, path); } else { NestedPrefixes(right, left, path); }
      }
    }
  }

  lemma BelowStart(prefix: string, path: string)
    ensures StartsWith(path, prefix + "/") ==> Below(prefix, path)
  {
    if StartsWith(path, prefix + "/") { assert path == prefix + "/" + path[|prefix| + 1..]; }
  }

  lemma NestedPrefixes(short: string, long: string, path: string)
    requires short != "" && long != "" && |short| <= |long| && Below(short, path) && Below(long, path)
    ensures short == long || StartsWith(long, short + "/")
  {
    assert path[..|short|] == short && path[..|long|] == long;
    if |short| < |long| {
      assert path[|short|] == '/';
      assert long[..|short| + 1] == path[..|short| + 1] == short + "/";
    }
  }

  lemma OverlapIsSymmetric(left: seq<string>, right: seq<string>)
    ensures ScopesOverlap(left, right) <==> ScopesOverlap(right, left)
  {
  }

  // -------------------------------------------------------- what patterns mean

  /** How a bracket class reads its contents; `fnmatch` fixes one such reading. */
  type ClassReading = (string, char) -> bool

  /** After an optional `!`, a class closes at the first bracket behind its first member, which may be a bracket. */
  lemma ClassEndIff(pattern: string, end: nat)
    requires pattern != "" && pattern[0] == '['
    ensures var first := if |pattern| > 1 && pattern[1] == '!' then 2 else 1;
            ClassEnd(pattern) == end && end < |pattern| <==>
              && first < end < |pattern| && pattern[end] == ']'
              && forall k :: first < k < end ==> pattern[k] != ']'
  {
    var first := if |pattern| > 1 && pattern[1] == '!' then 2 else 1;
    BracketIsFirst(pattern, if first < |pattern| && pattern[first] == ']' then first + 1 else first);
  }

  lemma {:induction false} BracketIsFirst(pattern: string, from: nat)
    requires from <= |pattern|
    ensures var end := FindBracket(pattern, from);
            && (end < |pattern| ==> pattern[end] == ']') && forall k :: from <= k < end ==> pattern[k] != ']'
    decreases |pattern| - from
  {
    if from < |pattern| && pattern[from] != ']' { BracketIsFirst(pattern, from + 1); }
  }

  /** The closing bracket of a class opened at index 0, if there is one. */
  function ClassEnd(pattern: string): (end: nat)
    requires pattern != "" && pattern[0] == '['
    ensures 0 < end <= |pattern|
  {
    var j := if |pattern| > 1 && pattern[1] == '!' then 2 else 1;
    FindBracket(pattern, if j < |pattern| && pattern[j] == ']' then j + 1 else j)
  }

  function FindBracket(pattern: string, from: nat): (end: nat)
    requires from <= |pattern|
    ensures from <= end <= |pattern|
    decreases |pattern| - from
  {
    if from == |pattern| || pattern[from] == ']' then from else FindBracket(pattern, from + 1)
  }

  /** `fnmatchcase`: `*` any run, `?` one character, `[...]` one of a class, all else literal. */
  predicate Matches(reading: ClassReading, pattern: string, path: string)
    decreases |pattern|
  {
    if pattern == "" then path == ""
    else if pattern[0] == '*' then exists k :: 0 <= k <= |path| && Matches(reading, pattern[1..], path[k..])
    else if pattern[0] == '?' then path != "" && Matches(reading, pattern[1..], path[1..])
    else if pattern[0] == '[' && ClassEnd(pattern) < |pattern| then
      path != "" && reading(pattern[1..ClassEnd(pattern)], path[0])
      && Matches(reading, pattern[ClassEnd(pattern) + 1..], path[1..])
    else path != "" && path[0] == pattern[0] && Matches(reading, pattern[1..], path[1..])
  }

  // ---------------------------------------- the same, piece by piece of the path

  datatype Token = AnyRun | AnyOne | OneOf(members: string) | Literal(c: char)

  ghost function Tokens(pattern: string): seq<Token>
    decreases |pattern|
  {
    if pattern == "" then []
    else if pattern[0] == '*' then [AnyRun] + Tokens(pattern[1..])
    else if pattern[0] == '?' then [AnyOne] + Tokens(pattern[1..])
    else if pattern[0] == '[' && ClassEnd(pattern) < |pattern| then
      [OneOf(pattern[1..ClassEnd(pattern)])] + Tokens(pattern[ClassEnd(pattern) + 1..])
    else [Literal(pattern[0])] + Tokens(pattern[1..])
  }

  ghost function Spelling(token: Token): string {
    match token
    case AnyRun => "*"
    case AnyOne => "?"
    case OneOf(members) => "[" + members + "]"
    case Literal(c) => [c]
  }

  ghost function Spellings(tokens: seq<Token>): seq<string> {
    if tokens == [] then [] else [Spelling(tokens[0])] + Spellings(tokens[1..])
  }

  /** The tokens are a reading of the whole pattern, and no wildcard but an unclosed bracket is read as itself. */
  lemma {:induction false} TokensSpell(pattern: string)
    ensures Concat(Spellings(Tokens(pattern))) == pattern
    ensures forall t :: t in Tokens(pattern) && t.Literal? ==> t.c != '*' && t.c != '?'
    decreases |pattern|
  {
    if pattern != "" {
      var n := TokenLength(pattern);
      TokensSpell(pattern[n..]);
      FirstToken(pattern);
      var all := Tokens(pattern);
      assert Spellings(all) == [Spelling(all[0])] + Spellings(all[1..]);
      assert pattern == pattern[..n] + pattern[n..];
    }
  }

  /** How much of the pattern the first token takes. */
  ghost function TokenLength(pattern: string): (n: nat)
    requires pattern != ""
    ensures 0 < n <= |pattern|
  {
    if pattern[0] == '[' && ClassEnd(pattern) < |pattern| then ClassEnd(pattern) + 1 else 1
  }

  lemma FirstToken(pattern: string)
    requires pattern != ""
    ensures var n, all := TokenLength(pattern), Tokens(pattern);
            && all != [] && all[1..] == Tokens(pattern[n..]) && Spelling(all[0]) == pattern[..n]
            && (all[0].Literal? ==> all[0].c != '*' && all[0].c != '?')
  {
    if pattern[0] == '[' && ClassEnd(pattern) < |pattern| {
      ClassEndIff(pattern, ClassEnd(pattern));
      assert pattern[..ClassEnd(pattern) + 1] == "[" + pattern[1..ClassEnd(pattern)] + "]";
    }
  }

  ghost predicate TokenFits(reading: ClassReading, token: Token, piece: string) {
    match token
    case AnyRun => true
    case AnyOne => |piece| == 1
    case OneOf(members) => |piece| == 1 && reading(members, piece[0])
    case Literal(c) => piece == [c]
  }

  ghost predicate IsFit(reading: ClassReading, tokens: seq<Token>, path: string, pieces: seq<string>) {
    |pieces| == |tokens| && Concat(pieces) == path && forall i :: 0 <= i < |tokens| ==>
      TokenFits(reading, tokens[i], pieces[i])
  }

  ghost predicate Fits(reading: ClassReading, tokens: seq<Token>, path: string) {
    exists pieces :: IsFit(reading, tokens, path, pieces)
  }

  ghost predicate FitsFrom(reading: ClassReading, tokens: seq<Token>, path: string, k: nat)
    requires tokens != []
  {
    k <= |path| && TokenFits(reading, tokens[0], path[..k]) && Fits(reading, tokens[1..], path[k..])
  }

  lemma FitsSplits(reading: ClassReading, tokens: seq<Token>, path: string)
    requires tokens != []
    ensures Fits(reading, tokens, path) <==> exists k: nat :: FitsFrom(reading, tokens, path, k)
  {
    hide TokenFits;
    if pieces :| IsFit(reading, tokens, path, pieces) {
      var k := |pieces[0]|;
      assert path[..k] == pieces[0] && path[k..] == Concat(pieces[1..]);
      assert IsFit(reading, tokens[1..], path[k..], pieces[1..]);
      assert FitsFrom(reading, tokens, path, k);
    }
    if k: nat :| FitsFrom(reading, tokens, path, k) {
      var rest :| IsFit(reading, tokens[1..], path[k..], rest);
      var pieces := [path[..k]] + rest;
      assert pieces[1..] == rest && path == path[..k] + path[k..];
      forall i | 0 <= i < |tokens| ensures TokenFits(reading, tokens[i], pieces[i]) {
        assert i > 0 ==> tokens[i] == tokens[1..][i - 1] && pieces[i] == rest[i - 1];
      }
      assert IsFit(reading, tokens, path, pieces);
    }
  }

  /** A pattern matches a path exactly if the path can be cut into one piece for each token that fits it. */
  lemma {:induction false} MatchesIff(reading: ClassReading, pattern: string, path: string)
    ensures Matches(reading, pattern, path) <==> Fits(reading, Tokens(pattern), path)
    decreases |pattern|
  {
    if pattern == "" {
      assert path == "" ==> IsFit(reading, [], path, []);
    } else {
      var n, tokens := TokenLength(pattern), Tokens(pattern);
      FirstToken(pattern);
      FitsSplits(reading, tokens, path);
      forall k: nat | k <= |path|
        ensures Matches(reading, pattern[n..], path[k..]) <==> Fits(reading, tokens[1..], path[k..])
      {
        MatchesIff(reading, pattern[n..], path[k..]);
      }
      MatchesFirst(reading, pattern, path);
    }
  }

  /** One step of matching, in terms of the first token. */
  lemma MatchesFirst(reading: ClassReading, pattern: string, path: string)
    requires pattern != "" && Tokens(pattern) != []
    requires forall k: nat :: k <= |path| ==>
               (Matches(reading, pattern[TokenLength(pattern)..], path[k..])
                <==> Fits(reading, Tokens(pattern)[1..], path[k..]))
    ensures Matches(reading, pattern, path) <==> exists k: nat :: FitsFrom(reading, Tokens(pattern), path, k)
  {
    hide Fits;
    var tokens := Tokens(pattern);
    if pattern[0] == '*' {
      forall k: nat ensures FitsFrom(reading, tokens, path, k) <==>
                            k <= |path| && Matches(reading, pattern[1..], path[k..]) {
      }
    } else {
      assert forall k: nat :: FitsFrom(reading, tokens, path, k) ==> k == 1;
      if path != "" {
        assert path[..1] == [path[0]];
        assert FitsFrom(reading, tokens, path, 1) <==>
          TokenFits(reading, tokens[0], [path[0]]) && Matches(reading, pattern[TokenLength(pattern)..], path[1..]);
      }
    }
  }

  /** A scope covers a path when one of its patterns, with slashes turned, matches it. */
  predicate Covers(reading: ClassReading, scope: seq<string>, path: string) {
    exists p :: p in scope && Matches(reading, ForwardSlashes(p), path)
  }

  /** The first wildcard, if any, begins a path segment. */
  predicate Aligned(pattern: string) {
    var normalized := Normalized(pattern);
    var k := FirstWildcard(normalized);
    k == |normalized| || k == 0 || normalized[k - 1] == '/'
  }

  predicate AllAligned(scope: seq<string>) {
    forall p :: p in scope ==> Aligned(p)
  }

  // ------------------------------------------------------------- dropping lemmas

  lemma {:induction false} DropWhileAppend(f: char -> bool, s: string, t: string)
    ensures DropWhile(f, s + t) == if DropWhile(f, s) != "" then DropWhile(f, s) + t else DropWhile(f, t)
  {
    if s == "" {
      assert s + t == t;
    } else if f(s[0]) {
      assert (s + t)[1..] == s[1..] + t;
      DropWhileAppend(f, s[1..], t);
    }
  }

  lemma {:induction false} DropWhileEndAppend(f: char -> bool, s: string, t: string)
    ensures DropWhileEnd(f, s + t) == if DropWhileEnd(f, t) != "" then s + DropWhileEnd(f, t) else DropWhileEnd(f, s)
  {
    if t == "" {
      assert s + t == s;
    } else if f(t[|t| - 1]) {
      assert (s + t)[..|s + t| - 1] == s + t[..|t| - 1];
      DropWhileEndAppend(f, s, t[..|t| - 1]);
    }
  }

  lemma {:induction false} FirstWildcardAppend(s: string, t: string)
    requires FirstWildcard(s) == |s|
    ensures FirstWildcard(s + t) == |s| + FirstWildcard(t)
  {
    if s == "" {
      assert s + t == t;
    } else {
      assert (s + t)[1..] == s[1..] + t;
      FirstWildcardAppend(s[1..], t);
    }
  }

  /** The leading part the coordinator discards: blanks, then dots and slashes. */
  function Lead(s: string): string {
    DropWhile(IsDotOrSlash, DropWhile(IsSpace, s))
  }

  /** Text after a kept or non-discardable beginning is untouched. */
  lemma LeadAppend(s: string, t: string)
    requires Lead(s) != "" || (t != "" && !IsSpace(t[0]) && !IsDotOrSlash(t[0]))
    ensures DropWhile(IsSpace, s + t) == DropWhile(IsSpace, s) + t
    ensures DropWhile(IsDotOrSlash, DropWhile(IsSpace, s) + t) == Lead(s) + t
  {
    DropWhileAppend(IsSpace, s, t);
    DropWhileAppend(IsDotOrSlash, DropWhile(IsSpace, s), t);
  }

  lemma {:induction false} KeepsNonWildcards(f: char -> bool, s: string)
    requires FirstWildcard(s) == |s|
    ensures FirstWildcard(DropWhile(f, s)) == |DropWhile(f, s)|
  {
    if s != "" && f(s[0]) {
      KeepsNonWildcards(f, s[1..]);
    }
  }

  /** Normalization keeps the literal beginning of a pattern, less what it discards in front. */
  lemma NormalizedWithWildcard(pattern: string, lit: string, rest: string)
    requires ForwardSlashes(pattern) == lit + rest
    requires FirstWildcard(lit) == |lit| && rest != "" && IsWildcard(rest[0])
    ensures var n := Normalized(pattern); FirstWildcard(n) == |Lead(lit)| < |n| && n[..FirstWildcard(n)] == Lead(lit)
  {
    LeadAppend(lit, rest);
    var kept := DropWhileEnd(IsSpace, rest);
    FirstCharStays(rest);
    DropWhileEndAppend(IsSpace, DropWhile(IsSpace, lit), rest);
    LeadAppend(lit, kept);
    KeepsNonWildcards(IsSpace, lit);
    KeepsNonWildcards(IsDotOrSlash, DropWhile(IsSpace, lit));
    FirstWildcardAppend(Lead(lit), kept);
  }

  lemma {:induction false} FirstCharStays(s: string)
    requires s != "" && !IsSpace(s[0])
    ensures DropWhileEnd(IsSpace, s) != "" && DropWhileEnd(IsSpace, s)[0] == s[0]
  {
    if IsSpace(s[|s| - 1]) {
      FirstCharStays(s[..|s| - 1]);
    }
  }

  // ---------------------------------------------------------------- soundness

  /** A path agrees with every pattern that matches it up to the first wildcard. */
  lemma {:induction false} MatchFixesLiteral(reading: ClassReading, pattern: string, path: string)
    requires Matches(reading, pattern, path)
    ensures StartsWith(path, pattern[..FirstWildcard(pattern)])
    ensures FirstWildcard(pattern) == |pattern| ==> path == pattern
    decreases |pattern|
  {
    if pattern != "" && !IsWildcard(pattern[0]) {
      MatchFixesLiteral(reading, pattern[1..], path[1..]);
      assert path == [pattern[0]] + path[1..];
    }
  }

  /** The literal text of a pattern that matches `path`: what remains of its beginning in the prefix. */
  ghost function Text(pattern: string): string {
    Normalized(pattern)[..FirstWildcard(Normalized(pattern))]
  }

  ghost function LiteralLength(pattern: string): nat {
    FirstWildcard(ForwardSlashes(pattern))
  }

  ghost predicate HasWildcard(pattern: string) {
    LiteralLength(pattern) < |pattern|
  }

  lemma PrefixHasNoWildcard(s: string, n: nat)
    requires n <= |s|
    ensures FirstWildcard(s[..n]) < n ==> FirstWildcard(s) <= FirstWildcard(s[..n])
  {
    var k := FirstWildcard(s[..n]);
    assert k < n ==> IsWildcard(s[..n][k]);
    assert k < n ==> s[..n][k] == s[k];
  }

  lemma {:induction false} NoWildcardLeft(s: string)
    requires FirstWildcard(s) == |s|
    ensures FirstWildcard(DropWhileEnd(IsSpace, s)) == |DropWhileEnd(IsSpace, s)|
  {
    if s != "" && IsSpace(s[|s| - 1]) {
      PrefixHasNoWildcard(s, |s| - 1);
      NoWildcardLeft(s[..|s| - 1]);
    }
  }

  lemma TextOfWildcard(pattern: string)
    requires HasWildcard(pattern)
    ensures Text(pattern) == Lead(ForwardSlashes(pattern)[..LiteralLength(pattern)])
    ensures Aligned(pattern) <==> Text(pattern) == "" || Text(pattern)[|Text(pattern)| - 1] == '/'
  {
    var raw, w := ForwardSlashes(pattern), LiteralLength(pattern);
    var lit, rest := raw[..w], raw[w..];
    assert raw == lit + rest && rest[0] == raw[w];
    PrefixHasNoWildcard(raw, w);
    NormalizedWithWildcard(pattern, lit, rest);
  }

  lemma TextOfLiteral(pattern: string)
    requires !HasWildcard(pattern)
    ensures Text(pattern) == Normalized(pattern) && Aligned(pattern)
  {
    var raw := ForwardSlashes(pattern);
    KeepsNonWildcards(IsSpace, raw);
    NoWildcardLeft(DropWhile(IsSpace, raw));
    KeepsNonWildcards(IsDotOrSlash, DropWhileEnd(IsSpace, DropWhile(IsSpace, raw)));
  }

  /** A segment-aligned text and any extension of it have overlapping prefixes. */
  lemma ExtensionOverlaps(text: string, more: string)
    requires text != "" ==> text[|text| - 1] == '/'
    ensures PrefixOverlaps(DropWhileEnd(IsSlash, text), DropWhileEnd(IsSlash, text + more))
  {
    var short, long := DropWhileEnd(IsSlash, text), DropWhileEnd(IsSlash, text + more);
    DropWhileEndAppend(IsSlash, text, more);
    if short != "" && long != short {
      SlashFollows(text);
      assert StartsWith(text, short + "/");
      assert long == text + DropWhileEnd(IsSlash, more);
      assert long[..|short| + 1] == text[..|short| + 1];
    }
  }

  lemma {:induction false} SlashFollows(text: string)
    requires text != "" && text[|text| - 1] == '/'
    ensures StartsWith(text, DropWhileEnd(IsSlash, text) + "/")
  {
    var init := text[..|text| - 1];
    if init != "" && init[|init| - 1] == '/' {
      SlashFollows(init);
    } else {
      assert text == init + "/";
    }
  }

  /** A literal beginning of the path, followed by more of it: the texts extend one another. */
  lemma LongerPatternExtends(reading: ClassReading, short: string, long: string, path: string)
    requires Matches(reading, ForwardSlashes(short), path) && Matches(reading, ForwardSlashes(long), path)
    requires HasWildcard(short) && (HasWildcard(long) ==> LiteralLength(short) <= LiteralLength(long))
    requires Aligned(short) && Text(short) != ""
    ensures exists more :: Text(long) == Text(short) + more
  {
    hide Matches, DropWhile, DropWhileEnd, Normalized;
    var lit := ForwardSlashes(short)[..LiteralLength(short)];
    MatchFixesLiteral(reading, ForwardSlashes(short), path);
    MatchFixesLiteral(reading, ForwardSlashes(long), path);
    TextOfWildcard(short);
    if HasWildcard(long) {
      TextOfWildcard(long);
      var longLit := ForwardSlashes(long)[..LiteralLength(long)];
      var more := longLit[|lit|..];
      assert longLit == path[..|longLit|] && lit == path[..|lit|] && longLit == lit + more;
      LeadAppend(lit, more);
    } else {
      TextOfLiteral(long);
      var more := path[|lit|..];
      assert path == lit + more && ForwardSlashes(long) == path;
      LiteralExtends(long, lit, more);
    }
  }

  lemma LiteralExtends(long: string, lit: string, more: string)
    requires ForwardSlashes(long) == lit + more && Lead(lit) != "" && Lead(lit)[|Lead(lit)| - 1] == '/'
    ensures Normalized(long) == Lead(lit) + DropWhileEnd(IsSpace, more)
  {
    LeadAppend(lit, more);
    DropWhileEndAppend(IsSpace, DropWhile(IsSpace, lit), more);
    EndsWithSlashStays(lit);
    LeadAppend(lit, DropWhileEnd(IsSpace, more));
  }

  /** Nothing is stripped from the end of a beginning that ends in a slash. */
  lemma EndsWithSlashStays(lit: string)
    requires Lead(lit) != "" && Lead(lit)[|Lead(lit)| - 1] == '/'
    ensures DropWhileEnd(IsSpace, DropWhile(IsSpace, lit)) == DropWhile(IsSpace, lit)
  {
    SuffixKeepsLast(IsDotOrSlash, DropWhile(IsSpace, lit));
  }

  lemma {:induction false} SuffixKeepsLast(f: char -> bool, s: string)
    requires DropWhile(f, s) != ""
    ensures s != "" && DropWhile(f, s)[|DropWhile(f, s)| - 1] == s[|s| - 1]
  {
    if f(s[0]) {
      SuffixKeepsLast(f, s[1..]);
    }
  }

  /** Segment-aligned patterns that match a common path have overlapping prefixes. */
  lemma CommonPathOverlaps(reading: ClassReading, a: string, b: string, path: string)
    requires Aligned(a) && Aligned(b)
    requires Matches(reading, ForwardSlashes(a), path) && Matches(reading, ForwardSlashes(b), path)
    ensures PrefixOverlaps(StaticPrefix(a), StaticPrefix(b))
  {
    if !HasWildcard(a) && !HasWildcard(b) {
      MatchFixesLiteral(reading, ForwardSlashes(a), path);
      MatchFixesLiteral(reading, ForwardSlashes(b), path);
    } else {
      var aIsShort := HasWildcard(a) && (HasWildcard(b) ==> LiteralLength(a) <= LiteralLength(b));
      var short, long := if aIsShort then a else b, if aIsShort then b else a;
      TextOfWildcard(short);
      if Text(short) != "" {
        LongerPatternExtends(reading, short, long, path);
        var more :| Text(long) == Text(short) + more;
        ExtensionOverlaps(Text(short), more);
      }
    }
  }

  /** The scope test is sound for segment-aligned scopes, whatever bracket classes mean. */
  lemma CommonPathMeansOverlap(reading: ClassReading, left: seq<string>, right: seq<string>, path: string)
    requires AllAligned(left) && AllAligned(right)
    requires Covers(reading, left, path) && Covers(reading, right, path)
    ensures ScopesOverlap(left, right)
  {
    var a :| a in left && Matches(reading, ForwardSlashes(a), path);
    var b :| b in right && Matches(reading, ForwardSlashes(b), path);
    CommonPathOverlaps(reading, a, b, path);
  }

  /** A plain name: no wildcard or backslash, and nothing to be stripped at its ends. */
  ghost predicate IsPlain(name: string) {
    && name != "" && (forall c :: c in name ==> !IsWildcard(c) && c != '\\')
    && !IsSpace(name[0]) && !IsDotOrSlash(name[0]) && !IsSpace(name[|name| - 1]) && !IsSlash(name[|name| - 1])
  }

  /** Dots and slashes in front of a plain name do not count. */
  lemma PlainWithLead(lead: string, name: string)
    requires IsPlain(name) && forall c :: c in lead ==> c in {'.', '/'}
    ensures StaticPrefix(lead + name) == name
  {
    var s := lead + name;
    NoWildcardIn(name);
    forall i | 0 <= i < |s| ensures s[i] != '\\' && (i < |lead| ==> s[i] in {'.', '/'}) {
      if i < |lead| {
        assert s[i] == lead[i] && lead[i] in lead;
      } else {
        assert s[i] == name[i - |lead|] && name[i - |lead|] in name;
      }
    }
    assert ForwardSlashes(s) == s && name[..|name|] == name;
    assert !IsSpace(s[0]) && s[|s| - 1] == name[|name| - 1];
    AllDropped(lead);
    DropWhileAppend(IsDotOrSlash, lead, name);
  }

  lemma {:induction false} AllDropped(lead: string)
    requires forall c :: c in lead ==> c in {'.', '/'}
    ensures DropWhile(IsDotOrSlash, lead) == ""
  {
    if lead != "" {
      assert lead[0] in lead;
      forall c | c in lead[1..] ensures c in {'.', '/'} { assert c in lead; }
      AllDropped(lead[1..]);
    }
  }

  /** The static prefix of a plain name is the name, whatever wildcards follow below it. */
  lemma PlainPrefix(name: string, rest: string)
    requires IsPlain(name) && rest != "" && IsWildcard(rest[0])
    ensures StaticPrefix(name) == name && StaticPrefix(name + "/" + rest) == name
  {
    NoWildcardIn(name);
    assert ForwardSlashes(name) == name && name[..|name|] == name;
    var lit, tail := name + "/", ForwardSlashes(rest);
    NoWildcardIn(lit);
    assert ForwardSlashes(name + "/" + rest) == lit + tail;
    assert tail[0] == rest[0];
    NormalizedWithWildcard(name + "/" + rest, lit, tail);
    assert Lead(lit) == lit;
    assert lit[..|lit| - 1] == name;
  }

  // -------------------------------------------------------------- exactness

  /** No aligned pattern that shares a path with `a` is reported disjoint from it. */
  ghost predicate SafeAgainstAligned(reading: ClassReading, a: string) {
    forall b, path :: Aligned(b) && Matches(reading, ForwardSlashes(a), path)
                      && Matches(reading, ForwardSlashes(b), path)
      ==> PrefixOverlaps(StaticPrefix(a), StaticPrefix(b))
  }

  /** Every bracket opens a class that closes. */
  predicate Closed(s: string)
    decreases |s|
  {
    s == "" || if s[0] == '[' then ClassEnd(s) < |s| && Closed(s[ClassEnd(s) + 1..]) else Closed(s[1..])
  }

  /** The path obtained by reading every wildcard and every class as the letter x. */
  ghost function Filled(s: string): string
    decreases |s|
  {
    if s == "" then ""
    else if s[0] == '[' && ClassEnd(s) < |s| then "x" + Filled(s[ClassEnd(s) + 1..])
    else [if IsWildcard(s[0]) then 'x' else s[0]] + Filled(s[1..])
  }

  lemma {:induction false} FilledMatches(reading: ClassReading, s: string)
    requires Closed(s) && ('[' in s ==> forall members :: reading(members, 'x'))
    ensures Matches(reading, s, Filled(s))
    decreases |s|
  {
    if s != "" {
      if s[0] == '[' {
        FilledMatches(reading, s[ClassEnd(s) + 1..]);
        assert Filled(s)[1..] == Filled(s[ClassEnd(s) + 1..]);
      } else {
        FilledMatches(reading, s[1..]);
        assert Filled(s)[1..] == Filled(s[1..]);
        if s[0] == '*' {
          assert Matches(reading, s[1..], Filled(s)[1..]);
        }
      }
    }
  }

  lemma {:induction false} FilledIsPlain(s: string)
    ensures forall c :: c in Filled(s) ==> !IsWildcard(c) && (c == 'x' || c in s)
    decreases |s|
  {
    if s != "" {
      if s[0] == '[' && ClassEnd(s) < |s| {
        FilledIsPlain(s[ClassEnd(s) + 1..]);
      } else {
        FilledIsPlain(s[1..]);
      }
    }
  }

  lemma {:induction false} FilledStart(s: string)
    requires FirstWildcard(s) < |s|
    ensures FirstWildcard(s) < |Filled(s)| && Filled(s)[..FirstWildcard(s)] == s[..FirstWildcard(s)]
            && Filled(s)[FirstWildcard(s)] == 'x'
  {
    if !IsWildcard(s[0]) {
      FilledStart(s[1..]);
      assert s == [s[0]] + s[1..] && Filled(s) == [s[0]] + Filled(s[1..]);
    }
  }

  lemma {:induction false} LiteralMatchesItself(reading: ClassReading, s: string)
    requires FirstWildcard(s) == |s|
    ensures Matches(reading, s, s)
  {
    if s != "" {
      LiteralMatchesItself(reading, s[1..]);
    }
  }

  /** For patterns without bracket classes the test is safe exactly on the aligned ones. */
  lemma SafeExactlyWhenAligned(reading: ClassReading, a: string)
    requires '[' !in a
    ensures SafeAgainstAligned(reading, a) <==> Aligned(a)
  {
    NoClassIsClosed(ForwardSlashes(a));
    if Aligned(a) {
      AlignedIsSafe(reading, a);
    } else {
      MisalignedIsUnsafe(reading, a);
    }
  }

  /** With classes that close, it is safe however they may be read exactly on the aligned ones. */
  lemma SafeUnderEveryReading(a: string)
    requires Closed(ForwardSlashes(a))
    ensures (forall reading :: SafeAgainstAligned(reading, a)) <==> Aligned(a)
  {
    if Aligned(a) {
      forall reading ensures SafeAgainstAligned(reading, a) {
        AlignedIsSafe(reading, a);
      }
    } else {
      MisalignedIsUnsafe((members, c) => true, a);
    }
  }

  lemma {:induction false} NoClassIsClosed(s: string)
    requires '[' !in s
    ensures Closed(s)
  {
    if s != "" { NoClassIsClosed(s[1..]); }
  }

  lemma AlignedIsSafe(reading: ClassReading, a: string)
    requires Aligned(a)
    ensures SafeAgainstAligned(reading, a)
  {
    forall b, path | Aligned(b) && Matches(reading, ForwardSlashes(a), path)
    && Matches(reading, ForwardSlashes(b), path)
      ensures PrefixOverlaps(StaticPrefix(a), StaticPrefix(b))
    {
      CommonPathOverlaps(reading, a, b, path);
    }
  }

  lemma MisalignedIsUnsafe(reading: ClassReading, a: string)
    requires !Aligned(a) && Closed(ForwardSlashes(a)) && ('[' in a ==> forall members :: reading(members, 'x'))
    ensures !SafeAgainstAligned(reading, a)
  {
    hide Matches, PrefixOverlaps, StaticPrefix, Aligned, Filled, FirstWildcard;
    var b := Filled(ForwardSlashes(a));
    FilledIsLiteral(a, b);
    MisalignedIsMissed(a, b);
    FilledMatches(reading, ForwardSlashes(a));
    LiteralMatchesItself(reading, b);
    TextOfLiteral(b);
  }

  lemma FilledIsLiteral(a: string, b: string)
    requires b == Filled(ForwardSlashes(a))
    ensures ForwardSlashes(b) == b && FirstWildcard(b) == |b| && !HasWildcard(b)
  {
    var raw := ForwardSlashes(a);
    FilledIsPlain(raw);
    forall c | c in raw ensures c != '\\' {
      var i :| 0 <= i < |raw| && raw[i] == c;
    }
    forall i | 0 <= i < |b| ensures b[i] != '\\' && !IsWildcard(b[i]) {
      assert b[i] in b;
    }
    NoWildcardIn(b);
  }

  /** A misaligned pattern and one of the paths it matches are reported disjoint. */
  lemma MisalignedIsMissed(a: string, b: string)
    requires !Aligned(a) && b == Filled(ForwardSlashes(a))
    ensures !PrefixOverlaps(StaticPrefix(a), StaticPrefix(b))
  {
    hide Normalized, Filled;
    if !HasWildcard(a) { TextOfLiteral(a); }
    TextOfWildcard(a);
    var raw, w := ForwardSlashes(a), LiteralLength(a);
    FilledStart(raw);
    FilledIsLiteral(a, b);
    var lit, more := raw[..w], b[w + 1..];
    assert b == lit + ("x" + more);
    LiteralKeepsText(b, lit, more);
    PlainLetterSeparates(Text(a), DropWhileEnd(IsSpace, more));
  }

  lemma LetterStays(f: char -> bool, more: string)
    requires !f('x')
    ensures DropWhileEnd(f, "x" + more) == "x" + DropWhileEnd(f, more)
  {
    DropWhileEndAppend(f, "x", more);
    assert DropWhileEnd(f, "x") == "x";
  }

  lemma LiteralKeepsText(b: string, lit: string, more: string)
    requires b == lit + ("x" + more) && ForwardSlashes(b) == b && !HasWildcard(b)
    ensures Text(b) == Lead(lit) + ("x" + DropWhileEnd(IsSpace, more))
  {
    hide DropWhile, DropWhileEnd;
    TextOfLiteral(b);
    LeadAppend(lit, "x" + more);
    LetterStays(IsSpace, more);
    DropWhileEndAppend(IsSpace, DropWhile(IsSpace, lit), "x" + more);
    LeadAppend(lit, "x" + DropWhileEnd(IsSpace, more));
  }

  lemma PlainLetterSeparates(text: string, kept: string)
    requires text != "" && text[|text| - 1] != '/'
    ensures !PrefixOverlaps(DropWhileEnd(IsSlash, text), DropWhileEnd(IsSlash, text + ("x" + kept)))
  {
    assert DropWhileEnd(IsSlash, text) == text;
    LetterStays(IsSlash, kept);
    DropWhileEndAppend(IsSlash, text, "x" + kept);
    LetterIsNotSlash(text, DropWhileEnd(IsSlash, kept));
  }

  lemma StartsWithAt(s: string, prefix: string, k: nat)
    requires k < |prefix| <= |s|
    ensures StartsWith(s, prefix) ==> s[k] == prefix[k]
  {
    assert s[..|prefix|][k] == s[k];
  }

  lemma LetterIsNotSlash(text: string, kept: string)
    requires text != ""
    ensures !PrefixOverlaps(text, text + ("x" + kept))
  {
    var long := text + ("x" + kept);
    assert |long| == |text| + 1 + |kept| && long[|text|] == 'x' && (text + "/")[|text|] == '/';
    StartsWithAt(long, text + "/", |text|);
  }

  lemma {:induction false} StarMatches(reading: ClassReading, lit: string, tail: string)
    requires FirstWildcard(lit) == |lit|
    ensures Matches(reading, lit + "*", lit + tail)
  {
    if lit == "" {
      assert lit + "*" == "*" && lit + tail == tail;
      assert Matches(reading, "*"[1..], tail[|tail|..]);
    } else {
      StarMatches(reading, lit[1..], tail);
      assert (lit + "*")[1..] == lit[1..] + "*" && (lit + tail)[1..] == lit[1..] + tail;
    }
  }

  /** `src/a*` and `src/ab.py` share a path and are reported disjoint. */
  lemma MidSegmentWildcardIsMissed(reading: ClassReading)
    ensures Covers(reading, ["src/a*"], "src/ab.py") && Covers(reading, ["src/ab.py"], "src/ab.py")
    ensures !ScopesOverlap(["src/a*"], ["src/ab.py"])
  {
    hide Matches, StaticPrefix, Normalized, DropWhile, DropWhileEnd;
    MissedPatternsMatch(reading);
    MissedPrefixes();
    assert "src/ab.py"[5] == 'b';
  }

  lemma NoWildcardIn(s: string)
    requires forall i :: 0 <= i < |s| ==> !IsWildcard(s[i])
    ensures FirstWildcard(s) == |s|
  {
  }

  lemma MissedPatternsMatch(reading: ClassReading)
    ensures Matches(reading, ForwardSlashes("src/a*"), "src/ab.py")
            && Matches(reading, ForwardSlashes("src/ab.py"), "src/ab.py")
  {
    hide Matches;
    assert ForwardSlashes("src/a*") == "src/a*" == "src/a" + "*";
    assert ForwardSlashes("src/ab.py") == "src/ab.py" == "src/a" + "b.py";
    NoWildcardIn("src/a");
    NoWildcardIn("src/ab.py");
    StarMatches(reading, "src/a", "b.py");
    LiteralMatchesItself(reading, "src/ab.py");
  }

  /** A plain path is its own prefix. */
  lemma LiteralPrefix(s: string)
    requires s != "" && forall i :: 0 <= i < |s| ==> !IsWildcard(s[i]) && s[i] != '\\'
    requires !IsSpace(s[0]) && !IsDotOrSlash(s[0]) && !IsSpace(s[|s| - 1]) && !IsSlash(s[|s| - 1])
    ensures StaticPrefix(s) == s
  {
    assert ForwardSlashes(s) == s;
    NoWildcardIn(s);
    TextOfLiteral(s);
  }

  lemma MissedPrefixes()
    ensures StaticPrefix("src/a*") == "src/a" && StaticPrefix("src/ab.py") == "src/ab.py"
  {
    hide StaticPrefix;
    MissedWildcardPrefix();
    LiteralPrefix("src/ab.py");
  }

  lemma MissedWildcardPrefix()
    ensures StaticPrefix("src/a*") == "src/a"
  {
    assert ForwardSlashes("src/a*") == "src/a" + "*";
    NoWildcardIn("src/a");
    NormalizedWithWildcard("src/a*", "src/a", "*");
  }
}
