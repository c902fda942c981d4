/** The few string operations of the host language the engines rely on. */
module PythonText {

  /** The characters `str.strip` removes. */
  predicate IsSpace(c: char) {
    var n := c as int;
    || 9 <= n <= 13 || 28 <= n <= 32 || n == 0x85 || n == 0xA0 || n == 0x1680
    || 0x2000 <= n <= 0x200A || n == 0x2028 || n == 0x2029 || n == 0x202F || n == 0x205F || n == 0x3000
  }

  /** `not s.strip()`. */
  predicate IsBlank(s: string) {
    forall i :: 0 <= i < |s| ==> IsSpace(s[i])
  }

  /** `"".join(parts)`. */
  function Concat(parts: seq<string>): string {
    if parts == [] then "" else parts[0] + Concat(parts[1..])
  }

  /** `str.lower` on the ASCII letters. */
  function Lower(s: string): (r: string)
    ensures |r| == |s|
  {
    seq(|s|, i requires 0 <= i < |s| => if 'A' <= s[i] <= 'Z' then (s[i] as int + 32) as char else s[i])
  }

  /** The k-th capital letter becomes the k-th small one; nothing else changes. */
  lemma LowerFolds(s: string, i: nat, k: nat)
    requires i < |s|
    ensures k < 26 && s[i] as int == 'A' as int + k ==> Lower(s)[i] as int == 'a' as int + k
    ensures s[i] < 'A' || 'Z' < s[i] ==> Lower(s)[i] == s[i]
  {
  }
}
