/** Which changed files a task's scope forbids. */
module TaskScope {
  import opened ScopeOverlap

  /** `raw.split("/")`. */
  function Segments(raw: string): (parts: seq<string>)
    ensures parts != []
  {
    if raw == "" then [""]
    else if raw[0] == '/' then [""] + Segments(raw[1..])
    else
      var rest := Segments(raw[1..]);
      [[raw[0]] + rest[0]] + rest[1..]
  }

  /** Absolute paths, drive letters and parent segments are never allowed. */
  predicate IsEscape(raw: string) {
    raw == "" || raw[0] == '/' || ".." in Segments(raw) || ':' in Segments(raw)[0]
  }

  predicate Violates(reading: ClassReading, scope: seq<string>, file: string) {
    var raw := ForwardSlashes(file);
    var normalized := if StartsWith(raw, "./") then raw[2..] else raw;
    scope != [] && (IsEscape(raw) || !Covers(reading, scope, normalized))
  }

  lemma EscapeIff(file: string)
    ensures var raw := ForwardSlashes(file);
            IsEscape(raw) <==>
              || |file| == 0 || file[0] in {'/', '\\'}
              || ".." in Segments(raw) || ':' in Segments(raw)[0]
  {
    var raw := ForwardSlashes(file);
    assert raw == "" <==> |file| == 0;
    assert |file| > 0 ==> (raw[0] == '/' <==> file[0] in {'/', '\\'});
    hide ForwardSlashes, Segments;
  }

  /** Forbidden are empty and absolute paths, parent segments, drive letters, and what no pattern matches. */
  lemma ViolatesIff(reading: ClassReading, scope: seq<string>, file: string)
    ensures var raw := ForwardSlashes(file);
            Violates(reading, scope, file) <==>
              scope != [] &&
              (|| |file| == 0 || file[0] in {'/', '\\'}
               || ".." in Segments(raw) || ':' in Segments(raw)[0]
               || forall p :: p in scope ==>
                    !Matches(reading, ForwardSlashes(p),
                             if |raw| >= 2 && raw[0] == '.' && raw[1] == '/' then raw[2..] else raw))
  {
    EscapeIff(file);
    hide Matches, ForwardSlashes, Segments, IsEscape;
    var raw := ForwardSlashes(file);
    assert StartsWith(raw, "./") <==> |raw| >= 2 && raw[0] == '.' && raw[1] == '/' by {
      if |raw| >= 2 { assert raw[..2] == [raw[0], raw[1]]; }
    }
  }

  predicate InScope(reading: ClassReading, scope: seq<string>, files: set<string>) {
    forall f :: f in files ==> !Violates(reading, scope, f)
  }

  /** No segment contains a slash, and joining them gives the path back. */
  function Joined(parts: seq<string>): string
    requires parts != []
  {
    if |parts| == 1 then parts[0] else parts[0] + "/" + Joined(parts[1..])
  }

  lemma {:induction false} SegmentsJoin(raw: string)
    ensures Joined(Segments(raw)) == raw
    ensures forall part :: part in Segments(raw) ==> '/' !in part
  {
    if raw != "" {
      SegmentsJoin(raw[1..]);
      var rest := Segments(raw[1..]);
      assert raw == [raw[0]] + raw[1..];
      if raw[0] == '/' {
        assert ([""] + rest)[1..] == rest;
      } else {
        assert ([[raw[0]] + rest[0]] + rest[1..])[1..] == rest[1..];
      }
    }
  }
}
