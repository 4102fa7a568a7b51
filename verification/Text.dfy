/** The string operations the other modules rely on, with the laws that relate them.
    Strings are sequences of characters; offsets are clamped the way JavaScript clamps them
    only where a caller can reach the clamped case. */
module Text {

  datatype Option<+T> = None | Some(value: T)

  /** `s.split(sep)` for a one-character separator: never empty, parts hold no separator. */
  function Split(s: string, sep: char): (parts: seq<string>)
    ensures |parts| >= 1
    ensures forall p | p in parts :: sep !in p
  {
    if s == "" then [""]
    else
      var rest := Split(s[1..], sep);
      if s[0] == sep then [""] + rest else [[s[0]] + rest[0]] + rest[1..]
  }

  /** `parts.join(sep)`. */
  function Join(parts: seq<string>, sep: char): string
    requires |parts| >= 1
  {
    if |parts| == 1 then parts[0] else parts[0] + [sep] + Join(parts[1..], sep)
  }

  predicate StartsWith(s: string, prefix: string) {
    |prefix| <= |s| && s[..|prefix|] == prefix
  }

  predicate EndsWith(s: string, suffix: string) {
    |suffix| <= |s| && s[|s| - |suffix|..] == suffix
  }

  predicate OccursAt(s: string, pattern: string, i: int) {
    0 <= i <= |s| - |pattern| && s[i..i + |pattern|] == pattern
  }

  predicate Includes(s: string, pattern: string) {
    exists i | 0 <= i <= |s| :: OccursAt(s, pattern, i)
  }

  /** The least offset at or after `from` at which `pattern` occurs. */
  function IndexFrom(s: string, pattern: string, from: nat): (i: Option<nat>)
    requires from <= |s|
    ensures i.Some? ==> from <= i.value && OccursAt(s, pattern, i.value)
    ensures forall k | from <= k && (i.Some? ==> k < i.value) :: !OccursAt(s, pattern, k)
    decreases |s| - from
  {
    if OccursAt(s, pattern, from) then Some(from)
    else if from == |s| then None
    else IndexFrom(s, pattern, from + 1)
  }

  /** `s.replace(pattern, replacement)` with a string pattern: the first occurrence only. */
  function ReplaceFirst(s: string, pattern: string, replacement: string): string {
    match IndexFrom(s, pattern, 0)
    case None => s
    case Some(i) => s[..i] + replacement + s[i + |pattern|..]
  }

  lemma {:induction false} SplitConcat(a: string, sep: char, b: string)
    ensures Split(a + [sep] + b, sep) == Split(a, sep) + Split(b, sep)
  {
    if a == "" {
      assert (a + [sep] + b)[1..] == b;
    } else {
      assert (a + [sep] + b)[1..] == a[1..] + [sep] + b;
      SplitConcat(a[1..], sep, b);
    }
  }

  lemma {:induction false} SplitWhole(s: string, sep: char)
    requires sep !in s
    ensures Split(s, sep) == [s]
  {
    if s != "" {
      SplitWhole(s[1..], sep);
      assert [s[0]] + s[1..] == s;
    }
  }

  lemma {:induction false} JoinSplit(s: string, sep: char)
    ensures Join(Split(s, sep), sep) == s
  {
    if s != "" {
      JoinSplit(s[1..], sep);
      var rest := Split(s[1..], sep);
      if s[0] == sep {
        assert ([""] + rest)[1..] == rest;
      } else {
        var parts := [[s[0]] + rest[0]] + rest[1..];
        assert parts[1..] == rest[1..];
      }
    }
  }

  lemma {:induction false} JoinConcat(x: seq<string>, y: seq<string>, sep: char)
    requires |x| >= 1 && |y| >= 1
    ensures Join(x + y, sep) == Join(x, sep) + [sep] + Join(y, sep)
  {
    if |x| == 1 {
      assert (x + y)[1..] == y;
    } else {
      assert (x + y)[1..] == x[1..] + y;
      JoinConcat(x[1..], y, sep);
    }
  }

  /** A string with an inner part at position k is cut by that part and its two separators. */
  lemma {:induction false} CutAtPart(s: string, sep: char, k: nat) returns (before: string, after: string)
    requires 0 < k < |Split(s, sep)| - 1
    ensures s == before + [sep] + Split(s, sep)[k] + [sep] + after
  {
    var parts := Split(s, sep);
    before, after := Join(parts[..k], sep), Join(parts[k + 1..], sep);
    JoinSplit(s, sep);
    assert parts == parts[..k] + parts[k..];
    JoinConcat(parts[..k], parts[k..], sep);
    assert parts[k..] == [parts[k]] + parts[k + 1..];
    JoinConcat([parts[k]], parts[k + 1..], sep);
  }

  /** Finding "/part/" inside a path is finding `part` strictly between its first and last parts. */
  lemma {:induction false} IncludesPart(s: string, sep: char, part: string)
    requires sep !in part
    ensures Includes(s, [sep] + part + [sep])
       <==> exists k :: 0 < k < |Split(s, sep)| - 1 && Split(s, sep)[k] == part
  {
    if Includes(s, [sep] + part + [sep]) {
      var i :| 0 <= i <= |s| && OccursAt(s, [sep] + part + [sep], i);
      PartAtOccurrence(s, sep, part, i);
    }
    if k :| 0 < k < |Split(s, sep)| - 1 && Split(s, sep)[k] == part {
      OccurrenceAtPart(s, sep, part, k);
    }
  }

  lemma {:induction false} PartAtOccurrence(s: string, sep: char, part: string, i: nat)
    requires sep !in part && OccursAt(s, [sep] + part + [sep], i)
    ensures exists k :: 0 < k < |Split(s, sep)| - 1 && Split(s, sep)[k] == part
  {
    var pattern := [sep] + part + [sep];
    var a, b := s[..i], s[i + |pattern|..];
    assert s == a + s[i..i + |pattern|] + b;
    assert a + pattern + b == a + [sep] + (part + [sep] + b);
    SplitConcat(a, sep, part + [sep] + b);
    SplitConcat(part, sep, b);
    SplitWhole(part, sep);
    assert Split(s, sep)[|Split(a, sep)|] == part;
  }

  lemma {:induction false} OccurrenceAtPart(s: string, sep: char, part: string, k: nat)
    requires 0 < k < |Split(s, sep)| - 1 && Split(s, sep)[k] == part
    ensures Includes(s, [sep] + part + [sep])
  {
    var pattern := [sep] + part + [sep];
    var a, b := CutAtPart(s, sep, k);
    assert s == a + pattern + b;
    assert OccursAt(s, pattern, |a|);
  }

  lemma {:induction false} StartsWithPart(s: string, sep: char, part: string)
    requires sep !in part
    ensures StartsWith(s, part + [sep]) <==> |Split(s, sep)| >= 2 && Split(s, sep)[0] == part
  {
    var parts := Split(s, sep);
    if StartsWith(s, part + [sep]) {
      assert s == part + [sep] + s[|part| + 1..];
      SplitConcat(part, sep, s[|part| + 1..]);
      SplitWhole(part, sep);
    }
    if |parts| >= 2 && parts[0] == part {
      JoinSplit(s, sep);
    }
  }

  lemma {:induction false} EndsWithPart(s: string, sep: char, part: string)
    requires sep !in part
    ensures EndsWith(s, [sep] + part)
       <==> |Split(s, sep)| >= 2 && Split(s, sep)[|Split(s, sep)| - 1] == part
  {
    var parts := Split(s, sep);
    if EndsWith(s, [sep] + part) {
      var a := s[..|s| - |part| - 1];
      assert s == a + [sep] + part;
      SplitConcat(a, sep, part);
      SplitWhole(part, sep);
    }
    if |parts| >= 2 && parts[|parts| - 1] == part {
      JoinSplit(s, sep);
      assert parts == parts[..|parts| - 1] + [part];
      JoinConcat(parts[..|parts| - 1], [part], sep);
    }
  }
}
