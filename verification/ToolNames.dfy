/** Provider-safe tool names and the maps between them and the original names. */
module ToolNames {
  import Decimal

  predicate NameChar(c: char) {
    'a' <= c <= 'z' || 'A' <= c <= 'Z' || '0' <= c <= '9' || c == '_' || c == '-'
  }

  /** The pattern of the providers: one or more name characters. */
  predicate ProviderName(s: string) {
    s != "" && forall c | c in s :: NameChar(c)
  }

  /** `[a-zA-Z0-9_-]`, spelled out. */
  lemma {:induction false} NameCharacters(c: char)
    ensures NameChar(c) <==> c in {
      'a', 'b', 'c', 'd', 'e', 'f', 'g', 'h', 'i', 'j', 'k', 'l', 'm',
      'n', 'o', 'p', 'q', 'r', 's', 't', 'u', 'v', 'w', 'x', 'y', 'z',
      'A', 'B', 'C', 'D', 'E', 'F', 'G', 'H', 'I', 'J', 'K', 'L', 'M',
      'N', 'O', 'P', 'Q', 'R', 'S', 'T', 'U', 'V', 'W', 'X', 'Y', 'Z',
      '0', '1', '2', '3', '4', '5', '6', '7', '8', '9', '_', '-'}
  {
  }

  function SkipBad(s: string): (rest: string)
    ensures |rest| <= |s|
  {
    if s != "" && !NameChar(s[0]) then SkipBad(s[1..]) else s
  }

  /** Every run of other characters becomes one underscore. */
  function ReplaceRuns(s: string): (r: string)
    ensures forall c | c in r :: NameChar(c)
    decreases |s|
  {
    if s == "" then ""
    else if NameChar(s[0]) then [s[0]] + ReplaceRuns(s[1..])
    else "_" + ReplaceRuns(SkipBad(s[1..]))
  }

  function TrimLeft(s: string): (r: string)
    ensures |r| <= |s| && r == s[|s| - |r|..] && (r != "" ==> r[0] != '_')
    ensures forall i | 0 <= i < |s| - |r| :: s[i] == '_'
  {
    if s != "" && s[0] == '_' then TrimLeft(s[1..]) else s
  }

  function TrimRight(s: string): (r: string)
    ensures r <= s && (r != "" ==> r[|r| - 1] != '_')
    ensures forall i | |r| <= i < |s| :: s[i] == '_'
  {
    if s != "" && s[|s| - 1] == '_' then TrimRight(s[..|s| - 1]) else s
  }

  function Sanitize(name: string): (r: string)
    ensures ProviderName(r)
  {
    if ProviderName(name) then name
    else
      var sanitized := TrimRight(TrimLeft(ReplaceRuns(name)));
      if |sanitized| > 0 then sanitized else "tool"
  }

  lemma {:induction false} SanitizeIdempotent(name: string)
    ensures Sanitize(Sanitize(name)) == Sanitize(name)
    ensures Sanitize(name) == name <==> ProviderName(name)
  {
  }

  /** The name characters of a text other than underscores, in order. */
  function Letters(s: string): string {
    if s == "" then "" else (if NameChar(s[0]) && s[0] != '_' then [s[0]] else "") + Letters(s[1..])
  }

  lemma {:induction false} LettersConcat(a: string, b: string)
    ensures Letters(a + b) == Letters(a) + Letters(b)
  {
    if a == "" {
      assert a + b == b;
    } else {
      assert (a + b)[1..] == a[1..] + b;
      LettersConcat(a[1..], b);
    }
  }

  lemma {:induction false} NoLetters(s: string)
    ensures Letters(s) == "" <==> forall c | c in s :: !NameChar(c) || c == '_'
  {
    if s != "" {
      NoLetters(s[1..]);
      assert s == [s[0]] + s[1..];
    }
  }

  lemma {:induction false} SkipBadLetters(s: string)
    ensures Letters(SkipBad(s)) == Letters(s)
  {
    if s != "" && !NameChar(s[0]) {
      SkipBadLetters(s[1..]);
    }
  }

  lemma {:induction false} ReplaceRunsLetters(s: string)
    ensures Letters(ReplaceRuns(s)) == Letters(s)
    decreases |s|
  {
    if s != "" {
      if NameChar(s[0]) {
        ReplaceRunsLetters(s[1..]);
        LettersConcat([s[0]], ReplaceRuns(s[1..]));
        LettersConcat([s[0]], s[1..]);
        assert s == [s[0]] + s[1..];
      } else {
        var rest := SkipBad(s[1..]);
        ReplaceRunsLetters(rest);
        SkipBadLetters(s[1..]);
        LettersConcat("_", ReplaceRuns(rest));
        NoLetters("_");
      }
    }
  }

  lemma {:induction false} TrimLeftLetters(s: string)
    ensures Letters(TrimLeft(s)) == Letters(s)
  {
    var r := TrimLeft(s);
    var cut := s[..|s| - |r|];
    assert s == cut + r;
    LettersConcat(cut, r);
    NoLetters(cut);
  }

  lemma {:induction false} TrimRightLetters(s: string)
    ensures Letters(TrimRight(s)) == Letters(s)
  {
    var r := TrimRight(s);
    var cut := s[|r|..];
    assert s == r + cut;
    LettersConcat(r, cut);
    NoLetters(cut);
  }

  /** A name with a letter, digit or hyphen keeps all of them, in order; any other name that the
      providers refuse becomes "tool". */
  lemma {:induction false} SanitizeKeepsLetters(name: string)
    requires !ProviderName(name)
    ensures Letters(name) != "" ==> Letters(Sanitize(name)) == Letters(name)
    ensures Letters(name) == "" ==> Sanitize(name) == "tool"
  {
    var l := TrimLeft(ReplaceRuns(name));
    var r := TrimRight(l);
    ReplaceRunsLetters(name);
    TrimLeftLetters(ReplaceRuns(name));
    TrimRightLetters(l);
    if r != "" {
      HasLetters(r, l);
    }
  }

  lemma {:induction false} HasLetters(r: string, l: string)
    requires r != "" && r <= l && l[0] != '_' && NameChar(l[0])
    ensures Letters(r) != ""
  {
  }

  lemma {:induction false} TrimRightKeepsFirst(s: string)
    requires TrimRight(s) != ""
    ensures s != "" && TrimRight(s)[0] == s[0]
  {
  }

  predicate Trimmed(s: string) {
    s != "" ==> s[0] != '_' && s[|s| - 1] != '_'
  }

  lemma {:induction false} TrimBoth(s: string)
    ensures Trimmed(TrimRight(TrimLeft(s)))
  {
    if TrimRight(TrimLeft(s)) != "" {
      TrimRightKeepsFirst(TrimLeft(s));
    }
  }

  /** A changed name neither starts nor ends with an underscore. */
  lemma {:induction false} SanitizeTrims(name: string)
    requires !ProviderName(name)
    ensures Trimmed(Sanitize(name))
  {
    TrimBoth(ReplaceRuns(name));
  }

  lemma {:induction false} ReplaceRunsOfName(a: string, rest: string)
    requires forall c | c in a :: NameChar(c)
    ensures ReplaceRuns(a + rest) == a + ReplaceRuns(rest)
  {
    if a == "" {
      assert a + rest == rest;
    } else {
      assert (a + rest)[1..] == a[1..] + rest;
      ReplaceRunsOfName(a[1..], rest);
    }
  }

  lemma {:induction false} SkipBadAll(bad: string, rest: string)
    requires forall c | c in bad :: !NameChar(c)
    requires rest != "" ==> NameChar(rest[0])
    ensures SkipBad(bad + rest) == rest
  {
    if bad == "" {
      assert bad + rest == rest;
    } else {
      assert (bad + rest)[1..] == bad[1..] + rest;
      SkipBadAll(bad[1..], rest);
    }
  }

  lemma {:induction false} ReplaceRunsJoins(a: string, bad: string, b: string)
    requires (forall c | c in a :: NameChar(c)) && ProviderName(b) && bad != "" && forall c | c in bad :: !NameChar(c)
    ensures ReplaceRuns(a + (bad + b)) == a + ("_" + b)
  {
    ReplaceRunsOfName(a, bad + b);
    assert (bad + b)[1..] == bad[1..] + b && (bad + b)[0] == bad[0];
    assert b[0] in b;
    SkipBadAll(bad[1..], b);
    ReplaceRunsOfName(b, "");
    assert b + "" == b && b + ReplaceRuns("") == b;
  }

  /** Between two parts that are provider names any run of other characters becomes one underscore. */
  lemma {:induction false} SanitizeJoins(a: string, bad: string, b: string)
    requires ProviderName(a) && ProviderName(b) && bad != "" && forall c | c in bad :: !NameChar(c)
    requires a[0] != '_' && b[|b| - 1] != '_'
    ensures Sanitize(a + (bad + b)) == a + ("_" + b)
  {
    var name, joined := a + (bad + b), a + ("_" + b);
    ReplaceRunsJoins(a, bad, b);
    assert name[|a|] == bad[0] && name[|a|] in name && bad[0] in bad;
    assert joined[0] == a[0] && joined[|joined| - 1] == b[|b| - 1];
  }

  function Candidate(base: string, suffix: nat): string {
    base + "_" + Decimal.Show(suffix)
  }

  lemma {:induction false} CandidatesDiffer(base: string, i: nat, j: nat)
    ensures Candidate(base, i) == Candidate(base, j) ==> i == j
    ensures Candidate(base, i) != base
  {
    var prefix := base + "_";
    if Candidate(base, i) == Candidate(base, j) {
      assert Candidate(base, i)[|prefix|..] == Decimal.Show(i) && Candidate(base, j)[|prefix|..] == Decimal.Show(j);
      Decimal.ShowInjective(i, j);
    }
    assert |Candidate(base, i)| > |base|;
  }

  /** The base and the candidates below `k` are different names, so a set holding them all is larger. */
  lemma {:induction false} TakenCandidates(base: string, taken: set<string>, k: nat)
    requires k >= 1 && base in taken && forall i | 1 <= i < k :: Candidate(base, i) in taken
    ensures k <= |taken|
  {
    if k == 1 {
      assert taken - {base} + {base} == taken;
    } else {
      var last := Candidate(base, k - 1);
      forall i | 1 <= i < k - 1 ensures Candidate(base, i) in taken - {last} {
        CandidatesDiffer(base, i, k - 1);
      }
      CandidatesDiffer(base, k - 1, k - 1);
      TakenCandidates(base, taken - {last}, k - 1);
    }
  }

  /** The first candidate at or after `k` that is not taken. */
  function FirstFree(base: string, taken: set<string>, k: nat): (n: nat)
    requires k >= 1 && base in taken && forall i | 1 <= i < k :: Candidate(base, i) in taken
    ensures k <= n <= |taken| && Candidate(base, n) !in taken
    ensures forall i | 1 <= i < n :: Candidate(base, i) in taken
    decreases |taken| - k
  {
    TakenCandidates(base, taken, k);
    if Candidate(base, k) !in taken then k
    else
      TakenCandidates(base, taken, k + 1);
      FirstFree(base, taken, k + 1)
  }

  function FreshName(base: string, taken: set<string>): (name: string)
    ensures name !in taken
    ensures base !in taken ==> name == base
  {
    if base in taken then Candidate(base, FirstFree(base, taken, 1)) else base
  }

  function Elements(names: seq<string>): set<string> {
    set n | n in names
  }

  /** The provider name given to each original name, in order. */
  function Assigned(names: seq<string>): (r: seq<string>)
    ensures |r| == |names|
  {
    if names == [] then []
    else
      var before := Assigned(names[..|names| - 1]);
      before + [FreshName(Sanitize(names[|names| - 1]), Elements(before))]
  }

  lemma {:induction false} AssignedDistinct(names: seq<string>)
    ensures forall i, j | 0 <= i < j < |names| :: Assigned(names)[i] != Assigned(names)[j]
  {
    if names != [] {
      var last := |names| - 1;
      AssignedDistinct(names[..last]);
      var before := Assigned(names[..last]);
      assert forall i | 0 <= i < last :: before[i] in Elements(before);
    }
  }

  lemma {:induction false} AssignedApart(names: seq<string>, i: nat, j: nat)
    requires i < j < |names|
    ensures Assigned(names)[i] != Assigned(names)[j]
  {
    AssignedDistinct(names);
  }

  lemma {:induction false} FreshNameIsProviderName(base: string, taken: set<string>)
    requires ProviderName(base)
    ensures ProviderName(FreshName(base, taken))
  {
  }

  lemma {:induction false} AssignedAreProviderNames(names: seq<string>)
    ensures forall i | 0 <= i < |names| :: ProviderName(Assigned(names)[i])
  {
    if names != [] {
      var last := |names| - 1;
      AssignedAreProviderNames(names[..last]);
      FreshNameIsProviderName(Sanitize(names[last]), Elements(Assigned(names[..last])));
    }
  }

  /** From each provider name to the name it stands for. */
  function SanitizedToOriginal(names: seq<string>): (m: map<string, string>) {
    if names == [] then map[]
    else
      var last := |names| - 1;
      SanitizedToOriginal(names[..last])[Assigned(names)[last] := names[last]]
  }

  function OriginalToSanitized(names: seq<string>): (m: map<string, string>) {
    if names == [] then map[]
    else
      var last := |names| - 1;
      OriginalToSanitized(names[..last])[names[last] := Assigned(names)[last]]
  }

  /** One pass fills both maps. The search for a free suffix stops within as many tries as names
      have been given out. */
  method DedupeToolNameMapping(originalNames: seq<string>)
    returns (sanitizedToOriginal: map<string, string>, originalToSanitized: map<string, string>)
    ensures sanitizedToOriginal == SanitizedToOriginal(originalNames)
    ensures originalToSanitized == OriginalToSanitized(originalNames)
  {
    sanitizedToOriginal, originalToSanitized := map[], map[];
    var seen: set<string> := {};
    for n := 0 to |originalNames|
      invariant seen == Elements(Assigned(originalNames[..n]))
      invariant sanitizedToOriginal == SanitizedToOriginal(originalNames[..n])
      invariant originalToSanitized == OriginalToSanitized(originalNames[..n])
    {
      var original := originalNames[n];
      assert originalNames[..n + 1][..n] == originalNames[..n];
      var sanitized := Sanitize(original);
      if sanitized in seen {
        sanitized := FreeCandidate(sanitized, seen);
      }
      seen := seen + {sanitized};
      sanitizedToOriginal := sanitizedToOriginal[sanitized := original];
      originalToSanitized := originalToSanitized[original := sanitized];
    }
    assert originalNames[..|originalNames|] == originalNames;
  }

  /** The suffix loop: the candidate is tried before the suffix is raised, at least once. */
  method FreeCandidate(base: string, seen: set<string>) returns (candidate: string)
    requires base in seen
    ensures candidate == FreshName(base, seen)
  {
    var suffix: nat := 1;
    candidate := Candidate(base, suffix);
    suffix := suffix + 1;
    while candidate in seen
      invariant suffix >= 2 && candidate == Candidate(base, suffix - 1)
      invariant forall i | 1 <= i < suffix - 1 :: Candidate(base, i) in seen
      invariant suffix - 1 <= |seen|
      decreases |seen| - suffix
    {
      TakenCandidates(base, seen, suffix);
      candidate := Candidate(base, suffix);
      suffix := suffix + 1;
    }
    var n := FirstFree(base, seen, 1);
    assert n == suffix - 1;
  }

  /** Each provider name stands for the original it was given to. */
  lemma {:induction false} NamesStandFor(names: seq<string>, i: nat)
    requires i < |names|
    ensures Assigned(names)[i] in SanitizedToOriginal(names)
    ensures SanitizedToOriginal(names)[Assigned(names)[i]] == names[i]
  {
    var last := |names| - 1;
    if i < last {
      NamesStandFor(names[..last], i);
      AssignedApart(names, i, last);
      assert Assigned(names)[i] == Assigned(names[..last])[i] && names[..last][i] == names[i];
    }
  }

  lemma {:induction false} SanitizedToOriginalKeys(names: seq<string>)
    ensures SanitizedToOriginal(names).Keys == Elements(Assigned(names))
  {
    if names != [] {
      SanitizedToOriginalKeys(names[..|names| - 1]);
    }
  }

  /** An original name is mapped to the provider name of its last occurrence. */
  lemma {:induction false} LastOccurrenceWins(names: seq<string>, i: nat)
    requires i < |names| && forall j | i < j < |names| :: names[j] != names[i]
    ensures names[i] in OriginalToSanitized(names) && OriginalToSanitized(names)[names[i]] == Assigned(names)[i]
  {
    var last := |names| - 1;
    if i < last {
      LastOccurrenceWins(names[..last], i);
    }
  }

  lemma {:induction false} LastOccurrence(names: seq<string>, o: string) returns (i: nat)
    requires o in names
    ensures i < |names| && names[i] == o && forall j | i < j < |names| :: names[j] != o
  {
    i := |names| - 1;
    if names[i] != o {
      i := LastOccurrence(names[..i], o);
    }
  }

  /** Mapping an original name to its provider name and back gives the original, duplicates or not. */
  lemma {:induction false} RestoresOriginal(names: seq<string>, o: string)
    requires o in names
    ensures o in OriginalToSanitized(names)
    ensures var s := OriginalToSanitized(names)[o];
            s in SanitizedToOriginal(names) && SanitizedToOriginal(names)[s] == o
  {
    var i := LastOccurrence(names, o);
    LastOccurrenceWins(names, i);
    NamesStandFor(names, i);
  }

  /** The names `convertGovernedTools` and `convertBridgedTools` advertise, tool by tool. */
  function Advertised(names: seq<string>): (r: seq<string>)
    ensures |r| == |names|
  {
    var m := OriginalToSanitized(names);
    seq(|names|, (i: nat) requires i < |names| => if names[i] in m then m[names[i]] else names[i])
  }

  /** The advertised names are distinct exactly when the original ones are: two tools of one name
      share the provider name given to the second. */
  lemma {:induction false} AdvertisedDistinct(names: seq<string>)
    ensures (forall i, j | 0 <= i < j < |names| :: Advertised(names)[i] != Advertised(names)[j])
       <==> (forall i, j | 0 <= i < j < |names| :: names[i] != names[j])
    ensures forall i | 0 <= i < |names| :: ProviderName(Advertised(names)[i])
  {
    forall i | 0 <= i < |names| ensures ProviderName(Advertised(names)[i]) {
      var k := LastOccurrence(names, names[i]);
      LastOccurrenceWins(names, k);
      AssignedAreProviderNames(names);
    }
    forall i, j | 0 <= i < j < |names| ensures Advertised(names)[i] == Advertised(names)[j] <==> names[i] == names[j] {
      RestoresOriginal(names, names[i]);
      RestoresOriginal(names, names[j]);
    }
  }

  datatype Tool<T> = Tool(name: string, body: T)

  predicate HasName<T>(tools: seq<Tool<T>>, name: string) {
    exists i | 0 <= i < |tools| :: tools[i].name == name
  }

  /** The tools with no earlier tool of the same name, in order. */
  function FirstOfEachName<T>(tools: seq<Tool<T>>): seq<Tool<T>> {
    if tools == [] then []
    else
      var earlier, tool := tools[..|tools| - 1], tools[|tools| - 1];
      FirstOfEachName(earlier) + (if HasName(earlier, tool.name) then [] else [tool])
  }

  lemma {:induction false} HasNameConcat<T>(a: seq<Tool<T>>, b: seq<Tool<T>>, name: string)
    ensures HasName(a + b, name) <==> HasName(a, name) || HasName(b, name)
  {
    if i :| 0 <= i < |a| && a[i].name == name {
      assert (a + b)[i].name == name;
    }
    if i :| 0 <= i < |b| && b[i].name == name {
      assert (a + b)[|a| + i].name == name;
    }
  }

  lemma {:induction false} SameNames<T>(tools: seq<Tool<T>>, name: string)
    ensures HasName(FirstOfEachName(tools), name) <==> HasName(tools, name)
  {
    if tools != [] {
      var earlier, tool := tools[..|tools| - 1], tools[|tools| - 1];
      SameNames(earlier, name);
      HasNameConcat(earlier, [tool], name);
      HasNameConcat(FirstOfEachName(earlier), [tool], name);
      assert tools == earlier + [tool];
      assert HasName([tool], name) <==> [tool][0].name == name;
      if HasName(earlier, tool.name) {
        assert FirstOfEachName(tools) == FirstOfEachName(earlier);
      }
    }
  }

  /** A `Map` keeps its entries in the order of their first insertion: a list of tools, one per key. */
  method DedupeTools<T>(tools: seq<Tool<T>>) returns (byName: seq<Tool<T>>)
    ensures byName == FirstOfEachName(tools)
  {
    byName := [];
    for n := 0 to |tools|
      invariant byName == FirstOfEachName(tools[..n])
    {
      assert tools[..n + 1][..n] == tools[..n];
      SameNames(tools[..n], tools[n].name);
      if !HasName(byName, tools[n].name) {
        byName := byName + [tools[n]];
      }
    }
    assert tools[..|tools|] == tools;
  }

  lemma {:induction false} DedupedDistinct<T>(tools: seq<Tool<T>>)
    ensures forall i, j | 0 <= i < j < |FirstOfEachName(tools)| ::
              FirstOfEachName(tools)[i].name != FirstOfEachName(tools)[j].name
  {
    if tools != [] {
      var earlier, tool := tools[..|tools| - 1], tools[|tools| - 1];
      DedupedDistinct(earlier);
      SameNames(earlier, tool.name);
    }
  }
}
