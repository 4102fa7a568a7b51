/** Glob patterns of approval rules, compiled to regular expressions by replacing characters. */
module GlobPattern {
  import opened Folding
  import opened RegularExpressions

  function Replacing(c: char, replacement: string): char -> string {
    x => if x == c then replacement else [x]
  }

  /** `s.replaceAll(c, replacement)` for a one-character pattern. */
  function ReplaceAll(s: string, c: char, replacement: string): string {
    FlatMap(Replacing(c, replacement), s)
  }

  /** The four replacements of the source, in its order. */
  function Escaped(pattern: string): string {
    var backslashes := ReplaceAll(pattern, BACKSLASH, [BACKSLASH, BACKSLASH]);
    var dots := ReplaceAll(backslashes, '.', [BACKSLASH, '.']);
    ReplaceAll(ReplaceAll(dots, '?', "."), '*', ".*")
  }

  function TranslateChar(): char -> string {
    c => if c == BACKSLASH then [BACKSLASH, BACKSLASH]
         else if c == '.' then [BACKSLASH, '.']
         else if c == '?' then "."
         else if c == '*' then ".*"
         else [c]
  }

  /** One pass over the characters. */
  function Translated(pattern: string): string {
    FlatMap(TranslateChar(), pattern)
  }

  lemma {:induction false} FlatMapThen<A, B, C>(f: A -> seq<B>, g: B -> seq<C>, h: A -> seq<C>, xs: seq<A>)
    requires forall x | x in xs :: FlatMap(g, f(x)) == h(x)
    ensures FlatMap(g, FlatMap(f, xs)) == FlatMap(h, xs)
  {
    if xs != [] {
      FlatMapThen(f, g, h, xs[1..]);
      FlatMapConcat(g, f(xs[0]), FlatMap(f, xs[1..]));
    }
  }

  function AfterTwo(): char -> string {
    c => if c == BACKSLASH then [BACKSLASH, BACKSLASH] else if c == '.' then [BACKSLASH, '.'] else [c]
  }

  function AfterThree(): char -> string {
    c => if c == '?' then "." else AfterTwo()(c)
  }

  lemma {:induction false} FlatMapTwo<A, B>(f: A -> seq<B>, x: A, y: A)
    ensures FlatMap(f, [x, y]) == f(x) + f(y)
  {
    assert [x, y] == [x] + [y];
    FlatMapConcat(f, [x], [y]);
    FlatMapOne(f, x);
    FlatMapOne(f, y);
  }

  /** No replacement touches what an earlier one has put in. */
  lemma {:induction false} EscapedIsTranslated(pattern: string)
    ensures Escaped(pattern) == Translated(pattern)
  {
    var one, dot, any, star := Replacing(BACKSLASH, [BACKSLASH, BACKSLASH]), Replacing('.', [BACKSLASH, '.']),
      Replacing('?', "."), Replacing('*', ".*");
    forall c | c in pattern
      ensures FlatMap(dot, one(c)) == AfterTwo()(c)
      ensures FlatMap(any, AfterTwo()(c)) == AfterThree()(c)
      ensures FlatMap(star, AfterThree()(c)) == TranslateChar()(c)
    {
      forall x: char, y: char ensures FlatMap(dot, [x]) == dot(x) && FlatMap(dot, [x, y]) == dot(x) + dot(y)
        && FlatMap(any, [x]) == any(x) && FlatMap(any, [x, y]) == any(x) + any(y)
        && FlatMap(star, [x]) == star(x) && FlatMap(star, [x, y]) == star(x) + star(y)
      {
        FlatMapOne(dot, x);
        FlatMapOne(any, x);
        FlatMapOne(star, x);
        FlatMapTwo(dot, x, y);
        FlatMapTwo(any, x, y);
        FlatMapTwo(star, x, y);
      }
    }
    FlatMapThen(one, dot, AfterTwo(), pattern);
    FlatMapThen(AfterTwo(), any, AfterThree(), pattern);
    FlatMapThen(AfterThree(), star, TranslateChar(), pattern);
  }

  /** `globToRegex(pattern)`. */
  function Compiled(pattern: string): Parsed {
    Parse("^" + Escaped(pattern) + "$")
  }

  predicate NoOtherMeta(pattern: string) {
    forall i | 0 <= i < |pattern| :: !Meta(pattern[i])
  }

  // ----- globs -----

  /** A glob: "*" stands for any run of wild characters, "?" for one of them. */
  predicate Glob(pattern: string, s: string, wild: char -> bool) {
    if pattern == "" then s == ""
    else if pattern[0] == '*' then
      exists k | 0 <= k <= |s| :: AllWild(s[..k], wild) && Glob(pattern[1..], s[k..], wild)
    else
      s != "" && (if pattern[0] == '?' then wild(s[0]) else pattern[0] == s[0]) && Glob(pattern[1..], s[1..], wild)
  }

  predicate AllWild(s: string, wild: char -> bool) {
    forall i | 0 <= i < |s| :: wild(s[i])
  }

  function OnOneLine(): char -> bool {
    c => !LineTerminator(c)
  }

  function Anything(): char -> bool {
    c => true
  }

  // ----- patterns without other metacharacters -----

  function GlobRe(c: char): Re {
    if c == '*' then Star(Dot) else if c == '?' then Dot else Literal(c)
  }

  /** The pattern's characters in order, up to the end of the text. */
  function Chain(pattern: string): Re {
    if pattern == "" then Then(End, Empty) else Then(GlobRe(pattern[0]), Chain(pattern[1..]))
  }

  lemma {:induction false} TermFront(c: char, rest: string)
    requires !Meta(c) && rest != "" && rest[0] != '*' && rest[0] != '+'
    ensures TranslateChar()(c) != "" && TranslateChar()(c)[0] != '|' && TranslateChar()(c)[0] != ')'
    ensures ParseTerm(TranslateChar()(c) + rest) == Good(GlobRe(c), rest)
    ensures TranslateChar()(c)[0] != '*' && TranslateChar()(c)[0] != '+'
  {
    var s := TranslateChar()(c) + rest;
    assert s[|TranslateChar()(c)|..] == rest;
    if c == '*' {
      assert s[1..] == ['*'] + rest && s[1..][1..] == rest;
    }
  }

  lemma {:induction false} ChainParses(pattern: string)
    requires NoOtherMeta(pattern)
    ensures var s := Translated(pattern) + "$";
            s[0] != '*' && s[0] != '+' && ParseSequence(s) == Good(Chain(pattern), "")
  {
    if pattern == "" {
      assert Translated(pattern) + "$" == "$";
      assert ParseSequence("$") == Good(Then(End, Empty), "");
    } else {
      ChainParses(pattern[1..]);
      var c, rest := pattern[0], Translated(pattern[1..]) + "$";
      assert Translated(pattern) + "$" == TranslateChar()(c) + rest;
      TermFront(c, rest);
    }
  }

  lemma {:induction false} CompiledChain(pattern: string)
    requires NoOtherMeta(pattern)
    ensures Compiled(pattern) == Good(Then(Begin, Chain(pattern)), "")
  {
    EscapedIsTranslated(pattern);
    ChainParses(pattern);
    var source, rest := "^" + Escaped(pattern) + "$", Translated(pattern) + "$";
    assert source == ['^'] + rest && source[1..] == rest;
    assert ParseTerm(source) == Good(Begin, rest);
    assert ParseSequence(source) == Good(Then(Begin, Chain(pattern)), "");
  }

  lemma {:induction false} WildFront(s: string, k: nat, wild: char -> bool)
    requires k < |s|
    ensures AllWild(s[..k + 1], wild) <==> wild(s[0]) && AllWild(s[1..][..k], wild)
  {
    var front, rest := s[..k + 1], s[1..][..k];
    assert front == [s[0]] + rest;
    if AllWild(front, wild) {
      assert wild(front[0]);
      forall i | 0 <= i < |rest| ensures wild(rest[i]) {
        assert front[i + 1] == rest[i];
      }
    }
  }

  lemma {:induction false} DotsRepeat(s: string, i: nat, j: nat)
    requires i <= j <= |s|
    ensures Repeats(Dot, s, i, j) <==> AllWild(s[i..j], OnOneLine())
    decreases j - i
  {
    var part, wild := s[i..j], OnOneLine();
    if i < j {
      DotsRepeat(s, i + 1, j);
      WildFront(part, j - i - 1, wild);
      assert part[..j - i] == part && part[1..][..j - i - 1] == s[i + 1..j];
      if AllWild(part, wild) {
        assert Spans(Dot, s, i, i + 1);
      }
    }
  }

  /** The chain matches to the end of the text, or not at all. */
  lemma {:induction false} ChainSpans(pattern: string, s: string, i: nat, j: nat)
    requires i <= j <= |s|
    ensures Spans(Chain(pattern), s, i, j) <==> j == |s| && Glob(pattern, s[i..], OnOneLine())
    decreases |pattern|
  {
    if pattern == "" {
      ThenSpans(Then(End, Empty), s, i, j);
      assert Meets(Then(End, Empty), s, i, i, i) <==> i == |s|;
    } else if pattern[0] == '*' {
      StarSpans(pattern, s, i, j);
    } else {
      if i < |s| && i < j {
        ChainSpans(pattern[1..], s, i + 1, j);
        assert s[i..][1..] == s[i + 1..];
      }
      OneSpans(pattern, s, i, j);
    }
  }

  lemma {:induction false} OneSpans(pattern: string, s: string, i: nat, j: nat)
    requires pattern != "" && pattern[0] != '*' && i <= j <= |s|
    ensures Spans(Chain(pattern), s, i, j)
       <==> i < j && Spans(GlobRe(pattern[0]), s, i, i + 1) && Spans(Chain(pattern[1..]), s, i + 1, j)
  {
    var first, rest := GlobRe(pattern[0]), Chain(pattern[1..]);
    assert Chain(pattern) == Then(first, rest);
    ThenSpans(Chain(pattern), s, i, j);
    assert i < j ==> (Meets(Chain(pattern), s, i, i + 1, j) <==> Spans(first, s, i, i + 1) && Spans(rest, s, i + 1, j));
    if Spans(Chain(pattern), s, i, j) {
      var k: nat :| Meets(Chain(pattern), s, i, k, j);
      assert k == i + 1;
    }
  }

  lemma {:induction false} StarSpans(pattern: string, s: string, i: nat, j: nat)
    requires pattern != "" && pattern[0] == '*' && i <= j <= |s|
    ensures Spans(Chain(pattern), s, i, j) <==> j == |s| && Glob(pattern, s[i..], OnOneLine())
    decreases |pattern|, 0
  {
    var rest, wild := pattern[1..], OnOneLine();
    forall k: nat | i <= k <= j
      ensures Spans(Star(Dot), s, i, k) <==> AllWild(s[i..][..k - i], wild)
      ensures Spans(Chain(rest), s, k, j) <==> j == |s| && Glob(rest, s[i..][k - i..], wild)
    {
      DotsRepeat(s, i, k);
      ChainSpans(rest, s, k, j);
      assert s[i..][..k - i] == s[i..k] && s[i..][k - i..] == s[k..];
    }
    assert Chain(pattern) == Then(Star(Dot), Chain(rest));
    ThenSpans(Chain(pattern), s, i, j);
    if j == |s| && Glob(pattern, s[i..], wild) {
      var n :| 0 <= n <= |s[i..]| && AllWild(s[i..][..n], wild) && Glob(rest, s[i..][n..], wild);
      assert Meets(Chain(pattern), s, i, i + n, j);
    }
  }

  /** Compiled, a pattern without other metacharacters accepts its glob language, wildcards never
      crossing a line terminator. */
  lemma {:induction false} CompiledGlob(pattern: string, s: string)
    requires NoOtherMeta(pattern)
    ensures Compiled(pattern).Good? && (Matches(Compiled(pattern).re, s) <==> Glob(pattern, s, OnOneLine()))
  {
    CompiledChain(pattern);
    var re := Then(Begin, Chain(pattern));
    assert s[0..] == s;
    forall i: nat, j: nat | i <= j <= |s| ensures Spans(re, s, i, j) <==> i == 0 && j == |s| && Glob(pattern, s, OnOneLine()) {
      ThenSpans(re, s, i, j);
      ChainSpans(pattern, s, 0, j);
      assert i == 0 && Spans(Chain(pattern), s, 0, j) ==> Meets(re, s, 0, 0, j);
    }
    if Glob(pattern, s, OnOneLine()) {
      assert Spans(re, s, 0, |s|);
    }
  }

  /** Where wildcards may stand for more characters, at least as much is accepted. */
  lemma {:induction false} WiderGlob(pattern: string, s: string, wild: char -> bool, wider: char -> bool)
    requires forall i | 0 <= i < |s| :: wild(s[i]) ==> wider(s[i])
    ensures Glob(pattern, s, wild) ==> Glob(pattern, s, wider)
  {
    if pattern != "" && Glob(pattern, s, wild) {
      if pattern[0] == '*' {
        var k :| 0 <= k <= |s| && AllWild(s[..k], wild) && Glob(pattern[1..], s[k..], wild);
        WiderGlob(pattern[1..], s[k..], wild, wider);
        assert AllWild(s[..k], wider);
      } else {
        WiderGlob(pattern[1..], s[1..], wild, wider);
      }
    }
  }

  /** On a subject of one line that is the plain glob language; on any subject it is part of it. */
  lemma {:induction false} CompiledGlobOnOneLine(pattern: string, s: string)
    requires NoOtherMeta(pattern)
    ensures Compiled(pattern).Good?
    ensures Matches(Compiled(pattern).re, s) ==> Glob(pattern, s, Anything())
    ensures (forall i | 0 <= i < |s| :: !LineTerminator(s[i])) ==> (Matches(Compiled(pattern).re, s) <==> Glob(pattern, s, Anything()))
  {
    CompiledGlob(pattern, s);
    WiderGlob(pattern, s, OnOneLine(), Anything());
    if forall i | 0 <= i < |s| :: !LineTerminator(s[i]) {
      WiderGlob(pattern, s, Anything(), OnOneLine());
    }
  }

  /** A star does not accept every text. */
  lemma {:induction false} StarRefusesNewline()
    ensures Glob("*", "\n", Anything()) && Compiled("*").Good? && !Matches(Compiled("*").re, "\n")
  {
    var s, star := "\n", "*";
    assert star[1..] == "" && s[1..] == "" && AllWild(s[..1], Anything());
    assert Glob(star, s, Anything());
    CompiledGlob(star, s);
    forall k | 0 <= k <= 1 ensures !(AllWild(s[..k], OnOneLine()) && Glob("", s[k..], OnOneLine())) {
      if k == 1 {
        assert s[..k][0] == '\n';
      }
    }
  }

  // ----- all other patterns -----

  /** The pattern's own text: what is left without stars, with a letter for each other wildcard. */
  function Own(pattern: string): string {
    if pattern == "" then ""
    else (if pattern[0] == '*' then "" else if pattern[0] == '?' then "x" else [pattern[0]]) + Own(pattern[1..])
  }

  lemma {:induction false} OwnIsInGlob(pattern: string)
    ensures Glob(pattern, Own(pattern), OnOneLine())
  {
    if pattern != "" {
      OwnIsInGlob(pattern[1..]);
      var s := Own(pattern);
      if pattern[0] == '*' {
        assert s[0..] == s && AllWild(s[..0], OnOneLine());
      } else {
        assert s[1..] == Own(pattern[1..]);
      }
    }
  }

  /** A text in the glob's language holds every character of the pattern but the wildcards. */
  lemma {:induction false} GlobNeeds(pattern: string, s: string, c: char)
    requires Glob(pattern, s, OnOneLine()) && c in pattern && c != '*' && c != '?'
    ensures c in s
  {
    if pattern[0] == '*' {
      var k :| 0 <= k <= |s| && AllWild(s[..k], OnOneLine()) && Glob(pattern[1..], s[k..], OnOneLine());
      GlobNeeds(pattern[1..], s[k..], c);
    } else if pattern[0] != c {
      GlobNeeds(pattern[1..], s[1..], c);
    }
  }

  /** A compiled pattern has the glob's meaning. */
  ghost predicate KeepsMeaning(pattern: string) {
    Compiled(pattern).Good? && forall s :: Matches(Compiled(pattern).re, s) <==> Glob(pattern, s, OnOneLine())
  }

  /** Of all patterns that compile to an expression that is modelled, or to a syntax error, exactly those
      without other metacharacters keep the meaning of the glob. */
  lemma {:induction false} MeaningIsKept(pattern: string)
    requires Compiled(pattern) != Unmodelled
    ensures KeepsMeaning(pattern) <==> NoOtherMeta(pattern)
  {
    if NoOtherMeta(pattern) {
      CompiledGlob(pattern, "");
      forall s ensures Compiled(pattern).Good? && (Matches(Compiled(pattern).re, s) <==> Glob(pattern, s, OnOneLine())) {
        CompiledGlob(pattern, s);
      }
    } else if Compiled(pattern).Good? {
      var own := Own(pattern);
      OwnIsInGlob(pattern);
      var i :| 0 <= i < |pattern| && Meta(pattern[i]);
      if Matches(Compiled(pattern).re, own) {
        MaskedMatches("^" + Escaped(pattern) + "$", own);
        MaskedIsOutside(pattern, own, pattern[i]);
      }
    }
  }

  lemma {:induction false} MaskedIsOutside(pattern: string, s: string, c: char)
    requires c in pattern && Meta(c)
    ensures !Glob(pattern, Masked(s), OnOneLine())
  {
    if Glob(pattern, Masked(s), OnOneLine()) {
      GlobNeeds(pattern, Masked(s), c);
    }
  }

  lemma {:induction false} PlusCompiles()
    ensures Compiled("a+") == Good(Then(Begin, Then(Plus(Literal('a')), Then(End, Empty))), "")
  {
    EscapedIsTranslated("a+");
    assert "a+"[1..] == "+" && "+"[1..] == "";
    assert Translated("+") == "+" && Translated("a+") == "a+";
    PlusParses("^" + Escaped("a+") + "$", "a+$", "+$", "$");
  }

  lemma {:induction false} PlusParses(source: string, one: string, two: string, three: string)
    requires source == "^" + one && one == "a" + two && two == "+" + three && three == "$"
    ensures Parse(source) == Good(Then(Begin, Then(Plus(Literal('a')), Then(End, Empty))), "")
  {
    assert source[1..] == one && one[1..] == two && two[1..] == three && three[1..] == "";
    assert ParseSequence(three) == Good(Then(End, Empty), "");
    assert ParseTerm(one) == Good(Plus(Literal('a')), three);
    assert ParseSequence(one) == Good(Then(Plus(Literal('a')), Then(End, Empty)), "");
    assert ParseTerm(source) == Good(Begin, one);
    assert ParseSequence(source) == Good(Then(Begin, Then(Plus(Literal('a')), Then(End, Empty))), "");
  }

  lemma {:induction false} LettersRepeat(s: string, c: char, i: nat, j: nat)
    requires i <= j <= |s|
    ensures Repeats(Literal(c), s, i, j) <==> forall k | i <= k < j :: s[k] == c
    decreases j - i
  {
    if i < j {
      LettersRepeat(s, c, i + 1, j);
      assert Spans(Literal(c), s, i, i + 1) <==> s[i] == c;
    }
  }

  /** A plus in a glob repeats the character before it: the pattern "a+" accepts "a" and refuses its own text. */
  lemma {:induction false} PlusRefusesItself()
    ensures Compiled("a+").Good?
    ensures Glob("a+", "a+", OnOneLine()) && !Matches(Compiled("a+").re, "a+")
    ensures !Glob("a+", "a", OnOneLine()) && Matches(Compiled("a+").re, "a")
  {
    PlusCompiles();
    var end := Then(End, Empty);
    var tail := Then(Plus(Literal('a')), end);
    var re := Then(Begin, tail);
    forall s: string, i: nat, j: nat | i <= j <= |s|
      ensures Spans(re, s, i, j) <==> i == 0 && j == |s| && |s| > 0 && forall k | 0 <= k < |s| :: s[k] == 'a'
    {
      ThenSpans(re, s, i, j);
      ThenSpans(tail, s, 0, j);
      PlusToEnd(s, j);
      assert i == 0 && Spans(tail, s, 0, j) ==> Meets(re, s, 0, 0, j);
    }
    OwnIsInGlob("a+");
    assert "a+"[1..] == "+" && "+"[1..] == "" && Own("+") == "+" && Own("a+") == "a+";
    assert "a"[1..] == "";
    assert Spans(re, "a", 0, 1);
    assert "a+"[1] == '+';
  }

  lemma {:induction false} PlusToEnd(s: string, j: nat)
    requires j <= |s|
    ensures Spans(Then(Plus(Literal('a')), Then(End, Empty)), s, 0, j)
       <==> j == |s| && |s| > 0 && forall k | 0 <= k < |s| :: s[k] == 'a'
  {
    var end := Then(End, Empty);
    var re := Then(Plus(Literal('a')), end);
    ThenSpans(re, s, 0, j);
    forall k: nat | k <= j
      ensures Spans(end, s, k, j) <==> k == j == |s|
      ensures Spans(Plus(Literal('a')), s, 0, k) <==> k > 0 && forall n | 0 <= n < k :: s[n] == 'a'
    {
      ThenSpans(end, s, k, j);
      assert k == j ==> (Meets(end, s, k, k, j) <==> k == |s|);
      if k > 0 {
        LettersRepeat(s, 'a', 1, k);
        assert Spans(Literal('a'), s, 0, 1) <==> s[0] == 'a';
      }
    }
    assert j == |s| && Spans(Plus(Literal('a')), s, 0, j) ==> Meets(re, s, 0, j, j);
  }
}
