/** The regular expressions that globs compile to: characters, dots, groups, alternatives, the two anchors,
    and the quantifiers "*" and "+". Character classes and braces are not modelled; the other syntax and
    the meaning are those of ECMAScript without flags. */
module RegularExpressions {
  const BACKSLASH := '\\'

  datatype Re =
    | Empty | Begin | End | Literal(c: char) | Dot
    | Then(first: Re, second: Re) | Either(left: Re, right: Re)
    | Star(inner: Re) | Plus(inner: Re)

  // ----- syntax -----

  /** An expression and what follows it. */
  datatype Parsed = Good(re: Re, rest: string) | SyntaxError | Unmodelled

  function ParseAtom(s: string): (p: Parsed)
    requires s != ""
    ensures p.Good? ==> |p.rest| < |s|
    decreases |s|, 0
  {
    if s[0] == '(' then
      match ParseEither(s[1..])
      case Good(re, rest) => if rest != "" && rest[0] == ')' then Good(re, rest[1..]) else SyntaxError
      case failed => failed
    else if s[0] == BACKSLASH then
      if |s| >= 2 && (s[1] == BACKSLASH || s[1] == '.') then Good(Literal(s[1]), s[2..]) else Unmodelled
    else if s[0] == '.' then Good(Dot, s[1..])
    else Good(Literal(s[0]), s[1..])
  }

  function Quantified(atom: Re, rest: string): (p: Parsed)
    ensures p.Good? && |p.rest| <= |rest|
  {
    if rest != "" && rest[0] == '*' then Good(Star(atom), rest[1..])
    else if rest != "" && rest[0] == '+' then Good(Plus(atom), rest[1..])
    else Good(atom, rest)
  }

  /** A quantifier where no atom stands before it is an error. */
  function ParseTerm(s: string): (p: Parsed)
    requires s != "" && s[0] != '|' && s[0] != ')'
    ensures p.Good? ==> |p.rest| < |s|
    decreases |s|, 1
  {
    if s[0] == '*' || s[0] == '+' then SyntaxError
    else if s[0] == '[' || s[0] == '{' || s[0] == '?' then Unmodelled
    else if s[0] == '^' then Good(Begin, s[1..])
    else if s[0] == '$' then Good(End, s[1..])
    else
      match ParseAtom(s)
      case Good(atom, rest) => Quantified(atom, rest)
      case failed => failed
  }

  function ParseSequence(s: string): (p: Parsed)
    ensures p.Good? ==> |p.rest| <= |s|
    decreases |s|, 2
  {
    if s == "" || s[0] == '|' || s[0] == ')' then Good(Empty, s)
    else
      match ParseTerm(s)
      case Good(term, rest) =>
        (match ParseSequence(rest)
         case Good(re, after) => Good(Then(term, re), after)
         case failed => failed)
      case failed => failed
  }

  function ParseEither(s: string): (p: Parsed)
    ensures p.Good? ==> |p.rest| <= |s|
    decreases |s|, 3
  {
    match ParseSequence(s)
    case Good(left, rest) =>
      if rest != "" && rest[0] == '|' then
        match ParseEither(rest[1..])
        case Good(right, after) => Good(Either(left, right), after)
        case failed => failed
      else Good(left, rest)
    case failed => failed
  }

  /** `new RegExp(source)`. */
  function Parse(source: string): Parsed {
    match ParseEither(source)
    case Good(re, rest) => if rest == "" then Good(re, rest) else SyntaxError
    case failed => failed
  }

  // ----- meaning -----

  predicate LineTerminator(c: char) {
    c == '\n' || c == '\r' || c == '\U{2028}' || c == '\U{2029}'
  }

  /** The expression matches the part of the text from i to before j. */
  predicate Spans(re: Re, s: string, i: nat, j: nat)
    requires i <= j <= |s|
    decreases re, j - i, 0
  {
    match re
    case Empty => i == j
    case Begin => i == j == 0
    case End => i == j == |s|
    case Literal(c) => j == i + 1 && s[i] == c
    case Dot => j == i + 1 && !LineTerminator(s[i])
    case Then(first, second) => exists k: nat | i <= k <= j :: Spans(first, s, i, k) && Spans(second, s, k, j)
    case Either(left, right) => Spans(left, s, i, j) || Spans(right, s, i, j)
    case Star(inner) => Repeats(inner, s, i, j)
    case Plus(inner) => exists k: nat | i <= k <= j :: Spans(inner, s, i, k) && Repeats(inner, s, k, j)
  }

  predicate Repeats(re: Re, s: string, i: nat, j: nat)
    requires i <= j <= |s|
    decreases re, j - i, 1
  {
    i == j || exists k: nat | i < k <= j :: Spans(re, s, i, k) && Repeats(re, s, k, j)
  }

  /** The two parts of a sequence meet at k. */
  predicate Meets(re: Re, s: string, i: nat, k: nat, j: nat)
    requires re.Then? && i <= j <= |s|
  {
    i <= k <= j && Spans(re.first, s, i, k) && Spans(re.second, s, k, j)
  }

  lemma {:induction false} ThenSplits(re: Re, s: string, i: nat, j: nat) returns (k: nat)
    requires re.Then? && i <= j <= |s| && Spans(re, s, i, j)
    ensures Meets(re, s, i, k, j)
  {
    match re
    case Then(first, second) =>
      k :| i <= k <= j && Spans(first, s, i, k) && Spans(second, s, k, j);
  }

  lemma {:induction false} ThenJoins(re: Re, s: string, i: nat, k: nat, j: nat)
    requires re.Then? && i <= j <= |s| && Meets(re, s, i, k, j)
    ensures Spans(re, s, i, j)
  {
  }

  lemma {:induction false} ThenSpans(re: Re, s: string, i: nat, j: nat)
    requires re.Then? && i <= j <= |s|
    ensures Spans(re, s, i, j) <==> exists k: nat :: Meets(re, s, i, k, j)
  {
    if Spans(re, s, i, j) {
      var k := ThenSplits(re, s, i, j);
    }
    if k: nat :| Meets(re, s, i, k, j) {
      ThenJoins(re, s, i, k, j);
    }
  }

  /** `.test(s)`: some part of the text is matched. */
  predicate Matches(re: Re, s: string) {
    exists i: nat, j: nat | i <= j <= |s| :: Spans(re, s, i, j)
  }

  // ----- what is matched literally -----

  /** The characters that never stand for themselves in the syntax. */
  predicate Meta(c: char) {
    c == '^' || c == '$' || c == '+' || c == '(' || c == ')' || c == '|' || c == '[' || c == '{'
  }

  predicate NoMetaLiterals(re: Re) {
    match re
    case Literal(c) => !Meta(c)
    case Then(first, second) => NoMetaLiterals(first) && NoMetaLiterals(second)
    case Either(left, right) => NoMetaLiterals(left) && NoMetaLiterals(right)
    case Star(inner) => NoMetaLiterals(inner)
    case Plus(inner) => NoMetaLiterals(inner)
    case _ => true
  }

  lemma {:induction false} AtomHasNone(s: string)
    requires s != "" && (!Meta(s[0]) || s[0] == '(') && ParseAtom(s).Good?
    ensures NoMetaLiterals(ParseAtom(s).re)
    decreases |s|, 0
  {
    if s[0] == '(' {
      EitherHasNone(s[1..]);
    }
  }

  lemma {:induction false} TermHasNone(s: string)
    requires s != "" && s[0] != '|' && s[0] != ')' && ParseTerm(s).Good?
    ensures NoMetaLiterals(ParseTerm(s).re)
    decreases |s|, 1
  {
    if s[0] != '^' && s[0] != '$' {
      AtomHasNone(s);
    }
  }

  lemma {:induction false} SequenceHasNone(s: string)
    requires ParseSequence(s).Good?
    ensures NoMetaLiterals(ParseSequence(s).re)
    decreases |s|, 2
  {
    if s != "" && s[0] != '|' && s[0] != ')' {
      TermHasNone(s);
      SequenceHasNone(ParseTerm(s).rest);
    }
  }

  lemma {:induction false} EitherHasNone(s: string)
    requires ParseEither(s).Good?
    ensures NoMetaLiterals(ParseEither(s).re)
    decreases |s|, 3
  {
    SequenceHasNone(s);
    var rest := ParseSequence(s).rest;
    if rest != "" && rest[0] == '|' {
      EitherHasNone(rest[1..]);
    }
  }

  /** The text with every such character replaced by a letter. */
  function Masked(s: string): (m: string)
    ensures |m| == |s| && forall i | 0 <= i < |s| :: m[i] == (if Meta(s[i]) then 'x' else s[i])
  {
    seq(|s|, i requires 0 <= i < |s| => if Meta(s[i]) then 'x' else s[i])
  }

  /** An expression whose literals are none of them cannot tell. */
  lemma {:induction false} MaskedSpans(re: Re, s: string, i: nat, j: nat)
    requires NoMetaLiterals(re) && i <= j <= |s| && Spans(re, s, i, j)
    ensures Spans(re, Masked(s), i, j)
    decreases re, j - i, 0
  {
    match re
    case Then(first, second) =>
      var k: nat :| i <= k <= j && Spans(first, s, i, k) && Spans(second, s, k, j);
      MaskedSpans(first, s, i, k);
      MaskedSpans(second, s, k, j);
    case Either(left, right) =>
      if Spans(left, s, i, j) {
        MaskedSpans(left, s, i, j);
      } else {
        MaskedSpans(right, s, i, j);
      }
    case Star(inner) => MaskedRepeats(inner, s, i, j);
    case Plus(inner) =>
      var k: nat :| i <= k <= j && Spans(inner, s, i, k) && Repeats(inner, s, k, j);
      MaskedSpans(inner, s, i, k);
      MaskedRepeats(inner, s, k, j);
    case _ =>
  }

  lemma {:induction false} MaskedRepeats(re: Re, s: string, i: nat, j: nat)
    requires NoMetaLiterals(re) && i <= j <= |s| && Repeats(re, s, i, j)
    ensures Repeats(re, Masked(s), i, j)
    decreases re, j - i, 1
  {
    if i != j {
      var k: nat :| i < k <= j && Spans(re, s, i, k) && Repeats(re, s, k, j);
      MaskedSpans(re, s, i, k);
      MaskedRepeats(re, s, k, j);
    }
  }

  /** What a parsed expression accepts, it accepts masked. */
  lemma {:induction false} MaskedMatches(source: string, s: string)
    requires Parse(source).Good? && Matches(Parse(source).re, s)
    ensures Matches(Parse(source).re, Masked(s))
  {
    EitherHasNone(source);
    var i: nat, j: nat :| i <= j <= |s| && Spans(Parse(source).re, s, i, j);
    MaskedSpans(Parse(source).re, s, i, j);
  }
}
