/** Which approval rule decides about a tool call, before and at execution. */
module ApprovalRules {
  import opened Text
  import opened RegularExpressions
  import opened GlobPattern

  datatype Effect = Allow | Deny | RequireApproval
  datatype ScopeType = WorkflowRun | ChatSession | Project | ScopeNode | AgentProfile | Global

  datatype Operator = Eq | Contains | GlobOp | Regex
  datatype Pattern = Pattern(path: string, operator: Operator, value: string)

  /** A rule without patterns has none or an empty list of them. */
  datatype Rule = Rule(
    id: string, scopeType: ScopeType, scopeId: Option<string>, effect: Effect, priority: int, patterns: seq<Pattern>)

  datatype Context = Context(
    scopeId: Option<string>, workflowRunId: Option<string>, chatSessionId: Option<string>, agentProfile: Option<string>)

  /** A value of the payload: a string, number, boolean or bigint as it prints, or anything else. */
  datatype Value = Scalar(text: string) | Other

  type Payload = map<string, Value>

  /** `new RegExp(source).test(text)`. */
  type RegexTest = (string, string) -> bool

  predicate MatchesPattern(payload: Payload, p: Pattern, regex: RegexTest) {
    p.path in payload && payload[p.path].Scalar? &&
    var s := payload[p.path].text;
    match p.operator
    case Eq => s == p.value
    case Contains => Includes(s, p.value)
    case GlobOp => regex("^" + Escaped(p.value) + "$", s)
    case Regex => regex(p.value, s)
  }

  /** The expressions modelled match as is described there. */
  ghost predicate FollowsRegex(regex: RegexTest) {
    forall source, s | Parse(source).Good? :: regex(source, s) == Matches(Parse(source).re, s)
  }

  ghost predicate InGlob(payload: Payload, p: Pattern) {
    p.path in payload && payload[p.path].Scalar? && Glob(p.value, payload[p.path].text, OnOneLine())
  }

  /** A glob pattern without other metacharacters accepts a scalar exactly when it is in the glob's language. */
  lemma {:induction false} GlobRule(payload: Payload, p: Pattern, regex: RegexTest)
    requires p.operator.GlobOp? && NoOtherMeta(p.value) && FollowsRegex(regex)
    ensures MatchesPattern(payload, p, regex) <==> InGlob(payload, p)
  {
    if p.path in payload && payload[p.path].Scalar? {
      CompiledGlob(p.value, payload[p.path].text);
    }
  }

  /** Of the glob patterns that compile, exactly those without other metacharacters do so on every payload. */
  lemma {:induction false} GlobRuleIsExact(p: Pattern, regex: RegexTest)
    requires p.operator.GlobOp? && Compiled(p.value).Good? && FollowsRegex(regex)
    ensures (forall payload :: MatchesPattern(payload, p, regex) <==> InGlob(payload, p)) <==> NoOtherMeta(p.value)
  {
    if NoOtherMeta(p.value) {
      forall payload ensures MatchesPattern(payload, p, regex) <==> InGlob(payload, p) {
        GlobRule(payload, p, regex);
      }
    } else {
      MeaningIsKept(p.value);
      var s :| Matches(Compiled(p.value).re, s) != Glob(p.value, s, OnOneLine());
      var payload: Payload := map[p.path := Scalar(s)];
      assert MatchesPattern(payload, p, regex) <==> Matches(Compiled(p.value).re, s);
      assert InGlob(payload, p) <==> Glob(p.value, s, OnOneLine());
    }
  }

  predicate RuleMatchesScope(r: Rule, c: Context, ancestorIds: set<string>) {
    match r.scopeType
    case Global => true
    case Project => c.scopeId.Some? && c.scopeId == r.scopeId
    case ScopeNode => r.scopeId.Some? && r.scopeId.value in ancestorIds
    case AgentProfile => c.agentProfile.Some? && c.agentProfile == r.scopeId
    case WorkflowRun => c.workflowRunId.Some? && c.workflowRunId == r.scopeId
    case ChatSession => c.chatSessionId.Some? && c.chatSessionId == r.scopeId
  }

  function ScopePriority(t: ScopeType): real {
    match t
    case WorkflowRun => 5.0
    case ChatSession => 4.0
    case Project => 3.0
    case AgentProfile => 2.0
    case ScopeNode => 2.5
    case Global => 1.0
  }

  /** `a` comes before `b` whatever the order they were loaded in. */
  predicate Beats(a: Rule, b: Rule) {
    ScopePriority(a.scopeType) > ScopePriority(b.scopeType)
    || (ScopePriority(a.scopeType) == ScopePriority(b.scopeType) && a.priority > b.priority)
  }

  /** Puts a rule before the rules it is not beaten by. */
  function Insert(r: Rule, rules: seq<Rule>): seq<Rule> {
    if rules == [] then [r]
    else if Beats(rules[0], r) then [rules[0]] + Insert(r, rules[1..])
    else [r] + rules
  }

  /** The rules sorted by the source's comparison; rules it ranks the same keep their order. */
  function Sorted(rules: seq<Rule>): seq<Rule> {
    if rules == [] then [] else Insert(rules[0], Sorted(rules[1..]))
  }

  function Scoped(c: Context, ancestorIds: set<string>): Rule -> bool {
    (r: Rule) => RuleMatchesScope(r, c, ancestorIds)
  }

  function Filter(rules: seq<Rule>, keep: Rule -> bool): seq<Rule> {
    if rules == [] then [] else (if keep(rules[0]) then [rules[0]] else []) + Filter(rules[1..], keep)
  }

  function First(rules: seq<Rule>, good: Rule -> bool): Option<Rule> {
    if rules == [] then None else if good(rules[0]) then Some(rules[0]) else First(rules[1..], good)
  }

  function Patternless(): Rule -> bool {
    (r: Rule) => r.patterns == []
  }

  function Accepts(payload: Payload, regex: RegexTest): Rule -> bool {
    (r: Rule) => forall i | 0 <= i < |r.patterns| :: MatchesPattern(payload, r.patterns[i], regex)
  }

  function Preflight(rules: seq<Rule>, c: Context, ancestorIds: set<string>): Option<Rule> {
    var scoped := Sorted(Filter(rules, Scoped(c, ancestorIds)));
    var firstNoPattern := First(scoped, Patternless());
    if firstNoPattern.Some? && firstNoPattern.value.effect == Deny && exists i | 0 <= i < |scoped| :: scoped[i].patterns != []
    then None
    else firstNoPattern
  }

  function Execution(rules: seq<Rule>, c: Context, payload: Payload, regex: RegexTest,
          ancestorIds: set<string>): Option<Rule> {
    First(Sorted(Filter(rules, Scoped(c, ancestorIds))), Accepts(payload, regex))
  }

  /** Filters, sorts and looks for the first rule that decides; without a payload the search is for a
      rule without patterns. */
  method FindBestMatchingRule(rules: seq<Rule>, c: Context, payload: Option<Payload>, regex: RegexTest,
          ancestorIds: set<string>)
    returns (best: Option<Rule>)
    ensures best == match payload
                    case None => Preflight(rules, c, ancestorIds)
                    case Some(values) => Execution(rules, c, values, regex, ancestorIds)
  {
    var scoped := Sorted(Filter(rules, Scoped(c, ancestorIds)));
    if payload.None? {
      var hasArgumentRules := exists i | 0 <= i < |scoped| :: scoped[i].patterns != [];
      var firstNoPattern := First(scoped, Patternless());
      if firstNoPattern.Some? && firstNoPattern.value.effect == Deny && hasArgumentRules {
        return None;
      }
      return firstNoPattern;
    }
    for n := 0 to |scoped|
      invariant First(scoped, Accepts(payload.value, regex)) == First(scoped[n..], Accepts(payload.value, regex))
    {
      var rule := scoped[n];
      if rule.patterns == [] {
        return Some(rule);
      }
      if forall i | 0 <= i < |rule.patterns| :: MatchesPattern(payload.value, rule.patterns[i], regex) {
        return Some(rule);
      }
    }
    return None;
  }

  /** The scopes from the narrowest to the widest. */
  function Width(t: ScopeType): nat {
    match t case WorkflowRun => 0 case ChatSession => 1 case Project => 2 case ScopeNode => 3 case AgentProfile => 4 case Global => 5
  }

  /** A rule of a narrower scope beats any rule of a wider one, whatever their priorities; within a
      scope the priority decides. */
  lemma {:induction false} NarrowerScopeBeats(a: Rule, b: Rule)
    ensures Beats(a, b)
       <==> Width(a.scopeType) < Width(b.scopeType) || (a.scopeType == b.scopeType && a.priority > b.priority)
  {
  }

  // ----- sorting and searching is choosing the best -----

  predicate InOrder(rules: seq<Rule>) {
    forall i, j | 0 <= i < j < |rules| :: !Beats(rules[j], rules[i])
  }

  lemma {:induction false} InsertElements(r: Rule, rules: seq<Rule>)
    ensures multiset(Insert(r, rules)) == multiset{r} + multiset(rules)
  {
    if rules != [] {
      assert rules == [rules[0]] + rules[1..];
      if Beats(rules[0], r) {
        InsertElements(r, rules[1..]);
      }
    }
  }

  lemma {:induction false} SortedElements(rules: seq<Rule>)
    ensures multiset(Sorted(rules)) == multiset(rules)
  {
    if rules != [] {
      assert rules == [rules[0]] + rules[1..];
      SortedElements(rules[1..]);
      InsertElements(rules[0], Sorted(rules[1..]));
    }
  }

  lemma {:induction false} InsertInOrder(r: Rule, rules: seq<Rule>)
    requires InOrder(rules)
    ensures InOrder(Insert(r, rules))
  {
    if rules != [] && Beats(rules[0], r) {
      InsertInOrder(r, rules[1..]);
      InsertElements(r, rules[1..]);
      var rest := Insert(r, rules[1..]);
      forall j | 0 <= j < |rest| ensures !Beats(rest[j], rules[0]) {
        assert rest[j] in multiset(rest);
        assert rest[j] == r || rest[j] in rules[1..];
      }
    }
  }

  lemma {:induction false} SortedInOrder(rules: seq<Rule>)
    ensures InOrder(Sorted(rules))
  {
    if rules != [] {
      SortedInOrder(rules[1..]);
      InsertInOrder(rules[0], Sorted(rules[1..]));
    }
  }

  lemma {:induction false} FirstInsert(r: Rule, rules: seq<Rule>, good: Rule -> bool)
    requires InOrder(rules)
    ensures var before := First(rules, good);
            First(Insert(r, rules), good)
            == if good(r) && !(before.Some? && Beats(before.value, r)) then Some(r) else before
  {
    if rules != [] {
      if Beats(rules[0], r) {
        FirstInsert(r, rules[1..], good);
        assert ([rules[0]] + Insert(r, rules[1..]))[1..] == Insert(r, rules[1..]);
      } else {
        assert ([r] + rules)[1..] == rules;
        FirstIsThere(rules, good);
      }
    }
  }

  lemma {:induction false} FirstIsThere(rules: seq<Rule>, good: Rule -> bool)
    ensures First(rules, good).None? <==> forall i | 0 <= i < |rules| :: !good(rules[i])
    ensures First(rules, good).Some? ==> First(rules, good).value in rules && good(First(rules, good).value)
  {
    if rules != [] && !good(rules[0]) {
      FirstIsThere(rules[1..], good);
      assert rules == [rules[0]] + rules[1..];
    }
  }

  /** The best rule in one pass: a rule stays unless a later one beats it. */
  function BestOf(rules: seq<Rule>, inScope: Rule -> bool, good: Rule -> bool): Option<Rule> {
    if rules == [] then None
    else
      var later := BestOf(rules[1..], inScope, good);
      if inScope(rules[0]) && good(rules[0]) && !(later.Some? && Beats(later.value, rules[0])) then Some(rules[0]) else later
  }

  /** Filtering, sorting and taking the first good rule is choosing the best in one pass. */
  lemma {:induction false} SortingFindsBest(rules: seq<Rule>, inScope: Rule -> bool, good: Rule -> bool)
    ensures First(Sorted(Filter(rules, inScope)), good) == BestOf(rules, inScope, good)
  {
    if rules != [] {
      var scoped := Filter(rules[1..], inScope);
      SortingFindsBest(rules[1..], inScope, good);
      SortedInOrder(scoped);
      FirstInsert(rules[0], Sorted(scoped), good);
      if inScope(rules[0]) {
        assert ([rules[0]] + scoped)[1..] == scoped;
      } else {
        assert [] + scoped == scoped;
      }
    }
  }

  /** The rule at `i` is in scope and good, beats every such rule before it and is beaten by none. */
  ghost predicate Best(rules: seq<Rule>, inScope: Rule -> bool, good: Rule -> bool, i: nat) {
    && i < |rules| && inScope(rules[i]) && good(rules[i])
    && (forall j | 0 <= j < |rules| && inScope(rules[j]) && good(rules[j]) ::
          !Beats(rules[j], rules[i]) && (j < i ==> Beats(rules[i], rules[j])))
  }

  lemma {:induction false} BestOfIsBest(rules: seq<Rule>, inScope: Rule -> bool, good: Rule -> bool) returns (i: nat)
    ensures var r := BestOf(rules, inScope, good);
            if r.Some? then Best(rules, inScope, good, i) && r.value == rules[i]
            else forall j | 0 <= j < |rules| :: !(inScope(rules[j]) && good(rules[j]))
  {
    i := 0;
    if rules != [] {
      var rest := rules[1..];
      var k := BestOfIsBest(rest, inScope, good);
      assert forall j | 0 < j < |rules| :: rules[j] == rest[j - 1];
      if BestOf(rules, inScope, good) == BestOf(rest, inScope, good) && BestOf(rest, inScope, good).Some?
         && !(inScope(rules[0]) && good(rules[0]) && !Beats(rest[k], rules[0])) {
        i := k + 1;
      }
    }
  }

  /** Execution, and preflight where it is not undecided, choose the best rule; among rules that rank
      the same the one loaded first is chosen. None is found only when none is good. */
  lemma {:induction false} Selection(rules: seq<Rule>, inScope: Rule -> bool, good: Rule -> bool) returns (i: nat)
    ensures var r := First(Sorted(Filter(rules, inScope)), good);
            if r.Some? then Best(rules, inScope, good, i) && r.value == rules[i]
            else forall j | 0 <= j < |rules| :: !(inScope(rules[j]) && good(rules[j]))
  {
    SortingFindsBest(rules, inScope, good);
    i := BestOfIsBest(rules, inScope, good);
  }

  lemma {:induction false} BestIsUnique(rules: seq<Rule>, inScope: Rule -> bool, good: Rule -> bool, i: nat, j: nat)
    requires Best(rules, inScope, good, i) && Best(rules, inScope, good, j)
    ensures i == j
  {
  }

  lemma {:induction false} FilterElements(rules: seq<Rule>, keep: Rule -> bool, r: Rule)
    ensures r in Filter(rules, keep) <==> r in rules && keep(r)
  {
    if rules != [] {
      FilterElements(rules[1..], keep, r);
      assert rules == [rules[0]] + rules[1..];
    }
  }

  lemma {:induction false} SortedFilterElements(rules: seq<Rule>, keep: Rule -> bool, r: Rule)
    ensures r in Sorted(Filter(rules, keep)) <==> r in rules && keep(r)
  {
    FilterElements(rules, keep, r);
    SortedElements(Filter(rules, keep));
    assert r in multiset(Sorted(Filter(rules, keep))) <==> r in multiset(Filter(rules, keep));
  }

  lemma {:induction false} AllPatternless(rules: seq<Rule>, keep: Rule -> bool)
    ensures var scoped := Sorted(Filter(rules, keep));
            (exists i | 0 <= i < |scoped| :: scoped[i].patterns != [])
            <==> exists i | 0 <= i < |rules| :: keep(rules[i]) && rules[i].patterns != []
  {
    var scoped := Sorted(Filter(rules, keep));
    if i :| 0 <= i < |scoped| && scoped[i].patterns != [] {
      SortedFilterElements(rules, keep, scoped[i]);
    }
    if i :| 0 <= i < |rules| && keep(rules[i]) && rules[i].patterns != [] {
      SortedFilterElements(rules, keep, rules[i]);
    }
  }

  /** Preflight denies exactly when every rule in scope is without patterns and the best one denies. */
  lemma {:induction false} PreflightDenies(rules: seq<Rule>, c: Context, ancestorIds: set<string>)
    ensures var inScope := Scoped(c, ancestorIds);
            var r := Preflight(rules, c, ancestorIds);
            (r.Some? && r.value.effect == Deny)
            <==> && (forall i | 0 <= i < |rules| && inScope(rules[i]) :: rules[i].patterns == [])
                 && exists i | 0 <= i < |rules| :: Best(rules, inScope, Patternless(), i) && rules[i].effect == Deny
  {
    var inScope := Scoped(c, ancestorIds);
    AllPatternless(rules, inScope);
    var i := Selection(rules, inScope, Patternless());
    if k :| 0 <= k < |rules| && Best(rules, inScope, Patternless(), k) && rules[k].effect == Deny {
      BestIsUnique(rules, inScope, Patternless(), i, k);
    }
  }

  /** When preflight denies, execution finds the same rule whatever the payload: nothing is denied
      beforehand that some payload could use. */
  lemma {:induction false} PreflightIsExecution(rules: seq<Rule>, c: Context, ancestorIds: set<string>,
          payload: Payload, regex: RegexTest)
    requires Preflight(rules, c, ancestorIds).Some? && Preflight(rules, c, ancestorIds).value.effect == Deny
    ensures Execution(rules, c, payload, regex, ancestorIds) == Preflight(rules, c, ancestorIds)
  {
  }

  /** The ancestors are looked up only when some rule is about a scope node and the call has a scope. */
  function ResolveAncestorIds(rules: seq<Rule>, c: Context, ancestorsOf: string -> set<string>): set<string> {
    if (exists i | 0 <= i < |rules| :: rules[i].scopeType.ScopeNode?) && c.scopeId.Some? && c.scopeId.value != ""
    then ancestorsOf(c.scopeId.value) else {}
  }

  lemma {:induction false} AncestorsUnused(rules: seq<Rule>, c: Context, a: set<string>, b: set<string>)
    requires forall i | 0 <= i < |rules| :: !rules[i].scopeType.ScopeNode?
    ensures Filter(rules, Scoped(c, a)) == Filter(rules, Scoped(c, b))
  {
    if rules != [] {
      AncestorsUnused(rules[1..], c, a, b);
    }
  }

  /** Leaving the lookup out changes no decision. */
  lemma {:induction false} LazyAncestors(rules: seq<Rule>, c: Context, ancestorsOf: string -> set<string>,
          payload: Payload, regex: RegexTest)
    requires c.scopeId.Some? && c.scopeId.value != ""
    ensures Preflight(rules, c, ResolveAncestorIds(rules, c, ancestorsOf)) == Preflight(rules, c, ancestorsOf(c.scopeId.value))
    ensures Execution(rules, c, payload, regex, ResolveAncestorIds(rules, c, ancestorsOf))
         == Execution(rules, c, payload, regex, ancestorsOf(c.scopeId.value))
  {
    if forall i | 0 <= i < |rules| :: !rules[i].scopeType.ScopeNode? {
      AncestorsUnused(rules, c, {}, ancestorsOf(c.scopeId.value));
    }
  }

  /** The lookup is made exactly when a rule is about a scope node and the call names a scope. */
  lemma {:induction false} LookupWhenNeeded(rules: seq<Rule>, c: Context)
    ensures (forall f, g :: ResolveAncestorIds(rules, c, f) == ResolveAncestorIds(rules, c, g))
       <==> (forall r | r in rules :: r.scopeType != ScopeNode) || c.scopeId == None || c.scopeId == Some("")
    ensures c.scopeId == None || c.scopeId == Some("") ==> forall f :: ResolveAncestorIds(rules, c, f) == {}
  {
    var f, g := (s: string) => {}, (s: string) => {s};
    if forall f, g :: ResolveAncestorIds(rules, c, f) == ResolveAncestorIds(rules, c, g) {
      assert ResolveAncestorIds(rules, c, f) == ResolveAncestorIds(rules, c, g);
      if c.scopeId.Some? {
        assert f(c.scopeId.value) == {} && c.scopeId.value in g(c.scopeId.value);
      }
    }
  }

  // ----- the decision, read off the call -----

  /** The places a call is made from: its run, its session, its project and that project's ancestors, its agent. */
  function Places(c: Context, ancestorIds: set<string>): set<(ScopeType, string)> {
    (if c.workflowRunId.Some? then {(WorkflowRun, c.workflowRunId.value)} else {})
    + (if c.chatSessionId.Some? then {(ChatSession, c.chatSessionId.value)} else {})
    + (if c.scopeId.Some? then {(Project, c.scopeId.value)} else {})
    + (if c.agentProfile.Some? then {(AgentProfile, c.agentProfile.value)} else {})
    + (set id | id in ancestorIds :: (ScopeNode, id))
  }

  /** A rule governs the calls made from the place it names, and a global rule all of them. */
  predicate Governs(r: Rule, c: Context, ancestorIds: set<string>) {
    r.scopeType == Global || (r.scopeId.Some? && (r.scopeType, r.scopeId.value) in Places(c, ancestorIds))
  }

  lemma {:induction false} ScopeIsPlace(r: Rule, c: Context, ancestorIds: set<string>)
    ensures RuleMatchesScope(r, c, ancestorIds) <==> Governs(r, c, ancestorIds)
  {
  }

  /** An argument is accepted only if it is there and is a scalar: the value itself, a text around the
      value, or a text the expression accepts. */
  ghost predicate Fits(payload: Payload, p: Pattern, regex: RegexTest) {
    exists text :: p.path in payload && payload[p.path] == Scalar(text)
      && match p.operator {
           case Eq => text == p.value
           case Contains => Around(text, p.value)
           case GlobOp => regex("^" + Escaped(p.value) + "$", text)
           case Regex => regex(p.value, text)
         }
  }

  ghost predicate Around(text: string, value: string) {
    exists before: string, after: string :: text == before + value + after
  }

  lemma {:induction false} IncludesIsAround(text: string, value: string)
    ensures Includes(text, value) <==> Around(text, value)
  {
    if Includes(text, value) {
      var i :| 0 <= i <= |text| && OccursAt(text, value, i);
      assert text == text[..i] + value + text[i + |value|..];
    }
    if before: string, after: string :| text == before + value + after {
      assert OccursAt(text, value, |before|);
    }
  }

  lemma {:induction false} PatternFits(payload: Payload, p: Pattern, regex: RegexTest)
    ensures MatchesPattern(payload, p, regex) <==> Fits(payload, p, regex)
  {
    if p.path in payload && payload[p.path].Scalar? {
      IncludesIsAround(payload[p.path].text, p.value);
    }
  }

  ghost predicate Applies(r: Rule, c: Context, payload: Payload, regex: RegexTest, ancestorIds: set<string>) {
    Governs(r, c, ancestorIds) && forall p | p in r.patterns :: Fits(payload, p, regex)
  }

  /** A narrower scope ranks higher, then a higher priority. */
  predicate Outranks(a: Rule, b: Rule) {
    Width(a.scopeType) < Width(b.scopeType) || (a.scopeType == b.scopeType && a.priority > b.priority)
  }

  /** At execution the answer is the rule that applies, outranks every one that applies and was loaded
      before it, and is outranked by none; there is no answer only when no rule applies. */
  lemma {:induction false} ExecutionDecides(rules: seq<Rule>, c: Context, payload: Payload, regex: RegexTest,
          ancestorIds: set<string>) returns (i: nat)
    ensures var r := Execution(rules, c, payload, regex, ancestorIds);
            if r.None? then forall j | 0 <= j < |rules| :: !Applies(rules[j], c, payload, regex, ancestorIds)
            else && i < |rules| && r.value == rules[i] && Applies(rules[i], c, payload, regex, ancestorIds)
                 && forall j | 0 <= j < |rules| && Applies(rules[j], c, payload, regex, ancestorIds) ::
                      !Outranks(rules[j], rules[i]) && (j < i ==> Outranks(rules[i], rules[j]))
  {
    i := Selection(rules, Scoped(c, ancestorIds), Accepts(payload, regex));
    forall r: Rule
      ensures Scoped(c, ancestorIds)(r) && Accepts(payload, regex)(r) <==> Applies(r, c, payload, regex, ancestorIds)
    {
      ScopeIsPlace(r, c, ancestorIds);
      forall p ensures MatchesPattern(payload, p, regex) <==> Fits(payload, p, regex) {
        PatternFits(payload, p, regex);
      }
    }
    forall a, b ensures Beats(a, b) <==> Outranks(a, b) {
      NarrowerScopeBeats(a, b);
    }
  }

  /** The rule at `i` is the one to go by among the governing rules without patterns. */
  ghost predicate Leads(rules: seq<Rule>, c: Context, ancestorIds: set<string>, i: nat) {
    && i < |rules| && Governs(rules[i], c, ancestorIds) && rules[i].patterns == []
    && forall j | 0 <= j < |rules| && Governs(rules[j], c, ancestorIds) && rules[j].patterns == [] ::
         !Outranks(rules[j], rules[i]) && (j < i ==> Outranks(rules[i], rules[j]))
  }

  /** Before execution the leading rule without patterns answers, except that its denial is held back
      while any governing rule looks at the arguments. */
  lemma {:induction false} PreflightDecides(rules: seq<Rule>, c: Context, ancestorIds: set<string>) returns (i: nat)
    ensures var r := Preflight(rules, c, ancestorIds);
            var open := exists j | 0 <= j < |rules| :: Governs(rules[j], c, ancestorIds) && rules[j].patterns != [];
            if r.Some? then Leads(rules, c, ancestorIds, i) && r.value == rules[i] && (r.value.effect == Deny ==> !open)
            else (forall j | 0 <= j < |rules| && Governs(rules[j], c, ancestorIds) :: rules[j].patterns != [])
                 || (open && Leads(rules, c, ancestorIds, i) && rules[i].effect == Deny)
  {
    i := Selection(rules, Scoped(c, ancestorIds), Patternless());
    AllPatternless(rules, Scoped(c, ancestorIds));
    forall r: Rule ensures Scoped(c, ancestorIds)(r) <==> Governs(r, c, ancestorIds) {
      ScopeIsPlace(r, c, ancestorIds);
    }
    forall a, b ensures Beats(a, b) <==> Outranks(a, b) {
      NarrowerScopeBeats(a, b);
    }
  }
}
