/** Cost estimates in whole cents and the budget decision over several policies. Amounts are exact:
    rounding of floating-point numbers is not modelled. */
module CostGovernance {
  import opened Text

  // ----- cost -----

  datatype Rate = Rate(inputCentsPerMillion: real, outputCentsPerMillion: real)
  datatype Usage = Usage(inputTokens: nat, outputTokens: nat)

  function TokenCost(tokens: nat, centsPerMillion: real): real {
    tokens as real * centsPerMillion / 1000000.0
  }

  function Cost(u: Usage, r: Rate): real {
    TokenCost(u.inputTokens, r.inputCentsPerMillion) + TokenCost(u.outputTokens, r.outputCentsPerMillion)
  }

  function Ceil(x: real): (c: int)
    ensures c as real - 1.0 < x <= c as real
  {
    -((-x).Floor)
  }

  /** The estimate when both token counts are known, for a model with rates. */
  function Estimate(u: Usage, r: Rate): int {
    Ceil(Cost(u, r))
  }

  function Total(turns: seq<Usage>): Usage {
    if turns == [] then Usage(0, 0)
    else
      var before, last := Total(turns[..|turns| - 1]), turns[|turns| - 1];
      Usage(before.inputTokens + last.inputTokens, before.outputTokens + last.outputTokens)
  }

  function SumOfEstimates(turns: seq<Usage>, r: Rate): int {
    if turns == [] then 0 else SumOfEstimates(turns[..|turns| - 1], r) + Estimate(turns[|turns| - 1], r)
  }

  lemma {:induction false} TokenCostAdds(a: nat, b: nat, rate: real)
    ensures TokenCost(a + b, rate) == TokenCost(a, rate) + TokenCost(b, rate)
  {
  }

  lemma {:induction false} CeilAdds(x: real, y: real)
    ensures Ceil(x + y) <= Ceil(x) + Ceil(y) <= Ceil(x + y) + 1
  {
  }

  /** Charging each of n turns in whole cents costs at least as much as charging them together, and at
      most n - 1 cents more. */
  lemma {:induction false} SumOfCeilings(turns: seq<Usage>, r: Rate)
    requires turns != []
    ensures Estimate(Total(turns), r) <= SumOfEstimates(turns, r) <= Estimate(Total(turns), r) + |turns| - 1
    decreases |turns|
  {
    var before, last := turns[..|turns| - 1], turns[|turns| - 1];
    var t := Total(before);
    if before == [] {
      assert Total(turns) == last;
    } else {
      SumOfCeilings(before, r);
      TokenCostAdds(t.inputTokens, last.inputTokens, r.inputCentsPerMillion);
      TokenCostAdds(t.outputTokens, last.outputTokens, r.outputCentsPerMillion);
      CeilAdds(Cost(t, r), Cost(last, r));
    }
  }

  /** Rates are cents for a million tokens: whole millions at whole rates cost just that. */
  lemma {:induction false} MillionsAtRates(a: nat, b: nat, input: nat, output: nat)
    ensures Estimate(Usage(a * 1000000, b * 1000000), Rate(input as real, output as real)) == a * input + b * output
  {
    WholeMillions(a, input);
    WholeMillions(b, output);
    assert Cost(Usage(a * 1000000, b * 1000000), Rate(input as real, output as real)) == (a * input + b * output) as real;
  }

  lemma {:induction false} WholeMillions(n: nat, rate: nat)
    ensures TokenCost(n * 1000000, rate as real) == (n * rate) as real
  {
    assert (n * 1000000) as real == n as real * 1000000.0;
    assert (n as real * 1000000.0) * rate as real / 1000000.0 == n as real * rate as real;
    assert n as real * rate as real == (n * rate) as real;
  }

  // ----- budget -----

  datatype Decision = Allow | Warn | ApprovalRequired | Deny
  datatype Enforcement = Observe | WarnOnly | RequireApproval | Block

  /** A policy; the filters that select it are applied before. */
  datatype Policy = Policy(
    id: string, tokenLimit: Option<int>, hardLimit: Option<int>, softLimit: Option<int>, enforcement: Enforcement)

  function Rank(d: Decision): nat {
    match d case Allow => 0 case Warn => 1 case ApprovalRequired => 2 case Deny => 4
  }

  function MapEnforcement(e: Enforcement): Decision {
    match e case Observe => Allow case WarnOnly => Warn case RequireApproval => ApprovalRequired case Block => Deny
  }

  function EvaluatePolicy(p: Policy, tokens: nat, estimate: Option<int>, spend: int): Decision {
    if p.tokenLimit.Some? && tokens > p.tokenLimit.value then MapEnforcement(p.enforcement)
    else if p.hardLimit.Some? && estimate.Some? && spend + estimate.value > p.hardLimit.value then Deny
    else if p.softLimit.Some? && estimate.Some? && estimate.value > p.softLimit.value then MapEnforcement(p.enforcement)
    else Allow
  }

  /** What a policy decides: beyond its token limit its own enforcement, otherwise a denial beyond the hard limit
      and its own enforcement beyond the soft one; an unknown estimate exceeds nothing. */
  lemma {:induction false} PolicyOutcomes(p: Policy, tokens: nat, estimate: Option<int>, spend: int)
    ensures var d := EvaluatePolicy(p, tokens, estimate, spend);
            var overTokens := p.tokenLimit.Some? && tokens > p.tokenLimit.value;
            var overHard := p.hardLimit.Some? && estimate.Some? && spend + estimate.value > p.hardLimit.value;
            var overSoft := p.softLimit.Some? && estimate.Some? && estimate.value > p.softLimit.value;
            var enforced := overTokens || (overSoft && !overHard);
            && (d == Deny <==> (overHard && !overTokens) || (enforced && p.enforcement == Block))
            && (d == ApprovalRequired <==> enforced && p.enforcement == RequireApproval)
            && (d == Warn <==> enforced && p.enforcement == WarnOnly)
  {
  }

  /** From mild to severe. */
  lemma {:induction false} Severity()
    ensures Rank(Allow) < Rank(Warn) < Rank(ApprovalRequired) < Rank(Deny)
  {
  }

  /** The worst decision over the policies, and the first policy that gives it, if it is not to allow. */
  method EvaluateAction(policies: seq<Policy>, tokens: nat, estimate: Option<int>, spend: int)
    returns (worst: Decision, matching: Option<Policy>)
    ensures IsWorst(worst, policies, tokens, estimate, spend)
    ensures matching.None? <==> worst == Allow
    ensures matching.Some? ==> exists i | 0 <= i < |policies| ::
              && matching.value == policies[i] && EvaluatePolicy(policies[i], tokens, estimate, spend) == worst
              && forall j | 0 <= j < i :: Rank(EvaluatePolicy(policies[j], tokens, estimate, spend)) < Rank(worst)
  {
    worst, matching := Allow, None;
    ghost var at := 0;
    for n := 0 to |policies|
      invariant forall j | 0 <= j < n :: Rank(EvaluatePolicy(policies[j], tokens, estimate, spend)) <= Rank(worst)
      invariant matching.None? <==> worst == Allow
      invariant matching.Some? ==>
        && 0 <= at < n && matching.value == policies[at]
        && EvaluatePolicy(policies[at], tokens, estimate, spend) == worst
        && forall j | 0 <= j < at :: Rank(EvaluatePolicy(policies[j], tokens, estimate, spend)) < Rank(worst)
    {
      var decision := EvaluatePolicy(policies[n], tokens, estimate, spend);
      if Rank(decision) > Rank(worst) {
        worst, matching, at := decision, Some(policies[n]), n;
      }
    }
  }

  /** No policy decides worse, and some policy decides so unless it is to allow. */
  ghost predicate IsWorst(d: Decision, policies: seq<Policy>, tokens: nat, estimate: Option<int>, spend: int) {
    && (forall p | p in policies :: Rank(EvaluatePolicy(p, tokens, estimate, spend)) <= Rank(d))
    && (d == Allow || exists p | p in policies :: EvaluatePolicy(p, tokens, estimate, spend) == d)
  }

  /** The decision depends only on which policies there are, gets no milder with more policies, and no
      milder as the spend grows. */
  lemma {:induction false} WorstIsMonotone(d: Decision, few: seq<Policy>, d2: Decision, many: seq<Policy>,
                        tokens: nat, estimate: Option<int>, spend: int, more: int)
    requires (forall p | p in few :: p in many) && spend <= more
    requires IsWorst(d, few, tokens, estimate, spend) && IsWorst(d2, many, tokens, estimate, more)
    ensures Rank(d) <= Rank(d2)
    ensures spend == more && (forall p | p in many :: p in few) ==> d == d2
  {
  }

  /** More tokens, at a cost no lower, never make the decision of the policy milder. */
  ghost predicate MonotoneInTokens(p: Policy) {
    forall tokens: nat, moreTokens: nat, cost: nat, moreCost: nat, spend: nat | tokens <= moreTokens && cost <= moreCost ::
      Rank(EvaluatePolicy(p, tokens, Some(cost), spend)) <= Rank(EvaluatePolicy(p, moreTokens, Some(moreCost), spend))
  }

  /** That holds exactly for the policies whose token limit cannot hide a hard limit: the token check
      returns first, with the policy's own enforcement. */
  lemma {:induction false} TokenLimitHidesHardLimit(p: Policy)
    ensures MonotoneInTokens(p)
       <==> p.tokenLimit.None? || p.tokenLimit.value < 0 || p.hardLimit.None? || p.enforcement == Block
  {
    if p.tokenLimit.Some? && p.tokenLimit.value >= 0 && p.hardLimit.Some? && p.enforcement != Block {
      var spend: nat := if p.hardLimit.value < 0 then 0 else p.hardLimit.value + 1;
      assert EvaluatePolicy(p, 0, Some(0), spend) == Deny;
      assert Rank(EvaluatePolicy(p, p.tokenLimit.value + 1, Some(0), spend)) < Rank(Deny);
    }
  }
}
