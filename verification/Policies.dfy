/** Which model profiles a request may use: the limits a request states, the blockers a profile runs
    into, and what relaxing a limit does. */
module Policies {
  import opened Prelude

  datatype Capability =
    | TextGeneration | StructuredOutput | CodeReasoning | CodeGeneration | Planning | Summarization
    | Classification | LongContext | ToolUse | HighReasoning | PrivateInference

  datatype Privacy = Public | Internal | Confidential | Restricted

  datatype Cost = Free | LowCost | MediumCost | HighCost | Premium

  datatype Latency = LowLatency | MediumLatency | HighLatency

  datatype Status = Active | Paused | Disabled

  datatype ErrorCode =
    | ModelNotFound | ModelDisabled | ProviderUnavailable | CapabilityUnavailable | PrivacyPolicyBlock | AuthorityBlock
    | UnsafeRequest | CostPolicyBlock | BudgetExceeded | ContextLimitExceeded | Timeout | RateLimit | TransientError
    | InvalidResponse | StructuredOutputInvalid | ProviderError | NoEligibleModel

  datatype Provider = Provider(id: Option<string>, name: string, kind: string, status: Status, supportsLocal: bool)

  datatype Profile = Profile(
    id: Option<string>, providerId: string, modelName: string, status: Status, capabilities: set<Capability>,
    privacy: Privacy, cost: Cost, latency: Latency, quality: nat,
    maxContext: Option<int>, maxOutput: Option<int>, inputPrice: Option<real>, outputPrice: Option<real>)

  /** `contextTokens` is the caller's own estimate, when its metadata holds an integer. */
  datatype Request = Request(
    required: set<Capability>, structured: bool, privacy: Privacy, minimumQuality: nat, maxCost: Option<Cost>,
    budget: Option<real>, maxOutput: Option<int>, contextTokens: Option<int>, messages: seq<string>,
    preferredProvider: Option<string>, preferredModel: Option<string>, fallbackIds: seq<string>,
    fallbackAllowed: bool, maxAttempts: Option<int>)

  function PrivacyRank(p: Privacy): nat {
    match p
    case Public => 0
    case Internal => 1
    case Confidential => 2
    case Restricted => 3
  }

  function CostRank(c: Cost): nat {
    match c
    case Free => 0
    case LowCost => 1
    case MediumCost => 2
    case HighCost => 3
    case Premium => 4
  }

  function LatencyRank(l: Latency): nat {
    match l
    case LowLatency => 0
    case MediumLatency => 1
    case HighLatency => 2
  }

  function TotalLength(messages: seq<string>): nat {
    if messages == [] then 0 else |messages[0]| + TotalLength(messages[1..])
  }

  /** The explicit figure, or a quarter of the characters, but at least one token if there are any. */
  function RequestTokens(request: Request): int {
    if request.contextTokens.Some? then request.contextTokens.value
    else
      var chars := TotalLength(request.messages);
      if chars == 0 then 0 else if chars < 4 then 1 else chars / 4
  }

  function OutputTokens(request: Request): int {
    if request.maxOutput.Some? then request.maxOutput.value else 0
  }

  function Price(p: Option<real>): real {
    if p.Some? then p.value else 0.0
  }

  function ProfileCost(profile: Profile, input: int, output: int): Option<real> {
    if profile.inputPrice.None? && profile.outputPrice.None? then None
    else Some(Price(profile.inputPrice) * input as real / 1000000.0 + Price(profile.outputPrice) * output as real / 1000000.0)
  }

  /** Private inference may also come from a provider that runs locally. */
  predicate CapabilitiesSatisfied(have: set<Capability>, required: set<Capability>, local: bool) {
    required - (if local then {PrivateInference} else {}) <= have
  }

  function Required(request: Request): set<Capability> {
    request.required + if request.structured then {StructuredOutput} else {}
  }

  // ----- the nine limits -----

  predicate PrivacyOk(request: Request, profile: Profile) {
    PrivacyRank(request.privacy) <= PrivacyRank(profile.privacy)
  }

  predicate CostOk(request: Request, profile: Profile) {
    request.maxCost.None? || CostRank(profile.cost) <= CostRank(request.maxCost.value)
  }

  predicate ContextOk(request: Request, profile: Profile) {
    profile.maxContext.None? || RequestTokens(request) <= profile.maxContext.value
  }

  predicate OutputOk(request: Request, profile: Profile) {
    request.maxOutput.None? || profile.maxOutput.None? || request.maxOutput.value <= profile.maxOutput.value
  }

  predicate BudgetOk(request: Request, profile: Profile) {
    var cost := ProfileCost(profile, RequestTokens(request), OutputTokens(request));
    request.budget.None? || cost.None? || cost.value <= request.budget.value
  }

  /** The profile is up and within every limit the request states. */
  predicate Admits(request: Request, provider: Provider, profile: Profile) {
    && provider.status == Active && profile.status == Active
    && CapabilitiesSatisfied(profile.capabilities, Required(request), provider.supportsLocal)
    && PrivacyOk(request, profile) && CostOk(request, profile) && ContextOk(request, profile) && OutputOk(request, profile)
    && request.minimumQuality <= profile.quality
    && BudgetOk(request, profile)
  }

  /** Refused for what it is. */
  predicate AccessBlocked(request: Request, provider: Provider, profile: Profile, code: ErrorCode) {
    match code
    case ProviderUnavailable => provider.status != Active
    case ModelDisabled => profile.status != Active
    case CapabilityUnavailable => !CapabilitiesSatisfied(profile.capabilities, Required(request), provider.supportsLocal)
    case PrivacyPolicyBlock => !PrivacyOk(request, profile)
    case CostPolicyBlock => !CostOk(request, profile)
    case _ => false
  }

  /** Refused for how much it can do. */
  predicate LimitBlocked(request: Request, profile: Profile, code: ErrorCode) {
    match code
    case ContextLimitExceeded => !ContextOk(request, profile) || !OutputOk(request, profile)
    case CapabilityUnavailable => profile.quality < request.minimumQuality
    case BudgetExceeded => !BudgetOk(request, profile)
    case _ => false
  }

  /** Exactly which codes a profile is refused with. */
  predicate BlockedBy(request: Request, provider: Provider, profile: Profile, code: ErrorCode) {
    AccessBlocked(request, provider, profile, code) || LimitBlocked(request, profile, code)
  }

  method Satisfied(have: set<Capability>, required: set<Capability>, local: bool) returns (ok: bool)
    ensures ok <==> CapabilitiesSatisfied(have, required, local)
  {
    var todo := required;
    while todo != {}
      invariant todo <= required
      invariant forall c :: c in required - todo ==> c in have || (c == PrivateInference && local)
    {
      var c :| c in todo;
      todo := todo - {c};
      if c == PrivateInference && local {
        continue;
      }
      if c !in have {
        return false;
      }
    }
    return true;
  }

  /** One blocker after the other, in the order of the guards. */
  method Validate(request: Request, provider: Provider, profile: Profile) returns (blockers: seq<ErrorCode>)
    ensures blockers == Blockers(request, provider, profile)
    ensures blockers == [] <==> Admits(request, provider, profile)
    ensures forall code :: code in blockers <==> BlockedBy(request, provider, profile, code)
  {
    var access := ValidateAccess(request, provider, profile);
    var limits := ValidateLimits(request, profile);
    blockers := access + limits;
  }

  function Blockers(request: Request, provider: Provider, profile: Profile): seq<ErrorCode> {
    AccessBlockers(request, provider, profile) + LimitBlockers(request, profile)
  }

  function AccessBlockers(request: Request, provider: Provider, profile: Profile): (blockers: seq<ErrorCode>)
    ensures blockers == [] <==>
      && provider.status == Active && profile.status == Active
      && CapabilitiesSatisfied(profile.capabilities, Required(request), provider.supportsLocal)
      && PrivacyOk(request, profile) && CostOk(request, profile)
    ensures forall code :: code in blockers <==> AccessBlocked(request, provider, profile, code)
  {
    var up := Noted(Noted([], provider.status != Active, ProviderUnavailable), profile.status != Active, ModelDisabled);
    var able := Noted(up, !CapabilitiesSatisfied(profile.capabilities, Required(request), provider.supportsLocal), CapabilityUnavailable);
    Noted(Noted(able, !PrivacyOk(request, profile), PrivacyPolicyBlock), !CostOk(request, profile), CostPolicyBlock)
  }

  function LimitBlockers(request: Request, profile: Profile): (blockers: seq<ErrorCode>)
    ensures blockers == [] <==>
      ContextOk(request, profile) && OutputOk(request, profile) && request.minimumQuality <= profile.quality && BudgetOk(request, profile)
    ensures forall code :: code in blockers <==> LimitBlocked(request, profile, code)
  {
    var sized := Noted(Noted([], !ContextOk(request, profile), ContextLimitExceeded), !OutputOk(request, profile), ContextLimitExceeded);
    Noted(Noted(sized, profile.quality < request.minimumQuality, CapabilityUnavailable), !BudgetOk(request, profile), BudgetExceeded)
  }

  method ValidateAccess(request: Request, provider: Provider, profile: Profile) returns (blockers: seq<ErrorCode>)
    ensures blockers == AccessBlockers(request, provider, profile)
  {
    var satisfied := Satisfied(profile.capabilities, Required(request), provider.supportsLocal);
    blockers := Noted([], provider.status != Active, ProviderUnavailable);
    blockers := Noted(blockers, profile.status != Active, ModelDisabled);
    blockers := Noted(blockers, !satisfied, CapabilityUnavailable);
    blockers := Noted(blockers, !PrivacyOk(request, profile), PrivacyPolicyBlock);
    blockers := Noted(blockers, !CostOk(request, profile), CostPolicyBlock);
  }

  method ValidateLimits(request: Request, profile: Profile) returns (blockers: seq<ErrorCode>)
    ensures blockers == LimitBlockers(request, profile)
  {
    blockers := Noted([], !ContextOk(request, profile), ContextLimitExceeded);
    blockers := Noted(blockers, !OutputOk(request, profile), ContextLimitExceeded);
    blockers := Noted(blockers, profile.quality < request.minimumQuality, CapabilityUnavailable);
    blockers := Noted(blockers, !BudgetOk(request, profile), BudgetExceeded);
  }

  function Noted(blockers: seq<ErrorCode>, blocked: bool, code: ErrorCode): (noted: seq<ErrorCode>)
    ensures noted == [] <==> blockers == [] && !blocked
    ensures forall c :: c in noted <==> c in blockers || (blocked && c == code)
  {
    if blocked then blockers + [code] else blockers
  }

  // ----- what a profile must be, in terms of its fields -----

  predicate Cheaper(a: Cost, b: Cost) {
    match a
    case Free => b != Free
    case LowCost => b == MediumCost || b == HighCost || b == Premium
    case MediumCost => b == HighCost || b == Premium
    case HighCost => b == Premium
    case Premium => false
  }

  /** A profile of class `a` may not see what class `b` calls for. */
  predicate TooOpen(a: Privacy, b: Privacy) {
    match b
    case Public => false
    case Internal => a == Public
    case Confidential => a == Public || a == Internal
    case Restricted => a != Restricted
  }

  /** All messages in a row. */
  function Concatenated(messages: seq<string>): string {
    if messages == [] then "" else messages[0] + Concatenated(messages[1..])
  }

  /** The caller's own figure, or one token for every four characters, rounded down but not to nothing. */
  predicate Estimates(request: Request, tokens: int) {
    if request.contextTokens.Some? then tokens == request.contextTokens.value
    else
      var chars := |Concatenated(request.messages)|;
      if chars == 0 then tokens == 0 else tokens >= 1 && (tokens == 1 || 4 * tokens <= chars) && chars < 4 * tokens + 4
  }

  lemma {:induction false} TotalIsLength(messages: seq<string>)
    ensures TotalLength(messages) == |Concatenated(messages)|
  {
    if messages != [] {
      TotalIsLength(messages[1..]);
    }
  }

  lemma TokensExactly(request: Request, tokens: int)
    ensures tokens == RequestTokens(request) <==> Estimates(request, tokens)
  {
    TotalIsLength(request.messages);
  }

  /** What is asked for is there; private inference may also come from a provider that runs locally. */
  predicate Able(request: Request, provider: Provider, profile: Profile) {
    forall c :: c in request.required || (request.structured && c == StructuredOutput) ==>
      c in profile.capabilities || (c == PrivateInference && provider.supportsLocal)
  }

  /** A price per million tokens, where given, costs no more than the budget. */
  predicate Affordable(request: Request, profile: Profile, tokens: int) {
    request.budget.Some? && (profile.inputPrice.Some? || profile.outputPrice.Some?) ==>
      (if profile.inputPrice.Some? then profile.inputPrice.value * tokens as real else 0.0) +
      (if profile.outputPrice.Some? && request.maxOutput.Some? then profile.outputPrice.value * request.maxOutput.value as real else 0.0)
      <= request.budget.value * 1000000.0
  }

  /** The profile and its provider are up, and it is able, closed, cheap, large, good and affordable enough. */
  predicate Usable(request: Request, provider: Provider, profile: Profile, tokens: int) {
    && provider.status == Active && profile.status == Active
    && Able(request, provider, profile)
    && !TooOpen(profile.privacy, request.privacy)
    && (request.maxCost.Some? ==> !Cheaper(request.maxCost.value, profile.cost))
    && (profile.maxContext.Some? ==> tokens <= profile.maxContext.value)
    && (request.maxOutput.Some? && profile.maxOutput.Some? ==> request.maxOutput.value <= profile.maxOutput.value)
    && profile.quality >= request.minimumQuality
    && Affordable(request, profile, tokens)
  }

  lemma AbleExactly(request: Request, provider: Provider, profile: Profile)
    ensures CapabilitiesSatisfied(profile.capabilities, Required(request), provider.supportsLocal) <==> Able(request, provider, profile)
  {
    if CapabilitiesSatisfied(profile.capabilities, Required(request), provider.supportsLocal) {
      forall c | c in request.required || (request.structured && c == StructuredOutput)
        ensures c in profile.capabilities || (c == PrivateInference && provider.supportsLocal)
      {
        assert c in Required(request);
      }
    }
  }

  lemma AffordableExactly(request: Request, profile: Profile)
    ensures BudgetOk(request, profile) <==> Affordable(request, profile, RequestTokens(request))
  {
    if request.budget.Some? && (profile.inputPrice.Some? || profile.outputPrice.Some?) {
      var input := Price(profile.inputPrice) * RequestTokens(request) as real;
      var output := Price(profile.outputPrice) * OutputTokens(request) as real;
      assert ProfileCost(profile, RequestTokens(request), OutputTokens(request)).value * 1000000.0 == input + output;
      assert request.maxOutput.None? ==> output == 0.0;
      assert profile.outputPrice.None? ==> output == 0.0;
      assert profile.inputPrice.None? ==> input == 0.0;
    }
  }

  /** Exactly which profiles pass the guards. */
  lemma AdmitsExactly(request: Request, provider: Provider, profile: Profile, tokens: int)
    requires Estimates(request, tokens)
    ensures Admits(request, provider, profile) <==> Usable(request, provider, profile, tokens)
  {
    TokensExactly(request, tokens);
    AbleExactly(request, provider, profile);
    AffordableExactly(request, profile);
  }

  // ----- relaxing limits -----

  /** `loose` demands no more than `strict` on every limit. */
  predicate Relaxes(strict: Request, loose: Request) {
    && Required(loose) <= Required(strict)
    && PrivacyRank(loose.privacy) <= PrivacyRank(strict.privacy)
    && (loose.maxCost.None? || (strict.maxCost.Some? && CostRank(strict.maxCost.value) <= CostRank(loose.maxCost.value)))
    && RequestTokens(loose) <= RequestTokens(strict)
    && (loose.maxOutput.None? || (strict.maxOutput.Some? && loose.maxOutput.value <= strict.maxOutput.value))
    && OutputTokens(loose) <= OutputTokens(strict)
    && loose.minimumQuality <= strict.minimumQuality
    && (loose.budget.None? || (strict.budget.Some? && strict.budget.value <= loose.budget.value))
  }

  predicate PricedFairly(profile: Profile) {
    Price(profile.inputPrice) >= 0.0 && Price(profile.outputPrice) >= 0.0
  }

  lemma CostGrows(profile: Profile, input: int, output: int, input': int, output': int)
    requires PricedFairly(profile) && input <= input' && output <= output'
    ensures ProfileCost(profile, input, output).Some? ==>
      ProfileCost(profile, input', output').Some? &&
      ProfileCost(profile, input, output).value <= ProfileCost(profile, input', output').value
  {
    Scaled(Price(profile.inputPrice), input, input');
    Scaled(Price(profile.outputPrice), output, output');
  }

  lemma Scaled(price: real, n: int, m: int)
    requires price >= 0.0 && n <= m
    ensures price * n as real / 1000000.0 <= price * m as real / 1000000.0
  {
    assert price * (m as real - n as real) >= 0.0;
    assert price * (m as real - n as real) == price * m as real - price * n as real;
  }

  /** Relaxing any limits never costs a profile its admission, if and only if neither of its prices is
      negative (prices are not validated: a negative one makes asking for less cost more). */
  lemma RelaxingKeepsAdmission(provider: Provider, profile: Profile)
    requires provider.status == Active && profile.status == Active
    ensures PricedFairly(profile) <==>
      forall strict: Request, loose: Request :: Relaxes(strict, loose) && Admits(strict, provider, profile) ==> Admits(loose, provider, profile)
  {
    if PricedFairly(profile) {
      forall strict: Request, loose: Request | Relaxes(strict, loose) && Admits(strict, provider, profile)
        ensures Admits(loose, provider, profile)
      {
        RelaxedIsAdmitted(provider, profile, strict, loose);
      }
    } else {
      var (strict, loose) := Underpriced(profile);
      UnderpricedFails(provider, profile);
      assert Relaxes(strict, loose) && Admits(strict, provider, profile) && !Admits(loose, provider, profile);
    }
  }

  lemma RelaxedIsAdmitted(provider: Provider, profile: Profile, strict: Request, loose: Request)
    requires PricedFairly(profile) && Relaxes(strict, loose) && Admits(strict, provider, profile)
    ensures Admits(loose, provider, profile)
  {
    CostGrows(profile, RequestTokens(loose), OutputTokens(loose), RequestTokens(strict), OutputTokens(strict));
  }

  function Bare(context: int, output: int, budget: real): Request {
    Request({}, false, Public, 0, None, Some(budget), Some(output), Some(context), [], None, None, [], true, None)
  }

  function AtMost(limit: Option<int>): int {
    if limit.Some? then limit.value else 0
  }

  /** A request the profile just affords, and one that asks for less and costs more. */
  function Underpriced(profile: Profile): (Request, Request) {
    var context, output := AtMost(profile.maxContext), AtMost(profile.maxOutput);
    var cost := ProfileCost(profile, context, output);
    var budget := if cost.Some? then cost.value else 0.0;
    (Bare(context, output, budget),
     if Price(profile.inputPrice) < 0.0 then Bare(context - 1, output, budget) else Bare(context, output - 1, budget))
  }

  lemma UnderpricedFails(provider: Provider, profile: Profile)
    requires provider.status == Active && profile.status == Active && !PricedFairly(profile)
    ensures var (strict, loose) := Underpriced(profile);
      Relaxes(strict, loose) && Admits(strict, provider, profile) && !Admits(loose, provider, profile)
  {
    var (strict, loose) := Underpriced(profile);
    var context, output := AtMost(profile.maxContext), AtMost(profile.maxOutput);
    OneLess(Price(profile.inputPrice), context);
    OneLess(Price(profile.outputPrice), output);
    assert RequestTokens(strict) == context && OutputTokens(strict) == output;
  }

  lemma OneLess(price: real, n: int)
    ensures price * (n - 1) as real / 1000000.0 == price * n as real / 1000000.0 - price / 1000000.0
  {
    assert (n - 1) as real == n as real - 1.0;
    assert price * (n as real - 1.0) == price * n as real - price;
  }
}
