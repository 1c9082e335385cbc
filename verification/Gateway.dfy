/** The model gateway: registrations, and one request executed with fallback over the routed profiles. */
module Gateway {
  import opened Prelude
  import opened Policies
  import opened Ordering
  import opened Routing

  datatype Registry = Registry(providers: seq<Provider>, profiles: seq<Profile>) {
    predicate Keyed() {
      KeyedBy(profiles)
    }
  }

  /** Ids are primary keys. */
  predicate KeyedBy(profiles: seq<Profile>) {
    && (forall i :: 0 <= i < |profiles| ==> profiles[i].id.Some?)
    && (forall i, j :: 0 <= i < j < |profiles| ==> profiles[i].id != profiles[j].id)
  }

  /** What a provider adapter does with a call. */
  datatype Outcome =
    | Unavailable
    | Raised(code: ErrorCode)
    | Crashed
    | Returned(hasData: bool, conforms: bool)

  /** An arbitrary adapter; it may also change the registrations while it runs. */
  type Adapter = (nat, Request, Profile, Registry) -> (Outcome, Registry)

  datatype Execution = Execution(profileId: Option<string>, attempt: nat, error: Option<ErrorCode>, fallbackUsed: bool)

  predicate Succeeded(row: Execution) {
    row.error.None?
  }

  predicate Retryable(code: ErrorCode) {
    match code
    case ProviderUnavailable | Timeout | RateLimit | TransientError | InvalidResponse | StructuredOutputInvalid | ProviderError => true
    case _ => false
  }

  predicate PolicyError(code: ErrorCode) {
    match code
    case PrivacyPolicyBlock | AuthorityBlock | UnsafeRequest | BudgetExceeded | CostPolicyBlock => true
    case _ => false
  }

  /** The error an outcome is recorded with; a structured answer must be there and conform. */
  function ErrorOf(request: Request, outcome: Outcome): Option<ErrorCode> {
    match outcome
    case Unavailable => Some(ProviderUnavailable)
    case Raised(code) => Some(code)
    case Crashed => Some(ProviderError)
    case Returned(hasData, conforms) =>
      if request.structured && (!hasData || !conforms) then Some(StructuredOutputInvalid) else None
  }

  function WithId(profiles: seq<Profile>, id: string): (p: Option<Profile>)
    ensures p.Some? ==> p.value in profiles && p.value.id == Some(id)
    ensures p.None? ==> forall x :: x in profiles ==> x.id != Some(id)
  {
    if profiles == [] then None
    else if profiles[0].id == Some(id) then Some(profiles[0])
    else WithId(profiles[1..], id)
  }

  function ProfileById(registry: Registry, id: string): Option<Profile> {
    WithId(registry.profiles, id)
  }

  /** The profile ids one request may try, in order. */
  function Candidates(request: Request, selected: string, fallback: seq<string>): seq<string> {
    var all := [selected] + if request.fallbackAllowed then fallback else [];
    var limit := if request.maxAttempts.None? || request.maxAttempts.value == 0 then |all|
                 else if request.maxAttempts.value < 1 then 1 else request.maxAttempts.value;
    if limit < |all| then all[..limit] else all
  }

  /** The run goes on after this row if there is anything left to try. */
  predicate FallsThrough(request: Request, row: Execution) {
    row.error.Some? && request.fallbackAllowed && Retryable(row.error.value) && !PolicyError(row.error.value)
  }

  /** The rows of one executed request: numbered from `first`, one candidate each, all but the last failed
      in a way that allows falling back, and the last one with a reason to stop. */
  predicate RunShape(request: Request, ids: seq<string>, first: nat, rows: seq<Execution>) {
    && 1 <= |rows| <= |ids|
    && (forall k :: 0 <= k < |rows| ==> RowFor(ids[k], first + k, rows[k]))
    && (forall k :: 0 <= k < |rows| - 1 ==> FallsThrough(request, rows[k]))
    && (|rows| == |ids| || !FallsThrough(request, rows[|rows| - 1]))
  }

  /** The row of one candidate; it names no profile if that profile disappeared. */
  predicate RowFor(id: string, number: nat, row: Execution) {
    row.attempt == number && (row.fallbackUsed <==> number > 1) && (row.profileId == Some(id) || row == Vanished(number))
  }

  function Vanished(attempt: nat): Execution {
    Execution(None, attempt, Some(ModelNotFound), attempt > 1)
  }

  function Blocked(code: ErrorCode): Execution {
    Execution(None, 1, Some(code), false)
  }

  /** Adapters that leave the registrations alone. */
  ghost predicate LeavesRegistry(adapter: Adapter) {
    forall n: nat, request: Request, profile: Profile, registry: Registry :: adapter(n, request, profile, registry).1 == registry
  }

  // ----- one attempt, and a run of them, with what the adapters answered -----

  /** A profile handed to an adapter, and its answer. */
  datatype Call = Call(profile: Profile, outcome: Outcome)

  /** An answer the caller can use: returned, and conforming if structured output was asked for. */
  predicate Acceptable(request: Request, outcome: Outcome) {
    outcome.Returned? && (request.structured ==> outcome.hasData && outcome.conforms)
  }

  datatype Trace = Trace(rows: seq<Execution>, registry: Registry, calls: seq<Call>)

  function AttemptOf(request: Request, adapters: map<string, Adapter>, registry: Registry, id: string, number: nat): Trace {
    match ProfileById(registry, id)
    case None => Trace([Vanished(number)], registry, [])
    case Some(profile) =>
      if profile.providerId !in adapters || ProviderFor(registry.providers, profile.providerId).None? then
        Trace([Execution(Some(id), number, Some(ProviderUnavailable), number > 1)], registry, [])
      else
        var (outcome, next) := adapters[profile.providerId](number, request, profile, registry);
        Trace([Execution(Some(id), number, ErrorOf(request, outcome), number > 1)], next, [Call(profile, outcome)])
  }

  /** Which error an attempt records: a vanished profile, a missing adapter or provider, or the adapter's own answer. */
  lemma AttemptExplained(request: Request, adapters: map<string, Adapter>, registry: Registry, id: string, number: nat)
    ensures var one, profile := AttemptOf(request, adapters, registry, id, number), ProfileById(registry, id);
      && |one.rows| == 1 && one.rows[0].attempt == number && (one.rows[0].fallbackUsed <==> number > 1)
      && (profile.None? ==> one.rows[0].profileId == None && one.rows[0].error == Some(ModelNotFound) && one.calls == [])
      && (profile.Some? ==> one.rows[0].profileId == Some(id))
      && (one.calls == [] && profile.Some? ==> one.rows[0].error == Some(ProviderUnavailable))
      && (one.calls == [] <==> profile.None? || profile.value.providerId !in adapters ||
                               ProviderFor(registry.providers, profile.value.providerId).None?)
      && (one.calls != [] ==>
            && one.calls[0].profile == profile.value
            && (one.calls[0].outcome, one.registry) == adapters[profile.value.providerId](number, request, profile.value, registry)
            && (one.rows[0].error == None <==> Acceptable(request, one.calls[0].outcome))
            && (one.calls[0].outcome.Raised? ==> one.rows[0].error == Some(one.calls[0].outcome.code))
            && (one.calls[0].outcome.Unavailable? ==> one.rows[0].error == Some(ProviderUnavailable))
            && (one.calls[0].outcome.Crashed? ==> one.rows[0].error == Some(ProviderError))
            && (one.calls[0].outcome.Returned? && one.rows[0].error != None ==> one.rows[0].error == Some(StructuredOutputInvalid)))
  {
  }

  /** `later` after `one`. */
  function Following(one: Trace, later: Trace): Trace {
    Trace(one.rows + later.rows, later.registry, one.calls + later.calls)
  }

  /** Attempts in turn, each on the registrations the one before left, until one gives a reason to stop. */
  function RunOf(request: Request, adapters: map<string, Adapter>, registry: Registry, ids: seq<string>, number: nat): (t: Trace)
    requires ids != []
    ensures t.rows != []
    decreases |ids|
  {
    var one := AttemptOf(request, adapters, registry, ids[0], number);
    if |ids| == 1 || !FallsThrough(request, one.rows[0]) then one
    else Following(one, RunOf(request, adapters, one.registry, ids[1..], number + 1))
  }

  lemma {:induction false} RunHasShape(request: Request, adapters: map<string, Adapter>, registry: Registry, ids: seq<string>, number: nat)
    requires ids != [] && number > 0
    ensures RunShape(request, ids, number, RunOf(request, adapters, registry, ids, number).rows)
    decreases |ids|
  {
    var one := AttemptOf(request, adapters, registry, ids[0], number);
    if |ids| > 1 && FallsThrough(request, one.rows[0]) {
      RunHasShape(request, adapters, one.registry, ids[1..], number + 1);
      ShapeExtends(request, ids, number, one.rows[0], RunOf(request, adapters, one.registry, ids[1..], number + 1).rows);
    }
  }

  lemma ShapeExtends(request: Request, ids: seq<string>, number: nat, row: Execution, later: seq<Execution>)
    requires |ids| > 1 && RunShape(request, ids[1..], number + 1, later) && RowFor(ids[0], number, row) && FallsThrough(request, row)
    ensures RunShape(request, ids, number, [row] + later)
  {
    var rows := [row] + later;
    forall k | 0 <= k < |rows|
      ensures RowFor(ids[k], number + k, rows[k])
    {
      if k > 0 {
        assert RowFor(ids[1..][k - 1], number + 1 + (k - 1), later[k - 1]);
      }
    }
    forall k | 0 <= k < |rows| - 1
      ensures FallsThrough(request, rows[k])
    {
      assert k > 0 ==> rows[k] == later[k - 1];
    }
    assert rows[|rows| - 1] == later[|later| - 1];
  }

  predicate Answered(request: Request, calls: seq<Call>) {
    exists k :: 0 <= k < |calls| && Acceptable(request, calls[k].outcome)
  }

  /** One attempt succeeds exactly when its adapter was called and gave an acceptable answer. */
  lemma AttemptSucceeds(request: Request, adapters: map<string, Adapter>, registry: Registry, id: string, number: nat)
    ensures var one := AttemptOf(request, adapters, registry, id, number);
      |one.rows| == 1 && (Succeeded(one.rows[0]) <==> Answered(request, one.calls))
  {
    var one := AttemptOf(request, adapters, registry, id, number);
    if one.calls != [] {
      assert Answered(request, one.calls) <==> Acceptable(request, one.calls[0].outcome);
    }
  }

  /** Success is returned exactly when some adapter gave an acceptable answer, which was then the last
      attempt; every other attempt failed. */
  lemma {:induction false} SuccessIsLast(request: Request, adapters: map<string, Adapter>, registry: Registry, ids: seq<string>, number: nat)
    requires ids != []
    ensures var t := RunOf(request, adapters, registry, ids, number);
      && (Succeeded(t.rows[|t.rows| - 1]) <==> Answered(request, t.calls))
      && (forall k :: 0 <= k < |t.rows| - 1 ==> !Succeeded(t.rows[k]))
    decreases |ids|
  {
    var one := AttemptOf(request, adapters, registry, ids[0], number);
    AttemptSucceeds(request, adapters, registry, ids[0], number);
    if |ids| > 1 && FallsThrough(request, one.rows[0]) {
      SuccessIsLast(request, adapters, one.registry, ids[1..], number + 1);
      SuccessCarries(request, one, RunOf(request, adapters, one.registry, ids[1..], number + 1));
    }
  }

  lemma SuccessCarries(request: Request, one: Trace, later: Trace)
    requires |one.rows| == 1 && !Succeeded(one.rows[0]) && !Answered(request, one.calls) && later.rows != []
    requires Succeeded(later.rows[|later.rows| - 1]) <==> Answered(request, later.calls)
    requires forall k :: 0 <= k < |later.rows| - 1 ==> !Succeeded(later.rows[k])
    ensures var t := Following(one, later);
      && (Succeeded(t.rows[|t.rows| - 1]) <==> Answered(request, t.calls))
      && (forall k :: 0 <= k < |t.rows| - 1 ==> !Succeeded(t.rows[k]))
  {
    AnswersJoin(request, one.calls, later.calls);
  }

  lemma AnswersJoin(request: Request, a: seq<Call>, b: seq<Call>)
    ensures Answered(request, a + b) <==> Answered(request, a) || Answered(request, b)
  {
    if Answered(request, a) {
      var k :| 0 <= k < |a| && Acceptable(request, a[k].outcome);
      assert (a + b)[k] == a[k];
    }
    if Answered(request, b) {
      var k :| 0 <= k < |b| && Acceptable(request, b[k].outcome);
      assert (a + b)[|a| + k] == b[k];
    }
  }

  ghost predicate AllLeaveRegistry(adapters: map<string, Adapter>) {
    forall name :: name in adapters ==> LeavesRegistry(adapters[name])
  }

  /** The registrations are as before, and only profiles eligible under them were handed out. */
  predicate OnlyEligible(request: Request, registry: Registry, t: Trace) {
    t.registry == registry && forall c :: c in t.calls ==> IsEligible(request, registry.providers, c.profile)
  }

  /** Adapters that leave the registrations alone are only ever handed eligible profiles. */
  lemma {:induction false} OnlyEligibleCalls(request: Request, adapters: map<string, Adapter>, registry: Registry, ids: seq<string>, number: nat)
    requires ids != [] && AllEligible(request, registry, ids)
    requires AllLeaveRegistry(adapters)
    ensures OnlyEligible(request, registry, RunOf(request, adapters, registry, ids, number))
    decreases |ids|
  {
    var one := AttemptOf(request, adapters, registry, ids[0], number);
    assert one.registry == registry;
    if |ids| > 1 && FallsThrough(request, one.rows[0]) {
      assert forall k :: 0 <= k < |ids[1..]| ==> ids[1..][k] == ids[k + 1];
      OnlyEligibleCalls(request, adapters, registry, ids[1..], number + 1);
    }
  }

  // ----- consequences of the shape -----

  /** Attempts never exceed a nonzero limit, counting a negative one as 1. */
  lemma AttemptsAreLimited(request: Request, selected: string, fallback: seq<string>, rows: seq<Execution>)
    requires RunShape(request, Candidates(request, selected, fallback), 1, rows)
    ensures request.maxAttempts.Some? && request.maxAttempts.value != 0 ==>
      |rows| <= if request.maxAttempts.value < 1 then 1 else request.maxAttempts.value
    ensures !request.fallbackAllowed ==> |rows| == 1
  {
  }

  predicate Different(ids: seq<string>) {
    forall i, j :: 0 <= i < j < |ids| ==> ids[i] != ids[j]
  }

  lemma {:induction false} IdsAreProfileIds(pairs: seq<Pair>, id: string)
    ensures id in Ids(pairs) <==> exists x :: x in pairs && x.profile.id == Some(id)
  {
    if pairs != [] {
      IdsAreProfileIds(pairs[1..], id);
      assert pairs == [pairs[0]] + pairs[1..];
      assert forall x :: x in pairs <==> x == pairs[0] || x in pairs[1..];
    }
  }

  lemma {:induction false} IdsDiffer(pairs: seq<Pair>)
    requires forall i, j :: 0 <= i < j < |pairs| ==> pairs[i].profile.id != pairs[j].profile.id
    ensures Different(Ids(pairs))
  {
    if pairs != [] {
      IdsDiffer(pairs[1..]);
      if pairs[0].profile.id.Some? {
        IdsAreProfileIds(pairs[1..], pairs[0].profile.id.value);
      }
    }
  }

  lemma {:induction false} EligibleAreListed(request: Request, registry: Registry, n: nat, x: Pair)
    requires n <= |registry.profiles| && x in Eligible(request, registry.providers, registry.profiles[..n])
    ensures x.profile in registry.profiles && IsEligible(request, registry.providers, x.profile)
  {
    if n > 0 {
      assert registry.profiles[..n][..n - 1] == registry.profiles[..n - 1];
      if x in Eligible(request, registry.providers, registry.profiles[..n - 1]) {
        EligibleAreListed(request, registry, n - 1, x);
      }
    }
  }

  predicate AllEligible(request: Request, registry: Registry, ids: seq<string>) {
    forall k :: 0 <= k < |ids| ==>
      var profile := ProfileById(registry, ids[k]);
      profile.Some? && IsEligible(request, registry.providers, profile.value)
  }

  lemma OrderedIsEligible(request: Request, registry: Registry, x: Pair)
    requires x in Ordered(request, Eligible(request, registry.providers, registry.profiles))
    ensures x.profile in registry.profiles && IsEligible(request, registry.providers, x.profile)
  {
    var eligible := Eligible(request, registry.providers, registry.profiles);
    OrderedShape(request, eligible);
    assert x in multiset(Ordered(request, eligible));
    assert registry.profiles[..|registry.profiles|] == registry.profiles;
    EligibleAreListed(request, registry, |registry.profiles|, x);
  }

  /** The candidate ids of a routed request name eligible profiles. */
  lemma CandidateIds(request: Request, registry: Registry)
    requires registry.Keyed()
    ensures var ordered := Ordered(request, Eligible(request, registry.providers, registry.profiles));
      && (Eligible(request, registry.providers, registry.profiles) == [] <==> ordered == [])
      && (ordered != [] ==>
            && ordered[0].profile.id.Some?
            && AllEligible(request, registry, Candidates(request, ordered[0].profile.id.value, Ids(ordered[1..]))))
  {
    var ordered := Ordered(request, Eligible(request, registry.providers, registry.profiles));
    OrderedShape(request, Eligible(request, registry.providers, registry.profiles));
    assert |multiset(ordered)| == |multiset(Eligible(request, registry.providers, registry.profiles))|;
    if ordered != [] {
      forall x | x in ordered
        ensures x.profile in registry.profiles && IsEligible(request, registry.providers, x.profile)
      {
        OrderedIsEligible(request, registry, x);
      }
      assert ordered[0] in ordered;
      CandidatesOf(request, registry, ordered);
    }
  }

  lemma CandidatesOf(request: Request, registry: Registry, ordered: seq<Pair>)
    requires registry.Keyed() && ordered != [] && ordered[0].profile.id.Some?
    requires forall x :: x in ordered ==> x.profile in registry.profiles && IsEligible(request, registry.providers, x.profile)
    ensures AllEligible(request, registry, Candidates(request, ordered[0].profile.id.value, Ids(ordered[1..])))
  {
    var ids := Candidates(request, ordered[0].profile.id.value, Ids(ordered[1..]));
    forall k | 0 <= k < |ids|
      ensures ProfileById(registry, ids[k]).Some? && IsEligible(request, registry.providers, ProfileById(registry, ids[k]).value)
    {
      var x := Owner(ordered, ids[k]);
      TheProfile(registry, x.profile);
    }
  }

  /** The pair a candidate id came from. */
  lemma Owner(ordered: seq<Pair>, id: string) returns (x: Pair)
    requires ordered != [] && ordered[0].profile.id.Some? && (id == ordered[0].profile.id.value || id in Ids(ordered[1..]))
    ensures x in ordered && x.profile.id == Some(id)
  {
    if id == ordered[0].profile.id.value {
      x := ordered[0];
    } else {
      IdsAreProfileIds(ordered[1..], id);
      x :| x in ordered[1..] && x.profile.id == Some(id);
    }
  }

  lemma TheProfile(registry: Registry, profile: Profile)
    requires registry.Keyed() && profile in registry.profiles && profile.id.Some?
    ensures ProfileById(registry, profile.id.value) == Some(profile)
  {
    var found := ProfileById(registry, profile.id.value).value;
    var i :| 0 <= i < |registry.profiles| && registry.profiles[i] == found;
    var j :| 0 <= j < |registry.profiles| && registry.profiles[j] == profile;
  }

  /** No profile is tried twice. */
  lemma NoProfileTwice(request: Request, registry: Registry)
    requires registry.Keyed() && Ordered(request, Eligible(request, registry.providers, registry.profiles)) != []
    ensures var ordered := Ordered(request, Eligible(request, registry.providers, registry.profiles));
      ordered[0].profile.id.Some? && Different(Candidates(request, ordered[0].profile.id.value, Ids(ordered[1..])))
  {
    var eligible := Eligible(request, registry.providers, registry.profiles);
    var ordered := Ordered(request, eligible);
    OrderedShape(request, eligible);
    CandidateIds(request, registry);
    EligibleDiffer(request, registry, |registry.profiles|);
    assert registry.profiles[..|registry.profiles|] == registry.profiles;
    IdsOfPermutation(eligible, ordered);
    CandidatesDiffer(request, ordered);
  }

  lemma CandidatesDiffer(request: Request, ordered: seq<Pair>)
    requires ordered != [] && ordered[0].profile.id.Some?
    requires forall i, j :: 0 <= i < j < |ordered| ==> ordered[i].profile.id != ordered[j].profile.id
    ensures Different(Candidates(request, ordered[0].profile.id.value, Ids(ordered[1..])))
  {
    IdsDiffer(ordered);
    assert Ids(ordered) == [ordered[0].profile.id.value] + Ids(ordered[1..]);
  }

  lemma {:induction false} EligibleDiffer(request: Request, registry: Registry, n: nat)
    requires registry.Keyed() && n <= |registry.profiles|
    ensures IdsApart(multiset(Eligible(request, registry.providers, registry.profiles[..n])))
  {
    if n > 0 {
      EligibleDiffer(request, registry, n - 1);
      var before, last := Eligible(request, registry.providers, registry.profiles[..n - 1]), registry.profiles[n - 1];
      assert registry.profiles[..n][..n - 1] == registry.profiles[..n - 1];
      forall x | x in before
        ensures x.profile.id != last.id
      {
        EligibleAmong(request, registry, n - 1, x);
      }
      if IsEligible(request, registry.providers, last) {
        ApartExtends(before, Pair(last, ProviderFor(registry.providers, last.providerId).value));
      } else {
        assert before + [] == before;
      }
    }
  }

  lemma ApartExtends(pairs: seq<Pair>, x: Pair)
    requires IdsApart(multiset(pairs)) && forall y :: y in pairs ==> y.profile.id != x.profile.id
    ensures IdsApart(multiset(pairs + [x]))
  {
    assert forall y :: y in multiset(pairs) <==> y in pairs;
  }

  lemma {:induction false} EligibleAmong(request: Request, registry: Registry, n: nat, x: Pair)
    requires n <= |registry.profiles| && x in Eligible(request, registry.providers, registry.profiles[..n])
    ensures exists k :: 0 <= k < n && registry.profiles[k] == x.profile
  {
    assert registry.profiles[..n][..n - 1] == registry.profiles[..n - 1];
    if x in Eligible(request, registry.providers, registry.profiles[..n - 1]) {
      EligibleAmong(request, registry, n - 1, x);
    }
  }

  /** Each pair is there once, and different pairs have different ids. */
  predicate IdsApart(pairs: multiset<Pair>) {
    && (forall x :: x in pairs ==> pairs[x] == 1)
    && forall x, y :: x in pairs && y in pairs && x != y ==> x.profile.id != y.profile.id
  }

  lemma IdsOfPermutation(a: seq<Pair>, b: seq<Pair>)
    requires multiset(a) == multiset(b) && IdsApart(multiset(a))
    ensures forall i, j :: 0 <= i < j < |b| ==> b[i].profile.id != b[j].profile.id
  {
    forall i, j | 0 <= i < j < |b|
      ensures b[i].profile.id != b[j].profile.id
    {
      assert b[i] in multiset(b) && b[j] in multiset(b);
      CountedTwice(b, i, j);
    }
  }

  lemma CountedTwice<T>(s: seq<T>, i: nat, j: nat)
    requires i < j < |s|
    ensures s[i] == s[j] ==> multiset(s)[s[i]] >= 2
  {
    assert s == s[..i] + [s[i]] + s[i + 1..j] + [s[j]] + s[j + 1..];
  }

  function Upsert(profiles: seq<Profile>, row: Profile): seq<Profile> {
    if profiles == [] then [row]
    else if profiles[0].id == row.id then [row] + profiles[1..]
    else [profiles[0]] + Upsert(profiles[1..], row)
  }

  lemma {:induction false} UpsertMembers(profiles: seq<Profile>, row: Profile)
    ensures forall x :: x in Upsert(profiles, row) ==> x == row || x in profiles
  {
    if profiles != [] && profiles[0].id != row.id {
      UpsertMembers(profiles[1..], row);
    }
  }

  /** An upsert keeps ids unique... */
  lemma {:induction false} UpsertKeepsKeys(profiles: seq<Profile>, row: Profile)
    requires KeyedBy(profiles) && row.id.Some?
    ensures KeyedBy(Upsert(profiles, row))
  {
    if profiles != [] && profiles[0].id != row.id {
      UpsertKeepsKeys(profiles[1..], row);
      UpsertMembers(profiles[1..], row);
      var rest := Upsert(profiles[1..], row);
      forall j | 0 <= j < |rest|
        ensures rest[j].id != profiles[0].id
      {
        assert rest[j] in rest;
      }
    }
  }

  /** ... stores the row under its id and leaves every other id alone. */
  lemma {:induction false} UpsertStores(profiles: seq<Profile>, row: Profile, id: string)
    requires row.id.Some?
    ensures WithId(Upsert(profiles, row), id) == if Some(id) == row.id then Some(row) else WithId(profiles, id)
  {
    if profiles != [] && profiles[0].id != row.id {
      UpsertStores(profiles[1..], row, id);
    }
  }

  /** The profile ids a request may try as things are registered, none when no profile is eligible. */
  function CandidateList(request: Request, registry: Registry): (ids: seq<string>)
    requires registry.Keyed()
    ensures AllEligible(request, registry, ids) && (ids == [] <==> Eligible(request, registry.providers, registry.profiles) == [])
  {
    CandidateIds(request, registry);
    var ordered := Ordered(request, Eligible(request, registry.providers, registry.profiles));
    if ordered == [] then [] else Candidates(request, ordered[0].profile.id.value, Ids(ordered[1..]))
  }

  /** What one request comes to: a blocked row with the gravest code, or a run over its candidates. */
  function ExecutionOf(request: Request, adapters: map<string, Adapter>, registry: Registry): (t: Trace)
    requires registry.Keyed()
    ensures t.rows != []
  {
    var ids := CandidateList(request, registry);
    if ids == [] then Trace([Blocked(Dominant(RejectedCodes(request, registry.providers, registry.profiles)))], registry, [])
    else RunOf(request, adapters, registry, ids, 1)
  }

  predicate ExecutionShape(request: Request, registry: Registry, t: Trace)
    requires registry.Keyed()
  {
    var ids := CandidateList(request, registry);
    if ids == [] then t.rows == [Blocked(Dominant(RejectedCodes(request, registry.providers, registry.profiles)))] && t.calls == []
    else RunShape(request, ids, 1, t.rows)
  }

  // ----- a run, seen from the routed order -----

  /** A failure that may be retried with the next profile, when the request allows falling back at all. */
  predicate Retried(request: Request, row: Execution) {
    request.fallbackAllowed &&
    (|| row.error == Some(ProviderUnavailable) || row.error == Some(Timeout) || row.error == Some(RateLimit)
     || row.error == Some(TransientError) || row.error == Some(InvalidResponse) || row.error == Some(StructuredOutputInvalid)
     || row.error == Some(ProviderError))
  }

  /** The most attempts a request allows, if it says; a negative figure allows one, and zero says nothing. */
  predicate Exceeds(request: Request, attempts: nat) {
    request.maxAttempts.Some? && request.maxAttempts.value != 0 && attempts > 1 && attempts > request.maxAttempts.value
  }

  /** The row of an attempt on the profile, or of one on a profile that vanished. */
  predicate Tries(profile: Profile, number: nat, row: Execution) {
    && row.attempt == number && (row.fallbackUsed <==> number > 1)
    && (row.profileId == profile.id || (row.profileId == None && row.error == Some(ModelNotFound)))
  }

  /** Row after row tries the routed profiles in their order, the selected one first; it goes on only past failures
      that may be retried, and stops early only for another outcome or the attempt limit. */
  predicate FollowsRoute(request: Request, ordered: seq<Pair>, rows: seq<Execution>) {
    && 1 <= |rows| <= |ordered|
    && (forall k :: 0 <= k < |rows| ==> Tries(ordered[k].profile, k + 1, rows[k]))
    && (forall k :: 0 <= k < |rows| - 1 ==> Retried(request, rows[k]))
    && !Exceeds(request, |rows|)
    && (|rows| == |ordered| || !Retried(request, rows[|rows| - 1]) || Exceeds(request, |rows| + 1))
  }

  lemma RetriedExactly(request: Request, row: Execution)
    ensures FallsThrough(request, row) <==> Retried(request, row)
  {
  }

  lemma {:induction false} IdsInPlace(pairs: seq<Pair>)
    requires forall x :: x in pairs ==> x.profile.id.Some?
    ensures |Ids(pairs)| == |pairs| && forall k :: 0 <= k < |pairs| ==> pairs[k].profile.id == Some(Ids(pairs)[k])
  {
    if pairs != [] {
      IdsInPlace(pairs[1..]);
      assert forall k :: 0 < k < |pairs| ==> pairs[k] == pairs[1..][k - 1];
    }
  }

  /** The candidates are the routed profiles from the first on: the first alone without fallback, and
      otherwise as many as the limit leaves. */
  lemma CandidatesInPlace(request: Request, ordered: seq<Pair>)
    requires ordered != [] && forall x :: x in ordered ==> x.profile.id.Some?
    ensures var ids := Candidates(request, ordered[0].profile.id.value, Ids(ordered[1..]));
      && 1 <= |ids| <= |ordered| && (forall k :: 0 <= k < |ids| ==> ordered[k].profile.id == Some(ids[k]))
      && !Exceeds(request, |ids|)
      && (|ids| == |ordered| || Exceeds(request, |ids| + 1) || !request.fallbackAllowed)
  {
    IdsInPlace(ordered[1..]);
    assert forall k :: 0 < k < |ordered| ==> ordered[k] == ordered[1..][k - 1];
  }

  lemma ShapeFollowsRoute(request: Request, ordered: seq<Pair>, rows: seq<Execution>)
    requires ordered != [] && forall x :: x in ordered ==> x.profile.id.Some?
    requires RunShape(request, Candidates(request, ordered[0].profile.id.value, Ids(ordered[1..])), 1, rows)
    ensures FollowsRoute(request, ordered, rows)
  {
    var ids := Candidates(request, ordered[0].profile.id.value, Ids(ordered[1..]));
    CandidatesInPlace(request, ordered);
    forall k | 0 <= k < |rows|
      ensures Tries(ordered[k].profile, k + 1, rows[k])
    {
      assert RowFor(ids[k], 1 + k, rows[k]);
    }
    forall k | 0 <= k < |rows| - 1
      ensures Retried(request, rows[k])
    {
      RetriedExactly(request, rows[k]);
    }
    RetriedExactly(request, rows[|rows| - 1]);
  }

  /** The call is the one the row is about, and the row says how it went. */
  predicate Explains(request: Request, call: Call, row: Execution) {
    && call.profile.id == row.profileId
    && match call.outcome
       case Unavailable => row.error == Some(ProviderUnavailable)
       case Raised(code) => row.error == Some(code)
       case Crashed => row.error == Some(ProviderError)
       case Returned(hasData, conforms) =>
         row.error == if request.structured && !(hasData && conforms) then Some(StructuredOutputInvalid) else None
  }

  /** The calls are made row by row; only a row without a profile, an adapter or a provider has none. */
  predicate CallsAlong(request: Request, rows: seq<Execution>, calls: seq<Call>) {
    if rows == [] then calls == []
    else if calls != [] && Explains(request, calls[0], rows[0]) && CallsAlong(request, rows[1..], calls[1..]) then true
    else (rows[0].error == Some(ModelNotFound) || rows[0].error == Some(ProviderUnavailable)) && CallsAlong(request, rows[1..], calls)
  }

  lemma {:induction false} RunCallsAlong(request: Request, adapters: map<string, Adapter>, registry: Registry, ids: seq<string>, number: nat)
    requires ids != []
    ensures var t := RunOf(request, adapters, registry, ids, number); CallsAlong(request, t.rows, t.calls)
    decreases |ids|
  {
    var one := AttemptOf(request, adapters, registry, ids[0], number);
    if |ids| > 1 && FallsThrough(request, one.rows[0]) {
      RunCallsAlong(request, adapters, one.registry, ids[1..], number + 1);
      var later := RunOf(request, adapters, one.registry, ids[1..], number + 1);
      CallsJoin(request, one, later);
    } else {
      assert one.rows[1..] == [] && (one.calls != [] ==> one.calls[1..] == []);
    }
  }

  lemma CallsJoin(request: Request, one: Trace, later: Trace)
    requires |one.rows| == 1 && |one.calls| <= 1 && CallsAlong(request, later.rows, later.calls)
    requires if one.calls == [] then one.rows[0].error == Some(ModelNotFound) || one.rows[0].error == Some(ProviderUnavailable)
             else Explains(request, one.calls[0], one.rows[0])
    ensures var t := Following(one, later); CallsAlong(request, t.rows, t.calls)
  {
    var t := Following(one, later);
    assert t.rows[1..] == later.rows;
    if one.calls == [] {
      assert t.calls == later.calls;
    } else {
      assert t.calls[1..] == later.calls;
    }
  }

  /** The rows have the shape of a run; the last one succeeds if and only if some adapter gave an acceptable
      answer; and adapters that leave the registrations alone only saw eligible profiles. */
  ghost predicate ExecutionSound(request: Request, adapters: map<string, Adapter>, registry: Registry, t: Trace)
    requires registry.Keyed() && t.rows != []
  {
    && ExecutionShape(request, registry, t)
    && (var ordered := Ordered(request, Eligible(request, registry.providers, registry.profiles));
        ordered != [] ==> FollowsRoute(request, ordered, t.rows) && CallsAlong(request, t.rows, t.calls))
    && (Succeeded(t.rows[|t.rows| - 1]) <==> Answered(request, t.calls))
    && (AllLeaveRegistry(adapters) ==> OnlyEligible(request, registry, t))
  }

  lemma ExecutionFacts(request: Request, adapters: map<string, Adapter>, registry: Registry)
    requires registry.Keyed()
    ensures ExecutionSound(request, adapters, registry, ExecutionOf(request, adapters, registry))
  {
    var ids := CandidateList(request, registry);
    if ids != [] {
      RunFacts(request, adapters, registry, ids);
      var ordered := Ordered(request, Eligible(request, registry.providers, registry.profiles));
      forall x | x in ordered
        ensures x.profile.id.Some?
      {
        OrderedIsEligible(request, registry, x);
      }
      ShapeFollowsRoute(request, ordered, RunOf(request, adapters, registry, ids, 1).rows);
      RunCallsAlong(request, adapters, registry, ids, 1);
    } else {
      CandidateIds(request, registry);
    }
  }

  lemma RunFacts(request: Request, adapters: map<string, Adapter>, registry: Registry, ids: seq<string>)
    requires ids != [] && AllEligible(request, registry, ids)
    ensures var t := RunOf(request, adapters, registry, ids, 1);
      && RunShape(request, ids, 1, t.rows)
      && (Succeeded(t.rows[|t.rows| - 1]) <==> Answered(request, t.calls))
      && (AllLeaveRegistry(adapters) ==> OnlyEligible(request, registry, t))
  {
    RunHasShape(request, adapters, registry, ids, 1);
    SuccessIsLast(request, adapters, registry, ids, 1);
    if AllLeaveRegistry(adapters) {
      OnlyEligibleCalls(request, adapters, registry, ids, 1);
    }
  }

  class ModelGateway {
    var registry: Registry
    var adapters: map<string, Adapter>
    var executions: seq<Execution>
    var fallbackEvents: nat
    var calls: seq<Call>  // every profile handed to an adapter, with its answer

    constructor ()
      ensures registry.Keyed() && executions == [] && calls == [] && fallbackEvents == 0
    {
      registry, adapters, executions, fallbackEvents, calls := Registry([], []), map[], [], 0, [];
    }

    /** Adds the profile or replaces the one with its id; `newId` is the id allocated when it has none. */
    method RegisterProfile(profile: Profile, newId: string) returns (ok: bool)
      requires registry.Keyed()
      modifies this`registry
      ensures registry.Keyed() && registry.providers == old(registry.providers)
      ensures ok <==> exists p :: p in registry.providers && p.id == Some(profile.providerId)
      ensures !ok ==> registry == old(registry)
      ensures ok ==>
        var id := if profile.id.Some? then profile.id.value else newId;
        ProfileById(registry, id) == Some(profile.(id := Some(id))) &&
        forall other :: other != id ==> ProfileById(registry, other) == ProfileById(old(registry), other)
    {
      if !(exists p :: p in registry.providers && p.id == Some(profile.providerId)) {
        return false;
      }
      var row := profile.(id := Some(if profile.id.Some? then profile.id.value else newId));
      UpsertKeepsKeys(registry.profiles, row);
      forall other
        ensures WithId(Upsert(registry.profiles, row), other) == if Some(other) == row.id then Some(row) else WithId(registry.profiles, other)
      {
        UpsertStores(registry.profiles, row, other);
      }
      registry := registry.(profiles := Upsert(registry.profiles, row));
      return true;
    }

    /** Everything one request does, attempts and all: the response succeeds if and only if some adapter
        called on the way gave an acceptable answer. */
    method ExecuteWithFallback(request: Request) returns (response: Execution)
      requires registry.Keyed()
      modifies this`registry, this`executions, this`fallbackEvents, this`calls
      ensures var t := ExecutionOf(request, adapters, old(registry));
        && Recorded(old(executions), old(calls), t)
        && fallbackEvents == old(fallbackEvents) + |t.rows| - 1 && response == t.rows[|t.rows| - 1]
        && ExecutionSound(request, adapters, old(registry), t)
    {
      ExecutionFacts(request, adapters, registry);
      var ids, code := RouteRequest(request);
      if ids == [] {
        response := Blocked(code);
        executions := executions + [response];
        return;
      }
      response := TryInTurn(request, ids);
    }

    /** The ids to try, or the code to block the request with. */
    method RouteRequest(request: Request) returns (ids: seq<string>, code: ErrorCode)
      requires registry.Keyed()
      ensures ids == CandidateList(request, registry)
      ensures ids == [] ==> code == Dominant(RejectedCodes(request, registry.providers, registry.profiles))
    {
      var decision := Route(request, registry.providers, registry.profiles);
      CandidateIds(request, registry);
      if decision.error.Some? || decision.selected.None? {
        return [], if decision.error.Some? then decision.error.value else NoEligibleModel;
      }
      return Candidates(request, decision.selected.value, decision.fallback), NoEligibleModel;
    }

    /** The gateway has added exactly `t` to what it had recorded. */
    ghost predicate Recorded(executions0: seq<Execution>, calls0: seq<Call>, t: Trace)
      reads this
    {
      executions == executions0 + t.rows && calls == calls0 + t.calls && registry == t.registry
    }

    method TryInTurn(request: Request, ids: seq<string>) returns (response: Execution)
      requires ids != []
      modifies this`registry, this`executions, this`fallbackEvents, this`calls
      ensures var t := RunOf(request, adapters, old(registry), ids, 1);
        Recorded(old(executions), old(calls), t) && fallbackEvents == old(fallbackEvents) + |t.rows| - 1 && response == t.rows[|t.rows| - 1]
    {
      var n := 0;
      ghost var done, whole := Trace([], registry, []), RunOf(request, adapters, registry, ids, 1);
      FollowingNothing(whole);
      assert ids[0..] == ids;
      while true
        invariant 0 <= n < |ids| && |done.rows| == n
        invariant Recorded(old(executions), old(calls), done) && fallbackEvents == old(fallbackEvents) + n
        invariant Following(done, RunOf(request, adapters, done.registry, ids[n..], n + 1)) == whole
        decreases |ids| - n
      {
        ghost var one := AttemptOf(request, adapters, registry, ids[n], n + 1);
        TryStep(request, adapters, ids, n, done, one, whole);
        response := Attempt(request, ids[n], n + 1);
        Appended(old(executions), done.rows, one.rows);
        Appended(old(calls), done.calls, one.calls);
        if !FallsThrough(request, response) || n + 1 == |ids| {
          return;
        }
        done := Following(done, one);
        fallbackEvents := fallbackEvents + 1;
        n := n + 1;
      }
    }

    /** One attempt: look the profile up, find its adapter, call it, record the row. */
    method Attempt(request: Request, id: string, number: nat) returns (row: Execution)
      requires number >= 1
      modifies this`registry, this`executions, this`calls
      ensures var one := AttemptOf(request, adapters, old(registry), id, number);
        one.rows == [row] && Recorded(old(executions), old(calls), one)
    {
      var profile := ProfileById(registry, id);
      if profile.None? {
        row := Vanished(number);
      } else if profile.value.providerId !in adapters || ProviderFor(registry.providers, profile.value.providerId).None? {
        row := Execution(Some(id), number, Some(ProviderUnavailable), number > 1);
      } else {
        var (outcome, next) := adapters[profile.value.providerId](number, request, profile.value, registry);
        calls := calls + [Call(profile.value, outcome)];
        registry := next;
        row := Execution(Some(id), number, ErrorOf(request, outcome), number > 1);
      }
      executions := executions + [row];
    }
  }

  lemma RunUnfolds(request: Request, adapters: map<string, Adapter>, registry: Registry, ids: seq<string>, n: nat)
    requires n < |ids|
    ensures var one := AttemptOf(request, adapters, registry, ids[n], n + 1);
      && |one.rows| == 1
      && RunOf(request, adapters, registry, ids[n..], n + 1) ==
           if !FallsThrough(request, one.rows[0]) || n + 1 == |ids| then one
           else Following(one, RunOf(request, adapters, one.registry, ids[n + 1..], n + 2))
  {
    assert ids[n..][0] == ids[n] && ids[n..][1..] == ids[n + 1..];
  }

  lemma TryStep(request: Request, adapters: map<string, Adapter>, ids: seq<string>, n: nat, done: Trace, one: Trace, whole: Trace)
    requires n < |ids| && one == AttemptOf(request, adapters, done.registry, ids[n], n + 1)
    requires Following(done, RunOf(request, adapters, done.registry, ids[n..], n + 1)) == whole
    ensures |one.rows| == 1
    ensures if !FallsThrough(request, one.rows[0]) || n + 1 == |ids| then whole == Following(done, one)
            else whole == Following(Following(done, one), RunOf(request, adapters, one.registry, ids[n + 1..], n + 2))
  {
    RunUnfolds(request, adapters, done.registry, ids, n);
    if FallsThrough(request, one.rows[0]) && n + 1 < |ids| {
      FollowingStep(done, one, RunOf(request, adapters, one.registry, ids[n + 1..], n + 2));
    }
  }

  lemma FollowingNothing(t: Trace)
    ensures Following(Trace([], t.registry, []), t) == t
    ensures forall registry :: Following(Trace([], registry, []), t) == t
  {
    assert [] + t.rows == t.rows && [] + t.calls == t.calls;
  }

  lemma FollowingStep(done: Trace, one: Trace, later: Trace)
    ensures Following(done, Following(one, later)) == Following(Following(done, one), later)
  {
    Appended(done.rows, one.rows, later.rows);
    Appended(done.calls, one.calls, later.calls);
  }

  lemma Appended<T>(a: seq<T>, b: seq<T>, c: seq<T>)
    ensures a + b + c == a + (b + c)
  {
  }
}
