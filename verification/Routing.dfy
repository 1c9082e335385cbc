/** The capability router: filters the profiles a request may use, orders them, and explains a refusal. */
module Routing {
  import opened Prelude
  import opened Policies
  import opened Ordering
  import opened Preference

  datatype Rejection = Rejection(profileId: Option<string>, code: ErrorCode)

  datatype Decision = Decision(selected: Option<string>, fallback: seq<string>, rejected: seq<Rejection>, error: Option<ErrorCode>)

  // ----- eligibility -----

  /** The registered provider of that id; a later registration wins. */
  function ProviderFor(providers: seq<Provider>, id: string): Option<Provider> {
    if providers == [] then None
    else if providers[|providers| - 1].id == Some(id) then Some(providers[|providers| - 1])
    else ProviderFor(providers[..|providers| - 1], id)
  }

  predicate IsEligible(request: Request, providers: seq<Provider>, profile: Profile) {
    var provider := ProviderFor(providers, profile.providerId);
    provider.Some? && Admits(request, provider.value, profile)
  }

  predicate IsRejected(request: Request, providers: seq<Provider>, profile: Profile, code: ErrorCode) {
    match ProviderFor(providers, profile.providerId)
    case None => code == ProviderUnavailable
    case Some(provider) => BlockedBy(request, provider, profile, code)
  }

  function Eligible(request: Request, providers: seq<Provider>, profiles: seq<Profile>): seq<Pair> {
    if profiles == [] then []
    else
      var last := profiles[|profiles| - 1];
      Eligible(request, providers, profiles[..|profiles| - 1]) +
      if IsEligible(request, providers, last) then [Pair(last, ProviderFor(providers, last.providerId).value)] else []
  }

  /** Every profile is eligible, or some guard rejects it, and not both. */
  lemma EligibleOrRejected(request: Request, providers: seq<Provider>, profile: Profile)
    ensures IsEligible(request, providers, profile) <==> forall code :: !IsRejected(request, providers, profile, code)
  {
    var provider := ProviderFor(providers, profile.providerId);
    if provider.None? {
      assert IsRejected(request, providers, profile, ProviderUnavailable);
    } else if !Admits(request, provider.value, profile) {
      assert IsRejected(request, providers, profile, ProviderUnavailable) || IsRejected(request, providers, profile, ModelDisabled)
        || IsRejected(request, providers, profile, CapabilityUnavailable) || IsRejected(request, providers, profile, PrivacyPolicyBlock)
        || IsRejected(request, providers, profile, CostPolicyBlock) || IsRejected(request, providers, profile, ContextLimitExceeded)
        || IsRejected(request, providers, profile, BudgetExceeded);
    }
  }

  /** The last provider registered under the id is at `k`. */
  predicate LastUnder(providers: seq<Provider>, id: string, k: nat) {
    k < |providers| && providers[k].id == Some(id) && forall j :: k < j < |providers| ==> providers[j].id != Some(id)
  }

  /** The registration that counts for an id is the last one under it. */
  predicate Registered(providers: seq<Provider>, id: string, provider: Provider) {
    exists k :: 0 <= k < |providers| && LastUnder(providers, id, k) && providers[k] == provider
  }

  lemma {:induction false} LastRegistration(providers: seq<Provider>, id: string) returns (k: Option<nat>)
    ensures k.Some? ==> LastUnder(providers, id, k.value) && ProviderFor(providers, id) == Some(providers[k.value])
    ensures k.None? ==> ProviderFor(providers, id) == None && forall j :: 0 <= j < |providers| ==> providers[j].id != Some(id)
  {
    if providers == [] {
      k := None;
    } else if providers[|providers| - 1].id == Some(id) {
      k := Some(|providers| - 1);
    } else {
      var n := |providers| - 1;
      k := LastRegistration(providers[..n], id);
      assert forall j :: 0 <= j < n ==> providers[..n][j] == providers[j];
    }
  }

  lemma RegisteredExactly(providers: seq<Provider>, id: string, provider: Provider)
    ensures ProviderFor(providers, id) == Some(provider) <==> Registered(providers, id, provider)
  {
    var last := LastRegistration(providers, id);
    if Registered(providers, id, provider) {
      var k :| 0 <= k < |providers| && LastUnder(providers, id, k) && providers[k] == provider;
      assert last.Some? && last.value == k;
    }
  }

  /** Exactly which pairs are eligible: a listed profile, with the provider registered for it, that is usable. */
  lemma {:induction false} EligibleExactly(request: Request, providers: seq<Provider>, profiles: seq<Profile>, x: Pair, tokens: int)
    requires Estimates(request, tokens)
    ensures x in Eligible(request, providers, profiles) <==>
      x.profile in profiles && Registered(providers, x.profile.providerId, x.provider) && Usable(request, x.provider, x.profile, tokens)
  {
    if profiles != [] {
      var n := |profiles| - 1;
      EligibleExactly(request, providers, profiles[..n], x, tokens);
      RegisteredExactly(providers, x.profile.providerId, x.provider);
      AdmitsExactly(request, x.provider, x.profile, tokens);
      assert x.profile in profiles <==> x.profile in profiles[..n] || x.profile == profiles[n];
    }
  }

  // ----- ordering -----

  predicate Named(pair: Pair, id: string) {
    pair.profile.id == Some(id) || pair.profile.modelName == id
  }

  /** The first pair an id names, by profile id or model name. */
  function FirstNamed(pairs: seq<Pair>, id: string): (k: Option<nat>)
    ensures k.None? ==> forall i :: 0 <= i < |pairs| ==> !Named(pairs[i], id)
    ensures k.Some? ==> k.value < |pairs| && Named(pairs[k.value], id) && forall i :: 0 <= i < k.value ==> !Named(pairs[i], id)
  {
    if pairs == [] then None
    else if Named(pairs[0], id) then Some(0)
    else
      match FirstNamed(pairs[1..], id)
      case None => None
      case Some(k) => Some(k + 1)
  }

  function Without(pairs: seq<Pair>, k: nat): seq<Pair>
    requires k < |pairs|
  {
    pairs[..k] + pairs[k + 1..]
  }

  datatype Picked = Picked(explicit: seq<Pair>, rest: seq<Pair>)

  /** Takes out, for each requested id in turn, the first remaining pair it names. */
  function Pick(ids: seq<string>, remaining: seq<Pair>): Picked {
    if ids == [] then Picked([], remaining)
    else
      match FirstNamed(remaining, ids[0])
      case None => Pick(ids[1..], remaining)
      case Some(k) =>
        var later := Pick(ids[1..], Without(remaining, k));
        Picked([remaining[k]] + later.explicit, later.rest)
  }

  function Ordered(request: Request, eligible: seq<Pair>): seq<Pair> {
    var picked := Pick(request.fallbackIds, Sorted(request, eligible));
    picked.explicit + picked.rest
  }

  ghost function Joined(explicit: seq<Pair>, later: Picked): Picked {
    Picked(explicit + later.explicit, later.rest)
  }

  lemma JoinedStep(explicit: seq<Pair>, x: Pair, later: Picked)
    ensures Joined(explicit, Picked([x] + later.explicit, later.rest)) == Joined(explicit + [x], later)
  {
    assert explicit + ([x] + later.explicit) == explicit + [x] + later.explicit;
  }

  method OrderEligible(request: Request, eligible: seq<Pair>) returns (ordered: seq<Pair>)
    ensures ordered == Ordered(request, eligible)
  {
    var sorted := Sorted(request, eligible);
    if request.fallbackIds == [] {
      return sorted;
    }
    var explicit: seq<Pair>, remaining := [], sorted;
    ghost var whole := Pick(request.fallbackIds, sorted);
    assert request.fallbackIds[0..] == request.fallbackIds;
    for i := 0 to |request.fallbackIds|
      invariant Joined(explicit, Pick(request.fallbackIds[i..], remaining)) == whole
    {
      ghost var later := request.fallbackIds[i + 1..];
      assert request.fallbackIds[i..][1..] == later;
      var k := FirstNamed(remaining, request.fallbackIds[i]);
      if k.Some? {
        JoinedStep(explicit, remaining[k.value], Pick(later, Without(remaining, k.value)));
        explicit := explicit + [remaining[k.value]];
        remaining := Without(remaining, k.value);
      }
    }
    if explicit == [] {
      PickingNothing(request.fallbackIds, sorted);
      return sorted;
    }
    return explicit + remaining;
  }

  lemma {:induction false} PickingNothing(ids: seq<string>, remaining: seq<Pair>)
    requires Pick(ids, remaining).explicit == []
    ensures Pick(ids, remaining).rest == remaining
  {
    if ids != [] {
      PickingNothing(ids[1..], remaining);
    }
  }

  /** `explicit` names requested ids, in the order of the request. */
  predicate MatchesAlong(explicit: seq<Pair>, ids: seq<string>) {
    explicit == [] ||
    (ids != [] && ((Named(explicit[0], ids[0]) && MatchesAlong(explicit[1..], ids[1..])) || MatchesAlong(explicit, ids[1..])))
  }

  lemma WithoutKeeps(request: Request, pairs: seq<Pair>, k: nat)
    requires k < |pairs|
    ensures multiset(pairs) == multiset(Without(pairs, k)) + multiset{pairs[k]}
    ensures InOrder(request, pairs) ==> InOrder(request, Without(pairs, k))
  {
    assert pairs == pairs[..k] + [pairs[k]] + pairs[k + 1..];
    var rest := Without(pairs, k);
    assert forall i :: 0 <= i < |rest| ==> rest[i] == pairs[if i < k then i else i + 1];
  }

  /** Picking loses nothing, keeps the unpicked in key order, and follows the request. */
  lemma {:induction false} PickingIsFaithful(request: Request, ids: seq<string>, remaining: seq<Pair>)
    requires InOrder(request, remaining)
    ensures var picked := Pick(ids, remaining);
      && multiset(picked.explicit + picked.rest) == multiset(remaining)
      && InOrder(request, picked.rest) && MatchesAlong(picked.explicit, ids)
  {
    if ids != [] {
      var k := FirstNamed(remaining, ids[0]);
      if k.None? {
        PickingIsFaithful(request, ids[1..], remaining);
      } else {
        WithoutKeeps(request, remaining, k.value);
        PickingIsFaithful(request, ids[1..], Without(remaining, k.value));
        var picked := Pick(ids, remaining);
        assert picked.explicit[1..] == Pick(ids[1..], Without(remaining, k.value)).explicit;
      }
    }
  }

  /** A requested id that names an eligible pair gets one picked: no unpicked pair carries a
      requested name that was never served. */
  lemma {:induction false} EveryNameIsServed(ids: seq<string>, remaining: seq<Pair>, j: nat, x: Pair)
    requires j < |ids| && x in remaining && Named(x, ids[j])
    ensures exists y :: y in Pick(ids, remaining).explicit && Named(y, ids[j])
  {
    var k := FirstNamed(remaining, ids[0]);
    if k.None? {
      EveryNameIsServed(ids[1..], remaining, j - 1, x);
    } else {
      var later := Pick(ids[1..], Without(remaining, k.value));
      if j == 0 || Named(remaining[k.value], ids[j]) {
        assert remaining[k.value] in Pick(ids, remaining).explicit;
      } else {
        assert x != remaining[k.value];
        assert x in Without(remaining, k.value);
        EveryNameIsServed(ids[1..], Without(remaining, k.value), j - 1, x);
        var y :| y in later.explicit && Named(y, ids[j]);
        assert y in Pick(ids, remaining).explicit;
      }
    }
  }

  /** The order of the eligible pairs: all of them, the requested ones first in the order of the
      request, whatever the preferred model, and the others by their key. */
  lemma OrderedShape(request: Request, eligible: seq<Pair>)
    ensures var picked := Pick(request.fallbackIds, Sorted(request, eligible));
      && Ordered(request, eligible) == picked.explicit + picked.rest
      && multiset(Ordered(request, eligible)) == multiset(eligible)
      && MatchesAlong(picked.explicit, request.fallbackIds) && InOrder(request, picked.rest)
  {
    SortedIsSorted(request, eligible);
    PickingIsFaithful(request, request.fallbackIds, Sorted(request, eligible));
  }

  lemma SortedByPreference(request: Request, pairs: seq<Pair>)
    requires InOrder(request, pairs)
    ensures ByPreference(request, pairs)
  {
    forall i, j | 0 <= i < j < |pairs|
      ensures !Preferred(request, pairs[j], pairs[i])
    {
      PreferredExactly(request, pairs[j], pairs[i]);
    }
  }

  function Joint(picked: Picked): seq<Pair> {
    picked.explicit + picked.rest
  }

  /** Picking from pairs in key order arranges them by the requested ids and the preferences. */
  lemma {:induction false} PickingArranges(request: Request, ids: seq<string>, remaining: seq<Pair>)
    requires InOrder(request, remaining)
    ensures Arranged(request, ids, Joint(Pick(ids, remaining)))
    ensures multiset(Joint(Pick(ids, remaining))) == multiset(remaining)
  {
    PickingIsFaithful(request, ids, remaining);
    if ids == [] {
      SortedByPreference(request, remaining);
      assert Joint(Pick(ids, remaining)) == remaining;
    } else {
      var k := FirstNamed(remaining, ids[0]);
      if k.None? {
        PickingArranges(request, ids[1..], remaining);
        NoneArranged(request, ids, Joint(Pick(ids, remaining)), remaining);
      } else {
        var left := Without(remaining, k.value);
        WithoutKeeps(request, remaining, k.value);
        PickingArranges(request, ids[1..], left);
        FirstIsBest(request, remaining, k.value, ids[0], Joint(Pick(ids[1..], left)));
        HeadArranged(request, ids, remaining[k.value], Joint(Pick(ids[1..], left)));
        JointHead(ids, remaining);
      }
    }
  }

  lemma JointHead(ids: seq<string>, remaining: seq<Pair>)
    requires ids != [] && FirstNamed(remaining, ids[0]).Some?
    ensures var k := FirstNamed(remaining, ids[0]).value;
      Joint(Pick(ids, remaining)) == [remaining[k]] + Joint(Pick(ids[1..], Without(remaining, k)))
  {
    var k := FirstNamed(remaining, ids[0]).value;
    var later := Pick(ids[1..], Without(remaining, k));
    assert [remaining[k]] + later.explicit + later.rest == [remaining[k]] + (later.explicit + later.rest);
  }

  lemma SameMembers<T>(a: seq<T>, b: seq<T>)
    requires multiset(a) == multiset(b)
    ensures forall x :: x in a <==> x in b
  {
    assert forall x :: x in a <==> x in multiset(a);
    assert forall x :: x in b <==> x in multiset(b);
  }

  lemma NoneArranged(request: Request, ids: seq<string>, pairs: seq<Pair>, remaining: seq<Pair>)
    requires ids != [] && Arranged(request, ids[1..], pairs) && multiset(pairs) == multiset(remaining)
    requires forall i :: 0 <= i < |remaining| ==> !Named(remaining[i], ids[0])
    ensures Arranged(request, ids, pairs)
  {
    SameMembers(pairs, remaining);
    assert NoneGoesBy(pairs, ids[0]);
  }

  lemma HeadArranged(request: Request, ids: seq<string>, x: Pair, others: seq<Pair>)
    requires ids != [] && BestOf(request, x, others, ids[0]) && Arranged(request, ids[1..], others)
    ensures Arranged(request, ids, [x] + others)
  {
    var all := [x] + others;
    assert all[1..] == others && x in all;
  }

  lemma FirstIsBest(request: Request, remaining: seq<Pair>, k: nat, id: string, others: seq<Pair>)
    requires InOrder(request, remaining) && k < |remaining| && Named(remaining[k], id)
    requires forall i :: 0 <= i < k ==> !Named(remaining[i], id)
    requires multiset(others) == multiset(Without(remaining, k))
    ensures BestOf(request, remaining[k], others, id)
  {
    forall y | y in others && GoesBy(y, id)
      ensures !Preferred(request, y, remaining[k])
    {
      assert y in multiset(others);
      var m :| 0 <= m < |Without(remaining, k)| && Without(remaining, k)[m] == y;
      assert y == remaining[if m < k then m else m + 1];
      PreferredExactly(request, y, remaining[k]);
    }
  }

  /** The whole order, independently of how it is computed. */
  lemma OrderedByPreference(request: Request, eligible: seq<Pair>)
    ensures Arranged(request, request.fallbackIds, Ordered(request, eligible))
    ensures multiset(Ordered(request, eligible)) == multiset(eligible)
  {
    SortedIsSorted(request, eligible);
    PickingArranges(request, request.fallbackIds, Sorted(request, eligible));
    assert Ordered(request, eligible) == Joint(Pick(request.fallbackIds, Sorted(request, eligible)));
  }

  // ----- the decision -----

  function RejectedCodes(request: Request, providers: seq<Provider>, profiles: seq<Profile>): set<ErrorCode> {
    set k: nat, code: ErrorCode | k < |profiles| && IsRejected(request, providers, profiles[k], code) :: code
  }

  /** The gravest code, policy before budget before capability before availability. */
  function Dominant(codes: set<ErrorCode>): ErrorCode {
    if PrivacyPolicyBlock in codes then PrivacyPolicyBlock
    else if CostPolicyBlock in codes then CostPolicyBlock
    else if BudgetExceeded in codes then BudgetExceeded
    else if ContextLimitExceeded in codes then ContextLimitExceeded
    else if CapabilityUnavailable in codes then CapabilityUnavailable
    else if ModelDisabled in codes then ModelDisabled
    else if ProviderUnavailable in codes then ProviderUnavailable
    else NoEligibleModel
  }

  /** A profile problem of the first kind is reported before one of the second. */
  predicate Graver(a: ErrorCode, b: ErrorCode) {
    match a
    case PrivacyPolicyBlock => b != PrivacyPolicyBlock
    case CostPolicyBlock => b == BudgetExceeded || b == ContextLimitExceeded || b == CapabilityUnavailable || b == ModelDisabled || b == ProviderUnavailable
    case BudgetExceeded => b == ContextLimitExceeded || b == CapabilityUnavailable || b == ModelDisabled || b == ProviderUnavailable
    case ContextLimitExceeded => b == CapabilityUnavailable || b == ModelDisabled || b == ProviderUnavailable
    case CapabilityUnavailable => b == ModelDisabled || b == ProviderUnavailable
    case ModelDisabled => b == ProviderUnavailable
    case _ => false
  }

  /** The codes a profile can be refused with. */
  predicate Refusing(code: ErrorCode) {
    || code == PrivacyPolicyBlock || code == CostPolicyBlock || code == BudgetExceeded || code == ContextLimitExceeded
    || code == CapabilityUnavailable || code == ModelDisabled || code == ProviderUnavailable
  }

  lemma DominantExactly(codes: set<ErrorCode>)
    requires forall code :: code in codes ==> Refusing(code)
    ensures codes == {} <==> Dominant(codes) == NoEligibleModel
    ensures codes != {} ==> Dominant(codes) in codes && forall code :: code in codes ==> !Graver(code, Dominant(codes))
  {
    if codes != {} {
      var code :| code in codes;
      assert Refusing(code);
    }
  }

  /** A request no profile may serve is answered with a code some profile was refused with, and no profile
      was refused with a graver one. */
  lemma RefusalIsGravest(request: Request, providers: seq<Provider>, profiles: seq<Profile>)
    requires Eligible(request, providers, profiles) == [] && profiles != []
    ensures var code := Dominant(RejectedCodes(request, providers, profiles));
      && (exists profile :: profile in profiles && IsRejected(request, providers, profile, code))
      && forall profile, other :: profile in profiles && IsRejected(request, providers, profile, other) ==> !Graver(other, code)
  {
    var codes := RejectedCodes(request, providers, profiles);
    DominantExactly(codes);
    NoEligibleModelExactly(request, providers, profiles);
    forall profile, other | profile in profiles && IsRejected(request, providers, profile, other)
      ensures other in codes
    {
      var k: nat :| k < |profiles| && profiles[k] == profile;
      assert IsRejected(request, providers, profiles[k], other);
    }
  }

  /** The ids of the fallback profiles; a profile without one is left out. */
  function Ids(pairs: seq<Pair>): seq<string> {
    if pairs == [] then []
    else (if pairs[0].profile.id.Some? then [pairs[0].profile.id.value] else []) + Ids(pairs[1..])
  }

  /** The codes one profile is refused with, in the order of the guards. */
  function CodesFor(request: Request, providers: seq<Provider>, profile: Profile): seq<ErrorCode> {
    match ProviderFor(providers, profile.providerId)
    case None => [ProviderUnavailable]
    case Some(provider) => Blockers(request, provider, profile)
  }

  /** The rejections, profile by profile in the order of the list. */
  function Rejections(request: Request, providers: seq<Provider>, profiles: seq<Profile>): seq<Rejection> {
    if profiles == [] then []
    else
      var last := profiles[|profiles| - 1];
      Rejections(request, providers, profiles[..|profiles| - 1]) + Explained(last.id, CodesFor(request, providers, last))
  }

  lemma {:induction false} RejectionsExactly(request: Request, providers: seq<Provider>, profiles: seq<Profile>)
    ensures forall id, code :: Rejection(id, code) in Rejections(request, providers, profiles) <==>
      exists k :: 0 <= k < |profiles| && profiles[k].id == id && IsRejected(request, providers, profiles[k], code)
  {
    if profiles != [] {
      var n := |profiles| - 1;
      RejectionsExactly(request, providers, profiles[..n]);
      CodesExactly(request, providers, profiles[n]);
      forall id, code
        ensures Rejection(id, code) in Rejections(request, providers, profiles) <==>
          exists k :: 0 <= k < |profiles| && profiles[k].id == id && IsRejected(request, providers, profiles[k], code)
      {
        assert forall k :: 0 <= k < n ==> profiles[..n][k] == profiles[k];
        assert Rejection(id, code) in Rejections(request, providers, profiles) <==>
          Rejection(id, code) in Rejections(request, providers, profiles[..n]) ||
          (profiles[n].id == id && IsRejected(request, providers, profiles[n], code));
      }
    }
  }

  lemma CodesExactly(request: Request, providers: seq<Provider>, profile: Profile)
    ensures forall code :: code in CodesFor(request, providers, profile) <==> IsRejected(request, providers, profile, code)
  {
  }

  method Route(request: Request, providers: seq<Provider>, profiles: seq<Profile>) returns (d: Decision)
    ensures d.rejected == Rejections(request, providers, profiles)
    ensures forall id, code :: Rejection(id, code) in d.rejected <==>
      exists k :: 0 <= k < |profiles| && profiles[k].id == id && IsRejected(request, providers, profiles[k], code)
    ensures var eligible := Eligible(request, providers, profiles);
      if eligible == [] then d.selected == None && d.fallback == [] && d.error == Some(Dominant(RejectedCodes(request, providers, profiles)))
      else
        var ordered := Ordered(request, eligible);
        && ordered != [] && d.selected == ordered[0].profile.id && d.fallback == Ids(ordered[1..]) && d.error == None
        && multiset(ordered) == multiset(eligible) && Arranged(request, request.fallbackIds, ordered)
  {
    var eligible: seq<Pair>, rejected: seq<Rejection> := [], [];
    for i := 0 to |profiles|
      invariant eligible == Eligible(request, providers, profiles[..i])
      invariant rejected == Rejections(request, providers, profiles[..i])
    {
      var blockers := Examine(request, providers, profiles[i]);
      if blockers == [] {
        eligible := eligible + [Pair(profiles[i], ProviderFor(providers, profiles[i].providerId).value)];
      }
      rejected := rejected + Explained(profiles[i].id, blockers);
      assert profiles[..i + 1][..i] == profiles[..i];
    }
    assert profiles[..|profiles|] == profiles;
    RejectionsExactly(request, providers, profiles);
    if eligible == [] {
      var codes := set r | r in rejected :: r.code;
      CodesAgree(request, providers, profiles, rejected);
      return Decision(None, [], rejected, Some(Dominant(codes)));
    }
    var ordered := OrderEligible(request, eligible);
    OrderedByPreference(request, eligible);
    assert |multiset(ordered)| == |multiset(eligible)|;
    return Decision(ordered[0].profile.id, Ids(ordered[1..]), rejected, None);
  }

  /** Without requested fallbacks a usable model that the request asks for is the one selected. */
  lemma AskedForIsSelected(request: Request, providers: seq<Provider>, profiles: seq<Profile>, x: Pair, tokens: int)
    requires request.fallbackIds == [] && Estimates(request, tokens)
    requires x.profile in profiles && Registered(providers, x.profile.providerId, x.provider) && Usable(request, x.provider, x.profile, tokens)
    requires AskedFor(request, x.profile)
    ensures var ordered := Ordered(request, Eligible(request, providers, profiles)); ordered != [] && AskedFor(request, ordered[0].profile)
  {
    EligibleExactly(request, providers, profiles, x, tokens);
    OrderedByPreference(request, Eligible(request, providers, profiles));
    SameMembers(Ordered(request, Eligible(request, providers, profiles)), Eligible(request, providers, profiles));
    AskedForIsFirst(request, Ordered(request, Eligible(request, providers, profiles)), x);
  }

  /** Of two usable pairs that no requested id names, the one the request's own wishes and the price, speed and
      name of the models favour stands first. */
  lemma RoutedByPreference(request: Request, providers: seq<Provider>, profiles: seq<Profile>, i: nat, j: nat)
    requires var ordered := Ordered(request, Eligible(request, providers, profiles));
      && i < |ordered| && j < |ordered| && Unrequested(ordered[i], request.fallbackIds) && Unrequested(ordered[j], request.fallbackIds)
      && Preferred(request, ordered[i], ordered[j])
    ensures i < j
  {
    OrderedByPreference(request, Eligible(request, providers, profiles));
    UnrequestedByPreference(request, request.fallbackIds, Ordered(request, Eligible(request, providers, profiles)), i, j);
  }

  method Examine(request: Request, providers: seq<Provider>, profile: Profile) returns (blockers: seq<ErrorCode>)
    ensures blockers == CodesFor(request, providers, profile)
    ensures blockers == [] <==> IsEligible(request, providers, profile)
    ensures forall code :: code in blockers <==> IsRejected(request, providers, profile, code)
  {
    var provider := ProviderFor(providers, profile.providerId);
    if provider.None? {
      return [ProviderUnavailable];
    }
    blockers := Validate(request, provider.value, profile);
  }

  function Explained(id: Option<string>, codes: seq<ErrorCode>): (r: seq<Rejection>)
    ensures forall x :: x in r <==> x.profileId == id && x.code in codes
  {
    if codes == [] then [] else [Rejection(id, codes[0])] + Explained(id, codes[1..])
  }

  lemma CodesAgree(request: Request, providers: seq<Provider>, profiles: seq<Profile>, rejected: seq<Rejection>)
    requires forall id, code :: Rejection(id, code) in rejected <==>
      exists k :: 0 <= k < |profiles| && profiles[k].id == id && IsRejected(request, providers, profiles[k], code)
    ensures (set r | r in rejected :: r.code) == RejectedCodes(request, providers, profiles)
  {
    var codes := set r | r in rejected :: r.code;
    forall code
      ensures code in codes <==> code in RejectedCodes(request, providers, profiles)
    {
      if code in codes {
        var r :| r in rejected && r.code == code;
        assert Rejection(r.profileId, code) in rejected;
      }
      if code in RejectedCodes(request, providers, profiles) {
        var k: nat :| k < |profiles| && IsRejected(request, providers, profiles[k], code);
        assert Rejection(profiles[k].id, code) in rejected;
      }
    }
  }

  /** With no eligible profile, the answer is NO_ELIGIBLE_MODEL exactly when there are no profiles at all. */
  lemma NoEligibleModelExactly(request: Request, providers: seq<Provider>, profiles: seq<Profile>)
    requires Eligible(request, providers, profiles) == []
    ensures Dominant(RejectedCodes(request, providers, profiles)) == NoEligibleModel <==> profiles == []
  {
    if profiles != [] {
      EligibleOrRejected(request, providers, profiles[|profiles| - 1]);
      var code :| IsRejected(request, providers, profiles[|profiles| - 1], code);
      assert code in RejectedCodes(request, providers, profiles);
    }
  }

  // ----- the input order does not matter -----

  function PairOf(providers: seq<Provider>, profile: Profile): Option<Pair> {
    match ProviderFor(providers, profile.providerId)
    case None => None
    case Some(provider) => Some(Pair(profile, provider))
  }

  /** How often a pair is eligible: as often as its profile is listed, if it may be used at all. */
  lemma {:induction false} EligibleCounts(request: Request, providers: seq<Provider>, profiles: seq<Profile>, x: Pair)
    ensures multiset(Eligible(request, providers, profiles))[x] ==
      if IsEligible(request, providers, x.profile) && PairOf(providers, x.profile) == Some(x) then multiset(profiles)[x.profile] else 0
  {
    if profiles != [] {
      var n := |profiles| - 1;
      EligibleCounts(request, providers, profiles[..n], x);
      assert profiles == profiles[..n] + [profiles[n]];
    }
  }

  predicate DistinctNames(profiles: multiset<Profile>) {
    && (forall x :: x in profiles ==> profiles[x] == 1)
    && (forall x, y :: x in profiles && y in profiles && x != y ==> TieName(x) != TieName(y))
  }

  /** Selection, fallbacks and error depend on which profiles are listed, not on the order of the list. */
  lemma RoutingIgnoresOrder(request: Request, providers: seq<Provider>, a: seq<Profile>, b: seq<Profile>)
    requires multiset(a) == multiset(b) && DistinctNames(multiset(a))
    ensures Ordered(request, Eligible(request, providers, a)) == Ordered(request, Eligible(request, providers, b))
    ensures Eligible(request, providers, a) == [] <==> Eligible(request, providers, b) == []
    ensures RejectedCodes(request, providers, a) == RejectedCodes(request, providers, b)
  {
    var x, y := Eligible(request, providers, a), Eligible(request, providers, b);
    SameEligible(request, providers, a, b);
    DistinctPairs(request, providers, a);
    SortedIsSorted(request, x);
    SortedIsSorted(request, y);
    SortedOnce(request, Sorted(request, x), Sorted(request, y));
    assert |multiset(x)| == |multiset(y)|;
    SameCodes(request, providers, a, b);
  }

  lemma SameEligible(request: Request, providers: seq<Provider>, a: seq<Profile>, b: seq<Profile>)
    requires multiset(a) == multiset(b)
    ensures multiset(Eligible(request, providers, a)) == multiset(Eligible(request, providers, b))
  {
    forall p
      ensures multiset(Eligible(request, providers, a))[p] == multiset(Eligible(request, providers, b))[p]
    {
      EligibleCounts(request, providers, a, p);
      EligibleCounts(request, providers, b, p);
    }
  }

  lemma DistinctPairs(request: Request, providers: seq<Provider>, profiles: seq<Profile>)
    requires DistinctNames(multiset(profiles))
    ensures DistinctKeys(request, multiset(Eligible(request, providers, profiles)))
  {
    var eligible := multiset(Eligible(request, providers, profiles));
    forall x, y | x in eligible && y in eligible && x != y
      ensures Key(request, x) != Key(request, y)
    {
      EligibleCounts(request, providers, profiles, x);
      EligibleCounts(request, providers, profiles, y);
      assert x.profile in multiset(profiles) && y.profile in multiset(profiles);
      SameKeySameName(request, x, y);
    }
  }

  lemma SameCodes(request: Request, providers: seq<Provider>, a: seq<Profile>, b: seq<Profile>)
    requires multiset(a) == multiset(b)
    ensures RejectedCodes(request, providers, a) <= RejectedCodes(request, providers, b)
    ensures RejectedCodes(request, providers, b) <= RejectedCodes(request, providers, a)
  {
    forall code | code in RejectedCodes(request, providers, a)
      ensures code in RejectedCodes(request, providers, b)
    {
      var k: nat :| k < |a| && IsRejected(request, providers, a[k], code);
      assert a[k] in multiset(b);
      var j :| 0 <= j < |b| && b[j] == a[k];
    }
    forall code | code in RejectedCodes(request, providers, b)
      ensures code in RejectedCodes(request, providers, a)
    {
      var k: nat :| k < |b| && IsRejected(request, providers, b[k], code);
      assert b[k] in multiset(a);
      var j :| 0 <= j < |a| && a[j] == b[k];
    }
  }

  /** Nonempty ids that are all different are enough, and persisted profiles have them. */
  lemma DistinctIdsAreDistinctNames(profiles: seq<Profile>)
    requires forall i :: 0 <= i < |profiles| ==> profiles[i].id.Some? && profiles[i].id.value != ""
    requires forall i, j :: 0 <= i < j < |profiles| ==> profiles[i].id != profiles[j].id
    ensures DistinctNames(multiset(profiles))
  {
    forall x | x in multiset(profiles)
      ensures multiset(profiles)[x] == 1
    {
      OnceEach(profiles, x);
    }
  }

  lemma {:induction false} OnceEach(profiles: seq<Profile>, x: Profile)
    requires forall i, j :: 0 <= i < j < |profiles| ==> profiles[i] != profiles[j]
    ensures multiset(profiles)[x] <= 1
  {
    if profiles != [] {
      var n := |profiles| - 1;
      OnceEach(profiles[..n], x);
      assert profiles == profiles[..n] + [profiles[n]];
    }
  }

  /** Without distinct names the order of the list shows: a profile without an id can tie with another one's id. */
  lemma OrderShowsWithoutIds(provider: Provider, name: string)
    requires provider.id == Some(name) && name != "" && provider.status == Active
    ensures var plain := Profile(Some(name), name, name, Active, {}, Public, Free, LowLatency, 0, None, None, None, None);
            var request := Request({}, false, Public, 0, None, None, None, None, [], None, Some(name), [], true, None);
      var a, b := [plain, plain.(id := None)], [plain.(id := None), plain];
      && multiset(a) == multiset(b)
      && Eligible(request, [provider], a) == [Pair(a[0], provider), Pair(a[1], provider)]
      && Eligible(request, [provider], b) == [Pair(b[0], provider), Pair(b[1], provider)]
      && Ordered(request, Eligible(request, [provider], a))[0].profile.id != Ordered(request, Eligible(request, [provider], b))[0].profile.id
  {
    var plain := Profile(Some(name), name, name, Active, {}, Public, Free, LowLatency, 0, None, None, None, None);
    var request := Request({}, false, Public, 0, None, None, None, None, [], None, Some(name), [], true, None);
    var bare := plain.(id := None);
    TwoEligible(request, provider, plain, bare);
    TwoEligible(request, provider, bare, plain);
    var p, q := Pair(plain, provider), Pair(bare, provider);
    SameKeyExactly(request, p, q);
    LexTotal(Key(request, p), Key(request, q));
    TwoSorted(request, p, q);
    TwoSorted(request, q, p);
  }

  lemma TwoEligible(request: Request, provider: Provider, x: Profile, y: Profile)
    requires provider.id == Some(x.providerId) == Some(y.providerId) && Admits(request, provider, x) && Admits(request, provider, y)
    ensures Eligible(request, [provider], [x, y]) == [Pair(x, provider), Pair(y, provider)]
  {
    var both, one := [x, y], [x];
    assert both[..1] == one && one[..0] == [];
    assert Eligible(request, [provider], []) == [];
    assert Eligible(request, [provider], one) == [Pair(x, provider)];
  }

  lemma TwoSorted(request: Request, p: Pair, q: Pair)
    requires Lex(Key(request, p), Key(request, q))
    ensures Sorted(request, [p, q]) == [p, q]
  {
    assert [p, q][1..] == [q] && [q][1..] == [];
    assert Sorted(request, [q]) == [q];
  }
}
