/** What the router prefers, said of the request, the profile and the provider alone. */
module Preference {
  import opened Prelude
  import opened Policies
  import opened Ordering

  /** The request asks for this very model, by id or by name. */
  predicate AskedFor(request: Request, profile: Profile) {
    request.preferredModel == profile.id || request.preferredModel == Some(profile.modelName)
  }

  /** The request asks for this provider, by id, by name or by kind. */
  predicate AskedOf(request: Request, provider: Provider) {
    || request.preferredProvider == provider.id
    || request.preferredProvider == Some(provider.name)
    || request.preferredProvider == Some(provider.kind)
  }

  /** Quality counts when high reasoning or a minimum quality is asked for. */
  predicate QualityCounts(request: Request) {
    HighReasoning in request.required || request.minimumQuality > 0
  }

  predicate Faster(a: Latency, b: Latency) {
    match a
    case LowLatency => b != LowLatency
    case MediumLatency => b == HighLatency
    case HighLatency => false
  }

  /** The id, unless it is missing or empty, and then the model name. */
  function ShownName(profile: Profile): string {
    match profile.id
    case Some(id) => if id != "" then id else profile.modelName
    case None => profile.modelName
  }

  /** Alphabetically: a proper prefix, or a smaller character at the first difference. */
  predicate NameBefore(a: string, b: string) {
    a < b || exists k :: 0 <= k < |a| && k < |b| && a[..k] == b[..k] && a[k] < b[k]
  }

  /** `x` is preferred to `y`: for being the model asked for, then the provider asked for, then by quality where
      that counts, then by cost class, latency class and name, the first that differs deciding. */
  predicate Preferred(request: Request, x: Pair, y: Pair) {
    if AskedFor(request, x.profile) != AskedFor(request, y.profile) then AskedFor(request, x.profile)
    else if AskedOf(request, x.provider) != AskedOf(request, y.provider) then AskedOf(request, x.provider)
    else if QualityCounts(request) && x.profile.quality != y.profile.quality then x.profile.quality > y.profile.quality
    else if x.profile.cost != y.profile.cost then Cheaper(x.profile.cost, y.profile.cost)
    else if x.profile.latency != y.profile.latency then Faster(x.profile.latency, y.profile.latency)
    else NameBefore(ShownName(x.profile), ShownName(y.profile))
  }

  /** Nothing the router looks at tells the two apart. */
  predicate Alike(request: Request, x: Pair, y: Pair) {
    && AskedFor(request, x.profile) == AskedFor(request, y.profile) && AskedOf(request, x.provider) == AskedOf(request, y.provider)
    && (QualityCounts(request) ==> x.profile.quality == y.profile.quality)
    && x.profile.cost == y.profile.cost && x.profile.latency == y.profile.latency && ShownName(x.profile) == ShownName(y.profile)
  }

  /** Preference is exactly the strict order of the selection keys. */
  lemma PreferredExactly(request: Request, x: Pair, y: Pair)
    ensures Preferred(request, x, y) <==> !Lex(Key(request, y), Key(request, x))
    ensures Alike(request, x, y) <==> Key(request, x) == Key(request, y)
  {
    SameKeyExactly(request, x, y);
    LexTotal(Key(request, x), Key(request, y));
    if !Alike(request, x, y) {
      PreferredOneWay(request, x, y);
      if Preferred(request, x, y) {
        PreferredIsLess(request, x, y);
      } else {
        PreferredIsLess(request, y, x);
      }
    } else {
      NotBeforeItself(ShownName(x.profile));
    }
  }

  lemma NotBeforeItself(a: string)
    ensures !NameBefore(a, a)
  {
  }

  /** Of two different standings one is preferred. */
  lemma PreferredOneWay(request: Request, x: Pair, y: Pair)
    requires !Alike(request, x, y)
    ensures Preferred(request, x, y) || Preferred(request, y, x)
  {
    if ShownName(x.profile) != ShownName(y.profile) {
      NamesCompare(ShownName(x.profile), ShownName(y.profile));
    }
  }

  lemma {:induction false} FirstDifference(a: string, b: string, n: nat) returns (k: nat)
    requires n <= |a| && n <= |b| && a[..n] == b[..n] && a != b
    ensures k <= |a| && k <= |b| && a[..k] == b[..k]
    ensures if k < |a| && k < |b| then a[k] != b[k] else k == |a| < |b| || k == |b| < |a|
    decreases |a| - n
  {
    assert n == |a| ==> a[..n] == a;
    assert n == |b| ==> b[..n] == b;
    if n == |a| || n == |b| {
      k := n;
    } else if a[n] != b[n] {
      k := n;
    } else {
      assert a[..n + 1] == a[..n] + [a[n]] && b[..n + 1] == b[..n] + [b[n]];
      k := FirstDifference(a, b, n + 1);
    }
  }

  lemma NamesCompare(a: string, b: string)
    requires a != b
    ensures NameBefore(a, b) || NameBefore(b, a)
  {
    assert a[..0] == b[..0];
    var k := FirstDifference(a, b, 0);
    if k == |a| {
      assert a[..k] == a && a <= b;
    } else if k == |b| {
      assert b[..k] == b && b <= a;
    } else if a[k] < b[k] {
    } else {
      assert b[k] < a[k];
    }
  }

  /** The first key component that differs is the one that decides the preference. */
  lemma PreferredIsLess(request: Request, x: Pair, y: Pair)
    requires Preferred(request, x, y) && !Alike(request, x, y)
    ensures Lex(Key(request, x), Key(request, y)) && !Lex(Key(request, y), Key(request, x))
  {
    var a, b := Key(request, x), Key(request, y);
    if AskedFor(request, x.profile) != AskedFor(request, y.profile) {
      Decided(a, b, 0);
    } else if AskedOf(request, x.provider) != AskedOf(request, y.provider) {
      Decided(a, b, 1);
    } else if QualityCounts(request) && x.profile.quality != y.profile.quality {
      Decided(a, b, 2);
    } else if x.profile.cost != y.profile.cost {
      Decided(a, b, 3);
    } else if x.profile.latency != y.profile.latency {
      Decided(a, b, 4);
    } else {
      var front := [a[0], a[1], a[2], a[3], a[4]];
      assert TieName(x.profile) == ShownName(x.profile) && TieName(y.profile) == ShownName(y.profile);
      assert Bonus(request, x.profile) == Bonus(request, y.profile);
      NameDecides(ShownName(x.profile), ShownName(y.profile));
      LexAfter(front, Points(ShownName(x.profile)), Points(ShownName(y.profile)));
      LexAfter(front, Points(ShownName(y.profile)), Points(ShownName(x.profile)));
      assert front + Points(ShownName(x.profile)) == a && front + Points(ShownName(y.profile)) == b;
    }
  }

  lemma Decided(a: seq<int>, b: seq<int>, k: nat)
    requires k < |a| && k < |b| && (forall i :: 0 <= i < k ==> a[i] == b[i]) && a[k] < b[k]
    ensures Lex(a, b) && !Lex(b, a)
  {
    assert a[..k] == b[..k];
    LexDecides(a, b, k);
  }

  lemma {:induction false} LexAfter(front: seq<int>, a: seq<int>, b: seq<int>)
    ensures Lex(front + a, front + b) <==> Lex(a, b)
  {
    if front != [] {
      LexAfter(front[1..], a, b);
      assert (front + a)[1..] == front[1..] + a && (front + b)[1..] == front[1..] + b;
    } else {
      assert front + a == a && front + b == b;
    }
  }

  lemma NameDecides(a: string, b: string)
    requires NameBefore(a, b)
    ensures Lex(Points(a), Points(b)) && !Lex(Points(b), Points(a))
  {
    if a < b {
      PrefixIsLess(Points(a), Points(b));
    } else {
      var k :| 0 <= k < |a| && k < |b| && a[..k] == b[..k] && a[k] < b[k];
      forall i | 0 <= i < k
        ensures Points(a)[i] == Points(b)[i]
      {
        assert a[i] == a[..k][i] == b[..k][i] == b[i];
      }
      Decided(Points(a), Points(b), k);
    }
  }

  lemma {:induction false} PrefixIsLess(a: seq<int>, b: seq<int>)
    requires a < b
    ensures Lex(a, b) && !Lex(b, a)
  {
    if a != [] {
      PrefixIsLess(a[1..], b[1..]);
    }
  }

  // ----- an order that follows the request and the preferences -----

  /** The pair goes by this id or this model name. */
  predicate GoesBy(pair: Pair, id: string) {
    pair.profile.id == Some(id) || pair.profile.modelName == id
  }

  predicate NoneGoesBy(pairs: seq<Pair>, id: string) {
    forall x :: x in pairs ==> !GoesBy(x, id)
  }

  /** No later pair is preferred to an earlier one. */
  predicate ByPreference(request: Request, pairs: seq<Pair>) {
    forall i, j :: 0 <= i < j < |pairs| ==> !Preferred(request, pairs[j], pairs[i])
  }

  /** `x` goes by the id, and no other pair that does is preferred to it. */
  predicate BestOf(request: Request, x: Pair, others: seq<Pair>, id: string) {
    GoesBy(x, id) && forall y :: y in others && GoesBy(y, id) ==> !Preferred(request, y, x)
  }

  /** One pair for each requested id in turn, the best of those that are left and go by it, if any does; then all
      the others by preference. */
  predicate Arranged(request: Request, ids: seq<string>, pairs: seq<Pair>) {
    if ids == [] then ByPreference(request, pairs)
    else if NoneGoesBy(pairs, ids[0]) then Arranged(request, ids[1..], pairs)
    else BestOf(request, pairs[0], pairs[1..], ids[0]) && Arranged(request, ids[1..], pairs[1..])
  }

  /** No requested id names the pair. */
  predicate Unrequested(pair: Pair, ids: seq<string>) {
    pair.profile.modelName !in ids && (pair.profile.id.Some? ==> pair.profile.id.value !in ids)
  }

  /** Of two pairs that no requested id names, a preferred one stands first. */
  lemma {:induction false} UnrequestedByPreference(request: Request, ids: seq<string>, pairs: seq<Pair>, i: nat, j: nat)
    requires Arranged(request, ids, pairs) && i < |pairs| && j < |pairs|
    requires Unrequested(pairs[i], ids) && Unrequested(pairs[j], ids) && Preferred(request, pairs[i], pairs[j])
    ensures i < j
  {
    if ids == [] {
      if i == j {
        PreferredExactly(request, pairs[i], pairs[j]);
        LexTotal(Key(request, pairs[i]), Key(request, pairs[j]));
      }
    } else if NoneGoesBy(pairs, ids[0]) {
      UnrequestedByPreference(request, ids[1..], pairs, i, j);
    } else {
      UnrequestedByPreference(request, ids[1..], pairs[1..], i - 1, j - 1);
    }
  }

  /** Without requested ids, a model asked for stands first if it is among the pairs. */
  lemma AskedForIsFirst(request: Request, pairs: seq<Pair>, x: Pair)
    requires Arranged(request, [], pairs) && x in pairs && AskedFor(request, x.profile)
    ensures AskedFor(request, pairs[0].profile)
  {
    var k :| 0 <= k < |pairs| && pairs[k] == x;
    assert k > 0 ==> !Preferred(request, pairs[k], pairs[0]);
  }

  /** The first requested id that names a pair gets the first place. */
  lemma {:induction false} RequestedIsFirst(request: Request, ids: seq<string>, pairs: seq<Pair>, k: nat)
    requires Arranged(request, ids, pairs) && k < |ids| && !NoneGoesBy(pairs, ids[k])
    requires forall j :: 0 <= j < k ==> NoneGoesBy(pairs, ids[j])
    ensures GoesBy(pairs[0], ids[k])
  {
    if k > 0 {
      RequestedIsFirst(request, ids[1..], pairs, k - 1);
    }
  }
}
