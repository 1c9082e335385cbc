/** The selection key as a total order, and the stable sort by it. */
module Ordering {
  import opened Prelude
  import opened Policies

  datatype Pair = Pair(profile: Profile, provider: Provider)

  /** The last key component: the id, or the model name when there is no id. */
  function TieName(profile: Profile): string {
    if profile.id.Some? && profile.id.value != "" then profile.id.value else profile.modelName
  }

  function Points(s: string): seq<int> {
    seq(|s|, i requires 0 <= i < |s| => s[i] as int)
  }

  predicate PrefersModel(request: Request, profile: Profile) {
    request.preferredModel == profile.id || request.preferredModel == Some(profile.modelName)
  }

  predicate PrefersProvider(request: Request, provider: Provider) {
    || request.preferredProvider == provider.id || request.preferredProvider == Some(provider.name)
    || request.preferredProvider == Some(provider.kind)
  }

  /** Higher quality comes first, when reasoning or a minimum quality is asked for. */
  function Bonus(request: Request, profile: Profile): int {
    var quality: int := profile.quality;
    if HighReasoning in request.required || request.minimumQuality != 0 then 0 - quality else 0
  }

  /** The six components as one list: five numbers, then the code points of the name.  Since the first
      five are always there, comparing these lists compares the six-part keys. */
  function Key(request: Request, pair: Pair): seq<int> {
    [if PrefersModel(request, pair.profile) then 0 else 1, if PrefersProvider(request, pair.provider) then 0 else 1,
     Bonus(request, pair.profile), CostRank(pair.profile.cost), LatencyRank(pair.profile.latency)] + Points(TieName(pair.profile))
  }

  /** Two pairs agree in all six key components. */
  predicate Agree(request: Request, x: Pair, y: Pair) {
    && (PrefersModel(request, x.profile) <==> PrefersModel(request, y.profile))
    && (PrefersProvider(request, x.provider) <==> PrefersProvider(request, y.provider))
    && Bonus(request, x.profile) == Bonus(request, y.profile)
    && x.profile.cost == y.profile.cost && x.profile.latency == y.profile.latency
    && TieName(x.profile) == TieName(y.profile)
  }

  /** Lexicographic order; a prefix comes first. */
  predicate Lex(a: seq<int>, b: seq<int>) {
    a == [] || (b != [] && (a[0] < b[0] || (a[0] == b[0] && Lex(a[1..], b[1..]))))
  }

  lemma {:induction false} LexTotal(a: seq<int>, b: seq<int>)
    ensures Lex(a, b) || Lex(b, a)
    ensures Lex(a, b) && Lex(b, a) <==> a == b
  {
    if a != [] && b != [] && a[0] == b[0] {
      LexTotal(a[1..], b[1..]);
      assert a == [a[0]] + a[1..] && b == [b[0]] + b[1..];
    }
  }

  lemma {:induction false} LexTransitive(a: seq<int>, b: seq<int>, c: seq<int>)
    requires Lex(a, b) && Lex(b, c)
    ensures Lex(a, c)
  {
    if a != [] && a[0] == b[0] == c[0] {
      LexTransitive(a[1..], b[1..], c[1..]);
    }
  }

  /** What decides the order: the first place where the two lists differ. */
  lemma {:induction false} LexDecides(a: seq<int>, b: seq<int>, k: nat)
    requires k < |a| && k < |b| && a[..k] == b[..k]
    ensures a[k] < b[k] ==> Lex(a, b) && !Lex(b, a)
  {
    if k > 0 {
      assert a[0] == a[..k][0] && b[0] == b[..k][0];
      assert a[1..][..k - 1] == a[..k][1..] && b[1..][..k - 1] == b[..k][1..];
      LexDecides(a[1..], b[1..], k - 1);
    }
  }

  lemma SameKeySameName(request: Request, x: Pair, y: Pair)
    ensures Key(request, x) == Key(request, y) ==> TieName(x.profile) == TieName(y.profile)
  {
    var a, b := TieName(x.profile), TieName(y.profile);
    if Key(request, x) == Key(request, y) {
      assert Points(a) == Key(request, x)[5..] == Key(request, y)[5..] == Points(b);
      forall i | 0 <= i < |a|
        ensures a[i] == b[i]
      {
        assert Points(a)[i] == Points(b)[i];
      }
    }
  }

  lemma SameKeyExactly(request: Request, x: Pair, y: Pair)
    ensures Key(request, x) == Key(request, y) <==> Agree(request, x, y)
  {
    SameKeySameName(request, x, y);
    var a, b := Key(request, x), Key(request, y);
    if a == b {
      assert a[0] == b[0] && a[1] == b[1] && a[2] == b[2] && a[3] == b[3] && a[4] == b[4];
    }
  }

  // ----- the stable sort -----

  function Insert(request: Request, pair: Pair, sorted: seq<Pair>): seq<Pair> {
    if sorted == [] || Lex(Key(request, pair), Key(request, sorted[0])) then [pair] + sorted
    else [sorted[0]] + Insert(request, pair, sorted[1..])
  }

  function Sorted(request: Request, pairs: seq<Pair>): seq<Pair> {
    if pairs == [] then [] else Insert(request, pairs[0], Sorted(request, pairs[1..]))
  }

  predicate InOrder(request: Request, pairs: seq<Pair>) {
    forall i, j :: 0 <= i < j < |pairs| ==> Lex(Key(request, pairs[i]), Key(request, pairs[j]))
  }

  lemma {:induction false} InsertAdds(request: Request, pair: Pair, sorted: seq<Pair>)
    ensures multiset(Insert(request, pair, sorted)) == multiset(sorted) + multiset{pair}
  {
    if sorted != [] && !Lex(Key(request, pair), Key(request, sorted[0])) {
      InsertAdds(request, pair, sorted[1..]);
      assert sorted == [sorted[0]] + sorted[1..];
    }
  }

  lemma {:induction false} InsertKeepsOrder(request: Request, pair: Pair, sorted: seq<Pair>)
    requires InOrder(request, sorted)
    ensures InOrder(request, Insert(request, pair, sorted))
  {
    if sorted == [] {
    } else if Lex(Key(request, pair), Key(request, sorted[0])) {
      forall j | 0 <= j < |sorted|
        ensures Lex(Key(request, pair), Key(request, sorted[j]))
      {
        if j > 0 {
          LexTransitive(Key(request, pair), Key(request, sorted[0]), Key(request, sorted[j]));
        }
      }
    } else {
      InsertKeepsOrder(request, pair, sorted[1..]);
      InsertAfterFirst(request, pair, sorted);
    }
  }

  lemma InsertAfterFirst(request: Request, pair: Pair, sorted: seq<Pair>)
    requires InOrder(request, sorted) && sorted != [] && !Lex(Key(request, pair), Key(request, sorted[0]))
    ensures forall j :: 0 <= j < |Insert(request, pair, sorted[1..])| ==>
      Lex(Key(request, sorted[0]), Key(request, Insert(request, pair, sorted[1..])[j]))
  {
    var rest := Insert(request, pair, sorted[1..]);
    InsertAdds(request, pair, sorted[1..]);
    LexTotal(Key(request, pair), Key(request, sorted[0]));
    forall j | 0 <= j < |rest|
      ensures Lex(Key(request, sorted[0]), Key(request, rest[j]))
    {
      assert rest[j] in multiset(rest);
      assert rest[j] == pair || rest[j] in sorted[1..];
    }
  }

  lemma {:induction false} SortedIsSorted(request: Request, pairs: seq<Pair>)
    ensures InOrder(request, Sorted(request, pairs))
    ensures multiset(Sorted(request, pairs)) == multiset(pairs)
  {
    if pairs != [] {
      SortedIsSorted(request, pairs[1..]);
      InsertKeepsOrder(request, pairs[0], Sorted(request, pairs[1..]));
      InsertAdds(request, pairs[0], Sorted(request, pairs[1..]));
      assert pairs == [pairs[0]] + pairs[1..];
    }
  }

  function WithKey(request: Request, pairs: seq<Pair>, key: seq<int>): seq<Pair> {
    if pairs == [] then []
    else (if Key(request, pairs[0]) == key then [pairs[0]] else []) + WithKey(request, pairs[1..], key)
  }

  lemma {:induction false} InsertIsStable(request: Request, pair: Pair, sorted: seq<Pair>, key: seq<int>)
    ensures WithKey(request, Insert(request, pair, sorted), key) ==
            (if Key(request, pair) == key then [pair] else []) + WithKey(request, sorted, key)
  {
    if sorted == [] || Lex(Key(request, pair), Key(request, sorted[0])) {
      assert ([pair] + sorted)[1..] == sorted;
    } else {
      InsertIsStable(request, pair, sorted[1..], key);
      LexTotal(Key(request, pair), Key(request, sorted[0]));
      var r := Insert(request, pair, sorted);
      assert r[1..] == Insert(request, pair, sorted[1..]);
    }
  }

  /** Pairs with equal keys keep the order they came in. */
  lemma {:induction false} SortedIsStable(request: Request, pairs: seq<Pair>, key: seq<int>)
    ensures WithKey(request, Sorted(request, pairs), key) == WithKey(request, pairs, key)
  {
    if pairs != [] {
      SortedIsStable(request, pairs[1..], key);
      InsertIsStable(request, pairs[0], Sorted(request, pairs[1..]), key);
    }
  }

  predicate DistinctKeys(request: Request, pairs: multiset<Pair>) {
    forall x, y :: x in pairs && y in pairs && x != y ==> Key(request, x) != Key(request, y)
  }

  /** With distinct keys there is only one way to be sorted. */
  lemma {:induction false} SortedOnce(request: Request, a: seq<Pair>, b: seq<Pair>)
    requires InOrder(request, a) && InOrder(request, b) && multiset(a) == multiset(b) && DistinctKeys(request, multiset(a))
    ensures a == b
  {
    if a == [] || b == [] {
      assert |a| == |multiset(a)| == |multiset(b)| == |b|;
    } else {
      SameFirst(request, a, b);
      SameTail(a, b);
      TailInOrder(request, a);
      TailInOrder(request, b);
      SortedOnce(request, a[1..], b[1..]);
      SameParts(a, b);
    }
  }

  lemma SameParts<T>(a: seq<T>, b: seq<T>)
    requires a != [] && b != [] && a[0] == b[0] && a[1..] == b[1..]
    ensures a == b
  {
    assert a == [a[0]] + a[1..] && b == [b[0]] + b[1..];
  }

  lemma TailInOrder(request: Request, a: seq<Pair>)
    requires a != [] && InOrder(request, a)
    ensures InOrder(request, a[1..])
    ensures DistinctKeys(request, multiset(a)) ==> DistinctKeys(request, multiset(a[1..]))
  {
    var rest := a[1..];
    forall i, j | 0 <= i < j < |rest|
      ensures Lex(Key(request, rest[i]), Key(request, rest[j]))
    {
      assert rest[i] == a[i + 1] && rest[j] == a[j + 1];
    }
    assert a == [a[0]] + rest;
    assert forall x :: x in multiset(rest) ==> x in multiset(a);
  }

  lemma SameFirst(request: Request, a: seq<Pair>, b: seq<Pair>)
    requires InOrder(request, a) && InOrder(request, b) && multiset(a) == multiset(b) && DistinctKeys(request, multiset(a))
    requires a != [] && b != []
    ensures a[0] == b[0]
  {
    assert a[0] in multiset(a) && b[0] in multiset(b);
    FirstIsLeast(request, a, b[0]);
    FirstIsLeast(request, b, a[0]);
    LexTotal(Key(request, a[0]), Key(request, b[0]));
  }

  lemma SameTail<T>(a: seq<T>, b: seq<T>)
    requires a != [] && b != [] && a[0] == b[0] && multiset(a) == multiset(b)
    ensures multiset(a[1..]) == multiset(b[1..])
  {
    assert a == [a[0]] + a[1..] && b == [b[0]] + b[1..];
    assert multiset(a[1..]) == multiset(a) - multiset{a[0]};
    assert multiset(b[1..]) == multiset(b) - multiset{b[0]};
  }

  lemma FirstIsLeast(request: Request, a: seq<Pair>, x: Pair)
    requires InOrder(request, a) && a != [] && x in multiset(a)
    ensures Lex(Key(request, a[0]), Key(request, x))
  {
    var k :| 0 <= k < |a| && a[k] == x;
    if k == 0 {
      LexTotal(Key(request, x), Key(request, x));
    }
  }
}
