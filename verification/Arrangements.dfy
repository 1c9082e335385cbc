/** Exactly when routing does not depend on the order of the listed profiles. */
module Arrangements {
  import opened Prelude
  import opened Policies
  import opened Ordering
  import opened Routing

  /** `s` is one way to sort `m`: pairs that tie may stand either way round. */
  predicate Arranges(request: Request, s: seq<Pair>, m: multiset<Pair>) {
    InOrder(request, s) && multiset(s) == m
  }

  lemma {:induction false} ArrangedStays(request: Request, s: seq<Pair>)
    requires InOrder(request, s)
    ensures Sorted(request, s) == s
  {
    if s != [] {
      var rest := s[1..];
      TailInOrder(request, s);
      ArrangedStays(request, rest);
      StaysInFront(request, s[0], rest);
      assert s == [s[0]] + rest;
    }
  }

  lemma StaysInFront(request: Request, x: Pair, rest: seq<Pair>)
    requires InOrder(request, [x] + rest)
    ensures Insert(request, x, rest) == [x] + rest
  {
    var s := [x] + rest;
    assert rest != [] ==> s[1] == rest[0] && Lex(Key(request, s[0]), Key(request, s[1]));
  }

  lemma {:induction false} Listing(m: multiset<Pair>) returns (s: seq<Pair>)
    ensures multiset(s) == m
    decreases |m|
  {
    if m == multiset{} {
      s := [];
    } else {
      var x :| x in m;
      var rest := Listing(m - multiset{x});
      s := [x] + rest;
    }
  }

  lemma SomeArrangement(request: Request, m: multiset<Pair>) returns (s: seq<Pair>)
    ensures Arranges(request, s, m)
  {
    var listed := Listing(m);
    SortedIsSorted(request, listed);
    s := Sorted(request, listed);
  }

  /** Inserting puts a pair in front of all that tie with it. */
  lemma {:induction false} InsertLeads(request: Request, x: Pair, s: seq<Pair>) returns (j: nat)
    requires InOrder(request, s)
    ensures j <= |s| && Insert(request, x, s) == s[..j] + [x] + s[j..]
    ensures forall i :: 0 <= i < j ==> !Lex(Key(request, x), Key(request, s[i]))
  {
    if s == [] || Lex(Key(request, x), Key(request, s[0])) {
      j := 0;
      assert s[..0] + [x] + s[0..] == [x] + s;
    } else {
      var rest := s[1..];
      TailInOrder(request, s);
      var k := InsertLeads(request, x, rest);
      j := k + 1;
      assert s == [s[0]] + rest;
      LeadsLater(request, x, s[0], rest, k);
    }
  }

  lemma LeadsLater(request: Request, x: Pair, first: Pair, rest: seq<Pair>, k: nat)
    requires k <= |rest| && !Lex(Key(request, x), Key(request, first))
    requires Insert(request, x, rest) == rest[..k] + [x] + rest[k..]
    requires forall i :: 0 <= i < k ==> !Lex(Key(request, x), Key(request, rest[i]))
    ensures var s := [first] + rest; Insert(request, x, s) == s[..k + 1] + [x] + s[k + 1..]
    ensures forall i :: 0 <= i < k + 1 ==> !Lex(Key(request, x), Key(request, ([first] + rest)[i]))
  {
    var s := [first] + rest;
    assert s[1..] == rest;
    InsertedLater(first, rest, x, k);
    forall i | 0 <= i < k + 1
      ensures !Lex(Key(request, x), Key(request, s[i]))
    {
      assert i > 0 ==> s[i] == rest[i - 1];
    }
  }

  lemma InsertedLater(first: Pair, rest: seq<Pair>, x: Pair, k: nat)
    requires k <= |rest|
    ensures var s := [first] + rest; [first] + (rest[..k] + [x] + rest[k..]) == s[..k + 1] + [x] + s[k + 1..]
  {
    var s := [first] + rest;
    assert s[..k + 1] == [first] + rest[..k] && s[k + 1..] == rest[k..];
  }

  lemma InsertedArranges(request: Request, x: Pair, s: seq<Pair>, m: multiset<Pair>)
    requires x in m && Arranges(request, s, m - multiset{x})
    ensures Arranges(request, Insert(request, x, s), m)
  {
    InsertKeepsOrder(request, x, s);
    InsertAdds(request, x, s);
  }

  // ----- the order the router makes of an arrangement -----

  function Order(ids: seq<string>, s: seq<Pair>): seq<Pair> {
    Pick(ids, s).explicit + Pick(ids, s).rest
  }

  lemma OrderStep(ids: seq<string>, s: seq<Pair>)
    requires ids != []
    ensures Order(ids, s) ==
      match FirstNamed(s, ids[0])
      case None => Order(ids[1..], s)
      case Some(k) => [s[k]] + Order(ids[1..], Without(s, k))
  {
    match FirstNamed(s, ids[0])
    case None =>
    case Some(k) =>
      var later := Pick(ids[1..], Without(s, k));
      assert [s[k]] + later.explicit + later.rest == [s[k]] + (later.explicit + later.rest);
  }

  ghost predicate SameFor(request: Request, ids: seq<string>, m: multiset<Pair>) {
    forall s, t :: Arranges(request, s, m) && Arranges(request, t, m) ==> Order(ids, s) == Order(ids, t)
  }

  predicate Names(m: multiset<Pair>, id: string) {
    exists x :: x in m && Named(x, id)
  }

  /** Nothing else that `id` names ties with `x` or comes before it. */
  predicate OnlyLeast(request: Request, m: multiset<Pair>, id: string, x: Pair) {
    && x in m && Named(x, id)
    && forall y :: y in m && Named(y, id) && y != x ==> Lex(Key(request, x), Key(request, y)) && Key(request, x) != Key(request, y)
  }

  /** No tie ever decides: each requested id that names anything names one pair ahead of all others,
      and of what is never requested no two different pairs have the same key. */
  ghost predicate Determined(request: Request, ids: seq<string>, m: multiset<Pair>)
    decreases |ids|
  {
    if ids == [] then DistinctKeys(request, m)
    else if !Names(m, ids[0]) then Determined(request, ids[1..], m)
    else exists x :: OnlyLeast(request, m, ids[0], x) && Determined(request, ids[1..], m - multiset{x})
  }

  /** A named pair that no other named one precedes is the one picked from an arrangement made with it. */
  lemma InsertedIsPicked(request: Request, ids: seq<string>, m: multiset<Pair>, x: Pair, r: seq<Pair>)
    requires ids != [] && x in m && Named(x, ids[0]) && Arranges(request, r, m - multiset{x})
    requires forall z :: z in m && Named(z, ids[0]) ==> Lex(Key(request, x), Key(request, z))
    ensures Arranges(request, Insert(request, x, r), m)
    ensures Order(ids, Insert(request, x, r)) == [x] + Order(ids[1..], r)
  {
    InsertedArranges(request, x, r, m);
    var j := InsertLeads(request, x, r);
    InsertedIsFirst(request, ids[0], m, x, r, j);
    CutOut(r, j, x);
    OrderStep(ids, Insert(request, x, r));
  }

  lemma InsertedIsFirst(request: Request, id: string, m: multiset<Pair>, x: Pair, r: seq<Pair>, j: nat)
    requires Named(x, id) && multiset(r) <= m && j <= |r|
    requires forall z :: z in m && Named(z, id) ==> Lex(Key(request, x), Key(request, z))
    requires forall i :: 0 <= i < j ==> !Lex(Key(request, x), Key(request, r[i]))
    ensures FirstNamed(r[..j] + [x] + r[j..], id) == Some(j)
  {
    var t := r[..j] + [x] + r[j..];
    assert t[j] == x;
    forall i | 0 <= i < j
      ensures !Named(t[i], id)
    {
      assert t[i] == r[i] && r[i] in multiset(r);
    }
  }

  lemma CutOut(r: seq<Pair>, j: nat, x: Pair)
    requires j <= |r|
    ensures var t := r[..j] + [x] + r[j..]; |t| == |r| + 1 && t[j] == x && Without(t, j) == r
  {
    var t := r[..j] + [x] + r[j..];
    assert t[..j] == r[..j] && t[j + 1..] == r[j..];
    assert r == r[..j] + r[j..];
  }

  /** The first named pair of an arrangement comes before all other named ones. */
  lemma PickedIsLeast(request: Request, m: multiset<Pair>, id: string, s: seq<Pair>)
    requires Arranges(request, s, m) && FirstNamed(s, id).Some?
    ensures var x := s[FirstNamed(s, id).value];
      x in m && Named(x, id) && forall z :: z in m && Named(z, id) ==> Lex(Key(request, x), Key(request, z))
  {
    var k := FirstNamed(s, id).value;
    assert s[k] in multiset(s);
    forall z | z in m && Named(z, id)
      ensures Lex(Key(request, s[k]), Key(request, z))
    {
      assert z in multiset(s);
      var j :| 0 <= j < |s| && s[j] == z;
      LexTotal(Key(request, z), Key(request, z));
    }
  }

  lemma SomethingNamed(m: multiset<Pair>, id: string, s: seq<Pair>)
    requires multiset(s) == m
    ensures FirstNamed(s, id).Some? <==> Names(m, id)
  {
    assert forall x :: x in m <==> x in s;
  }

  lemma OnlyLeastIsPicked(request: Request, m: multiset<Pair>, id: string, x: Pair, s: seq<Pair>)
    requires Arranges(request, s, m) && OnlyLeast(request, m, id, x)
    ensures FirstNamed(s, id).Some? && s[FirstNamed(s, id).value] == x
  {
    SomethingNamed(m, id, s);
    PickedIsLeast(request, m, id, s);
    LexTotal(Key(request, x), Key(request, s[FirstNamed(s, id).value]));
  }

  // ----- the two directions -----

  /** Two different pairs that tie can stand either way round. */
  lemma TieShows(request: Request, m: multiset<Pair>, x: Pair, y: Pair) returns (s: seq<Pair>, t: seq<Pair>)
    requires x in m && y in m && x != y && Key(request, x) == Key(request, y)
    ensures Arranges(request, s, m) && Arranges(request, t, m) && s != t
  {
    var r := SomeArrangement(request, m - multiset{x});
    var q := SomeArrangement(request, m - multiset{y});
    InsertedArranges(request, x, r, m);
    InsertedArranges(request, y, q, m);
    s, t := Insert(request, x, r), Insert(request, y, q);
    var i := InsertLeads(request, x, r);
    var j := InsertLeads(request, y, q);
    LexTotal(Key(request, x), Key(request, y));
    LeadersDiffer(request, x, y, r, q, i, j);
  }

  lemma LeadersDiffer(request: Request, x: Pair, y: Pair, r: seq<Pair>, q: seq<Pair>, i: nat, j: nat)
    requires x != y && i <= |r| && j <= |q| && Lex(Key(request, x), Key(request, y)) && Lex(Key(request, y), Key(request, x))
    requires forall k :: 0 <= k < i ==> !Lex(Key(request, x), Key(request, r[k]))
    requires forall k :: 0 <= k < j ==> !Lex(Key(request, y), Key(request, q[k]))
    ensures r[..i] + [x] + r[i..] != q[..j] + [y] + q[j..]
  {
    var s, t := r[..i] + [x] + r[i..], q[..j] + [y] + q[j..];
    assert s[i] == x && t[j] == y;
    if i < j {
      assert t[i] == q[i];
    } else if j < i {
      assert s[j] == r[j];
    }
  }

  lemma OrderOfNone(ids: seq<string>, s: seq<Pair>)
    requires ids == []
    ensures Order(ids, s) == s
  {
  }

  lemma NothingRequested(request: Request, ids: seq<string>, m: multiset<Pair>)
    requires ids == []
    ensures SameFor(request, ids, m) <==> DistinctKeys(request, m)
  {
    if DistinctKeys(request, m) {
      forall s, t | Arranges(request, s, m) && Arranges(request, t, m)
        ensures Order(ids, s) == Order(ids, t)
      {
        SortedOnce(request, s, t);
      }
    } else {
      var x, y :| x in m && y in m && x != y && Key(request, x) == Key(request, y);
      var s, t := TieShows(request, m, x, y);
      OrderOfNone(ids, s);
      OrderOfNone(ids, t);
    }
  }

  lemma UnnamedStep(request: Request, ids: seq<string>, m: multiset<Pair>)
    requires ids != [] && !Names(m, ids[0])
    ensures SameFor(request, ids, m) <==> SameFor(request, ids[1..], m)
  {
    forall s | Arranges(request, s, m)
      ensures Order(ids, s) == Order(ids[1..], s)
    {
      SomethingNamed(m, ids[0], s);
      OrderStep(ids, s);
    }
  }

  lemma NamedSuffices(request: Request, ids: seq<string>, m: multiset<Pair>, x: Pair)
    requires ids != [] && OnlyLeast(request, m, ids[0], x) && SameFor(request, ids[1..], m - multiset{x})
    ensures SameFor(request, ids, m)
  {
    forall s, t | Arranges(request, s, m) && Arranges(request, t, m)
      ensures Order(ids, s) == Order(ids, t)
    {
      PickedApart(request, ids, m, x, s);
      PickedApart(request, ids, m, x, t);
    }
  }

  lemma PickedApart(request: Request, ids: seq<string>, m: multiset<Pair>, x: Pair, s: seq<Pair>)
    requires ids != [] && OnlyLeast(request, m, ids[0], x) && Arranges(request, s, m)
    ensures FirstNamed(s, ids[0]).Some?
    ensures var rest := Without(s, FirstNamed(s, ids[0]).value);
      Arranges(request, rest, m - multiset{x}) && Order(ids, s) == [x] + Order(ids[1..], rest)
  {
    OnlyLeastIsPicked(request, m, ids[0], x, s);
    WithoutKeeps(request, s, FirstNamed(s, ids[0]).value);
    OrderStep(ids, s);
  }

  lemma NamedRequires(request: Request, ids: seq<string>, m: multiset<Pair>) returns (x: Pair)
    requires ids != [] && Names(m, ids[0]) && SameFor(request, ids, m)
    ensures OnlyLeast(request, m, ids[0], x) && SameFor(request, ids[1..], m - multiset{x})
  {
    var s := SomeArrangement(request, m);
    SomethingNamed(m, ids[0], s);
    x := s[FirstNamed(s, ids[0]).value];
    PickedIsLeast(request, m, ids[0], s);
    OrderStep(ids, s);
    forall y | y in m && Named(y, ids[0]) && y != x
      ensures Key(request, x) != Key(request, y)
    {
      RivalIsPicked(request, ids, m, x, y);
      assert Order(ids, s)[0] == x;
    }
    LaterSame(request, ids, m, x);
  }

  lemma RivalIsPicked(request: Request, ids: seq<string>, m: multiset<Pair>, x: Pair, y: Pair)
    requires ids != [] && x in m && y in m && Named(y, ids[0])
    requires forall z :: z in m && Named(z, ids[0]) ==> Lex(Key(request, x), Key(request, z))
    ensures Key(request, x) == Key(request, y) ==> exists t :: Arranges(request, t, m) && Order(ids, t) != [] && Order(ids, t)[0] == y
  {
    if Key(request, x) == Key(request, y) {
      var r := SomeArrangement(request, m - multiset{y});
      InsertedIsPicked(request, ids, m, y, r);
      assert Arranges(request, Insert(request, y, r), m);
    }
  }

  lemma LaterSame(request: Request, ids: seq<string>, m: multiset<Pair>, x: Pair)
    requires ids != [] && SameFor(request, ids, m) && x in m && Named(x, ids[0])
    requires forall z :: z in m && Named(z, ids[0]) ==> Lex(Key(request, x), Key(request, z))
    ensures SameFor(request, ids[1..], m - multiset{x})
  {
    forall s, t | Arranges(request, s, m - multiset{x}) && Arranges(request, t, m - multiset{x})
      ensures Order(ids[1..], s) == Order(ids[1..], t)
    {
      InsertedIsPicked(request, ids, m, x, s);
      InsertedIsPicked(request, ids, m, x, t);
      assert ([x] + Order(ids[1..], s))[1..] == Order(ids[1..], s);
      assert ([x] + Order(ids[1..], t))[1..] == Order(ids[1..], t);
    }
  }

  /** All arrangements give the same order if and only if no tie ever decides. */
  lemma {:induction false} ArrangementsExactly(request: Request, ids: seq<string>, m: multiset<Pair>)
    ensures SameFor(request, ids, m) <==> Determined(request, ids, m)
    decreases |ids|
  {
    if ids == [] {
      NothingRequested(request, ids, m);
    } else if !Names(m, ids[0]) {
      UnnamedStep(request, ids, m);
      ArrangementsExactly(request, ids[1..], m);
    } else {
      if SameFor(request, ids, m) {
        var x := NamedRequires(request, ids, m);
        ArrangementsExactly(request, ids[1..], m - multiset{x});
      }
      if Determined(request, ids, m) {
        var x :| OnlyLeast(request, m, ids[0], x) && Determined(request, ids[1..], m - multiset{x});
        ArrangementsExactly(request, ids[1..], m - multiset{x});
        NamedSuffices(request, ids, m, x);
      }
    }
  }

  // ----- lists of pairs -----

  ghost predicate OrderedIgnoresOrder(request: Request, x: seq<Pair>) {
    forall y: seq<Pair> :: multiset(y) == multiset(x) ==> Ordered(request, y) == Ordered(request, x)
  }

  /** The order of the eligible pairs is the same for every rearrangement of them if and only if no tie ever decides. */
  lemma OrderedExactly(request: Request, x: seq<Pair>)
    ensures OrderedIgnoresOrder(request, x) <==> Determined(request, request.fallbackIds, multiset(x))
  {
    ArrangementsExactly(request, request.fallbackIds, multiset(x));
    if OrderedIgnoresOrder(request, x) {
      AllArranged(request, x);
    }
    if SameFor(request, request.fallbackIds, multiset(x)) {
      AllOrdered(request, x);
    }
  }

  lemma AllArranged(request: Request, x: seq<Pair>)
    requires OrderedIgnoresOrder(request, x)
    ensures SameFor(request, request.fallbackIds, multiset(x))
  {
    forall s | Arranges(request, s, multiset(x))
      ensures Order(request.fallbackIds, s) == Ordered(request, x)
    {
      ArrangedStays(request, s);
      assert Ordered(request, s) == Ordered(request, x);
    }
  }

  lemma AllOrdered(request: Request, x: seq<Pair>)
    requires SameFor(request, request.fallbackIds, multiset(x))
    ensures OrderedIgnoresOrder(request, x)
  {
    forall y: seq<Pair> | multiset(y) == multiset(x)
      ensures Ordered(request, y) == Ordered(request, x)
    {
      OrderedSame(request, x, y, multiset(x));
    }
  }

  lemma OrderedSame(request: Request, x: seq<Pair>, y: seq<Pair>, m: multiset<Pair>)
    requires multiset(x) == m == multiset(y) && SameFor(request, request.fallbackIds, m)
    ensures Ordered(request, y) == Ordered(request, x)
  {
    SortedIsSorted(request, x);
    SortedIsSorted(request, y);
    SameForBoth(request, request.fallbackIds, m, Sorted(request, x), Sorted(request, y));
  }

  lemma SameForBoth(request: Request, ids: seq<string>, m: multiset<Pair>, s: seq<Pair>, t: seq<Pair>)
    requires SameFor(request, ids, m) && InOrder(request, s) && InOrder(request, t) && multiset(s) == m == multiset(t)
    ensures Order(ids, s) == Order(ids, t)
  {
    assert Arranges(request, s, m) && Arranges(request, t, m);
  }

  ghost predicate SortingIgnoresOrder(request: Request, x: seq<Pair>) {
    forall y: seq<Pair> :: multiset(y) == multiset(x) ==> Sorted(request, y) == Sorted(request, x)
  }

  /** Sorting alone is the same for every rearrangement if and only if different pairs have different keys. */
  lemma SortedExactly(request: Request, x: seq<Pair>)
    ensures SortingIgnoresOrder(request, x) <==> DistinctKeys(request, multiset(x))
  {
    NothingRequested(request, [], multiset(x));
    SortedIsSorted(request, x);
    if SortingIgnoresOrder(request, x) {
      forall s | Arranges(request, s, multiset(x))
        ensures Order([], s) == Sorted(request, x)
      {
        ArrangedStays(request, s);
        OrderOfNone([], s);
        assert Sorted(request, s) == Sorted(request, x);
      }
    }
    if DistinctKeys(request, multiset(x)) {
      forall y: seq<Pair> | multiset(y) == multiset(x)
        ensures Sorted(request, y) == Sorted(request, x)
      {
        SortedIsSorted(request, y);
        SortedOnce(request, Sorted(request, y), Sorted(request, x));
      }
    }
  }

  // ----- lists of profiles -----

  function ProfilesOf(pairs: seq<Pair>): seq<Profile> {
    if pairs == [] then [] else ProfilesOf(pairs[..|pairs| - 1]) + [pairs[|pairs| - 1].profile]
  }

  function Refused(request: Request, providers: seq<Provider>, profiles: seq<Profile>): seq<Profile> {
    if profiles == [] then []
    else
      var last := profiles[|profiles| - 1];
      Refused(request, providers, profiles[..|profiles| - 1]) + if IsEligible(request, providers, last) then [] else [last]
  }

  /** The list is made up of the profiles of its eligible pairs and the refused ones. */
  predicate Parted(request: Request, providers: seq<Provider>, profiles: seq<Profile>) {
    multiset(ProfilesOf(Eligible(request, providers, profiles))) + multiset(Refused(request, providers, profiles)) == multiset(profiles)
  }

  lemma {:induction false} Parts(request: Request, providers: seq<Provider>, profiles: seq<Profile>)
    ensures Parted(request, providers, profiles)
    decreases |profiles|
  {
    if profiles == [] {
      PartsOfNone(request, providers, profiles);
    } else {
      var front, last := FrontAndLast(profiles);
      Parts(request, providers, front);
      PartsExtend(request, providers, front, last);
    }
  }

  lemma PartsOfNone(request: Request, providers: seq<Provider>, profiles: seq<Profile>)
    requires profiles == []
    ensures Parted(request, providers, profiles)
  {
  }

  lemma FrontAndLast(profiles: seq<Profile>) returns (front: seq<Profile>, last: Profile)
    requires profiles != []
    ensures profiles == front + [last]
  {
    front, last := profiles[..|profiles| - 1], profiles[|profiles| - 1];
  }

  lemma PartsExtend(request: Request, providers: seq<Provider>, front: seq<Profile>, last: Profile)
    requires Parted(request, providers, front)
    ensures Parted(request, providers, front + [last])
  {
    OneMoreListed(request, providers, front, last);
    OneMoreEach(ProfilesOf(Eligible(request, providers, front)), Refused(request, providers, front), front, last);
  }

  lemma OneMoreListed(request: Request, providers: seq<Provider>, front: seq<Profile>, last: Profile)
    ensures var eligible, refused := ProfilesOf(Eligible(request, providers, front)), Refused(request, providers, front);
      if IsEligible(request, providers, last) then
        ProfilesOf(Eligible(request, providers, front + [last])) == eligible + [last] && Refused(request, providers, front + [last]) == refused
      else
        ProfilesOf(Eligible(request, providers, front + [last])) == eligible && Refused(request, providers, front + [last]) == refused + [last]
  {
    var before := Eligible(request, providers, front);
    assert (front + [last])[..|front|] == front;
    if IsEligible(request, providers, last) {
      OneMoreProfile(before, Pair(last, ProviderFor(providers, last.providerId).value));
    } else {
      assert before + [] == before;
    }
  }

  lemma OneMoreEach(a: seq<Profile>, b: seq<Profile>, whole: seq<Profile>, x: Profile)
    requires multiset(a) + multiset(b) == multiset(whole)
    ensures multiset(a + [x]) + multiset(b) == multiset(whole + [x]) == multiset(a) + multiset(b + [x])
  {
  }

  lemma OneMoreProfile(pairs: seq<Pair>, x: Pair)
    ensures ProfilesOf(pairs + [x]) == ProfilesOf(pairs) + [x.profile]
  {
    assert (pairs + [x])[..|pairs|] == pairs;
  }

  lemma {:induction false} RefusedAreNot(request: Request, providers: seq<Provider>, profiles: seq<Profile>)
    ensures forall p :: p in Refused(request, providers, profiles) ==> !IsEligible(request, providers, p)
  {
    if profiles != [] {
      RefusedAreNot(request, providers, profiles[..|profiles| - 1]);
    }
  }

  lemma {:induction false} ProfilesJoin(x: seq<Pair>, y: seq<Pair>)
    ensures ProfilesOf(x + y) == ProfilesOf(x) + ProfilesOf(y)
  {
    if y == [] {
      assert x + y == x;
    } else {
      var n := |y| - 1;
      ProfilesJoin(x, y[..n]);
      assert (x + y)[..|x + y| - 1] == x + y[..n];
    }
  }

  /** The profiles of `x` are those of `rest` and `p`. */
  predicate ProfileMore(x: seq<Pair>, rest: seq<Pair>, p: Profile) {
    multiset(ProfilesOf(x)) == multiset(ProfilesOf(rest)) + multiset{p}
  }

  lemma ProfilesApart(x: seq<Pair>, k: nat, rest: seq<Pair>)
    requires k < |x| && rest == x[..k] + x[k + 1..]
    ensures ProfileMore(x, rest, x[k].profile)
  {
    ProfilesAround(x[..k], x[k], x[k + 1..]);
    SameMore(x, x[..k] + [x[k]] + x[k + 1..], rest, x[k].profile);
  }

  lemma SameMore(x: seq<Pair>, y: seq<Pair>, rest: seq<Pair>, p: Profile)
    requires x == y && ProfileMore(y, rest, p)
    ensures ProfileMore(x, rest, p)
  {
  }

  lemma ProfilesAround(front: seq<Pair>, x: Pair, back: seq<Pair>)
    ensures ProfileMore(front + [x] + back, front + back, x.profile)
  {
    ProfilesJoin(front + [x], back);
    OneMoreProfile(front, x);
    ProfilesJoin(front, back);
    PulledOut(ProfilesOf(front), x.profile, ProfilesOf(back));
  }

  lemma PulledOut(a: seq<Profile>, p: Profile, b: seq<Profile>)
    ensures multiset(a + [p] + b) == multiset(a + b) + multiset{p}
  {
  }

  lemma {:induction false} ProfilesPermute(x: seq<Pair>, y: seq<Pair>)
    requires multiset(x) == multiset(y)
    ensures multiset(ProfilesOf(x)) == multiset(ProfilesOf(y))
  {
    if x == [] {
      assert |y| == |multiset(y)| == |multiset(x)| == 0;
    } else {
      var k := Where(x, y);
      var rest := y[..k] + y[k + 1..];
      FirstApart(x);
      ProfilesApart(y, k, rest);
      ProfilesPermute(x[1..], rest);
    }
  }

  lemma FirstApart(x: seq<Pair>)
    requires x != []
    ensures multiset(ProfilesOf(x)) == multiset(ProfilesOf(x[1..])) + multiset{x[0].profile}
  {
    assert x[..0] + x[1..] == x[1..];
    ProfilesApart(x, 0, x[1..]);
  }

  lemma Where(x: seq<Pair>, y: seq<Pair>) returns (k: nat)
    requires multiset(x) == multiset(y) && x != []
    ensures k < |y| && y[k] == x[0] && multiset(x[1..]) == multiset(y[..k] + y[k + 1..])
  {
    assert x[0] in multiset(x) && x[0] in multiset(y);
    k :| 0 <= k < |y| && y[k] == x[0];
    TakenOut(x, 0);
    assert x[..0] + x[1..] == x[1..];
    TakenOut(y, k);
    assert multiset(x[1..]) == multiset(x) - multiset{x[0]} == multiset(y[..k] + y[k + 1..]);
  }

  lemma TakenOut(s: seq<Pair>, k: nat)
    requires k < |s|
    ensures multiset(s) == multiset(s[..k] + s[k + 1..]) + multiset{s[k]}
  {
    assert s == s[..k] + [s[k]] + s[k + 1..];
  }

  lemma {:induction false} EligibleAgain(request: Request, providers: seq<Provider>, y: seq<Pair>)
    requires forall x :: x in y ==> IsEligible(request, providers, x.profile) && PairOf(providers, x.profile) == Some(x)
    ensures Eligible(request, providers, ProfilesOf(y)) == y
  {
    if y != [] {
      var n := |y| - 1;
      EligibleAgain(request, providers, y[..n]);
      var before := ProfilesOf(y[..n]);
      assert (before + [y[n].profile])[..|before|] == before;
      assert y[n] in y && y == y[..n] + [y[n]];
    }
  }

  lemma {:induction false} RefusedAddNothing(request: Request, providers: seq<Provider>, a: seq<Profile>, b: seq<Profile>)
    requires forall p :: p in b ==> !IsEligible(request, providers, p)
    ensures Eligible(request, providers, a + b) == Eligible(request, providers, a)
  {
    if b == [] {
      assert a + b == a;
    } else {
      var n := |b| - 1;
      assert (a + b)[..|a + b| - 1] == a + b[..n];
      assert b[n] in b;
      RefusedAddNothing(request, providers, a, b[..n]);
    }
  }

  /** Every rearrangement of the eligible pairs comes from one of the listed profiles. */
  lemma Listed(request: Request, providers: seq<Provider>, a: seq<Profile>, y: seq<Pair>) returns (b: seq<Profile>)
    requires multiset(y) == multiset(Eligible(request, providers, a))
    ensures multiset(b) == multiset(a) && Eligible(request, providers, b) == y
  {
    forall x | x in y
      ensures IsEligible(request, providers, x.profile) && PairOf(providers, x.profile) == Some(x)
    {
      assert x in multiset(y);
      EligibleCounts(request, providers, a, x);
    }
    b := ProfilesOf(y) + Refused(request, providers, a);
    Parts(request, providers, a);
    RefusedAreNot(request, providers, a);
    ProfilesPermute(y, Eligible(request, providers, a));
    EligibleAgain(request, providers, y);
    RefusedAddNothing(request, providers, ProfilesOf(y), Refused(request, providers, a));
  }

  ghost predicate RoutingIgnoresList(request: Request, providers: seq<Provider>, a: seq<Profile>) {
    forall b: seq<Profile> :: multiset(b) == multiset(a) ==>
      Ordered(request, Eligible(request, providers, b)) == Ordered(request, Eligible(request, providers, a))
  }

  /** The selected profile and the fallbacks, in order, are the same for every order of the list if and
      only if no tie ever decides among the eligible pairs. */
  lemma RoutingExactly(request: Request, providers: seq<Provider>, a: seq<Profile>)
    ensures RoutingIgnoresList(request, providers, a) <==>
            Determined(request, request.fallbackIds, multiset(Eligible(request, providers, a)))
  {
    var x := Eligible(request, providers, a);
    OrderedExactly(request, x);
    if RoutingIgnoresList(request, providers, a) {
      forall y: seq<Pair> | multiset(y) == multiset(x)
        ensures Ordered(request, y) == Ordered(request, x)
      {
        var b := Listed(request, providers, a, y);
      }
    }
    if OrderedIgnoresOrder(request, x) {
      forall b: seq<Profile> | multiset(b) == multiset(a)
        ensures Ordered(request, Eligible(request, providers, b)) == Ordered(request, x)
      {
        SameEligible(request, providers, a, b);
      }
    }
  }

  /** Without requested fallbacks: if and only if no two different eligible profiles agree in all six key components. */
  lemma PlainRoutingExactly(request: Request, providers: seq<Provider>, a: seq<Profile>)
    requires request.fallbackIds == []
    ensures RoutingIgnoresList(request, providers, a) <==>
      forall p, q :: p in a && q in a && p != q && IsEligible(request, providers, p) && IsEligible(request, providers, q) ==>
        !Agree(request, PairOf(providers, p).value, PairOf(providers, q).value)
  {
    RoutingExactly(request, providers, a);
    var m := multiset(Eligible(request, providers, a));
    forall x
      ensures x in m <==> x.profile in a && IsEligible(request, providers, x.profile) && PairOf(providers, x.profile) == Some(x)
    {
      EligibleCounts(request, providers, a, x);
      assert x.profile in a <==> x.profile in multiset(a);
    }
    forall x, y
      ensures Key(request, x) == Key(request, y) <==> Agree(request, x, y)
    {
      SameKeyExactly(request, x, y);
    }
    if DistinctKeys(request, m) {
      forall p, q | p in a && q in a && p != q && IsEligible(request, providers, p) && IsEligible(request, providers, q)
        ensures !Agree(request, PairOf(providers, p).value, PairOf(providers, q).value)
      {
        assert PairOf(providers, p).value in m && PairOf(providers, q).value in m;
      }
    } else {
      var x, y :| x in m && y in m && x != y && Key(request, x) == Key(request, y);
      assert x.profile != y.profile;
    }
  }

  // ----- what the caller sees -----

  /** The selected id and the fallback ids of a routing decision. */
  function Reply(ordered: seq<Pair>): (Option<string>, seq<string>) {
    if ordered == [] then (None, []) else (ordered[0].profile.id, Ids(ordered[1..]))
  }

  /** Every profile has an id of its own. */
  predicate OwnIds(profiles: multiset<Profile>) {
    && (forall p :: p in profiles ==> p.id.Some?)
    && forall p, q :: p in profiles && q in profiles && p != q ==> p.id != q.id
  }

  lemma {:induction false} AllIds(pairs: seq<Pair>)
    requires forall x :: x in pairs ==> x.profile.id.Some?
    ensures |Ids(pairs)| == |pairs| && forall k :: 0 <= k < |pairs| ==> pairs[k].profile.id == Some(Ids(pairs)[k])
  {
    if pairs != [] {
      assert pairs[0] in pairs && forall x :: x in pairs[1..] ==> x in pairs;
      AllIds(pairs[1..]);
    }
  }

  lemma RepliesTellApart(u: seq<Pair>, v: seq<Pair>)
    requires |u| == |v| && (forall x :: x in u || x in v ==> x.profile.id.Some?)
    requires forall x, y :: x in u && y in v && x.profile.id == y.profile.id ==> x == y
    ensures Reply(u) == Reply(v) <==> u == v
  {
    AllIds(u);
    AllIds(v);
    if u != [] && Reply(u) == Reply(v) {
      assert Ids(u) == [u[0].profile.id.value] + Ids(u[1..]) && Ids(v) == [v[0].profile.id.value] + Ids(v[1..]);
      forall k | 0 <= k < |u|
        ensures u[k] == v[k]
      {
        assert u[k] in u && v[k] in v;
      }
    }
  }

  lemma OwnPairs(request: Request, providers: seq<Provider>, a: seq<Profile>, x: Pair)
    requires x in Ordered(request, Eligible(request, providers, a))
    ensures x.profile in multiset(a) && PairOf(providers, x.profile) == Some(x)
  {
    OrderedShape(request, Eligible(request, providers, a));
    assert x in multiset(Ordered(request, Eligible(request, providers, a)));
    EligibleCounts(request, providers, a, x);
  }

  lemma SameReplyExactly(request: Request, providers: seq<Provider>, a: seq<Profile>, b: seq<Profile>)
    requires OwnIds(multiset(a)) && multiset(a) == multiset(b)
    ensures var u, v := Ordered(request, Eligible(request, providers, a)), Ordered(request, Eligible(request, providers, b));
      Reply(u) == Reply(v) <==> u == v
  {
    var u, v := Ordered(request, Eligible(request, providers, a)), Ordered(request, Eligible(request, providers, b));
    forall x | x in u
      ensures x.profile in multiset(a) && PairOf(providers, x.profile) == Some(x)
    {
      OwnPairs(request, providers, a, x);
    }
    forall x | x in v
      ensures x.profile in multiset(a) && PairOf(providers, x.profile) == Some(x)
    {
      OwnPairs(request, providers, b, x);
    }
    SameEligible(request, providers, a, b);
    OrderedShape(request, Eligible(request, providers, a));
    OrderedShape(request, Eligible(request, providers, b));
    assert |multiset(u)| == |multiset(v)|;
    RepliesTellApart(u, v);
  }

  ghost predicate ReplyIgnoresList(request: Request, providers: seq<Provider>, a: seq<Profile>) {
    forall b: seq<Profile> :: multiset(b) == multiset(a) ==>
      Reply(Ordered(request, Eligible(request, providers, b))) == Reply(Ordered(request, Eligible(request, providers, a)))
  }

  /** For profiles with ids of their own the same holds of the ids the caller sees. */
  lemma ReplyExactly(request: Request, providers: seq<Provider>, a: seq<Profile>)
    requires OwnIds(multiset(a))
    ensures ReplyIgnoresList(request, providers, a) <==>
            Determined(request, request.fallbackIds, multiset(Eligible(request, providers, a)))
  {
    RoutingExactly(request, providers, a);
    forall b: seq<Profile> | multiset(b) == multiset(a)
      ensures Reply(Ordered(request, Eligible(request, providers, b))) == Reply(Ordered(request, Eligible(request, providers, a))) <==>
              Ordered(request, Eligible(request, providers, b)) == Ordered(request, Eligible(request, providers, a))
    {
      SameReplyExactly(request, providers, a, b);
    }
  }

  /** Distinct names leave nothing to a tie, whatever is requested. */
  lemma DistinctNamesDetermine(request: Request, providers: seq<Provider>, a: seq<Profile>)
    requires DistinctNames(multiset(a))
    ensures Determined(request, request.fallbackIds, multiset(Eligible(request, providers, a)))
  {
    RoutingExactly(request, providers, a);
    forall b: seq<Profile> | multiset(b) == multiset(a)
      ensures Ordered(request, Eligible(request, providers, b)) == Ordered(request, Eligible(request, providers, a))
    {
      RoutingIgnoresOrder(request, providers, a, b);
    }
  }
}
