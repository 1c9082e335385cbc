/** Chains of supersession links: exactly when the services keep them free of cycles. */
module Supersession {
  import opened Prelude
  import opened Knowledge

  // ----- chains over a map of links -----

  type Links = map<Id, Id>

  /** Where `n` links lead from `a`, if the chain is that long. */
  function Follow(links: Links, a: Id, n: nat): Option<Id>
    decreases n
  {
    if n == 0 then Some(a) else if a in links then Follow(links, links[a], n - 1) else None
  }

  ghost predicate Reachable(links: Links, a: Id, b: Id) {
    exists n: nat :: Follow(links, a, n) == Some(b)
  }

  /** No chain comes back to where it started. */
  ghost predicate Acyclic(links: Links) {
    forall a, n: nat :: n > 0 ==> Follow(links, a, n) != Some(a)
  }

  lemma {:induction false} FollowFurther(links: Links, a: Id, m: nat, n: nat)
    requires Follow(links, a, m).Some?
    ensures Follow(links, a, m + n) == Follow(links, Follow(links, a, m).value, n)
    decreases m
  {
    if m > 0 {
      FollowFurther(links, links[a], m - 1, n);
    }
  }

  /** Up to its first arrival at `x`, a chain does not depend on the link of `x`. */
  lemma {:induction false} ArrivesAnyway(links: Links, x: Id, y: Id, a: Id, n: nat)
    requires Follow(links, a, n) == Some(x)
    ensures Reachable(links[x := y], a, x)
    decreases n
  {
    if a == x {
      assert Follow(links[x := y], a, 0) == Some(x);
    } else {
      ArrivesAnyway(links, x, y, links[a], n - 1);
      var k: nat :| Follow(links[x := y], links[a], k) == Some(x);
      assert Follow(links[x := y], a, k + 1) == Some(x);
    }
  }

  lemma {:induction false} ArrivedBefore(links: Links, x: Id, y: Id, a: Id, n: nat)
    requires Follow(links[x := y], a, n) == Some(x)
    ensures Reachable(links, a, x)
    decreases n
  {
    if a == x {
      assert Follow(links, a, 0) == Some(x);
    } else {
      ArrivedBefore(links, x, y, links[a], n - 1);
      var k: nat :| Follow(links, links[a], k) == Some(x);
      assert Follow(links, a, k + 1) == Some(x);
    }
  }

  /** A chain that never meets `x` is the same without its link. */
  lemma {:induction false} NeverMeets(links: Links, x: Id, y: Id, a: Id, n: nat)
    requires !Reachable(links[x := y], a, x)
    ensures Follow(links[x := y], a, n) == Follow(links, a, n)
    decreases n
  {
    var linked := links[x := y];
    assert Follow(linked, a, 0) == Some(a);
    if n > 0 && a in links {
      var next := links[a];
      forall k: nat
        ensures Follow(linked, next, k) != Some(x)
      {
        assert Follow(linked, a, k + 1) == Follow(linked, next, k);
      }
      NeverMeets(links, x, y, links[a], n - 1);
    }
  }

  /** A cycle through `a` that meets `x` is a cycle through `x`. */
  lemma CycleTurns(links: Links, a: Id, n: nat, x: Id, m: nat)
    requires Follow(links, a, n) == Some(a) && Follow(links, a, m) == Some(x)
    ensures Follow(links, x, n) == Some(x)
  {
    FollowFurther(links, a, n, m);
    FollowFurther(links, a, m, n);
  }

  /** Pointing `x` at `y` keeps the links acyclic exactly when `y` does not already lead to `x`; the
      link that `x` had before does not matter. */
  lemma LinkingExactly(links: Links, x: Id, y: Id)
    requires Acyclic(links)
    ensures Acyclic(links[x := y]) <==> !Reachable(links, y, x)
  {
    var linked := links[x := y];
    if Reachable(links, y, x) {
      var n: nat :| Follow(links, y, n) == Some(x);
      ArrivesAnyway(links, x, y, y, n);
      var k: nat :| Follow(linked, y, k) == Some(x);
      assert Follow(linked, x, k + 1) == Some(x);
    }
    if !Acyclic(linked) {
      var a, n: nat :| n > 0 && Follow(linked, a, n) == Some(a);
      CycleMeets(links, x, y, a, n);
      var m: nat :| Follow(linked, a, m) == Some(x);
      CycleTurns(linked, a, n, x, m);
      ArrivedBefore(links, x, y, y, n - 1);
    }
  }

  /** A cycle that was not there before uses the new link. */
  lemma CycleMeets(links: Links, x: Id, y: Id, a: Id, n: nat)
    requires Acyclic(links) && n > 0 && Follow(links[x := y], a, n) == Some(a)
    ensures Reachable(links[x := y], a, x)
  {
    assert Follow(links, a, n) != Some(a);
    if !Reachable(links[x := y], a, x) {
      NeverMeets(links, x, y, a, n);
    }
  }

  // ----- the two links of a memory -----

  function SupersededBy(s: State): Links {
    map id | id in s.memories && s.memories[id].supersededBy.Some? :: s.memories[id].supersededBy.value
  }

  function Supersedes(s: State): Links {
    map id | id in s.memories && s.memories[id].supersedes.Some? :: s.memories[id].supersedes.value
  }

  lemma SameLinks(s: State, s': State)
    requires forall id :: id in s'.memories ==>
      if id in s.memories then s'.memories[id].supersededBy == s.memories[id].supersededBy && s'.memories[id].supersedes == s.memories[id].supersedes
      else s'.memories[id].supersededBy == None == s'.memories[id].supersedes
    requires s.memories.Keys <= s'.memories.Keys
    ensures SupersededBy(s') == SupersededBy(s) && Supersedes(s') == Supersedes(s)
  {
    assert SupersededBy(s').Keys == SupersededBy(s).Keys;
    assert Supersedes(s').Keys == Supersedes(s).Keys;
  }

  lemma LinkedLinks(s: State, older: Id, newer: Id)
    requires older != newer && older in s.memories && newer in s.memories
    ensures SupersededBy(Linked(s, older, newer)) == SupersededBy(s)[older := newer]
    ensures Supersedes(Linked(s, older, newer)) == Supersedes(s)[newer := older]
  {
  }

  /** An accepted supersession sets one link of each kind; nothing else ever changes a link. */
  lemma LinksAfter(s: State, move: Move)
    requires FreshIds(s, move) && Allowed(s, move)
    ensures SupersededBy(After(s, move)) == if move.Supersede? then SupersededBy(s)[move.older := move.newer] else SupersededBy(s)
    ensures Supersedes(After(s, move)) == if move.Supersede? then Supersedes(s)[move.newer := move.older] else Supersedes(s)
  {
    if move.Supersede? {
      LinkedLinks(s, move.older, move.newer);
    } else {
      SameLinks(s, After(s, move));
    }
  }

  /** The move closes a cycle of `superseded_by` links: the newer memory already leads to the older one. */
  ghost predicate ClosesForward(s: State, move: Move) {
    move.Supersede? && Allowed(s, move) && Reachable(SupersededBy(s), move.newer, move.older)
  }

  /** The move closes a cycle of `supersedes` links: the older memory already leads back to the newer one. */
  ghost predicate ClosesBackward(s: State, move: Move) {
    move.Supersede? && Allowed(s, move) && Reachable(Supersedes(s), move.older, move.newer)
  }

  /** A move keeps either kind of link acyclic if and only if it does not close a cycle, which can be
      seen beforehand by following one chain. */
  lemma MoveKeepsAcyclicExactly(s: State, move: Move)
    requires FreshIds(s, move) && Allowed(s, move)
    ensures Acyclic(SupersededBy(s)) ==> (Acyclic(SupersededBy(After(s, move))) <==> !ClosesForward(s, move))
    ensures Acyclic(Supersedes(s)) ==> (Acyclic(Supersedes(After(s, move))) <==> !ClosesBackward(s, move))
  {
    LinksAfter(s, move);
    if move.Supersede? {
      if Acyclic(SupersededBy(s)) {
        LinkingExactly(SupersededBy(s), move.older, move.newer);
      }
      if Acyclic(Supersedes(s)) {
        LinkingExactly(Supersedes(s), move.newer, move.older);
      }
    }
  }

  // ----- runs -----

  ghost predicate StaysAcyclic(states: seq<State>, upTo: nat)
    requires upTo <= |states|
  {
    forall k :: 0 <= k < upTo ==> Acyclic(SupersededBy(states[k])) && Acyclic(Supersedes(states[k]))
  }

  ghost predicate NeverCloses(states: seq<State>, moves: seq<Move>, upTo: nat)
    requires upTo <= |moves| < |states|
  {
    forall k :: 0 <= k < upTo ==> !ClosesForward(states[k], moves[k]) && !ClosesBackward(states[k], moves[k])
  }

  /** A run that starts without cycles stays without them if and only if none of its moves closes one. */
  lemma RunStaysAcyclicExactly(states: seq<State>, moves: seq<Move>)
    requires Run(states, moves) && Acyclic(SupersededBy(states[0])) && Acyclic(Supersedes(states[0]))
    ensures StaysAcyclic(states, |states|) <==> NeverCloses(states, moves, |moves|)
  {
    AcyclicSoFar(states, moves, |moves|);
  }

  lemma {:induction false} AcyclicSoFar(states: seq<State>, moves: seq<Move>, n: nat)
    requires Run(states, moves) && n <= |moves| && Acyclic(SupersededBy(states[0])) && Acyclic(Supersedes(states[0]))
    ensures StaysAcyclic(states, n + 1) <==> NeverCloses(states, moves, n)
  {
    if n > 0 {
      AcyclicSoFar(states, moves, n - 1);
      var s, move := states[n - 1], moves[n - 1];
      assert StepOk(s, move, states[n]);
      assert StaysAcyclic(states, n + 1) <==>
        StaysAcyclic(states, n) && Acyclic(SupersededBy(states[n])) && Acyclic(Supersedes(states[n]));
      assert NeverCloses(states, moves, n) <==>
        NeverCloses(states, moves, n - 1) && !ClosesForward(s, move) && !ClosesBackward(s, move);
      if Allowed(s, move) {
        MoveKeepsAcyclicExactly(s, move);
      }
    }
  }

  /** The services start without cycles. */
  lemma StartsAcyclic()
    ensures Acyclic(SupersededBy(State(map[], map[], map[]))) && Acyclic(Supersedes(State(map[], map[], map[])))
  {
    var links: Links := SupersededBy(State(map[], map[], map[]));
    assert links == map[] == Supersedes(State(map[], map[], map[]));
    forall a, n: nat | n > 0
      ensures Follow(links, a, n) == None
    {
    }
  }
}
