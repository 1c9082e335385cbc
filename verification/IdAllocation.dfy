/** The self-healing id counter: every allocation is reconciled with the ids found in the tables. */
module IdAllocation {
  import opened Prelude
  import opened Text
  import opened PublicIds

  // ----- the LIKE filter -----

  /** SQLite's LIKE: `%` is any text, `_` any one character, letters match in either case. */
  predicate Like(pattern: string, s: string)
    decreases |pattern| + |s|
  {
    if pattern == "" then s == ""
    else if pattern[0] == '%' then Like(pattern[1..], s) || (s != "" && Like(pattern, s[1..]))
    else s != "" && (pattern[0] == '_' || UpperChar(pattern[0]) == UpperChar(s[0])) && Like(pattern[1..], s[1..])
  }

  lemma {:induction false} AnyText(s: string)
    ensures Like("%", s)
  {
    if s == "" {
      assert Like("", s);
    } else {
      AnyText(s[1..]);
    }
  }

  /** `prefix_%` keeps every text that begins with the prefix, in any case, followed by anything at all. */
  lemma {:induction false} PrefixFilter(prefix: string, s: string)
    requires '%' !in prefix && '_' !in prefix
    ensures Like(prefix + "_%", s) <==> |prefix| < |s| && Upper(s[..|prefix|]) == Upper(prefix)
  {
    var pattern := prefix + "_%";
    if prefix == "" {
      assert pattern[1..] == "%";
      if s != "" {
        AnyText(s[1..]);
      }
      assert Upper(s[..0]) == Upper("");
    } else {
      assert pattern[1..] == prefix[1..] + "_%";
      if s != "" {
        PrefixFilter(prefix[1..], s[1..]);
        if |prefix| < |s| {
          assert s[1..][..|prefix| - 1] == s[..|prefix|][1..];
          UpperStep(prefix);
          UpperStep(s[..|prefix|]);
        }
      }
    }
  }

  lemma UpperStep(s: string)
    requires s != ""
    ensures Upper(s)[0] == UpperChar(s[0]) && Upper(s)[1..] == Upper(s[1..])
    ensures Upper(s) == [UpperChar(s[0])] + Upper(s[1..])
  {
  }

  /** The filter never drops an id that the parser would count. */
  lemma FilterKeepsCounted(id: string, prefix: string)
    requires Word(prefix) && Number(id, prefix) > 0
    ensures Like(prefix + "_%", id)
  {
    assert '%' !in prefix && '_' !in prefix;
    PrefixFilter(prefix, id);
    assert id[..|prefix| + 1] == prefix + "_";
    assert id[..|prefix|] == id[..|prefix| + 1][..|prefix|] == prefix;
  }

  // ----- the counter -----

  /** Text id columns of all tables. */
  type Tables = seq<seq<string>>

  /** Nothing in the tables counts higher. */
  predicate Covers(tables: Tables, prefix: string, n: nat) {
    forall t, k :: 0 <= t < |tables| && 0 <= k < |tables[t]| ==> Number(tables[t][k], prefix) <= n
  }

  predicate Reached(tables: Tables, prefix: string, n: nat) {
    n == 0 || exists t, k :: 0 <= t < |tables| && 0 <= k < |tables[t]| && Number(tables[t][k], prefix) == n
  }

  function HighestIn(ids: seq<string>, prefix: string): (r: nat)
    ensures forall k :: 0 <= k < |ids| ==> Number(ids[k], prefix) <= r
    ensures r == 0 || exists k :: 0 <= k < |ids| && Number(ids[k], prefix) == r
  {
    if ids == [] then 0
    else
      var r, n := HighestIn(ids[..|ids| - 1], prefix), Number(ids[|ids| - 1], prefix);
      if n > r then n else r
  }

  /** The highest number any table holds under the prefix. */
  function Highest(tables: Tables, prefix: string): (r: nat)
    ensures Covers(tables, prefix, r) && Reached(tables, prefix, r)
  {
    if tables == [] then 0
    else
      var r, n := Highest(tables[..|tables| - 1], prefix), HighestIn(tables[|tables| - 1], prefix);
      assert Covers(tables[..|tables| - 1], prefix, r) && Reached(tables[..|tables| - 1], prefix, r);
      if n > r then n else r
  }

  lemma OneHighest(tables: Tables, prefix: string, n: nat)
    requires Covers(tables, prefix, n) && Reached(tables, prefix, n)
    ensures n == Highest(tables, prefix)
  {
  }

  /** What one allocation issues: the counter, unless the tables are ahead of it. */
  function NextNumber(counters: map<Entity, int>, tables: Tables, entity: Entity): int {
    Ahead(counters, entity, Highest(tables, Prefix(entity)) + 1)
  }

  function Ahead(counters: map<Entity, int>, entity: Entity, persisted: int): int {
    if entity in counters && counters[entity] > persisted then counters[entity] else persisted
  }

  /** The CASE expression of the update. */
  function Bumped(counter: int, persisted: int): int {
    if counter < persisted then persisted + 1 else counter + 1
  }

  lemma BumpIssuesNext(counters: map<Entity, int>, entity: Entity, persisted: int)
    ensures var inserted := if entity in counters then counters else counters[entity := persisted];
            var bumped := Bumped(inserted[entity], persisted);
      bumped - 1 == Ahead(counters, entity, persisted) && inserted[entity := bumped] == counters[entity := bumped]
  {
  }

  class IdStore {
    var counters: map<Entity, int>
    var tables: Tables

    constructor (counters: map<Entity, int>, tables: Tables)
      ensures this.counters == counters && this.tables == tables
    {
      this.counters, this.tables := counters, tables;
    }

    method PersistedNextNumber(entity: Entity) returns (next: nat)
      ensures next == Highest(tables, Prefix(entity)) + 1
    {
      var prefix, highest := Prefix(entity), 0;
      PrefixIsWord(entity);
      for t := 0 to |tables|
        invariant Covers(tables[..t], prefix, highest) && Reached(tables[..t], prefix, highest)
      {
        highest := ScanTable(tables[t], prefix, highest, tables[..t]);
        assert tables[..t + 1] == tables[..t] + [tables[t]];
      }
      assert tables[..|tables|] == tables;
      OneHighest(tables, prefix, highest);
      return highest + 1;
    }

    method ScanTable(ids: seq<string>, prefix: string, start: nat, ghost before: Tables) returns (highest: nat)
      requires Word(prefix) && Covers(before, prefix, start) && Reached(before, prefix, start)
      ensures Covers(before + [ids], prefix, highest) && Reached(before + [ids], prefix, highest)
    {
      highest := start;
      for k := 0 to |ids|
        invariant start <= highest
        invariant forall j :: 0 <= j < k ==> Number(ids[j], prefix) <= highest
        invariant highest == start || exists j :: 0 <= j < k && Number(ids[j], prefix) == highest
      {
        if Like(prefix + "_%", ids[k]) {
          if Number(ids[k], prefix) > highest {
            highest := Number(ids[k], prefix);
          }
        } else if Number(ids[k], prefix) > 0 {
          FilterKeepsCounted(ids[k], prefix);
        }
      }
      ghost var all := before + [ids];
      assert all[|before|] == ids;
      if highest == start && start != 0 {
        ghost var t, k :| 0 <= t < |before| && 0 <= k < |before[t]| && Number(before[t][k], prefix) == start;
        assert all[t] == before[t];
      } else if highest != start {
        ghost var j :| 0 <= j < |ids| && Number(ids[j], prefix) == highest;
        assert Number(all[|before|][j], prefix) == highest;
      }
    }

    /** Insert-or-ignore the counter row, then bump it past the tables, then issue what it stepped over. */
    method NextId(entity: Entity) returns (id: string)
      modifies this`counters
      ensures var n := NextNumber(old(counters), tables, entity);
        n >= 1 && Format(entity, n) == Some(id) && counters == old(counters)[entity := n + 1]
    {
      var persisted := PersistedNextNumber(entity);
      BumpIssuesNext(counters, entity, persisted);
      ghost var n := NextNumber(counters, tables, entity);
      assert n == Ahead(counters, entity, persisted) >= 1;
      if entity !in counters {
        counters := counters[entity := persisted];
      }
      var bumped := Bumped(counters[entity], persisted);
      counters := counters[entity := bumped];
      assert bumped - 1 == n;
      id := Print(entity, bumped - 1);
    }

    method Print(entity: Entity, n: int) returns (id: string)
      requires n >= 1
      ensures Format(entity, n) == Some(id)
    {
      id := Prefix(entity) + "_" + Padded(n);
    }
  }

  // ----- all runs -----

  datatype State = State(counters: map<Entity, int>, tables: Tables)

  /** A run allocates ids, and in between anything may happen to the tables. */
  datatype Step = Allocate(entity: Entity) | Edit

  predicate StepOk(step: Step, s: State, s': State) {
    match step
    case Allocate(entity) =>
      s'.tables == s.tables && s'.counters == s.counters[entity := NextNumber(s.counters, s.tables, entity) + 1]
    case Edit => s'.counters == s.counters
  }

  predicate Run(states: seq<State>, steps: seq<Step>) {
    |states| == |steps| + 1 && forall k :: 0 <= k < |steps| ==> StepOk(steps[k], states[k], states[k + 1])
  }

  function Issued(states: seq<State>, steps: seq<Step>, k: nat): int
    requires k < |steps| < |states| && steps[k].Allocate?
  {
    NextNumber(states[k].counters, states[k].tables, steps[k].entity)
  }

  /** One allocation: a positive number above every persisted id of the entity, so a new id altogether,
      whatever the counter said before. */
  lemma IssuedIsFresh(s: State, entity: Entity)
    ensures var n := NextNumber(s.counters, s.tables, entity);
      && n >= 1 && Format(entity, n).Some?
      && (forall t, k :: 0 <= t < |s.tables| && 0 <= k < |s.tables[t]| ==>
            Number(s.tables[t][k], Prefix(entity)) < n && s.tables[t][k] != Format(entity, n).value)
  {
    var n := NextNumber(s.counters, s.tables, entity);
    assert Covers(s.tables, Prefix(entity), Highest(s.tables, Prefix(entity)));
    RoundTrip(entity, n, entity);
  }

  /** Once a number is issued, its entity's counter stays above it. */
  lemma {:induction false} CounterStaysAbove(states: seq<State>, steps: seq<Step>, i: nat, j: nat)
    requires Run(states, steps) && i < j < |states| && steps[i].Allocate?
    ensures var entity := steps[i].entity;
      entity in states[j].counters && states[j].counters[entity] > Issued(states, steps, i)
    decreases j
  {
    assert StepOk(steps[j - 1], states[j - 1], states[j]);
    if j > i + 1 {
      CounterStaysAbove(states, steps, i, j - 1);
    }
  }

  /** Over any run, with any edits of the tables in between, the numbers issued for an entity strictly
      increase, and no id is ever issued twice. */
  lemma IssuedIncreases(states: seq<State>, steps: seq<Step>, i: nat, j: nat)
    requires Run(states, steps) && i < j < |steps| && steps[i].Allocate? && steps[j].Allocate?
    ensures steps[i].entity == steps[j].entity ==> Issued(states, steps, i) < Issued(states, steps, j)
    ensures Format(steps[i].entity, Issued(states, steps, i)) != Format(steps[j].entity, Issued(states, steps, j))
  {
    CounterStaysAbove(states, steps, i, j);
    IssuedIsFresh(states[i], steps[i].entity);
    IssuedIsFresh(states[j], steps[j].entity);
    FormatIsInjective(steps[i].entity, Issued(states, steps, i), steps[j].entity, Issued(states, steps, j));
  }
}
