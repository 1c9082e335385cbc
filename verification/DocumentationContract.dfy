/** The canonical form of documentation requirements, legacy aliases folded in. */
module DocumentationContract {
  import opened Prelude
  import opened Text

  datatype Value = Null | Word(text: string) | Flag(on: bool) | List(items: seq<Value>) | Other(truthy: bool, tag: nat)

  datatype Key =
    | Path | TargetPath | Target | ProposedPath | CanonicalTarget | TargetType | Kind | ExactPathRequired
    | AcceptablePaths | AcceptableCategories | OtherKey(name: string)

  type Requirement = map<Key, Value>

  /** How `str` shows a value that is not a string. */
  type Printer = Value -> string

  predicate Truthy(v: Value) {
    match v
    case Null => false
    case Word(text) => text != ""
    case Flag(on) => on
    case List(items) => items != []
    case Other(truthy, _) => truthy
  }

  function Get(r: Requirement, key: Key): Value {
    if key in r then r[key] else Null
  }

  function Or(a: Value, b: Value): Value {
    if Truthy(a) then a else b
  }

  function FirstNonempty(a: string, b: string): string {
    if a != "" then a else b
  }

  function Clean(show: Printer, v: Value): (s: string)
    ensures Trimmed(s)
    ensures v.Word? && Trimmed(v.text) ==> s == v.text
    ensures v.Null? ==> s == ""
  {
    if !Truthy(v) then "" else if v.Word? then Strip(v.text) else Strip(show(v))
  }

  predicate ExactType(s: string) {
    s == "EXACT_PATH" || s == "REQUIRED_PATH" || s == "NEW_DOCUMENT" || s == "PROPOSED_PATH"
  }

  predicate LooksLikeDocument(s: string) {
    "docs/" <= Lower(s) || Ends(Lower(s), ".md") || Ends(Lower(s), ".rst")
  }

  // ----- ordered strings -----

  /** The cleaned nonempty items, each once, by first mention. */
  function Ordered(show: Printer, items: seq<Value>): seq<string> {
    if items == [] then []
    else
      var before, s := Ordered(show, items[..|items| - 1]), Clean(show, items[|items| - 1]);
      if s != "" && s !in before then before + [s] else before
  }

  function OrderedStrings(show: Printer, v: Value): seq<string> {
    if v.List? then Ordered(show, v.items) else []
  }

  method OrderedList(show: Printer, v: Value) returns (result: seq<string>)
    ensures result == OrderedStrings(show, v)
  {
    if !v.List? {
      return [];
    }
    result := [];
    for i := 0 to |v.items|
      invariant result == Ordered(show, v.items[..i])
    {
      assert v.items[..i + 1][..i] == v.items[..i];
      var s := Clean(show, v.items[i]);
      if s != "" && s !in result {
        result := result + [s];
      }
    }
    assert v.items[..|v.items|] == v.items;
  }

  /** Trimmed, nonempty and without repetition. */
  predicate Tidy(s: seq<string>) {
    && (forall k :: 0 <= k < |s| ==> s[k] != "" && Trimmed(s[k]))
    && (forall i, j :: 0 <= i < j < |s| ==> s[i] != s[j])
  }

  predicate Mentions(show: Printer, items: seq<Value>, s: string) {
    exists k :: 0 <= k < |items| && Clean(show, items[k]) == s
  }

  /** Some item says `a` before any item says `b`. */
  predicate SaidBefore(show: Printer, items: seq<Value>, a: string, b: string) {
    exists k :: 0 <= k < |items| && Clean(show, items[k]) == a && !Mentions(show, items[..k], b) && a != b
  }

  /** Tidy, complete, and in the order of first mention. */
  lemma {:induction false} OrderedIsTidy(show: Printer, items: seq<Value>)
    ensures Tidy(Ordered(show, items))
    ensures forall s :: s in Ordered(show, items) <==> s != "" && Mentions(show, items, s)
  {
    if items != [] {
      var n := |items| - 1;
      OrderedIsTidy(show, items[..n]);
      forall s
        ensures Mentions(show, items, s) <==> Mentions(show, items[..n], s) || Clean(show, items[n]) == s
      {
        MentionsOneMore(show, items, s);
      }
    }
  }

  lemma MentionsOneMore(show: Printer, items: seq<Value>, s: string)
    requires items != []
    ensures var n := |items| - 1;
      Mentions(show, items, s) <==> Mentions(show, items[..n], s) || Clean(show, items[n]) == s
  {
    var n := |items| - 1;
    if Mentions(show, items, s) {
      var k :| 0 <= k < |items| && Clean(show, items[k]) == s;
      assert k < n ==> items[..n][k] == items[k];
    }
    if Mentions(show, items[..n], s) {
      var k :| 0 <= k < n && Clean(show, items[..n][k]) == s;
      assert items[k] == items[..n][k];
    }
  }

  /** An item that is added was not mentioned before. */
  lemma LastIsNew(show: Printer, items: seq<Value>)
    requires items != [] && Ordered(show, items) != Ordered(show, items[..|items| - 1])
    ensures !Mentions(show, items[..|items| - 1], Clean(show, items[|items| - 1]))
  {
    OrderedIsTidy(show, items[..|items| - 1]);
  }

  lemma {:induction false} OrderedKeepsOrder(show: Printer, items: seq<Value>, i: nat, j: nat)
    requires i < j < |Ordered(show, items)|
    ensures SaidBefore(show, items, Ordered(show, items)[i], Ordered(show, items)[j])
  {
    var n := |items| - 1;
    var before, r := Ordered(show, items[..n]), Ordered(show, items);
    OrderedIsTidy(show, items[..n]);
    if j < |before| {
      OrderedKeepsOrder(show, items[..n], i, j);
      var k :| 0 <= k < n && Clean(show, items[..n][k]) == before[i] && !Mentions(show, items[..n][..k], before[j]);
      assert items[..n][..k] == items[..k] && items[..n][k] == items[k];
    } else {
      assert before[i] in before;
      var k :| 0 <= k < n && Clean(show, items[..n][k]) == before[i];
      assert items[k] == items[..n][k];
      LastIsNew(show, items);
      forall m | 0 <= m < k
        ensures Clean(show, items[..k][m]) != r[j]
      {
        assert items[..n][m] == items[..k][m];
      }
      OrderedIsTidy(show, items);
    }
  }

  function Words(s: seq<string>): seq<Value> {
    seq(|s|, k requires 0 <= k < |s| => Word(s[k]))
  }

  /** A tidy list is left as it is. */
  lemma {:induction false} TidyStays(show: Printer, s: seq<string>)
    requires Tidy(s)
    ensures Ordered(show, Words(s)) == s
  {
    if s != [] {
      var n := |s| - 1;
      TidyStays(show, s[..n]);
      assert Words(s)[..n] == Words(s[..n]);
      assert Clean(show, Words(s)[n]) == s[n];
      assert s == s[..n] + [s[n]];
    }
  }

  // ----- one requirement -----

  /** What the aliases and flags of a requirement amount to. */
  datatype Reading = Reading(path: string, target: string, proposed: string, exact: bool)

  function Resolve(path: string, named: string, proposed: string, fallback: string, exact: bool): Reading {
    Reading(path,
            if named != "" then named else FirstNonempty(path, FirstNonempty(proposed, fallback)),
            if path != "" && proposed == "" && exact then path else proposed,
            exact)
  }

  /** Flagged as exact, or of a type that is. */
  predicate Exact(show: Printer, flag: Value, kind: Value) {
    Truthy(flag) || ExactType(Upper(Clean(show, kind)))
  }

  function Read(show: Printer, r: Requirement): Reading {
    Resolve(Clean(show, Or(Get(r, Path), Get(r, TargetPath))), Clean(show, Get(r, Target)), Clean(show, Get(r, ProposedPath)),
            Clean(show, Get(r, CanonicalTarget)), Exact(show, Get(r, ExactPathRequired), Or(Get(r, TargetType), Get(r, Kind))))
  }

  function Including(s: seq<string>, wanted: bool, extra: string): seq<string> {
    if wanted && extra != "" && extra !in s then s + [extra] else s
  }

  function Paths(show: Printer, r: Requirement): seq<string> {
    var reading := Read(show, r);
    Including(Including(OrderedStrings(show, Get(r, AcceptablePaths)), !reading.exact, reading.path),
              LooksLikeDocument(reading.target), reading.target)
  }

  /** `target_path` is consumed only when `path` has no value of its own. */
  function Popped(r: Requirement): Requirement {
    if Truthy(Get(r, Path)) then r - {Path} else r - {Path, TargetPath}
  }

  /** The values a canonical requirement carries under the keys it sets. */
  datatype Stamp = Stamp(target: string, proposed: string, exact: bool, paths: seq<string>, categories: seq<string>)

  function StampOf(show: Printer, r: Requirement): Stamp {
    var reading := Read(show, r);
    Stamp(reading.target, reading.proposed, reading.exact, Paths(show, r), OrderedStrings(show, Get(r, AcceptableCategories)))
  }

  function Entry(base: Requirement, stamp: Stamp, key: Key): Option<Value> {
    var kept := if key in base then Some(base[key]) else None;
    match key
    case Target => Some(Word(stamp.target))
    case AcceptablePaths => Some(List(Words(stamp.paths)))
    case AcceptableCategories => Some(List(Words(stamp.categories)))
    case ProposedPath => if stamp.proposed != "" then Some(Word(stamp.proposed)) else kept
    case ExactPathRequired => if stamp.exact || kept.Some? then Some(Flag(stamp.exact)) else None
    case _ => kept
  }

  /** `base` with those keys set; the flag is written only if it holds or was there. */
  function Stamped(base: Requirement, stamp: Stamp): (r: Requirement)
    ensures forall key :: key in r <==> Entry(base, stamp, key).Some?
    ensures forall key :: key in r ==> r[key] == Entry(base, stamp, key).value
  {
    map key | key in base.Keys + {Target, AcceptablePaths, AcceptableCategories, ProposedPath, ExactPathRequired} &&
              Entry(base, stamp, key).Some?
      :: Entry(base, stamp, key).value
  }

  function Canonical(show: Printer, r: Requirement): Requirement {
    Stamped(Popped(r), StampOf(show, r))
  }

  /** The step-by-step form. */
  method Canonicalize(show: Printer, r: Requirement) returns (canonical: Requirement)
    ensures canonical == Canonical(show, r)
  {
    var alias := Get(r, Path);
    canonical := r - {Path};
    if !Truthy(alias) {
      alias := Get(r, TargetPath);
      canonical := r - {Path, TargetPath};
    }
    var path, target, proposed := Clean(show, alias), Clean(show, Get(r, Target)), Clean(show, Get(r, ProposedPath));
    var exact := Exact(show, Get(r, ExactPathRequired), Or(Get(r, TargetType), Get(r, Kind)));
    if target == "" {
      target := FirstNonempty(path, FirstNonempty(proposed, Clean(show, Get(r, CanonicalTarget))));
    }
    if path != "" && proposed == "" && exact {
      proposed := path;
    }
    assert canonical == Popped(r) && Reading(path, target, proposed, exact) == Read(show, r);
    var paths := OrderedList(show, Get(r, AcceptablePaths));
    if path != "" && !exact && path !in paths {
      paths := paths + [path];
    }
    if target != "" && LooksLikeDocument(target) && target !in paths {
      paths := paths + [target];
    }
    var categories := OrderedList(show, Get(r, AcceptableCategories));
    canonical := SetKeys(canonical, Stamp(target, proposed, exact, paths, categories));
  }

  /** The assignments, one key after the other. */
  method SetKeys(base: Requirement, stamp: Stamp) returns (canonical: Requirement)
    ensures canonical == Stamped(base, stamp)
  {
    canonical := base[Target := Word(stamp.target)];
    canonical := canonical[AcceptablePaths := List(Words(stamp.paths))];
    canonical := canonical[AcceptableCategories := List(Words(stamp.categories))];
    if stamp.proposed != "" {
      canonical := canonical[ProposedPath := Word(stamp.proposed)];
    }
    if stamp.exact {
      canonical := canonical[ExactPathRequired := Flag(true)];
    } else if ExactPathRequired in canonical {
      canonical := canonical[ExactPathRequired := Flag(false)];
    }
    SameRequirement(canonical, Stamped(base, stamp));
  }

  lemma SameRequirement(a: Requirement, b: Requirement)
    requires forall key :: (key in a <==> key in b) && (key in a ==> a[key] == b[key])
    ensures a == b
  {
  }

  /** Stamping twice is stamping once. */
  lemma Restamping(base: Requirement, stamp: Stamp)
    ensures Stamped(Stamped(base, stamp), stamp) == Stamped(base, stamp)
  {
    SameRequirement(Stamped(Stamped(base, stamp), stamp), Stamped(base, stamp));
  }

  lemma ReadingIsTrimmed(show: Printer, r: Requirement)
    ensures var reading := Read(show, r); Trimmed(reading.path) && Trimmed(reading.target) && Trimmed(reading.proposed)
  {
  }

  lemma IncludingKeepsTidy(s: seq<string>, wanted: bool, extra: string)
    requires Tidy(s) && Trimmed(extra)
    ensures Tidy(Including(s, wanted, extra)) && s <= Including(s, wanted, extra)
    ensures wanted && extra != "" ==> extra in Including(s, wanted, extra)
  {
  }

  /** The lists of a canonical requirement are tidy, and begin with what was given, in its order. */
  lemma ListsAreTidy(show: Printer, r: Requirement)
    ensures Tidy(Paths(show, r)) && OrderedStrings(show, Get(r, AcceptablePaths)) <= Paths(show, r)
    ensures Tidy(OrderedStrings(show, Get(r, AcceptableCategories)))
    ensures var reading := Read(show, r);
      && (!reading.exact && reading.path != "" ==> reading.path in Paths(show, r))
      && (LooksLikeDocument(reading.target) && reading.target != "" ==> reading.target in Paths(show, r))
  {
    var reading, given := Read(show, r), OrderedStrings(show, Get(r, AcceptablePaths));
    ReadingIsTrimmed(show, r);
    if Get(r, AcceptablePaths).List? {
      OrderedIsTidy(show, Get(r, AcceptablePaths).items);
    }
    if Get(r, AcceptableCategories).List? {
      OrderedIsTidy(show, Get(r, AcceptableCategories).items);
    }
    IncludingKeepsTidy(given, !reading.exact, reading.path);
    IncludingKeepsTidy(Including(given, !reading.exact, reading.path), LooksLikeDocument(reading.target), reading.target);
  }

  /** A canonical requirement without aliases reads as itself. */
  lemma CanonicalReads(show: Printer, base: Requirement, r: Requirement, canonical: Requirement)
    requires base == Popped(r) && Path !in base && TargetPath !in base && canonical == Stamped(base, StampOf(show, r))
    ensures var reading := Read(show, r);
      Read(show, canonical) == Reading("", reading.target, reading.proposed, reading.exact)
  {
    var reading := Read(show, r);
    ReadingIsTrimmed(show, r);
    StampedGets(base, StampOf(show, r));
    PoppedGets(r);
    assert Or(Get(canonical, TargetType), Get(canonical, Kind)) == Or(Get(r, TargetType), Get(r, Kind));
    assert Exact(show, Get(canonical, ExactPathRequired), Or(Get(r, TargetType), Get(r, Kind))) <==> reading.exact;
    ResolvedStays(Clean(show, Or(Get(r, Path), Get(r, TargetPath))), Clean(show, Get(r, Target)), Clean(show, Get(r, ProposedPath)),
                  Clean(show, Get(r, CanonicalTarget)), reading.exact);
  }

  lemma PoppedGets(r: Requirement)
    ensures forall key :: key != Path && key != TargetPath ==> Get(Popped(r), key) == Get(r, key)
  {
  }

  lemma StampedGets(base: Requirement, stamp: Stamp)
    ensures var r := Stamped(base, stamp);
      && Get(r, Path) == Get(base, Path) && Get(r, TargetPath) == Get(base, TargetPath)
      && Get(r, CanonicalTarget) == Get(base, CanonicalTarget) && Get(r, TargetType) == Get(base, TargetType) && Get(r, Kind) == Get(base, Kind)
      && Get(r, Target) == Word(stamp.target)
      && Get(r, ProposedPath) == (if stamp.proposed != "" then Word(stamp.proposed) else Get(base, ProposedPath))
      && (Truthy(Get(r, ExactPathRequired)) <==> stamp.exact)
  {
  }

  lemma ResolvedStays(path: string, named: string, proposed: string, fallback: string, exact: bool)
    ensures var first := Resolve(path, named, proposed, fallback, exact);
      Resolve("", first.target, if first.proposed != "" then first.proposed else proposed, fallback, exact) ==
      Reading("", first.target, first.proposed, exact)
  {
  }

  /** Its stamp is the one it carries. */
  lemma CanonicalStamp(show: Printer, base: Requirement, r: Requirement, canonical: Requirement)
    requires base == Popped(r) && Path !in base && TargetPath !in base && canonical == Stamped(base, StampOf(show, r))
    ensures StampOf(show, canonical) == StampOf(show, r)
  {
    CanonicalReads(show, base, r, canonical);
    ListsAreTidy(show, r);
    assert Get(canonical, AcceptablePaths) == List(Words(Paths(show, r)));
    assert Get(canonical, AcceptableCategories) == List(Words(OrderedStrings(show, Get(r, AcceptableCategories))));
    TidyStays(show, Paths(show, r));
    TidyStays(show, OrderedStrings(show, Get(r, AcceptableCategories)));
  }

  /** Canonicalizing once is enough, if and only if `path` has no value or there is no `target_path`. */
  lemma OnceSufficesExactly(show: Printer, r: Requirement)
    ensures Canonical(show, Canonical(show, r)) == Canonical(show, r) <==> !Truthy(Get(r, Path)) || TargetPath !in r
  {
    if Truthy(Get(r, Path)) && TargetPath in r {
      AliasLeft(Popped(r), StampOf(show, r));
      AliasGone(Canonical(show, r), StampOf(show, Canonical(show, r)));
    } else {
      CanonicalIsFixed(show, r);
    }
  }

  /** The smallest case in which once is not enough: both aliases given. */
  lemma OnceIsNotEnough(show: Printer, path: string, other: Value)
    requires path != ""
    ensures var r: Requirement := map[Path := Word(path), TargetPath := other];
      Canonical(show, Canonical(show, r)) != Canonical(show, r)
  {
    OnceSufficesExactly(show, map[Path := Word(path), TargetPath := other]);
  }

  lemma AliasLeft(base: Requirement, stamp: Stamp)
    ensures TargetPath in Stamped(base, stamp) <==> TargetPath in base
    ensures Path in Stamped(base, stamp) <==> Path in base
  {
  }

  lemma AliasGone(r: Requirement, stamp: Stamp)
    requires Path !in r
    ensures TargetPath !in Stamped(Popped(r), stamp)
  {
  }

  lemma CanonicalIsFixed(show: Printer, r: Requirement)
    requires TargetPath !in Popped(r)
    ensures Canonical(show, Canonical(show, r)) == Canonical(show, r)
  {
    CanonicalStamp(show, Popped(r), r, Canonical(show, r));
    PoppedOnce(Popped(r), StampOf(show, r));
    Restamping(Popped(r), StampOf(show, r));
  }

  lemma PoppedOnce(base: Requirement, stamp: Stamp)
    requires Path !in base && TargetPath !in base
    ensures Popped(Stamped(base, stamp)) == Stamped(base, stamp)
  {
    var r := Stamped(base, stamp);
    assert Path !in r && TargetPath !in r;
    SameRequirement(r - {Path, TargetPath}, r);
  }

  /** Canonicalizing twice is always enough. */
  lemma TwiceIsFixed(show: Printer, r: Requirement)
    ensures Canonical(show, Canonical(show, Canonical(show, r))) == Canonical(show, Canonical(show, r))
  {
    AliasLeft(Popped(r), StampOf(show, r));
    CanonicalIsFixed(show, Canonical(show, r));
  }

  // ----- lists of requirements -----

  /** Entries that are not objects are dropped. */
  function Objects(entries: seq<Option<Requirement>>): seq<Requirement> {
    if entries == [] then []
    else if entries[0].Some? then [entries[0].value] + Objects(entries[1..])
    else Objects(entries[1..])
  }

  function CanonicalEach(show: Printer, requirements: seq<Requirement>): seq<Requirement> {
    seq(|requirements|, k requires 0 <= k < |requirements| => Canonical(show, requirements[k]))
  }

  function CanonicalAll(show: Printer, entries: seq<Option<Requirement>>): seq<Requirement> {
    CanonicalEach(show, Objects(entries))
  }

  function Entries(requirements: seq<Requirement>): seq<Option<Requirement>> {
    seq(|requirements|, k requires 0 <= k < |requirements| => Some(requirements[k]))
  }

  lemma {:induction false} AllObjects(requirements: seq<Requirement>)
    ensures Objects(Entries(requirements)) == requirements
  {
    if requirements != [] {
      assert Entries(requirements)[1..] == Entries(requirements[1..]);
      AllObjects(requirements[1..]);
      assert requirements == [requirements[0]] + requirements[1..];
    }
  }

  /** The list version inherits the fixed point. */
  lemma ListTwiceIsFixed(show: Printer, entries: seq<Option<Requirement>>)
    ensures var twice := CanonicalAll(show, Entries(CanonicalAll(show, entries)));
      CanonicalAll(show, Entries(twice)) == twice
  {
    var once := CanonicalAll(show, entries);
    var twice := CanonicalEach(show, once);
    AllObjects(once);
    AllObjects(twice);
    forall k | 0 <= k < |twice|
      ensures Canonical(show, twice[k]) == twice[k]
    {
      TwiceIsFixed(show, Objects(entries)[k]);
    }
  }

  // ----- a canonical requirement in terms of the one given -----

  /** The first of four texts that is not empty, or the empty text. */
  predicate FirstOf(text: string, a: string, b: string, c: string, d: string) {
    if a != "" then text == a else if b != "" then text == b else if c != "" then text == c else text == d
  }

  function Said(show: Printer, r: Requirement, key: Key): string {
    if key in r then Clean(show, r[key]) else ""
  }

  predicate Holds(r: Requirement, key: Key) {
    key in r && Truthy(r[key])
  }

  /** What the requirement calls its path: `path` if that has a value, and otherwise `target_path`. */
  function SaidPath(show: Printer, r: Requirement): string {
    Said(show, r, if Holds(r, Path) then Path else TargetPath)
  }

  /** An exact path is asked for by the flag, or by the type, or by the kind where there is no type. */
  predicate AsksExact(show: Printer, r: Requirement) {
    || Holds(r, ExactPathRequired)
    || Upper(Said(show, r, if Holds(r, TargetType) then TargetType else Kind)) in
         {"EXACT_PATH", "REQUIRED_PATH", "NEW_DOCUMENT", "PROPOSED_PATH"}
  }

  lemma ReadExactly(show: Printer, r: Requirement)
    ensures var reading := Read(show, r);
      && reading.path == SaidPath(show, r) && (reading.exact <==> AsksExact(show, r))
      && FirstOf(reading.target, Said(show, r, Target), SaidPath(show, r), Said(show, r, ProposedPath), Said(show, r, CanonicalTarget))
      && reading.proposed ==
           (if Said(show, r, ProposedPath) == "" && AsksExact(show, r) then SaidPath(show, r) else Said(show, r, ProposedPath))
  {
  }

  lemma StampedSays(show: Printer, base: Requirement, stamp: Stamp)
    requires Trimmed(stamp.target) && Trimmed(stamp.proposed)
    ensures var c := Stamped(base, stamp);
      && Said(show, c, Target) == stamp.target && (Holds(c, ExactPathRequired) <==> stamp.exact)
      && (stamp.proposed != "" ==> Said(show, c, ProposedPath) == stamp.proposed)
      && (stamp.proposed == "" ==> Said(show, c, ProposedPath) == Said(show, base, ProposedPath))
  {
    StampedGets(base, stamp);
    var c := Stamped(base, stamp);
    forall key
      ensures Said(show, c, key) == Clean(show, Get(c, key)) && Said(show, base, key) == Clean(show, Get(base, key))
      ensures Holds(c, key) <==> Truthy(Get(c, key))
    {
    }
  }

  /** What a canonical requirement says under the keys it sets. */
  lemma StampSays(show: Printer, r: Requirement)
    ensures var c, reading := Canonical(show, r), Read(show, r);
      && Said(show, c, Target) == reading.target && (Holds(c, ExactPathRequired) <==> reading.exact)
      && (reading.proposed != "" ==> Said(show, c, ProposedPath) == reading.proposed)
      && (reading.proposed == "" ==> Said(show, c, ProposedPath) == Said(show, r, ProposedPath))
  {
    ReadingIsTrimmed(show, r);
    StampedSays(show, Popped(r), StampOf(show, r));
  }

  /** Target, proposed path and exactness of the canonical form. */
  lemma CanonicalExactly(show: Printer, r: Requirement)
    ensures var c := Canonical(show, r);
      && FirstOf(Said(show, c, Target), Said(show, r, Target), SaidPath(show, r), Said(show, r, ProposedPath), Said(show, r, CanonicalTarget))
      && (Holds(c, ExactPathRequired) <==> AsksExact(show, r))
      && Said(show, c, ProposedPath) ==
           (if Said(show, r, ProposedPath) == "" && AsksExact(show, r) then SaidPath(show, r) else Said(show, r, ProposedPath))
  {
    ReadExactly(show, r);
    StampSays(show, r);
  }

  /** What becomes of the other keys: both aliases go, unless `path` hides a `target_path`, and everything that is not
      canonical stays. */
  lemma OtherKeysExactly(show: Printer, r: Requirement)
    ensures Path !in Canonical(show, r) && (TargetPath in Canonical(show, r) <==> TargetPath in r && Holds(r, Path))
    ensures forall key :: key !in {Path, TargetPath, Target, ProposedPath, ExactPathRequired, AcceptablePaths, AcceptableCategories} ==>
      (key in Canonical(show, r) <==> key in r) && (key in r ==> Canonical(show, r)[key] == r[key])
  {
    AliasLeft(Popped(r), StampOf(show, r));
  }

  predicate GivenAsPath(show: Printer, r: Requirement, p: string) {
    AcceptablePaths in r && r[AcceptablePaths].List? && Mentions(show, r[AcceptablePaths].items, p)
  }

  /** The paths of the canonical form: the given ones, cleaned, the path, if it need not be exact, and the target, if it
      is under `docs/` or ends like a document. */
  lemma PathsExactly(show: Printer, r: Requirement, p: string)
    requires p != ""
    ensures p in Paths(show, r) <==>
      || GivenAsPath(show, r, p)
      || (p == SaidPath(show, r) && !AsksExact(show, r))
      || (p == Said(show, Canonical(show, r), Target) && LooksLikeDocument(p))
  {
    ReadExactly(show, r);
    StampSays(show, r);
    if AcceptablePaths in r && r[AcceptablePaths].List? {
      OrderedIsTidy(show, r[AcceptablePaths].items);
    }
  }

  lemma PathsAreSet(show: Printer, r: Requirement)
    ensures AcceptablePaths in Canonical(show, r) && Canonical(show, r)[AcceptablePaths] == List(Words(Paths(show, r)))
  {
  }

  predicate BeginsWith(s: string, part: string) {
    |s| >= |part| && s[..|part|] == part
  }

  predicate EndsIn(s: string, part: string) {
    exists front: nat :: front + |part| == |s| && s[front..] == part
  }

  lemma PartsExactly(s: string, part: string)
    ensures part <= s <==> BeginsWith(s, part)
    ensures Ends(s, part) <==> EndsIn(s, part)
  {
    if |part| <= |s| {
      assert (|s| - |part|) + |part| == |s|;
    }
  }

  /** A path looks like a document when it begins with `docs/` or ends in `.md` or `.rst`, in any case of letters. */
  lemma LooksExactly(s: string)
    ensures LooksLikeDocument(s) <==> BeginsWith(Lower(s), "docs/") || EndsIn(Lower(s), ".md") || EndsIn(Lower(s), ".rst")
  {
    PartsExactly(Lower(s), "docs/");
    PartsExactly(Lower(s), ".md");
    PartsExactly(Lower(s), ".rst");
  }

  /** A value says its text, or what it is shown as, without the blanks at the ends; a value that counts as nothing says
      nothing. */
  lemma CleanExactly(show: Printer, v: Value)
    ensures Trimmed(Clean(show, v))
    ensures if !Truthy(v) then Clean(show, v) == ""
            else exists front: string, back: string :: AllBlank(front) && AllBlank(back) &&
                   (if v.Word? then v.text else show(v)) == front + Clean(show, v) + back
  {
    if Truthy(v) {
      StripExactly(if v.Word? then v.text else show(v));
    }
  }
}
