/** Scoring of evaluation cases: set metrics, the evaluators, weighted scores and the release decision. */
module Scoring {
  import opened Prelude
  import opened Rounding
  import opened Text

  // ----- set metrics -----

  function NormalizeSet(values: seq<string>): set<string> {
    set k | 0 <= k < |values| && Strip(values[k]) != "" :: Lower(Strip(values[k]))
  }

  function PrecisionOf(expected: set<string>, actual: set<string>): real {
    if actual == {} then (if expected == {} then 100.0 else 0.0) else Share(|expected * actual|, |actual|)
  }

  function RecallOf(expected: set<string>, actual: set<string>): real {
    if expected == {} then (if actual == {} then 100.0 else 0.0) else Share(|expected * actual|, |expected|)
  }

  function Precision(expected: seq<string>, actual: seq<string>): real {
    PrecisionOf(NormalizeSet(expected), NormalizeSet(actual))
  }

  function Recall(expected: seq<string>, actual: seq<string>): real {
    RecallOf(NormalizeSet(expected), NormalizeSet(actual))
  }

  lemma MetricBounds(expected: set<string>, actual: set<string>)
    ensures 0.0 <= PrecisionOf(expected, actual) <= 100.0
    ensures 0.0 <= RecallOf(expected, actual) <= 100.0
    ensures PrecisionOf(expected, actual) == 100.0 <==> actual <= expected && (actual == {} ==> expected == {})
    ensures RecallOf(expected, actual) == 100.0 <==> expected <= actual && (expected == {} ==> actual == {})
  {
    SubsetSize(expected * actual, expected);
    SubsetSize(expected * actual, actual);
    if actual != {} {
      ShareBounds(|expected * actual|, |actual|);
    }
    if expected != {} {
      ShareBounds(|expected * actual|, |expected|);
    }
  }

  /** Precision one way is recall the other way, and both are perfect exactly for equal sets. */
  lemma PrecisionRecallDuality(expected: seq<string>, actual: seq<string>)
    ensures Precision(expected, actual) == Recall(actual, expected)
    ensures Precision(expected, actual) == 100.0 && Recall(expected, actual) == 100.0 <==> NormalizeSet(expected) == NormalizeSet(actual)
  {
    var e, a := NormalizeSet(expected), NormalizeSet(actual);
    assert e * a == a * e;
    MetricBounds(e, a);
  }

  // ----- evaluators -----

  datatype MetricName =
    | EvidencePrecision | EvidenceRecall | ComponentPrecision | ComponentRecall | FilePrecision | FileRecall
    | AcceptanceCoverage | UnsupportedAssumptionRate | HallucinatedPathRate | RiskCorrectness | AuthorityCorrectness
    | TestStrategyCoverage | DocumentationCoverage | MemoryScopeCorrectness | MemoryConflictCorrectness
    | PrivacyBoundaryCorrectness | ProvenanceCompleteness

  datatype Metric = Metric(name: MetricName, score: real, passed: bool)

  datatype Target = Planner | Retrieval | MemoryTarget

  /** Risk and authority levels by rank; None is a value the rank tables do not know. */
  type Level = Option<nat>

  datatype Case = Case(
    target: Target, evidence: seq<string>, components: seq<string>, files: seq<string>, coverage: seq<string>,
    risk: seq<Level>, authority: Option<Level>, tests: seq<string>, documentation: seq<string>,
    memory: seq<string>, authorizedMemory: seq<string>, wantsConflict: bool)

  datatype FileItem = FileItem(path: string, verified: bool)

  datatype Assumption = Assumption(verified: bool, evidence: set<string>)

  /** `present` holds the provenance keys with a value. */
  datatype Artifact = Artifact(
    evidence: seq<string>, components: seq<string>, files: seq<FileItem>, snapshotFiles: set<string>, covered: seq<string>,
    assumptions: seq<Assumption>, risk: Level, authority: Level, tests: seq<string>, documentation: seq<string>,
    memory: set<string>, conflictSeen: bool, present: set<ProvenanceKey>)

  datatype ProvenanceKey = TaskId | ContractVersion | SnapshotIds | EvidenceIds | ExecutionIds | MemoryIds | PlannerVersion

  function AtLeast(low: real, x: real): real {
    if x < low then low else x
  }

  function AtLeastOne(n: nat): nat {
    if n == 0 then 1 else n
  }

  function Known(level: Level): nat {
    if level.Some? then level.value else 0
  }

  function Hallucinated(files: seq<FileItem>, existing: set<string>): nat {
    if files == [] then 0
    else (if files[0].verified && files[0].path !in existing && files[0].path != "" then 1 else 0) + Hallucinated(files[1..], existing)
  }

  function Unsupported(assumptions: seq<Assumption>, expected: set<string>): nat {
    if assumptions == [] then 0
    else (if assumptions[0].verified && !Supported(assumptions[0], expected) then 1 else 0) + Unsupported(assumptions[1..], expected)
  }

  predicate Supported(assumption: Assumption, expected: set<string>) {
    assumption.evidence != {} && (expected == {} || assumption.evidence <= expected)
  }

  function Lowest(levels: seq<Level>): nat
    requires levels != []
  {
    if |levels| == 1 || Known(levels[0]) <= Lowest(levels[1..]) then Known(levels[0]) else Lowest(levels[1..])
  }

  function Highest(levels: seq<Level>): nat
    requires levels != []
  {
    if |levels| == 1 || Known(levels[0]) >= Highest(levels[1..]) then Known(levels[0]) else Highest(levels[1..])
  }

  function RiskScore(low: nat, high: nat, actual: nat): real {
    if low <= actual <= high then 100.0
    else if actual < low then AtLeast(0.0, 100.0 - (low - actual) as real * 45.0)
    else AtLeast(70.0, 100.0 - (actual - high) as real * 15.0)
  }

  function AuthorityScore(expected: nat, actual: nat): real {
    if actual == expected then 100.0
    else if actual > expected then AtLeast(80.0, 100.0 - (actual - expected) as real * 10.0)
    else AtLeast(0.0, 100.0 - (expected - actual) as real * 50.0)
  }

  function RequiredKeys(target: Target): set<ProvenanceKey> {
    match target
    case Planner => {TaskId, ContractVersion, SnapshotIds, EvidenceIds, ExecutionIds, PlannerVersion}
    case Retrieval => {TaskId, SnapshotIds, EvidenceIds}
    case MemoryTarget => {TaskId, MemoryIds}
  }

  /** The validator of a metric: out-of-range scores are refused, others stored to four decimals. */
  function Measured(name: MetricName, score: real, passed: bool): Option<Metric> {
    if 0.0 <= score <= 100.0 then Some(Metric(name, Round4(score), passed)) else None
  }

  function EvidenceMetrics(c: Case, a: Artifact): (metrics: seq<Option<Metric>>)
    ensures |metrics| == 2
  {
    [Measured(EvidencePrecision, Precision(c.evidence, a.evidence), true), Measured(EvidenceRecall, Recall(c.evidence, a.evidence), true)]
  }

  function ScopeMetrics(c: Case, a: Artifact): (metrics: seq<Option<Metric>>)
    ensures |metrics| == 5
  {
    var paths := seq(|a.files|, i requires 0 <= i < |a.files| => a.files[i].path);
    var hallucinated := Hallucinated(a.files, a.snapshotFiles);
    [Measured(ComponentPrecision, Precision(c.components, a.components), true),
     Measured(ComponentRecall, Recall(c.components, a.components), true),
     Measured(FilePrecision, Precision(c.files, paths), true),
     Measured(FileRecall, Recall(c.files, paths), true),
     Measured(HallucinatedPathRate, AtLeast(0.0, 100.0 - Share(hallucinated, AtLeastOne(|a.files|))), hallucinated == 0)]
  }

  function CoverageMetrics(c: Case, a: Artifact): (metrics: seq<Option<Metric>>)
    ensures |metrics| == 2
  {
    var unsupported := Unsupported(a.assumptions, set e | e in c.evidence);
    [Measured(AcceptanceCoverage, Recall(c.coverage, a.covered), Recall(c.coverage, a.covered) >= 100.0),
     Measured(UnsupportedAssumptionRate, AtLeast(0.0, 100.0 - Share(unsupported, AtLeastOne(|a.assumptions|))), unsupported == 0)]
  }

  function RankMetrics(c: Case, a: Artifact): (metrics: seq<Option<Metric>>)
    ensures |metrics| == 2
  {
    var levels := if c.risk == [] then [Some(0)] else c.risk;
    var low, high, authority := Lowest(levels), Highest(levels), if c.authority.Some? then Known(c.authority.value) else 0;
    [Measured(RiskCorrectness, RiskScore(low, high, Known(a.risk)), Known(a.risk) >= low),
     Measured(AuthorityCorrectness, AuthorityScore(authority, Known(a.authority)), Known(a.authority) >= authority)]
  }

  function OutputMetrics(c: Case, a: Artifact): (metrics: seq<Option<Metric>>)
    ensures |metrics| == 2
  {
    [Measured(TestStrategyCoverage, Recall(c.tests, a.tests), true), Measured(DocumentationCoverage, Recall(c.documentation, a.documentation), true)]
  }

  function MemoryMetrics(c: Case, a: Artifact): (metrics: seq<Option<Metric>>)
    ensures |metrics| == 3
  {
    var listed := if c.authorizedMemory == [] then c.memory else c.authorizedMemory;
    var authorized := set m | m in listed;
    var scoped, warned := a.memory <= authorized, !c.wantsConflict || a.conflictSeen;
    [Measured(MemoryScopeCorrectness, if scoped then 100.0 else 0.0, scoped),
     Measured(MemoryConflictCorrectness, if warned then 100.0 else 0.0, warned),
     Measured(PrivacyBoundaryCorrectness, if scoped then 100.0 else 0.0, scoped)]
  }

  function ProvenanceMetrics(c: Case, a: Artifact): (metrics: seq<Option<Metric>>)
    ensures |metrics| == 1
  {
    var missing := |RequiredKeys(c.target) - a.present|;
    [Measured(ProvenanceCompleteness, AtLeast(0.0, 100.0 - missing as real * 20.0), missing == 0)]
  }

  /** An expected level outside the rank tables raises. */
  predicate LevelsKnown(c: Case) {
    None !in c.risk && c.authority != Some(None)
  }

  /** What each evaluator reports, in turn. */
  function Evaluators(c: Case, a: Artifact): seq<seq<Option<Metric>>> {
    [EvidenceMetrics(c, a), ScopeMetrics(c, a), CoverageMetrics(c, a), RankMetrics(c, a), OutputMetrics(c, a),
     MemoryMetrics(c, a), ProvenanceMetrics(c, a)]
  }

  function Extended(reports: seq<seq<Option<Metric>>>): seq<Option<Metric>> {
    if reports == [] then [] else reports[0] + Extended(reports[1..])
  }

  function EvaluateCase(c: Case, a: Artifact): Option<seq<Option<Metric>>> {
    if LevelsKnown(c) then Some(Extended(Evaluators(c, a))) else None
  }

  /** Accepted by the validator, and still in range as stored. */
  predicate Accepted(m: Option<Metric>) {
    m.Some? && 0.0 <= m.value.score <= 100.0
  }

  lemma InRangeIsAccepted(name: MetricName, score: real, passed: bool)
    ensures 0.0 <= score <= 100.0 <==> Measured(name, score, passed).Some?
    ensures 0.0 <= score <= 100.0 ==> Accepted(Measured(name, score, passed))
  {
    if 0.0 <= score <= 100.0 {
      Round4KeepsBounds(score, 0, 100);
    }
  }

  lemma ScoresAccepted(expected: seq<string>, actual: seq<string>, name: MetricName, passed: bool)
    ensures Accepted(Measured(name, Precision(expected, actual), passed)) && Accepted(Measured(name, Recall(expected, actual), passed))
  {
    MetricBounds(NormalizeSet(expected), NormalizeSet(actual));
    InRangeIsAccepted(name, Precision(expected, actual), passed);
    InRangeIsAccepted(name, Recall(expected, actual), passed);
  }

  lemma PenaltyAccepted(name: MetricName, penalty: real, passed: bool)
    requires penalty >= 0.0
    ensures Accepted(Measured(name, AtLeast(0.0, 100.0 - penalty), passed))
  {
    InRangeIsAccepted(name, AtLeast(0.0, 100.0 - penalty), passed);
  }

  predicate AllAccepted(metrics: seq<Option<Metric>>) {
    forall m :: m in metrics ==> Accepted(m)
  }

  /** The metric validator never rejects anything a case evaluation produces. */
  lemma EveryMetricIsAccepted(c: Case, a: Artifact)
    requires LevelsKnown(c)
    ensures AllAccepted(EvaluateCase(c, a).value)
  {
    EvidenceAccepted(c, a);
    ScopeAccepted(c, a);
    CoverageAccepted(c, a);
    RanksAccepted(c, a);
    OutputsAccepted(c, a);
    FlagsAccepted(c, a);
    ProvenanceAccepted(c, a);
    ExtendedAccepted(Evaluators(c, a));
  }

  lemma {:induction false} ExtendedAccepted(reports: seq<seq<Option<Metric>>>)
    requires forall report :: report in reports ==> AllAccepted(report)
    ensures AllAccepted(Extended(reports))
  {
    if reports != [] {
      assert reports[0] in reports && forall report :: report in reports[1..] ==> report in reports;
      ExtendedAccepted(reports[1..]);
    }
  }

  lemma EvidenceAccepted(c: Case, a: Artifact)
    ensures AllAccepted(EvidenceMetrics(c, a))
  {
    ScoresAccepted(c.evidence, a.evidence, EvidencePrecision, true);
    ScoresAccepted(c.evidence, a.evidence, EvidenceRecall, true);
  }

  lemma OutputsAccepted(c: Case, a: Artifact)
    ensures AllAccepted(OutputMetrics(c, a))
  {
    ScoresAccepted(c.tests, a.tests, TestStrategyCoverage, true);
    ScoresAccepted(c.documentation, a.documentation, DocumentationCoverage, true);
  }

  lemma ScopeAccepted(c: Case, a: Artifact)
    ensures AllAccepted(ScopeMetrics(c, a))
  {
    var paths := seq(|a.files|, i requires 0 <= i < |a.files| => a.files[i].path);
    var hallucinated := Hallucinated(a.files, a.snapshotFiles);
    ScoresAccepted(c.components, a.components, ComponentPrecision, true);
    ScoresAccepted(c.components, a.components, ComponentRecall, true);
    ScoresAccepted(c.files, paths, FilePrecision, true);
    ScoresAccepted(c.files, paths, FileRecall, true);
    ShareIsPositive(hallucinated, AtLeastOne(|a.files|));
    PenaltyAccepted(HallucinatedPathRate, Share(hallucinated, AtLeastOne(|a.files|)), hallucinated == 0);
  }

  lemma CoverageAccepted(c: Case, a: Artifact)
    ensures AllAccepted(CoverageMetrics(c, a))
  {
    var unsupported := Unsupported(a.assumptions, set e | e in c.evidence);
    ScoresAccepted(c.coverage, a.covered, AcceptanceCoverage, Recall(c.coverage, a.covered) >= 100.0);
    ShareIsPositive(unsupported, AtLeastOne(|a.assumptions|));
    PenaltyAccepted(UnsupportedAssumptionRate, Share(unsupported, AtLeastOne(|a.assumptions|)), unsupported == 0);
  }

  lemma ProvenanceAccepted(c: Case, a: Artifact)
    ensures AllAccepted(ProvenanceMetrics(c, a))
  {
    var missing := |RequiredKeys(c.target) - a.present|;
    PenaltyAccepted(ProvenanceCompleteness, missing as real * 20.0, missing == 0);
  }

  lemma FlagsAccepted(c: Case, a: Artifact)
    ensures AllAccepted(MemoryMetrics(c, a))
  {
    forall name: MetricName, passed: bool
      ensures Accepted(Measured(name, 100.0, passed)) && Accepted(Measured(name, 0.0, passed))
    {
      InRangeIsAccepted(name, 100.0, passed);
      InRangeIsAccepted(name, 0.0, passed);
    }
  }

  lemma RanksAccepted(c: Case, a: Artifact)
    ensures AllAccepted(RankMetrics(c, a))
  {
    var levels := if c.risk == [] then [Some(0)] else c.risk;
    var low, high, authority := Lowest(levels), Highest(levels), if c.authority.Some? then Known(c.authority.value) else 0;
    InRangeIsAccepted(RiskCorrectness, RiskScore(low, high, Known(a.risk)), Known(a.risk) >= low);
    InRangeIsAccepted(AuthorityCorrectness, AuthorityScore(authority, Known(a.authority)), Known(a.authority) >= authority);
  }

  // ----- what the metrics say of a case, in terms of its fields -----

  lemma NormalizeExactly(values: seq<string>, s: string)
    ensures s in NormalizeSet(values) <==> exists v :: v in values && Strip(v) != "" && s == Lower(Strip(v))
  {
    if v :| v in values && Strip(v) != "" && s == Lower(Strip(v)) {
      var k :| 0 <= k < |values| && values[k] == v;
      assert Lower(Strip(values[k])) in NormalizeSet(values);
    }
  }

  /** A case is scored by all seventeen metrics, once each, in this order. */
  lemma EveryMetricOnce(c: Case, a: Artifact)
    requires LevelsKnown(c)
    ensures EvaluateCase(c, a) == Some(EvidenceMetrics(c, a) + ScopeMetrics(c, a) + CoverageMetrics(c, a) + RankMetrics(c, a) +
                                       OutputMetrics(c, a) + MemoryMetrics(c, a) + ProvenanceMetrics(c, a))
  {
    AllSeven(EvidenceMetrics(c, a), ScopeMetrics(c, a), CoverageMetrics(c, a), RankMetrics(c, a), OutputMetrics(c, a),
             MemoryMetrics(c, a), ProvenanceMetrics(c, a));
  }

  lemma AllSeven(a: seq<Option<Metric>>, b: seq<Option<Metric>>, c: seq<Option<Metric>>, d: seq<Option<Metric>>, e: seq<Option<Metric>>,
                 f: seq<Option<Metric>>, g: seq<Option<Metric>>)
    ensures Extended([a, b, c, d, e, f, g]) == a + b + c + d + e + f + g
  {
    var last: seq<seq<Option<Metric>>> := [g];
    assert last[1..] == [] && Extended(last) == g;
    ExtendedStep(f, last);
    ExtendedStep(e, [f] + last);
    ExtendedStep(d, [e] + ([f] + last));
    var later := [d] + ([e] + ([f] + last));
    assert Extended(later) == d + (e + (f + g));
    ExtendedStep(c, later);
    ExtendedStep(b, [c] + later);
    ExtendedStep(a, [b] + ([c] + later));
    assert [a, b, c, d, e, f, g] == [a] + ([b] + ([c] + later));
    assert a + (b + (c + (d + (e + (f + g))))) == a + b + c + d + e + f + g;
  }

  lemma ExtendedStep(first: seq<Option<Metric>>, rest: seq<seq<Option<Metric>>>)
    ensures Extended([first] + rest) == first + Extended(rest)
  {
    assert ([first] + rest)[1..] == rest;
  }

  predicate Scores(m: Option<Metric>, name: MetricName, passed: bool) {
    m.Some? && m.value.name == name && m.value.passed == passed
  }

  lemma {:induction false} HallucinatedNone(files: seq<FileItem>, existing: set<string>)
    ensures Hallucinated(files, existing) == 0 <==> forall f :: f in files && f.verified && f.path != "" ==> f.path in existing
  {
    if files != [] {
      HallucinatedNone(files[1..], existing);
      assert forall f :: f in files <==> f == files[0] || f in files[1..];
    }
  }

  lemma {:induction false} UnsupportedNone(assumptions: seq<Assumption>, expected: set<string>)
    ensures Unsupported(assumptions, expected) == 0 <==> forall x :: x in assumptions && x.verified ==> Supported(x, expected)
  {
    if assumptions != [] {
      UnsupportedNone(assumptions[1..], expected);
      assert forall x :: x in assumptions <==> x == assumptions[0] || x in assumptions[1..];
    }
  }

  /** No path is hallucinated exactly when every file claimed as verified is in the snapshot. */
  lemma ScopeExactly(c: Case, a: Artifact)
    ensures Scores(ScopeMetrics(c, a)[0], ComponentPrecision, true) && Scores(ScopeMetrics(c, a)[1], ComponentRecall, true)
    ensures Scores(ScopeMetrics(c, a)[2], FilePrecision, true) && Scores(ScopeMetrics(c, a)[3], FileRecall, true)
    ensures Scores(ScopeMetrics(c, a)[4], HallucinatedPathRate,
                   forall f :: f in a.files && f.verified && f.path != "" ==> f.path in a.snapshotFiles)
  {
    ScopeAccepted(c, a);
    HallucinatedNone(a.files, a.snapshotFiles);
    var metrics := ScopeMetrics(c, a);
    assert forall k :: 0 <= k < 5 ==> metrics[k] in metrics;
  }

  /** Coverage passes when every criterion is covered; assumptions pass when each verified one has evidence, all of it
      expected if any is. */
  lemma CoverageExactly(c: Case, a: Artifact)
    ensures Scores(CoverageMetrics(c, a)[0], AcceptanceCoverage,
                   NormalizeSet(c.coverage) <= NormalizeSet(a.covered) && (NormalizeSet(c.coverage) == {} ==> NormalizeSet(a.covered) == {}))
    ensures Scores(CoverageMetrics(c, a)[1], UnsupportedAssumptionRate,
                   forall x :: x in a.assumptions && x.verified ==>
                     x.evidence != {} && (c.evidence == [] || forall e :: e in x.evidence ==> e in c.evidence))
  {
    CoverageAccepted(c, a);
    var expected := set e | e in c.evidence;
    UnsupportedNone(a.assumptions, expected);
    MetricBounds(NormalizeSet(c.coverage), NormalizeSet(a.covered));
    assert expected == {} <==> c.evidence == [] by {
      if c.evidence != [] {
        assert c.evidence[0] in expected;
      }
    }
    forall x | x in a.assumptions
      ensures Supported(x, expected) <==> x.evidence != {} && (c.evidence == [] || forall e :: e in x.evidence ==> e in c.evidence)
    {
    }
    var metrics := CoverageMetrics(c, a);
    assert metrics[0] in metrics && metrics[1] in metrics;
  }

  lemma {:induction false} LowestExactly(levels: seq<Level>)
    requires levels != []
    ensures (exists level :: level in levels && Known(level) == Lowest(levels)) && forall level :: level in levels ==> Lowest(levels) <= Known(level)
    ensures (exists level :: level in levels && Known(level) == Highest(levels)) && forall level :: level in levels ==> Known(level) <= Highest(levels)
  {
    assert levels[0] in levels;
    if |levels| > 1 {
      LowestExactly(levels[1..]);
      assert forall level :: level in levels <==> level == levels[0] || level in levels[1..];
    }
  }

  /** The risk named is high enough when some expected level is no higher; the authority when it reaches the expected one. */
  lemma RanksExactly(c: Case, a: Artifact)
    ensures Scores(RankMetrics(c, a)[0], RiskCorrectness, c.risk == [] || exists level :: level in c.risk && Known(level) <= Known(a.risk))
    ensures Scores(RankMetrics(c, a)[1], AuthorityCorrectness, c.authority.Some? ==> Known(c.authority.value) <= Known(a.authority))
  {
    RanksAccepted(c, a);
    var levels := if c.risk == [] then [Some(0)] else c.risk;
    LowestExactly(levels);
    var metrics := RankMetrics(c, a);
    assert metrics[0] in metrics && metrics[1] in metrics;
  }

  /** Memory stays in scope when every memory used is authorized, or expected where nothing is authorized by name. */
  lemma MemoryExactly(c: Case, a: Artifact)
    ensures var scoped := forall m :: m in a.memory ==> m in if c.authorizedMemory == [] then c.memory else c.authorizedMemory;
      && Scores(MemoryMetrics(c, a)[0], MemoryScopeCorrectness, scoped) && Scores(MemoryMetrics(c, a)[2], PrivacyBoundaryCorrectness, scoped)
      && (MemoryMetrics(c, a)[0].value.score == 100.0 <==> scoped) && (MemoryMetrics(c, a)[2].value.score == 100.0 <==> scoped)
    ensures Scores(MemoryMetrics(c, a)[1], MemoryConflictCorrectness, c.wantsConflict ==> a.conflictSeen)
    ensures MemoryMetrics(c, a)[1].value.score == 100.0 <==> (c.wantsConflict ==> a.conflictSeen)
  {
    NearestFixes(1000000);
    NearestFixes(0);
  }

  /** Provenance is complete when the plan names its task, contract, snapshots, evidence, executions and planner, the
      retrieval its task, snapshots and evidence, and the memory its task and memories. */
  lemma ProvenanceExactly(c: Case, a: Artifact)
    ensures Scores(ProvenanceMetrics(c, a)[0], ProvenanceCompleteness,
      && TaskId in a.present
      && (c.target == Planner ==> ContractVersion in a.present && ExecutionIds in a.present && PlannerVersion in a.present)
      && (c.target != MemoryTarget ==> SnapshotIds in a.present && EvidenceIds in a.present)
      && (c.target == MemoryTarget ==> MemoryIds in a.present))
  {
    ProvenanceAccepted(c, a);
    var missing := RequiredKeys(c.target) - a.present;
    assert |missing| == 0 <==> missing == {};
    assert missing == {} <==> RequiredKeys(c.target) <= a.present;
    var metrics := ProvenanceMetrics(c, a);
    assert metrics[0] in metrics;
  }

  /** Naming too high a level costs less than naming too low a one: overestimates keep at least 70 and
      80 points, underestimates at most 55 and 50, and only the expected level gets all of them. */
  lemma CautionIsCheaper(low: nat, high: nat, actual: nat)
    requires low <= high
    ensures RiskScore(low, high, actual) == 100.0 <==> low <= actual <= high
    ensures actual > high ==> 70.0 <= RiskScore(low, high, actual) <= 85.0
    ensures actual < low ==> RiskScore(low, high, actual) <= 55.0
    ensures AuthorityScore(low, actual) == 100.0 <==> actual == low
    ensures actual > low ==> 80.0 <= AuthorityScore(low, actual) <= 90.0
    ensures actual < low ==> AuthorityScore(low, actual) <= 50.0
  {
  }

  // ----- weighted scores -----

  function DefaultWeight(name: MetricName): real {
    match name
    case EvidencePrecision | EvidenceRecall => 10.0
    case ComponentPrecision | ComponentRecall | FilePrecision | FileRecall => 7.5
    case AcceptanceCoverage => 15.0
    case RiskCorrectness | AuthorityCorrectness => 7.5
    case TestStrategyCoverage | DocumentationCoverage => 10.0
    case MemoryScopeCorrectness => 4.0
    case MemoryConflictCorrectness | PrivacyBoundaryCorrectness => 3.0
    case ProvenanceCompleteness => 5.0
    case UnsupportedAssumptionRate | HallucinatedPathRate => 0.0
  }

  /** Without overrides acceptance coverage weighs most, the two rates nothing, and the seventeen weights come to 115. */
  lemma DefaultWeights(name: MetricName)
    ensures 0.0 <= DefaultWeight(name) <= DefaultWeight(AcceptanceCoverage) == 15.0
    ensures DefaultWeight(name) == 0.0 <==> name == UnsupportedAssumptionRate || name == HallucinatedPathRate
    ensures DefaultWeight(name) == 10.0 <==>
      name == EvidencePrecision || name == EvidenceRecall || name == TestStrategyCoverage || name == DocumentationCoverage
    ensures DefaultWeight(name) == 7.5 <==>
      || name == ComponentPrecision || name == ComponentRecall || name == FilePrecision || name == FileRecall
      || name == RiskCorrectness || name == AuthorityCorrectness
    ensures 4.0 * 10.0 + 6.0 * 7.5 + DefaultWeight(AcceptanceCoverage) + DefaultWeight(MemoryScopeCorrectness) +
            DefaultWeight(MemoryConflictCorrectness) + DefaultWeight(PrivacyBoundaryCorrectness) + DefaultWeight(ProvenanceCompleteness) == 115.0
  {
  }

  function WeightOf(overrides: map<MetricName, real>, name: MetricName): real {
    if name in overrides then overrides[name] else DefaultWeight(name)
  }

  function TotalWeight(metrics: seq<Metric>, overrides: map<MetricName, real>): real {
    if metrics == [] then 0.0 else WeightOf(overrides, metrics[0].name) + TotalWeight(metrics[1..], overrides)
  }

  function Contribution(m: Metric, overrides: map<MetricName, real>): real {
    m.score * WeightOf(overrides, m.name)
  }

  function TotalScore(metrics: seq<Metric>, overrides: map<MetricName, real>): real {
    if metrics == [] then 0.0 else Contribution(metrics[0], overrides) + TotalScore(metrics[1..], overrides)
  }

  /** The weighted mean before rounding. */
  function Mean(metrics: seq<Metric>, overrides: map<MetricName, real>): real
    requires TotalWeight(metrics, overrides) != 0.0
  {
    TotalScore(metrics, overrides) / TotalWeight(metrics, overrides)
  }

  method WeightedScore(metrics: seq<Metric>, overrides: map<MetricName, real>) returns (score: real)
    ensures score == if TotalWeight(metrics, overrides) == 0.0 then 0.0 else Round4(Mean(metrics, overrides))
  {
    var weight, total := 0.0, 0.0;
    for i := 0 to |metrics|
      invariant TotalWeight(metrics, overrides) == weight + TotalWeight(metrics[i..], overrides)
      invariant TotalScore(metrics, overrides) == total + TotalScore(metrics[i..], overrides)
    {
      assert metrics[i..][1..] == metrics[i + 1..];
      var w := WeightOf(overrides, metrics[i].name);
      weight := weight + w;
      total := total + metrics[i].score * w;
    }
    if weight == 0.0 {
      return 0.0;
    }
    return Round4(total / weight);
  }

  predicate WeightsFair(metrics: seq<Metric>, overrides: map<MetricName, real>) {
    forall m :: m in metrics ==> WeightOf(overrides, m.name) >= 0.0
  }

  /** The totals stay between the bounds times the weight. */
  predicate Between(low: real, total: real, high: real, weight: real) {
    weight >= 0.0 && low * weight <= total <= high * weight
  }

  lemma {:induction false} TotalsBetween(metrics: seq<Metric>, overrides: map<MetricName, real>, low: real, high: real)
    requires WeightsFair(metrics, overrides)
    requires forall m :: m in metrics && WeightOf(overrides, m.name) > 0.0 ==> low <= m.score <= high
    ensures Between(low, TotalScore(metrics, overrides), high, TotalWeight(metrics, overrides))
  {
    if metrics == [] {
      return;
    }
    var m := metrics[0];
    assert m in metrics && forall x :: x in metrics[1..] ==> x in metrics;
    TotalsBetween(metrics[1..], overrides, low, high);
    ContributionBetween(m, overrides, low, high);
    Joined(low, high, Contribution(m, overrides), WeightOf(overrides, m.name), TotalScore(metrics[1..], overrides),
           TotalWeight(metrics[1..], overrides));
  }

  lemma ContributionBetween(m: Metric, overrides: map<MetricName, real>, low: real, high: real)
    requires WeightOf(overrides, m.name) >= 0.0 && (WeightOf(overrides, m.name) > 0.0 ==> low <= m.score <= high)
    ensures Between(low, Contribution(m, overrides), high, WeightOf(overrides, m.name))
  {
    Times(low, m.score, WeightOf(overrides, m.name));
    Times(m.score, high, WeightOf(overrides, m.name));
  }

  lemma Times(x: real, y: real, w: real)
    requires w >= 0.0 && (w > 0.0 ==> x <= y)
    ensures x * w <= y * w
  {
    if w > 0.0 {
      assert (y - x) * w >= 0.0;
    }
  }

  lemma Joined(low: real, high: real, score: real, v: real, total: real, w: real)
    requires Between(low, score, high, v) && Between(low, total, high, w)
    ensures Between(low, score + total, high, v + w)
  {
    assert low * (v + w) == low * v + low * w && high * (v + w) == high * v + high * w;
  }

  /** The weighted score lies between the lowest and the highest positively weighted metric. */
  lemma ScoreIsBetween(metrics: seq<Metric>, overrides: map<MetricName, real>, low: real, high: real)
    requires WeightsFair(metrics, overrides) && TotalWeight(metrics, overrides) != 0.0
    requires forall m :: m in metrics && WeightOf(overrides, m.name) > 0.0 ==> low <= m.score <= high
    ensures low <= Mean(metrics, overrides) <= high
  {
    TotalsBetween(metrics, overrides, low, high);
    Quotient(TotalScore(metrics, overrides), TotalWeight(metrics, overrides), low, high);
  }

  lemma Quotient(total: real, w: real, low: real, high: real)
    requires w > 0.0 && Between(low, total, high, w)
    ensures low <= total / w <= high
  {
    QuotientOf(total / w, w, low, high, total);
  }

  lemma QuotientOf(mean: real, w: real, low: real, high: real, total: real)
    requires w > 0.0 && mean == total / w && Between(low, total, high, w)
    ensures low <= mean <= high
  {
    assert mean * w == total;
    Compare(mean, low, w);
    Compare(high, mean, w);
    assert !(mean * w < low * w) && !(high * w < mean * w);
  }

  lemma {:induction false} RaisedTotals(metrics: seq<Metric>, overrides: map<MetricName, real>, k: nat, score: real)
    requires k < |metrics| && WeightOf(overrides, metrics[k].name) >= 0.0 && metrics[k].score <= score
    ensures var raised := metrics[k := metrics[k].(score := score)];
      TotalWeight(raised, overrides) == TotalWeight(metrics, overrides) && TotalScore(metrics, overrides) <= TotalScore(raised, overrides)
  {
    var raised := metrics[k := metrics[k].(score := score)];
    if k == 0 {
      assert raised[1..] == metrics[1..];
      Times(metrics[0].score, score, WeightOf(overrides, metrics[0].name));
    } else {
      assert raised[1..] == metrics[1..][k - 1 := metrics[k].(score := score)];
      RaisedTotals(metrics[1..], overrides, k - 1, score);
    }
  }

  /** Raising one metric never lowers the weighted score, rounded or not. */
  lemma ScoreIsMonotone(metrics: seq<Metric>, overrides: map<MetricName, real>, k: nat, score: real)
    requires WeightsFair(metrics, overrides) && TotalWeight(metrics, overrides) != 0.0
    requires k < |metrics| && metrics[k].score <= score
    ensures var raised := metrics[k := metrics[k].(score := score)];
      && TotalWeight(raised, overrides) == TotalWeight(metrics, overrides)
      && Mean(metrics, overrides) <= Mean(raised, overrides)
      && Round4(Mean(metrics, overrides)) <= Round4(Mean(raised, overrides))
  {
    assert metrics[k] in metrics;
    RaisedTotals(metrics, overrides, k, score);
    var raised := metrics[k := metrics[k].(score := score)];
    PositiveWeight(metrics, overrides);
    Divided(TotalScore(metrics, overrides), TotalScore(raised, overrides), TotalWeight(metrics, overrides));
    Round4IsMonotone(Mean(metrics, overrides), Mean(raised, overrides));
  }

  lemma {:induction false} PositiveWeight(metrics: seq<Metric>, overrides: map<MetricName, real>)
    requires WeightsFair(metrics, overrides)
    ensures TotalWeight(metrics, overrides) >= 0.0
  {
    if metrics != [] {
      assert metrics[0] in metrics;
      PositiveWeight(metrics[1..], overrides);
    }
  }

  lemma Divided(x: real, y: real, w: real)
    requires x <= y && w > 0.0
    ensures x / w <= y / w
  {
  }

  // ----- the release decision -----

  datatype Decision = Blocked | Warning | Eligible

  function ReleaseDecision(score: real, gatesPass: bool): Decision {
    if !gatesPass || score < 70.0 then Blocked else if score < 80.0 then Warning else Eligible
  }

  /** A release is eligible from 80 on, and warned about from 70 on, provided the gates pass. */
  lemma ReleaseExactly(score: real, gatesPass: bool)
    ensures ReleaseDecision(score, gatesPass) == Eligible <==> gatesPass && score >= 80.0
    ensures ReleaseDecision(score, gatesPass) == Warning <==> gatesPass && 70.0 <= score < 80.0
  {
  }

  function Total(scores: seq<real>): real {
    if scores == [] then 0.0 else scores[0] + Total(scores[1..])
  }

  function ZeroCases(scores: seq<real>): nat {
    if scores == [] then 0 else (if scores[0] == 0.0 then 1 else 0) + ZeroCases(scores[1..])
  }

  method AggregateScore(scores: seq<real>) returns (score: real)
    ensures score == if scores == [] then 0.0 else Round4(Total(scores) / |scores| as real)
  {
    if scores == [] {
      return 0.0;
    }
    var total := 0.0;
    for i := 0 to |scores|
      invariant Total(scores) == total + Total(scores[i..])
    {
      assert scores[i..][1..] == scores[i + 1..];
      total := total + scores[i];
    }
    return Round4(total / |scores| as real);
  }

  lemma {:induction false} ZerosCost(scores: seq<real>)
    requires forall s :: s in scores ==> s <= 100.0
    ensures ZeroCases(scores) <= |scores|
    ensures Total(scores) <= 100.0 * (|scores| - ZeroCases(scores)) as real
  {
    if scores != [] {
      assert scores[0] in scores && forall s :: s in scores[1..] ==> s in scores;
      ZerosCost(scores[1..]);
    }
  }

  /** A release is eligible only if at most one case in five scored zero; on the exact mean for any
      number of cases, and on the rounded one for fewer than 400000. */
  lemma EligibleMeansFewZeros(scores: seq<real>, gatesPass: bool)
    requires scores != [] && forall s :: s in scores ==> s <= 100.0
    ensures ReleaseDecision(Total(scores) / |scores| as real, gatesPass) == Eligible ==> 5 * ZeroCases(scores) <= |scores|
    ensures ReleaseDecision(Round4(Total(scores) / |scores| as real), gatesPass) == Eligible && |scores| < 400000 ==>
      5 * ZeroCases(scores) <= |scores|
  {
    ZerosCost(scores);
    var n, zeros, mean := |scores|, ZeroCases(scores), Total(scores) / |scores| as real;
    NearestIsNear(mean * 10000.0);
    MeanTimes(Total(scores), n as real, 80.0);
    MeanTimes(Total(scores), n as real, 79.99995);
    if 5 * zeros > n {
      assert 5 * zeros >= n + 1;
      assert 5.0 * zeros as real >= n as real + 1.0;
    }
  }

  lemma MeanTimes(total: real, n: real, bound: real)
    requires n > 0.0
    ensures total / n >= bound ==> total >= bound * n
  {
    var mean := total / n;
    assert mean * n == total;
    if mean >= bound {
      assert (mean - bound) * n >= 0.0;
    }
  }
}
