/** The verdict on an engineering plan: scored dimensions, the corrections they call for, the result. */
module PlanVerdict {
  import opened Prelude
  import opened Rounding

  datatype Applicability = Captured | NotCaptured | NotApplicable

  datatype DimensionStatus = PassStatus | WarnStatus | FailStatus | NotCapturedStatus | NotApplicableStatus

  /** The names the rules single out; every other dimension is an `Ordinary` one. */
  datatype Name =
    | HallucinatedFilesPaths | UnsupportedClaims | SchedulerDecisions | OrchestrationParticipants
    | ExactSelectionMutation | DependencyIsolation | TargetIsolation | AuthorityCompliance
    | SchemaMigrationAwareness | DependencyAwareness | Ordinary(name: string)

  datatype Dimension = Dimension(name: Name, status: DimensionStatus, applicability: Applicability, score: Option<real>)

  datatype Severity = Moderate | Major | Critical

  datatype Correction = Correction(severity: Severity, dimension: Name)

  datatype Verdict = InsufficientEvidence | Fail | PassWithWarnings | Pass

  predicate CriticalName(name: Name) {
    !name.Ordinary? && !name.SchemaMigrationAwareness? && !name.DependencyAwareness?
  }

  predicate MaterialName(name: Name) {
    name.SchemaMigrationAwareness? || name.DependencyAwareness?
  }

  /** The correction one dimension calls for, if any. */
  function CorrectionFor(d: Dimension): Option<Correction> {
    if d.applicability == NotApplicable then None
    else if d.applicability == NotCaptured then Some(Correction(Moderate, d.name))
    else if d.score.Some? && d.score.value < 60.0 then Some(Correction(if CriticalName(d.name) then Critical else Major, d.name))
    else if d.score.Some? && d.score.value < 80.0 then Some(Correction(Moderate, d.name))
    else None
  }

  function Scored(dimensions: seq<Dimension>): nat {
    if dimensions == [] then 0 else (if dimensions[0].score.Some? then 1 else 0) + Scored(dimensions[1..])
  }

  function Sum(dimensions: seq<Dimension>): real {
    if dimensions == [] then 0.0 else (if dimensions[0].score.Some? then dimensions[0].score.value else 0.0) + Sum(dimensions[1..])
  }

  /** The mean of the scores there are, to two decimals. */
  function Aggregate(dimensions: seq<Dimension>): Option<real> {
    if Scored(dimensions) == 0 then None else Some(Round2(Sum(dimensions) / Scored(dimensions) as real))
  }

  /** The corrections in the order of the dimensions, one each at most. */
  function CorrectionsOf(dimensions: seq<Dimension>): seq<Correction> {
    if dimensions == [] then []
    else
      CorrectionsOf(dimensions[..|dimensions| - 1]) +
      match CorrectionFor(dimensions[|dimensions| - 1])
      case None => []
      case Some(c) => [c]
  }

  lemma {:induction false} CorrectionsAreCalled(dimensions: seq<Dimension>)
    ensures Calls(dimensions, CorrectionsOf(dimensions)) && |CorrectionsOf(dimensions)| <= |dimensions|
  {
    if dimensions != [] {
      var n := |dimensions| - 1;
      CorrectionsAreCalled(dimensions[..n]);
      forall c
        ensures c in CorrectionsOf(dimensions) <==> exists k :: 0 <= k < |dimensions| && CorrectionFor(dimensions[k]) == Some(c)
      {
        assert forall k :: 0 <= k < n ==> dimensions[..n][k] == dimensions[k];
        assert c in CorrectionsOf(dimensions) <==> c in CorrectionsOf(dimensions[..n]) || CorrectionFor(dimensions[n]) == Some(c);
      }
    }
  }

  ghost predicate Calls(dimensions: seq<Dimension>, corrections: seq<Correction>) {
    forall c :: c in corrections <==> exists k :: 0 <= k < |dimensions| && CorrectionFor(dimensions[k]) == Some(c)
  }

  method Corrections(dimensions: seq<Dimension>) returns (corrections: seq<Correction>)
    ensures corrections == CorrectionsOf(dimensions) && Calls(dimensions, corrections)
  {
    corrections := [];
    for i := 0 to |dimensions|
      invariant corrections == CorrectionsOf(dimensions[..i])
    {
      assert dimensions[..i + 1][..i] == dimensions[..i];
      var d := dimensions[i];
      if d.applicability == NotApplicable {
        continue;
      }
      if d.applicability == NotCaptured {
        corrections := corrections + [Correction(Moderate, d.name)];
      } else if d.score.Some? && d.score.value < 60.0 {
        var severity := if CriticalName(d.name) then Critical else Major;
        corrections := corrections + [Correction(severity, d.name)];
      } else if d.score.Some? && d.score.value < 80.0 {
        corrections := corrections + [Correction(Moderate, d.name)];
      }
    }
    assert dimensions[..|dimensions|] == dimensions;
    CorrectionsAreCalled(dimensions);
  }

  function Result(aggregate: Option<real>, corrections: seq<Correction>, dimensions: seq<Dimension>): Verdict {
    if aggregate.None? || (exists k :: 0 <= k < |dimensions| && dimensions[k].applicability == NotCaptured) then InsufficientEvidence
    else if (exists k :: 0 <= k < |dimensions| && dimensions[k].status == FailStatus && MaterialName(dimensions[k].name)) ||
            (exists k :: 0 <= k < |corrections| && corrections[k].severity == Critical) then Verdict.Fail
    else if aggregate.value < 60.0 then Verdict.Fail
    else if corrections != [] || aggregate.value < 85.0 then PassWithWarnings
    else Verdict.Pass
  }

  method Evaluate(dimensions: seq<Dimension>) returns (verdict: Verdict, aggregate: Option<real>, corrections: seq<Correction>)
    ensures corrections == CorrectionsOf(dimensions) && Calls(dimensions, corrections) && aggregate == Aggregate(dimensions)
    ensures verdict == VerdictOf(dimensions)
  {
    corrections := Corrections(dimensions);
    var total, count := 0.0, 0;
    for i := 0 to |dimensions|
      invariant Sum(dimensions) == total + Sum(dimensions[i..]) && Scored(dimensions) == count + Scored(dimensions[i..])
    {
      assert dimensions[i..][1..] == dimensions[i + 1..];
      if dimensions[i].score.Some? {
        total, count := total + dimensions[i].score.value, count + 1;
      }
    }
    aggregate := if count > 0 then Some(Round2(total / count as real)) else None;
    verdict := Result(aggregate, corrections, dimensions);
    ResultIsVerdict(dimensions, corrections);
  }

  // ----- the verdict without the lists: what holds of some dimension -----

  ghost predicate Has(dimensions: seq<Dimension>, p: Dimension -> bool) {
    exists d :: d in dimensions && p(d)
  }

  predicate IsMissing(d: Dimension) {
    d.applicability == NotCaptured
  }

  predicate IsFatal(d: Dimension) {
    || (d.status == FailStatus && MaterialName(d.name))
    || (CorrectionFor(d).Some? && CorrectionFor(d).value.severity == Critical)
  }

  predicate IsFlawed(d: Dimension) {
    CorrectionFor(d).Some?
  }

  ghost function VerdictOf(dimensions: seq<Dimension>): Verdict {
    var aggregate := Aggregate(dimensions);
    if aggregate.None? || Has(dimensions, IsMissing) then InsufficientEvidence
    else if Has(dimensions, IsFatal) || aggregate.value < 60.0 then Verdict.Fail
    else if Has(dimensions, IsFlawed) || aggregate.value < 85.0 then PassWithWarnings
    else Verdict.Pass
  }

  lemma ResultIsVerdict(dimensions: seq<Dimension>, corrections: seq<Correction>)
    requires Calls(dimensions, corrections)
    ensures Result(Aggregate(dimensions), corrections, dimensions) == VerdictOf(dimensions)
  {
    MissingAgrees(dimensions);
    FlawAgrees(dimensions, corrections);
    FatalAgrees(dimensions, corrections);
  }

  lemma MissingAgrees(dimensions: seq<Dimension>)
    ensures Has(dimensions, IsMissing) <==> exists k :: 0 <= k < |dimensions| && dimensions[k].applicability == NotCaptured
  {
    if Has(dimensions, IsMissing) {
      var d :| d in dimensions && IsMissing(d);
      var k :| 0 <= k < |dimensions| && dimensions[k] == d;
    } else {
      assert forall k :: 0 <= k < |dimensions| ==> dimensions[k] in dimensions && !IsMissing(dimensions[k]);
    }
  }

  lemma FlawAgrees(dimensions: seq<Dimension>, corrections: seq<Correction>)
    requires Calls(dimensions, corrections)
    ensures Has(dimensions, IsFlawed) <==> corrections != []
  {
    if corrections != [] {
      assert corrections[0] in corrections;
      var k :| 0 <= k < |dimensions| && CorrectionFor(dimensions[k]) == Some(corrections[0]);
      assert dimensions[k] in dimensions && IsFlawed(dimensions[k]);
    }
    if Has(dimensions, IsFlawed) {
      var d :| d in dimensions && IsFlawed(d);
      var k :| 0 <= k < |dimensions| && dimensions[k] == d;
      assert CorrectionFor(dimensions[k]) == Some(CorrectionFor(d).value);
      assert CorrectionFor(d).value in corrections;
    }
  }

  lemma FatalAgrees(dimensions: seq<Dimension>, corrections: seq<Correction>)
    requires Calls(dimensions, corrections)
    ensures Has(dimensions, IsFatal) <==>
      (exists k :: 0 <= k < |dimensions| && dimensions[k].status == FailStatus && MaterialName(dimensions[k].name)) ||
      (exists k :: 0 <= k < |corrections| && corrections[k].severity == Critical)
  {
    if Has(dimensions, IsFatal) {
      var d :| d in dimensions && IsFatal(d);
      var k :| 0 <= k < |dimensions| && dimensions[k] == d;
      if CorrectionFor(d).Some? {
        assert CorrectionFor(dimensions[k]) == Some(CorrectionFor(d).value);
        assert CorrectionFor(d).value in corrections;
      }
    }
    if exists k :: 0 <= k < |dimensions| && dimensions[k].status == FailStatus && MaterialName(dimensions[k].name) {
      var k :| 0 <= k < |dimensions| && dimensions[k].status == FailStatus && MaterialName(dimensions[k].name);
      assert dimensions[k] in dimensions && IsFatal(dimensions[k]);
    }
    if exists k :: 0 <= k < |corrections| && corrections[k].severity == Critical {
      var k :| 0 <= k < |corrections| && corrections[k].severity == Critical;
      assert corrections[k] in corrections;
      var j :| 0 <= j < |dimensions| && CorrectionFor(dimensions[j]) == Some(corrections[k]);
      assert dimensions[j] in dimensions && IsFatal(dimensions[j]);
    }
  }

  // ----- order, padding, improvement -----

  lemma {:induction false} RemoveOne(dimensions: seq<Dimension>, k: nat)
    requires k < |dimensions|
    ensures var rest, d := dimensions[..k] + dimensions[k + 1..], dimensions[k];
      && Sum(dimensions) == Sum(rest) + (if d.score.Some? then d.score.value else 0.0)
      && Scored(dimensions) == Scored(rest) + if d.score.Some? then 1 else 0
  {
    var rest := dimensions[..k] + dimensions[k + 1..];
    if k == 0 {
      assert rest == dimensions[1..];
    } else {
      RemoveOne(dimensions[1..], k - 1);
      assert rest[1..] == dimensions[1..][..k - 1] + dimensions[1..][k..];
      assert rest[0] == dimensions[0];
    }
  }

  lemma {:induction false} SumPermutes(a: seq<Dimension>, b: seq<Dimension>)
    requires multiset(a) == multiset(b)
    ensures Sum(a) == Sum(b) && Scored(a) == Scored(b)
  {
    if a == [] {
      assert |b| == |multiset(b)| == |multiset(a)| == 0;
    } else {
      var k := Counterpart(a, b);
      SumPermutes(a[1..], b[..k] + b[k + 1..]);
      RemoveOne(b, k);
    }
  }

  /** Where the first element of `a` is in its rearrangement `b`. */
  lemma Counterpart<T>(a: seq<T>, b: seq<T>) returns (k: nat)
    requires multiset(a) == multiset(b) && a != []
    ensures k < |b| && b[k] == a[0] && multiset(a[1..]) == multiset(b[..k] + b[k + 1..])
  {
    assert a[0] in multiset(b);
    k :| 0 <= k < |b| && b[k] == a[0];
    assert a == [a[0]] + a[1..] && b == b[..k] + [b[k]] + b[k + 1..];
    assert multiset(a[1..]) == multiset(a) - multiset{a[0]};
  }

  lemma HasPermutes(a: seq<Dimension>, b: seq<Dimension>, p: Dimension -> bool)
    requires multiset(a) == multiset(b)
    ensures Has(a, p) <==> Has(b, p)
  {
    assert forall d :: d in a <==> d in multiset(a);
    assert forall d :: d in b <==> d in multiset(b);
  }

  /** The order of the dimensions does not matter. */
  lemma VerdictPermutes(a: seq<Dimension>, b: seq<Dimension>)
    requires multiset(a) == multiset(b)
    ensures VerdictOf(a) == VerdictOf(b) && Aggregate(a) == Aggregate(b)
  {
    SumPermutes(a, b);
    HasPermutes(a, b, IsMissing);
    HasPermutes(a, b, IsFatal);
    HasPermutes(a, b, IsFlawed);
  }

  /** As built for a check that does not apply. */
  function Inapplicable(name: Name): Dimension {
    Dimension(name, NotApplicableStatus, NotApplicable, None)
  }

  /** A dimension that does not apply changes nothing, wherever it stands. */
  lemma InapplicableIsNeutral(dimensions: seq<Dimension>, k: nat, name: Name)
    requires k <= |dimensions|
    ensures var padded := dimensions[..k] + [Inapplicable(name)] + dimensions[k..];
      VerdictOf(padded) == VerdictOf(dimensions) && Aggregate(padded) == Aggregate(dimensions)
  {
    var extra := Inapplicable(name);
    var padded := dimensions[..k] + [extra] + dimensions[k..];
    assert padded[..k] + padded[k + 1..] == dimensions;
    RemoveOne(padded, k);
    assert forall d :: d in padded <==> d in dimensions || d == extra by {
      assert dimensions == dimensions[..k] + dimensions[k..];
      assert padded[k] == extra;
    }
    assert forall p: Dimension -> bool :: !p(extra) ==> (Has(padded, p) <==> Has(dimensions, p));
  }

  function Rank(v: Verdict): nat {
    match v
    case InsufficientEvidence => 0
    case Fail => 1
    case PassWithWarnings => 2
    case Pass => 3
  }

  lemma {:induction false} RaisedSum(dimensions: seq<Dimension>, k: nat, score: real)
    requires k < |dimensions| && dimensions[k].score.Some? && dimensions[k].score.value <= score
    ensures var raised := dimensions[k := dimensions[k].(score := Some(score))];
      Sum(dimensions) <= Sum(raised) && Scored(raised) == Scored(dimensions)
  {
    var raised := dimensions[k := dimensions[k].(score := Some(score))];
    if k == 0 {
      assert raised[1..] == dimensions[1..];
    } else {
      RaisedSum(dimensions[1..], k - 1, score);
      assert raised[1..] == dimensions[1..][k - 1 := dimensions[k].(score := Some(score))];
    }
  }

  /** Raising one captured score, status unchanged, never makes the verdict worse. */
  lemma RaisingNeverHurts(dimensions: seq<Dimension>, k: nat, score: real)
    requires k < |dimensions| && dimensions[k].applicability == Captured
    requires dimensions[k].score.Some? && dimensions[k].score.value <= score
    ensures Rank(VerdictOf(dimensions)) <= Rank(VerdictOf(dimensions[k := dimensions[k].(score := Some(score))]))
  {
    var better := dimensions[k].(score := Some(score));
    var raised := dimensions[k := better];
    RaisedSum(dimensions, k, score);
    var n := Scored(dimensions) as real;
    if Scored(dimensions) > 0 {
      Quotients(Sum(dimensions), Sum(raised), n);
      Round2IsMonotone(Sum(dimensions) / n, Sum(raised) / n);
    }
    RaisedHas(dimensions, k, better, IsMissing);
    RaisedHas(dimensions, k, better, IsFatal);
    RaisedHas(dimensions, k, better, IsFlawed);
  }

  lemma Quotients(x: real, y: real, n: real)
    requires x <= y && n > 0.0
    ensures x / n <= y / n
  {
  }

  /** What no longer holds of the improved dimension holds of no more dimensions than before. */
  lemma RaisedHas(dimensions: seq<Dimension>, k: nat, better: Dimension, p: Dimension -> bool)
    requires k < |dimensions| && (p(better) ==> p(dimensions[k]))
    ensures Has(dimensions[k := better], p) ==> Has(dimensions, p)
  {
    var raised := dimensions[k := better];
    if Has(raised, p) {
      var d :| d in raised && p(d);
      var j :| 0 <= j < |raised| && raised[j] == d;
      assert dimensions[j] in dimensions && p(dimensions[j]);
    }
  }

  /** PASS leaves nothing open. */
  lemma PassMeans(dimensions: seq<Dimension>)
    requires VerdictOf(dimensions) == Verdict.Pass
    ensures forall d :: d in dimensions ==> d.applicability != NotCaptured
    ensures forall d :: d in dimensions && d.applicability == Captured && d.score.Some? ==> d.score.value >= 80.0
    ensures forall d :: d in dimensions && d.status == FailStatus ==> !MaterialName(d.name)
    ensures Aggregate(dimensions).Some? && Aggregate(dimensions).value >= 85.0
  {
    forall d | d in dimensions
      ensures !IsMissing(d) && !IsFatal(d) && !IsFlawed(d)
    {
    }
  }

  /** Exactly when the verdict is PASS, for dimensions as they are built: only captured ones carry a score. */
  lemma PassExactly(dimensions: seq<Dimension>)
    requires forall d :: d in dimensions && d.score.Some? ==> d.applicability == Captured
    ensures VerdictOf(dimensions) == Verdict.Pass <==>
      && Aggregate(dimensions).Some? && Aggregate(dimensions).value >= 85.0
      && forall d :: d in dimensions ==>
           d.applicability != NotCaptured && (d.score.Some? ==> d.score.value >= 80.0) && !(d.status == FailStatus && MaterialName(d.name))
  {
    if VerdictOf(dimensions) == Verdict.Pass {
      PassMeans(dimensions);
    } else if Aggregate(dimensions).Some? && Aggregate(dimensions).value >= 85.0 {
      var d :| d in dimensions && (IsMissing(d) || IsFatal(d) || IsFlawed(d));
    }
  }

  // ----- verdict and corrections in terms of names, statuses and scores -----

  /** A captured score below 60 on one of the eight critical dimensions. */
  predicate FailsCritically(d: Dimension) {
    && d.score.Some? && d.score.value < 60.0
    && (|| d.name == HallucinatedFilesPaths || d.name == UnsupportedClaims || d.name == SchedulerDecisions
        || d.name == OrchestrationParticipants || d.name == ExactSelectionMutation || d.name == DependencyIsolation
        || d.name == TargetIsolation || d.name == AuthorityCompliance)
  }

  predicate Sinks(d: Dimension) {
    FailsCritically(d) || (d.status == FailStatus && (d.name == SchemaMigrationAwareness || d.name == DependencyAwareness))
  }

  /** Only captured dimensions carry a score, as they are built. */
  predicate WellBuilt(dimensions: seq<Dimension>) {
    forall d :: d in dimensions && d.score.Some? ==> d.applicability == Captured
  }

  predicate Complete(dimensions: seq<Dimension>) {
    && (exists d :: d in dimensions && d.score.Some?)
    && forall d :: d in dimensions ==> d.applicability != NotCaptured
  }

  lemma {:induction false} ScoredExactly(dimensions: seq<Dimension>)
    ensures Scored(dimensions) > 0 <==> exists d :: d in dimensions && d.score.Some?
  {
    if dimensions != [] {
      ScoredExactly(dimensions[1..]);
      assert forall d :: d in dimensions <==> d == dimensions[0] || d in dimensions[1..];
    }
  }

  /** Each verdict, exactly. */
  lemma VerdictExactly(dimensions: seq<Dimension>)
    requires WellBuilt(dimensions)
    ensures Aggregate(dimensions).Some? <==> exists d :: d in dimensions && d.score.Some?
    ensures VerdictOf(dimensions) == InsufficientEvidence <==> !Complete(dimensions)
    ensures VerdictOf(dimensions) == Verdict.Fail <==>
      Complete(dimensions) && ((exists d :: d in dimensions && Sinks(d)) || Aggregate(dimensions).value < 60.0)
    ensures VerdictOf(dimensions) == PassWithWarnings <==>
      && Complete(dimensions) && Aggregate(dimensions).value >= 60.0 && (forall d :: d in dimensions ==> !Sinks(d))
      && (Aggregate(dimensions).value < 85.0 || exists d :: d in dimensions && d.score.Some? && d.score.value < 80.0)
  {
    ScoredExactly(dimensions);
    forall d | d in dimensions
      ensures IsFatal(d) <==> Sinks(d)
      ensures IsFlawed(d) <==> d.applicability == NotCaptured || (d.score.Some? && d.score.value < 80.0)
    {
    }
  }

  /** A correction is listed exactly for a dimension that was not captured or scored below 80: critical or major below
      60, depending on the dimension, and moderate otherwise. */
  lemma CorrectionsExactly(dimensions: seq<Dimension>, c: Correction)
    requires WellBuilt(dimensions)
    ensures c in CorrectionsOf(dimensions) <==>
      exists d :: d in dimensions && c.dimension == d.name && Deserves(d, c.severity)
  {
    CorrectionsAreCalled(dimensions);
    if c in CorrectionsOf(dimensions) {
      var k :| 0 <= k < |dimensions| && CorrectionFor(dimensions[k]) == Some(c);
      CorrectionIsDeserved(dimensions, dimensions[k], c);
    }
    if d :| d in dimensions && c.dimension == d.name && Deserves(d, c.severity) {
      var k :| 0 <= k < |dimensions| && dimensions[k] == d;
      CorrectionIsDeserved(dimensions, dimensions[k], c);
    }
  }

  lemma CorrectionIsDeserved(dimensions: seq<Dimension>, d: Dimension, c: Correction)
    requires WellBuilt(dimensions) && d in dimensions
    ensures CorrectionFor(d) == Some(c) <==> c.dimension == d.name && Deserves(d, c.severity)
  {
  }

  predicate Deserves(d: Dimension, severity: Severity) {
    match severity
    case Critical => FailsCritically(d)
    case Major => d.score.Some? && d.score.value < 60.0 && !FailsCritically(d)
    case Moderate => d.applicability == NotCaptured || (d.score.Some? && 60.0 <= d.score.value < 80.0)
  }

  predicate Within(low: real, sum: real, high: real, n: nat) {
    low * n as real <= sum <= high * n as real
  }

  lemma WithinExtends(low: real, sum: real, high: real, n: nat, x: real)
    requires Within(low, sum, high, n) && low <= x <= high
    ensures Within(low, x + sum, high, n + 1)
  {
    assert (n + 1) as real == n as real + 1.0;
    assert low * (n as real + 1.0) == low * n as real + low && high * (n as real + 1.0) == high * n as real + high;
  }

  lemma {:induction false} SumIsBetween(dimensions: seq<Dimension>, low: real, high: real)
    requires forall d :: d in dimensions && d.score.Some? ==> low <= d.score.value <= high
    ensures Within(low, Sum(dimensions), high, Scored(dimensions))
  {
    if dimensions != [] {
      assert forall d :: d in dimensions[1..] ==> d in dimensions;
      SumIsBetween(dimensions[1..], low, high);
      if dimensions[0].score.Some? {
        WithinExtends(low, Sum(dimensions[1..]), high, Scored(dimensions[1..]), dimensions[0].score.value);
      }
    }
  }

  /** The aggregate lies between the lowest and the highest score, up to half a hundredth. */
  lemma AggregateIsBetween(dimensions: seq<Dimension>, low: real, high: real)
    requires forall d :: d in dimensions && d.score.Some? ==> low <= d.score.value <= high
    requires Aggregate(dimensions).Some?
    ensures low - 0.005 <= Aggregate(dimensions).value <= high + 0.005
  {
    SumIsBetween(dimensions, low, high);
    MeanIsBetween(Sum(dimensions), Scored(dimensions) as real, low, high);
    Round2IsNear(Sum(dimensions) / Scored(dimensions) as real);
  }

  lemma MeanIsBetween(sum: real, n: real, low: real, high: real)
    requires n > 0.0 && low * n <= sum <= high * n
    ensures low <= sum / n <= high
  {
    var mean := sum / n;
    assert mean * n == sum;
    Compare(mean, low, n);
    Compare(high, mean, n);
  }

  // ----- set dimensions -----

  function Recall(expected: set<string>, actual: set<string>): real
    requires expected != {}
  {
    Share(|expected * actual|, |expected|)
  }

  function Precision(expected: set<string>, actual: set<string>): real {
    if actual == {} then 100.0 else Share(|expected * actual|, |actual|)
  }

  function Blend(recall: real, precision: real): real {
    recall * 0.7 + precision * 0.3
  }

  function StatusFor(score: real): DimensionStatus {
    if score >= 80.0 then PassStatus else if score >= 60.0 then WarnStatus else FailStatus
  }

  /** Both sets are already normalized; without expectations nothing was captured. */
  function SetDimension(name: Name, expected: set<string>, actual: set<string>): Dimension {
    if expected == {} then Dimension(name, NotCapturedStatus, NotCaptured, None)
    else
      var score := Round2(Blend(Recall(expected, actual), Precision(expected, actual)));
      Dimension(name, StatusFor(score), Captured, Some(score))
  }

  /** Scores stay in [0, 100], and the unrounded score is 100 exactly for equal sets. */
  lemma SetDimensionBounds(name: Name, expected: set<string>, actual: set<string>)
    requires expected != {}
    ensures var d := SetDimension(name, expected, actual);
      && d.applicability == Captured && d.score.Some? && 0.0 <= d.score.value <= 100.0
      && (Blend(Recall(expected, actual), Precision(expected, actual)) == 100.0 <==> expected == actual)
  {
    SubsetSize(expected * actual, expected);
    SubsetSize(expected * actual, actual);
    ShareBounds(|expected * actual|, |expected|);
    if actual != {} {
      ShareBounds(|expected * actual|, |actual|);
    }
    Round2KeepsBounds(Blend(Recall(expected, actual), Precision(expected, actual)), 0, 100);
  }

  /** A passing set dimension recalled more than 71.4 %, and more than 33.3 % of what it named was
      expected, rounding notwithstanding. */
  lemma PassingSetDimension(name: Name, expected: set<string>, actual: set<string>)
    requires SetDimension(name, expected, actual).status == PassStatus
    ensures expected != {} && Recall(expected, actual) > 71.4
    ensures actual != {} && Precision(expected, actual) > 33.3
  {
    var recall, precision := Recall(expected, actual), Precision(expected, actual);
    SubsetSize(expected * actual, expected);
    SubsetSize(expected * actual, actual);
    ShareBounds(|expected * actual|, |expected|);
    if actual != {} {
      ShareBounds(|expected * actual|, |actual|);
    } else {
      assert expected * actual == {};
    }
    Round2IsNear(Blend(recall, precision));
  }
}
