/** Public ids: their prefixes, the zero-padded printer, and the parser that reads a number back. */
module PublicIds {
  import opened Prelude
  import opened Text

  datatype Entity =
    | Project | Repository | Snapshot | Task | TaskContract | TaskRun | ContextPackage | DocumentationCompletion
    | Evidence | EngineeringPlan | Memory | Learning | Evaluation | Audit | ModelProvider | ModelProfile
    | ModelExecution | EvaluationSuite | EvaluationCase | EvaluationRun | EvaluationCaseResult | RepositoryState
    | PlanFreeze | PlanEvaluation | HumanRubric | Benchmark | PilotLearning | PilotRecord | PersistentWorkflow
    | WorkflowCheckpoint | ResumeValidation | QueueCheckpoint | ControlledCommit

  function Prefix(entity: Entity): string {
    match entity
    case Project => "LPROJ"
    case Repository => "LREPO"
    case Snapshot => "LSNAP"
    case Task => "LTASK"
    case TaskContract => "LCONTR"
    case TaskRun => "LRUN"
    case ContextPackage => "LCTX"
    case DocumentationCompletion => "LDOC"
    case Evidence => "LEVID"
    case EngineeringPlan => "LPLAN"
    case Memory => "LMEM"
    case Learning => "LLEARN"
    case Evaluation => "LEVAL"
    case Audit => "LAUDIT"
    case ModelProvider => "LMPROV"
    case ModelProfile => "LMPROF"
    case ModelExecution => "LMEXEC"
    case EvaluationSuite => "LESUITE"
    case EvaluationCase => "LCASE"
    case EvaluationRun => "LERUN"
    case EvaluationCaseResult => "LERES"
    case RepositoryState => "LRSTATE"
    case PlanFreeze => "LFREEZE"
    case PlanEvaluation => "LEVALPLAN"
    case HumanRubric => "LRUBRIC"
    case Benchmark => "LBENCH"
    case PilotLearning => "LPLEARN"
    case PilotRecord => "LPILOT"
    case PersistentWorkflow => "LWORK"
    case WorkflowCheckpoint => "LWCHK"
    case ResumeValidation => "LRESUME"
    case QueueCheckpoint => "LQCHK"
    case ControlledCommit => "LCOMMIT"
  }

  // ----- prefixes are different words of capital letters -----

  predicate Capital(c: char) {
    'A' <= c <= 'Z'
  }

  predicate Word(s: string) {
    s != "" && forall k :: 0 <= k < |s| ==> Capital(s[k])
  }

  /** The second, the fourth and the last letter already tell all prefixes apart. */
  function Marks(s: string): nat
    requires |s| > 3
  {
    s[1] as nat * 10000 + s[3] as nat * 100 + s[|s| - 1] as nat
  }

  function MarksOf(entity: Entity): nat {
    match entity
    case Project => 807974
    case Repository => 828079
    case Snapshot => 836580
    case Task => 848375
    case TaskContract => 677882
    case TaskRun => 827878
    case ContextPackage => 678888
    case DocumentationCompletion => 686767
    case Evidence => 697368
    case EngineeringPlan => 806578
    case Memory => 777777
    case Learning => 766578
    case Evaluation => 696576
    case Audit => 656884
    case ModelProvider => 778286
    case ModelProfile => 778270
    case ModelExecution => 778867
    case EvaluationSuite => 698569
    case EvaluationCase => 678369
    case EvaluationRun => 698578
    case EvaluationCaseResult => 696983
    case RepositoryState => 828469
    case PlanFreeze => 706969
    case PlanEvaluation => 696578
    case HumanRubric => 826667
    case Benchmark => 667872
    case PilotLearning => 806978
    case PilotRecord => 807684
    case PersistentWorkflow => 878275
    case WorkflowCheckpoint => 877275
    case ResumeValidation => 828369
    case QueueCheckpoint => 817275
    case ControlledCommit => 677784
  }

  function MarkedBy(code: nat): Option<Entity> {
    if code == 807974 then Some(Project)
    else if code == 828079 then Some(Repository)
    else if code == 836580 then Some(Snapshot)
    else if code == 848375 then Some(Task)
    else if code == 677882 then Some(TaskContract)
    else if code == 827878 then Some(TaskRun)
    else if code == 678888 then Some(ContextPackage)
    else if code == 686767 then Some(DocumentationCompletion)
    else if code == 697368 then Some(Evidence)
    else if code == 806578 then Some(EngineeringPlan)
    else if code == 777777 then Some(Memory)
    else if code == 766578 then Some(Learning)
    else if code == 696576 then Some(Evaluation)
    else if code == 656884 then Some(Audit)
    else if code == 778286 then Some(ModelProvider)
    else if code == 778270 then Some(ModelProfile)
    else if code == 778867 then Some(ModelExecution)
    else if code == 698569 then Some(EvaluationSuite)
    else if code == 678369 then Some(EvaluationCase)
    else if code == 698578 then Some(EvaluationRun)
    else if code == 696983 then Some(EvaluationCaseResult)
    else if code == 828469 then Some(RepositoryState)
    else if code == 706969 then Some(PlanFreeze)
    else if code == 696578 then Some(PlanEvaluation)
    else if code == 826667 then Some(HumanRubric)
    else if code == 667872 then Some(Benchmark)
    else if code == 806978 then Some(PilotLearning)
    else if code == 807684 then Some(PilotRecord)
    else if code == 878275 then Some(PersistentWorkflow)
    else if code == 877275 then Some(WorkflowCheckpoint)
    else if code == 828369 then Some(ResumeValidation)
    else if code == 817275 then Some(QueueCheckpoint)
    else if code == 677784 then Some(ControlledCommit)
    else None
  }

  lemma PrefixMarks(entity: Entity)
    ensures |Prefix(entity)| > 3 && Marks(Prefix(entity)) == MarksOf(entity)
  {
  }

  lemma PrefixIsWord(entity: Entity)
    ensures Word(Prefix(entity))
  {
  }

  lemma MarksDiffer(entity: Entity)
    ensures MarkedBy(MarksOf(entity)) == Some(entity)
  {
  }

  /** No two entities share a prefix. */
  lemma PrefixesDiffer(a: Entity, b: Entity)
    ensures Prefix(a) == Prefix(b) <==> a == b
  {
    PrefixMarks(a);
    PrefixMarks(b);
    MarksDiffer(a);
    MarksDiffer(b);
  }

  // ----- decimal numbers -----

  predicate Digit(c: char) {
    '0' <= c <= '9'
  }

  /** `str.isdigit`, over ASCII. */
  predicate AllDigits(s: string) {
    s != "" && forall k :: 0 <= k < |s| ==> Digit(s[k])
  }

  function DigitValue(c: char): nat
    requires Digit(c)
  {
    c as nat - '0' as nat
  }

  function DigitOf(n: nat): (c: char)
    requires n < 10
    ensures Digit(c) && DigitValue(c) == n
  {
    (n + '0' as nat) as char
  }

  function Decimal(n: nat): (s: string)
    ensures AllDigits(s)
  {
    if n < 10 then [DigitOf(n)] else Decimal(n / 10) + [DigitOf(n % 10)]
  }

  function Value(s: string): nat
    requires forall k :: 0 <= k < |s| ==> Digit(s[k])
  {
    if s == "" then 0 else 10 * Value(s[..|s| - 1]) + DigitValue(s[|s| - 1])
  }

  function Zeros(count: nat): (s: string)
    ensures |s| == count && forall k :: 0 <= k < |s| ==> s[k] == '0'
  {
    seq(count, k => '0')
  }

  /** `{n:06d}` for a positive number. */
  function Padded(n: nat): (s: string)
    ensures AllDigits(s) && |s| >= 6
  {
    var digits := Decimal(n);
    Zeros(if |digits| < 6 then 6 - |digits| else 0) + digits
  }

  lemma {:induction false} DecimalValue(n: nat)
    ensures Value(Decimal(n)) == n
  {
    if n >= 10 {
      DecimalValue(n / 10);
      var s := Decimal(n);
      assert s[..|s| - 1] == Decimal(n / 10);
    }
  }

  lemma {:induction false} ZerosValue(count: nat, s: string)
    requires forall k :: 0 <= k < |s| ==> Digit(s[k])
    ensures Value(Zeros(count) + s) == Value(s)
    decreases count + |s|
  {
    var whole := Zeros(count) + s;
    if s != "" {
      assert whole[..|whole| - 1] == Zeros(count) + s[..|s| - 1];
      ZerosValue(count, s[..|s| - 1]);
    } else if count > 0 {
      assert whole == Zeros(count) && whole[..count - 1] == Zeros(count - 1) + "";
      ZerosValue(count - 1, "");
    }
  }

  lemma PaddedValue(n: nat)
    ensures Value(Padded(n)) == n
  {
    DecimalValue(n);
    var digits := Decimal(n);
    ZerosValue(if |digits| < 6 then 6 - |digits| else 0, digits);
  }

  function Pow10(k: nat): nat {
    if k == 0 then 1 else 10 * Pow10(k - 1)
  }

  lemma {:induction false} ValueBound(s: string)
    requires forall k :: 0 <= k < |s| ==> Digit(s[k])
    ensures Value(s) < Pow10(|s|)
  {
    if s != "" {
      ValueBound(s[..|s| - 1]);
    }
  }

  lemma {:induction false} DecimalLength(n: nat, k: nat)
    requires k >= 1
    ensures |Decimal(n)| <= k <==> n < Pow10(k)
  {
    if n >= 10 && k > 1 {
      DecimalLength(n / 10, k - 1);
    } else if n >= 10 {
      assert Pow10(1) == 10 * Pow10(0);
    } else {
      PowersGrow(k);
    }
  }

  lemma {:induction false} PowersGrow(k: nat)
    requires k >= 1
    ensures Pow10(k) >= 10
  {
    if k > 1 {
      PowersGrow(k - 1);
    } else {
      assert Pow10(1) == 10 * Pow10(0);
    }
  }

  const LIMIT: nat := 999999

  /** Six digits exactly up to 999999. */
  lemma PaddedLength(n: nat)
    ensures |Padded(n)| == 6 <==> n <= LIMIT
  {
    DecimalLength(n, 6);
    assert Pow10(6) == 10 * 10 * Pow10(4) == 1000000 by {
      assert Pow10(4) == 10 * 10 * Pow10(2);
      assert Pow10(2) == 10 * 10 * Pow10(0);
    }
  }

  // ----- public ids -----

  /** Numbers start at 1; anything lower is refused. */
  function Format(entity: Entity, n: int): Option<string> {
    if n < 1 then None else Some(Prefix(entity) + "_" + Padded(n))
  }

  /** The number behind `prefix_`, or 0 when the id does not have that form. */
  function Number(id: string, prefix: string): nat {
    if prefix + "_" <= id && AllDigits(id[|prefix| + 1..]) then Value(id[|prefix| + 1..]) else 0
  }

  lemma WordAhead(word: string, id: string)
    requires Word(word) && word + "_" <= id
    ensures id[..|word|] == word && id[|word|] == '_' && forall k :: 0 <= k < |word| ==> Capital(id[k])
  {
    assert id[..|word| + 1] == word + "_";
    assert id[|word|] == id[..|word| + 1][|word|];
    assert id[..|word|] == id[..|word| + 1][..|word|];
    assert forall k :: 0 <= k < |word| ==> id[k] == id[..|word|][k];
  }

  /** Two words followed by `_` at the head of one id are the same word. */
  lemma OneWord(a: string, b: string, id: string)
    requires Word(a) && Word(b) && a + "_" <= id && b + "_" <= id
    ensures a == b
  {
    WordAhead(a, id);
    WordAhead(b, id);
    assert |a| == |b|;
  }

  /** Parsing a formatted id gives its number back under its own prefix, and nothing under any other. */
  lemma RoundTrip(entity: Entity, n: int, other: Entity)
    requires n >= 1
    ensures Format(entity, n).Some?
    ensures Number(Format(entity, n).value, Prefix(other)) == if other == entity then n else 0
  {
    PrefixIsWord(entity);
    PrefixIsWord(other);
    PrefixesDiffer(entity, other);
    WordRoundTrip(Prefix(entity), Prefix(other), n);
  }

  lemma WordRoundTrip(own: string, other: string, n: nat)
    requires Word(own) && Word(other)
    ensures Number(own + "_" + Padded(n), other) == if other == own then n else 0
  {
    var id := own + "_" + Padded(n);
    PaddedValue(n);
    assert own + "_" <= id && id[|own| + 1..] == Padded(n);
    if other != own && other + "_" <= id {
      OneWord(own, other, id);
    }
  }

  /** An id names one entity and one number. */
  lemma FormatIsInjective(a: Entity, n: int, b: Entity, m: int)
    requires n >= 1 && m >= 1
    ensures Format(a, n) == Format(b, m) <==> a == b && n == m
  {
    RoundTrip(a, n, a);
    RoundTrip(a, n, b);
    RoundTrip(b, m, b);
    RoundTrip(b, m, a);
  }

  // ----- string order is number order, up to the limit -----

  predicate Precedes(a: string, b: string) {
    b != "" && (a == "" || a[0] < b[0] || (a[0] == b[0] && Precedes(a[1..], b[1..])))
  }

  lemma {:induction false} SamePrefixOrder(prefix: string, a: string, b: string)
    ensures Precedes(prefix + a, prefix + b) <==> Precedes(a, b)
  {
    if prefix != "" {
      assert (prefix + a)[1..] == prefix[1..] + a && (prefix + b)[1..] == prefix[1..] + b;
      SamePrefixOrder(prefix[1..], a, b);
    } else {
      assert prefix + a == a && prefix + b == b;
    }
  }

  lemma {:induction false} ValueFromFront(s: string)
    requires AllDigits(s)
    ensures Value(s) == DigitValue(s[0]) * Pow10(|s| - 1) + Value(s[1..])
  {
    if |s| > 1 {
      ValueFromFront(s[..|s| - 1]);
      assert s[..|s| - 1][1..] == s[1..][..|s| - 2];
      assert Value(s) == 10 * Value(s[..|s| - 1]) + DigitValue(s[|s| - 1]);
      assert Pow10(|s| - 1) == 10 * Pow10(|s| - 2);
      assert DigitValue(s[0]) * Pow10(|s| - 1) == 10 * (DigitValue(s[0]) * Pow10(|s| - 2));
    } else {
      assert s[..0] == "" && s[1..] == "";
    }
  }

  lemma {:induction false} DigitsInOrder(a: string, b: string)
    requires |a| == |b| && (forall k :: 0 <= k < |a| ==> Digit(a[k])) && (forall k :: 0 <= k < |b| ==> Digit(b[k]))
    ensures Precedes(a, b) <==> Value(a) < Value(b)
  {
    if a != "" {
      ValueFromFront(a);
      ValueFromFront(b);
      ValueBound(a[1..]);
      ValueBound(b[1..]);
      DigitsInOrder(a[1..], b[1..]);
      FrontDecides(DigitValue(a[0]), DigitValue(b[0]), Pow10(|a| - 1), Value(a[1..]), Value(b[1..]));
    }
  }

  lemma FrontDecides(x: nat, y: nat, unit: nat, u: nat, v: nat)
    requires u < unit && v < unit
    ensures x * unit + u < y * unit + v <==> x < y || (x == y && u < v)
  {
    if x < y {
      StepUp(x, y, unit);
    } else if y < x {
      StepUp(y, x, unit);
    }
  }

  lemma {:induction false} StepUp(x: nat, y: nat, unit: nat)
    requires x < y
    ensures x * unit + unit <= y * unit
  {
    if x + 1 < y {
      StepUp(x, y - 1, unit);
    }
  }

  /** Sorting ids of one entity as strings sorts them by number, as long as six digits are enough. */
  lemma StringOrderIsNumberOrder(entity: Entity, n: int, m: int)
    requires 1 <= n <= LIMIT && 1 <= m <= LIMIT
    ensures Precedes(Format(entity, n).value, Format(entity, m).value) <==> n < m
  {
    PaddedLength(n);
    PaddedLength(m);
    PaddedValue(n);
    PaddedValue(m);
    SamePrefixOrder(Prefix(entity) + "_", Padded(n), Padded(m));
    DigitsInOrder(Padded(n), Padded(m));
  }

  /** The limit is tight: the next id sorts before the last six-digit one. */
  lemma OrderBreaksAfterLimit(entity: Entity)
    ensures !Precedes(Format(entity, LIMIT).value, Format(entity, LIMIT + 1).value)
  {
    SamePrefixOrder(Prefix(entity) + "_", Padded(LIMIT), Padded(LIMIT + 1));
    PaddedLength(LIMIT);
    PaddedLength(LIMIT + 1);
    FirstDigits();
  }

  lemma FirstDigits()
    ensures Padded(LIMIT)[0] == '9' && Padded(LIMIT + 1)[0] == '1'
  {
    DecimalFront(999999, 5);
    DecimalFront(1000000, 6);
    DecimalLength(999999, 5);
    DecimalLength(1000000, 6);
    assert Tens(999999, 5) == 9 && Tens(1000000, 6) == 1;
    assert |Decimal(999999)| >= 6 && |Decimal(1000000)| >= 6;
  }

  /** `n` without its last `k` digits. */
  function Tens(n: nat, k: nat): nat {
    if k == 0 then n else Tens(n / 10, k - 1)
  }

  lemma {:induction false} DecimalFront(n: nat, k: nat)
    requires 0 < Tens(n, k) < 10
    ensures Decimal(n)[0] == DigitOf(Tens(n, k))
  {
    if k > 0 {
      DecimalFront(n / 10, k - 1);
      StillPositive(n, k);
    }
  }

  lemma {:induction false} StillPositive(n: nat, k: nat)
    requires Tens(n, k) > 0
    ensures n > 0 && (k > 0 ==> n >= 10)
  {
    if k > 0 {
      StillPositive(n / 10, k - 1);
    }
  }

  /** A shorter text precedes a longer one exactly when it precedes, or is, the longer one's beginning. */
  lemma {:induction false} ShorterPrecedes(a: string, b: string)
    requires |a| < |b|
    ensures Precedes(a, b) <==> Precedes(a, b[..|a|]) || a == b[..|a|]
    ensures Precedes(b, a) <==> Precedes(b[..|a|], a)
  {
    if a != "" {
      ShorterPrecedes(a[1..], b[1..]);
      assert b[..|a|][1..] == b[1..][..|a| - 1];
      assert a == [a[0]] + a[1..] && b[..|a|] == [b[0]] + b[1..][..|a| - 1];
    }
  }

  /** Cutting the last `k` digits off is dividing by ten `k` times. */
  lemma {:induction false} CutDigits(s: string, k: nat)
    requires AllDigits(s) && k <= |s|
    ensures Value(s[..|s| - k]) == Tens(Value(s), k)
  {
    if k > 0 {
      var shorter := s[..|s| - 1];
      assert Value(s) / 10 == Value(shorter);
      if k == |s| {
        assert s[..0] == "";
        if shorter != "" {
          CutDigits(shorter, k - 1);
          assert shorter[..0] == "";
        }
      } else {
        CutDigits(shorter, k - 1);
        assert shorter[..|shorter| - (k - 1)] == s[..|s| - k];
      }
    } else {
      assert s[..|s|] == s;
    }
  }

  lemma {:induction false} SameValueSameDigits(a: string, b: string)
    requires |a| == |b| && (forall k :: 0 <= k < |a| ==> Digit(a[k])) && (forall k :: 0 <= k < |b| ==> Digit(b[k]))
    ensures Value(a) == Value(b) <==> a == b
  {
    if a != "" {
      SameValueSameDigits(a[..|a| - 1], b[..|b| - 1]);
      assert a == a[..|a| - 1] + [a[|a| - 1]] && b == b[..|b| - 1] + [b[|b| - 1]];
    }
  }

  /** How many digits an id shows. */
  function Shown(n: nat): nat {
    |Padded(n)|
  }

  /** Exactly when one number's digits sort before another's: with equally many digits, when it is lower;
      otherwise the longer number is cut to the length of the shorter one. */
  predicate SortsBefore(n: nat, m: nat) {
    if Shown(n) == Shown(m) then n < m
    else if Shown(n) < Shown(m) then n <= Tens(m, Shown(m) - Shown(n))
    else Tens(n, Shown(n) - Shown(m)) < m
  }

  lemma PaddedOrder(n: nat, m: nat)
    ensures Precedes(Padded(n), Padded(m)) <==> SortsBefore(n, m)
  {
    var a, b := Padded(n), Padded(m);
    PaddedValue(n);
    PaddedValue(m);
    if |a| == |b| {
      DigitsInOrder(a, b);
    } else if |a| < |b| {
      ShorterPrecedes(a, b);
      CutDigits(b, |b| - |a|);
      DigitsInOrder(a, b[..|a|]);
      SameValueSameDigits(a, b[..|a|]);
    } else {
      ShorterPrecedes(b, a);
      CutDigits(a, |a| - |b|);
      DigitsInOrder(a[..|b|], b);
    }
  }

  /** String order of two ids of one entity, for any numbers at all. */
  lemma StringOrderExactly(entity: Entity, n: int, m: int)
    requires n >= 1 && m >= 1
    ensures Precedes(Format(entity, n).value, Format(entity, m).value) <==> SortsBefore(n, m)
  {
    SamePrefixOrder(Prefix(entity) + "_", Padded(n), Padded(m));
    PaddedOrder(n, m);
  }

  /** Of two numbers in order, the ids sort the other way exactly when the higher one shows more digits
      and, cut to the length of the lower one, is less. */
  lemma SortedWrongExactly(entity: Entity, n: int, m: int)
    requires 1 <= n < m
    ensures !Precedes(Format(entity, n).value, Format(entity, m).value) <==>
      Shown(n) < Shown(m) && Tens(m, Shown(m) - Shown(n)) < n
  {
    StringOrderExactly(entity, n, m);
    ShownGrows(n, m);
  }

  lemma {:induction false} DecimalGrows(n: nat, m: nat)
    requires n <= m
    ensures |Decimal(n)| <= |Decimal(m)|
  {
    if n >= 10 {
      DecimalGrows(n / 10, m / 10);
    }
  }

  lemma ShownGrows(n: nat, m: nat)
    requires n <= m
    ensures Shown(n) <= Shown(m)
  {
    DecimalGrows(n, m);
  }

  /** `^[A-Z]+_\d{6}$` */
  predicate EvidencePattern(id: string) {
    exists k :: 0 <= k < |id| && Word(id[..k]) && id[k] == '_' && |id| == k + 7 && AllDigits(id[k + 1..])
  }

  /** The evidence-id pattern accepts exactly the ids numbered up to 999999. */
  lemma PatternAcceptsUpToLimit(entity: Entity, n: int)
    requires n >= 1
    ensures EvidencePattern(Format(entity, n).value) <==> n <= LIMIT
  {
    var id, prefix := Format(entity, n).value, Prefix(entity);
    PrefixIsWord(entity);
    PaddedLength(n);
    assert id[..|prefix|] == prefix && id[|prefix|] == '_' && id[|prefix| + 1..] == Padded(n);
    if EvidencePattern(id) {
      var k :| 0 <= k < |id| && Word(id[..k]) && id[k] == '_' && |id| == k + 7 && AllDigits(id[k + 1..]);
      assert id[..k] + "_" <= id && prefix + "_" <= id;
      OneWord(id[..k], prefix, id);
    }
  }
}
