/** Memories and learning candidates: what the two services may do to them, and what holds in every
    state they can reach. */
module Knowledge {
  import opened Prelude

  type Id = string

  datatype Scope = Session | ProjectScope | ClientScope | Dfg | DomainScope | Global

  datatype Validation = Observed | CandidateStatement | Validated | Contradicted | Superseded | Deprecated

  datatype ProjectKind = Client | DfgInternal | ResearchAndDevelopment

  datatype Promoter = Human | System | OtherActor

  datatype CandidateStatus = Pending | NeedsMoreEvidence | Accepted | Rejected

  datatype Classification = Private | Abstractable | GlobalSafe

  datatype Sanitization = NotRequired | Required | Sanitized | Refused

  /** Where a piece of knowledge comes from. */
  datatype Source = Source(reference: Option<Id>, taskId: Option<Id>, runId: Option<Id>, evidence: seq<Id>)

  datatype Memory = Memory(
    projectId: Option<Id>, scope: Scope, status: Validation, source: Source, confidence: real,
    supersededBy: Option<Id>, supersedes: Option<Id>, revalidate: bool)

  datatype Candidate = Candidate(
    correction: bool, projectId: Option<Id>, taskId: Option<Id>, runId: Option<Id>, evidence: seq<Id>, memories: seq<Id>,
    documents: seq<Id>, confidence: real, status: CandidateStatus, sanitization: Sanitization, classification: Classification)

  datatype State = State(projects: map<Id, ProjectKind>, memories: map<Id, Memory>, candidates: map<Id, Candidate>)

  predicate Given(id: Option<Id>) {
    id.Some? && id.value != ""
  }

  // ----- guards -----

  predicate HasProvenance(source: Source) {
    Given(source.reference) || Given(source.taskId) || Given(source.runId) || source.evidence != []
  }

  predicate ConfidenceOk(confidence: real) {
    0.0 <= confidence <= 1.0
  }

  predicate FromClient(s: State, projectId: Option<Id>) {
    Given(projectId) && projectId.value in s.projects && s.projects[projectId.value] == Client
  }

  /** Confidence, project, provenance and evidence rules, and no CLIENT memory straight to GLOBAL. */
  predicate CreationOk(s: State, m: Memory) {
    && ConfidenceOk(m.confidence)
    && (m.scope == ProjectScope || m.scope == ClientScope ==> Given(m.projectId))
    && (m.status == Validated ==> HasProvenance(m.source))
    && (m.scope == Global && m.status == Validated ==> m.source.evidence != [])
    && (m.scope == Global ==> !FromClient(s, m.projectId))
  }

  function Classify(s: State, projectId: Option<Id>, proposed: Scope): Classification {
    if FromClient(s, projectId) || proposed == ClientScope then Private
    else if proposed == ProjectScope then Abstractable
    else GlobalSafe
  }

  function DefaultSanitization(c: Classification): Sanitization {
    if c == Private then Required else NotRequired
  }

  predicate CanPromote(c: Candidate, target: Scope, actor: Promoter) {
    && (target == Global ==> actor != OtherActor)
    && c.status == Accepted
    && (c.evidence != [] || c.memories != [] || c.documents != [])
    && (target == Global ==> c.classification != Private && (c.sanitization == NotRequired || c.sanitization == Sanitized))
  }

  /** The memory a promotion creates. */
  function PromotedMemory(id: Id, c: Candidate, target: Scope): Memory {
    Memory(if target == Global then None else c.projectId, target, Validated, Source(Some(id), c.taskId, c.runId, c.evidence),
           c.confidence, None, None, false)
  }

  // ----- moves -----

  datatype Move =
    | CreateMemory(id: Id, memory: Memory)
    | Validate(id: Id)
    | Contradict(id: Id)
    | Deprecate(id: Id)
    | Supersede(older: Id, newer: Id)
    | Flag(id: Id)
    | Unflag(id: Id)
    | CreateCandidate(id: Id, candidate: Candidate, proposed: Scope, sanitization: Option<Sanitization>)
    | Judge(id: Id, verdict: CandidateStatus)
    | Promote(candidateId: Id, memoryId: Id, target: Scope, actor: Promoter)
    | EditProjects(projects: map<Id, ProjectKind>)

  /** A new row has a new id. */
  predicate FreshIds(s: State, move: Move) {
    match move
    case CreateMemory(id, _) => id !in s.memories
    case CreateCandidate(id, _, _, _) => id !in s.candidates
    case Promote(_, memoryId, _, _) => memoryId !in s.memories
    case _ => true
  }

  /** Exactly when the services accept the move; otherwise they raise and change nothing. */
  predicate Allowed(s: State, move: Move) {
    match move
    case CreateMemory(_, m) => CreationOk(s, m)
    case Validate(id) => id in s.memories && HasProvenance(s.memories[id].source)
    case Contradict(id) => id in s.memories
    case Deprecate(id) => id in s.memories
    case Supersede(older, newer) =>
      && older != newer && older in s.memories && newer in s.memories
      && s.memories[newer].supersededBy != Some(older) && s.memories[older].supersedes != Some(newer)
    case Flag(id) => id in s.memories
    case Unflag(id) => id in s.memories && (s.memories[id].source.evidence != [] || Given(s.memories[id].source.reference))
    case CreateCandidate(_, c, _, _) =>
      ConfidenceOk(c.confidence) && (c.evidence != [] || c.memories != [] || c.documents != [] || c.correction)
    case Judge(id, verdict) => id in s.candidates && verdict != Pending
    case Promote(id, _, target, actor) =>
      && id in s.candidates && CanPromote(s.candidates[id], target, actor)
      && CreationOk(s, PromotedMemory(id, s.candidates[id], target))
    case EditProjects(_) => true
  }

  function WithMemory(s: State, id: Id, m: Memory): State {
    s.(memories := s.memories[id := m])
  }

  function Linked(s: State, older: Id, newer: Id): State
    requires older in s.memories && newer in s.memories
  {
    s.(memories := s.memories[older := s.memories[older].(status := Superseded, supersededBy := Some(newer))]
                             [newer := s.memories[newer].(supersedes := Some(older))])
  }

  function Filed(s: State, c: Candidate, proposed: Scope, sanitization: Option<Sanitization>): Candidate {
    var classification := Classify(s, c.projectId, proposed);
    c.(status := Pending, classification := classification,
       sanitization := if sanitization.Some? then sanitization.value else DefaultSanitization(classification))
  }

  function Unlinked(m: Memory): Memory {
    m.(supersededBy := None, supersedes := None, revalidate := false)
  }

  function After(s: State, move: Move): State
    requires Allowed(s, move)
  {
    match move
    case CreateMemory(id, m) => WithMemory(s, id, Unlinked(m))
    case Validate(id) => WithMemory(s, id, s.memories[id].(status := Validated))
    case Contradict(id) => WithMemory(s, id, s.memories[id].(status := Contradicted))
    case Deprecate(id) => WithMemory(s, id, s.memories[id].(status := Deprecated))
    case Supersede(older, newer) => Linked(s, older, newer)
    case Flag(id) => WithMemory(s, id, s.memories[id].(revalidate := true))
    case Unflag(id) => WithMemory(s, id, s.memories[id].(revalidate := false))
    case CreateCandidate(id, c, proposed, sanitization) => s.(candidates := s.candidates[id := Filed(s, c, proposed, sanitization)])
    case Judge(id, verdict) => s.(candidates := s.candidates[id := s.candidates[id].(status := verdict)])
    case Promote(id, memoryId, target, _) => WithMemory(s, memoryId, PromotedMemory(id, s.candidates[id], target))
    case EditProjects(projects) => s.(projects := projects)
  }

  // ----- the services -----

  class KnowledgeServices {
    var projects: map<Id, ProjectKind>
    var memories: map<Id, Memory>
    var candidates: map<Id, Candidate>

    function Here(): State
      reads this
    {
      State(projects, memories, candidates)
    }

    constructor ()
      ensures Here() == State(map[], map[], map[])
    {
      projects, memories, candidates := map[], map[], map[];
    }

    /** The outcome of a move: done exactly as specified, or refused with nothing changed. */
    twostate predicate Did(move: Move, ok: bool)
      reads this
    {
      && (ok <==> Allowed(old(Here()), move))
      && Here() == if Allowed(old(Here()), move) then After(old(Here()), move) else old(Here())
    }

    method CreateMemory(id: Id, m: Memory) returns (ok: bool)
      modifies this
      ensures Did(Move.CreateMemory(id, m), ok)
    {
      if !ConfidenceOk(m.confidence) || ((m.scope == ProjectScope || m.scope == ClientScope) && !Given(m.projectId)) {
        return false;
      }
      if m.status == Validated && !HasProvenance(m.source) {
        return false;
      }
      if m.scope == Global && m.status == Validated && m.source.evidence == [] {
        return false;
      }
      if m.scope == Global && Given(m.projectId) {
        if m.projectId.value in projects && projects[m.projectId.value] == Client {
          return false;
        }
      }
      memories := memories[id := Unlinked(m)];
      return true;
    }

    method ValidateMemory(id: Id) returns (ok: bool)
      modifies this
      ensures Did(Validate(id), ok)
    {
      if id !in memories || !HasProvenance(memories[id].source) {
        return false;
      }
      memories := memories[id := memories[id].(status := Validated)];
      return true;
    }

    method ContradictMemory(id: Id) returns (ok: bool)
      modifies this
      ensures Did(Contradict(id), ok)
    {
      if id !in memories {
        return false;
      }
      memories := memories[id := memories[id].(status := Contradicted)];
      return true;
    }

    method DeprecateMemory(id: Id) returns (ok: bool)
      modifies this
      ensures Did(Deprecate(id), ok)
    {
      if id !in memories {
        return false;
      }
      memories := memories[id := memories[id].(status := Deprecated)];
      return true;
    }

    method SupersedeMemory(older: Id, newer: Id) returns (ok: bool)
      modifies this
      ensures Did(Supersede(older, newer), ok)
    {
      if older == newer || older !in memories || newer !in memories {
        return false;
      }
      if memories[newer].supersededBy == Some(older) || memories[older].supersedes == Some(newer) {
        return false;
      }
      memories := memories[older := memories[older].(status := Superseded, supersededBy := Some(newer))];
      memories := memories[newer := memories[newer].(supersedes := Some(older))];
      return true;
    }

    method MarkRequiresRevalidation(id: Id) returns (ok: bool)
      modifies this
      ensures Did(Flag(id), ok)
    {
      if id !in memories {
        return false;
      }
      memories := memories[id := memories[id].(revalidate := true)];
      return true;
    }

    method ClearRevalidationFlag(id: Id) returns (ok: bool)
      modifies this
      ensures Did(Unflag(id), ok)
    {
      if id !in memories || (memories[id].source.evidence == [] && !Given(memories[id].source.reference)) {
        return false;
      }
      memories := memories[id := memories[id].(revalidate := false)];
      return true;
    }

    method CreateCandidate(id: Id, c: Candidate, proposed: Scope, sanitization: Option<Sanitization>) returns (ok: bool)
      modifies this
      ensures Did(Move.CreateCandidate(id, c, proposed, sanitization), ok)
    {
      if !ConfidenceOk(c.confidence) || (c.evidence == [] && c.memories == [] && c.documents == [] && !c.correction) {
        return false;
      }
      candidates := candidates[id := Filed(Here(), c, proposed, sanitization)];
      return true;
    }

    /** Validation, rejection, or a request for more evidence: always possible, whatever came before. */
    method JudgeCandidate(id: Id, verdict: CandidateStatus) returns (ok: bool)
      modifies this
      ensures Did(Judge(id, verdict), ok)
    {
      if id !in candidates || verdict == Pending {
        return false;
      }
      candidates := candidates[id := candidates[id].(status := verdict)];
      return true;
    }

    method PromoteCandidate(id: Id, memoryId: Id, target: Scope, actor: Promoter) returns (ok: bool)
      modifies this
      ensures Did(Promote(id, memoryId, target, actor), ok)
    {
      if id !in candidates || !CanPromote(candidates[id], target, actor) {
        return false;
      }
      ghost var m := PromotedMemory(id, candidates[id], target);
      assert Unlinked(m) == m;
      ok := CreateMemory(memoryId, PromotedMemory(id, candidates[id], target));
    }
  }

  // ----- invariants -----

  /** Validated knowledge has a source, and neither supersession link loops on one or two memories. */
  predicate Sound(s: State) {
    && (forall id :: id in s.memories && s.memories[id].status == Validated ==> HasProvenance(s.memories[id].source))
    && (forall a, b :: a in s.memories && b in s.memories ==> !Crossed(s, a, b))
  }

  /** `a` and `b` point at each other; with `a` and `b` the same memory, it points at itself. */
  predicate Crossed(s: State, a: Id, b: Id)
    requires a in s.memories && b in s.memories
  {
    || (s.memories[a].supersededBy == Some(b) && s.memories[b].supersededBy == Some(a))
    || (s.memories[a].supersedes == Some(b) && s.memories[b].supersedes == Some(a))
  }

  /** Links only lead to memories that exist. */
  predicate LinksExist(s: State) {
    forall id :: id in s.memories ==>
      && (s.memories[id].supersededBy.Some? ==> s.memories[id].supersededBy.value in s.memories)
      && (s.memories[id].supersedes.Some? ==> s.memories[id].supersedes.value in s.memories)
  }

  predicate Invariant(s: State) {
    Sound(s) && LinksExist(s)
  }

  /** Every accepted move keeps the invariant. */
  lemma InvariantKept(s: State, move: Move)
    requires Invariant(s) && FreshIds(s, move) && Allowed(s, move)
    ensures Invariant(After(s, move))
  {
    match move
    case CreateMemory(id, m) => NewMemoryIsSound(s, id, Unlinked(m));
    case Promote(id, memoryId, target, _) => NewMemoryIsSound(s, memoryId, PromotedMemory(id, s.candidates[id], target));
    case Supersede(older, newer) => LinkingIsSound(s, older, newer);
    case Validate(id) => StatusIsSound(s, id, s.memories[id].(status := Validated));
    case Contradict(id) => StatusIsSound(s, id, s.memories[id].(status := Contradicted));
    case Deprecate(id) => StatusIsSound(s, id, s.memories[id].(status := Deprecated));
    case Flag(id) => StatusIsSound(s, id, s.memories[id].(revalidate := true));
    case Unflag(id) => StatusIsSound(s, id, s.memories[id].(revalidate := false));
    case CreateCandidate(_, _, _, _) => MemoriesDecide(s, After(s, move));
    case Judge(_, _) => MemoriesDecide(s, After(s, move));
    case EditProjects(_) => MemoriesDecide(s, After(s, move));
  }

  lemma MemoriesDecide(s: State, s': State)
    requires Invariant(s) && s'.memories == s.memories
    ensures Invariant(s')
  {
    forall a, b | a in s'.memories && b in s'.memories
      ensures !Crossed(s', a, b)
    {
      assert !Crossed(s, a, b);
    }
  }

  lemma NewMemoryIsSound(s: State, id: Id, m: Memory)
    requires Invariant(s) && id !in s.memories && m.supersededBy == None == m.supersedes
    requires m.status == Validated ==> HasProvenance(m.source)
    ensures Invariant(WithMemory(s, id, m))
  {
    var s' := WithMemory(s, id, m);
    forall a, b | a in s'.memories && b in s'.memories
      ensures !Crossed(s', a, b)
    {
      assert a != id && b != id ==> !Crossed(s, a, b);
    }
  }

  lemma StatusIsSound(s: State, id: Id, m: Memory)
    requires Invariant(s) && id in s.memories
    requires m.supersededBy == s.memories[id].supersededBy && m.supersedes == s.memories[id].supersedes
    requires m.status == Validated ==> HasProvenance(m.source)
    ensures Invariant(WithMemory(s, id, m))
  {
    var s' := WithMemory(s, id, m);
    forall a, b | a in s'.memories && b in s'.memories
      ensures !Crossed(s', a, b)
    {
      assert !Crossed(s, a, b);
    }
  }

  lemma LinkingIsSound(s: State, older: Id, newer: Id)
    requires Invariant(s) && Allowed(s, Supersede(older, newer))
    ensures Invariant(Linked(s, older, newer))
  {
    var s' := Linked(s, older, newer);
    forall a, b | a in s'.memories && b in s'.memories
      ensures !Crossed(s', a, b)
    {
      assert !Crossed(s, a, b);
    }
  }

  // ----- runs -----

  /** Accepted moves take effect, refused ones do nothing. */
  predicate StepOk(s: State, move: Move, s': State) {
    FreshIds(s, move) && s' == if Allowed(s, move) then After(s, move) else s
  }

  predicate Run(states: seq<State>, moves: seq<Move>) {
    |states| == |moves| + 1 && forall k :: 0 <= k < |moves| ==> StepOk(states[k], moves[k], states[k + 1])
  }

  lemma {:induction false} RunsStaySound(states: seq<State>, moves: seq<Move>, k: nat)
    requires Run(states, moves) && Invariant(states[0]) && k < |states|
    ensures Invariant(states[k])
  {
    if k > 0 {
      RunsStaySound(states, moves, k - 1);
      assert StepOk(states[k - 1], moves[k - 1], states[k]);
      if Allowed(states[k - 1], moves[k - 1]) {
        InvariantKept(states[k - 1], moves[k - 1]);
      }
    }
  }

  /** A candidate keeps the classification it was filed with, and what it was filed from. */
  lemma {:induction false} ClassificationStays(states: seq<State>, moves: seq<Move>, i: nat, j: nat, id: Id)
    requires Run(states, moves) && i <= j < |states| && id in states[i].candidates
    ensures id in states[j].candidates && states[j].candidates[id].classification == states[i].candidates[id].classification
    ensures states[j].candidates[id].evidence == states[i].candidates[id].evidence
    decreases j
  {
    if i < j {
      ClassificationStays(states, moves, i, j - 1, id);
      assert StepOk(states[j - 1], moves[j - 1], states[j]);
    }
  }

  /** What a memory was created from never changes, nor does its scope. */
  lemma {:induction false} SourceStays(states: seq<State>, moves: seq<Move>, i: nat, j: nat, id: Id)
    requires Run(states, moves) && i <= j < |states| && id in states[i].memories
    ensures id in states[j].memories && states[j].memories[id].source == states[i].memories[id].source
    ensures states[j].memories[id].scope == states[i].memories[id].scope
    decreases j
  {
    if i < j {
      SourceStays(states, moves, i, j - 1, id);
      assert StepOk(states[j - 1], moves[j - 1], states[j]);
    }
  }

  /** A candidate filed from a CLIENT project is never promoted to GLOBAL, whatever happens to the
      project, the candidate or its sanitization afterwards. */
  lemma ClientKnowledgeStaysHome(states: seq<State>, moves: seq<Move>, i: nat, j: nat, id: Id, actor: Promoter, memoryId: Id)
    requires Run(states, moves) && i < j < |moves|
    requires moves[i].CreateCandidate? && moves[i].id == id && Allowed(states[i], moves[i])
    requires FromClient(states[i], moves[i].candidate.projectId)
    ensures !Allowed(states[j], Promote(id, memoryId, Global, actor))
  {
    assert StepOk(states[i], moves[i], states[i + 1]);
    ClassificationStays(states, moves, i + 1, j, id);
  }

  /** A GLOBAL promotion takes a validated candidate, and the memory it creates carries that
      candidate's evidence, of which there is some, for ever after. */
  lemma GlobalKnowledgeHasEvidence(states: seq<State>, moves: seq<Move>, i: nat, j: nat)
    requires Run(states, moves) && i < j < |states|
    requires moves[i].Promote? && moves[i].target == Global && Allowed(states[i], moves[i])
    ensures moves[i].candidateId in states[i].candidates && states[i].candidates[moves[i].candidateId].status == Accepted
    ensures moves[i].memoryId in states[j].memories
    ensures var m := states[j].memories[moves[i].memoryId];
      && m.scope == Global && m.source.evidence != [] && m.source.evidence == states[i].candidates[moves[i].candidateId].evidence
      && m.source.reference == Some(moves[i].candidateId)
  {
    assert StepOk(states[i], moves[i], states[i + 1]);
    SourceStays(states, moves, i + 1, j, moves[i].memoryId);
  }

  /** Exactly which promotions go through. */
  lemma PromotionExactly(s: State, id: Id, memoryId: Id, actor: Promoter)
    requires id in s.candidates
    ensures Allowed(s, Promote(id, memoryId, Global, actor)) <==>
      var c := s.candidates[id];
      && actor != OtherActor && c.status == Accepted && c.evidence != [] && c.classification != Private
      && (c.sanitization == NotRequired || c.sanitization == Sanitized) && ConfidenceOk(c.confidence)
  {
  }

  /** Longer supersession cycles are not excluded: three accepted moves close one. */
  lemma ThreeCycleIsPossible(s: State, a: Id, b: Id, c: Id)
    requires a in s.memories && b in s.memories && c in s.memories && a != b && b != c && a != c
    requires forall id :: id in {a, b, c} ==> s.memories[id].supersededBy == None == s.memories[id].supersedes
    ensures Allowed(s, Supersede(a, b))
    ensures var s1 := After(s, Supersede(a, b));
      && Allowed(s1, Supersede(b, c))
      && var s2 := After(s1, Supersede(b, c));
         && Allowed(s2, Supersede(c, a))
         && var s3 := After(s2, Supersede(c, a));
            && s3.memories[a].supersededBy == Some(b) && s3.memories[b].supersededBy == Some(c) && s3.memories[c].supersededBy == Some(a)
            && s3.memories[b].supersedes == Some(a) && s3.memories[c].supersedes == Some(b) && s3.memories[a].supersedes == Some(c)
  {
  }

  // ----- the rules in terms of the fields -----

  /** An id that is there and not empty. */
  predicate Names(id: Option<Id>) {
    match id
    case None => false
    case Some(text) => |text| > 0
  }

  predicate ClientProject(s: State, projectId: Option<Id>) {
    exists id :: projectId == Some(id) && id != "" && id in s.projects && s.projects[id] == Client
  }

  /** Exactly which memories may be created: the confidence is a probability, project and client memories have a project,
      validated ones a source and, if global, evidence, and nothing of a client project is global. */
  lemma CreationExactly(s: State, id: Id, m: Memory)
    ensures Allowed(s, CreateMemory(id, m)) <==>
      && 0.0 <= m.confidence && m.confidence <= 1.0
      && (m.scope == ProjectScope || m.scope == ClientScope ==> Names(m.projectId))
      && (m.status == Validated ==>
            Names(m.source.reference) || Names(m.source.taskId) || Names(m.source.runId) || |m.source.evidence| > 0)
      && (m.scope == Global ==> !ClientProject(s, m.projectId) && (m.status == Validated ==> |m.source.evidence| > 0))
  {
    if FromClient(s, m.projectId) {
      assert ClientProject(s, m.projectId);
    }
  }

  /** How a candidate is filed: pending, private if it comes from a client project or for one, abstractable if proposed
      for a project, and otherwise safe; sanitization is as asked for, or required of what is private. */
  lemma FilingExactly(s: State, id: Id, c: Candidate, proposed: Scope, sanitization: Option<Sanitization>)
    requires Allowed(s, CreateCandidate(id, c, proposed, sanitization))
    ensures var s' := After(s, CreateCandidate(id, c, proposed, sanitization));
      && s'.memories == s.memories && s'.projects == s.projects && s'.candidates.Keys == s.candidates.Keys + {id}
      && (forall other :: other in s.candidates && other != id ==> s'.candidates[other] == s.candidates[other])
      && var filed := s'.candidates[id];
         && filed.status == Pending
         && (filed.classification == Private <==> ClientProject(s, c.projectId) || proposed == ClientScope)
         && (filed.classification == Abstractable <==> !ClientProject(s, c.projectId) && proposed == ProjectScope)
         && (sanitization.Some? ==> filed.sanitization == sanitization.value)
         && (sanitization.None? ==> filed.sanitization == if filed.classification == Private then Required else NotRequired)
         && filed.(status := c.status, classification := c.classification, sanitization := c.sanitization) == c
  {
    if FromClient(s, c.projectId) {
      assert ClientProject(s, c.projectId);
    }
  }

  /** Exactly which promotions go through, for any scope, and the memory they create: a validated one in that scope that
      refers to its candidate, and belongs to the candidate's project unless it is global. */
  lemma PromotedExactly(s: State, id: Id, memoryId: Id, target: Scope, actor: Promoter)
    requires id in s.candidates
    ensures var c := s.candidates[id];
      && (Allowed(s, Promote(id, memoryId, target, actor)) <==>
            && c.status == Accepted && 0.0 <= c.confidence <= 1.0
            && (|c.evidence| > 0 || |c.memories| > 0 || |c.documents| > 0)
            && (target == ProjectScope || target == ClientScope ==> Names(c.projectId))
            && (id != "" || Names(c.taskId) || Names(c.runId) || |c.evidence| > 0)
            && (target == Global ==>
                  && (actor == Human || actor == System) && |c.evidence| > 0 && c.classification != Private
                  && c.sanitization != Required && c.sanitization != Refused))
      && (Allowed(s, Promote(id, memoryId, target, actor)) ==>
            After(s, Promote(id, memoryId, target, actor)) == s.(memories := s.memories[memoryId :=
              Memory(if target == Global then None else c.projectId, target, Validated, Source(Some(id), c.taskId, c.runId, c.evidence),
                     c.confidence, None, None, false)]))
  {
  }
}
