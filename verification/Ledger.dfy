/** The standing relation between commit records and heads: every recorded baseline has been left
    behind for good.  It is what rules out a second promotion of the same frozen plan. */
module Ledger {
  import opened Prelude
  import opened Git
  import opened Acceptance
  import opened Session
  import opened Promotion
  import opened History
  import opened Containment
  import L1 = Integration
  import L2 = ControlledCommit

  /** The record belongs to its workflow's repository and frozen plan, and that repository's head is
      no longer the record's baseline. */
  predicate LeftBehind(w: World, r: CommitRecord) {
    && r.workflowId in w.db.workflows && w.db.workflows[r.workflowId].repositoryId == Some(r.repositoryId)
    && r.repositoryId in w.db.repositories
    && r.freezeId in w.db.freezes && w.db.freezes[r.freezeId].commitSha == Some(r.baseline)
    && r.baseline in w.disk.commits
    && var loc := w.db.repositories[r.repositoryId].location;
       loc in w.disk.checkouts && w.disk.checkouts[loc].head != r.baseline
  }

  predicate Ledger(w: World) {
    w.disk.Valid() && forall r :: r in w.db.records ==> LeftBehind(w, r)
  }

  /** Registered heads stay or become brand-new commits. */
  predicate RegisteredHeadsAdvance(w: World, w': World) {
    forall id :: id in w.db.repositories ==>
      var loc := w.db.repositories[id].location;
      loc in w.disk.checkouts && loc in w'.disk.checkouts ==>
        w'.disk.checkouts[loc].head == w.disk.checkouts[loc].head || w'.disk.checkouts[loc].head !in w.disk.commits
  }

  lemma StaysBehind(w: World, w': World, r: CommitRecord)
    requires LeftBehind(w, r) && Grows(w.disk, w'.disk) && PlansKept(w.db, w'.db) && RegisteredHeadsAdvance(w, w')
    ensures LeftBehind(w', r)
  {
    assert (r.repositoryId, w.db.repositories[r.repositoryId]) in w.db.repositories.Items;
    assert (r.freezeId, w.db.freezes[r.freezeId]) in w.db.freezes.Items;
    Kept(w.disk, w'.disk, r.baseline);
  }

  lemma LedgerStays(w: World, w': World)
    requires Ledger(w) && w'.disk.Valid() && Grows(w.disk, w'.disk) && PlansKept(w.db, w'.db)
    requires RegisteredHeadsAdvance(w, w') && w'.db.records == w.db.records
    ensures Ledger(w')
  {
    forall r | r in w'.db.records
      ensures LeftBehind(w', r)
    {
      StaysBehind(w, w', r);
    }
  }

  /** Every L2 call keeps the ledger: a new record's baseline is left behind by the very commit it records. */
  lemma CommitKeepsLedger(ignored: IgnoreRule, commands: CommandOracle, request: L2.CommitRequest, faults: set<L2.Site>,
                          w: World, r: L2.CommitResult, w': World)
    requires Ledger(w) && w'.disk.Valid()
    requires L2.CommitStep(ignored, commands, request, faults, w.disk, w.db, r, w'.disk, w'.db)
    ensures Ledger(w')
  {
    CommitMovesHeads(ignored, commands, request, faults, w, r, w');
    if r.status != L2.Completed {
      LedgerStays(w, w');
    } else {
      NewRecordLeftBehind(ignored, commands, request, faults, w, r, w');
      LedgerGrows(w, w');
    }
  }

  lemma CommitMovesHeads(ignored: IgnoreRule, commands: CommandOracle, request: L2.CommitRequest, faults: set<L2.Site>,
                         w: World, r: L2.CommitResult, w': World)
    requires w.disk.Valid() && w'.disk.Valid()
    requires L2.CommitStep(ignored, commands, request, faults, w.disk, w.db, r, w'.disk, w'.db)
    ensures Grows(w.disk, w'.disk) && PlansKept(w.db, w'.db) && RegisteredHeadsAdvance(w, w')
    ensures r.status != L2.Completed ==> w'.db.records == w.db.records
  {
    CommitFrame(ignored, commands, request, faults, w.disk, w.db, r, w'.disk, w'.db);
    RecordsGrowByOne(ignored, commands, request, faults, w.disk, w.db, r, w'.disk, w'.db);
  }

  lemma LedgerGrows(w: World, w': World)
    requires Ledger(w) && w'.disk.Valid() && Grows(w.disk, w'.disk) && PlansKept(w.db, w'.db) && RegisteredHeadsAdvance(w, w')
    requires exists record :: w'.db.records == w.db.records + [record] && LeftBehind(w', record)
    ensures Ledger(w')
  {
    forall r | r in w.db.records
      ensures LeftBehind(w', r)
    {
      StaysBehind(w, w', r);
    }
  }

  lemma NewRecordLeftBehind(ignored: IgnoreRule, commands: CommandOracle, request: L2.CommitRequest, faults: set<L2.Site>,
                            w: World, r: L2.CommitResult, w': World)
    requires w.disk.Valid() && w'.disk.Valid() && r.status == L2.Completed
    requires L2.CommitStep(ignored, commands, request, faults, w.disk, w.db, r, w'.disk, w'.db)
    ensures exists record :: w'.db.records == w.db.records + [record] && LeftBehind(w', record)
  {
    CommitFrame(ignored, commands, request, faults, w.disk, w.db, r, w'.disk, w'.db);
    CommitRowsFacts(w.db, request);
    var record := L2.RecordOf(ignored, w.disk, w.db, request).(resulting := r.resulting.value);
    assert w'.db.records == w.db.records + [record];
    TargetIsWorkflowRepository(w.db, request);
    Kept(w.disk, w'.disk, request.baseline);
  }

  lemma TargetIsWorkflowRepository(db: Db, request: L2.CommitRequest)
    requires L2.CommitRows(db, request).Ok?
    ensures db.workflows[request.workflowId].repositoryId == Some(L2.CommitRows(db, request).value.1.repositoryId)
  {
  }

  /** Every L1 call keeps the ledger. */
  lemma IntegrationKeepsLedger(ignored: IgnoreRule, commands: CommandOracle, request: L1.IntegrationRequest, faults: L1.Faults,
                               w: World, r: L1.IntegrationResult, w': World)
    requires Ledger(w) && w'.disk.Valid()
    requires L1.IntegrateStep(ignored, commands, request, faults, w.disk, w.db, r, w'.disk, w'.db)
    ensures Ledger(w')
  {
    IntegrationFrame(ignored, commands, request, faults, w.disk, w.db, r, w'.disk, w'.db);
    LedgerStays(w, w');
  }

  /** With the ledger in force, a checkout that still sits on a plan's baseline has no record of it:
      the L2 call that follows a completed L1 call never answers ALREADY_COMMITTED. */
  lemma NoRecordAtBaseline(w: World, request: L2.CommitRequest)
    requires Ledger(w) && L2.CommitRows(w.db, request).Ok?
    requires request.root in w.disk.checkouts && w.disk.checkouts[request.root].head == request.baseline
    ensures !L2.HasRecord(w.db, request.workflowId, L2.CommitRows(w.db, request).value.0.freezeId)
  {
    CommitRowsFacts(w.db, request);
    var freezeId := L2.CommitRows(w.db, request).value.0.freezeId;
    forall k | 0 <= k < |w.db.records|
      ensures !(w.db.records[k].workflowId == request.workflowId && w.db.records[k].freezeId == freezeId)
    {
      assert LeftBehind(w, w.db.records[k]);
    }
  }
}
