/** What every reachable store satisfies: rows that belong together agree on their bundle, the
    unique indexes hold, and a visible bundle has a current revision. */
module ReviewInvariants {
  import opened ReviewSchema
  import opened ReviewTriggers
  import opened ReviewStatements

  predicate RevisionOwned(db: Db, row: Revision) {
    row.bundle in db.bundles && row.snapshot in db.snapshots && db.snapshots[row.snapshot].bundle == row.bundle
  }

  predicate OperationOwned(db: Db, row: Operation) {
    && row.revision in db.revisions && row.snapshot in db.snapshots
    && db.snapshots[row.snapshot].bundle == db.revisions[row.revision].bundle
  }

  predicate RunOwned(db: Db, row: ApplyRun) {
    row.bundle in db.bundles && row.revision in db.revisions && db.revisions[row.revision].bundle == row.bundle
  }

  predicate AttemptOwned(db: Db, row: Attempt) {
    && row.run in db.runs && row.operation in db.operations
    && db.operations[row.operation].revision == db.runs[row.run].revision
  }

  predicate UndoOwned(db: Db, row: UndoRun) {
    row.bundle in db.bundles && row.sourceRun in db.runs
  }

  ghost predicate Linked(db: Db) {
    && (forall s :: s in db.snapshots ==> db.snapshots[s].bundle in db.bundles)
    && (forall r :: r in db.revisions ==> RevisionOwned(db, db.revisions[r]))
    && (forall o :: o in db.operations ==> OperationOwned(db, db.operations[o]))
    && (forall a :: a in db.runs ==> RunOwned(db, db.runs[a]))
    && (forall a :: a in db.attempts ==> AttemptOwned(db, db.attempts[a]))
    && (forall u :: u in db.undos ==> UndoOwned(db, db.undos[u]))
  }

  ghost predicate Indexed(db: Db) {
    && UniqueActiveKey(db.bundles)
    && UniqueSnapshots(db.snapshots)
    && UniqueRevisions(db.revisions)
    && UniqueOperations(db.operations)
    && UniqueRuns(db.runs)
    && UniqueAttempts(db.attempts)
    && UniqueUndos(db.undos)
  }

  ghost predicate VisibleHasCurrent(db: Db) {
    forall b :: b in db.bundles && Visible(db.bundles[b].state) ==> HasCurrent(db, b)
  }

  ghost predicate Inv(db: Db) {
    Linked(db) && Indexed(db) && VisibleHasCurrent(db)
  }

  /** The one statement that can make a bundle visible without the state triggers seeing it. */
  predicate InsertsVisible(stmt: Stmt) {
    stmt.OnBundle? && stmt.bundle.InsertBundle? && Visible(stmt.bundle.bundle.state)
  }

  // ----- updates of is_current touch nothing else -----

  ghost predicate SameButFlags(db: Db, next: Db) {
    && next == db.(revisions := next.revisions)
    && next.revisions.Keys == db.revisions.Keys
    && forall r :: r in db.revisions ==>
                     next.revisions[r] == db.revisions[r].(isCurrent := next.revisions[r].isCurrent)
  }

  lemma WriteFlagKeeps(db: Db, id: Id, flag: bool)
    requires id in db.revisions && WriteFlag(db, id, flag).Committed?
    ensures SameButFlags(db, WriteFlag(db, id, flag).db)
    ensures UniqueRevisions(WriteFlag(db, id, flag).db.revisions)
  {
  }

  lemma PromoteSuccessorKeeps(db: Db, row: Revision)
    requires PromoteSuccessor(db, row).Committed?
    ensures SameButFlags(db, PromoteSuccessor(db, row).db)
    ensures UniqueRevisions(PromoteSuccessor(db, row).db.revisions)
  {
  }

  lemma SameButFlagsComposes(db: Db, mid: Db, next: Db)
    requires SameButFlags(db, mid) && SameButFlags(mid, next)
    ensures SameButFlags(db, next)
  {
    assert next == db.(revisions := next.revisions);
  }

  lemma SetCurrentRowKeeps(db: Db, id: Id, flag: bool)
    requires SetCurrentRow(db, id, flag).Committed?
    ensures SameButFlags(db, SetCurrentRow(db, id, flag).db)
    ensures UniqueRevisions(db.revisions) ==> UniqueRevisions(SetCurrentRow(db, id, flag).db.revisions)
  {
    if id in db.revisions {
      var row := db.revisions[id];
      var mid := WriteFlag(db, id, flag).db;
      WriteFlagKeeps(db, id, flag);
      if Promotes(mid, row, row.(isCurrent := flag)) {
        PromoteSuccessorKeeps(mid, row);
        SameButFlagsComposes(db, mid, PromoteSuccessor(mid, row).db);
      }
    }
  }

  lemma {:induction false} SetCurrentKeeps(db: Db, flags: seq<(Id, bool)>)
    requires ExecSetCurrent(db, flags).Committed?
    ensures SameButFlags(db, ExecSetCurrent(db, flags).db)
    ensures UniqueRevisions(db.revisions) ==> UniqueRevisions(ExecSetCurrent(db, flags).db.revisions)
    decreases flags
  {
    if flags != [] {
      SetCurrentRowKeeps(db, flags[0].0, flags[0].1);
      var mid := SetCurrentRow(db, flags[0].0, flags[0].1).db;
      SetCurrentKeeps(mid, flags[1..]);
      SameButFlagsComposes(db, mid, ExecSetCurrent(db, flags).db);
    }
  }

  // ----- ownership -----

  // Replacing one table keeps Linked when its rows are owned and every row referred to stays.

  lemma LinkedWithBundles(db: Db, t: map<Id, Bundle>)
    requires Linked(db) && db.bundles.Keys <= t.Keys
    ensures Linked(db.(bundles := t))
  {
  }

  lemma LinkedWithSnapshots(db: Db, t: map<Id, Snapshot>)
    requires Linked(db)
    requires forall s :: s in t ==> t[s].bundle in db.bundles
    requires forall r :: r in db.revisions ==>
               var s := db.revisions[r].snapshot; s in t && t[s] == db.snapshots[s]
    requires forall o :: o in db.operations ==>
               var s := db.operations[o].snapshot; s in t && t[s] == db.snapshots[s]
    ensures Linked(db.(snapshots := t))
  {
  }

  lemma LinkedWithRevisions(db: Db, t: map<Id, Revision>)
    requires Linked(db)
    requires forall r :: r in t ==> RevisionOwned(db, t[r])
    requires forall o :: o in db.operations ==>
               var r := db.operations[o].revision; r in t && t[r].bundle == db.revisions[r].bundle
    requires forall a :: a in db.runs ==>
               var r := db.runs[a].revision; r in t && t[r].bundle == db.revisions[r].bundle
    ensures Linked(db.(revisions := t))
  {
  }

  lemma LinkedWithOperations(db: Db, t: map<Id, Operation>)
    requires Linked(db)
    requires forall o :: o in t ==> OperationOwned(db, t[o])
    requires forall a :: a in db.attempts ==>
               var o := db.attempts[a].operation; o in t && t[o].revision == db.operations[o].revision
    ensures Linked(db.(operations := t))
  {
  }

  lemma LinkedWithRuns(db: Db, t: map<Id, ApplyRun>)
    requires Linked(db)
    requires forall a :: a in t ==> RunOwned(db, t[a])
    requires forall a :: a in db.attempts ==>
               var r := db.attempts[a].run; r in t && t[r].revision == db.runs[r].revision
    requires forall u :: u in db.undos ==> db.undos[u].sourceRun in t
    ensures Linked(db.(runs := t))
  {
  }

  lemma LinkedWithAttempts(db: Db, t: map<Id, Attempt>)
    requires Linked(db)
    requires forall a :: a in t ==> AttemptOwned(db, t[a])
    ensures Linked(db.(attempts := t))
  {
  }

  lemma LinkedWithUndos(db: Db, t: map<Id, UndoRun>)
    requires Linked(db)
    requires forall u :: u in t ==> UndoOwned(db, t[u])
    ensures Linked(db.(undos := t))
  {
  }

  lemma BundleKeepsLinked(v: Schema, db: Db, stmt: BundleStmt)
    requires Linked(db) && ExecBundle(v, db, stmt).Committed?
    ensures Linked(ExecBundle(v, db, stmt).db)
  {
    LinkedWithBundles(db, ExecBundle(v, db, stmt).db.bundles);
  }

  lemma SnapshotKeepsLinked(db: Db, stmt: SnapshotStmt)
    requires Linked(db) && ExecSnapshot(db, stmt).Committed?
    ensures Linked(ExecSnapshot(db, stmt).db)
  {
    LinkedWithSnapshots(db, ExecSnapshot(db, stmt).db.snapshots);
  }

  lemma DeleteRevisionKeepsLinked(db: Db, id: Id)
    requires Linked(db) && ExecDeleteRevision(db, id).Committed?
    ensures Linked(ExecDeleteRevision(db, id).db)
  {
    var next := ExecDeleteRevision(db, id).db;
    LinkedWithOperations(db, next.operations);
    LinkedWithRevisions(db.(operations := next.operations), next.revisions);
  }

  lemma RevisionKeepsLinked(db: Db, stmt: RevisionStmt)
    requires Linked(db) && ExecRevision(db, stmt).Committed?
    ensures Linked(ExecRevision(db, stmt).db)
  {
    if stmt.DeleteRevision? {
      DeleteRevisionKeepsLinked(db, stmt.id);
    } else {
      if stmt.SetCurrent? {
        SetCurrentKeeps(db, stmt.flags);
      }
      LinkedWithRevisions(db, ExecRevision(db, stmt).db.revisions);
    }
  }

  lemma OperationKeepsLinked(db: Db, stmt: OperationStmt)
    requires Linked(db) && ExecOperation(db, stmt).Committed?
    ensures Linked(ExecOperation(db, stmt).db)
  {
    LinkedWithOperations(db, ExecOperation(db, stmt).db.operations);
  }

  lemma DeleteRunKeepsLinked(db: Db, id: Id)
    requires Linked(db) && ExecDeleteRun(db, id).Committed?
    ensures Linked(ExecDeleteRun(db, id).db)
  {
    var next := ExecDeleteRun(db, id).db;
    LinkedWithAttempts(db, next.attempts);
    LinkedWithRuns(db.(attempts := next.attempts), next.runs);
  }

  lemma RunKeepsLinked(db: Db, stmt: RunStmt)
    requires Linked(db) && ExecRun(db, stmt).Committed?
    ensures Linked(ExecRun(db, stmt).db)
  {
    if stmt.DeleteRun? {
      DeleteRunKeepsLinked(db, stmt.id);
    } else {
      LinkedWithRuns(db, ExecRun(db, stmt).db.runs);
    }
  }

  lemma AttemptKeepsLinked(db: Db, stmt: AttemptStmt)
    requires Linked(db) && ExecAttempt(db, stmt).Committed?
    ensures Linked(ExecAttempt(db, stmt).db)
  {
    LinkedWithAttempts(db, ExecAttempt(db, stmt).db.attempts);
  }

  lemma UndoKeepsLinked(db: Db, stmt: UndoStmt)
    requires Linked(db) && ExecUndo(db, stmt).Committed?
    ensures Linked(ExecUndo(db, stmt).db)
  {
    LinkedWithUndos(db, ExecUndo(db, stmt).db.undos);
  }

  lemma LinkedPreserved(v: Schema, db: Db, stmt: Stmt)
    requires Linked(db) && Exec(v, db, stmt).Committed?
    ensures Linked(Exec(v, db, stmt).db)
  {
    match stmt
    case OnBundle(s) => BundleKeepsLinked(v, db, s);
    case OnSnapshot(s) => SnapshotKeepsLinked(db, s);
    case OnRevision(s) => RevisionKeepsLinked(db, s);
    case OnOperation(s) => OperationKeepsLinked(db, s);
    case OnRun(s) => RunKeepsLinked(db, s);
    case OnAttempt(s) => AttemptKeepsLinked(db, s);
    case OnUndo(s) => UndoKeepsLinked(db, s);
  }

  // ----- unique indexes: checked on every write, and a deletion cannot break them -----

  lemma BundleKeepsIndexed(v: Schema, db: Db, stmt: BundleStmt)
    requires Indexed(db) && ExecBundle(v, db, stmt).Committed?
    ensures Indexed(ExecBundle(v, db, stmt).db)
  {
  }

  lemma SnapshotKeepsIndexed(db: Db, stmt: SnapshotStmt)
    requires Indexed(db) && ExecSnapshot(db, stmt).Committed?
    ensures Indexed(ExecSnapshot(db, stmt).db)
  {
  }

  lemma RevisionKeepsIndexed(db: Db, stmt: RevisionStmt)
    requires Indexed(db) && ExecRevision(db, stmt).Committed?
    ensures Indexed(ExecRevision(db, stmt).db)
  {
    if stmt.SetCurrent? {
      SetCurrentKeeps(db, stmt.flags);
    }
  }

  lemma OperationKeepsIndexed(db: Db, stmt: OperationStmt)
    requires Indexed(db) && ExecOperation(db, stmt).Committed?
    ensures Indexed(ExecOperation(db, stmt).db)
  {
  }

  lemma RunKeepsIndexed(db: Db, stmt: RunStmt)
    requires Indexed(db) && ExecRun(db, stmt).Committed?
    ensures Indexed(ExecRun(db, stmt).db)
  {
  }

  lemma AttemptKeepsIndexed(db: Db, stmt: AttemptStmt)
    requires Indexed(db) && ExecAttempt(db, stmt).Committed?
    ensures Indexed(ExecAttempt(db, stmt).db)
  {
  }

  lemma UndoKeepsIndexed(db: Db, stmt: UndoStmt)
    requires Indexed(db) && ExecUndo(db, stmt).Committed?
    ensures Indexed(ExecUndo(db, stmt).db)
  {
  }

  lemma IndexedPreserved(v: Schema, db: Db, stmt: Stmt)
    requires Indexed(db) && Exec(v, db, stmt).Committed?
    ensures Indexed(Exec(v, db, stmt).db)
  {
    match stmt
    case OnBundle(s) => BundleKeepsIndexed(v, db, s);
    case OnSnapshot(s) => SnapshotKeepsIndexed(db, s);
    case OnRevision(s) => RevisionKeepsIndexed(db, s);
    case OnOperation(s) => OperationKeepsIndexed(db, s);
    case OnRun(s) => RunKeepsIndexed(db, s);
    case OnAttempt(s) => AttemptKeepsIndexed(db, s);
    case OnUndo(s) => UndoKeepsIndexed(db, s);
  }
}
