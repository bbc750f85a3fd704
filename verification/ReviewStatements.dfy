/** The WHEN conditions of the triggers. Each predicate is true when the trigger fires, which
    aborts the statement; a subquery without a row is SQL NULL, so `NOT IN` and `!=` do not fire
    on it while `IS NOT` does. */
module ReviewTriggers {
  import opened Options
  import opened ReviewSchema

  /** Which migration's review_bundles_state_transition trigger is installed. */
  datatype Schema = V0011 | V0014 | V0015

  predicate Transition0011(prev: BundleState, next: BundleState) {
    || prev == next
    || (prev == Preparing && (next.Ready? || next.NeedsAttention? || next.Failed? || next.Discarded?))
    || (prev == Ready && (next.NeedsAttention? || next.Applying? || next.Discarded?))
    || (prev == NeedsAttention && (next.Ready? || next.Applying? || next.Discarded?))
    || (prev == Applying && (next.Applied? || next.PartiallyApplied? || next.Failed?))
  }

  predicate Transition0014(prev: BundleState, next: BundleState) {
    || Transition0011(prev, next)
    || ((prev.PartiallyApplied? || prev.Failed?) && next == Applying)
  }

  predicate Transition0015(prev: BundleState, next: BundleState) {
    || Transition0014(prev, next)
    || (prev == Discarded && (next.Ready? || next.NeedsAttention?))
  }

  predicate Transition(v: Schema, prev: BundleState, next: BundleState) {
    match v
    case V0011 => Transition0011(prev, next)
    case V0014 => Transition0014(prev, next)
    case V0015 => Transition0015(prev, next)
  }

  predicate HasCurrent(db: Db, b: Id) {
    exists r :: r in db.revisions && db.revisions[r].bundle == b && db.revisions[r].isCurrent
  }

  predicate HasAccepted(db: Db, b: Id) {
    exists o :: o in db.operations && db.operations[o].decision == Accepted
      && var r := db.operations[o].revision;
         r in db.revisions && db.revisions[r].bundle == b && db.revisions[r].isCurrent
  }

  function StateOf(db: Db, b: Id): Option<BundleState> {
    if b in db.bundles then Some(db.bundles[b].state) else None
  }

  function SnapshotBundle(db: Db, s: Id): Option<Id> {
    if s in db.snapshots then Some(db.snapshots[s].bundle) else None
  }

  function RevisionBundle(db: Db, r: Id): Option<Id> {
    if r in db.revisions then Some(db.revisions[r].bundle) else None
  }

  function OperationRevision(db: Db, o: Id): Option<Id> {
    if o in db.operations then Some(db.operations[o].revision) else None
  }

  function RunRevision(db: Db, a: Id): Option<Id> {
    if a in db.runs then Some(db.runs[a].revision) else None
  }

  // review_bundles_visible_requires_current
  predicate VisibleWithoutCurrent(db: Db, b: Id, next: BundleState) {
    Visible(next) && !HasCurrent(db, b)
  }

  // review_bundles_apply_requires_accepted
  predicate ApplyWithoutAccepted(db: Db, b: Id, next: BundleState) {
    next == Applying && !HasAccepted(db, b)
  }

  // proposal_revisions_snapshot_scope_insert
  predicate RevisionSnapshotElsewhere(db: Db, row: Revision) {
    SnapshotBundle(db, row.snapshot) != Some(row.bundle)
  }

  // proposal_revisions_current_frozen
  predicate CurrentFrozen(db: Db, b: Id) {
    match StateOf(db, b)
    case None => false
    case Some(s) => !(s.Preparing? || s.Ready? || s.NeedsAttention?)
  }

  // The state test shared by the two triggers that swap the current marker.
  predicate SwapsCurrent(db: Db, b: Id) {
    StateOf(db, b) == Some(Ready) || StateOf(db, b) == Some(NeedsAttention)
  }

  predicate SucceedsTo(prev: Revision, next: Revision) {
    next.bundle == prev.bundle && next.parent == prev.number && next.number == prev.number + 1
  }

  // proposal_revisions_current_required_update
  predicate ClearsWithoutSuccessor(db: Db, prev: Revision, next: Revision) {
    && prev.isCurrent && !next.isCurrent
    && SwapsCurrent(db, next.bundle)
    && !exists i :: i in db.revisions && SucceedsTo(prev, db.revisions[i]) && !db.revisions[i].isCurrent
  }

  // proposal_revisions_promote_successor
  predicate Promotes(db: Db, prev: Revision, next: Revision) {
    prev.isCurrent && !next.isCurrent && SwapsCurrent(db, next.bundle)
  }

  // proposal_revisions_current_required_delete
  predicate DeletesCurrent(db: Db, prev: Revision) {
    prev.isCurrent && match StateOf(db, prev.bundle)
                     case None => false
                     case Some(s) => s != Preparing
  }

  // operations_snapshot_scope_insert
  predicate OperationSnapshotElsewhere(db: Db, row: Operation) {
    SnapshotBundle(db, row.snapshot) != RevisionBundle(db, row.revision)
  }

  // operations_decision_mutable_current
  predicate DecisionFrozen(db: Db, row: Operation) {
    if row.revision !in db.revisions then true
    else
      var revision := db.revisions[row.revision];
      !revision.isCurrent || CurrentFrozen(db, revision.bundle)
  }

  // apply_runs_revision_scope_insert
  predicate RunRevisionElsewhere(db: Db, row: ApplyRun) {
    RevisionBundle(db, row.revision) != Some(row.bundle)
  }

  // operation_attempts_revision_scope_insert
  predicate AttemptOtherRevision(db: Db, row: Attempt) {
    OperationRevision(db, row.operation) != RunRevision(db, row.run)
  }
}

/** What one SQL statement does to the whole store: BEFORE triggers, row write, index check,
    AFTER triggers, foreign keys. An aborted statement leaves no trace. */
module ReviewStatements {
  import opened Options
  import opened ReviewSchema
  import opened ReviewTriggers

  datatype Reason =
    | ImmutableContent | BadTransition | VisibleNeedsCurrent | ApplyNeedsAccepted
    | SnapshotElsewhere | FrozenCurrent | CurrentRequired | FrozenDecision
    | RunRevisionOfOtherBundle | AttemptOfOtherRevision
    | UniqueViolation | ForeignKeyViolation

  datatype Outcome = Committed(db: Db) | Aborted(why: Reason)

  /** The SET list of an UPDATE on review_bundles; `state` is None when the column is not named,
      and then none of the three state triggers runs. */
  datatype BundlePatch = BundlePatch(
    state: Option<BundleState>, logicalKey: string, title: string, error: Option<string>, updatedAt: int)

  // One datatype per table; the Rewrite statements are UPDATEs that name an immutable column.
  datatype BundleStmt = InsertBundle(id: Id, bundle: Bundle) | UpdateBundle(id: Id, patch: BundlePatch)
  datatype SnapshotStmt = InsertSnapshot(id: Id, snapshot: Snapshot) | RewriteSnapshot(id: Id) | DeleteSnapshot(id: Id)
  datatype RevisionStmt =
    | InsertRevision(id: Id, revision: Revision)
    | SetCurrent(flags: seq<(Id, bool)>)
    | RewriteRevision(id: Id)
    | DeleteRevision(id: Id)
  datatype OperationStmt =
    | InsertOperation(id: Id, operation: Operation)
    | SetDecision(id: Id, decision: Decision)
    | RewriteOperation(id: Id)
    | DeleteOperation(id: Id)
  datatype RunStmt =
    | InsertRun(id: Id, run: ApplyRun)
    | UpdateRun(id: Id, state: RunState, result: Option<string>, error: Option<string>)
    | DeleteRun(id: Id)
  datatype AttemptStmt =
    | InsertAttempt(id: Id, attempt: Attempt)
    | UpdateAttempt(id: Id, state: AttemptState, error: Option<string>)
    | RewriteAttempt(id: Id)
    | DeleteAttempt(id: Id)
  datatype UndoStmt =
    | InsertUndo(id: Id, undo: UndoRun)
    | UpdateUndo(id: Id, state: UndoState, result: Option<string>, error: Option<string>)
    | DeleteUndo(id: Id)

  datatype Stmt =
    | OnBundle(bundle: BundleStmt)
    | OnSnapshot(snapshot: SnapshotStmt)
    | OnRevision(revision: RevisionStmt)
    | OnOperation(operation: OperationStmt)
    | OnRun(run: RunStmt)
    | OnAttempt(attempt: AttemptStmt)
    | OnUndo(undo: UndoStmt)

  function CommitIf(ok: bool, why: Reason, db: Db): Outcome {
    if ok then Committed(db) else Aborted(why)
  }

  function Patched(prev: Bundle, p: BundlePatch): Bundle {
    Bundle(p.logicalKey, p.title, if p.state.Some? then p.state.value else prev.state, p.error, p.updatedAt)
  }

  function ExecInsertBundle(db: Db, id: Id, row: Bundle): Outcome {
    if id in db.bundles then Aborted(UniqueViolation)
    else
      var t := db.bundles[id := row];
      CommitIf(UniqueActiveKey(t), UniqueViolation, db.(bundles := t))
  }

  function ExecUpdateBundle(v: Schema, db: Db, id: Id, p: BundlePatch): Outcome {
    if id !in db.bundles then Committed(db)
    else
      var prev := db.bundles[id];
      var next := Patched(prev, p);
      var t := db.bundles[id := next];
      if p.state.Some? && !Transition(v, prev.state, next.state) then Aborted(BadTransition)
      else if p.state.Some? && VisibleWithoutCurrent(db, id, next.state) then Aborted(VisibleNeedsCurrent)
      else if p.state.Some? && ApplyWithoutAccepted(db, id, next.state) then Aborted(ApplyNeedsAccepted)
      else CommitIf(UniqueActiveKey(t), UniqueViolation, db.(bundles := t))
  }

  function ExecInsertSnapshot(db: Db, id: Id, row: Snapshot): Outcome {
    var t := db.snapshots[id := row];
    if id in db.snapshots || !UniqueSnapshots(t) then Aborted(UniqueViolation)
    else CommitIf(row.bundle in db.bundles, ForeignKeyViolation, db.(snapshots := t))
  }

  function ExecDeleteSnapshot(db: Db, id: Id): Outcome {
    var referenced :=
      || (exists r :: r in db.revisions && db.revisions[r].snapshot == id)
      || (exists o :: o in db.operations && db.operations[o].snapshot == id);
    if id !in db.snapshots then Committed(db)
    else CommitIf(!referenced, ForeignKeyViolation, db.(snapshots := db.snapshots - {id}))
  }

  function ExecInsertRevision(db: Db, id: Id, row: Revision): Outcome {
    var t := db.revisions[id := row];
    if RevisionSnapshotElsewhere(db, row) then Aborted(SnapshotElsewhere)
    else if id in db.revisions || !UniqueRevisions(t) then Aborted(UniqueViolation)
    else CommitIf(row.bundle in db.bundles && row.snapshot in db.snapshots, ForeignKeyViolation,
                  db.(revisions := t))
  }

  /** One row of an UPDATE of is_current up to its index check: the AFTER trigger comes next. */
  function WriteFlag(db: Db, id: Id, flag: bool): Outcome
    requires id in db.revisions
  {
    var prev := db.revisions[id];
    var next := prev.(isCurrent := flag);
    var t := db.revisions[id := next];
    if CurrentFrozen(db, next.bundle) then Aborted(FrozenCurrent)
    else if ClearsWithoutSuccessor(db, prev, next) then Aborted(CurrentRequired)
    else CommitIf(UniqueRevisions(t), UniqueViolation, db.(revisions := t))
  }

  function Promoted(t: map<Id, Revision>, prev: Revision): map<Id, Revision> {
    map i | i in t :: if SucceedsTo(prev, t[i]) then t[i].(isCurrent := true) else t[i]
  }

  /** The UPDATE inside proposal_revisions_promote_successor, with its own BEFORE trigger. */
  function PromoteSuccessor(db: Db, prev: Revision): Outcome {
    var t := Promoted(db.revisions, prev);
    if (exists i :: i in db.revisions && SucceedsTo(prev, db.revisions[i])) && CurrentFrozen(db, prev.bundle)
    then Aborted(FrozenCurrent)
    else CommitIf(UniqueRevisions(t), UniqueViolation, db.(revisions := t))
  }

  function SetCurrentRow(db: Db, id: Id, flag: bool): Outcome {
    if id !in db.revisions then Committed(db)
    else
      var prev := db.revisions[id];
      var next := prev.(isCurrent := flag);
      match WriteFlag(db, id, flag)
      case Aborted(why) => Aborted(why)
      case Committed(mid) => if Promotes(mid, prev, next) then PromoteSuccessor(mid, prev) else Committed(mid)
  }

  /** UPDATE proposal_revisions SET is_current = ... over the listed rows, in the listed order. */
  function ExecSetCurrent(db: Db, flags: seq<(Id, bool)>): Outcome
    decreases flags
  {
    if flags == [] then Committed(db)
    else match SetCurrentRow(db, flags[0].0, flags[0].1)
      case Aborted(why) => Aborted(why)
      case Committed(next) => ExecSetCurrent(next, flags[1..])
  }

  function ExecDeleteRevision(db: Db, id: Id): Outcome {
    if id !in db.revisions then Committed(db)
    else
      var doomed := set o | o in db.operations && db.operations[o].revision == id;
      var restricted :=
        || (exists a :: a in db.runs && db.runs[a].revision == id)
        || (exists a :: a in db.attempts && db.attempts[a].operation in doomed);
      if DeletesCurrent(db, db.revisions[id]) then Aborted(CurrentRequired)
      else CommitIf(!restricted, ForeignKeyViolation,
                    db.(revisions := db.revisions - {id}, operations := db.operations - doomed))
  }

  function ExecInsertOperation(db: Db, id: Id, row: Operation): Outcome {
    var t := db.operations[id := row];
    if OperationSnapshotElsewhere(db, row) then Aborted(SnapshotElsewhere)
    else if id in db.operations || !UniqueOperations(t) then Aborted(UniqueViolation)
    else CommitIf(row.revision in db.revisions && row.snapshot in db.snapshots, ForeignKeyViolation,
                  db.(operations := t))
  }

  function ExecSetDecision(db: Db, id: Id, decision: Decision): Outcome {
    if id !in db.operations then Committed(db)
    else
      var row := db.operations[id];
      CommitIf(!DecisionFrozen(db, row), FrozenDecision,
               db.(operations := db.operations[id := row.(decision := decision)]))
  }

  function ExecDeleteOperation(db: Db, id: Id): Outcome {
    if id !in db.operations then Committed(db)
    else CommitIf(!exists a :: a in db.attempts && db.attempts[a].operation == id, ForeignKeyViolation,
                  db.(operations := db.operations - {id}))
  }

  function ExecInsertRun(db: Db, id: Id, row: ApplyRun): Outcome {
    var t := db.runs[id := row];
    if RunRevisionElsewhere(db, row) then Aborted(RunRevisionOfOtherBundle)
    else if id in db.runs || !UniqueRuns(t) then Aborted(UniqueViolation)
    else CommitIf(row.bundle in db.bundles && row.revision in db.revisions, ForeignKeyViolation,
                  db.(runs := t))
  }

  function ExecUpdateRun(db: Db, id: Id, s: RunState, result: Option<string>, error: Option<string>): Outcome {
    if id !in db.runs then Committed(db)
    else
      var t := db.runs[id := db.runs[id].(state := s, result := result, error := error)];
      CommitIf(UniqueRuns(t), UniqueViolation, db.(runs := t))
  }

  function ExecDeleteRun(db: Db, id: Id): Outcome {
    if id !in db.runs then Committed(db)
    else
      var cascaded := set a | a in db.attempts && db.attempts[a].run == id;
      CommitIf(!exists u :: u in db.undos && db.undos[u].sourceRun == id, ForeignKeyViolation,
               db.(runs := db.runs - {id}, attempts := db.attempts - cascaded))
  }

  function ExecInsertAttempt(db: Db, id: Id, row: Attempt): Outcome {
    var t := db.attempts[id := row];
    if AttemptOtherRevision(db, row) then Aborted(AttemptOfOtherRevision)
    else if id in db.attempts || !UniqueAttempts(t) then Aborted(UniqueViolation)
    else CommitIf(row.run in db.runs && row.operation in db.operations, ForeignKeyViolation,
                  db.(attempts := t))
  }

  function ExecUpdateAttempt(db: Db, id: Id, s: AttemptState, error: Option<string>): Outcome {
    if id !in db.attempts then Committed(db)
    else Committed(db.(attempts := db.attempts[id := db.attempts[id].(state := s, error := error)]))
  }

  function ExecInsertUndo(db: Db, id: Id, row: UndoRun): Outcome {
    var t := db.undos[id := row];
    if id in db.undos || !UniqueUndos(t) then Aborted(UniqueViolation)
    else CommitIf(row.bundle in db.bundles && row.sourceRun in db.runs, ForeignKeyViolation, db.(undos := t))
  }

  function ExecUpdateUndo(db: Db, id: Id, s: UndoState, result: Option<string>, error: Option<string>): Outcome {
    if id !in db.undos then Committed(db)
    else
      var t := db.undos[id := db.undos[id].(state := s, result := result, error := error)];
      CommitIf(UniqueUndos(t), UniqueViolation, db.(undos := t))
  }

  function ExecBundle(v: Schema, db: Db, stmt: BundleStmt): Outcome {
    match stmt
    case InsertBundle(id, row) => ExecInsertBundle(db, id, row)
    case UpdateBundle(id, patch) => ExecUpdateBundle(v, db, id, patch)
  }

  function ExecSnapshot(db: Db, stmt: SnapshotStmt): Outcome {
    match stmt
    case InsertSnapshot(id, row) => ExecInsertSnapshot(db, id, row)
    case RewriteSnapshot(id) => CommitIf(id !in db.snapshots, ImmutableContent, db)
    case DeleteSnapshot(id) => ExecDeleteSnapshot(db, id)
  }

  function ExecRevision(db: Db, stmt: RevisionStmt): Outcome {
    match stmt
    case InsertRevision(id, row) => ExecInsertRevision(db, id, row)
    case SetCurrent(flags) => ExecSetCurrent(db, flags)
    case RewriteRevision(id) => CommitIf(id !in db.revisions, ImmutableContent, db)
    case DeleteRevision(id) => ExecDeleteRevision(db, id)
  }

  function ExecOperation(db: Db, stmt: OperationStmt): Outcome {
    match stmt
    case InsertOperation(id, row) => ExecInsertOperation(db, id, row)
    case SetDecision(id, decision) => ExecSetDecision(db, id, decision)
    case RewriteOperation(id) => CommitIf(id !in db.operations, ImmutableContent, db)
    case DeleteOperation(id) => ExecDeleteOperation(db, id)
  }

  function ExecRun(db: Db, stmt: RunStmt): Outcome {
    match stmt
    case InsertRun(id, row) => ExecInsertRun(db, id, row)
    case UpdateRun(id, s, result, error) => ExecUpdateRun(db, id, s, result, error)
    case DeleteRun(id) => ExecDeleteRun(db, id)
  }

  function ExecAttempt(db: Db, stmt: AttemptStmt): Outcome {
    match stmt
    case InsertAttempt(id, row) => ExecInsertAttempt(db, id, row)
    case UpdateAttempt(id, s, error) => ExecUpdateAttempt(db, id, s, error)
    case RewriteAttempt(id) => CommitIf(id !in db.attempts, ImmutableContent, db)
    case DeleteAttempt(id) => Committed(db.(attempts := db.attempts - {id}))
  }

  function ExecUndo(db: Db, stmt: UndoStmt): Outcome {
    match stmt
    case InsertUndo(id, row) => ExecInsertUndo(db, id, row)
    case UpdateUndo(id, s, result, error) => ExecUpdateUndo(db, id, s, result, error)
    case DeleteUndo(id) => Committed(db.(undos := db.undos - {id}))
  }

  function Exec(v: Schema, db: Db, stmt: Stmt): Outcome {
    match stmt
    case OnBundle(s) => ExecBundle(v, db, s)
    case OnSnapshot(s) => ExecSnapshot(db, s)
    case OnRevision(s) => ExecRevision(db, s)
    case OnOperation(s) => ExecOperation(db, s)
    case OnRun(s) => ExecRun(db, s)
    case OnAttempt(s) => ExecAttempt(db, s)
    case OnUndo(s) => ExecUndo(db, s)
  }

  function After(v: Schema, db: Db, stmt: Stmt): Db {
    match Exec(v, db, stmt)
    case Committed(next) => next
    case Aborted(_) => db
  }

  /** A run may meet upgrades and downgrades: every step names the trigger in force. */
  datatype Step = Step(schema: Schema, stmt: Stmt)

  /** The states of a run: the empty store first, then the store after each step. */
  ghost predicate History(steps: seq<Step>, states: seq<Db>) {
    && |states| == |steps| + 1
    && states[0] == EMPTY_DB
    && forall k {:trigger steps[k]} | 0 <= k < |steps| ::
         states[k + 1] == After(steps[k].schema, states[k], steps[k].stmt)
  }

  function Replay(steps: seq<Step>): (states: seq<Db>)
    ensures History(steps, states)
  {
    if steps == [] then [EMPTY_DB]
    else
      var n := |steps| - 1;
      var before := Replay(steps[..n]);
      before + [After(steps[n].schema, before[n], steps[n].stmt)]
  }
}
