module Options {
  datatype Option<+T> = None | Some(value: T)
}

/** The tables of the review store: one datatype per row, one map per table, and the
    unique constraints and partial unique indexes as predicates on a table. */
module ReviewSchema {
  import opened Options

  type Id = int

  datatype BundleState =
    | Preparing | Ready | NeedsAttention | Applying
    | Applied | PartiallyApplied | Failed | Discarded
  datatype Decision = Pending | Accepted | Rejected
  datatype RunState = RunPending | RunApplying | RunApplied | RunPartiallyApplied | RunFailed
  datatype AttemptState = AttemptPending | AttemptApplied | AttemptFailed | AttemptConflicted | AttemptSkipped
  datatype UndoState = UndoPending | Undoing | Undone | PartiallyUndone | UndoFailed
  datatype OperationKind =
    | SetTag | WriteLyrics | EmbedArt | RemoveArt | MoveFile | SetReplayGain | GroupingCorrection

  datatype Bundle = Bundle(
    logicalKey: string, title: string, state: BundleState, error: Option<string>, updatedAt: int)

  // Of the JSON payload, only the first item's file name and path are read by any statement.
  datatype Snapshot = Snapshot(bundle: Id, digest: string, filename: Option<string>, path: Option<string>)

  datatype Evidence = Evidence(title: Option<string>, artist: Option<string>, album: Option<string>)
  datatype Candidate = Candidate(
    source: Option<string>, ref: Option<string>, evidence: Option<Evidence>, confidence: Option<real>)

  datatype Revision = Revision(
    bundle: Id, snapshot: Id, number: int, parent: int, digest: string, isCurrent: bool, candidate: Candidate)

  datatype Content = Content(
    kind: OperationKind, field: string, targetType: string, targetId: int,
    currentValue: Option<string>, proposedValue: Option<string>)
  datatype Operation = Operation(
    revision: Id, snapshot: Id, position: int, content: Content, decision: Decision)

  datatype ApplyRun = ApplyRun(
    bundle: Id, revision: Id, idempotencyKey: string, state: RunState,
    manifest: string, result: Option<string>, error: Option<string>)
  datatype Attempt = Attempt(
    run: Id, operation: Id, attemptedValue: Option<string>, state: AttemptState, error: Option<string>)
  datatype UndoRun = UndoRun(
    bundle: Id, sourceRun: Id, idempotencyKey: string, state: UndoState,
    manifest: string, result: Option<string>, error: Option<string>)

  datatype Db = Db(
    bundles: map<Id, Bundle>,
    snapshots: map<Id, Snapshot>,
    revisions: map<Id, Revision>,
    operations: map<Id, Operation>,
    runs: map<Id, ApplyRun>,
    attempts: map<Id, Attempt>,
    undos: map<Id, UndoRun>)

  const EMPTY_DB := Db(map[], map[], map[], map[], map[], map[], map[])

  predicate ActiveBundle(s: BundleState) {
    s.Preparing? || s.Ready? || s.NeedsAttention? || s.Applying?
  }

  predicate Visible(s: BundleState) {
    s.Ready? || s.NeedsAttention? || s.Applying?
  }

  predicate ActiveRun(s: RunState) {
    s.RunPending? || s.RunApplying?
  }

  predicate ActiveUndo(s: UndoState) {
    s.UndoPending? || s.Undoing?
  }

  // ----- unique constraints and partial unique indexes -----

  predicate UniqueActiveKey(t: map<Id, Bundle>) {
    forall i, j | i in t && j in t && ActiveBundle(t[i].state) && ActiveBundle(t[j].state)
      && t[i].logicalKey == t[j].logicalKey :: i == j
  }

  predicate UniqueSnapshots(t: map<Id, Snapshot>) {
    forall i, j | i in t && j in t && t[i].bundle == t[j].bundle && t[i].digest == t[j].digest :: i == j
  }

  predicate UniqueNumber(t: map<Id, Revision>) {
    forall i, j | i in t && j in t && t[i].bundle == t[j].bundle && t[i].number == t[j].number :: i == j
  }

  predicate UniqueSuccessor(t: map<Id, Revision>) {
    forall i, j | i in t && j in t && t[i].bundle == t[j].bundle && t[i].parent == t[j].parent
      && t[i].digest == t[j].digest :: i == j
  }

  predicate UniqueCurrent(t: map<Id, Revision>) {
    forall i, j | i in t && j in t && t[i].bundle == t[j].bundle
      && t[i].isCurrent && t[j].isCurrent :: i == j
  }

  predicate UniqueRevisions(t: map<Id, Revision>) {
    UniqueNumber(t) && UniqueSuccessor(t) && UniqueCurrent(t)
  }

  predicate UniqueOperations(t: map<Id, Operation>) {
    forall i, j | i in t && j in t && t[i].revision == t[j].revision && t[i].position == t[j].position :: i == j
  }

  predicate UniqueRunKey(t: map<Id, ApplyRun>) {
    forall i, j | i in t && j in t && t[i].bundle == t[j].bundle
      && t[i].idempotencyKey == t[j].idempotencyKey :: i == j
  }

  predicate UniqueActiveRun(t: map<Id, ApplyRun>) {
    forall i, j | i in t && j in t && t[i].bundle == t[j].bundle
      && ActiveRun(t[i].state) && ActiveRun(t[j].state) :: i == j
  }

  predicate UniqueRuns(t: map<Id, ApplyRun>) {
    UniqueRunKey(t) && UniqueActiveRun(t)
  }

  predicate UniqueAttempts(t: map<Id, Attempt>) {
    forall i, j | i in t && j in t && t[i].run == t[j].run && t[i].operation == t[j].operation :: i == j
  }

  predicate UniqueUndoKey(t: map<Id, UndoRun>) {
    forall i, j | i in t && j in t && t[i].bundle == t[j].bundle
      && t[i].idempotencyKey == t[j].idempotencyKey :: i == j
  }

  predicate UniqueUndoSource(t: map<Id, UndoRun>) {
    forall i, j | i in t && j in t && t[i].sourceRun == t[j].sourceRun :: i == j
  }

  predicate UniqueActiveUndo(t: map<Id, UndoRun>) {
    forall i, j | i in t && j in t && t[i].bundle == t[j].bundle
      && ActiveUndo(t[i].state) && ActiveUndo(t[j].state) :: i == j
  }

  predicate UniqueUndos(t: map<Id, UndoRun>) {
    UniqueUndoKey(t) && UniqueUndoSource(t) && UniqueActiveUndo(t)
  }
}
