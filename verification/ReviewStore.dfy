/** The store as it runs: tables updated in place, one method per statement. A statement checks its
    BEFORE triggers, writes, checks indexes and foreign keys, and undoes its writes when one fails. */
module ReviewStore {
  import opened Options
  import opened ReviewSchema
  import opened ReviewTriggers
  import opened ReviewStatements

  /** A method that ends in state `after` with abort reason `why` did what `outcome` says. */
  ghost predicate Did(before: Db, outcome: Outcome, why: Option<Reason>, after: Db) {
    match outcome
    case Committed(db) => why == None && after == db
    case Aborted(reason) => why == Some(reason) && after == before
  }

  class Store {
    var bundles: map<Id, Bundle>
    var snapshots: map<Id, Snapshot>
    var revisions: map<Id, Revision>
    var operations: map<Id, Operation>
    var runs: map<Id, ApplyRun>
    var attempts: map<Id, Attempt>
    var undos: map<Id, UndoRun>

    function Rows(): Db
      reads this
    {
      Db(bundles, snapshots, revisions, operations, runs, attempts, undos)
    }

    constructor ()
      ensures Rows() == EMPTY_DB
    {
      bundles, snapshots, revisions, operations := map[], map[], map[], map[];
      runs, attempts, undos := map[], map[], map[];
    }

    method InsertBundle(id: Id, row: Bundle) returns (why: Option<Reason>)
      modifies this`bundles
      ensures Did(old(Rows()), ExecInsertBundle(old(Rows()), id, row), why, Rows())
    {
      if id in bundles {
        return Some(UniqueViolation);
      }
      var saved := bundles;
      bundles := bundles[id := row];
      if !UniqueActiveKey(bundles) {
        bundles := saved;
        return Some(UniqueViolation);
      }
      return None;
    }

    method UpdateBundle(v: Schema, id: Id, patch: BundlePatch) returns (why: Option<Reason>)
      modifies this`bundles
      ensures Did(old(Rows()), ExecUpdateBundle(v, old(Rows()), id, patch), why, Rows())
    {
      if id !in bundles {
        return None;
      }
      var row := Patched(bundles[id], patch);
      if patch.state.Some? {
        if !Transition(v, bundles[id].state, row.state) {
          return Some(BadTransition);
        }
        if VisibleWithoutCurrent(Rows(), id, row.state) {
          return Some(VisibleNeedsCurrent);
        }
        if ApplyWithoutAccepted(Rows(), id, row.state) {
          return Some(ApplyNeedsAccepted);
        }
      }
      var saved := bundles;
      bundles := bundles[id := row];
      if !UniqueActiveKey(bundles) {
        bundles := saved;
        return Some(UniqueViolation);
      }
      return None;
    }

    method InsertSnapshot(id: Id, row: Snapshot) returns (why: Option<Reason>)
      modifies this`snapshots
      ensures Did(old(Rows()), ExecInsertSnapshot(old(Rows()), id, row), why, Rows())
    {
      if id in snapshots {
        return Some(UniqueViolation);
      }
      var saved := snapshots;
      snapshots := snapshots[id := row];
      why := if !UniqueSnapshots(snapshots) then Some(UniqueViolation)
             else if row.bundle !in bundles then Some(ForeignKeyViolation)
             else None;
      if why.Some? {
        snapshots := saved;
      }
    }

    method DeleteSnapshot(id: Id) returns (why: Option<Reason>)
      modifies this`snapshots
      ensures Did(old(Rows()), ExecDeleteSnapshot(old(Rows()), id), why, Rows())
    {
      if id !in snapshots {
        return None;
      }
      if (exists r :: r in revisions && revisions[r].snapshot == id)
         || (exists o :: o in operations && operations[o].snapshot == id) {
        return Some(ForeignKeyViolation);
      }
      snapshots := snapshots - {id};
      return None;
    }

    method InsertRevision(id: Id, row: Revision) returns (why: Option<Reason>)
      modifies this`revisions
      ensures Did(old(Rows()), ExecInsertRevision(old(Rows()), id, row), why, Rows())
    {
      if RevisionSnapshotElsewhere(Rows(), row) {
        return Some(SnapshotElsewhere);
      }
      if id in revisions {
        return Some(UniqueViolation);
      }
      var saved := revisions;
      revisions := revisions[id := row];
      why := if !UniqueRevisions(revisions) then Some(UniqueViolation)
             else if row.bundle !in bundles || row.snapshot !in snapshots then Some(ForeignKeyViolation)
             else None;
      if why.Some? {
        revisions := saved;
      }
    }

    /** One row of an UPDATE of is_current, with its triggers. After an abort the row may be half
        written: the caller owns the statement and rolls it back. */
    method WriteCurrentRow(id: Id, flag: bool) returns (why: Option<Reason>)
      modifies this`revisions
      ensures match SetCurrentRow(old(Rows()), id, flag)
              case Committed(db) => why == None && Rows() == db
              case Aborted(reason) => why == Some(reason)
    {
      if id !in revisions {
        return None;
      }
      var prev := revisions[id];
      var next := prev.(isCurrent := flag);
      if CurrentFrozen(Rows(), next.bundle) {
        return Some(FrozenCurrent);
      }
      if ClearsWithoutSuccessor(Rows(), prev, next) {
        return Some(CurrentRequired);
      }
      revisions := revisions[id := next];
      if !UniqueRevisions(revisions) {
        return Some(UniqueViolation);
      }
      if Promotes(Rows(), prev, next) {
        if (exists i :: i in revisions && SucceedsTo(prev, revisions[i])) && CurrentFrozen(Rows(), prev.bundle) {
          return Some(FrozenCurrent);
        }
        revisions := Promoted(revisions, prev);
        if !UniqueRevisions(revisions) {
          return Some(UniqueViolation);
        }
      }
      return None;
    }

    method SetCurrent(flags: seq<(Id, bool)>) returns (why: Option<Reason>)
      modifies this`revisions
      ensures Did(old(Rows()), ExecSetCurrent(old(Rows()), flags), why, Rows())
    {
      var saved := revisions;
      var k := 0;
      while k < |flags|
        invariant 0 <= k <= |flags|
        invariant ExecSetCurrent(Rows(), flags[k..]) == ExecSetCurrent(old(Rows()), flags)
      {
        assert flags[k..][1..] == flags[k + 1..];
        why := WriteCurrentRow(flags[k].0, flags[k].1);
        if why.Some? {
          revisions := saved;
          return;
        }
        k := k + 1;
      }
      return None;
    }

    method DeleteRevision(id: Id) returns (why: Option<Reason>)
      modifies this`revisions, this`operations
      ensures Did(old(Rows()), ExecDeleteRevision(old(Rows()), id), why, Rows())
    {
      if id !in revisions {
        return None;
      }
      if DeletesCurrent(Rows(), revisions[id]) {
        return Some(CurrentRequired);
      }
      var doomed := set o | o in operations && operations[o].revision == id;
      if (exists a :: a in runs && runs[a].revision == id)
         || (exists a :: a in attempts && attempts[a].operation in doomed) {
        return Some(ForeignKeyViolation);
      }
      revisions := revisions - {id};
      operations := operations - doomed;
      return None;
    }

    method InsertOperation(id: Id, row: Operation) returns (why: Option<Reason>)
      modifies this`operations
      ensures Did(old(Rows()), ExecInsertOperation(old(Rows()), id, row), why, Rows())
    {
      if OperationSnapshotElsewhere(Rows(), row) {
        return Some(SnapshotElsewhere);
      }
      if id in operations {
        return Some(UniqueViolation);
      }
      var saved := operations;
      operations := operations[id := row];
      why := if !UniqueOperations(operations) then Some(UniqueViolation)
             else if row.revision !in revisions || row.snapshot !in snapshots then Some(ForeignKeyViolation)
             else None;
      if why.Some? {
        operations := saved;
      }
    }

    method SetDecision(id: Id, decision: Decision) returns (why: Option<Reason>)
      modifies this`operations
      ensures Did(old(Rows()), ExecSetDecision(old(Rows()), id, decision), why, Rows())
    {
      if id !in operations {
        return None;
      }
      if DecisionFrozen(Rows(), operations[id]) {
        return Some(FrozenDecision);
      }
      operations := operations[id := operations[id].(decision := decision)];
      return None;
    }

    method DeleteOperation(id: Id) returns (why: Option<Reason>)
      modifies this`operations
      ensures Did(old(Rows()), ExecDeleteOperation(old(Rows()), id), why, Rows())
    {
      if id !in operations {
        return None;
      }
      if exists a :: a in attempts && attempts[a].operation == id {
        return Some(ForeignKeyViolation);
      }
      operations := operations - {id};
      return None;
    }

    method InsertRun(id: Id, row: ApplyRun) returns (why: Option<Reason>)
      modifies this`runs
      ensures Did(old(Rows()), ExecInsertRun(old(Rows()), id, row), why, Rows())
    {
      if RunRevisionElsewhere(Rows(), row) {
        return Some(RunRevisionOfOtherBundle);
      }
      if id in runs {
        return Some(UniqueViolation);
      }
      var saved := runs;
      runs := runs[id := row];
      why := if !UniqueRuns(runs) then Some(UniqueViolation)
             else if row.bundle !in bundles || row.revision !in revisions then Some(ForeignKeyViolation)
             else None;
      if why.Some? {
        runs := saved;
      }
    }

    method UpdateRun(id: Id, state: RunState, result: Option<string>, error: Option<string>)
      returns (why: Option<Reason>)
      modifies this`runs
      ensures Did(old(Rows()), ExecUpdateRun(old(Rows()), id, state, result, error), why, Rows())
    {
      if id !in runs {
        return None;
      }
      var saved := runs;
      runs := runs[id := runs[id].(state := state, result := result, error := error)];
      if !UniqueRuns(runs) {
        runs := saved;
        return Some(UniqueViolation);
      }
      return None;
    }

    method DeleteRun(id: Id) returns (why: Option<Reason>)
      modifies this`runs, this`attempts
      ensures Did(old(Rows()), ExecDeleteRun(old(Rows()), id), why, Rows())
    {
      if id !in runs {
        return None;
      }
      if exists u :: u in undos && undos[u].sourceRun == id {
        return Some(ForeignKeyViolation);
      }
      var cascaded := set a | a in attempts && attempts[a].run == id;
      runs := runs - {id};
      attempts := attempts - cascaded;
      return None;
    }

    method InsertAttempt(id: Id, row: Attempt) returns (why: Option<Reason>)
      modifies this`attempts
      ensures Did(old(Rows()), ExecInsertAttempt(old(Rows()), id, row), why, Rows())
    {
      if AttemptOtherRevision(Rows(), row) {
        return Some(AttemptOfOtherRevision);
      }
      if id in attempts {
        return Some(UniqueViolation);
      }
      var saved := attempts;
      attempts := attempts[id := row];
      why := if !UniqueAttempts(attempts) then Some(UniqueViolation)
             else if row.run !in runs || row.operation !in operations then Some(ForeignKeyViolation)
             else None;
      if why.Some? {
        attempts := saved;
      }
    }

    method UpdateAttempt(id: Id, state: AttemptState, error: Option<string>) returns (why: Option<Reason>)
      modifies this`attempts
      ensures Did(old(Rows()), ExecUpdateAttempt(old(Rows()), id, state, error), why, Rows())
    {
      if id in attempts {
        attempts := attempts[id := attempts[id].(state := state, error := error)];
      }
      return None;
    }

    method InsertUndo(id: Id, row: UndoRun) returns (why: Option<Reason>)
      modifies this`undos
      ensures Did(old(Rows()), ExecInsertUndo(old(Rows()), id, row), why, Rows())
    {
      if id in undos {
        return Some(UniqueViolation);
      }
      var saved := undos;
      undos := undos[id := row];
      why := if !UniqueUndos(undos) then Some(UniqueViolation)
             else if row.bundle !in bundles || row.sourceRun !in runs then Some(ForeignKeyViolation)
             else None;
      if why.Some? {
        undos := saved;
      }
    }

    method UpdateUndo(id: Id, state: UndoState, result: Option<string>, error: Option<string>)
      returns (why: Option<Reason>)
      modifies this`undos
      ensures Did(old(Rows()), ExecUpdateUndo(old(Rows()), id, state, result, error), why, Rows())
    {
      if id !in undos {
        return None;
      }
      var saved := undos;
      undos := undos[id := undos[id].(state := state, result := result, error := error)];
      if !UniqueUndos(undos) {
        undos := saved;
        return Some(UniqueViolation);
      }
      return None;
    }

    method OnBundle(v: Schema, stmt: BundleStmt) returns (why: Option<Reason>)
      modifies this`bundles
      ensures Did(old(Rows()), ExecBundle(v, old(Rows()), stmt), why, Rows())
    {
      match stmt
      case InsertBundle(id, row) => why := InsertBundle(id, row);
      case UpdateBundle(id, patch) => why := UpdateBundle(v, id, patch);
    }

    method OnSnapshot(stmt: SnapshotStmt) returns (why: Option<Reason>)
      modifies this`snapshots
      ensures Did(old(Rows()), ExecSnapshot(old(Rows()), stmt), why, Rows())
    {
      match stmt
      case InsertSnapshot(id, row) => why := InsertSnapshot(id, row);
      case RewriteSnapshot(id) => why := if id in snapshots then Some(ImmutableContent) else None;
      case DeleteSnapshot(id) => why := DeleteSnapshot(id);
    }

    method OnRevision(stmt: RevisionStmt) returns (why: Option<Reason>)
      modifies this`revisions, this`operations
      ensures Did(old(Rows()), ExecRevision(old(Rows()), stmt), why, Rows())
    {
      match stmt
      case InsertRevision(id, row) => why := InsertRevision(id, row);
      case SetCurrent(flags) => why := SetCurrent(flags);
      case RewriteRevision(id) => why := if id in revisions then Some(ImmutableContent) else None;
      case DeleteRevision(id) => why := DeleteRevision(id);
    }

    method OnOperation(stmt: OperationStmt) returns (why: Option<Reason>)
      modifies this`operations
      ensures Did(old(Rows()), ExecOperation(old(Rows()), stmt), why, Rows())
    {
      match stmt
      case InsertOperation(id, row) => why := InsertOperation(id, row);
      case SetDecision(id, decision) => why := SetDecision(id, decision);
      case RewriteOperation(id) => why := if id in operations then Some(ImmutableContent) else None;
      case DeleteOperation(id) => why := DeleteOperation(id);
    }

    method OnRun(stmt: RunStmt) returns (why: Option<Reason>)
      modifies this`runs, this`attempts
      ensures Did(old(Rows()), ExecRun(old(Rows()), stmt), why, Rows())
    {
      match stmt
      case InsertRun(id, row) => why := InsertRun(id, row);
      case UpdateRun(id, state, result, error) => why := UpdateRun(id, state, result, error);
      case DeleteRun(id) => why := DeleteRun(id);
    }

    method OnAttempt(stmt: AttemptStmt) returns (why: Option<Reason>)
      modifies this`attempts
      ensures Did(old(Rows()), ExecAttempt(old(Rows()), stmt), why, Rows())
    {
      match stmt
      case InsertAttempt(id, row) => why := InsertAttempt(id, row);
      case UpdateAttempt(id, state, error) => why := UpdateAttempt(id, state, error);
      case RewriteAttempt(id) => why := if id in attempts then Some(ImmutableContent) else None;
      case DeleteAttempt(id) => attempts := attempts - {id}; why := None;
    }

    method OnUndo(stmt: UndoStmt) returns (why: Option<Reason>)
      modifies this`undos
      ensures Did(old(Rows()), ExecUndo(old(Rows()), stmt), why, Rows())
    {
      match stmt
      case InsertUndo(id, row) => why := InsertUndo(id, row);
      case UpdateUndo(id, state, result, error) => why := UpdateUndo(id, state, result, error);
      case DeleteUndo(id) => undos := undos - {id}; why := None;
    }

    /** Any statement, under the given trigger version. */
    method Execute(v: Schema, stmt: Stmt) returns (why: Option<Reason>)
      modifies this
      ensures Did(old(Rows()), Exec(v, old(Rows()), stmt), why, Rows())
      ensures Rows() == After(v, old(Rows()), stmt)
    {
      match stmt
      case OnBundle(s) => why := OnBundle(v, s);
      case OnSnapshot(s) => why := OnSnapshot(s);
      case OnRevision(s) => why := OnRevision(s);
      case OnOperation(s) => why := OnOperation(s);
      case OnRun(s) => why := OnRun(s);
      case OnAttempt(s) => why := OnAttempt(s);
      case OnUndo(s) => why := OnUndo(s);
    }

    /** Playing a run on a new store visits exactly the states of its history. */
    method Play(steps: seq<Step>) returns (ghost states: seq<Db>)
      requires Rows() == EMPTY_DB
      modifies this
      ensures History(steps, states) && Rows() == states[|steps|]
    {
      states := [Rows()];
      for k := 0 to |steps|
        invariant History(steps[..k], states) && Rows() == states[k]
      {
        var why := Execute(steps[k].schema, steps[k].stmt);
        states := states + [Rows()];
        assert steps[..k + 1] == steps[..k] + [steps[k]];
      }
      assert steps[..|steps|] == steps;
    }
  }
}
