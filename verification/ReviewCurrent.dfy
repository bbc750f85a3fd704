/** The current revision of a bundle, statement by statement: outside `preparing` it is never
    lost, and it only ever moves to the row numbered one higher whose parent it is. */
module ReviewCurrent {
  import opened ReviewSchema
  import opened ReviewTriggers
  import opened ReviewStatements
  import opened ReviewInvariants

  ghost predicate IsCurrent(db: Db, b: Id, r: Id) {
    r in db.revisions && db.revisions[r].bundle == b && db.revisions[r].isCurrent
  }

  ghost function CurrentIds(db: Db, b: Id): set<Id> {
    set r | r in db.revisions && db.revisions[r].bundle == b && db.revisions[r].isCurrent
  }

  /** b has left `preparing`, which no transition enters again. */
  ghost predicate Settled(db: Db, b: Id) {
    b in db.bundles && !db.bundles[b].state.Preparing?
  }

  ghost predicate Engaged(s: BundleState) {
    s.Applying? || s.Applied? || s.PartiallyApplied? || s.Failed?
  }

  /** The row after r: numbered one higher, with r as its parent, and the only such row. */
  ghost predicate NextRow(t: map<Id, Revision>, r: Id, s: Id) {
    && r in t && s in t && SucceedsTo(t[r], t[s])
    && forall i :: i in t && SucceedsTo(t[r], t[i]) ==> i == s
  }

  /** Rows of the table, each followed by the row after it. */
  ghost predicate Chain(t: map<Id, Revision>, ids: seq<Id>) {
    && ids != [] && ids[0] in t
    && forall i | 0 <= i < |ids| - 1 :: NextRow(t, ids[i], ids[i + 1])
  }

  /** The current marker of b goes from the first to the last row of a chain in db, and the row that
      gets it is otherwise unchanged. */
  ghost predicate MarkerMoves(db: Db, next: Db, b: Id, ids: seq<Id>) {
    && Chain(db.revisions, ids) && IsCurrent(db, b, ids[0])
    && var r := ids[|ids| - 1];
       IsCurrent(next, b, r) && r in db.revisions && next.revisions[r] == db.revisions[r].(isCurrent := true)
  }

  lemma {:induction false} ChainNumbers(t: map<Id, Revision>, ids: seq<Id>, i: nat)
    requires Chain(t, ids) && i < |ids|
    ensures ids[i] in t && t[ids[i]].number == t[ids[0]].number + i && t[ids[i]].bundle == t[ids[0]].bundle
  {
    if i > 0 {
      ChainNumbers(t, ids, i - 1);
      assert NextRow(t, ids[i - 1], ids[i]);
    }
  }

  lemma UniqueNextRow(t: map<Id, Revision>, r: Id, s: Id)
    requires UniqueNumber(t) && r in t && s in t && SucceedsTo(t[r], t[s])
    ensures NextRow(t, r, s)
  {
  }

  lemma NextRowIgnoresFlags(db: Db, mid: Db, r: Id, s: Id)
    requires SameButFlags(db, mid) && NextRow(mid.revisions, r, s)
    ensures NextRow(db.revisions, r, s)
  {
    forall i | i in db.revisions && SucceedsTo(db.revisions[r], db.revisions[i]) ensures i == s {
      assert SucceedsTo(mid.revisions[r], mid.revisions[i]);
    }
  }

  /** Two updates of is_current one after the other move the marker along one chain. */
  lemma MovesCompose(db: Db, mid: Db, next: Db, b: Id, p: seq<Id>, q: seq<Id>)
    requires MarkerMoves(db, mid, b, p) && MarkerMoves(mid, next, b, q) && p[|p| - 1] == q[0]
    requires SameButFlags(db, mid)
    ensures MarkerMoves(db, next, b, p + q[1..]) && (p + q[1..])[0] == p[0]
  {
    var ids := p + q[1..];
    forall i | 0 <= i < |ids| - 1 ensures NextRow(db.revisions, ids[i], ids[i + 1]) {
      if i >= |p| - 1 {
        var n := i - (|p| - 1);
        assert ids[i] == q[n] && ids[i + 1] == q[n + 1];
        NextRowIgnoresFlags(db, mid, q[n], q[n + 1]);
      }
    }
    assert ids[|ids| - 1] == q[|q| - 1];
  }

  lemma OneCurrent(db: Db, b: Id, r: Id)
    requires UniqueCurrent(db.revisions) && IsCurrent(db, b, r)
    ensures CurrentIds(db, b) == {r} && |CurrentIds(db, b)| == 1
  {
    forall i | i in CurrentIds(db, b) ensures i == r {
    }
    assert CurrentIds(db, b) == {r};
  }

  // ----- one row of an UPDATE of is_current -----

  lemma RowOfOtherBundle(db: Db, id: Id, flag: bool, b: Id, r: Id)
    requires IsCurrent(db, b, r) && SetCurrentRow(db, id, flag).Committed?
    requires id in db.revisions && db.revisions[id].bundle != b
    ensures IsCurrent(SetCurrentRow(db, id, flag).db, b, r)
  {
  }

  lemma RowNotCurrent(db: Db, id: Id, flag: bool, b: Id, r: Id)
    requires IsCurrent(db, b, r) && SetCurrentRow(db, id, flag).Committed?
    requires id in db.revisions && db.revisions[id].bundle == b && (id != r || flag)
    requires UniqueCurrent(db.revisions)
    ensures IsCurrent(SetCurrentRow(db, id, flag).db, b, r)
  {
  }

  /** Clearing the current row of a settled bundle promotes its successor in the same step. */
  lemma RowCleared(db: Db, b: Id, r: Id) returns (next: Id)
    requires Settled(db, b) && IsCurrent(db, b, r) && UniqueNumber(db.revisions)
    requires SetCurrentRow(db, r, false).Committed?
    ensures next in db.revisions && SucceedsTo(db.revisions[r], db.revisions[next])
    ensures IsCurrent(SetCurrentRow(db, r, false).db, b, next)
  {
    var row := db.revisions[r];
    assert !ClearsWithoutSuccessor(db, row, row.(isCurrent := false));
    next :| next in db.revisions && SucceedsTo(row, db.revisions[next]) && !db.revisions[next].isCurrent;
  }

  /** One written row leaves the marker of a settled bundle where it is or moves it to the next row. */
  lemma RowMoves(db: Db, id: Id, flag: bool, b: Id, r: Id) returns (ids: seq<Id>)
    requires Settled(db, b) && IsCurrent(db, b, r) && UniqueRevisions(db.revisions)
    requires SetCurrentRow(db, id, flag).Committed?
    ensures MarkerMoves(db, SetCurrentRow(db, id, flag).db, b, ids) && ids[0] == r
    ensures |ids| == if id == r && !flag then 2 else 1
  {
    SetCurrentRowKeeps(db, id, flag);
    ids := [r];
    if id in db.revisions {
      if db.revisions[id].bundle != b {
        RowOfOtherBundle(db, id, flag, b, r);
      } else if id != r || flag {
        RowNotCurrent(db, id, flag, b, r);
      } else {
        var s := RowCleared(db, b, r);
        UniqueNextRow(db.revisions, r, s);
        ids := [r, s];
      }
    }
  }

  // ----- whole statements -----

  /** A multi-row UPDATE of is_current, in any row order, either aborts or moves the current
      marker of a settled bundle along a chain of rows that were there before. */
  lemma {:induction false} SetCurrentMoves(db: Db, flags: seq<(Id, bool)>, b: Id, r: Id) returns (ids: seq<Id>)
    requires Settled(db, b) && IsCurrent(db, b, r) && UniqueRevisions(db.revisions)
    requires ExecSetCurrent(db, flags).Committed?
    ensures MarkerMoves(db, ExecSetCurrent(db, flags).db, b, ids) && ids[0] == r
    decreases flags
  {
    if flags == [] {
      ids := [r];
    } else {
      var mid := SetCurrentRow(db, flags[0].0, flags[0].1).db;
      SetCurrentRowKeeps(db, flags[0].0, flags[0].1);
      var p := RowMoves(db, flags[0].0, flags[0].1, b, r);
      var q := SetCurrentMoves(mid, flags[1..], b, p[|p| - 1]);
      MovesCompose(db, mid, ExecSetCurrent(db, flags).db, b, p, q);
      ids := p + q[1..];
    }
  }

  /** Whatever rows it names and in whatever order, the UPDATE aborts or leaves exactly one. */
  lemma MultiRowUpdateKeepsOne(db: Db, flags: seq<(Id, bool)>, b: Id)
    requires Settled(db, b) && HasCurrent(db, b) && UniqueRevisions(db.revisions)
    ensures ExecSetCurrent(db, flags).Committed? ==> |CurrentIds(ExecSetCurrent(db, flags).db, b)| == 1
  {
    if ExecSetCurrent(db, flags).Committed? {
      var r :| r in db.revisions && db.revisions[r].bundle == b && db.revisions[r].isCurrent;
      var ids := SetCurrentMoves(db, flags, b, r);
      SetCurrentKeeps(db, flags);
      OneCurrent(ExecSetCurrent(db, flags).db, b, ids[|ids| - 1]);
    }
  }

  ghost predicate FrozenRowsKept(db: Db, next: Db, b: Id) {
    forall r :: r in db.revisions && db.revisions[r].bundle == b ==>
                  r in next.revisions && next.revisions[r] == db.revisions[r]
  }

  lemma WriteFlagFrozen(db: Db, id: Id, flag: bool, b: Id)
    requires CurrentFrozen(db, b) && id in db.revisions && WriteFlag(db, id, flag).Committed?
    ensures var next := WriteFlag(db, id, flag).db; next.bundles == db.bundles && FrozenRowsKept(db, next, b)
    ensures db.revisions[id].bundle != b
  {
  }

  lemma PromoteFrozen(db: Db, prev: Revision, b: Id)
    requires prev.bundle != b && PromoteSuccessor(db, prev).Committed?
    ensures var next := PromoteSuccessor(db, prev).db; next.bundles == db.bundles && FrozenRowsKept(db, next, b)
  {
  }

  lemma RowFrozen(db: Db, id: Id, flag: bool, b: Id)
    requires CurrentFrozen(db, b) && SetCurrentRow(db, id, flag).Committed?
    ensures FrozenRowsKept(db, SetCurrentRow(db, id, flag).db, b)
    ensures CurrentFrozen(SetCurrentRow(db, id, flag).db, b)
  {
    if id in db.revisions {
      var prev := db.revisions[id];
      var mid := WriteFlag(db, id, flag).db;
      WriteFlagFrozen(db, id, flag, b);
      if Promotes(mid, prev, prev.(isCurrent := flag)) {
        PromoteFrozen(mid, prev, b);
      }
    }
  }

  lemma {:induction false} SetCurrentFrozen(db: Db, flags: seq<(Id, bool)>, b: Id)
    requires CurrentFrozen(db, b) && ExecSetCurrent(db, flags).Committed?
    ensures FrozenRowsKept(db, ExecSetCurrent(db, flags).db, b)
    decreases flags
  {
    if flags != [] {
      RowFrozen(db, flags[0].0, flags[0].1, b);
      SetCurrentFrozen(SetCurrentRow(db, flags[0].0, flags[0].1).db, flags[1..], b);
    }
  }

  lemma DeleteRevisionMoves(db: Db, id: Id, b: Id, r: Id)
    requires Settled(db, b) && IsCurrent(db, b, r) && ExecDeleteRevision(db, id).Committed?
    ensures var next := ExecDeleteRevision(db, id).db;
            IsCurrent(next, b, r) && next.revisions[r] == db.revisions[r]
  {
    if id == r {
      assert DeletesCurrent(db, db.revisions[r]);
    }
  }

  lemma RevisionMoves(db: Db, stmt: RevisionStmt, b: Id, r: Id) returns (ids: seq<Id>)
    requires Settled(db, b) && IsCurrent(db, b, r) && UniqueRevisions(db.revisions)
    requires ExecRevision(db, stmt).Committed?
    ensures MarkerMoves(db, ExecRevision(db, stmt).db, b, ids) && ids[0] == r
    ensures CurrentFrozen(db, b) || !stmt.SetCurrent? ==> ids == [r]
  {
    ids := [r];
    if stmt.SetCurrent? {
      if CurrentFrozen(db, b) {
        SetCurrentFrozen(db, stmt.flags, b);
      } else {
        ids := SetCurrentMoves(db, stmt.flags, b, r);
      }
    } else if stmt.DeleteRevision? {
      DeleteRevisionMoves(db, stmt.id, b, r);
    }
  }

  lemma BundleTouches(v: Schema, db: Db, stmt: BundleStmt)
    requires ExecBundle(v, db, stmt).Committed?
    ensures var next := ExecBundle(v, db, stmt).db; next == db.(bundles := next.bundles)
  {
  }

  lemma SnapshotTouches(db: Db, stmt: SnapshotStmt)
    requires ExecSnapshot(db, stmt).Committed?
    ensures var next := ExecSnapshot(db, stmt).db; next == db.(snapshots := next.snapshots)
  {
  }

  lemma OperationTouches(db: Db, stmt: OperationStmt)
    requires ExecOperation(db, stmt).Committed?
    ensures var next := ExecOperation(db, stmt).db; next == db.(operations := next.operations)
  {
  }

  lemma RevisionTouches(db: Db, stmt: RevisionStmt)
    requires ExecRevision(db, stmt).Committed?
    ensures var next := ExecRevision(db, stmt).db;
            next == db.(revisions := next.revisions, operations := next.operations)
  {
    if stmt.SetCurrent? {
      SetCurrentKeeps(db, stmt.flags);
    }
  }

  lemma RunTouches(db: Db, stmt: RunStmt)
    requires ExecRun(db, stmt).Committed?
    ensures var next := ExecRun(db, stmt).db; next == db.(runs := next.runs, attempts := next.attempts)
  {
  }

  lemma AttemptTouches(db: Db, stmt: AttemptStmt)
    requires ExecAttempt(db, stmt).Committed?
    ensures var next := ExecAttempt(db, stmt).db; next == db.(attempts := next.attempts)
  {
  }

  lemma UndoTouches(db: Db, stmt: UndoStmt)
    requires ExecUndo(db, stmt).Committed?
    ensures var next := ExecUndo(db, stmt).db; next == db.(undos := next.undos)
  {
  }

  /** Only statements on a table change it, except that deleting a revision takes its operations along. */
  lemma Untouched(v: Schema, db: Db, stmt: Stmt)
    requires Exec(v, db, stmt).Committed?
    ensures var next := Exec(v, db, stmt).db;
            && (!stmt.OnBundle? ==> next.bundles == db.bundles)
            && (!stmt.OnRevision? ==> next.revisions == db.revisions)
            && (!stmt.OnOperation? && !stmt.OnRevision? ==> next.operations == db.operations)
            && (!stmt.OnRun? ==> next.runs == db.runs)
            && (!stmt.OnUndo? ==> next.undos == db.undos)
  {
    match stmt
    case OnBundle(s) => BundleTouches(v, db, s);
    case OnSnapshot(s) => SnapshotTouches(db, s);
    case OnRevision(s) => RevisionTouches(db, s);
    case OnOperation(s) => OperationTouches(db, s);
    case OnRun(s) => RunTouches(db, s);
    case OnAttempt(s) => AttemptTouches(db, s);
    case OnUndo(s) => UndoTouches(db, s);
  }

  lemma UpdateStaysSettled(v: Schema, db: Db, id: Id, p: BundlePatch, b: Id)
    requires Settled(db, b) && ExecUpdateBundle(v, db, id, p).Committed?
    ensures var next := ExecUpdateBundle(v, db, id, p).db;
            Settled(next, b) && (Engaged(db.bundles[b].state) ==> Engaged(next.bundles[b].state))
  {
  }

  lemma BundleStaysSettled(v: Schema, db: Db, stmt: BundleStmt, b: Id)
    requires Settled(db, b) && ExecBundle(v, db, stmt).Committed?
    ensures var next := ExecBundle(v, db, stmt).db;
            Settled(next, b) && (Engaged(db.bundles[b].state) ==> Engaged(next.bundles[b].state))
  {
    if stmt.UpdateBundle? {
      UpdateStaysSettled(v, db, stmt.id, stmt.patch, b);
    }
  }

  lemma SettledStays(v: Schema, db: Db, stmt: Stmt, b: Id)
    requires Settled(db, b) && Exec(v, db, stmt).Committed?
    ensures var next := Exec(v, db, stmt).db;
            Settled(next, b) && (Engaged(db.bundles[b].state) ==> Engaged(next.bundles[b].state))
  {
    Untouched(v, db, stmt);
    if stmt.OnBundle? {
      BundleStaysSettled(v, db, stmt.bundle, b);
    }
  }

  /** No statement takes the current revision from a settled bundle. Only an UPDATE of is_current
      moves it, along a chain of rows that were there before, and not once the review is over. */
  lemma CurrentMoves(v: Schema, db: Db, stmt: Stmt, b: Id, r: Id) returns (ids: seq<Id>)
    requires Settled(db, b) && IsCurrent(db, b, r) && UniqueRevisions(db.revisions)
    requires Exec(v, db, stmt).Committed?
    ensures MarkerMoves(db, Exec(v, db, stmt).db, b, ids) && ids[0] == r
    ensures CurrentFrozen(db, b) || !(stmt.OnRevision? && stmt.revision.SetCurrent?) ==> ids == [r]
  {
    ids := [r];
    Untouched(v, db, stmt);
    if stmt.OnRevision? {
      ids := RevisionMoves(db, stmt.revision, b, r);
    }
  }

  // ----- frozen operations -----

  lemma FrozenOperation(v: Schema, db: Db, stmt: Stmt, o: Id)
    requires Linked(db) && o in db.operations && CurrentFrozen(db, db.revisions[db.operations[o].revision].bundle)
    requires Exec(v, db, stmt).Committed? && o in Exec(v, db, stmt).db.operations
    ensures Exec(v, db, stmt).db.operations[o] == db.operations[o]
  {
    Untouched(v, db, stmt);
    if stmt.OnRevision? && stmt.revision.SetCurrent? {
      SetCurrentKeeps(db, stmt.revision.flags);
    }
  }
}
