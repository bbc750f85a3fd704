/** What every single statement does, spelled out row by row: exactly when it goes through on a
    sound store, and the whole store it then leaves. */
module ReviewEffects {
  import opened Options
  import opened ReviewSchema
  import opened ReviewTriggers
  import opened ReviewStatements
  import opened ReviewInvariants
  import opened ReviewCurrent
  import opened ReviewTransitions

  /** The states that the partial unique indexes and the visibility trigger list. */
  lemma ListedStates(b: BundleState, r: RunState, u: UndoState)
    ensures ActiveBundle(b) <==> b == Preparing || b == Ready || b == NeedsAttention || b == Applying
    ensures Visible(b) <==> b == Ready || b == NeedsAttention || b == Applying
    ensures ActiveRun(r) <==> r == RunPending || r == RunApplying
    ensures ActiveUndo(u) <==> u == UndoPending || u == Undoing
  {
  }

  /** The bundle is preparing or under review. */
  predicate Open(s: BundleState) {
    s == Preparing || s == Ready || s == NeedsAttention
  }

  /** An aborted statement leaves the store as it was. */
  lemma AbortedLeavesNothing(v: Schema, db: Db, stmt: Stmt)
    ensures Exec(v, db, stmt).Committed? ==> Exec(v, db, stmt) == Committed(After(v, db, stmt))
    ensures Exec(v, db, stmt).Aborted? ==> After(v, db, stmt) == db
  {
  }

  // ----- bundles -----

  lemma KeyFreeIff(db: Db, id: Id, row: Bundle)
    requires UniqueActiveKey(db.bundles)
    ensures UniqueActiveKey(db.bundles[id := row])
       <==> (ActiveBundle(row.state) ==> KeyIsFree(db, id, row.logicalKey))
  {
    if ActiveBundle(row.state) {
      ActivatingIsUnique(db, id, row);
    }
  }

  lemma InsertBundleEffect(v: Schema, db: Db, id: Id, row: Bundle)
    requires Indexed(db)
    ensures var e := Exec(v, db, OnBundle(InsertBundle(id, row)));
            && (e.Committed? <==>
                 id !in db.bundles && (ActiveBundle(row.state) ==> KeyIsFree(db, id, row.logicalKey)))
            && (e.Committed? ==> e.db == db.(bundles := db.bundles[id := row]))
  {
    KeyFreeIff(db, id, row);
  }

  /** An operation accepted on the current revision. */
  ghost predicate AcceptedOnCurrent(db: Db, b: Id) {
    exists r, o :: IsCurrent(db, b, r) && o in db.operations
                   && db.operations[o].revision == r && db.operations[o].decision == Accepted
  }

  lemma AcceptedIff(db: Db, b: Id)
    ensures HasAccepted(db, b) <==> AcceptedOnCurrent(db, b)
    ensures HasCurrent(db, b) <==> exists r :: IsCurrent(db, b, r)
  {
    if HasAccepted(db, b) {
      var o :| o in db.operations && db.operations[o].decision == Accepted
               && db.operations[o].revision in db.revisions
               && db.revisions[db.operations[o].revision].bundle == b
               && db.revisions[db.operations[o].revision].isCurrent;
      assert IsCurrent(db, b, db.operations[o].revision);
    }
    if HasCurrent(db, b) {
      var r :| r in db.revisions && db.revisions[r].bundle == b && db.revisions[r].isCurrent;
      assert IsCurrent(db, b, r);
    }
  }

  /** What an UPDATE that names the state must pass. */
  ghost predicate StateAllowed(v: Schema, db: Db, id: Id, prev: BundleState, next: BundleState) {
    && Transition(v, prev, next)
    && (Visible(next) ==> exists r :: IsCurrent(db, id, r))
    && (next == Applying ==> AcceptedOnCurrent(db, id))
  }

  lemma UpdateBundleEffect(v: Schema, db: Db, id: Id, p: BundlePatch)
    requires Indexed(db) && id in db.bundles
    ensures var e := Exec(v, db, OnBundle(UpdateBundle(id, p)));
            var state := if p.state.Some? then p.state.value else db.bundles[id].state;
            && (e.Committed? <==>
                 && (p.state.Some? ==> StateAllowed(v, db, id, db.bundles[id].state, p.state.value))
                 && (ActiveBundle(state) ==> KeyIsFree(db, id, p.logicalKey)))
            && (e.Committed? ==>
                 e.db == db.(bundles := db.bundles[id := Bundle(p.logicalKey, p.title, state, p.error, p.updatedAt)]))
  {
    KeyFreeIff(db, id, Patched(db.bundles[id], p));
    AcceptedIff(db, id);
  }

  // ----- snapshots -----

  lemma InsertSnapshotEffect(v: Schema, db: Db, id: Id, row: Snapshot)
    requires Indexed(db)
    ensures var e := Exec(v, db, OnSnapshot(InsertSnapshot(id, row)));
            && (e.Committed? <==>
                 && id !in db.snapshots && row.bundle in db.bundles
                 && forall s :: s in db.snapshots && db.snapshots[s].bundle == row.bundle ==>
                      db.snapshots[s].digest != row.digest)
            && (e.Committed? ==> e.db == db.(snapshots := db.snapshots[id := row]))
  {
    var t := db.snapshots[id := row];
    if id !in db.snapshots && UniqueSnapshots(t) {
      forall s | s in db.snapshots && db.snapshots[s].bundle == row.bundle
        ensures db.snapshots[s].digest != row.digest
      {
        assert s in t && id in t;
      }
    }
  }

  lemma DeleteSnapshotEffect(v: Schema, db: Db, id: Id)
    requires id in db.snapshots
    ensures var e := Exec(v, db, OnSnapshot(DeleteSnapshot(id)));
            && (e.Committed? <==>
                 && (forall r :: r in db.revisions ==> db.revisions[r].snapshot != id)
                 && (forall o :: o in db.operations ==> db.operations[o].snapshot != id))
            && (e.Committed? ==> e.db == db.(snapshots := db.snapshots - {id}))
  {
  }

  // ----- revisions -----

  lemma InsertRevisionEffect(v: Schema, db: Db, id: Id, row: Revision)
    requires Linked(db) && Indexed(db)
    ensures var e := Exec(v, db, OnRevision(InsertRevision(id, row)));
            && (e.Committed? <==>
                 && id !in db.revisions
                 && row.snapshot in db.snapshots && db.snapshots[row.snapshot].bundle == row.bundle
                 && forall r :: r in db.revisions && db.revisions[r].bundle == row.bundle ==>
                      && db.revisions[r].number != row.number
                      && (db.revisions[r].parent == row.parent ==> db.revisions[r].digest != row.digest)
                      && !(db.revisions[r].isCurrent && row.isCurrent))
            && (e.Committed? ==> e.db == db.(revisions := db.revisions[id := row]))
  {
    var t := db.revisions[id := row];
    if id !in db.revisions && UniqueRevisions(t) {
      forall r | r in db.revisions && db.revisions[r].bundle == row.bundle
        ensures db.revisions[r].number != row.number && !(db.revisions[r].isCurrent && row.isCurrent)
        ensures db.revisions[r].parent == row.parent ==> db.revisions[r].digest != row.digest
      {
        assert r in t && id in t;
      }
    }
  }

  ghost predicate OtherIsCurrent(db: Db, r: Id)
    requires r in db.revisions
  {
    exists i :: i != r && IsCurrent(db, db.revisions[r].bundle, i)
  }

  lemma FlaggedIsUnique(db: Db, r: Id, flag: bool)
    requires UniqueRevisions(db.revisions) && r in db.revisions
    ensures UniqueRevisions(db.revisions[r := db.revisions[r].(isCurrent := flag)])
       <==> (flag ==> !OtherIsCurrent(db, r))
  {
    var t := db.revisions[r := db.revisions[r].(isCurrent := flag)];
    if OtherIsCurrent(db, r) {
      var i :| i != r && IsCurrent(db, db.revisions[r].bundle, i);
      assert i in t && t[i].isCurrent && t[i].bundle == t[r].bundle;
    }
    if flag && !OtherIsCurrent(db, r) {
      forall i | i in t && i != r && t[i].bundle == t[r].bundle ensures !t[i].isCurrent {
        assert !IsCurrent(db, db.revisions[r].bundle, i);
      }
    }
  }

  /** SET is_current = 1 goes through exactly while the bundle is open and no other row of it is
      current. The row then is current, and nothing else has changed. */
  lemma SetMarkerEffect(v: Schema, db: Db, r: Id)
    requires Linked(db) && Indexed(db) && r in db.revisions
    ensures var e := Exec(v, db, OnRevision(SetCurrent([(r, true)])));
            && (e.Committed? <==> Open(db.bundles[db.revisions[r].bundle].state) && !OtherIsCurrent(db, r))
            && (e.Committed? ==>
                 e.db == db.(revisions := db.revisions[r := db.revisions[r].(isCurrent := true)]))
  {
    assert RevisionOwned(db, db.revisions[r]);
    FlaggedIsUnique(db, r, true);
    SingleRow(db, r, true);
  }

  /** SET is_current = 0 on a row that is not current, or in a preparing bundle, goes through exactly
      while the bundle is open and writes just that. */
  lemma ClearMarkerEffect(v: Schema, db: Db, r: Id)
    requires Linked(db) && Indexed(db) && r in db.revisions
    requires !db.revisions[r].isCurrent || db.bundles[db.revisions[r].bundle].state == Preparing
    ensures var e := Exec(v, db, OnRevision(SetCurrent([(r, false)])));
            && (e.Committed? <==> Open(db.bundles[db.revisions[r].bundle].state))
            && (e.Committed? ==>
                 e.db == db.(revisions := db.revisions[r := db.revisions[r].(isCurrent := false)]))
  {
    assert RevisionOwned(db, db.revisions[r]);
    FlaggedIsUnique(db, r, false);
    SingleRow(db, r, false);
  }

  lemma ClosedMarkerStays(v: Schema, db: Db, r: Id, flag: bool)
    requires Linked(db) && r in db.revisions && !Open(db.bundles[db.revisions[r].bundle].state)
    ensures Exec(v, db, OnRevision(SetCurrent([(r, flag)]))).Aborted?
  {
    assert RevisionOwned(db, db.revisions[r]);
    SingleRow(db, r, flag);
  }

  lemma SingleRow(db: Db, r: Id, flag: bool)
    ensures ExecSetCurrent(db, [(r, flag)]) == SetCurrentRow(db, r, flag)
  {
    assert [(r, flag)][1..] == [];
    assert forall o :: ExecSetCurrent(o, []) == Committed(o);
  }

  lemma {:induction false} RowsInOrder(db: Db, first: seq<(Id, bool)>, rest: seq<(Id, bool)>)
    ensures var e := ExecSetCurrent(db, first);
            ExecSetCurrent(db, first + rest) == if e.Committed? then ExecSetCurrent(e.db, rest) else e
    decreases first
  {
    if first == [] {
      assert first + rest == rest;
    } else {
      var row := SetCurrentRow(db, first[0].0, first[0].1);
      assert (first + rest)[1..] == first[1..] + rest;
      if row.Committed? {
        RowsInOrder(row.db, first[1..], rest);
      }
    }
  }

  /** A multi-row UPDATE is its rows one after the other, up to the first that aborts; one without rows
      changes nothing. */
  lemma SetCurrentInOrder(v: Schema, db: Db, first: seq<(Id, bool)>, rest: seq<(Id, bool)>)
    ensures var e := Exec(v, db, OnRevision(SetCurrent(first)));
            Exec(v, db, OnRevision(SetCurrent(first + rest))) ==
            if e.Committed? then Exec(v, e.db, OnRevision(SetCurrent(rest))) else e
    ensures Exec(v, db, OnRevision(SetCurrent([]))) == Committed(db)
  {
    RowsInOrder(db, first, rest);
  }

  /** A revision can be deleted exactly when no apply run uses it and it is not the current one of a
      settled bundle; exactly its operations go with it. */
  lemma DeleteRevisionEffect(v: Schema, db: Db, r: Id)
    requires Linked(db) && r in db.revisions
    ensures var e := Exec(v, db, OnRevision(DeleteRevision(r)));
            && (e.Committed? <==>
                 && (forall a :: a in db.runs ==> db.runs[a].revision != r)
                 && !(db.revisions[r].isCurrent && db.bundles[db.revisions[r].bundle].state != Preparing))
            && (e.Committed? ==>
                 && e.db == db.(revisions := db.revisions - {r}, operations := e.db.operations)
                 && (forall o :: o in e.db.operations <==> o in db.operations && db.operations[o].revision != r)
                 && (forall o :: o in e.db.operations ==> e.db.operations[o] == db.operations[o]))
  {
    assert RevisionOwned(db, db.revisions[r]);
    DeleteRevisionCommitsIff(db, r);
  }

  // ----- operations -----

  lemma InsertOperationEffect(v: Schema, db: Db, id: Id, row: Operation)
    requires Indexed(db)
    ensures var e := Exec(v, db, OnOperation(InsertOperation(id, row)));
            && (e.Committed? <==>
                 && id !in db.operations && row.revision in db.revisions && row.snapshot in db.snapshots
                 && db.snapshots[row.snapshot].bundle == db.revisions[row.revision].bundle
                 && forall o :: o in db.operations && db.operations[o].revision == row.revision ==>
                      db.operations[o].position != row.position)
            && (e.Committed? ==> e.db == db.(operations := db.operations[id := row]))
  {
    var t := db.operations[id := row];
    if id !in db.operations && UniqueOperations(t) {
      forall o | o in db.operations && db.operations[o].revision == row.revision
        ensures db.operations[o].position != row.position
      {
        assert o in t && id in t;
      }
    }
  }

  lemma SetDecisionEffect(v: Schema, db: Db, o: Id, decision: Decision)
    requires Linked(db) && o in db.operations
    ensures var e := Exec(v, db, OnOperation(SetDecision(o, decision)));
            var r := db.operations[o].revision;
            var row := db.operations[o];
            && (e.Committed? <==> db.revisions[r].isCurrent && Open(db.bundles[db.revisions[r].bundle].state))
            && (e.Committed? ==>
                 e.db == db.(operations := db.operations[o :=
                   Operation(row.revision, row.snapshot, row.position, row.content, decision)]))
  {
    assert OperationOwned(db, db.operations[o]);
    assert RevisionOwned(db, db.revisions[db.operations[o].revision]);
    DecisionCommitsIff(db, o, decision);
  }

  lemma DeleteOperationEffect(v: Schema, db: Db, id: Id)
    requires id in db.operations
    ensures var e := Exec(v, db, OnOperation(DeleteOperation(id)));
            && (e.Committed? <==> forall a :: a in db.attempts ==> db.attempts[a].operation != id)
            && (e.Committed? ==> e.db == db.(operations := db.operations - {id}))
  {
  }

  // ----- apply runs -----

  lemma InsertRunEffect(v: Schema, db: Db, id: Id, row: ApplyRun)
    requires Linked(db) && Indexed(db)
    ensures var e := Exec(v, db, OnRun(InsertRun(id, row)));
            && (e.Committed? <==>
                 && id !in db.runs && row.revision in db.revisions && db.revisions[row.revision].bundle == row.bundle
                 && forall a :: a in db.runs && db.runs[a].bundle == row.bundle ==>
                      && db.runs[a].idempotencyKey != row.idempotencyKey
                      && !(ActiveRun(db.runs[a].state) && ActiveRun(row.state)))
            && (e.Committed? ==> e.db == db.(runs := db.runs[id := row]))
  {
    RunInsertIff(db, id, row);
  }

  lemma UpdateRunEffect(v: Schema, db: Db, id: Id, s: RunState, result: Option<string>, error: Option<string>)
    requires Indexed(db) && id in db.runs
    ensures var e := Exec(v, db, OnRun(UpdateRun(id, s, result, error)));
            && (e.Committed? <==>
                 forall a :: a in db.runs && a != id && db.runs[a].bundle == db.runs[id].bundle ==>
                   !(ActiveRun(db.runs[a].state) && ActiveRun(s)))
            && (e.Committed? ==>
                 var row := db.runs[id];
                 e.db == db.(runs := db.runs[id :=
                   ApplyRun(row.bundle, row.revision, row.idempotencyKey, s, row.manifest, result, error)]))
  {
    var t := db.runs[id := db.runs[id].(state := s, result := result, error := error)];
    if UniqueRuns(t) {
      forall a | a in db.runs && a != id && db.runs[a].bundle == db.runs[id].bundle
        ensures !(ActiveRun(db.runs[a].state) && ActiveRun(s))
      {
        assert a in t && id in t;
      }
    }
  }

  lemma DeleteRunEffect(v: Schema, db: Db, id: Id)
    requires id in db.runs
    ensures var e := Exec(v, db, OnRun(DeleteRun(id)));
            && (e.Committed? <==> forall u :: u in db.undos ==> db.undos[u].sourceRun != id)
            && (e.Committed? ==>
                 && e.db == db.(runs := db.runs - {id}, attempts := e.db.attempts)
                 && (forall a :: a in e.db.attempts <==> a in db.attempts && db.attempts[a].run != id)
                 && (forall a :: a in e.db.attempts ==> e.db.attempts[a] == db.attempts[a]))
  {
  }

  // ----- attempts -----

  lemma InsertAttemptEffect(v: Schema, db: Db, id: Id, row: Attempt)
    requires Indexed(db)
    ensures var e := Exec(v, db, OnAttempt(InsertAttempt(id, row)));
            && (e.Committed? <==>
                 && id !in db.attempts && row.run in db.runs && row.operation in db.operations
                 && db.operations[row.operation].revision == db.runs[row.run].revision
                 && forall a :: a in db.attempts && db.attempts[a].run == row.run ==>
                      db.attempts[a].operation != row.operation)
            && (e.Committed? ==> e.db == db.(attempts := db.attempts[id := row]))
  {
    var t := db.attempts[id := row];
    if id !in db.attempts && UniqueAttempts(t) {
      forall a | a in db.attempts && db.attempts[a].run == row.run ensures db.attempts[a].operation != row.operation {
        assert a in t && id in t;
      }
    }
  }

  lemma UpdateAttemptEffect(v: Schema, db: Db, id: Id, s: AttemptState, error: Option<string>)
    requires id in db.attempts
    ensures var row := db.attempts[id];
            Exec(v, db, OnAttempt(UpdateAttempt(id, s, error))) ==
            Committed(db.(attempts := db.attempts[id := Attempt(row.run, row.operation, row.attemptedValue, s, error)]))
    ensures Exec(v, db, OnAttempt(DeleteAttempt(id))) == Committed(db.(attempts := db.attempts - {id}))
  {
  }

  // ----- undo runs -----

  lemma InsertUndoEffect(v: Schema, db: Db, id: Id, row: UndoRun)
    requires Indexed(db)
    ensures var e := Exec(v, db, OnUndo(InsertUndo(id, row)));
            && (e.Committed? <==>
                 && id !in db.undos && row.bundle in db.bundles && row.sourceRun in db.runs
                 && (forall u :: u in db.undos ==> db.undos[u].sourceRun != row.sourceRun)
                 && (forall u :: u in db.undos && db.undos[u].bundle == row.bundle ==>
                      && db.undos[u].idempotencyKey != row.idempotencyKey
                      && !(ActiveUndo(db.undos[u].state) && ActiveUndo(row.state))))
            && (e.Committed? ==> e.db == db.(undos := db.undos[id := row]))
  {
    UndoInsertIff(db, id, row);
  }

  lemma UpdateUndoEffect(v: Schema, db: Db, id: Id, s: UndoState, result: Option<string>, error: Option<string>)
    requires Indexed(db) && id in db.undos
    ensures var e := Exec(v, db, OnUndo(UpdateUndo(id, s, result, error)));
            && (e.Committed? <==>
                 forall u :: u in db.undos && u != id && db.undos[u].bundle == db.undos[id].bundle ==>
                   !(ActiveUndo(db.undos[u].state) && ActiveUndo(s)))
            && (e.Committed? ==>
                 var row := db.undos[id];
                 e.db == db.(undos := db.undos[id :=
                   UndoRun(row.bundle, row.sourceRun, row.idempotencyKey, s, row.manifest, result, error)]))
    ensures Exec(v, db, OnUndo(DeleteUndo(id))) == Committed(db.(undos := db.undos - {id}))
  {
    var t := db.undos[id := db.undos[id].(state := s, result := result, error := error)];
    if UniqueUndos(t) {
      forall u | u in db.undos && u != id && db.undos[u].bundle == db.undos[id].bundle
        ensures !(ActiveUndo(db.undos[u].state) && ActiveUndo(s))
      {
        assert u in t && id in t;
      }
    }
  }

  // ----- immutable columns and missing rows -----

  /** An UPDATE that names an immutable column of an existing row aborts. */
  lemma ContentIsImmutable(v: Schema, db: Db, id: Id)
    ensures Exec(v, db, OnSnapshot(RewriteSnapshot(id))).Committed? <==> id !in db.snapshots
    ensures Exec(v, db, OnRevision(RewriteRevision(id))).Committed? <==> id !in db.revisions
    ensures Exec(v, db, OnOperation(RewriteOperation(id))).Committed? <==> id !in db.operations
    ensures Exec(v, db, OnAttempt(RewriteAttempt(id))).Committed? <==> id !in db.attempts
  {
  }

  /** A statement whose row does not exist changes nothing and does not abort. */
  lemma MissingRowsChangeNothing(v: Schema, db: Db, id: Id, p: BundlePatch, d: Decision, flag: bool)
    ensures id !in db.bundles ==> Exec(v, db, OnBundle(UpdateBundle(id, p))) == Committed(db)
    ensures id !in db.snapshots ==> Exec(v, db, OnSnapshot(DeleteSnapshot(id))) == Committed(db)
    ensures id !in db.revisions ==> Exec(v, db, OnRevision(SetCurrent([(id, flag)]))) == Committed(db)
    ensures id !in db.revisions ==> Exec(v, db, OnRevision(DeleteRevision(id))) == Committed(db)
    ensures id !in db.operations ==> Exec(v, db, OnOperation(SetDecision(id, d))) == Committed(db)
    ensures id !in db.operations ==> Exec(v, db, OnOperation(DeleteOperation(id))) == Committed(db)
  {
    SingleRow(db, id, flag);
  }

  lemma MissingRunsChangeNothing(
    v: Schema, db: Db, id: Id, r: RunState, a: AttemptState, u: UndoState,
    result: Option<string>, error: Option<string>)
    ensures id !in db.runs ==> Exec(v, db, OnRun(UpdateRun(id, r, result, error))) == Committed(db)
    ensures id !in db.runs ==> Exec(v, db, OnRun(DeleteRun(id))) == Committed(db)
    ensures id !in db.attempts ==> Exec(v, db, OnAttempt(UpdateAttempt(id, a, error))) == Committed(db)
    ensures id !in db.undos ==> Exec(v, db, OnUndo(UpdateUndo(id, u, result, error))) == Committed(db)
  {
  }
}
