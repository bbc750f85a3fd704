/** How the three state-transition triggers relate, and exactly when the statements that 0011,
    0014 and 0015 are about go through. */
module ReviewTransitions {
  import opened Options
  import opened ReviewSchema
  import opened ReviewTriggers
  import opened ReviewStatements
  import opened ReviewInvariants
  import opened ReviewCurrent

  // ----- versions -----

  predicate NoOlder(v: Schema, w: Schema) {
    v == V0011 || v == w || w == V0015
  }

  lemma CommitsUnderNewer(v: Schema, w: Schema, db: Db, stmt: Stmt)
    requires NoOlder(v, w) && Exec(v, db, stmt).Committed?
    ensures Exec(w, db, stmt) == Exec(v, db, stmt)
  {
  }

  /** The same statements, each under a trigger that is at least as new. */
  ghost predicate Upgraded(steps: seq<Step>, newer: seq<Step>) {
    |steps| == |newer| && forall k {:trigger newer[k]} | 0 <= k < |steps| ::
      newer[k].stmt == steps[k].stmt && NoOlder(steps[k].schema, newer[k].schema)
  }

  ghost predicate NothingAborts(steps: seq<Step>, states: seq<Db>)
    requires |states| == |steps| + 1
  {
    forall k {:trigger steps[k]} | 0 <= k < |steps| ::
      Exec(steps[k].schema, states[k], steps[k].stmt).Committed?
  }

  /** A run without aborts goes through the same states under newer triggers. */
  lemma UpgradedRunsAgree(steps: seq<Step>, newer: seq<Step>, states: seq<Db>)
    requires History(steps, states) && NothingAborts(steps, states) && Upgraded(steps, newer)
    ensures History(newer, states) && NothingAborts(newer, states)
  {
    forall k | 0 <= k < |newer|
      ensures Exec(newer[k].schema, states[k], newer[k].stmt).Committed?
      ensures states[k + 1] == After(newer[k].schema, states[k], newer[k].stmt)
    {
      CommitsUnderNewer(steps[k].schema, newer[k].schema, states[k], steps[k].stmt);
    }
  }

  /** An UPDATE that moves an existing bundle from one of the states in `from` to one in `to`. */
  ghost predicate Moves(db: Db, stmt: Stmt, from: set<BundleState>, to: set<BundleState>) {
    && stmt.OnBundle? && stmt.bundle.UpdateBundle? && stmt.bundle.id in db.bundles
    && db.bundles[stmt.bundle.id].state in from
    && exists s | s in to :: stmt.bundle.patch.state == Some(s)
  }

  lemma BundleOutcomesDiffer(db: Db, stmt: BundleStmt)
    ensures ExecBundle(V0011, db, stmt) != ExecBundle(V0014, db, stmt)
       <==> Moves(db, OnBundle(stmt), {PartiallyApplied, Failed}, {Applying})
    ensures ExecBundle(V0014, db, stmt) != ExecBundle(V0015, db, stmt)
       <==> Moves(db, OnBundle(stmt), {Discarded}, {Ready, NeedsAttention})
  {
  }

  /** 0014 changes the outcome of a retry and of nothing else; 0015 that of a reopening and of nothing else. */
  lemma OutcomesDifferIff(db: Db, stmt: Stmt)
    ensures Exec(V0011, db, stmt) != Exec(V0014, db, stmt)
       <==> Moves(db, stmt, {PartiallyApplied, Failed}, {Applying})
    ensures Exec(V0014, db, stmt) != Exec(V0015, db, stmt)
       <==> Moves(db, stmt, {Discarded}, {Ready, NeedsAttention})
  {
    if stmt.OnBundle? {
      BundleOutcomesDiffer(db, stmt.bundle);
    }
  }

  ghost predicate Final(v: Schema, s: BundleState) {
    forall t :: Transition(v, s, t) ==> t == s
  }

  /** The states without an exit shrink from version to version. */
  lemma FinalStates(s: BundleState)
    ensures Final(V0011, s) <==> s in {Applied, PartiallyApplied, Failed, Discarded}
    ensures Final(V0014, s) <==> s in {Applied, Discarded}
    ensures Final(V0015, s) <==> s == Applied
  {
    assert Transition(V0011, Preparing, Ready);
    assert Transition(V0011, Ready, Discarded) && Transition(V0011, NeedsAttention, Discarded);
    assert Transition(V0011, Applying, Applied);
    assert Transition(V0014, s, Applying) <== s == PartiallyApplied || s == Failed;
    assert Transition(V0015, s, Applying) <== s == PartiallyApplied || s == Failed;
    assert Transition(V0015, Discarded, Ready);
    assert forall t :: Transition(V0011, s, t) ==> Transition(V0014, s, t) && Transition(V0015, s, t);
  }

  // The triggers that the downgrades of 0014 and 0015 recreate, spelled out as they are there.
  predicate Downgraded0014(prev: BundleState, next: BundleState) {
    || prev == next
    || (prev == Preparing && (next.Ready? || next.NeedsAttention? || next.Failed? || next.Discarded?))
    || (prev == Ready && (next.NeedsAttention? || next.Applying? || next.Discarded?))
    || (prev == NeedsAttention && (next.Ready? || next.Applying? || next.Discarded?))
    || (prev == Applying && (next.Applied? || next.PartiallyApplied? || next.Failed?))
  }

  predicate Downgraded0015(prev: BundleState, next: BundleState) {
    || prev == next
    || (prev == Preparing && (next.Ready? || next.NeedsAttention? || next.Failed? || next.Discarded?))
    || (prev == Ready && (next.NeedsAttention? || next.Applying? || next.Discarded?))
    || (prev == NeedsAttention && (next.Ready? || next.Applying? || next.Discarded?))
    || (prev == Applying && (next.Applied? || next.PartiallyApplied? || next.Failed?))
    || ((prev.PartiallyApplied? || prev.Failed?) && next == Applying)
  }

  lemma DowngradesRestore(prev: BundleState, next: BundleState)
    ensures Downgraded0014(prev, next) == Transition(V0011, prev, next)
    ensures Downgraded0015(prev, next) == Transition(V0014, prev, next)
  {
  }

  // ----- retry and reopen -----

  ghost predicate KeyIsFree(db: Db, id: Id, key: string) {
    forall i :: i in db.bundles && i != id && ActiveBundle(db.bundles[i].state) ==> db.bundles[i].logicalKey != key
  }

  lemma ActivatingIsUnique(db: Db, id: Id, row: Bundle)
    requires UniqueActiveKey(db.bundles) && ActiveBundle(row.state)
    ensures UniqueActiveKey(db.bundles[id := row]) <==> KeyIsFree(db, id, row.logicalKey)
  {
    var t := db.bundles[id := row];
    if UniqueActiveKey(t) {
      forall i | i in db.bundles && i != id && ActiveBundle(db.bundles[i].state)
        ensures db.bundles[i].logicalKey != row.logicalKey
      {
        assert i in t && id in t;
      }
    }
  }

  /** A failed or partially applied bundle can be retried exactly when its current revision has an
      accepted operation and no other active bundle took its key meanwhile. */
  lemma RetryCommitsIff(v: Schema, db: Db, id: Id, patch: BundlePatch)
    requires Indexed(db) && id in db.bundles && v != V0011
    requires (db.bundles[id].state.Failed? || db.bundles[id].state.PartiallyApplied?) && patch.state == Some(Applying)
    ensures Exec(v, db, OnBundle(UpdateBundle(id, patch))).Committed?
       <==> HasAccepted(db, id) && KeyIsFree(db, id, patch.logicalKey)
  {
    ActivatingIsUnique(db, id, Patched(db.bundles[id], patch));
  }

  /** A discarded bundle can be reopened exactly when it has a current revision and no other
      active bundle took its key meanwhile. */
  lemma ReopenCommitsIff(db: Db, id: Id, patch: BundlePatch)
    requires Indexed(db) && id in db.bundles && db.bundles[id].state == Discarded
    requires patch.state == Some(Ready) || patch.state == Some(NeedsAttention)
    ensures Exec(V0015, db, OnBundle(UpdateBundle(id, patch))).Committed?
       <==> HasCurrent(db, id) && KeyIsFree(db, id, patch.logicalKey)
  {
    ActivatingIsUnique(db, id, Patched(db.bundles[id], patch));
  }

  /** A bundle that enters `applying` has an accepted operation on its current revision. */
  lemma EnteringApplying(v: Schema, db: Db, id: Id, patch: BundlePatch)
    requires id in db.bundles && patch.state == Some(Applying) && ExecUpdateBundle(v, db, id, patch).Committed?
    ensures var next := ExecUpdateBundle(v, db, id, patch).db;
            && next.bundles[id].state == Applying
            && exists r, o :: IsCurrent(next, id, r) && o in next.operations
                              && next.operations[o].revision == r && next.operations[o].decision == Accepted
  {
    var o :| o in db.operations && db.operations[o].decision == Accepted
             && db.operations[o].revision in db.revisions
             && db.revisions[db.operations[o].revision].bundle == id
             && db.revisions[db.operations[o].revision].isCurrent;
    var next := ExecUpdateBundle(v, db, id, patch).db;
    assert IsCurrent(next, id, db.operations[o].revision) && o in next.operations;
  }

  // ----- decisions and deletions -----

  /** A decision can be changed exactly on the current revision of a bundle still under review, and
      nothing else changes with it. */
  lemma DecisionCommitsIff(db: Db, o: Id, decision: Decision)
    requires Linked(db) && o in db.operations
    ensures var r := db.operations[o].revision;
            var b := db.revisions[r].bundle;
            var e := ExecSetDecision(db, o, decision);
            && (e.Committed? <==>
                 IsCurrent(db, b, r) && !Engaged(db.bundles[b].state) && db.bundles[b].state != Discarded)
            && (e.Committed? ==> e.db == db.(operations := db.operations[o := db.operations[o].(decision := decision)]))
  {
    assert OperationOwned(db, db.operations[o]);
    assert RevisionOwned(db, db.revisions[db.operations[o].revision]);
  }

  /** A revision can be deleted exactly when no apply run uses it and it is not the current one of a
      settled bundle. The restriction on attempted operations never decides: those have a run. */
  lemma DeleteRevisionCommitsIff(db: Db, r: Id)
    requires Linked(db) && r in db.revisions
    ensures ExecDeleteRevision(db, r).Committed?
       <==> && (forall a :: a in db.runs ==> db.runs[a].revision != r)
            && !(db.revisions[r].isCurrent && Settled(db, db.revisions[r].bundle))
  {
    assert RevisionOwned(db, db.revisions[r]);
    forall a | a in db.attempts && db.operations[db.attempts[a].operation].revision == r
      ensures db.attempts[a].run in db.runs && db.runs[db.attempts[a].run].revision == r
    {
      assert AttemptOwned(db, db.attempts[a]);
    }
  }

  // ----- starting an apply run or an undo run -----

  /** An apply run can be inserted exactly for a revision of its own bundle, under a fresh idempotency
      key, and while no run of the bundle is active unless it is itself inactive. */
  lemma RunInsertIff(db: Db, id: Id, row: ApplyRun)
    requires Linked(db) && UniqueRuns(db.runs)
    ensures ExecInsertRun(db, id, row).Committed?
       <==> && id !in db.runs && RevisionBundle(db, row.revision) == Some(row.bundle)
            && forall a :: a in db.runs && db.runs[a].bundle == row.bundle ==>
                 && db.runs[a].idempotencyKey != row.idempotencyKey
                 && !(ActiveRun(db.runs[a].state) && ActiveRun(row.state))
  {
    var t := db.runs[id := row];
    if id !in db.runs && UniqueRuns(t) {
      forall a | a in db.runs && db.runs[a].bundle == row.bundle
        ensures db.runs[a].idempotencyKey != row.idempotencyKey
        ensures !(ActiveRun(db.runs[a].state) && ActiveRun(row.state))
      {
        assert a in t && id in t;
      }
    }
  }

  /** An undo run needs an existing bundle and apply run, the first undo of that apply run, a fresh key
      and no other active undo. That the apply run is of the same bundle is not asked. */
  lemma UndoInsertIff(db: Db, id: Id, row: UndoRun)
    requires UniqueUndos(db.undos)
    ensures ExecInsertUndo(db, id, row).Committed?
       <==> && id !in db.undos && row.bundle in db.bundles && row.sourceRun in db.runs
            && (forall u :: u in db.undos ==> db.undos[u].sourceRun != row.sourceRun)
            && (forall u :: u in db.undos && db.undos[u].bundle == row.bundle ==>
                 && db.undos[u].idempotencyKey != row.idempotencyKey
                 && !(ActiveUndo(db.undos[u].state) && ActiveUndo(row.state)))
  {
    var t := db.undos[id := row];
    if id !in db.undos && UniqueUndos(t) {
      forall u | u in db.undos
        ensures db.undos[u].sourceRun != row.sourceRun
        ensures db.undos[u].bundle == row.bundle ==>
                  && db.undos[u].idempotencyKey != row.idempotencyKey
                  && !(ActiveUndo(db.undos[u].state) && ActiveUndo(row.state))
      {
        assert u in t && id in t;
      }
    }
  }

  // ----- replacing the current revision of a visible bundle -----

  lemma ClearWrites(db: Db, b: Id, r: Id, next: Id)
    requires UniqueRevisions(db.revisions) && SwapsCurrent(db, b) && IsCurrent(db, b, r)
    requires next in db.revisions && SucceedsTo(db.revisions[r], db.revisions[next])
    ensures WriteFlag(db, r, false) ==
            Committed(db.(revisions := db.revisions[r := db.revisions[r].(isCurrent := false)]))
  {
    assert !db.revisions[next].isCurrent;
  }

  lemma PromoteWrites(db: Db, prev: Revision, next: Id)
    requires UniqueRevisions(db.revisions) && SwapsCurrent(db, prev.bundle) && !HasCurrent(db, prev.bundle)
    requires next in db.revisions && SucceedsTo(prev, db.revisions[next])
    ensures PromoteSuccessor(db, prev) ==
            Committed(db.(revisions := db.revisions[next := db.revisions[next].(isCurrent := true)]))
  {
    var t := Promoted(db.revisions, prev);
    var u := db.revisions[next := db.revisions[next].(isCurrent := true)];
    forall i | i in t ensures t[i] == u[i] {
      assert SucceedsTo(prev, db.revisions[i]) ==> i == next;
    }
    assert t.Keys == u.Keys;
  }

  /** Clearing the marker of a visible bundle goes through exactly when the next number's revision
      exists with this one as its parent; the marker then sits there and no other row changed. */
  lemma ClearCommitsIff(db: Db, b: Id, r: Id)
    requires UniqueRevisions(db.revisions) && SwapsCurrent(db, b) && IsCurrent(db, b, r)
    ensures ExecSetCurrent(db, [(r, false)]).Committed?
       <==> exists n :: n in db.revisions && SucceedsTo(db.revisions[r], db.revisions[n])
    ensures forall n :: n in db.revisions && SucceedsTo(db.revisions[r], db.revisions[n]) ==>
              ExecSetCurrent(db, [(r, false)]) ==
              Committed(db.(revisions := db.revisions[r := db.revisions[r].(isCurrent := false)]
                                                     [n := db.revisions[n].(isCurrent := true)]))
  {
    var row := db.revisions[r];
    assert forall o :: ExecSetCurrent(o, []) == Committed(o);
    assert [(r, false)][1..] == [];
    forall n | n in db.revisions && SucceedsTo(row, db.revisions[n])
      ensures ExecSetCurrent(db, [(r, false)]) ==
              Committed(db.(revisions := db.revisions[r := row.(isCurrent := false)]
                                                     [n := db.revisions[n].(isCurrent := true)]))
    {
      ClearWrites(db, b, r, n);
      ClearedIsEmpty(db, b, r, n);
      PromoteWrites(WriteFlag(db, r, false).db, row, n);
    }
  }

  /** Between the row write and the promotion the bundle has no current revision at all. */
  lemma ClearedIsEmpty(db: Db, b: Id, r: Id, next: Id)
    requires UniqueRevisions(db.revisions) && SwapsCurrent(db, b) && IsCurrent(db, b, r)
    requires next in db.revisions && SucceedsTo(db.revisions[r], db.revisions[next])
    ensures WriteFlag(db, r, false).Committed? && !HasCurrent(WriteFlag(db, r, false).db, b)
    ensures UniqueRevisions(WriteFlag(db, r, false).db.revisions)
  {
    ClearWrites(db, b, r, next);
  }
}
