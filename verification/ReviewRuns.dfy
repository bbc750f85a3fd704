/** Theorems over every run of statements from an empty store, across upgrades and downgrades
    of the state-transition trigger. */
module ReviewRuns {
  import opened Options
  import opened ReviewSchema
  import opened ReviewTriggers
  import opened ReviewStatements
  import opened ReviewInvariants
  import opened ReviewCurrent

  // ----- what one statement does, committed or aborted, as seen by one row -----

  ghost predicate StaysSettled(db: Db, next: Db, b: Id) {
    Settled(db, b) ==> Settled(next, b) && (Engaged(db.bundles[b].state) ==> Engaged(next.bundles[b].state))
  }

  ghost predicate CurrentFollows(db: Db, next: Db, b: Id, r: Id) {
    Settled(db, b) && IsCurrent(db, b, r) ==>
      exists ids :: MarkerMoves(db, next, b, ids) && ids[0] == r && (CurrentFrozen(db, b) ==> ids == [r])
  }

  ghost predicate OperationFrozen(db: Db, o: Id) {
    o in db.operations && match RevisionBundle(db, db.operations[o].revision)
                          case None => false
                          case Some(b) => CurrentFrozen(db, b)
  }

  ghost predicate KeepsFrozen(db: Db, next: Db, o: Id) {
    OperationFrozen(db, o) && o in next.operations ==>
      && next.operations[o] == db.operations[o]
      && RevisionBundle(next, db.operations[o].revision) == RevisionBundle(db, db.operations[o].revision)
  }

  lemma AfterStaysSettled(v: Schema, db: Db, stmt: Stmt, b: Id)
    ensures StaysSettled(db, After(v, db, stmt), b)
  {
    if Settled(db, b) && Exec(v, db, stmt).Committed? {
      SettledStays(v, db, stmt, b);
    }
  }

  lemma AfterCurrentFollows(v: Schema, db: Db, stmt: Stmt, b: Id, r: Id)
    requires UniqueRevisions(db.revisions)
    ensures CurrentFollows(db, After(v, db, stmt), b, r)
  {
    if Settled(db, b) && IsCurrent(db, b, r) {
      if Exec(v, db, stmt).Committed? {
        var ids := CurrentMoves(v, db, stmt, b, r);
      } else {
        assert MarkerMoves(db, db, b, [r]);
      }
    }
  }

  lemma RevisionKeepsBundle(v: Schema, db: Db, stmt: Stmt, r: Id)
    requires Exec(v, db, stmt).Committed? && r in db.revisions && r in Exec(v, db, stmt).db.revisions
    ensures Exec(v, db, stmt).db.revisions[r].bundle == db.revisions[r].bundle
  {
    Untouched(v, db, stmt);
    if stmt.OnRevision? && stmt.revision.SetCurrent? {
      SetCurrentKeeps(db, stmt.revision.flags);
    }
  }

  lemma AfterKeepsFrozen(v: Schema, db: Db, stmt: Stmt, o: Id)
    requires Linked(db)
    ensures KeepsFrozen(db, After(v, db, stmt), o)
  {
    if OperationFrozen(db, o) && Exec(v, db, stmt).Committed? && o in Exec(v, db, stmt).db.operations {
      var next := Exec(v, db, stmt).db;
      FrozenOperation(v, db, stmt, o);
      LinkedPreserved(v, db, stmt);
      assert OperationOwned(next, next.operations[o]);
      RevisionKeepsBundle(v, db, stmt, db.operations[o].revision);
    }
  }

  lemma AfterSound(v: Schema, db: Db, stmt: Stmt)
    requires Linked(db) && Indexed(db)
    ensures Linked(After(v, db, stmt)) && Indexed(After(v, db, stmt))
  {
    if Exec(v, db, stmt).Committed? {
      LinkedPreserved(v, db, stmt);
      IndexedPreserved(v, db, stmt);
    }
  }

  // ----- a visible bundle has a current revision -----

  ghost predicate Supplied(db: Db, b: Id) {
    b in db.bundles && Visible(db.bundles[b].state) ==> HasCurrent(db, b)
  }

  ghost predicate InsertsVisibleAt(stmt: Stmt, b: Id) {
    InsertsVisible(stmt) && stmt.bundle.id == b
  }

  lemma BundleVisibleNow(v: Schema, db: Db, stmt: BundleStmt, b: Id)
    requires Supplied(db, b) && ExecBundle(v, db, stmt).Committed? && !InsertsVisibleAt(OnBundle(stmt), b)
    requires b in ExecBundle(v, db, stmt).db.bundles && Visible(ExecBundle(v, db, stmt).db.bundles[b].state)
    ensures HasCurrent(db, b)
  {
  }

  lemma VisibleNow(v: Schema, db: Db, stmt: Stmt, b: Id)
    requires Supplied(db, b) && Exec(v, db, stmt).Committed? && !InsertsVisibleAt(stmt, b)
    requires b in Exec(v, db, stmt).db.bundles && Visible(Exec(v, db, stmt).db.bundles[b].state)
    ensures HasCurrent(db, b)
  {
    if stmt.OnBundle? {
      BundleVisibleNow(v, db, stmt.bundle, b);
    } else {
      Untouched(v, db, stmt);
    }
  }

  lemma SuppliedPreserved(v: Schema, db: Db, stmt: Stmt, b: Id)
    requires Supplied(db, b) && UniqueRevisions(db.revisions)
    requires Exec(v, db, stmt).Committed? && !InsertsVisibleAt(stmt, b)
    ensures Supplied(Exec(v, db, stmt).db, b)
  {
    var next := Exec(v, db, stmt).db;
    if b in next.bundles && Visible(next.bundles[b].state) {
      Untouched(v, db, stmt);
      VisibleNow(v, db, stmt, b);
      if stmt.OnRevision? {
        var r :| r in db.revisions && db.revisions[r].bundle == b && db.revisions[r].isCurrent;
        AfterCurrentFollows(v, db, stmt, b, r);
      }
    }
  }

  lemma VisiblePreserved(v: Schema, db: Db, stmt: Stmt)
    requires VisibleHasCurrent(db) && UniqueRevisions(db.revisions)
    requires Exec(v, db, stmt).Committed? && !InsertsVisible(stmt)
    ensures VisibleHasCurrent(Exec(v, db, stmt).db)
  {
    var next := Exec(v, db, stmt).db;
    forall b | b in next.bundles && Visible(next.bundles[b].state) ensures HasCurrent(next, b) {
      SuppliedPreserved(v, db, stmt, b);
    }
  }

  lemma VisibleInsertBreaks(v: Schema, db: Db, stmt: Stmt)
    requires Linked(db) && Exec(v, db, stmt).Committed? && InsertsVisible(stmt)
    ensures !Supplied(Exec(v, db, stmt).db, stmt.bundle.id)
  {
    var b, next := stmt.bundle.id, Exec(v, db, stmt).db;
    forall r | r in next.revisions ensures next.revisions[r].bundle != b {
      assert RevisionOwned(db, db.revisions[r]);
    }
  }

  /** Such an INSERT does go through, on an empty store for one. */
  lemma VisibleInsertCommits(v: Schema)
    ensures var stmt := OnBundle(InsertBundle(1, Bundle("key", "title", Ready, None, 0)));
            InsertsVisible(stmt) && Exec(v, EMPTY_DB, stmt).Committed? && !Supplied(Exec(v, EMPTY_DB, stmt).db, 1)
  {
    VisibleInsertBreaks(v, EMPTY_DB, OnBundle(InsertBundle(1, Bundle("key", "title", Ready, None, 0))));
  }

  /** The state triggers fire on UPDATE only. A committed statement leaves every visible bundle
      with a current revision exactly when it is not an INSERT that names a visible state. */
  lemma VisibleHasCurrentIff(v: Schema, db: Db, stmt: Stmt)
    requires Inv(db) && Exec(v, db, stmt).Committed?
    ensures VisibleHasCurrent(Exec(v, db, stmt).db) <==> !InsertsVisible(stmt)
  {
    if InsertsVisible(stmt) {
      VisibleInsertBreaks(v, db, stmt);
    } else {
      VisiblePreserved(v, db, stmt);
    }
  }

  // ----- reachable states -----

  lemma StepKeepsSound(steps: seq<Step>, states: seq<Db>, k: nat)
    requires History(steps, states) && k < |steps| && Linked(states[k]) && Indexed(states[k])
    ensures Linked(states[k + 1]) && Indexed(states[k + 1])
  {
    AfterSound(steps[k].schema, states[k], steps[k].stmt);
  }

  lemma {:induction false} ReachableSound(steps: seq<Step>, states: seq<Db>, k: nat)
    requires History(steps, states) && k < |states|
    ensures Linked(states[k]) && Indexed(states[k])
  {
    if k > 0 {
      ReachableSound(steps, states, k - 1);
      StepKeepsSound(steps, states, k - 1);
    }
  }

  /** Step k commits an INSERT of b that names a visible state. */
  ghost predicate CommitsVisibleInsert(steps: seq<Step>, states: seq<Db>, k: nat, b: Id)
    requires History(steps, states) && k < |steps|
  {
    InsertsVisibleAt(steps[k].stmt, b) && Exec(steps[k].schema, states[k], steps[k].stmt).Committed?
  }

  lemma {:induction false} SuppliedInPrefix(steps: seq<Step>, states: seq<Db>, k: nat, b: Id)
    requires History(steps, states) && k < |states|
    requires forall i: nat | i < k :: !CommitsVisibleInsert(steps, states, i, b)
    ensures Supplied(states[k], b)
  {
    if k > 0 {
      var step := steps[k - 1];
      SuppliedInPrefix(steps, states, k - 1, b);
      ReachableSound(steps, states, k - 1);
      assert !CommitsVisibleInsert(steps, states, k - 1, b);
      if Exec(step.schema, states[k - 1], step.stmt).Committed? {
        SuppliedPreserved(step.schema, states[k - 1], step.stmt, b);
      }
    }
  }

  /** Over a whole run, and for every bundle by itself: it has a current revision whenever it is
      visible exactly when no INSERT of it that names a visible state was committed. */
  lemma VisibleAlwaysHasCurrentIff(steps: seq<Step>, states: seq<Db>, b: Id)
    requires History(steps, states)
    ensures (forall k: nat | k < |states| :: Supplied(states[k], b))
       <==> (forall k: nat | k < |steps| :: !CommitsVisibleInsert(steps, states, k, b))
  {
    if k: nat :| k < |steps| && CommitsVisibleInsert(steps, states, k, b) {
      ReachableSound(steps, states, k);
      VisibleInsertBreaks(steps[k].schema, states[k], steps[k].stmt);
      assert !Supplied(states[k + 1], b);
    } else {
      forall k: nat | k < |states| ensures Supplied(states[k], b) {
        SuppliedInPrefix(steps, states, k, b);
      }
    }
  }

  // ----- the current revision through time -----

  /** What every single step guarantees to one bundle. */
  ghost predicate StepSound(db: Db, next: Db, b: Id) {
    && StaysSettled(db, next, b) && UniqueCurrent(next.revisions)
    && forall r :: r in db.revisions ==> CurrentFollows(db, next, b, r)
  }

  lemma EveryStepSound(steps: seq<Step>, states: seq<Db>, k: nat, b: Id)
    requires History(steps, states) && k < |steps|
    ensures StepSound(states[k], states[k + 1], b)
  {
    var db, step := states[k], steps[k];
    ReachableSound(steps, states, k);
    ReachableSound(steps, states, k + 1);
    AfterStaysSettled(step.schema, db, step.stmt, b);
    forall r | r in db.revisions ensures CurrentFollows(db, states[k + 1], b, r) {
      AfterCurrentFollows(step.schema, db, step.stmt, b, r);
    }
  }

  /** The one current revision of b is the row at place x of the path, and its number says so. */
  ghost predicate AtPlace(db: Db, b: Id, ids: seq<Id>, x: nat, number: int) {
    && x < |ids| && CurrentIds(db, b) == {ids[x]} && IsCurrent(db, b, ids[x])
    && db.revisions[ids[x]].number == number + x
  }

  ghost predicate MovesAlong(db: Db, next: Db, b: Id, ids: seq<Id>, x: nat, y: nat) {
    x <= y < |ids| && MarkerMoves(db, next, b, ids[x..y + 1])
  }

  /** The current revisions of b in these states all lie on one path: `places` says where, it never
      goes back, and every stretch walked by a step is a chain of rows of the state before that step. */
  ghost predicate CurrentPath(states: seq<Db>, b: Id, ids: seq<Id>, places: seq<nat>, number: int) {
    && |states| == |places| > 0 && places[0] == 0 && places[|places| - 1] == |ids| - 1
    && (forall n | 0 <= n < |places| :: AtPlace(states[n], b, ids, places[n], number))
    && (forall n | 0 <= n < |places| - 1 :: MovesAlong(states[n], states[n + 1], b, ids, places[n], places[n + 1]))
  }

  lemma StretchStays(db: Db, next: Db, b: Id, ids: seq<Id>, x: nat, y: nat, tail: seq<Id>)
    requires MovesAlong(db, next, b, ids, x, y)
    ensures MovesAlong(db, next, b, ids + tail, x, y)
  {
    assert (ids + tail)[x..y + 1] == ids[x..y + 1];
  }

  lemma LastStretch(db: Db, next: Db, b: Id, ids: seq<Id>, number: int, q: seq<Id>)
    requires ids != [] && AtPlace(db, b, ids, |ids| - 1, number)
    requires MarkerMoves(db, next, b, q) && q[0] == ids[|ids| - 1] && UniqueCurrent(next.revisions)
    ensures AtPlace(next, b, ids + q[1..], |ids| + |q| - 2, number)
    ensures MovesAlong(db, next, b, ids + q[1..], |ids| - 1, |ids| + |q| - 2)
  {
    var longer, last := ids + q[1..], |ids| + |q| - 2;
    assert longer[|ids| - 1..last + 1] == q;
    assert longer[last] == q[|q| - 1];
    ChainNumbers(db.revisions, q, |q| - 1);
    OneCurrent(next, b, longer[last]);
  }

  lemma PathExtends(states: seq<Db>, next: Db, b: Id, ids: seq<Id>, places: seq<nat>, number: int, q: seq<Id>)
    requires CurrentPath(states, b, ids, places, number)
    requires MarkerMoves(states[|states| - 1], next, b, q) && q[0] == ids[|ids| - 1] && UniqueCurrent(next.revisions)
    ensures CurrentPath(states + [next], b, ids + q[1..], places + [|ids| + |q| - 2], number)
  {
    var all, longer, last := states + [next], ids + q[1..], |ids| + |q| - 2;
    var steps := places + [last];
    assert AtPlace(states[|states| - 1], b, ids, places[|places| - 1], number);
    LastStretch(states[|states| - 1], next, b, ids, number, q);
    forall n | 0 <= n < |places| ensures AtPlace(all[n], b, longer, steps[n], number) {
      assert AtPlace(states[n], b, ids, places[n], number);
    }
    forall n | 0 <= n < |places| ensures MovesAlong(all[n], all[n + 1], b, longer, steps[n], steps[n + 1]) {
      if n < |places| - 1 {
        assert MovesAlong(states[n], states[n + 1], b, ids, places[n], places[n + 1]);
        StretchStays(states[n], states[n + 1], b, ids, places[n], places[n + 1], q[1..]);
      }
    }
  }

  lemma StepExtends(states: seq<Db>, next: Db, b: Id, ids: seq<Id>, places: seq<nat>, number: int)
    returns (longer: seq<Id>, more: seq<nat>)
    requires CurrentPath(states, b, ids, places, number)
    requires StepSound(states[|states| - 1], next, b) && Settled(states[|states| - 1], b)
    ensures CurrentPath(states + [next], b, longer, more, number) && longer[0] == ids[0]
  {
    var db, r := states[|states| - 1], ids[|ids| - 1];
    assert AtPlace(db, b, ids, places[|places| - 1], number);
    assert CurrentFollows(db, next, b, r);
    var q :| MarkerMoves(db, next, b, q) && q[0] == r;
    PathExtends(states, next, b, ids, places, number, q);
    longer, more := ids + q[1..], places + [|ids| + |q| - 2];
  }

  lemma {:induction false} PathOf(run: seq<Db>, b: Id, r: Id) returns (ids: seq<Id>, places: seq<nat>)
    requires run != [] && forall k | 0 <= k < |run| - 1 :: StepSound(run[k], run[k + 1], b)
    requires Settled(run[0], b) && IsCurrent(run[0], b, r) && UniqueCurrent(run[0].revisions)
    ensures CurrentPath(run, b, ids, places, run[0].revisions[r].number)
    ensures ids[0] == r && Settled(run[|run| - 1], b)
  {
    var n := |run| - 1;
    if n == 0 {
      ids, places := [r], [0];
      OneCurrent(run[0], b, r);
    } else {
      ids, places := PathOf(run[..n], b, r);
      assert StepSound(run[n - 1], run[n - 1 + 1], b);
      assert run == run[..n] + [run[n]];
      ids, places := StepExtends(run[..n], run[n], b, ids, places, run[0].revisions[r].number);
    }
  }

  /** Between two states of a run, the current revision of a settled bundle walks one path of rows,
      from each to the only row numbered one higher whose parent it is. */
  lemma CurrentHistory(steps: seq<Step>, states: seq<Db>, i: nat, j: nat, b: Id, r: Id)
    returns (ids: seq<Id>, places: seq<nat>)
    requires History(steps, states) && i <= j < |states|
    requires Settled(states[i], b) && IsCurrent(states[i], b, r)
    ensures CurrentPath(states[i..j + 1], b, ids, places, states[i].revisions[r].number)
    ensures ids[0] == r && Settled(states[j], b)
  {
    var run := states[i..j + 1];
    ReachableSound(steps, states, i);
    forall k | 0 <= k < |run| - 1 ensures StepSound(run[k], run[k + 1], b) {
      EveryStepSound(steps, states, i + k, b);
    }
    ids, places := PathOf(run, b, r);
  }

  /** A bundle that is visible, and was not put there by an INSERT that names a visible state, has
      exactly one current revision from then on. */
  lemma OnceVisibleOneCurrent(steps: seq<Step>, states: seq<Db>, i: nat, j: nat, b: Id)
    requires History(steps, states) && i <= j < |states|
    requires forall k: nat | k < i :: !CommitsVisibleInsert(steps, states, k, b)
    requires b in states[i].bundles && Visible(states[i].bundles[b].state)
    ensures b in states[j].bundles && |CurrentIds(states[j], b)| == 1
  {
    SuppliedInPrefix(steps, states, i, b);
    var r :| r in states[i].revisions && states[i].revisions[r].bundle == b && states[i].revisions[r].isCurrent;
    var ids, places := CurrentHistory(steps, states, i, j, b, r);
    assert AtPlace(states[i..j + 1][j - i], b, ids, places[j - i], states[i].revisions[r].number);
  }

  lemma {:induction false} PlacesNeverGoBack(
    states: seq<Db>, b: Id, ids: seq<Id>, places: seq<nat>, number: int, m: nat, n: nat)
    requires CurrentPath(states, b, ids, places, number) && m <= n < |places|
    ensures places[m] <= places[n] < |ids|
    ensures places[m] == places[n] ==> states[m].revisions[ids[places[m]]] == states[n].revisions[ids[places[n]]]
  {
    assert AtPlace(states[n], b, ids, places[n], number);
    if m < n {
      PlacesNeverGoBack(states, b, ids, places, number, m, n - 1);
      assert MovesAlong(states[n - 1], states[n], b, ids, places[n - 1], places[n]);
    }
  }

  /** Numbers of current revisions never decrease, and a replaced revision never returns. */
  lemma NeverCurrentTwice(steps: seq<Step>, states: seq<Db>, i: nat, j: nat, k: nat,
                          b: Id, ri: Id, rj: Id, rk: Id)
    requires History(steps, states) && i <= j <= k < |states| && Settled(states[i], b)
    requires IsCurrent(states[i], b, ri) && IsCurrent(states[j], b, rj) && IsCurrent(states[k], b, rk)
    ensures states[i].revisions[ri].number <= states[j].revisions[rj].number
    ensures states[i].revisions[ri].number == states[k].revisions[rk].number ==>
              && ri == rj == rk
              && states[i].revisions[ri] == states[j].revisions[rj] == states[k].revisions[rk]
  {
    var ids, places := CurrentHistory(steps, states, i, k, b, ri);
    var run, number := states[i..k + 1], states[i].revisions[ri].number;
    assert AtPlace(run[j - i], b, ids, places[j - i], number) && AtPlace(run[k - i], b, ids, places[k - i], number);
    assert rj in CurrentIds(run[j - i], b) && rk in CurrentIds(run[k - i], b);
    PlacesNeverGoBack(run, b, ids, places, number, 0, j - i);
    PlacesNeverGoBack(run, b, ids, places, number, j - i, k - i);
  }

  // ----- apply freezes the review -----

  /** b is being or has been applied, and r with exactly this content is its current revision. */
  ghost predicate EngagedWith(db: Db, b: Id, r: Id, row: Revision) {
    && b in db.bundles && Engaged(db.bundles[b].state)
    && IsCurrent(db, b, r) && db.revisions[r] == row
  }

  lemma StaysEngagedWith(db: Db, next: Db, b: Id, r: Id, row: Revision)
    requires StepSound(db, next, b) && EngagedWith(db, b, r, row)
    ensures EngagedWith(next, b, r, row)
  {
    assert CurrentFollows(db, next, b, r);
  }

  lemma {:induction false} RunStaysEngagedWith(
    steps: seq<Step>, states: seq<Db>, i: nat, j: nat, b: Id, r: Id, row: Revision)
    requires History(steps, states) && i <= j < |states| && EngagedWith(states[i], b, r, row)
    ensures EngagedWith(states[j], b, r, row)
  {
    if i < j {
      RunStaysEngagedWith(steps, states, i, j - 1, b, r, row);
      EveryStepSound(steps, states, j - 1, b);
      StaysEngagedWith(states[j - 1], states[j], b, r, row);
    }
  }

  /** From the moment a bundle is applying, or anywhere past it, it stays in the four apply states and
      keeps the very same current revision row. */
  lemma ApplyingFreezesCurrent(
    steps: seq<Step>, states: seq<Db>, i: nat, j: nat, b: Id, r: Id)
    requires History(steps, states) && i <= j < |states|
    requires b in states[i].bundles && Engaged(states[i].bundles[b].state) && IsCurrent(states[i], b, r)
    ensures b in states[j].bundles && Engaged(states[j].bundles[b].state)
    ensures CurrentIds(states[j], b) == {r}
    ensures r in states[j].revisions && states[j].revisions[r] == states[i].revisions[r]
  {
    RunStaysEngagedWith(steps, states, i, j, b, r, states[i].revisions[r]);
    ReachableSound(steps, states, j);
    OneCurrent(states[j], b, r);
  }

  lemma EveryStepKeepsFrozen(steps: seq<Step>, states: seq<Db>, k: nat, o: Id)
    requires History(steps, states) && k < |steps|
    ensures KeepsFrozen(states[k], states[k + 1], o)
  {
    ReachableSound(steps, states, k);
    AfterKeepsFrozen(steps[k].schema, states[k], steps[k].stmt, o);
  }

  lemma {:induction false} RunStaysEngaged(steps: seq<Step>, states: seq<Db>, i: nat, j: nat, b: Id)
    requires History(steps, states) && i <= j < |states|
    requires b in states[i].bundles && Engaged(states[i].bundles[b].state)
    ensures b in states[j].bundles && Engaged(states[j].bundles[b].state)
  {
    if i < j {
      RunStaysEngaged(steps, states, i, j - 1, b);
      EveryStepSound(steps, states, j - 1, b);
    }
  }

  /** Every operation of a bundle in the apply states keeps its decision and content for as long as its
      row exists, whether or not the bundle has a current revision. */
  lemma {:induction false} ApplyingFreezesOperations(
    steps: seq<Step>, states: seq<Db>, i: nat, j: nat, b: Id, o: Id)
    requires History(steps, states) && i <= j < |states|
    requires b in states[i].bundles && Engaged(states[i].bundles[b].state)
    requires forall k | i <= k <= j :: o in states[k].operations
    requires RevisionBundle(states[i], states[i].operations[o].revision) == Some(b)
    ensures states[j].operations[o] == states[i].operations[o]
    ensures RevisionBundle(states[j], states[j].operations[o].revision) == Some(b)
  {
    if i < j {
      ApplyingFreezesOperations(steps, states, i, j - 1, b, o);
      RunStaysEngaged(steps, states, i, j - 1, b);
      EveryStepKeepsFrozen(steps, states, j - 1, o);
    }
  }

  // ----- ownership and uniqueness in every reachable state -----

  /** All routes from a row to its bundle agree. */
  lemma OwnershipCommutes(steps: seq<Step>, states: seq<Db>, k: nat)
    requires History(steps, states) && k < |states|
    ensures var db := states[k];
            && (forall r :: r in db.revisions ==>
                 SnapshotBundle(db, db.revisions[r].snapshot) == Some(db.revisions[r].bundle))
            && (forall o :: o in db.operations ==>
                 SnapshotBundle(db, db.operations[o].snapshot) == RevisionBundle(db, db.operations[o].revision) != None)
            && (forall a :: a in db.runs ==> RevisionBundle(db, db.runs[a].revision) == Some(db.runs[a].bundle))
    ensures forall a :: a in states[k].attempts ==> AttemptCommutes(states[k], states[k].attempts[a])
  {
    var db := states[k];
    ReachableSound(steps, states, k);
    forall a | a in db.attempts ensures AttemptCommutes(db, db.attempts[a]) {
      assert AttemptOwned(db, db.attempts[a]);
      assert OperationOwned(db, db.operations[db.attempts[a].operation]);
      assert RunOwned(db, db.runs[db.attempts[a].run]);
    }
  }

  /** The four routes of an attempt: operation and snapshot, operation and revision, run, run and revision. */
  ghost predicate AttemptCommutes(db: Db, row: Attempt) {
    && row.operation in db.operations && row.run in db.runs
    && var o, run := db.operations[row.operation], db.runs[row.run];
       && SnapshotBundle(db, o.snapshot) == RevisionBundle(db, o.revision)
       && RevisionBundle(db, o.revision) == RevisionBundle(db, run.revision) == Some(run.bundle)
  }

  function ActiveBundlesOf(db: Db, key: string): set<Id> {
    set i | i in db.bundles && ActiveBundle(db.bundles[i].state) && db.bundles[i].logicalKey == key
  }

  function ActiveRunsOf(db: Db, b: Id): set<Id> {
    set i | i in db.runs && ActiveRun(db.runs[i].state) && db.runs[i].bundle == b
  }

  function ActiveUndosOf(db: Db, b: Id): set<Id> {
    set i | i in db.undos && ActiveUndo(db.undos[i].state) && db.undos[i].bundle == b
  }

  function UndosOf(db: Db, a: Id): set<Id> {
    set i | i in db.undos && db.undos[i].sourceRun == a
  }

  predicate AtMostOne(s: set<Id>) {
    forall i, j :: i in s && j in s ==> i == j
  }

  /** At most one active bundle per key, one active apply run and one active undo run per bundle,
      one undo per apply run, one current revision per bundle. */
  lemma AtMostOneActive(steps: seq<Step>, states: seq<Db>, k: nat, key: string, b: Id, a: Id)
    requires History(steps, states) && k < |states|
    ensures AtMostOne(ActiveBundlesOf(states[k], key))
    ensures AtMostOne(ActiveRunsOf(states[k], b))
    ensures AtMostOne(ActiveUndosOf(states[k], b))
    ensures AtMostOne(UndosOf(states[k], a))
    ensures AtMostOne(CurrentIds(states[k], b))
  {
    ReachableSound(steps, states, k);
  }
}
