/** Migration 0018 does not ask whether an undo run and its apply run are of one bundle. This is
    what that means over whole runs. */
module ReviewUndos {
  import opened Options
  import opened ReviewSchema
  import opened ReviewTriggers
  import opened ReviewStatements
  import opened ReviewInvariants
  import opened ReviewCurrent
  import opened ReviewRuns

  ghost predicate UndosAgree(db: Db) {
    forall u :: u in db.undos ==>
      db.undos[u].sourceRun in db.runs && db.runs[db.undos[u].sourceRun].bundle == db.undos[u].bundle
  }

  /** An INSERT of an undo run for another bundle than its apply run's. */
  predicate InsertsForeignUndo(db: Db, stmt: Stmt) {
    && stmt.OnUndo? && stmt.undo.InsertUndo? && stmt.undo.undo.sourceRun in db.runs
    && db.runs[stmt.undo.undo.sourceRun].bundle != stmt.undo.undo.bundle
  }

  /** An apply run that an undo run refers to stays, and stays in its bundle. */
  lemma UndoneRunKeepsBundle(db: Db, stmt: RunStmt, u: Id)
    requires Linked(db) && u in db.undos && ExecRun(db, stmt).Committed?
    ensures var a, next := db.undos[u].sourceRun, ExecRun(db, stmt).db;
            a in db.runs && a in next.runs && next.runs[a].bundle == db.runs[a].bundle
  {
    assert UndoOwned(db, db.undos[u]);
  }

  lemma RunStmtKeepsAgreement(db: Db, stmt: RunStmt)
    requires Linked(db) && UndosAgree(db) && ExecRun(db, stmt).Committed?
    ensures UndosAgree(ExecRun(db, stmt).db)
  {
    RunTouches(db, stmt);
    forall u | u in db.undos
      ensures var a, next := db.undos[u].sourceRun, ExecRun(db, stmt).db;
              a in next.runs && next.runs[a].bundle == db.undos[u].bundle
    {
      UndoneRunKeepsBundle(db, stmt, u);
    }
  }

  lemma UndoStmtAgreesIff(db: Db, stmt: UndoStmt)
    requires UndosAgree(db) && ExecUndo(db, stmt).Committed?
    ensures UndosAgree(ExecUndo(db, stmt).db) <==> !InsertsForeignUndo(db, OnUndo(stmt))
  {
    var next := ExecUndo(db, stmt).db;
    if InsertsForeignUndo(db, OnUndo(stmt)) {
      assert stmt.id in next.undos;
    }
  }

  lemma AgreesIff(v: Schema, db: Db, stmt: Stmt)
    requires Linked(db) && UndosAgree(db) && Exec(v, db, stmt).Committed?
    ensures UndosAgree(Exec(v, db, stmt).db) <==> !InsertsForeignUndo(db, stmt)
  {
    match stmt
    case OnRun(s) => RunStmtKeepsAgreement(db, s);
    case OnUndo(s) => UndoStmtAgreesIff(db, s);
    case _ => Untouched(v, db, stmt);
  }

  ghost predicate CommitsForeignUndo(steps: seq<Step>, states: seq<Db>, k: nat)
    requires History(steps, states) && k < |steps|
  {
    InsertsForeignUndo(states[k], steps[k].stmt) && Exec(steps[k].schema, states[k], steps[k].stmt).Committed?
  }

  lemma StepAgreesIff(steps: seq<Step>, states: seq<Db>, k: nat)
    requires History(steps, states) && k < |steps| && UndosAgree(states[k])
    ensures UndosAgree(states[k + 1]) <==> !CommitsForeignUndo(steps, states, k)
  {
    ReachableSound(steps, states, k);
    if Exec(steps[k].schema, states[k], steps[k].stmt).Committed? {
      AgreesIff(steps[k].schema, states[k], steps[k].stmt);
    }
  }

  lemma {:induction false} AgreeInPrefix(steps: seq<Step>, states: seq<Db>, k: nat)
    requires History(steps, states) && k < |states|
    requires forall i: nat | i < k :: !CommitsForeignUndo(steps, states, i)
    ensures UndosAgree(states[k])
  {
    if k > 0 {
      AgreeInPrefix(steps, states, k - 1);
      StepAgreesIff(steps, states, k - 1);
    }
  }

  /** Over a whole run: every undo run is of its apply run's bundle, in every state, exactly when no
      INSERT of one for another bundle was committed. */
  lemma UndosAlwaysAgreeIff(steps: seq<Step>, states: seq<Db>)
    requires History(steps, states)
    ensures (forall k: nat | k < |states| :: UndosAgree(states[k]))
       <==> (forall k: nat | k < |steps| :: !CommitsForeignUndo(steps, states, k))
  {
    if k: nat :| k < |steps| && CommitsForeignUndo(steps, states, k) {
      if UndosAgree(states[k]) {
        StepAgreesIff(steps, states, k);
      }
    } else {
      forall k: nat | k < |states| ensures UndosAgree(states[k]) {
        AgreeInPrefix(steps, states, k);
      }
    }
  }

  /** Such an INSERT does go through, for every apply run not undone yet and every other bundle that
      has no undo run. */
  lemma ForeignUndoCommits(v: Schema, db: Db, a: Id, b: Id, id: Id)
    requires Linked(db) && Indexed(db) && a in db.runs && b in db.bundles && id !in db.undos
    requires db.runs[a].bundle != b
    requires forall u :: u in db.undos ==> db.undos[u].sourceRun != a && db.undos[u].bundle != b
    ensures var stmt := OnUndo(InsertUndo(id, UndoRun(b, a, "key", UndoPending, "manifest", None, None)));
            InsertsForeignUndo(db, stmt) && Exec(v, db, stmt).Committed? && !UndosAgree(Exec(v, db, stmt).db)
  {
    var row := UndoRun(b, a, "key", UndoPending, "manifest", None, None);
    assert db.undos[id := row][id] == row;
  }
}
