/** One review from start to finish, as a run of statements: the theorems about runs are not empty. */
module ReviewExample {
  import opened Options
  import opened ReviewSchema
  import opened ReviewTriggers
  import opened ReviewStatements
  import opened ReviewCurrent
  import opened ReviewInvariants
  import opened ReviewTransitions
  import opened ReviewRuns
  import opened ReviewEffects

  const CANDIDATE := Candidate(None, None, None, None)
  const FIRST := Revision(1, 1, 1, 0, "d1", false, CANDIDATE)
  const SECOND := Revision(1, 1, 2, 1, "d2", false, CANDIDATE)
  const RUN := ApplyRun(1, 2, "k", RunPending, "m", None, None)
  const ATTEMPT := Attempt(1, 1, None, AttemptPending, None)
  const CONTENT := Content(SetTag, "title", "track", 1, None, Some("x"))

  function ToState(s: BundleState): Stmt {
    OnBundle(UpdateBundle(1, BundlePatch(Some(s), "key", "title", None, 0)))
  }

  /** A preparing bundle gets its first revision, which then becomes current; the bundle becomes
      visible, is revised once, has an operation accepted, and is applied. */
  function Statement(k: nat): Stmt {
    match k
    case 0 => OnBundle(InsertBundle(1, Bundle("key", "title", Preparing, None, 0)))
    case 1 => OnSnapshot(InsertSnapshot(1, Snapshot(1, "s", None, None)))
    case 2 => OnRevision(InsertRevision(1, FIRST))
    case 3 => OnRevision(SetCurrent([(1, true)]))
    case 4 => ToState(Ready)
    case 5 => OnRevision(InsertRevision(2, SECOND))
    case 6 => OnRevision(SetCurrent([(1, false)]))
    case 7 => OnOperation(InsertOperation(1, Operation(2, 1, 0, CONTENT, Pending)))
    case 8 => OnOperation(SetDecision(1, Accepted))
    case 9 => ToState(Applying)
    case 10 => OnRun(InsertRun(1, RUN))
    case 11 => OnAttempt(InsertAttempt(1, ATTEMPT))
    case _ => ToState(Applied)
  }

  /** The store after the first so many of the statements. */
  function Stage(k: nat): Db {
    Db(if k < 1 then map[] else map[1 := Bundle("key", "title", StateAt(k), None, 0)],
       if k < 2 then map[] else map[1 := Snapshot(1, "s", None, None)],
       if k < 3 then map[] else if k < 6 then map[1 := FIRST.(isCurrent := k >= 4)]
       else map[1 := FIRST.(isCurrent := k < 7), 2 := SECOND.(isCurrent := k >= 7)],
       if k < 8 then map[] else map[1 := Operation(2, 1, 0, CONTENT, if k < 9 then Pending else Accepted)],
       if k < 11 then map[] else map[1 := RUN],
       if k < 12 then map[] else map[1 := ATTEMPT],
       map[])
  }

  function StateAt(k: nat): BundleState {
    if k < 5 then Preparing else if k < 10 then Ready else if k < 13 then Applying else Applied
  }

  ghost predicate Proceeds(v: Schema, k: nat) {
    Exec(v, Stage(k), Statement(k)) == Committed(Stage(k + 1))
  }

  ghost predicate Sound(k: nat) {
    Linked(Stage(k)) && Indexed(Stage(k))
  }

  lemma SoundNext(v: Schema, k: nat)
    requires Sound(k) && Proceeds(v, k)
    ensures Sound(k + 1)
  {
    AfterSound(v, Stage(k), Statement(k));
  }

  lemma Inserted(v: Schema)
    requires Sound(0)
    ensures Proceeds(v, 0)
  {
    InsertBundleEffect(v, Stage(0), 1, Bundle("key", "title", Preparing, None, 0));
  }

  lemma Snapshotted(v: Schema)
    requires Sound(1)
    ensures Proceeds(v, 1)
  {
    InsertSnapshotEffect(v, Stage(1), 1, Snapshot(1, "s", None, None));
  }

  lemma Proposed(v: Schema)
    requires Sound(2)
    ensures Proceeds(v, 2)
  {
    InsertRevisionEffect(v, Stage(2), 1, FIRST);
  }

  lemma MadeCurrent(v: Schema)
    requires Sound(3)
    ensures Proceeds(v, 3)
  {
    SetMarkerEffect(v, Stage(3), 1);
  }

  lemma MadeReady(v: Schema)
    requires Sound(4)
    ensures Proceeds(v, 4)
  {
    UpdateBundleEffect(v, Stage(4), 1, BundlePatch(Some(Ready), "key", "title", None, 0));
    assert IsCurrent(Stage(4), 1, 1);
  }

  lemma Revised(v: Schema)
    requires Sound(5)
    ensures Proceeds(v, 5)
  {
    InsertRevisionEffect(v, Stage(5), 2, SECOND);
  }

  lemma Promoted(v: Schema)
    requires Sound(6)
    ensures Proceeds(v, 6)
  {
    var db := Stage(6);
    assert IsCurrent(db, 1, 1) && SwapsCurrent(db, 1) && SucceedsTo(db.revisions[1], db.revisions[2]);
    ClearCommitsIff(db, 1, 1);
  }

  lemma Operated(v: Schema)
    requires Sound(7)
    ensures Proceeds(v, 7)
  {
    InsertOperationEffect(v, Stage(7), 1, Operation(2, 1, 0, CONTENT, Pending));
  }

  lemma Decided(v: Schema)
    requires Sound(8)
    ensures Proceeds(v, 8)
  {
    SetDecisionEffect(v, Stage(8), 1, Accepted);
  }

  lemma Started(v: Schema)
    requires Sound(9)
    ensures Proceeds(v, 9)
  {
    UpdateBundleEffect(v, Stage(9), 1, BundlePatch(Some(Applying), "key", "title", None, 0));
    assert IsCurrent(Stage(9), 1, 2) && Stage(9).operations[1].revision == 2;
  }

  lemma Running(v: Schema)
    requires Sound(10)
    ensures Proceeds(v, 10)
  {
    InsertRunEffect(v, Stage(10), 1, RUN);
  }

  lemma Attempted(v: Schema)
    requires Sound(11)
    ensures Proceeds(v, 11)
  {
    InsertAttemptEffect(v, Stage(11), 1, ATTEMPT);
  }

  lemma Finished(v: Schema)
    requires Sound(12)
    ensures Proceeds(v, 12)
  {
    UpdateBundleEffect(v, Stage(12), 1, BundlePatch(Some(Applied), "key", "title", None, 0));
  }

  lemma EveryStatementProceeds(v: Schema, k: nat)
    requires k < 13 && Sound(k)
    ensures Proceeds(v, k)
  {
    match k
    case 0 => Inserted(v);
    case 1 => Snapshotted(v);
    case 2 => Proposed(v);
    case 3 => MadeCurrent(v);
    case 4 => MadeReady(v);
    case 5 => Revised(v);
    case 6 => Promoted(v);
    case 7 => Operated(v);
    case 8 => Decided(v);
    case 9 => Started(v);
    case 10 => Running(v);
    case 11 => Attempted(v);
    case _ => Finished(v);
  }

  lemma {:induction false} StageSound(v: Schema, k: nat)
    requires k <= 13
    ensures Sound(k)
  {
    if k > 0 {
      StageSound(v, k - 1);
      EveryStatementProceeds(v, k - 1);
      SoundNext(v, k - 1);
    }
  }

  /** The bundle is in this state, and this is its one current revision. */
  ghost predicate Shown(db: Db, s: BundleState, r: Id) {
    1 in db.bundles && db.bundles[1].state == s && CurrentIds(db, 1) == {r}
  }

  /** None of the statements aborts, whichever version of the state trigger is in force: after five of
      them the bundle is visible with its first revision current, after seven the second one is, and
      at the end it is applied with that revision and its accepted operation. */
  lemma ReviewGoesThrough(v: Schema) returns (steps: seq<Step>, states: seq<Db>)
    ensures History(steps, states) && |steps| == 13
    ensures forall k | 0 <= k < 13 :: Exec(v, states[k], steps[k].stmt) == Committed(states[k + 1])
    ensures Shown(states[5], Ready, 1) && Shown(states[7], Ready, 2) && Shown(states[13], Applied, 2)
    ensures AcceptedOnCurrent(states[13], 1)
  {
    steps := seq(13, k requires 0 <= k < 13 => Step(v, Statement(k)));
    states := seq(14, k requires 0 <= k < 14 => Stage(k));
    forall k | 0 <= k < 13 ensures Exec(v, states[k], steps[k].stmt) == Committed(states[k + 1]) {
      StageSound(v, k);
      EveryStatementProceeds(v, k);
    }
    assert forall k | 0 <= k < 13 :: steps[k].schema == v;
    assert IsCurrent(states[13], 1, 2) && 1 in states[13].operations;
  }
}
