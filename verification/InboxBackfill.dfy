/** Migration 0017 fills the review inbox with one INSERT ... SELECT over a populated store, while
    the full-text trigger of the inbox is already installed. */
module InboxBackfill {
  import opened Options
  import opened ReviewSchema
  import opened ReviewTriggers
  import opened ReviewStatements
  import opened ReviewInvariants
  import opened ReviewCurrent
  import opened ReviewRuns
  import FullText

  datatype InboxRow = InboxRow(
    state: BundleState, title: string, logicalKey: string, updatedAt: int,
    filename: Option<string>, path: Option<string>, format: Option<string>,
    candidate: Candidate, confidenceLabel: string,
    issueKind: Option<string>, issueMessage: Option<string>,
    accepted: nat, pending: nat, rejected: nat)

  // The indexed columns of review_inbox_entries_fts.
  function InboxColumns(row: InboxRow): FullText.Columns {
    var e := row.candidate.evidence;
    [Some(row.title), row.filename, row.path, row.candidate.source,
     if e.Some? then e.value.title else None,
     if e.Some? then e.value.artist else None,
     if e.Some? then e.value.album else None,
     row.issueMessage]
  }

  // ----- the computed columns -----

  function LowerChar(c: char): char {
    if 'A' <= c <= 'Z' then c - 'A' + 'a' else c
  }

  function Lower(s: string): string {
    seq(|s|, i requires 0 <= i < |s| => LowerChar(s[i]))
  }

  function AfterFirstDot(s: string): Option<string> {
    if s == "" then None
    else if s[0] == '.' then Some(s[1..])
    else AfterFirstDot(s[1..])
  }

  function Format(filename: Option<string>): Option<string> {
    match filename
    case None => None
    case Some(name) =>
      var rest := AfterFirstDot(name);
      if rest.Some? then Some(Lower(rest.value)) else None
  }

  function ConfidenceLabel(c: Candidate, state: BundleState): string {
    if c.evidence.Some? && c.confidence.None? then "Manual selection"
    else if c.confidence.Some? && c.confidence.value >= 0.85 then "High confidence"
    else if c.confidence.Some? && c.confidence.value >= 0.65 then "Medium confidence"
    else if c.confidence.Some? then "Low confidence"
    else if state == NeedsAttention then "Needs attention"
    else if state == Preparing then "Preparing"
    else "Not scored"
  }

  /** A score decides the label by itself; evidence without a score was selected by hand. */
  lemma LabelFollowsScore(c: Candidate, state: BundleState)
    ensures var shown := ConfidenceLabel(c, state);
            && (shown == "High confidence" <==> c.confidence.Some? && c.confidence.value >= 0.85)
            && (shown == "Medium confidence" <==> c.confidence.Some? && 0.65 <= c.confidence.value < 0.85)
            && (shown == "Low confidence" <==> c.confidence.Some? && c.confidence.value < 0.65)
            && (shown == "Manual selection" <==> c.confidence == None && c.evidence.Some?)
  {
  }

  function OperationsOf(db: Db, r: Id): set<Id> {
    set o | o in db.operations && db.operations[o].revision == r
  }

  function Decided(db: Db, r: Id, d: Decision): set<Id> {
    set o | o in db.operations && db.operations[o].revision == r && db.operations[o].decision == d
  }

  /** The revisions that survive the two joins. */
  function Joined(db: Db): set<Id> {
    set r | r in db.revisions && db.revisions[r].isCurrent
            && db.revisions[r].bundle in db.bundles && db.revisions[r].snapshot in db.snapshots
  }

  function InboxRowOf(db: Db, r: Id): InboxRow
    requires r in Joined(db)
  {
    var p := db.revisions[r];
    var b, s := db.bundles[p.bundle], db.snapshots[p.snapshot];
    InboxRow(b.state, b.title, b.logicalKey, b.updatedAt, s.filename, s.path, Format(s.filename),
             p.candidate, ConfidenceLabel(p.candidate, b.state),
             if b.error.Some? then Some("review") else None, b.error,
             |Decided(db, r, Accepted)|, |Decided(db, r, Pending)|, |Decided(db, r, Rejected)|)
  }

  datatype Entry = Entry(bundle: int, row: InboxRow)

  /** What the SELECT yields: an entry for each joined revision. */
  function Selected(db: Db): map<Id, Entry> {
    map r | r in Joined(db) :: Entry(db.revisions[r].bundle, InboxRowOf(db, r))
  }

  // ----- inserting what was selected -----

  /** No two of these entries are for the same bundle. */
  ghost predicate Distinct(entries: map<Id, Entry>, s: set<Id>) {
    forall i, j | i in s && j in s && i in entries && j in entries && entries[i].bundle == entries[j].bundle :: i == j
  }

  /** The rows of the entries in `done`, and no others. */
  ghost predicate Written(entries: map<Id, Entry>, rows: map<int, InboxRow>, done: set<Id>) {
    && done <= entries.Keys
    && (forall b :: b in rows ==> exists r :: r in done && entries[r].bundle == b)
    && (forall r :: r in done ==> entries[r].bundle in rows && rows[entries[r].bundle] == entries[r].row)
  }

  lemma WritesOneMore(entries: map<Id, Entry>, rows: map<int, InboxRow>, done: set<Id>, r: Id)
    requires Written(entries, rows, done) && Distinct(entries, done) && r in entries
    requires entries[r].bundle !in rows
    ensures Written(entries, rows[entries[r].bundle := entries[r].row], done + {r}) && Distinct(entries, done + {r})
  {
  }

  lemma ClashMeansTwoEntries(entries: map<Id, Entry>, rows: map<int, InboxRow>, done: set<Id>, r: Id)
    requires Written(entries, rows, done) && r in entries && r !in done
    requires entries[r].bundle in rows
    ensures !Distinct(entries, entries.Keys)
  {
    var i :| i in done && entries[i].bundle == entries[r].bundle;
  }

  ghost predicate Progress(entries: map<Id, Entry>, rows: map<int, InboxRow>, done: set<Id>) {
    Written(entries, rows, done) && Distinct(entries, done)
  }

  method InsertEntry(
    entries: map<Id, Entry>, inbox: FullText.IndexedTable<InboxRow>, r: Id, ghost written: set<Id>)
    returns (inserted: bool)
    requires inbox.InSync() && Progress(entries, inbox.rows, written)
    requires r in entries && r !in written
    modifies inbox
    ensures inbox.InSync()
    ensures inserted ==> Progress(entries, inbox.rows, written + {r})
    ensures !inserted ==> !Distinct(entries, entries.Keys)
  {
    ghost var rows := inbox.rows;
    inserted := inbox.Insert(entries[r].bundle, entries[r].row);
    if inserted {
      WritesOneMore(entries, rows, written, r);
    } else {
      ClashMeansTwoEntries(entries, rows, written, r);
    }
  }

  /** The INSERT goes through exactly when no two entries are for the same bundle; otherwise it leaves
      nothing. Either way the index answers for the rows there are. */
  method InsertSelected(entries: map<Id, Entry>, inbox: FullText.IndexedTable<InboxRow>) returns (done: bool)
    requires inbox.InSync() && inbox.rows == map[]
    modifies inbox
    ensures done <==> Distinct(entries, entries.Keys)
    ensures if done then Written(entries, inbox.rows, entries.Keys) else inbox.rows == map[]
    ensures inbox.InSync()
  {
    var savedRows, savedIndex := inbox.rows, inbox.index;
    var todo := entries.Keys;
    ghost var written: set<Id> := {};
    while exists r :: r in todo
      invariant inbox.InSync() && Progress(entries, inbox.rows, written)
      invariant written !! todo && written + todo == entries.Keys
      decreases |todo|
    {
      var r :| r in todo;
      var inserted := InsertEntry(entries, inbox, r, written);
      if !inserted {
        inbox.rows, inbox.index := savedRows, savedIndex;
        return false;
      }
      todo, written := todo - {r}, written + {r};
    }
    assert todo == {};
    assert written == entries.Keys;
    return true;
  }

  /** No bundle joins twice. */
  ghost predicate OneRowPerBundle(db: Db) {
    forall i, j | i in Joined(db) && j in Joined(db) && db.revisions[i].bundle == db.revisions[j].bundle :: i == j
  }

  /** One row for each joined revision, and no others. */
  ghost predicate Filled(db: Db, rows: map<int, InboxRow>) {
    && (forall b :: b in rows ==> exists r :: r in Joined(db) && db.revisions[r].bundle == b)
    && forall r :: r in Joined(db) ==>
         db.revisions[r].bundle in rows && rows[db.revisions[r].bundle] == InboxRowOf(db, r)
  }

  lemma SelectedIsJoined(db: Db, rows: map<int, InboxRow>)
    ensures Distinct(Selected(db), Selected(db).Keys) <==> OneRowPerBundle(db)
    ensures Written(Selected(db), rows, Selected(db).Keys) ==> Filled(db, rows)
  {
    if Written(Selected(db), rows, Selected(db).Keys) {
      forall r | r in Joined(db)
        ensures db.revisions[r].bundle in rows && rows[db.revisions[r].bundle] == InboxRowOf(db, r)
      {
        assert r in Selected(db).Keys;
      }
    }
    if Distinct(Selected(db), Selected(db).Keys) {
      forall i, j | i in Joined(db) && j in Joined(db) && db.revisions[i].bundle == db.revisions[j].bundle
        ensures i == j
      {
        assert i in Selected(db).Keys && j in Selected(db).Keys;
      }
    }
  }

  /** The statement succeeds exactly when no bundle joins twice. It then leaves one row per joined
      revision; otherwise it leaves nothing. Either way the index answers for the rows there are. */
  method Backfill(db: Db, inbox: FullText.IndexedTable<InboxRow>) returns (done: bool)
    requires inbox.InSync() && inbox.rows == map[]
    modifies inbox
    ensures done <==> OneRowPerBundle(db)
    ensures if done then Filled(db, inbox.rows) else inbox.rows == map[]
    ensures inbox.InSync()
  {
    done := InsertSelected(Selected(db), inbox);
    SelectedIsJoined(db, inbox.rows);
  }

  // ----- the upgrade around it -----

  /** The same upgrade has just added the evidence and confidence columns: they are NULL in every row. */
  function Widened(db: Db): Db {
    db.(revisions := map r | r in db.revisions ::
      db.revisions[r].(candidate := db.revisions[r].candidate.(evidence := None, confidence := None)))
  }

  lemma WidenedKeeps(db: Db)
    ensures Joined(Widened(db)) == Joined(db)
    ensures forall b :: HasCurrent(Widened(db), b) <==> HasCurrent(db, b)
    ensures forall r :: OperationsOf(Widened(db), r) == OperationsOf(db, r)
    ensures OneRowPerBundle(Widened(db)) <==> OneRowPerBundle(db)
  {
    forall b ensures HasCurrent(Widened(db), b) <==> HasCurrent(db, b) {
      if HasCurrent(db, b) {
        var r :| r in db.revisions && db.revisions[r].bundle == b && db.revisions[r].isCurrent;
        assert r in Widened(db).revisions && Widened(db).revisions[r].isCurrent;
      }
    }
  }

  /** No candidate evidence, no score, and a label that follows from the state alone. */
  predicate Unscored(row: InboxRow) {
    && row.candidate.evidence == None && row.candidate.confidence == None
    && row.confidenceLabel ==
       match row.state
       case NeedsAttention => "Needs attention"
       case Preparing => "Preparing"
       case _ => "Not scored"
  }

  /** The row shows its bundle, the current revision and that revision's snapshot. */
  ghost predicate Shows(db: Db, row: InboxRow, b: Id, r: Id)
    requires b in db.bundles && r in db.revisions && db.revisions[r].snapshot in db.snapshots
  {
    var bundle, revision := db.bundles[b], db.revisions[r];
    var snapshot := db.snapshots[revision.snapshot];
    && row.state == bundle.state && row.title == bundle.title && row.logicalKey == bundle.logicalKey
    && row.updatedAt == bundle.updatedAt && row.issueMessage == bundle.error
    && row.issueKind == (if bundle.error.Some? then Some("review") else None)
    && row.filename == snapshot.filename && row.path == snapshot.path
    && row.candidate.source == revision.candidate.source && row.candidate.ref == revision.candidate.ref
  }

  /** The row counts the operations of the revision by their decision. */
  ghost predicate Counts(db: Db, row: InboxRow, r: Id) {
    && row.accepted == |set o | o in db.operations && db.operations[o].revision == r
                                && db.operations[o].decision == Accepted|
    && row.pending == |set o | o in db.operations && db.operations[o].revision == r
                               && db.operations[o].decision == Pending|
    && row.rejected == |set o | o in db.operations && db.operations[o].revision == r
                                && db.operations[o].decision == Rejected|
  }

  lemma BackfilledShows(db: Db, rows: map<int, InboxRow>, b: Id, r: Id)
    requires Linked(db) && Filled(Widened(db), rows) && IsCurrent(db, b, r)
    ensures b in db.bundles && r in db.revisions && db.revisions[r].snapshot in db.snapshots
    ensures b in rows && Shows(db, rows[b], b, r) && Counts(db, rows[b], r)
  {
    assert RevisionOwned(db, db.revisions[r]);
    CurrentIsJoined(db, b, r);
    WidenedKeeps(db);
    assert rows[b] == InboxRowOf(Widened(db), r);
  }

  lemma BackfilledUnscored(db: Db, rows: map<int, InboxRow>, b: int)
    requires Filled(Widened(db), rows) && b in rows
    ensures Unscored(rows[b])
  {
    var r :| r in Joined(Widened(db)) && Widened(db).revisions[r].bundle == b;
    assert rows[b] == InboxRowOf(Widened(db), r);
  }

  /** The part of the upgrade that creates the inbox, its index and triggers, and fills it. */
  method Upgrade(db: Db, tok: FullText.Tokenizer)
    returns (inbox: FullText.IndexedTable<InboxRow>, done: bool)
    ensures fresh(inbox) && inbox.InSync() && inbox.tok == tok && inbox.columns == InboxColumns
    ensures done <==> OneRowPerBundle(db)
    ensures done ==> Filled(Widened(db), inbox.rows)
    ensures done ==> forall b :: b in inbox.rows ==> Unscored(inbox.rows[b])
  {
    WidenedKeeps(db);
    inbox := new FullText.IndexedTable<InboxRow>(tok, InboxColumns);
    done := Backfill(Widened(db), inbox);
    if done {
      forall b | b in inbox.rows ensures Unscored(inbox.rows[b]) {
        BackfilledUnscored(db, inbox.rows, b);
      }
    }
  }

  /** On a store that a run has produced the upgrade goes through: a bundle is in the inbox exactly when
      it has a current revision, and the index is in step. */
  method UpgradeReachable(db: Db, tok: FullText.Tokenizer, ghost steps: seq<Step>, ghost states: seq<Db>, ghost k: nat)
    returns (inbox: FullText.IndexedTable<InboxRow>, done: bool)
    requires History(steps, states) && k < |states| && db == states[k]
    ensures done && inbox.InSync() && inbox.tok == tok && inbox.columns == InboxColumns
    ensures forall b :: b in inbox.rows <==> HasCurrent(db, b)
    ensures Filled(Widened(db), inbox.rows)
    ensures Linked(db) && forall b :: b in inbox.rows ==> Unscored(inbox.rows[b])
    ensures forall b, r :: IsCurrent(db, b, r) ==>
              b in inbox.rows && Shows(db, inbox.rows[b], b, r) && Counts(db, inbox.rows[b], r)
  {
    BackfillCannotClash(steps, states, k);
    inbox, done := Upgrade(db, tok);
    BackfillIsComplete(steps, states, k, inbox.rows);
    ReachableSound(steps, states, k);
    forall b, r | IsCurrent(db, b, r)
      ensures b in db.bundles && r in db.revisions && db.revisions[r].snapshot in db.snapshots
      ensures b in inbox.rows && Shows(db, inbox.rows[b], b, r) && Counts(db, inbox.rows[b], r)
    {
      BackfilledShows(db, inbox.rows, b, r);
    }
  }

  /** The token occurs in one of the eight indexed columns of the row. */
  ghost predicate Mentions(tok: FullText.Tokenizer, row: InboxRow, token: string) {
    || FullText.Holds(tok, Some(row.title), token)
    || FullText.Holds(tok, row.filename, token)
    || FullText.Holds(tok, row.path, token)
    || FullText.Holds(tok, row.candidate.source, token)
    || FullText.Holds(tok, row.issueMessage, token)
    || (row.candidate.evidence.Some?
        && var e := row.candidate.evidence.value;
           || FullText.Holds(tok, e.title, token)
           || FullText.Holds(tok, e.artist, token)
           || FullText.Holds(tok, e.album, token))
  }

  lemma ScanIsMentions(
    tok: FullText.Tokenizer, table: map<int, FullText.Columns>, token: string, b: int, row: InboxRow)
    requires b in table && table[b] == InboxColumns(row)
    ensures b in FullText.Scan(tok, table, token) <==> Mentions(tok, row, token)
  {
    var columns := table[b];
    assert |columns| == 8;
    assert columns[0] == Some(row.title) && columns[1] == row.filename && columns[2] == row.path;
    assert columns[3] == row.candidate.source && columns[7] == row.issueMessage;
    var e := row.candidate.evidence;
    assert columns[4] == if e.Some? then e.value.title else None;
    assert columns[5] == if e.Some? then e.value.artist else None;
    assert columns[6] == if e.Some? then e.value.album else None;
  }

  /** A search finds exactly the rows that mention the token in some column. */
  lemma InboxSearch(inbox: FullText.IndexedTable<InboxRow>, token: string, b: int)
    requires inbox.InSync() && inbox.columns == InboxColumns
    ensures b in FullText.Lookup(inbox.index, token)
       <==> b in inbox.rows && Mentions(inbox.tok, inbox.rows[b], token)
  {
    FullText.LookupIsScan(inbox.tok, inbox.Content(), token);
    if b in inbox.rows {
      ScanIsMentions(inbox.tok, inbox.Content(), token, b, inbox.rows[b]);
    }
  }

  /** After the backfill a search finds exactly the bundles with a joined revision whose row mentions
      the token in some column. */
  lemma BackfilledRowsAreFound(db: Db, inbox: FullText.IndexedTable<InboxRow>, token: string, b: int)
    requires inbox.InSync() && inbox.columns == InboxColumns
    requires Filled(db, inbox.rows)
    ensures b in FullText.Lookup(inbox.index, token)
       <==> exists r :: r in Joined(db) && db.revisions[r].bundle == b
                        && Mentions(inbox.tok, InboxRowOf(db, r), token)
  {
    InboxSearch(inbox, token, b);
  }

  // ----- what that means for a store that a run has produced -----

  lemma DecisionsAddUp(db: Db, r: Id)
    ensures |Decided(db, r, Accepted)| + |Decided(db, r, Pending)| + |Decided(db, r, Rejected)|
            == |OperationsOf(db, r)|
  {
    var a, p, n := Decided(db, r, Accepted), Decided(db, r, Pending), Decided(db, r, Rejected);
    forall o | o in OperationsOf(db, r) ensures o in a + p + n {
    }
    assert a + p + n == OperationsOf(db, r);
    assert |a + p| == |a| + |p|;
  }

  /** In every reachable store no bundle joins twice, so the primary key cannot clash. */
  lemma BackfillCannotClash(steps: seq<Step>, states: seq<Db>, k: nat)
    requires History(steps, states) && k < |states|
    ensures OneRowPerBundle(states[k])
  {
    ReachableSound(steps, states, k);
  }

  lemma CurrentIsJoined(db: Db, b: Id, r: Id)
    requires Linked(db) && IsCurrent(db, b, r)
    ensures r in Joined(db)
  {
    assert RevisionOwned(db, db.revisions[r]);
  }

  /** In every reachable store the rows of the backfill are the bundles that have a current revision,
      and the three counts of a row add up to that revision's operations. */
  lemma BackfillIsComplete(steps: seq<Step>, states: seq<Db>, k: nat, rows: map<int, InboxRow>)
    requires History(steps, states) && k < |states|
    requires Filled(Widened(states[k]), rows)
    ensures forall b :: b in rows <==> HasCurrent(states[k], b)
    ensures forall b, r :: IsCurrent(states[k], b, r) ==>
              && b in rows
              && rows[b].accepted + rows[b].pending + rows[b].rejected == |OperationsOf(states[k], r)|
  {
    ReachableSound(steps, states, k);
    WidenedIsComplete(states[k], rows);
  }

  lemma WidenedIsComplete(db: Db, rows: map<int, InboxRow>)
    requires Linked(db) && Filled(Widened(db), rows)
    ensures forall b :: b in rows <==> HasCurrent(db, b)
    ensures forall b, r :: IsCurrent(db, b, r) ==>
              b in rows && rows[b].accepted + rows[b].pending + rows[b].rejected == |OperationsOf(db, r)|
  {
    WidenedKeeps(db);
    forall b, r | IsCurrent(db, b, r)
      ensures b in rows && rows[b].accepted + rows[b].pending + rows[b].rejected == |OperationsOf(db, r)|
    {
      CurrentIsJoined(db, b, r);
      assert rows[b] == InboxRowOf(Widened(db), r);
      DecisionsAddUp(Widened(db), r);
    }
    forall b ensures b in rows <==> HasCurrent(db, b) {
      if HasCurrent(db, b) {
        var r :| r in db.revisions && db.revisions[r].bundle == b && db.revisions[r].isCurrent;
        assert IsCurrent(db, b, r);
      }
      if b in rows {
        var r :| r in Joined(db) && Widened(db).revisions[r].bundle == b;
        assert db.revisions[r].isCurrent && db.revisions[r].bundle == b;
      }
    }
  }

  /** The format column is the file extension exactly when the name has a single dot: it takes
      everything after the first dot, not after the last. */
  lemma FormatIsExtensionIff(stem: string, ext: string)
    requires '.' !in ext
    ensures Format(Some(stem + "." + ext)) == Some(Lower(ext)) <==> '.' !in stem
  {
    FirstDot(stem, "." + ext);
    assert stem + "." + ext == stem + ("." + ext);
    var rest := AfterFirstDot(stem + ("." + ext)).value;
    assert ("." + ext)[1..] == ext;
    assert |Lower(rest)| == |rest| && |Lower(ext)| == |ext|;
  }

  /** s is t with every ASCII capital replaced by its small letter. */
  ghost predicate LowerOf(s: string, t: string) {
    && |s| == |t|
    && forall i | 0 <= i < |s| ::
         if 'A' <= t[i] <= 'Z' then s[i] as int == t[i] as int + 32 else s[i] == t[i]
  }

  /** Without a dot there is no format; otherwise it is what follows the first dot, in small letters. */
  lemma FormatIs(filename: Option<string>, stem: string, rest: string)
    ensures filename == None || '.' !in filename.value ==> Format(filename) == None
    ensures '.' !in stem ==>
              Format(Some(stem + "." + rest)).Some? && LowerOf(Format(Some(stem + "." + rest)).value, rest)
  {
    if filename.Some? && '.' !in filename.value {
      NoDot(filename.value);
    }
    FirstDot(stem, "." + rest);
    assert stem + "." + rest == stem + ("." + rest);
    assert ("." + rest)[1..] == rest;
  }

  lemma {:induction false} NoDot(s: string)
    requires '.' !in s
    ensures AfterFirstDot(s) == None
  {
    if s != "" {
      NoDot(s[1..]);
    }
  }

  lemma FormatIsNotAlwaysExtension()
    ensures Format(Some("a.b.flac")) == Some("b.flac")
  {
    assert Lower("b.flac") == "b.flac";
  }

  lemma {:induction false} FirstDot(stem: string, rest: string)
    requires rest != "" && rest[0] == '.'
    ensures AfterFirstDot(stem + rest).Some?
    ensures '.' !in stem ==> AfterFirstDot(stem + rest).value == rest[1..]
    ensures '.' in stem ==> |AfterFirstDot(stem + rest).value| >= |rest|
  {
    if stem == "" {
      assert stem + rest == rest;
    } else {
      assert (stem + rest)[1..] == stem[1..] + rest;
      if stem[0] != '.' {
        FirstDot(stem[1..], rest);
      }
    }
  }
}
