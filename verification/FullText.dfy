/** External-content full-text indexes kept by triggers. The index is a multiset of postings; its
    'delete' command takes away the postings of whatever values it is handed. */
module FullText {
  import opened Options

  type Columns = seq<Option<string>>
  type Tokenizer = string -> seq<string>

  datatype Posting = Posting(token: string, rowid: int, column: nat, position: nat)

  function Tokens(tok: Tokenizer, value: Option<string>): seq<string> {
    if value.Some? then tok(value.value) else []
  }

  function ColumnPostings(id: int, column: nat, tokens: seq<string>): multiset<Posting> {
    if tokens == [] then multiset{}
    else
      var last := |tokens| - 1;
      ColumnPostings(id, column, tokens[..last]) + multiset{Posting(tokens[last], id, column, last)}
  }

  /** All postings of one row with these column values. */
  function Postings(tok: Tokenizer, id: int, values: Columns): multiset<Posting> {
    if values == [] then multiset{}
    else
      var last := |values| - 1;
      Postings(tok, id, values[..last]) + ColumnPostings(id, last, Tokens(tok, values[last]))
  }

  predicate Occurs(tok: Tokenizer, id: int, values: Columns, p: Posting) {
    && p.rowid == id && p.column < |values| && values[p.column].Some?
    && var tokens := tok(values[p.column].value); p.position < |tokens| && tokens[p.position] == p.token
  }

  lemma {:induction false} ColumnPostingsCount(id: int, column: nat, tokens: seq<string>, p: Posting)
    ensures ColumnPostings(id, column, tokens)[p] ==
            if p.rowid == id && p.column == column && p.position < |tokens| && tokens[p.position] == p.token
            then 1 else 0
  {
    if tokens != [] {
      ColumnPostingsCount(id, column, tokens[..|tokens| - 1], p);
    }
  }

  /** Every token of a row is posted exactly once, at its own place, and nothing else is. */
  lemma {:induction false} PostingsCount(tok: Tokenizer, id: int, values: Columns, p: Posting)
    ensures Postings(tok, id, values)[p] == if Occurs(tok, id, values, p) then 1 else 0
  {
    if values != [] {
      var last := |values| - 1;
      PostingsCount(tok, id, values[..last], p);
      ColumnPostingsCount(id, last, Tokens(tok, values[last]), p);
    }
  }

  // ----- the index rebuilt from the table -----

  ghost function Rebuilt(tok: Tokenizer, table: map<int, Columns>): multiset<Posting>
    decreases |table|
  {
    if exists id :: id in table then
      var id :| id in table;
      Rebuilt(tok, table - {id}) + Postings(tok, id, table[id])
    else multiset{}
  }

  /** However the rows are visited, a posting is in the rebuilt index as often as in its own row. */
  lemma {:induction false} RebuiltCount(tok: Tokenizer, table: map<int, Columns>, p: Posting)
    ensures Rebuilt(tok, table)[p] ==
            if p.rowid in table && Occurs(tok, p.rowid, table[p.rowid], p) then 1 else 0
    decreases |table|
  {
    if exists id :: id in table {
      var id :| id in table && Rebuilt(tok, table) == Rebuilt(tok, table - {id}) + Postings(tok, id, table[id]);
      RebuiltCount(tok, table - {id}, p);
      PostingsCount(tok, id, table[id], p);
    }
  }

  lemma RebuiltAfterInsert(tok: Tokenizer, table: map<int, Columns>, id: int, values: Columns)
    requires id !in table
    ensures Rebuilt(tok, table[id := values]) == Rebuilt(tok, table) + Postings(tok, id, values)
  {
    forall p: Posting
      ensures Rebuilt(tok, table[id := values])[p] == (Rebuilt(tok, table) + Postings(tok, id, values))[p]
    {
      RebuiltCount(tok, table[id := values], p);
      RebuiltCount(tok, table, p);
      PostingsCount(tok, id, values, p);
    }
  }

  /** 'delete' with the values `handed` leaves the index of the remaining rows exactly when they
      cover every posting of the row; otherwise the rest of the row stays behind as ghosts. */
  lemma DeleteIsExactIff(tok: Tokenizer, table: map<int, Columns>, id: int, handed: Columns)
    requires id in table
    ensures Rebuilt(tok, table) - Postings(tok, id, handed) == Rebuilt(tok, table - {id})
       <==> Postings(tok, id, table[id]) <= Postings(tok, id, handed)
  {
    var left := Rebuilt(tok, table) - Postings(tok, id, handed);
    forall p: Posting
      ensures left[p] == Rebuilt(tok, table - {id})[p]
         <==> Postings(tok, id, table[id])[p] <= Postings(tok, id, handed)[p]
    {
      RebuiltCount(tok, table, p);
      RebuiltCount(tok, table - {id}, p);
      PostingsCount(tok, id, table[id], p);
      PostingsCount(tok, id, handed, p);
    }
    if Postings(tok, id, table[id]) <= Postings(tok, id, handed) {
      assert left == Rebuilt(tok, table - {id});
    }
    if left == Rebuilt(tok, table - {id}) {
      assert forall p: Posting :: Postings(tok, id, table[id])[p] <= Postings(tok, id, handed)[p];
    }
  }

  // ----- statements on the content table, with their AFTER triggers -----

  datatype Stmt = Insert(id: int, values: Columns) | Update(id: int, newId: int, values: Columns) | Delete(id: int)

  /** The statement violates the row id's uniqueness and is rolled back. */
  predicate Clashes(table: map<int, Columns>, stmt: Stmt) {
    match stmt
    case Insert(id, _) => id in table
    case Update(id, newId, _) => id in table && newId != id && newId in table
    case Delete(_) => false
  }

  function TableAfter(table: map<int, Columns>, stmt: Stmt): map<int, Columns> {
    if Clashes(table, stmt) then table
    else match stmt
      case Insert(id, values) => table[id := values]
      case Update(id, newId, values) => if id in table then (table - {id})[newId := values] else table
      case Delete(id) => table - {id}
  }

  function IndexAfter(tok: Tokenizer, table: map<int, Columns>, index: multiset<Posting>, stmt: Stmt)
    : multiset<Posting>
  {
    if Clashes(table, stmt) then index
    else match stmt
      case Insert(id, values) => index + Postings(tok, id, values)
      case Update(id, newId, values) =>
        if id in table then index - Postings(tok, id, table[id]) + Postings(tok, newId, values) else index
      case Delete(id) => if id in table then index - Postings(tok, id, table[id]) else index
  }

  /** One statement with its trigger turns the rebuilt index into the rebuilt index. */
  lemma TriggersKeepRebuilt(tok: Tokenizer, table: map<int, Columns>, stmt: Stmt)
    ensures IndexAfter(tok, table, Rebuilt(tok, table), stmt) == Rebuilt(tok, TableAfter(table, stmt))
  {
    if !Clashes(table, stmt) {
      match stmt
      case Insert(id, values) =>
        RebuiltAfterInsert(tok, table, id, values);
      case Update(id, newId, values) =>
        if id in table {
          DeleteIsExactIff(tok, table, id, table[id]);
          RebuiltAfterInsert(tok, table - {id}, newId, values);
        }
      case Delete(id) =>
        if id in table {
          DeleteIsExactIff(tok, table, id, table[id]);
        } else {
          assert table - {id} == table;
        }
    }
  }

  function TableAfterAll(table: map<int, Columns>, stmts: seq<Stmt>): map<int, Columns>
    decreases stmts
  {
    if stmts == [] then table else TableAfterAll(TableAfter(table, stmts[0]), stmts[1..])
  }

  function IndexAfterAll(tok: Tokenizer, table: map<int, Columns>, index: multiset<Posting>, stmts: seq<Stmt>)
    : multiset<Posting>
    decreases stmts
  {
    if stmts == [] then index
    else IndexAfterAll(tok, TableAfter(table, stmts[0]), IndexAfter(tok, table, index, stmts[0]), stmts[1..])
  }

  /** After any run of statements the index is the one rebuilt from the table. */
  lemma {:induction false} IndexStaysRebuilt(tok: Tokenizer, table: map<int, Columns>, stmts: seq<Stmt>)
    ensures IndexAfterAll(tok, table, Rebuilt(tok, table), stmts) == Rebuilt(tok, TableAfterAll(table, stmts))
    decreases stmts
  {
    if stmts != [] {
      TriggersKeepRebuilt(tok, table, stmts[0]);
      IndexStaysRebuilt(tok, TableAfter(table, stmts[0]), stmts[1..]);
    }
  }

  // ----- lookup -----

  function Lookup(index: multiset<Posting>, token: string): set<int> {
    set p | p in index && p.token == token :: p.rowid
  }

  predicate Holds(tok: Tokenizer, value: Option<string>, token: string) {
    value.Some? && token in tok(value.value)
  }

  function Scan(tok: Tokenizer, table: map<int, Columns>, token: string): set<int> {
    set id | id in table && exists c :: 0 <= c < |table[id]| && Holds(tok, table[id][c], token)
  }

  /** Looking a token up in a rebuilt index finds the rows that a full scan finds. */
  lemma LookupIsScan(tok: Tokenizer, table: map<int, Columns>, token: string)
    ensures Lookup(Rebuilt(tok, table), token) == Scan(tok, table, token)
  {
    var index := Rebuilt(tok, table);
    forall id | id in Lookup(index, token) ensures id in Scan(tok, table, token) {
      var p :| p in index && p.token == token && p.rowid == id;
      RebuiltCount(tok, table, p);
      assert Holds(tok, table[id][p.column], token);
    }
    forall id | id in Scan(tok, table, token) ensures id in Lookup(index, token) {
      var c :| 0 <= c < |table[id]| && Holds(tok, table[id][c], token);
      var i :| 0 <= i < |tok(table[id][c].value)| && tok(table[id][c].value)[i] == token;
      var p := Posting(token, id, c, i);
      RebuiltCount(tok, table, p);
      assert p in index;
    }
  }

  // ----- the two objects as they run -----

  /** A content table, its FTS shadow, and the three triggers between them. */
  class IndexedTable<Row> {
    const tok: Tokenizer
    const columns: Row -> Columns
    var rows: map<int, Row>
    var index: multiset<Posting>

    function Content(): map<int, Columns>
      reads this
    {
      map id | id in rows :: columns(rows[id])
    }

    /** The index answers for the rows that are there now. */
    ghost predicate InSync()
      reads this
    {
      index == Rebuilt(tok, Content())
    }

    constructor (tok: Tokenizer, columns: Row -> Columns)
      ensures InSync() && rows == map[] && this.tok == tok && this.columns == columns
    {
      this.tok, this.columns := tok, columns;
      rows, index := map[], multiset{};
    }

    // AFTER INSERT
    method OnInsert(id: int, row: Row)
      modifies this`index
      ensures index == old(index) + Postings(tok, id, columns(row))
    {
      index := index + Postings(tok, id, columns(row));
    }

    // AFTER DELETE: the 'delete' command
    method OnDelete(id: int, row: Row)
      modifies this`index
      ensures index == old(index) - Postings(tok, id, columns(row))
    {
      index := index - Postings(tok, id, columns(row));
    }

    // AFTER UPDATE: the 'delete' command for the old row, then the new row
    method OnUpdate(id: int, prev: Row, newId: int, next: Row)
      modifies this`index
      ensures index == old(index) - Postings(tok, id, columns(prev)) + Postings(tok, newId, columns(next))
    {
      index := index - Postings(tok, id, columns(prev));
      index := index + Postings(tok, newId, columns(next));
    }

    method Insert(id: int, row: Row) returns (done: bool)
      requires InSync()
      modifies this
      ensures done == (id !in old(rows)) && rows == if done then old(rows)[id := row] else old(rows)
      ensures InSync()
    {
      if id in rows {
        return false;
      }
      ghost var before := Content();
      rows := rows[id := row];
      OnInsert(id, row);
      assert Content() == before[id := columns(row)];
      TriggersKeepRebuilt(tok, before, Stmt.Insert(id, columns(row)));
      return true;
    }

    method Update(id: int, newId: int, row: Row) returns (done: bool)
      requires InSync()
      modifies this
      ensures done == (id !in old(rows) || newId == id || newId !in old(rows))
      ensures rows == if done && id in old(rows) then (old(rows) - {id})[newId := row] else old(rows)
      ensures InSync()
    {
      if id !in rows {
        return true;
      }
      if newId != id && newId in rows {
        return false;
      }
      ghost var before := Content();
      var prev := rows[id];
      rows := (rows - {id})[newId := row];
      OnUpdate(id, prev, newId, row);
      assert Content() == (before - {id})[newId := columns(row)];
      TriggersKeepRebuilt(tok, before, Stmt.Update(id, newId, columns(row)));
      return true;
    }

    method Delete(id: int)
      requires InSync()
      modifies this
      ensures rows == old(rows) - {id}
      ensures InSync()
    {
      ghost var before := Content();
      if id in rows {
        var prev := rows[id];
        rows := rows - {id};
        OnDelete(id, prev);
        assert Content() == before - {id};
        TriggersKeepRebuilt(tok, before, Stmt.Delete(id));
      } else {
        assert rows - {id} == rows;
      }
    }

    method Search(token: string) returns (ids: set<int>)
      requires InSync()
      ensures ids == Scan(tok, Content(), token)
    {
      ids := Lookup(index, token);
      LookupIsScan(tok, Content(), token);
    }
  }

  // ----- tracks_fts -----

  /** Of a track, the four indexed columns and, as an example of the others, its path. */
  datatype Track = Track(
    path: string, title: Option<string>, artist: Option<string>, album: Option<string>, albumArtist: Option<string>)

  function TrackColumns(t: Track): Columns {
    [t.title, t.artist, t.album, t.albumArtist]
  }

  method NewTracks(tok: Tokenizer) returns (tracks: IndexedTable<Track>)
    ensures fresh(tracks) && tracks.InSync() && tracks.columns == TrackColumns
  {
    tracks := new IndexedTable<Track>(tok, TrackColumns);
  }

  /** A search finds exactly the tracks whose title, artist, album or album artist holds the token. */
  lemma TracksAreFound(tracks: IndexedTable<Track>, token: string, id: int)
    requires tracks.InSync() && tracks.columns == TrackColumns
    ensures id in Lookup(tracks.index, token)
       <==> && id in tracks.rows
            && var t, tok := tracks.rows[id], tracks.tok;
               || Holds(tok, t.title, token) || Holds(tok, t.artist, token)
               || Holds(tok, t.album, token) || Holds(tok, t.albumArtist, token)
  {
    LookupIsScan(tracks.tok, tracks.Content(), token);
    if id in tracks.rows {
      var t := tracks.rows[id];
      var columns := tracks.Content()[id];
      assert columns == [t.title, t.artist, t.album, t.albumArtist] && |columns| == 4;
      assert columns[0] == t.title && columns[1] == t.artist;
      assert columns[2] == t.album && columns[3] == t.albumArtist;
    }
  }

  /** The columns are numbered in that order. */
  lemma TrackPostings(tracks: IndexedTable<Track>, p: Posting)
    requires tracks.InSync() && tracks.columns == TrackColumns
    ensures p in tracks.index
       <==> && p.rowid in tracks.rows && p.column < 4
            && var t := tracks.rows[p.rowid];
               var value := if p.column == 0 then t.title else if p.column == 1 then t.artist
                            else if p.column == 2 then t.album else t.albumArtist;
               value.Some? && var tokens := tracks.tok(value.value);
                              p.position < |tokens| && tokens[p.position] == p.token
  {
    RebuiltCount(tracks.tok, tracks.Content(), p);
  }
}
