// Restoring a SQL backup: the statements the splitter finds, run one after another
// by an engine that reads them as SqlReading does.
module SqlRestore {
  import opened Wrappers
  import opened SqlScript
  import opened SqlLiterals
  import opened SqlDump
  import opened SqlReading

  datatype Restored = Restored(items: Items, rows: seq<Cells>)

  // Schema and name.
  type TableName = (string, string)

  type Database = map<TableName, Restored>

  // One statement. CREATE TABLE IF NOT EXISTS leaves a table that is there alone; a
  // row for a table that is not there fails, and so does any other statement.
  function Run(e: Engine, db: Database, statement: string): Option<Database> {
    var create := ReadCreate(e, statement);
    if create.Some? then Some(Creating(db, (create.value.schema, create.value.table), create.value.items))
    else
      var insert :- ReadInsert(e, statement);
      Inserting(db, (insert.schema, insert.table), insert.row)
  }

  function Creating(db: Database, table: TableName, items: Items): Database {
    if table in db then db else db[table := Restored(items, [])]
  }

  function Inserting(db: Database, table: TableName, row: Cells): Option<Database> {
    if table in db then Some(db[table := Restored(db[table].items, db[table].rows + [row])]) else None
  }

  // The statements up to the first that fails, and how many ran.
  datatype Outcome = Outcome(db: Database, count: nat)

  function RunAll(e: Engine, db: Database, statements: seq<string>): (r: Outcome)
    ensures r.count <= |statements|
    decreases |statements|
  {
    if |statements| == 0 then Outcome(db, 0)
    else
      match Run(e, db, statements[0])
      case None => Outcome(db, 0)
      case Some(next) => var r := RunAll(e, next, statements[1..]); Outcome(r.db, r.count + 1)
  }

  /** restore(content, 'sql'): a failing statement ends it, and those before it stay. */
  method Restore(e: Engine, db: Database, content: string) returns (after: Database, count: Option<nat>)
    ensures var statements := Split(content);
            var r := RunAll(e, db, statements);
            after == r.db && count == if r.count == |statements| then Some(r.count) else None
  {
    var statements := SplitSqlStatements(content);
    var n := 0;
    after := db;
    for i := 0 to |statements|
      invariant n == i
      invariant RunAll(e, db, statements) == Continued(RunAll(e, after, statements[i..]), n)
    {
      assert statements[i..][0] == statements[i] && statements[i..][1..] == statements[i + 1..];
      var next := Run(e, after, statements[i]);
      if next.None? { return after, None; }
      after := next.value;
      n := n + 1;
    }
    count := Some(n);
  }

  function Continued(r: Outcome, n: nat): Outcome {
    Outcome(r.db, r.count + n)
  }

  // Every statement runs, and the database is this one then.
  ghost predicate Runs(e: Engine, db: Database, statements: seq<string>, after: Database)
    decreases |statements|
  {
    if |statements| == 0 then after == db
    else var next := Run(e, db, statements[0]); next.Some? && Runs(e, next.value, statements[1..], after)
  }

  lemma {:induction false} RunsAll(e: Engine, db: Database, statements: seq<string>, after: Database)
    requires Runs(e, db, statements, after)
    ensures RunAll(e, db, statements) == Outcome(after, |statements|)
    decreases |statements|
  {
    if |statements| > 0 {
      RunsAll(e, Run(e, db, statements[0]).value, statements[1..], after);
    }
  }

  lemma {:induction false} RunsThen(e: Engine, db: Database, a: seq<string>, mid: Database, b: seq<string>, after: Database)
    requires Runs(e, db, a, mid) && Runs(e, mid, b, after)
    ensures Runs(e, db, a + b, after)
    decreases |a|
  {
    if |a| == 0 {
      NothingAhead(b);
    } else {
      var next := Run(e, db, a[0]).value;
      RunsThen(e, next, a[1..], mid, b, after);
      HeadTail(a, b);
      RunsAhead(e, db, a[0], next, a[1..] + b, after);
    }
  }

  lemma RunsAhead(e: Engine, db: Database, statement: string, next: Database, more: seq<string>, after: Database)
    requires Run(e, db, statement) == Some(next) && Runs(e, next, more, after)
    ensures Runs(e, db, [statement] + more, after)
  {
    assert ([statement] + more)[1..] == more;
  }

  lemma RunsOne(e: Engine, db: Database, statement: string, after: Database)
    requires Run(e, db, statement) == Some(after)
    ensures Runs(e, db, [statement], after)
  {
    RunsAhead(e, db, statement, after, [], after);
  }

  /* ----- what a restored table is ----- */

  function NameOf(t: Table): TableName {
    (t.schema, t.name)
  }

  // The engine's rows are the table's, in order.
  ghost predicate RowsStored(e: Engine, t: Table, rows: seq<Record>, stored: seq<Cells>) {
    |stored| == |rows| && forall i :: 0 <= i < |rows| ==> RowStored(e, t.columns, rows[i], stored[i])
  }

  ghost predicate TableIs(e: Engine, r: Restored, t: Table) {
    && ColumnsAre(r.items.columns, t.columns) && r.items.primaryKey == t.primaryKey
    && RowsStored(e, t, t.rows, r.rows)
  }

  // Every table is as it was backed up, and nothing else has changed.
  ghost predicate Rebuilt(e: Engine, db: Database, tables: seq<Table>, after: Database) {
    && (forall i :: 0 <= i < |tables| ==> NameOf(tables[i]) in after && TableIs(e, after[NameOf(tables[i])], tables[i]))
    && (forall n :: !Named(tables, n) ==> (n in after <==> n in db) && (n in db ==> after[n] == db[n]))
  }

  ghost predicate Named(tables: seq<Table>, n: TableName) {
    exists i :: 0 <= i < |tables| && NameOf(tables[i]) == n
  }

  ghost predicate Distinct(tables: seq<Table>) {
    forall i, j :: 0 <= i < j < |tables| ==> NameOf(tables[i]) != NameOf(tables[j])
  }

  // What the backup and the engine must be able to read of a table.
  ghost predicate Restorable(t: Table) {
    CleanTable(t) && forall i :: 0 <= i < |t.columns| ==> Readable(t.columns[i])
  }

  lemma InsertRuns(e: Engine, t: Table, row: Record, db: Database, items: Items, stored: seq<Cells>) returns (cells: Cells)
    requires CleanTable(t) && row in t.rows && NameOf(t) in db && db[NameOf(t)] == Restored(items, stored)
    ensures RowStored(e, t.columns, row, cells)
    ensures Run(e, db, Text(Insert(e, t, row))) == Some(db[NameOf(t) := Restored(items, stored + [cells])])
  {
    var s := Text(Insert(e, t, row));
    InsertReadsBack(e, t, row);
    cells := ReadInsert(e, s).value.row;
    InsertIsNoCreate(e, s);
  }

  lemma InsertIsNoCreate(e: Engine, s: string)
    requires ReadInsert(e, s).Some?
    ensures ReadCreate(e, s) == None
  {
    StartsAt(s, "INSERT INTO ", 0);
    if Starts(s, "CREATE TABLE IF NOT EXISTS ") { StartsAt(s, "CREATE TABLE IF NOT EXISTS ", 0); }
  }

  // The texts so far have run, and one more row runs behind them.
  lemma OneMoreRow(e: Engine, t: Table, texts: seq<string>, row: Record, db: Database, items: Items, before: seq<Cells>)
    returns (cells: Cells)
    requires CleanTable(t) && row in t.rows && Runs(e, db, texts, db[NameOf(t) := Restored(items, before)])
    ensures RowStored(e, t.columns, row, cells)
    ensures Runs(e, db, texts + [Text(Insert(e, t, row))], db[NameOf(t) := Restored(items, before + [cells])])
  {
    var mid := db[NameOf(t) := Restored(items, before)];
    cells := InsertRuns(e, t, row, mid, items, before);
    var after := mid[NameOf(t) := Restored(items, before + [cells])];
    RunsOne(e, mid, Text(Insert(e, t, row)), after);
    RunsThen(e, db, texts, mid, [Text(Insert(e, t, row))], after);
    LastWins(db, NameOf(t), Restored(items, before), Restored(items, before + [cells]));
  }

  lemma RowsStoredMore(e: Engine, t: Table, rows: seq<Record>, stored: seq<Cells>, row: Record, cells: Cells, whole: seq<Record>)
    requires RowsStored(e, t, rows, stored) && RowStored(e, t.columns, row, cells) && whole == rows + [row]
    ensures RowsStored(e, t, whole, stored + [cells])
  {
  }

  lemma InitAndLast<T>(s: seq<T>)
    requires |s| > 0
    ensures s == s[..|s| - 1] + [s[|s| - 1]] && s[|s| - 1] in s && forall x :: x in s[..|s| - 1] ==> x in s
  {
  }

  lemma {:induction false} InsertsRun(e: Engine, t: Table, rows: seq<Record>, db: Database, items: Items) returns (stored: seq<Cells>)
    requires CleanTable(t) && (forall r :: r in rows ==> r in t.rows) && NameOf(t) in db && db[NameOf(t)] == Restored(items, [])
    ensures RowsStored(e, t, rows, stored)
    ensures Runs(e, db, InsertTexts(e, t, rows), db[NameOf(t) := Restored(items, stored)])
    decreases |rows|
  {
    if |rows| == 0 {
      stored := [];
      SameEntry(db, NameOf(t), Restored(items, []));
    } else {
      var init, last := rows[..|rows| - 1], rows[|rows| - 1];
      InitAndLast(rows);
      var before := InsertsRun(e, t, init, db, items);
      var cells := OneMoreRow(e, t, InsertTexts(e, t, init), last, db, items, before);
      RowsStoredMore(e, t, init, before, last, cells, rows);
      stored := before + [cells];
    }
  }

  lemma SameEntry(db: Database, name: TableName, r: Restored)
    requires name in db && db[name] == r
    ensures db[name := r] == db
  {
  }

  lemma LastWins(db: Database, name: TableName, a: Restored, b: Restored)
    ensures db[name := a][name := b] == db[name := b]
  {
  }

  lemma CreateRuns(e: Engine, t: Table, db: Database) returns (items: Items)
    requires Restorable(t) && NameOf(t) !in db
    ensures ColumnsAre(items.columns, t.columns) && items.primaryKey == t.primaryKey
    ensures Run(e, db, Text(CreateTable(e, t))) == Some(db[NameOf(t) := Restored(items, [])])
  {
    CreateReadsBack(e, t);
    items := ReadCreate(e, Text(CreateTable(e, t))).value.items;
  }

  lemma TableRuns(e: Engine, t: Table, db: Database) returns (r: Restored)
    requires Restorable(t) && NameOf(t) !in db
    ensures TableIs(e, r, t) && Runs(e, db, TableTexts(e, t), db[NameOf(t) := r])
  {
    var create := Text(CreateTable(e, t));
    var items := CreateRuns(e, t, db);
    var created := db[NameOf(t) := Restored(items, [])];
    var stored := InsertsRun(e, t, t.rows, created, items);
    r := Restored(items, stored);
    LastWins(db, NameOf(t), Restored(items, []), r);
    RunsAhead(e, db, create, created, InsertTexts(e, t, t.rows), db[NameOf(t) := r]);
  }

  lemma RebuiltMore(e: Engine, db: Database, tables: seq<Table>, after: Database, init: seq<Table>, last: Table, r: Restored)
    requires tables == init + [last] && Distinct(tables) && Rebuilt(e, db, init, after) && TableIs(e, r, last)
    ensures Rebuilt(e, db, tables, after[NameOf(last) := r])
  {
    var now := after[NameOf(last) := r];
    assert tables[|init|] == last;
    forall i | 0 <= i < |tables| ensures NameOf(tables[i]) in now && TableIs(e, now[NameOf(tables[i])], tables[i]) {
      if i < |init| {
        assert tables[i] == init[i] && NameOf(tables[i]) != NameOf(tables[|init|]);
      }
    }
    forall n | !Named(tables, n) ensures (n in now <==> n in db) && (n in db ==> now[n] == db[n]) {
      assert NameOf(tables[|init|]) != n;
      assert !Named(init, n) by {
        assert forall i :: 0 <= i < |init| ==> tables[i] == init[i];
      }
    }
  }

  lemma NewName(tables: seq<Table>, init: seq<Table>, last: Table)
    requires tables == init + [last] && Distinct(tables)
    ensures Distinct(init) && !Named(init, NameOf(last))
  {
    assert tables[|init|] == last && forall i :: 0 <= i < |init| ==> tables[i] == init[i];
  }

  lemma {:induction false} TablesRun(e: Engine, tables: seq<Table>, db: Database) returns (after: Database)
    requires Distinct(tables) && forall i :: 0 <= i < |tables| ==> Restorable(tables[i]) && NameOf(tables[i]) !in db
    ensures Runs(e, db, DumpTexts(e, tables), after) && Rebuilt(e, db, tables, after)
    decreases |tables|
  {
    after := db;
    if |tables| > 0 {
      var init, last := tables[..|tables| - 1], tables[|tables| - 1];
      assert tables == init + [last];
      NewName(tables, init, last);
      var before := TablesRun(e, init, db);
      var r := TableRuns(e, last, before);
      after := before[NameOf(last) := r];
      RunsThen(e, db, DumpTexts(e, init), before, TableTexts(e, last), after);
      RebuiltMore(e, db, tables, before, init, last, r);
    }
  }

  /** A backup restores. Whatever the values hold, restoring the script of a backup
      into a database without those tables runs every statement and leaves each table
      with its columns, types, NOT NULLs, defaults and primary key, and its rows in
      order, column by column; every other table stays as it was. */
  lemma BackupRestores(e: Engine, database: string, tables: seq<Table>, db: Database)
    requires '\n' !in database && Distinct(tables)
    requires forall i :: 0 <= i < |tables| ==> Restorable(tables[i]) && NameOf(tables[i]) !in db
    ensures var statements := Split(Join(Header(e, database) + TablesLines(e, tables)));
            var r := RunAll(e, db, statements);
            r.count == |statements| && Rebuilt(e, db, tables, r.db)
  {
    SplitInvertsDump(e, database, tables);
    var after := TablesRun(e, tables, db);
    RunsAll(e, db, DumpTexts(e, tables), after);
  }

  method BackupThenRestore(e: Engine, database: string, tables: seq<Table>, db: Database) returns (after: Database, count: Option<nat>)
    requires '\n' !in database && Distinct(tables)
    requires forall i :: 0 <= i < |tables| ==> Restorable(tables[i]) && NameOf(tables[i]) !in db
    ensures count.Some? && Rebuilt(e, db, tables, after)
  {
    var script := Backup(e, database, tables);
    BackupRestores(e, database, tables, db);
    after, count := Restore(e, db, script);
  }
}
