// The database destination: project each row onto a target's columns, write the
// batch to every target, report one outcome.
//
// Targets written by upsert are tables under a unique key; targets written by
// plain inserts may also be heaps without one. Whether a statement fails is
// decided by the data where SQL decides it (a NULL key, a duplicate key) and by
// a `Faults` value where the network or the server does.
module DatabaseSink {
  import opened Wrappers
  import opened KeyedTable

  datatype ColumnMapping = ColumnMapping(source: string, target: string)

  datatype WriteMode = UpsertMode | InsertMode

  datatype Config = Config(mapping: seq<ColumnMapping>, keyColumns: seq<string>, mode: WriteMode, transactional: bool)

  datatype TargetTable = Keyed(rows: Table) | Heap(bag: seq<Row>)

  datatype Error = NoValues | NoKeyColumns | NoUniqueKey | NullKey | DuplicateKey

  // What goes wrong in one attempt on one target: the connection cannot be
  // opened, the driver throws at some row, or the commit is rejected.
  datatype Faults = Faults(open: bool, failAt: nat, commit: bool)

  /* ----- projection ----- */

  function ValueAt(row: Row, column: string): Value {
    if column in row then row[column] else Null
  }

  function Mapped(row: Row, mapping: seq<ColumnMapping>): Row {
    if |mapping| == 0 then row else Projected(row, mapping)
  }

  function Projected(row: Row, mapping: seq<ColumnMapping>): Row {
    if |mapping| == 0 then map[]
    else
      var m := mapping[|mapping| - 1];
      Projected(row, mapping[..|mapping| - 1])[m.target := ValueAt(row, m.source)]
  }

  method MapRow(row: Row, mapping: seq<ColumnMapping>) returns (out: Row)
    ensures out == Mapped(row, mapping)
  {
    out := map[];
    if |mapping| == 0 {
      return row;
    }
    for i := 0 to |mapping|
      invariant out == Projected(row, mapping[..i])
    {
      assert mapping[..i + 1][..i] == mapping[..i];
      out := out[mapping[i].target := ValueAt(row, mapping[i].source)];
    }
    assert mapping[..|mapping|] == mapping;
  }

  /** Without a mapping a row goes as it is; with one it has the mapped columns. */
  lemma MappedExactly(row: Row, mapping: seq<ColumnMapping>)
    ensures mapping == [] ==> Mapped(row, mapping) == row
    ensures mapping != [] ==> Mapped(row, mapping).Keys == set m | m in mapping :: m.target
  {
    if mapping != [] { ProjectedKeys(row, mapping); }
  }

  // A projection has exactly the mapped target columns, each fed by the last
  // mapping that names it.
  lemma {:induction false} ProjectionColumns(row: Row, mapping: seq<ColumnMapping>, i: nat)
    requires i < |mapping|
    requires forall j :: i < j < |mapping| ==> mapping[j].target != mapping[i].target
    ensures var out := Projected(row, mapping);
            && mapping[i].target in out && out[mapping[i].target] == ValueAt(row, mapping[i].source)
            && out.Keys == set m | m in mapping :: m.target
  {
    var init := mapping[..|mapping| - 1];
    ProjectedKeys(row, mapping);
    if i < |init| {
      ProjectionColumns(row, init, i);
      assert mapping[|init|].target != mapping[i].target;
    }
  }

  lemma {:induction false} ProjectedKeys(row: Row, mapping: seq<ColumnMapping>)
    ensures Projected(row, mapping).Keys == set m | m in mapping :: m.target
  {
    if |mapping| > 0 {
      var init, last := mapping[..|mapping| - 1], mapping[|mapping| - 1];
      ProjectedKeys(row, init);
      assert mapping == init + [last];
    }
  }

  function KeyOf(row: Row, keyColumns: seq<string>): Key {
    seq(|keyColumns|, i requires 0 <= i < |keyColumns| => ValueAt(row, keyColumns[i]))
  }

  /* ----- one statement ----- */

  predicate HasNull(k: Key) {
    Null in k
  }

  // The unique index: every row is stored under its own key, which has no NULL.
  ghost predicate WellKeyed(t: Table, keyColumns: seq<string>) {
    forall k :: k in t ==> !HasNull(k) && KeyOf(t[k], keyColumns) == k
  }

  // INSERT ... ON CONFLICT (keys) DO UPDATE SET of the columns outside the key;
  // with none left to set, the existing row stays.
  function UpsertRow(t: TargetTable, keyColumns: seq<string>, values: Row): Result<TargetTable, Error> {
    if |values| == 0 then Err(NoValues)
    else if |keyColumns| == 0 then Err(NoKeyColumns)
    else if t.Heap? then Err(NoUniqueKey)
    else
      var k := KeyOf(values, keyColumns);
      if HasNull(k) then Err(NullKey)
      else if k in t.rows then
        Ok(Keyed(t.rows[k := t.rows[k] + (values - (set c | c in keyColumns))]))
      else Ok(Keyed(t.rows[k := values]))
  }

  function InsertRow(t: TargetTable, keyColumns: seq<string>, values: Row): Result<TargetTable, Error> {
    if |values| == 0 then Err(NoValues)
    else if t.Heap? then Ok(Heap(t.bag + [values]))
    else
      var k := KeyOf(values, keyColumns);
      if HasNull(k) then Err(NullKey)
      else if k in t.rows then Err(DuplicateKey)
      else Ok(Keyed(t.rows[k := values]))
  }

  // `column = value` is never true of a NULL.
  predicate Matches(row: Row, identity: Row) {
    forall c :: c in identity ==> c in row && row[c] == identity[c] && identity[c] != Null
  }

  function Unmatched(bag: seq<Row>, identity: Row): seq<Row> {
    if |bag| == 0 then []
    else Unmatched(bag[..|bag| - 1], identity) + (if Matches(bag[|bag| - 1], identity) then [] else [bag[|bag| - 1]])
  }

  function Remaining(rows: Table, identity: Row): Table {
    map k | k in rows && !Matches(rows[k], identity) :: rows[k]
  }

  function DeleteRow(t: TargetTable, identity: Row): Result<TargetTable, Error> {
    if |identity| == 0 then Err(NoValues)
    else match t
      case Heap(bag) => Ok(Heap(Unmatched(bag, identity)))
      case Keyed(rows) => Ok(Keyed(Remaining(rows, identity)))
  }

  function Pick(row: Row, keys: seq<string>): Row {
    map c | c in keys :: ValueAt(row, c)
  }

  function WriteRow(cfg: Config, t: TargetTable, row: Row, delete: bool): Result<TargetTable, Error> {
    var mapped := Mapped(row, cfg.mapping);
    if delete then DeleteRow(t, Pick(mapped, cfg.keyColumns))
    else if cfg.mode.InsertMode? then InsertRow(t, cfg.keyColumns, mapped)
    else UpsertRow(t, cfg.keyColumns, mapped)
  }

  // All rows in order; the first error ends the batch.
  function Batch(cfg: Config, t: TargetTable, rows: seq<Row>, delete: bool): Result<TargetTable, Error> {
    if |rows| == 0 then Ok(t)
    else
      var before := Batch(cfg, t, rows[..|rows| - 1], delete);
      if before.Err? then before else WriteRow(cfg, before.value, rows[|rows| - 1], delete)
  }

  lemma BatchMore(cfg: Config, t: TargetTable, rows: seq<Row>, delete: bool, k: nat, t': TargetTable)
    requires k < |rows| && Batch(cfg, t, rows[..k], delete) == Ok(t')
    ensures Batch(cfg, t, rows[..k + 1], delete) == WriteRow(cfg, t', rows[k], delete)
  {
    assert rows[..k + 1][..k] == rows[..k];
  }

  /* ----- one attempt ----- */

  class DatabaseSinkService {
    const targets: seq<Config>
    var tables: seq<TargetTable>

    ghost predicate Valid()
      reads this
    {
      |tables| == |targets|
    }

    constructor (targets: seq<Config>, tables: seq<TargetTable>)
      requires |targets| == |tables|
      ensures Valid() && this.targets == targets && this.tables == tables
    {
      this.targets, this.tables := targets, tables;
    }

    // The rows of one batch, one statement at a time, until one fails.
    method WriteBatch(i: nat, rows: seq<Row>, delete: bool, failAt: nat) returns (written: nat)
      requires Valid() && i < |targets|
      modifies this
      ensures Valid() && written <= |rows| && written <= failAt
      ensures tables == old(tables)[i := tables[i]]
      ensures Batch(targets[i], old(tables[i]), rows[..written], delete) == Ok(tables[i])
      ensures written < |rows| ==> written == failAt || Batch(targets[i], old(tables[i]), rows[..written + 1], delete).Err?
    {
      written := 0;
      while written < |rows|
        invariant written <= |rows| && written <= failAt && |tables| == |targets|
        invariant tables == old(tables)[i := tables[i]]
        invariant Batch(targets[i], old(tables[i]), rows[..written], delete) == Ok(tables[i])
      {
        BatchMore(targets[i], old(tables[i]), rows, delete, written, tables[i]);
        if written == failAt { return; }
        var r := WriteRow(targets[i], tables[i], rows[written], delete);
        if r.Err? { return; }
        tables := tables[i := r.value];
        written := written + 1;
      }
    }

    // Atomic where the engine has transactions: a failed batch leaves nothing.
    method WriteRows(i: nat, rows: seq<Row>, delete: bool, faults: Faults) returns (ok: bool)
      requires Valid() && i < |targets|
      modifies this
      ensures Valid() && tables == old(tables)[i := tables[i]]
      ensures ok ==> Batch(targets[i], old(tables[i]), rows, delete) == Ok(tables[i])
      ensures !ok && targets[i].transactional ==> tables[i] == old(tables[i])
      ensures !ok ==> exists n :: 0 <= n <= |rows| && Batch(targets[i], old(tables[i]), rows[..n], delete) == Ok(tables[i])
      ensures ok <==> Faultless(targets[i], faults, |rows|) && Batch(targets[i], old(tables[i]), rows, delete).Ok?
    {
      assert Batch(targets[i], old(tables[i]), rows[..0], delete) == Ok(tables[i]);
      assert rows[..|rows|] == rows;
      if faults.open { return false; }
      var before := tables[i];
      var written := WriteBatch(i, rows, delete, faults.failAt);
      ok := written == |rows|;
      if !ok && written != faults.failAt {
        FailedPrefix(targets[i], before, rows, delete, written);
      }
      if targets[i].transactional {
        if !ok || faults.commit {
          tables := tables[i := before];
          ok := false;
        }
      }
    }

    // One outcome for all targets; a failing target does not stop the others.
    method Deliver(rows: seq<Row>, delete: bool, faults: seq<Faults>) returns (firstError: Option<nat>, done: seq<bool>)
      requires Valid() && |faults| == |targets|
      modifies this
      ensures Valid() && |done| == |targets|
      ensures firstError.None? <==> forall i :: 0 <= i < |targets| ==> done[i]
      ensures firstError.Some? ==> firstError.value < |targets| && !done[firstError.value]
                                   && forall i :: 0 <= i < firstError.value ==> done[i]
      ensures forall i :: 0 <= i < |targets| ==>
                Delivered(targets[i], old(tables)[i], tables[i], rows, delete, done[i])
      ensures forall i :: 0 <= i < |targets| ==>
                (done[i] <==> Faultless(targets[i], faults[i], |rows|) && Batch(targets[i], old(tables)[i], rows, delete).Ok?)
    {
      firstError, done := None, [];
      for i := 0 to |targets|
        invariant Valid() && |done| == i
        invariant firstError.None? <==> forall j :: 0 <= j < i ==> done[j]
        invariant firstError.Some? ==> firstError.value < i && !done[firstError.value]
                                       && forall j :: 0 <= j < firstError.value ==> done[j]
        invariant forall j :: 0 <= j < i ==> Delivered(targets[j], old(tables)[j], tables[j], rows, delete, done[j])
        invariant forall j :: 0 <= j < i ==>
                    (done[j] <==> Faultless(targets[j], faults[j], |rows|) && Batch(targets[j], old(tables)[j], rows, delete).Ok?)
        invariant forall j :: i <= j < |targets| ==> tables[j] == old(tables)[j]
      {
        var ok := WriteRows(i, rows, delete, faults[i]);
        if !ok && firstError.None? {
          firstError := Some(i);
        }
        ghost var prior := done;
        done := done + [ok];
        assert done[i] == ok && forall j :: 0 <= j < i ==> done[j] == prior[j];
      }
    }
  }

  // Nothing goes wrong with the connection, the driver or the commit on n rows.
  predicate Faultless(cfg: Config, faults: Faults, n: nat) {
    !faults.open && faults.failAt >= n && !(cfg.transactional && faults.commit)
  }

  // What one attempt may do to one target: the whole batch when it reports so,
  // otherwise nothing, or some first rows on an engine without transactions.
  ghost predicate Delivered(cfg: Config, t: TargetTable, t': TargetTable, rows: seq<Row>, delete: bool, done: bool) {
    if done then Batch(cfg, t, rows, delete) == Ok(t')
    else if cfg.transactional then t' == t
    else exists n :: 0 <= n <= |rows| && Batch(cfg, t, rows[..n], delete) == Ok(t')
  }

  lemma {:induction false} FailedPrefix(cfg: Config, t: TargetTable, rows: seq<Row>, delete: bool, n: nat)
    requires n < |rows| && Batch(cfg, t, rows[..n + 1], delete).Err?
    ensures Batch(cfg, t, rows, delete).Err?
  {
    if n + 1 == |rows| {
      assert rows[..n + 1] == rows;
    } else {
      assert rows[..|rows| - 1][..n + 1] == rows[..n + 1];
      FailedPrefix(cfg, t, rows[..|rows| - 1], delete, n);
    }
  }

  /* ----- plain inserts and deletes ----- */

  /** An insert stores the row as it is: at the end of a table without a unique key,
      under its own key in one with it, where that key is new and has no NULL;
      every other row stays. Otherwise it fails, and says why. */
  lemma InsertStores(t: TargetTable, keyColumns: seq<string>, values: Row)
    ensures var r, k := InsertRow(t, keyColumns, values), KeyOf(values, keyColumns);
            && (values == map[] ==> r == Err(NoValues))
            && (values != map[] && t.Heap? ==> r == Ok(Heap(t.bag + [values])))
            && (values != map[] && t.Keyed? && HasNull(k) ==> r == Err(NullKey))
            && (values != map[] && t.Keyed? && !HasNull(k) && k in t.rows ==> r == Err(DuplicateKey))
            && (values != map[] && t.Keyed? && !HasNull(k) && k !in t.rows ==>
                  r.Ok? && r.value.Keyed? && r.value.rows.Keys == t.rows.Keys + {k} && r.value.rows[k] == values
                  && forall j :: j in t.rows ==> r.value.rows[j] == t.rows[j])
  {
  }

  lemma {:induction false} UnmatchedConcat(a: seq<Row>, b: seq<Row>, identity: Row)
    ensures Unmatched(a + b, identity) == Unmatched(a, identity) + Unmatched(b, identity)
  {
    if |b| == 0 {
      assert a + b == a;
    } else {
      var init := b[..|b| - 1];
      UnmatchedConcat(a, init, identity);
      assert (a + b)[..|a + b| - 1] == a + init && (a + b)[|a + b| - 1] == b[|b| - 1];
    }
  }

  /** A delete on a table without a unique key decides row by row: wherever a row
      stands, it goes if and only if it matches, and the rows before and behind it
      are kept or dropped in their own places as if it were not there. */
  lemma DeleteKeepsOthers(a: seq<Row>, r: Row, b: seq<Row>, identity: Row)
    ensures Unmatched([], identity) == []
    ensures Unmatched(a + [r] + b, identity)
            == Unmatched(a, identity) + (if Matches(r, identity) then [] else [r]) + Unmatched(b, identity)
  {
    UnmatchedConcat(a + [r], b, identity);
    UnmatchedConcat(a, [r], identity);
    assert [r][..0] == [];
    assert Unmatched([r], identity) == [] + if Matches(r, identity) then [] else [r];
  }

  /* ----- statements as writes on keys ----- */

  function WriteOf(cfg: Config, row: Row, delete: bool): Write {
    var mapped := Mapped(row, cfg.mapping);
    Write(KeyOf(mapped, cfg.keyColumns), if delete then Delete else Upsert(mapped))
  }

  function WritesOf(cfg: Config, rows: seq<Row>, delete: bool): seq<Write> {
    seq(|rows|, i requires 0 <= i < |rows| => WriteOf(cfg, rows[i], delete))
  }

  lemma SameKeyColumns(row: Row, values: Row, keyColumns: seq<string>, i: nat)
    requires KeyOf(row, keyColumns) == KeyOf(values, keyColumns) && !HasNull(KeyOf(values, keyColumns))
    requires i < |keyColumns|
    ensures keyColumns[i] in row && keyColumns[i] in values && row[keyColumns[i]] == values[keyColumns[i]]
  {
    var k := KeyOf(row, keyColumns);
    assert k[i] == KeyOf(values, keyColumns)[i];
    assert k[i] in k;
  }

  lemma KeySurvives(row: Row, values: Row, keyColumns: seq<string>)
    requires KeyOf(row, keyColumns) == KeyOf(values, keyColumns) && !HasNull(KeyOf(values, keyColumns))
    ensures row + (values - (set c | c in keyColumns)) == row + values
    ensures KeyOf(row + values, keyColumns) == KeyOf(row, keyColumns)
  {
    forall c | c in keyColumns ensures c in row && c in values && row[c] == values[c] {
      var i :| 0 <= i < |keyColumns| && keyColumns[i] == c;
      SameKeyColumns(row, values, keyColumns, i);
    }
  }

  // The conflict clause leaves the key columns alone, which by the unique index
  // is the same as merging every column: one keyed write.
  lemma UpsertIsKeyedWrite(t: Table, keyColumns: seq<string>, values: Row)
    requires WellKeyed(t, keyColumns) && UpsertRow(Keyed(t), keyColumns, values).Ok?
    ensures var k := KeyOf(values, keyColumns);
            && UpsertRow(Keyed(t), keyColumns, values) == Ok(Keyed(Apply(t, Write(k, Upsert(values)))))
            && WellKeyed(Apply(t, Write(k, Upsert(values))), keyColumns)
  {
    var k := KeyOf(values, keyColumns);
    if k in t {
      KeySurvives(t[k], values, keyColumns);
      WellKeyedPut(t, keyColumns, k, t[k] + values);
    } else {
      assert map[] + values == values;
      WellKeyedPut(t, keyColumns, k, values);
    }
  }

  lemma WellKeyedPut(t: Table, keyColumns: seq<string>, k: Key, row: Row)
    requires WellKeyed(t, keyColumns) && KeyOf(row, keyColumns) == k && !HasNull(k)
    ensures WellKeyed(t[k := row], keyColumns)
  {
  }

  lemma MatchesOnlyKey(row: Row, keyColumns: seq<string>, values: Row)
    requires !HasNull(KeyOf(row, keyColumns))
    ensures Matches(row, Pick(values, keyColumns)) <==> KeyOf(row, keyColumns) == KeyOf(values, keyColumns)
  {
    var j, k, identity := KeyOf(row, keyColumns), KeyOf(values, keyColumns), Pick(values, keyColumns);
    if Matches(row, identity) {
      forall i | 0 <= i < |keyColumns| ensures j[i] == k[i] {
        assert keyColumns[i] in identity;
      }
    }
    if j == k {
      forall c | c in identity ensures c in row && row[c] == identity[c] && identity[c] != Null {
        var i :| 0 <= i < |keyColumns| && keyColumns[i] == c;
        assert j[i] in j && j[i] == k[i];
      }
    }
  }

  // Equality on every key column selects exactly the row stored under the key.
  lemma DeleteIsKeyedWrite(t: Table, keyColumns: seq<string>, values: Row)
    requires WellKeyed(t, keyColumns) && |keyColumns| > 0
    ensures var k := KeyOf(values, keyColumns);
            && DeleteRow(Keyed(t), Pick(values, keyColumns)) == Ok(Keyed(Apply(t, Write(k, Delete))))
            && WellKeyed(Apply(t, Write(k, Delete)), keyColumns)
  {
    var identity := Pick(values, keyColumns);
    assert keyColumns[0] in identity;
    RemainingIsWithout(t, keyColumns, values);
  }

  lemma RemainingIsWithout(t: Table, keyColumns: seq<string>, values: Row)
    requires WellKeyed(t, keyColumns)
    ensures Remaining(t, Pick(values, keyColumns)) == t - {KeyOf(values, keyColumns)}
  {
    var k, identity := KeyOf(values, keyColumns), Pick(values, keyColumns);
    forall j | j in t ensures Matches(t[j], identity) <==> j == k {
      MatchesOnlyKey(t[j], keyColumns, values);
    }
  }

  // An upsert or delete batch that goes through is its list of keyed writes.
  lemma {:induction false} BatchIsKeyedWrites(cfg: Config, t: Table, rows: seq<Row>, delete: bool)
    requires WellKeyed(t, cfg.keyColumns) && |cfg.keyColumns| > 0
    requires delete || cfg.mode.UpsertMode?
    requires Batch(cfg, Keyed(t), rows, delete).Ok?
    ensures Batch(cfg, Keyed(t), rows, delete) == Ok(Keyed(ApplyAll(t, WritesOf(cfg, rows, delete))))
    ensures WellKeyed(ApplyAll(t, WritesOf(cfg, rows, delete)), cfg.keyColumns)
  {
    var ws := WritesOf(cfg, rows, delete);
    if |rows| > 0 {
      var init, last := rows[..|rows| - 1], rows[|rows| - 1];
      BatchIsKeyedWrites(cfg, t, init, delete);
      assert ws[..|ws| - 1] == WritesOf(cfg, init, delete);
      var before := ApplyAll(t, ws[..|ws| - 1]);
      if delete {
        DeleteIsKeyedWrite(before, cfg.keyColumns, Mapped(last, cfg.mapping));
      } else {
        UpsertIsKeyedWrite(before, cfg.keyColumns, Mapped(last, cfg.mapping));
      }
    }
  }

  /* ----- retries ----- */

  // The state of one target after failed attempts that each wrote some first
  // rows of the batch (none, where the engine rolled them back).
  ghost predicate AfterAttempts(cfg: Config, t: TargetTable, rows: seq<Row>, delete: bool, attempts: seq<nat>, t': TargetTable)
    decreases |attempts|
  {
    if |attempts| == 0 then t' == t
    else
      var n := attempts[|attempts| - 1];
      && n <= |rows|
      && exists u :: AfterAttempts(cfg, t, rows, delete, attempts[..|attempts| - 1], u)
                     && Batch(cfg, u, rows[..n], delete) == Ok(t')
  }

  lemma {:induction false} RetryAbsorbs(cfg: Config, t: Table, rows: seq<Row>, delete: bool, attempts: seq<nat>, t': TargetTable)
    requires WellKeyed(t, cfg.keyColumns) && |cfg.keyColumns| > 0
    requires delete || cfg.mode.UpsertMode?
    requires AfterAttempts(cfg, Keyed(t), rows, delete, attempts, t')
    ensures t'.Keyed? && WellKeyed(t'.rows, cfg.keyColumns)
    ensures ApplyAll(t'.rows, WritesOf(cfg, rows, delete)) == ApplyAll(t, WritesOf(cfg, rows, delete))
    decreases |attempts|
  {
    if |attempts| > 0 {
      var n := attempts[|attempts| - 1];
      var u :| AfterAttempts(cfg, Keyed(t), rows, delete, attempts[..|attempts| - 1], u)
               && Batch(cfg, u, rows[..n], delete) == Ok(t');
      RetryAbsorbs(cfg, t, rows, delete, attempts[..|attempts| - 1], u);
      AttemptAbsorbed(cfg, u.rows, rows, delete, n, t');
    }
  }

  lemma AttemptAbsorbed(cfg: Config, u: Table, rows: seq<Row>, delete: bool, n: nat, t': TargetTable)
    requires WellKeyed(u, cfg.keyColumns) && |cfg.keyColumns| > 0
    requires delete || cfg.mode.UpsertMode?
    requires n <= |rows| && Batch(cfg, Keyed(u), rows[..n], delete) == Ok(t')
    ensures t'.Keyed? && WellKeyed(t'.rows, cfg.keyColumns)
    ensures ApplyAll(t'.rows, WritesOf(cfg, rows, delete)) == ApplyAll(u, WritesOf(cfg, rows, delete))
  {
    BatchIsKeyedWrites(cfg, u, rows[..n], delete);
    PrefixWrites(cfg, rows, delete, n);
    PrefixAbsorbed(WritesOf(cfg, rows, delete), n, u);
  }

  lemma PrefixWrites(cfg: Config, rows: seq<Row>, delete: bool, n: nat)
    requires n <= |rows|
    ensures WritesOf(cfg, rows[..n], delete) == WritesOf(cfg, rows, delete)[..n]
  {
  }

  // Whether an upsert or delete fails is up to the row.
  lemma SameFate(cfg: Config, t: Table, u: Table, row: Row, delete: bool)
    requires delete || cfg.mode.UpsertMode?
    ensures var a, b := WriteRow(cfg, Keyed(t), row, delete), WriteRow(cfg, Keyed(u), row, delete);
            (a.Ok? <==> b.Ok?) && (if a.Ok? then a.value.Keyed? && b.value.Keyed? else a == b)
  {
  }

  // So on any two keyed tables a batch goes through, or fails with the same error.
  lemma {:induction false} SameOutcome(cfg: Config, t: Table, u: Table, rows: seq<Row>, delete: bool)
    requires delete || cfg.mode.UpsertMode?
    ensures var a, b := Batch(cfg, Keyed(t), rows, delete), Batch(cfg, Keyed(u), rows, delete);
            (a.Ok? <==> b.Ok?) && (if a.Ok? then a.value.Keyed? && b.value.Keyed? else a == b)
  {
    if |rows| > 0 {
      var init := rows[..|rows| - 1];
      SameOutcome(cfg, t, u, init, delete);
      var a, b := Batch(cfg, Keyed(t), init, delete), Batch(cfg, Keyed(u), init, delete);
      if a.Ok? { SameFate(cfg, a.value.rows, b.value.rows, rows[|rows| - 1], delete); }
    }
  }

  /** Retrying an upsert or delete batch does no harm: after any failed attempts,
      whatever they wrote, the next one ends as it would have ended at first, with
      the same table or with the same error. */
  lemma RetryEqualsOnePass(cfg: Config, t: Table, rows: seq<Row>, delete: bool, attempts: seq<nat>, t': TargetTable)
    requires WellKeyed(t, cfg.keyColumns) && |cfg.keyColumns| > 0
    requires delete || cfg.mode.UpsertMode?
    requires AfterAttempts(cfg, Keyed(t), rows, delete, attempts, t')
    ensures Batch(cfg, t', rows, delete) == Batch(cfg, Keyed(t), rows, delete)
  {
    RetryAbsorbs(cfg, t, rows, delete, attempts, t');
    SameOutcome(cfg, t, t'.rows, rows, delete);
    if Batch(cfg, Keyed(t), rows, delete).Ok? {
      BatchIsKeyedWrites(cfg, t'.rows, rows, delete);
      BatchIsKeyedWrites(cfg, t, rows, delete);
    }
  }

  function MappedAll(cfg: Config, rows: seq<Row>): seq<Row> {
    seq(|rows|, i requires 0 <= i < |rows| => Mapped(rows[i], cfg.mapping))
  }

  lemma {:induction false} HeapAppends(cfg: Config, bag: seq<Row>, rows: seq<Row>)
    requires cfg.mode.InsertMode? && forall r :: r in rows ==> |Mapped(r, cfg.mapping)| > 0
    ensures Batch(cfg, Heap(bag), rows, false)
            == Ok(Heap(bag + MappedAll(cfg, rows)))
  {
    if |rows| == 0 {
      assert bag + MappedAll(cfg, rows) == bag;
    } else {
      var init := rows[..|rows| - 1];
      HeapAppends(cfg, bag, init);
      assert forall r :: r in init ==> r in rows;
      assert rows[|rows| - 1] in rows;
      assert bag + MappedAll(cfg, init) + [Mapped(rows[|rows| - 1], cfg.mapping)] == bag + MappedAll(cfg, rows);
    }
  }

  /** In insert mode a table without a unique key takes a retry cleanly exactly
      when the failed attempt had written nothing to it. A target that committed
      its batch while another target failed holds the rows twice. */
  lemma InsertRetryDuplicates(cfg: Config, bag: seq<Row>, rows: seq<Row>, n: nat)
    requires cfg.mode.InsertMode? && n <= |rows|
    requires forall r :: r in rows ==> |Mapped(r, cfg.mapping)| > 0
    ensures var first := Batch(cfg, Heap(bag), rows[..n], false);
            && first.Ok?
            && (Batch(cfg, first.value, rows, false) == Batch(cfg, Heap(bag), rows, false) <==> n == 0)
  {
    assert forall r :: r in rows[..n] ==> r in rows;
    HeapAppends(cfg, bag, rows[..n]);
    var first := Batch(cfg, Heap(bag), rows[..n], false).value.bag;
    HeapAppends(cfg, first, rows);
    HeapAppends(cfg, bag, rows);
  }

  // Inserting never takes a key out, and the first row's key is in from the start.
  lemma {:induction false} InsertedKeyStays(cfg: Config, t: Table, rows: seq<Row>)
    requires cfg.mode.InsertMode? && |rows| > 0 && Batch(cfg, Keyed(t), rows, false).Ok?
    ensures Batch(cfg, Keyed(t), rows, false).value.Keyed?
    ensures TargetKey(cfg, rows[0]) in Batch(cfg, Keyed(t), rows, false).value.rows
    ensures !HasNull(TargetKey(cfg, rows[0])) && |Mapped(rows[0], cfg.mapping)| > 0
  {
    var init := rows[..|rows| - 1];
    if |init| > 0 {
      InsertedKeyStays(cfg, t, init);
    } else {
      assert Batch(cfg, Keyed(t), init, false) == Ok(Keyed(t));
    }
  }

  lemma {:induction false} FirstRowConflicts(cfg: Config, t: Table, rows: seq<Row>)
    requires cfg.mode.InsertMode? && |rows| > 0 && TargetKey(cfg, rows[0]) in t
    requires !HasNull(TargetKey(cfg, rows[0])) && |Mapped(rows[0], cfg.mapping)| > 0
    ensures Batch(cfg, Keyed(t), rows, false) == Err(DuplicateKey)
  {
    var init := rows[..|rows| - 1];
    if |init| > 0 {
      FirstRowConflicts(cfg, t, init);
    } else {
      assert Batch(cfg, Keyed(t), init, false) == Ok(Keyed(t));
    }
  }

  /** In insert mode a table with a unique key takes a retry cleanly exactly when
      the failed attempt had written nothing to it. Otherwise every retry is
      rejected at its first row, for good: none of them writes anything. */
  lemma InsertRetryConflicts(cfg: Config, t: Table, rows: seq<Row>, n: nat)
    requires cfg.mode.InsertMode? && n <= |rows| && Batch(cfg, Keyed(t), rows[..n], false).Ok?
    ensures var first := Batch(cfg, Keyed(t), rows[..n], false).value;
            && (n == 0 ==> first == Keyed(t))
            && (n > 0 ==> forall m :: 0 < m <= |rows| ==> Batch(cfg, first, rows[..m], false) == Err(DuplicateKey))
            && (n > 0 ==> Batch(cfg, first, rows, false) == Err(DuplicateKey))
  {
    if n > 0 {
      InsertedKeyStays(cfg, t, rows[..n]);
      var first := Batch(cfg, Keyed(t), rows[..n], false).value;
      forall m | 0 < m <= |rows| ensures Batch(cfg, first, rows[..m], false) == Err(DuplicateKey) {
        FirstRowConflicts(cfg, first.rows, rows[..m]);
      }
      FirstRowConflicts(cfg, first.rows, rows);
    }
  }

  /* ----- a change stream mirrors its source ----- */

  // One committed change of the source table. The provider emits the row after
  // the change, and the row removed by a delete.
  datatype SourceChange = Inserted(row: Row) | Updated(before: Row, after: Row) | Removed(row: Row)

  // A source table, each row under the key its projection has in the target.
  type Source = map<Key, Row>

  function TargetKey(cfg: Config, row: Row): Key {
    KeyOf(Mapped(row, cfg.mapping), cfg.keyColumns)
  }

  function Change(cfg: Config, s: Source, c: SourceChange): Source {
    match c
    case Inserted(row) => s[TargetKey(cfg, row) := row]
    case Updated(before, after) => (s - {TargetKey(cfg, before)})[TargetKey(cfg, after) := after]
    case Removed(row) => s - {TargetKey(cfg, row)}
  }

  function Emitted(cfg: Config, c: SourceChange): Write {
    match c
    case Inserted(row) => WriteOf(cfg, row, false)
    case Updated(_, after) => WriteOf(cfg, after, false)
    case Removed(row) => WriteOf(cfg, row, true)
  }

  // The target a perfect copy of the source would be.
  function Mirror(cfg: Config, s: Source): Table {
    map k | k in s :: Mapped(s[k], cfg.mapping)
  }

  // A change that can happen to the source. A row has the columns of the row it
  // replaces, which matters where no mapping picks the columns.
  ghost predicate Occurs(cfg: Config, s: Source, c: SourceChange) {
    match c
    case Inserted(row) => TargetKey(cfg, row) !in s
    case Updated(before, after) =>
      && TargetKey(cfg, before) in s
      && (TargetKey(cfg, after) == TargetKey(cfg, before) || TargetKey(cfg, after) !in s)
      && (cfg.mapping == [] ==> s[TargetKey(cfg, before)].Keys == after.Keys)
    case Removed(row) => TargetKey(cfg, row) in s
  }

  lemma MirrorPut(cfg: Config, s: Source, k: Key, row: Row)
    ensures Mirror(cfg, s[k := row]) == Mirror(cfg, s)[k := Mapped(row, cfg.mapping)]
  {
  }

  lemma MirrorDrop(cfg: Config, s: Source, k: Key)
    ensures Mirror(cfg, s - {k}) == Mirror(cfg, s) - {k}
  {
  }

  ghost predicate KeepsKey(cfg: Config, c: SourceChange) {
    c.Updated? ==> TargetKey(cfg, c.before) == TargetKey(cfg, c.after)
  }

  // Writing a row over one with the same columns replaces it.
  lemma UpsertReplaces(cfg: Config, s: Source, row: Row)
    requires cfg.mapping == [] && TargetKey(cfg, row) in s ==> s[TargetKey(cfg, row)].Keys == row.Keys
    ensures Apply(Mirror(cfg, s), WriteOf(cfg, row, false)) == Mirror(cfg, s[TargetKey(cfg, row) := row])
  {
    var k := TargetKey(cfg, row);
    MirrorPut(cfg, s, k, row);
    if k in s {
      SameColumns(cfg, s[k], row);
      assert Mapped(s[k], cfg.mapping) + Mapped(row, cfg.mapping) == Mapped(row, cfg.mapping);
    } else {
      assert map[] + Mapped(row, cfg.mapping) == Mapped(row, cfg.mapping);
    }
  }

  lemma SameColumns(cfg: Config, before: Row, after: Row)
    requires cfg.mapping == [] ==> before.Keys == after.Keys
    ensures Mapped(before, cfg.mapping).Keys == Mapped(after, cfg.mapping).Keys
  {
    if |cfg.mapping| > 0 {
      ProjectedKeys(before, cfg.mapping);
      ProjectedKeys(after, cfg.mapping);
    }
  }

  /** One change keeps a mirrored target a mirror, except an update that moves a
      row to another key: only its new image is emitted, so the old row stays. */
  lemma ChangeIsMirrored(cfg: Config, s: Source, c: SourceChange)
    requires Occurs(cfg, s, c)
    ensures Apply(Mirror(cfg, s), Emitted(cfg, c)) == Mirror(cfg, Change(cfg, s, c)) <==> KeepsKey(cfg, c)
  {
    match c
    case Inserted(row) => UpsertReplaces(cfg, s, row);
    case Removed(row) => MirrorDrop(cfg, s, TargetKey(cfg, row));
    case Updated(before, after) =>
      var k, k' := TargetKey(cfg, before), TargetKey(cfg, after);
      UpsertReplaces(cfg, s, after);
      if k == k' {
        assert (s - {k})[k := after] == s[k := after];
      } else {
        assert k in Mirror(cfg, s[k' := after]) && k !in Mirror(cfg, Change(cfg, s, c));
      }
  }

  /* ----- the mirror under the unique index ----- */

  // Every row of the source under its own key, with no NULL in it.
  ghost predicate Located(cfg: Config, s: Source) {
    forall k :: k in s ==> !HasNull(k) && TargetKey(cfg, s[k]) == k
  }

  // Such a source, and only such a one, has a mirror the unique index admits.
  lemma MirrorIsWellKeyed(cfg: Config, s: Source)
    ensures WellKeyed(Mirror(cfg, s), cfg.keyColumns) <==> Located(cfg, s)
  {
    assert forall k :: k in s ==> Mirror(cfg, s)[k] == Mapped(s[k], cfg.mapping);
  }

  // The key columns of a row that is written hold no NULL.
  predicate Storable(cfg: Config, row: Row, delete: bool) {
    delete || !HasNull(TargetKey(cfg, row))
  }

  lemma WriteKeepsIndex(cfg: Config, t: Table, row: Row, delete: bool)
    requires WellKeyed(t, cfg.keyColumns) && Storable(cfg, row, delete)
    ensures WellKeyed(Apply(t, WriteOf(cfg, row, delete)), cfg.keyColumns)
  {
    var k, values := TargetKey(cfg, row), Mapped(row, cfg.mapping);
    if !delete {
      if k in t {
        KeySurvives(t[k], values, cfg.keyColumns);
        WellKeyedPut(t, cfg.keyColumns, k, t[k] + values);
      } else {
        assert map[] + values == values;
        WellKeyedPut(t, cfg.keyColumns, k, values);
      }
    }
  }

  // Without faults a batch of one such row goes through.
  lemma RowGoesThrough(cfg: Config, t: Table, row: Row, delete: bool)
    requires |cfg.keyColumns| > 0 && cfg.mode.UpsertMode? && Storable(cfg, row, delete)
    ensures Batch(cfg, Keyed(t), [row], delete).Ok?
  {
    var values, c := Mapped(row, cfg.mapping), cfg.keyColumns[0];
    assert [row][..0] == [] && Batch(cfg, Keyed(t), [], delete) == Ok(Keyed(t));
    if delete {
      assert c in Pick(values, cfg.keyColumns);
    } else {
      assert KeyOf(values, cfg.keyColumns)[0] in KeyOf(values, cfg.keyColumns);
      assert c in values;
    }
  }

  function Evolve(cfg: Config, s: Source, cs: seq<SourceChange>): Source {
    if |cs| == 0 then s else Change(cfg, Evolve(cfg, s, cs[..|cs| - 1]), cs[|cs| - 1])
  }

  function EmittedAll(cfg: Config, cs: seq<SourceChange>): seq<Write> {
    seq(|cs|, i requires 0 <= i < |cs| => Emitted(cfg, cs[i]))
  }

  // A possible history of the source in which no update moves a row.
  ghost predicate History(cfg: Config, s: Source, cs: seq<SourceChange>) {
    |cs| > 0 ==>
      && History(cfg, s, cs[..|cs| - 1])
      && Occurs(cfg, Evolve(cfg, s, cs[..|cs| - 1]), cs[|cs| - 1])
      && KeepsKey(cfg, cs[|cs| - 1])
  }

  /** Applied once and in order, the changes of such a history carry a mirror of
      the first source state to a mirror of the last. */
  lemma {:induction false} LogIsMirrored(cfg: Config, s: Source, cs: seq<SourceChange>)
    requires History(cfg, s, cs)
    ensures ApplyAll(Mirror(cfg, s), EmittedAll(cfg, cs)) == Mirror(cfg, Evolve(cfg, s, cs))
  {
    if |cs| > 0 {
      var init := cs[..|cs| - 1];
      LogIsMirrored(cfg, s, init);
      assert EmittedAll(cfg, cs)[..|init|] == EmittedAll(cfg, init);
      ChangeIsMirrored(cfg, Evolve(cfg, s, init), cs[|init|]);
    }
  }
}
