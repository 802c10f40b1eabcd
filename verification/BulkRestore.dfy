// Restoring a JSON backup: values through the document, and the multi-row
// inserts that bind them under the driver's parameter limit.
module BulkRestore {
  import opened Wrappers
  import WhereBuilder

  /* ----- values through the document ----- */

  datatype Json =
    | JNull
    | JBool(b: bool)
    | JNum(n: int)
    | JStr(s: string)
    | JArr(items: seq<Json>)
    | JObj(fields: map<string, Json>)

  // A driver value; Array and Object are what JSON columns come as.
  datatype Value =
    | Null
    | Bool(b: bool)
    | Num(n: int)
    | Str(s: string)
    | Date(iso: string)
    | Bytes(bytes: seq<int>)
    | Array(items: seq<Json>)
    | Object(fields: map<string, Json>)

  // Base64 (RFC 4648, section 4), Buffer.from on an array, and JSON.stringify.
  datatype Codec = Codec(
    encode: seq<int> -> string,
    decode: string -> seq<int>,
    fromArray: seq<Json> -> seq<int>,
    stringify: Json -> string)

  ghost predicate Decodes(codec: Codec) {
    forall b :: codec.decode(codec.encode(b)) == b
  }

  // encodeRowForBackup, and the document written and parsed again.
  function Encode(codec: Codec, v: Value): Json {
    match v
    case Null => JNull
    case Bool(b) => JBool(b)
    case Num(n) => JNum(n)
    case Str(s) => JStr(s)
    case Date(iso) => JStr(iso)
    case Bytes(bytes) => JObj(map["$bytes" := JStr(codec.encode(bytes))])
    case Array(items) => JArr(items)
    case Object(fields) => JObj(fields)
  }

  function DecodeBytes(codec: Codec, fields: map<string, Json>): Option<seq<int>> {
    if "$bytes" in fields && fields["$bytes"].JStr? && |fields| == 1 then Some(codec.decode(fields["$bytes"].s))
    else if "type" in fields && fields["type"] == JStr("Buffer") && "data" in fields && fields["data"].JArr?
    then Some(codec.fromArray(fields["data"].items))
    else None
  }

  function NormalizeForInsert(codec: Codec, j: Json): Value {
    match j
    case JNull => Null
    case JBool(b) => Bool(b)
    case JNum(n) => Num(n)
    case JStr(s) => Str(s)
    case JArr(_) => Str(codec.stringify(j))
    case JObj(fields) =>
      match DecodeBytes(codec, fields)
      case Some(bytes) => Bytes(bytes)
      case None => Str(codec.stringify(j))
  }

  // What a restore should bind: scalars and buffers unchanged, dates as their
  // ISO text, arrays and objects as their JSON text.
  function Expected(codec: Codec, v: Value): Value {
    match v
    case Date(iso) => Str(iso)
    case Array(items) => Str(codec.stringify(JArr(items)))
    case Object(fields) => Str(codec.stringify(JObj(fields)))
    case _ => v
  }

  // An object of the user's that looks like an encoded buffer.
  predicate LooksLikeBytes(v: Value) {
    v.Object? &&
    (|| (v.fields.Keys == {"$bytes"} && v.fields["$bytes"].JStr?)
     || ("type" in v.fields && v.fields["type"] == JStr("Buffer") && "data" in v.fields && v.fields["data"].JArr?))
  }

  lemma OnlyKey(fields: map<string, Json>, k: string)
    requires k in fields
    ensures |fields| == 1 <==> fields.Keys == {k}
  {
    if |fields| == 1 {
      assert |fields.Keys - {k}| == 0;
    }
  }

  /** A value comes back as expected if and only if it is not an object that
      looks like an encoded buffer; such an object comes back as bytes. */
  lemma ValueSurvives(codec: Codec, v: Value)
    requires Decodes(codec)
    ensures NormalizeForInsert(codec, Encode(codec, v)) == Expected(codec, v) <==> !LooksLikeBytes(v)
    ensures LooksLikeBytes(v) ==>
              NormalizeForInsert(codec, Encode(codec, v))
              == Bytes(if v.fields.Keys == {"$bytes"} && v.fields["$bytes"].JStr? then codec.decode(v.fields["$bytes"].s)
                       else codec.fromArray(v.fields["data"].items))
  {
    if v.Bytes? {
      var fields := map["$bytes" := JStr(codec.encode(v.bytes))];
      OnlyKey(fields, "$bytes");
    }
    if v.Object? && "$bytes" in v.fields {
      OnlyKey(v.fields, "$bytes");
    }
  }

  /* ----- multi-row inserts ----- */

  const RESTORE_BATCH := 500

  type Record = map<string, Json>

  // INSERT ... VALUES (tuple), (tuple), ... with numbered placeholders.
  datatype Insert = Insert(tuples: seq<seq<int>>, params: seq<Value>)

  function Min(a: int, b: int): int {
    if a < b then a else b
  }

  function BatchSize(width: nat, maxBindParams: nat): (n: nat)
    requires width > 0
    ensures 1 <= n <= RESTORE_BATCH
    ensures n > 1 ==> n <= maxBindParams / width
  {
    var n := Min(RESTORE_BATCH, maxBindParams / width);
    if n < 1 then 1 else n
  }

  // A column the row does not have is bound as NULL.
  function Cell(codec: Codec, row: Record, column: string): Value {
    if column in row then NormalizeForInsert(codec, row[column]) else Null
  }

  function RowCells(codec: Codec, columns: seq<string>, row: Record): (r: seq<Value>)
    ensures |r| == |columns| && forall i :: 0 <= i < |r| ==> r[i] == Cell(codec, row, columns[i])
  {
    seq(|columns|, i requires 0 <= i < |columns| => Cell(codec, row, columns[i]))
  }

  function AllCells(codec: Codec, columns: seq<string>, rows: seq<Record>): (r: seq<seq<Value>>)
    ensures |r| == |rows| && forall i :: 0 <= i < |r| ==> r[i] == RowCells(codec, columns, rows[i])
  {
    seq(|rows|, i requires 0 <= i < |rows| => RowCells(codec, columns, rows[i]))
  }

  function Flat<T>(rows: seq<seq<T>>): seq<T> {
    if |rows| == 0 then [] else Flat(rows[..|rows| - 1]) + rows[|rows| - 1]
  }

  // One placeholder for each cell, numbered on from tuple to tuple.
  function Tuples<T>(rows: seq<seq<T>>): (r: seq<seq<int>>)
    ensures |r| == |rows|
  {
    if |rows| == 0 then []
    else
      var init := rows[..|rows| - 1];
      Tuples(init) + [WhereBuilder.Range(|Flat(init)| + 1, |rows[|rows| - 1]|)]
  }

  function InsertOf(cells: seq<seq<Value>>): Insert {
    Insert(Tuples(cells), Flat(cells))
  }

  // The cells in slices of `size` rows.
  function Inserts(cells: seq<seq<Value>>, size: nat): seq<Insert>
    requires size > 0
  {
    if |cells| == 0 then []
    else
      var n := Min(size, |cells|);
      [InsertOf(cells[..n])] + Inserts(cells[n..], size)
  }

  method BulkInsert(codec: Codec, columns: seq<string>, rows: seq<Record>, maxBindParams: nat)
      returns (statements: seq<Insert>, inserted: nat)
    ensures |columns| == 0 ==> statements == [] && inserted == 0
    ensures |columns| > 0 ==> statements == Inserts(AllCells(codec, columns, rows), BatchSize(|columns|, maxBindParams)) && inserted == |rows|
  {
    statements, inserted := [], 0;
    if |rows| == 0 || |columns| == 0 { return; }
    var batchSize := BatchSize(|columns|, maxBindParams);
    ghost var cells := AllCells(codec, columns, rows);
    ghost var rest := cells;
    var i := 0;
    while i < |rows|
      invariant i >= 0 && inserted == Min(i, |rows|) && rest == cells[inserted..]
      invariant statements + Inserts(rest, batchSize) == Inserts(cells, batchSize)
      decreases |rows| - i
    {
      var end := Min(i + batchSize, |rows|);
      var one := InsertBatch(codec, columns, rows[i..end]);
      CellsOfSlice(codec, columns, rows, i, end);
      NextInsert(cells, i, batchSize, statements);
      statements := statements + [one];
      inserted := inserted + (end - i);
      i := i + batchSize;
      rest := cells[end..];
    }
    assert rest == [] && statements + [] == statements;
  }

  lemma CellsOfSlice(codec: Codec, columns: seq<string>, rows: seq<Record>, i: nat, end: nat)
    requires i <= end <= |rows|
    ensures AllCells(codec, columns, rows[i..end]) == AllCells(codec, columns, rows)[i..end]
  {
  }

  lemma NextInsert(cells: seq<seq<Value>>, i: nat, size: nat, before: seq<Insert>)
    requires i < |cells| && size > 0
    ensures var end := Min(i + size, |cells|);
            before + Inserts(cells[i..], size) == before + [InsertOf(cells[i..end])] + Inserts(cells[end..], size)
  {
    var end := Min(i + size, |cells|);
    assert cells[i..][..end - i] == cells[i..end] && cells[i..][end - i..] == cells[end..];
  }

  // One statement: every cell of the batch is pushed and gets the next placeholder.
  method InsertBatch(codec: Codec, columns: seq<string>, batch: seq<Record>) returns (one: Insert)
    ensures one == InsertOf(AllCells(codec, columns, batch))
  {
    var params: seq<Value>, tuples: seq<seq<int>>, ph := [], [], 1;
    ghost var cells := AllCells(codec, columns, batch);
    for k := 0 to |batch|
      invariant params == Flat(cells[..k]) && tuples == Tuples(cells[..k]) && ph == |params| + 1
    {
      assert cells[..k + 1][..k] == cells[..k];
      var placeholders: seq<int>, first := [], ph;
      ghost var before := params;
      for c := 0 to |columns|
        invariant ph == first + c && placeholders == WhereBuilder.Range(first, c)
        invariant params == before + RowCells(codec, columns, batch[k])[..c]
      {
        params := params + [Cell(codec, batch[k], columns[c])];
        placeholders, ph := placeholders + [ph], ph + 1;
      }
      assert RowCells(codec, columns, batch[k])[..|columns|] == cells[k];
      tuples := tuples + [placeholders];
    }
    assert cells[..|batch|] == cells;
    one := Insert(tuples, params);
  }

  /* ----- what the engine stores ----- */

  function Bound(params: seq<Value>, numbers: seq<int>): (r: seq<Value>)
    ensures |r| == |numbers|
    ensures forall i :: 0 <= i < |r| && 1 <= numbers[i] <= |params| ==> r[i] == params[numbers[i] - 1]
  {
    seq(|numbers|, i requires 0 <= i < |numbers| => if 1 <= numbers[i] <= |params| then params[numbers[i] - 1] else Null)
  }

  function Stored(one: Insert): seq<seq<Value>> {
    seq(|one.tuples|, i requires 0 <= i < |one.tuples| => Bound(one.params, one.tuples[i]))
  }

  function StoredAll(statements: seq<Insert>): seq<seq<Value>> {
    if |statements| == 0 then [] else Stored(statements[0]) + StoredAll(statements[1..])
  }

  lemma {:induction false} TuplesBind(rows: seq<seq<Value>>, after: seq<Value>)
    ensures Stored(Insert(Tuples(rows), Flat(rows) + after)) == rows
  {
    if |rows| > 0 {
      var init, last := rows[..|rows| - 1], rows[|rows| - 1];
      TuplesBind(init, last + after);
      var params := Flat(rows) + after;
      assert params == Flat(init) + (last + after);
      var tuple := WhereBuilder.Range(|Flat(init)| + 1, |last|);
      assert Bound(params, tuple) == last;
      StoredMore(params, Tuples(init), tuple);
    }
  }

  lemma StoredMore(params: seq<Value>, tuples: seq<seq<int>>, tuple: seq<int>)
    ensures Stored(Insert(tuples + [tuple], params)) == Stored(Insert(tuples, params)) + [Bound(params, tuple)]
  {
  }

  /** Every cell is bound exactly once, in row-major order: the statements store
      the rows, all of them, in order, whatever the batch size. */
  lemma {:induction false} InsertsStoreAll(cells: seq<seq<Value>>, size: nat)
    requires size > 0
    ensures StoredAll(Inserts(cells, size)) == cells
  {
    if |cells| > 0 {
      var n := Min(size, |cells|);
      InsertsStoreAll(cells[n..], size);
      BatchStored(cells[..n]);
      assert cells[..n] + cells[n..] == cells;
    }
  }

  lemma BatchStored(cells: seq<seq<Value>>)
    ensures Stored(InsertOf(cells)) == cells
  {
    TuplesBind(cells, []);
    assert Flat(cells) + [] == Flat(cells);
  }

  /** Placeholders are numbered 1.. without a gap in every statement. */
  lemma {:induction false} TuplesInOrder<T>(rows: seq<seq<T>>)
    ensures Flat(Tuples(rows)) == WhereBuilder.Range(1, |Flat(rows)|)
  {
    if |rows| > 0 {
      var init := rows[..|rows| - 1];
      TuplesInOrder(init);
      assert Tuples(rows)[..|init|] == Tuples(init);
    }
  }

  /* ----- the bind limit ----- */

  lemma {:induction false} FlatLength(rows: seq<seq<Value>>, width: nat)
    requires forall i :: 0 <= i < |rows| ==> |rows[i]| == width
    ensures |Flat(rows)| == |rows| * width
  {
    if |rows| > 0 {
      FlatLength(rows[..|rows| - 1], width);
      assert (|rows| - 1) * width + width == |rows| * width;
    }
  }

  lemma FitsBelow(n: nat, width: nat, max: nat)
    requires width > 0 && n <= max / width
    ensures n * width <= max
  {
    assert n * width <= (max / width) * width <= max;
  }

  predicate Wide(cells: seq<seq<Value>>, width: nat) {
    forall i :: 0 <= i < |cells| ==> |cells[i]| == width
  }

  lemma {:induction false} StatementsFit(cells: seq<seq<Value>>, width: nat, max: nat)
    requires 0 < width <= max && Wide(cells, width)
    ensures forall one :: one in Inserts(cells, BatchSize(width, max)) ==> |one.params| <= max
  {
    if |cells| > 0 {
      var n := Min(BatchSize(width, max), |cells|);
      FlatLength(cells[..n], width);
      if n > 1 { FitsBelow(n, width, max); }
      StatementsFit(cells[n..], width, max);
    }
  }

  /** No statement exceeds the driver's limit on bound parameters if and only if
      the table is no wider than the limit; a wider one fails at its first row. */
  lemma BindLimitExactly(cells: seq<seq<Value>>, width: nat, max: nat)
    requires width > 0 && |cells| > 0 && Wide(cells, width)
    ensures (forall one :: one in Inserts(cells, BatchSize(width, max)) ==> |one.params| <= max) <==> width <= max
  {
    if width <= max {
      StatementsFit(cells, width, max);
    } else {
      assert max / width == 0;
      FlatLength(cells[..1], width);
      assert Inserts(cells, 1)[0] == InsertOf(cells[..1]);
      assert InsertOf(cells[..1]) in Inserts(cells, 1);
    }
  }

  /* ----- backup, then restore ----- */

  type Source = map<string, Value>

  function EncodeRow(codec: Codec, row: Source): Record {
    map c | c in row :: Encode(codec, row[c])
  }

  function EncodeRows(codec: Codec, rows: seq<Source>): (r: seq<Record>)
    ensures |r| == |rows| && forall i :: 0 <= i < |r| ==> r[i] == EncodeRow(codec, rows[i])
  {
    seq(|rows|, i requires 0 <= i < |rows| => EncodeRow(codec, rows[i]))
  }

  function ValueAt(row: Source, column: string): Value {
    if column in row then row[column] else Null
  }

  // The cell that is read back for row i, column j.
  function RestoredCell(codec: Codec, v: Value): Value {
    NormalizeForInsert(codec, Encode(codec, v))
  }

  lemma CellStored(codec: Codec, columns: seq<string>, rows: seq<Source>, i: nat, j: nat)
    requires i < |rows| && j < |columns|
    ensures AllCells(codec, columns, EncodeRows(codec, rows))[i][j] == RestoredCell(codec, ValueAt(rows[i], columns[j]))
  {
  }

  ghost predicate RestoresAs(codec: Codec, columns: seq<string>, rows: seq<Source>, stored: seq<seq<Value>>)
    requires |stored| == |rows| && Wide(stored, |columns|)
  {
    forall i, j :: 0 <= i < |rows| && 0 <= j < |columns| ==> stored[i][j] == Expected(codec, ValueAt(rows[i], columns[j]))
  }

  /** A JSON backup restores the whole table, each cell as expected, if and only
      if no cell is an object that looks like an encoded buffer. */
  lemma RestoreIsFaithfulExactly(codec: Codec, columns: seq<string>, rows: seq<Source>, max: nat)
    requires Decodes(codec) && |columns| > 0
    ensures var stored := StoredAll(Inserts(AllCells(codec, columns, EncodeRows(codec, rows)), BatchSize(|columns|, max)));
            && |stored| == |rows| && Wide(stored, |columns|)
            && (RestoresAs(codec, columns, rows, stored)
                <==> forall i, j :: 0 <= i < |rows| && 0 <= j < |columns| ==> !LooksLikeBytes(ValueAt(rows[i], columns[j])))
  {
    var stored := AllCells(codec, columns, EncodeRows(codec, rows));
    InsertsStoreAll(stored, BatchSize(|columns|, max));
    CellsRestored(codec, columns, rows, stored);
  }

  lemma CellsRestored(codec: Codec, columns: seq<string>, rows: seq<Source>, stored: seq<seq<Value>>)
    requires Decodes(codec) && stored == AllCells(codec, columns, EncodeRows(codec, rows)) && Wide(stored, |columns|)
    ensures RestoresAs(codec, columns, rows, stored)
            <==> forall i, j :: 0 <= i < |rows| && 0 <= j < |columns| ==> !LooksLikeBytes(ValueAt(rows[i], columns[j]))
  {
    forall i, j | 0 <= i < |rows| && 0 <= j < |columns|
      ensures stored[i][j] == Expected(codec, ValueAt(rows[i], columns[j])) <==> !LooksLikeBytes(ValueAt(rows[i], columns[j]))
    {
      CellStored(codec, columns, rows, i, j);
      ValueSurvives(codec, ValueAt(rows[i], columns[j]));
    }
  }
}
