// A keyed target table as the database sink sees it: a map from key to row,
// changed by upserts that merge columns and by keyed deletes.
//
// The facts proved here are what make at-least-once delivery safe. A segment of
// writes absorbs every piece of itself that was applied earlier, so replaying
// an enclosing segment repairs whatever a partial earlier attempt left behind.
module KeyedTable {
  import opened Wrappers

  datatype Value = Null | Bool(b: bool) | Num(n: int) | Text(s: string)

  type Row = map<string, Value>
  type Key = seq<Value>
  type Table = map<Key, Row>

  datatype Op = Upsert(values: Row) | Delete
  datatype Write = Write(key: Key, op: Op)

  // The content of one key: a row, or nothing.
  type Cell = Option<Row>

  function CellOf(t: Table, k: Key): Cell {
    if k in t then Some(t[k]) else None
  }

  function Base(c: Cell): Row {
    if c.Some? then c.value else map[]
  }

  function ApplyCell(c: Cell, op: Op): Cell {
    match op
    case Upsert(values) => Some(Base(c) + values)
    case Delete => None
  }

  function Apply(t: Table, w: Write): Table {
    match w.op
    case Upsert(values) => t[w.key := Base(CellOf(t, w.key)) + values]
    case Delete => t - {w.key}
  }

  function ApplyAll(t: Table, ws: seq<Write>): Table {
    if |ws| == 0 then t
    else Apply(ApplyAll(t, ws[..|ws| - 1]), ws[|ws| - 1])
  }

  // The same writes seen by one key only.
  function Fold(c: Cell, ws: seq<Write>, k: Key): Cell {
    if |ws| == 0 then c
    else
      var before := Fold(c, ws[..|ws| - 1], k);
      var w := ws[|ws| - 1];
      if w.key == k then ApplyCell(before, w.op) else before
  }

  // A table run is one independent run per key.
  lemma {:induction false} ApplyAllByKey(t: Table, ws: seq<Write>, k: Key)
    ensures CellOf(ApplyAll(t, ws), k) == Fold(CellOf(t, k), ws, k)
  {
    if |ws| > 0 {
      ApplyAllByKey(t, ws[..|ws| - 1], k);
    }
  }

  lemma SameCellsSameTable(t: Table, u: Table)
    requires forall k :: CellOf(t, k) == CellOf(u, k)
    ensures t == u
  {
    forall k ensures k in t <==> k in u {
      assert CellOf(t, k) == CellOf(u, k);
    }
    assert t.Keys == u.Keys;
    forall k | k in t ensures t[k] == u[k] {
      assert CellOf(t, k) == CellOf(u, k);
    }
  }

  lemma {:induction false} FoldAppend(c: Cell, a: seq<Write>, b: seq<Write>, k: Key)
    ensures Fold(c, a + b, k) == Fold(Fold(c, a, k), b, k)
  {
    if |b| == 0 {
      assert a + b == a;
    } else {
      assert (a + b)[..|a + b| - 1] == a + b[..|b| - 1];
      FoldAppend(c, a, b[..|b| - 1], k);
    }
  }

  ghost predicate Deletes(ws: seq<Write>, k: Key) {
    exists i :: 0 <= i < |ws| && ws[i].key == k && ws[i].op.Delete?
  }

  ghost predicate Touches(ws: seq<Write>, k: Key) {
    exists i :: 0 <= i < |ws| && ws[i].key == k
  }

  // The columns a delete-free segment leaves on a key, later writes winning.
  function Merged(ws: seq<Write>, k: Key): Row {
    if |ws| == 0 then map[]
    else
      var before := Merged(ws[..|ws| - 1], k);
      var w := ws[|ws| - 1];
      if w.key == k && w.op.Upsert? then before + w.op.values else before
  }

  // After a delete of the key, what was there before no longer matters.
  lemma {:induction false} DeleteForgets(ws: seq<Write>, k: Key, c: Cell, d: Cell)
    requires Deletes(ws, k)
    ensures Fold(c, ws, k) == Fold(d, ws, k)
  {
    var init, w := ws[..|ws| - 1], ws[|ws| - 1];
    if !(w.key == k && w.op.Delete?) {
      var i :| 0 <= i < |ws| && ws[i].key == k && ws[i].op.Delete?;
      assert init[i] == ws[i];
      DeleteForgets(init, k, c, d);
    }
  }

  lemma {:induction false} DeleteFreeMerges(ws: seq<Write>, k: Key, c: Cell)
    requires !Deletes(ws, k)
    ensures Fold(c, ws, k) == if Touches(ws, k) then Some(Base(c) + Merged(ws, k)) else c
    ensures !Touches(ws, k) ==> Merged(ws, k) == map[]
  {
    if |ws| > 0 {
      var init, w := ws[..|ws| - 1], ws[|ws| - 1];
      DeletesWithin([], init, [w], k);
      assert [] + init + [w] == ws;
      DeleteFreeMerges(init, k, c);
      TouchesLast(ws, k);
      if w.key == k {
        assert w.op.Upsert?;
        BaseMerged(c, Fold(c, init, k), Merged(init, k), w.op.values);
      }
    }
  }

  lemma BaseMerged(c: Cell, d: Cell, m: Row, values: Row)
    requires d == Some(Base(c) + m) || (d == c && m == map[])
    ensures Base(d) + values == Base(c) + (m + values)
  {
    assert Base(d) == Base(c) + m;
  }

  lemma TouchesLast(ws: seq<Write>, k: Key)
    requires |ws| > 0
    ensures Touches(ws, k) <==> Touches(ws[..|ws| - 1], k) || ws[|ws| - 1].key == k
  {
    var init := ws[..|ws| - 1];
    if Touches(init, k) {
      var i :| 0 <= i < |init| && init[i].key == k;
      assert ws[i].key == k;
    }
    if Touches(ws, k) && ws[|ws| - 1].key != k {
      var i :| 0 <= i < |ws| && ws[i].key == k;
      assert init[i].key == k;
    }
  }

  lemma {:induction false} MergedColumns(ws: seq<Write>, k: Key, i: nat, col: string)
    requires i < |ws| && ws[i].key == k && ws[i].op.Upsert? && col in ws[i].op.values
    ensures col in Merged(ws, k)
  {
    if i < |ws| - 1 {
      MergedColumns(ws[..|ws| - 1], k, i, col);
    }
  }

  lemma {:induction false} MergedFrom(ws: seq<Write>, k: Key, col: string) returns (i: nat)
    requires col in Merged(ws, k)
    ensures i < |ws| && ws[i].key == k && ws[i].op.Upsert? && col in ws[i].op.values
  {
    var w := ws[|ws| - 1];
    if w.key == k && w.op.Upsert? && col in w.op.values {
      i := |ws| - 1;
    } else {
      i := MergedFrom(ws[..|ws| - 1], k, col);
    }
  }

  lemma DeletesWithin(pre: seq<Write>, part: seq<Write>, post: seq<Write>, k: Key)
    ensures Deletes(part, k) ==> Deletes(pre + part + post, k)
  {
    if Deletes(part, k) {
      var i :| 0 <= i < |part| && part[i].key == k && part[i].op.Delete?;
      assert (pre + part + post)[|pre| + i] == part[i];
    }
  }

  // The heart of replay safety, key by key: a segment absorbs any contiguous
  // piece of itself that has already been applied, from any starting content.
  lemma SegmentAbsorbsCell(pre: seq<Write>, part: seq<Write>, post: seq<Write>, k: Key, c: Cell)
    ensures Fold(Fold(c, part, k), pre + part + post, k) == Fold(c, pre + part + post, k)
  {
    var whole := pre + part + post;
    if Deletes(whole, k) {
      DeleteForgets(whole, k, Fold(c, part, k), c);
    } else {
      DeletesWithin(pre, part, post, k);
      var d := Fold(c, part, k);
      DeleteFreeMerges(part, k, c);
      DeleteFreeMerges(whole, k, c);
      DeleteFreeMerges(whole, k, d);
      if Touches(part, k) {
        var i :| 0 <= i < |part| && part[i].key == k;
        assert whole[|pre| + i].key == k;
        forall col | col in Merged(part, k) ensures col in Merged(whole, k) {
          var j := MergedFrom(part, k, col);
          assert whole[|pre| + j] == part[j];
          MergedColumns(whole, k, |pre| + j, col);
        }
        assert Base(c) + Merged(part, k) + Merged(whole, k) == Base(c) + Merged(whole, k);
      }
    }
  }

  // The same for a whole table.
  lemma SegmentAbsorbs(pre: seq<Write>, part: seq<Write>, post: seq<Write>, t: Table)
    ensures ApplyAll(ApplyAll(t, part), pre + part + post) == ApplyAll(t, pre + part + post)
  {
    var whole := pre + part + post;
    forall k ensures CellOf(ApplyAll(ApplyAll(t, part), whole), k) == CellOf(ApplyAll(t, whole), k) {
      ApplyAllByKey(t, part, k);
      ApplyAllByKey(ApplyAll(t, part), whole, k);
      ApplyAllByKey(t, whole, k);
      SegmentAbsorbsCell(pre, part, post, k, CellOf(t, k));
    }
    SameCellsSameTable(ApplyAll(ApplyAll(t, part), whole), ApplyAll(t, whole));
  }

  lemma PrefixAbsorbed(ws: seq<Write>, n: nat, t: Table)
    requires n <= |ws|
    ensures ApplyAll(ApplyAll(t, ws[..n]), ws) == ApplyAll(t, ws)
  {
    SegmentAbsorbs([], ws[..n], ws[n..], t);
    assert [] + ws[..n] + ws[n..] == ws;
  }
}
