// Reading a table page by page: the replay stream's keyset and OFFSET loops over
// `browse`, and the pages of a backup.
//
// A table is the sequence its ORDER BY gives, and does not change while it is
// read. Keys stand for the values of the key column in the column's order.
module TablePaging {
  import opened Wrappers

  datatype Row = Row(key: int, data: string)

  datatype Item = Item(row: Row, index: nat)

  datatype Page = Page(rows: seq<Row>, hasMore: bool)

  // Unique non-null key, ascending.
  ghost predicate Ascending(table: seq<Row>) {
    forall i, j :: 0 <= i < j < |table| ==> table[i].key < table[j].key
  }

  // WHERE: the hook's own filters, AND-ed with `key > after` when given.
  function Select(table: seq<Row>, keep: Row -> bool, after: Option<int>): seq<Row> {
    if |table| == 0 then []
    else
      var r := table[|table| - 1];
      Select(table[..|table| - 1], keep, after)
      + (if keep(r) && (after.Some? ==> r.key > after.value) then [r] else [])
  }

  // LIMIT/OFFSET with one extra row to learn whether there is more.
  function Browse(selected: seq<Row>, limit: nat, offset: nat, maxRows: nat): Page {
    var wanted := if limit < 1 then 1 else limit;
    var bound := if wanted > maxRows then maxRows else wanted;
    var from := if offset < |selected| then offset else |selected|;
    var to := if from + bound + 1 < |selected| then from + bound + 1 else |selected|;
    var data := selected[from..to];
    var hasMore := |data| > bound;
    Page(if hasMore then data[..bound] else data, hasMore)
  }

  function From(rows: seq<Row>, offset: nat): seq<Row> {
    if offset <= |rows| then rows[offset..] else []
  }

  function Least(a: nat, b: nat): nat {
    if a < b then a else b
  }

  // What a page tells: it is the next stretch of the selection, as long as the
  // limits and the rest allow, empty only at the end, and it says rightly whether
  // more follows.
  lemma PageIsNextStretch(selected: seq<Row>, limit: nat, offset: nat, maxRows: nat)
    requires maxRows > 0
    ensures var page, rest := Browse(selected, limit, offset, maxRows), From(selected, offset);
            var n := |page.rows|;
            && n <= |rest| && page.rows == rest[..n]
            && (page.hasMore <==> n < |rest|) && (n == 0 <==> rest == [])
            && n == Least(Least(if limit == 0 then 1 else limit, maxRows), |rest|)
  {
  }

  method FetchPage(selected: seq<Row>, limit: nat, offset: nat, maxRows: nat) returns (page: Page)
    requires maxRows > 0
    ensures |page.rows| <= |From(selected, offset)| && page.rows == From(selected, offset)[..|page.rows|]
    ensures page.hasMore <==> |page.rows| < |From(selected, offset)|
    ensures |page.rows| == 0 <==> |From(selected, offset)| == 0
  {
    PageIsNextStretch(selected, limit, offset, maxRows);
    page := Browse(selected, limit, offset, maxRows);
  }

  // What is left from an offset on is its next rows and what is left behind them.
  lemma FromSplit(rows: seq<Row>, offset: nat, next: seq<Row>)
    requires |next| <= |From(rows, offset)| && next == From(rows, offset)[..|next|]
    ensures From(rows, offset) == next + From(rows, offset + |next|)
  {
    if offset <= |rows| {
      assert rows[offset..][|next|..] == rows[offset + |next|..];
    }
  }

  // Consecutive rows under consecutive indices.
  function Numbered(rows: seq<Row>, start: nat): seq<Item> {
    if |rows| == 0 then []
    else Numbered(rows[..|rows| - 1], start) + [Item(rows[|rows| - 1], start + |rows| - 1)]
  }

  lemma {:induction false} NumberedAppend(a: seq<Row>, b: seq<Row>, start: nat)
    ensures Numbered(a + b, start) == Numbered(a, start) + Numbered(b, start + |a|)
  {
    if |b| == 0 {
      assert a + b == a;
    } else {
      assert (a + b)[..|a + b| - 1] == a + b[..|b| - 1];
      NumberedAppend(a, b[..|b| - 1], start);
    }
  }

  // The selection is what the filters keep.
  lemma {:induction false} SelectIs(table: seq<Row>, keep: Row -> bool, after: Option<int>, r: Row)
    ensures r in Select(table, keep, after) <==> r in table && keep(r) && (after.Some? ==> r.key > after.value)
  {
    if |table| > 0 {
      var init, last := table[..|table| - 1], table[|table| - 1];
      SelectIs(init, keep, after, r);
      assert table == init + [last];
    }
  }

  lemma {:induction false} NumberedAt(rows: seq<Row>, start: nat)
    ensures |Numbered(rows, start)| == |rows|
    ensures forall i :: 0 <= i < |rows| ==> Numbered(rows, start)[i] == Item(rows[i], start + i)
  {
    if |rows| > 0 { NumberedAt(rows[..|rows| - 1], start); }
  }

  lemma {:induction false} SelectKeepsOrder(table: seq<Row>, keep: Row -> bool, after: Option<int>)
    requires Ascending(table)
    ensures Ascending(Select(table, keep, after))
    ensures forall r :: r in Select(table, keep, after) ==> r in table && keep(r)
  {
    if |table| > 0 {
      var init, last := table[..|table| - 1], table[|table| - 1];
      SelectKeepsOrder(init, keep, after);
      forall i | 0 <= i < |Select(init, keep, after)| ensures Select(init, keep, after)[i].key < last.key {
        assert Select(init, keep, after)[i] in init;
      }
    }
  }

  // On ascending keys the extra filter cuts off a prefix of the selection.
  lemma {:induction false} SelectAfter(table: seq<Row>, keep: Row -> bool, p: nat)
    requires Ascending(table) && 0 < p <= |Select(table, keep, None)|
    ensures var all := Select(table, keep, None);
            Select(table, keep, Some(all[p - 1].key)) == all[p..]
  {
    var all, init := Select(table, keep, None), table[..|table| - 1];
    var before, last := Select(init, keep, None), table[|table| - 1];
    SelectKeepsOrder(init, keep, None);
    if p <= |before| {
      SelectAfter(init, keep, p);
      assert all[p - 1] == before[p - 1] && before[p - 1] in before;
    } else {
      assert all[p - 1] == last;
      NothingAfter(init, keep, last.key);
    }
  }

  lemma {:induction false} NothingAfter(table: seq<Row>, keep: Row -> bool, k: int)
    requires forall r :: r in table ==> r.key <= k
    ensures Select(table, keep, Some(k)) == []
  {
    if |table| > 0 {
      NothingAfter(table[..|table| - 1], keep, k);
      assert table[|table| - 1] in table;
    }
  }

  // What the two loops yield from a selection.
  function OffsetItems(all: seq<Row>, start: nat): seq<Item> {
    Numbered(From(all, start), start)
  }

  function KeysetItems(all: seq<Row>, start: nat): seq<Item> {
    if start <= |all| then Numbered(all[start..], start) else Numbered(all, start)
  }

  // The key the loop holds after the first p rows of the selection.
  function KeyAt(all: seq<Row>, p: nat): Option<int>
    requires p <= |all|
  {
    if p == 0 then None else Some(all[p - 1].key)
  }

  // The key the loop holds after these rows.
  function LastKey(rows: seq<Row>, before: Option<int>): Option<int> {
    if |rows| == 0 then before else Some(rows[|rows| - 1].key)
  }

  // Filtering by the last key leaves the rest of the selection.
  lemma KeysetRest(table: seq<Row>, keep: Row -> bool, p: nat)
    requires Ascending(table) && p <= |Select(table, keep, None)|
    ensures var all := Select(table, keep, None);
            From(Select(table, keep, KeyAt(all, p)), 0) == all[p..]
  {
    if p > 0 {
      SelectAfter(table, keep, p);
    }
  }

  // The rows at the front of what is left: what stays left, and the key to go on from.
  lemma KeysetPage(all: seq<Row>, p: nat, rows: seq<Row>)
    requires p <= |all| && |rows| <= |all| - p && rows == all[p..][..|rows|]
    ensures all[p..] == rows + all[p + |rows|..]
    ensures KeyAt(all, p + |rows|) == LastKey(rows, KeyAt(all, p))
  {
  }

  method FetchKeysetPage(table: seq<Row>, keep: Row -> bool, lastKey: Option<int>, pageSize: nat, maxRows: nat,
                         ghost all: seq<Row>, ghost p: nat)
    returns (page: Page)
    requires Ascending(table) && maxRows > 0 && all == Select(table, keep, None)
    requires p <= |all| && lastKey == KeyAt(all, p)
    ensures var n := |page.rows|;
            && p + n <= |all| && all[p..] == page.rows + all[p + n..]
            && (page.hasMore <==> p + n < |all|) && (n == 0 <==> p == |all|)
    ensures KeyAt(all, p + |page.rows|) == LastKey(page.rows, lastKey)
  {
    KeysetRest(table, keep, p);
    page := FetchPage(Select(table, keep, lastKey), pageSize, 0, maxRows);
    KeysetPage(all, p, page.rows);
  }

  // Yielding the next rows of what is left to yield leaves the others.
  lemma YieldMoves(out: seq<Item>, rest: seq<Row>, rows: seq<Row>, rest': seq<Row>, index: nat)
    requires rest == rows + rest'
    ensures (out + Numbered(rows, index)) + Numbered(rest', index + |rows|) == out + Numbered(rest, index)
  {
    NumberedAppend(rows, rest', index);
  }

  // The rows of one page, each under its own index; the last key seen.
  method YieldPage(rows: seq<Row>, start: nat, key: Option<int>) returns (items: seq<Item>, index: nat, lastKey: Option<int>)
    ensures items == Numbered(rows, start) && index == start + |rows|
    ensures lastKey == LastKey(rows, key)
  {
    items, index, lastKey := [], start, key;
    for i := 0 to |rows|
      invariant index == start + i && items == Numbered(rows[..i], start)
      invariant lastKey == LastKey(rows[..i], key)
    {
      assert rows[..i + 1][..i] == rows[..i];
      items := items + [Item(rows[i], index)];
      index := index + 1;
      lastKey := Some(rows[i].key);
    }
    assert rows[..|rows|] == rows;
  }

  // Yielding a page: what is yielded and what is left stay the same together.
  method YieldRows(out: seq<Item>, rows: seq<Row>, start: nat, key: Option<int>, ghost rest: seq<Row>, ghost rest': seq<Row>)
    returns (out': seq<Item>, index: nat, lastKey: Option<int>)
    requires rest == rows + rest'
    ensures out' + Numbered(rest', index) == out + Numbered(rest, start) && index == start + |rows|
    ensures lastKey == LastKey(rows, key)
  {
    YieldMoves(out, rest, rows, rest', start);
    var items;
    items, index, lastKey := YieldPage(rows, start, key);
    out' := out + items;
  }

  // On a resume: the key of the row before the cursor, if there is one.
  method SeekLastKey(table: seq<Row>, keep: Row -> bool, start: nat, maxRows: nat) returns (lastKey: Option<int>)
    requires maxRows > 0
    ensures var all := Select(table, keep, None);
            lastKey == if start <= |all| then KeyAt(all, start) else None
  {
    lastKey := None;
    if start > 0 {
      var seek := FetchPage(Select(table, keep, None), 1, start - 1, maxRows);
      if |seek.rows| > 0 {
        lastKey := Some(seek.rows[0].key);
      }
    }
  }

  /** Keyset paging: each page continues after the last key seen. On a resume the
      key of the last delivered row is looked up first. */
  method StreamKeyset(table: seq<Row>, keep: Row -> bool, pageSize: nat, start: nat, maxRows: nat) returns (out: seq<Item>)
    requires Ascending(table) && maxRows > 0
    ensures out == KeysetItems(Select(table, keep, None), start)
  {
    ghost var all := Select(table, keep, None);
    var lastKey := SeekLastKey(table, keep, start, maxRows);
    var index := start;
    ghost var p := if start <= |all| then start else 0;
    out := [];
    while true
      invariant p <= |all| && lastKey == KeyAt(all, p)
      invariant out + Numbered(all[p..], index) == KeysetItems(all, start)
      decreases |all| - p
    {
      var more;
      out, index, lastKey, more, p := KeysetTurn(table, keep, pageSize, maxRows, out, index, lastKey, all, p);
      if !more {
        AllYielded(out, all[p..], index);
        return;
      }
    }
  }

  // The body of the loop: one page, yielded.
  method KeysetTurn(table: seq<Row>, keep: Row -> bool, pageSize: nat, maxRows: nat, out: seq<Item>, index: nat, lastKey: Option<int>,
                    ghost all: seq<Row>, ghost p: nat)
    returns (out': seq<Item>, index': nat, lastKey': Option<int>, more: bool, ghost p': nat)
    requires Ascending(table) && maxRows > 0 && all == Select(table, keep, None)
    requires p <= |all| && lastKey == KeyAt(all, p)
    ensures p <= p' <= |all| && lastKey' == KeyAt(all, p') && (if more then p < p' else p' == |all|)
    ensures out' + Numbered(all[p'..], index') == out + Numbered(all[p..], index)
  {
    var page := FetchKeysetPage(table, keep, lastKey, pageSize, maxRows, all, p);
    p' := p + |page.rows|;
    ghost var rest, rest' := all[p..], all[p'..];
    out', index', lastKey' := YieldRows(out, page.rows, index, lastKey, rest, rest');
    more := page.hasMore && |page.rows| > 0;
  }

  lemma AllYielded(out: seq<Item>, rest: seq<Row>, index: nat)
    requires rest == []
    ensures out + Numbered(rest, index) == out
  {
  }

  /** The OFFSET fallback. */
  method StreamOffset(table: seq<Row>, keep: Row -> bool, pageSize: nat, start: nat, maxRows: nat) returns (out: seq<Item>)
    requires maxRows > 0
    ensures out == OffsetItems(Select(table, keep, None), start)
  {
    var all := Select(table, keep, None);
    var offset: nat := start;
    out := [];
    while true
      invariant out + Numbered(From(all, offset), offset) == OffsetItems(all, start)
      decreases |From(all, offset)|
    {
      var page := FetchPage(all, pageSize, offset, maxRows);
      FromSplit(all, offset, page.rows);
      ghost var rest := From(all, offset + |page.rows|);
      var yielded, _, _ := YieldRows(out, page.rows, offset, None, From(all, offset), rest);
      out := yielded;
      if !page.hasMore || |page.rows| == 0 {
        AllYielded(out, rest, offset + |page.rows|);
        return;
      }
      offset := offset + |page.rows|;
    }
  }

  /** Keyset refines OFFSET exactly when the resume position does not lie past
      the end of a non-empty selection. There the seek finds no row, and the
      keyset loop starts over from the first row under wrong indices. */
  lemma KeysetRefinesOffset(all: seq<Row>, start: nat)
    ensures KeysetItems(all, start) == OffsetItems(all, start) <==> start <= |all| || |all| == 0
  {
  }

  /** From anywhere in the selection both loops yield the rest of it in order, each
      row under its own index. */
  lemma BothYieldRest(all: seq<Row>, start: nat)
    requires start <= |all|
    ensures var items := KeysetItems(all, start);
            && items == OffsetItems(all, start) && |items| == |all| - start
            && forall i :: 0 <= i < |items| ==> items[i] == Item(all[start + i], start + i)
  {
    NumberedAt(all[start..], start);
  }

  /* ----- choosing the order ----- */

  datatype Sort = Sort(column: string, descending: bool)

  datatype Order = Order(sort: seq<Sort>, keysetColumn: Option<string>)

  function ResolveTableOrder(primaryKey: seq<string>, sort: seq<Sort>): Result<Order, string> {
    var singlePk := if |primaryKey| == 1 then Some(primaryKey[0]) else None;
    if |sort| > 0 then
      Ok(Order(sort, if |sort| == 1 && Some(sort[0].column) == singlePk && !sort[0].descending then singlePk else None))
    else if |primaryKey| > 0 then
      Ok(Order(seq(|primaryKey|, i requires 0 <= i < |primaryKey| => Sort(primaryKey[i], false)), singlePk))
    else Err("no primary key")
  }

  // Rows are always read in some order, and by keyset exactly when that order
  // is the one-column primary key, ascending.
  lemma KeysetOnlyOnPrimaryKey(primaryKey: seq<string>, sort: seq<Sort>)
    ensures var r := ResolveTableOrder(primaryKey, sort);
            && (r.Err? <==> sort == [] && primaryKey == [])
            && (r.Ok? ==> r.value.sort != [] && (sort != [] ==> r.value.sort == sort))
            && (r.Ok? ==> forall c :: r.value.keysetColumn == Some(c)
                                      <==> primaryKey == [c] && r.value.sort == [Sort(c, false)])
  {
    var r := ResolveTableOrder(primaryKey, sort);
    if |sort| == 1 {
      assert sort == [sort[0]];
    }
    if |primaryKey| == 1 {
      assert primaryKey == [primaryKey[0]];
    }
    if r.Ok? && |r.value.sort| == 1 {
      assert r.value.sort == [r.value.sort[0]];
    }
  }

  /** The order a table is read in: the sort asked for, else every column of the
      primary key ascending, in key order, else none and a refusal. */
  lemma OrderExactly(primaryKey: seq<string>, sort: seq<Sort>)
    ensures var r := ResolveTableOrder(primaryKey, sort);
            && (sort != [] ==> r.Ok? && r.value.sort == sort)
            && (sort == [] && primaryKey != [] ==>
                  r.Ok? && |r.value.sort| == |primaryKey|
                  && forall i :: 0 <= i < |primaryKey| ==> r.value.sort[i] == Sort(primaryKey[i], false))
            && (sort == [] && primaryKey == [] ==> r.Err?)
  {
  }

  /* ----- backup pages ----- */

  function Concat(pages: seq<seq<Row>>): seq<Row> {
    if |pages| == 0 then [] else Concat(pages[..|pages| - 1]) + pages[|pages| - 1]
  }

  /** Pages of a fixed size until a short one: together they are the table. */
  method ForEachRowBatch(table: seq<Row>, batch: nat) returns (pages: seq<seq<Row>>)
    requires batch > 0
    ensures Concat(pages) == table
    ensures |pages| > 0 && |pages[|pages| - 1]| < batch
    ensures forall i :: 0 <= i < |pages| - 1 ==> |pages[i]| == batch
  {
    pages := [];
    var offset := 0;
    while true
      invariant offset <= |table| && Concat(pages) == table[..offset]
      invariant forall i :: 0 <= i < |pages| ==> |pages[i]| == batch
      decreases |table| - offset
    {
      var to := if offset + batch < |table| then offset + batch else |table|;
      var rows := table[offset..to];
      assert (pages + [rows])[..|pages|] == pages;
      pages := pages + [rows];
      if |rows| < batch { return; }
      offset := offset + |rows|;
    }
  }
}
