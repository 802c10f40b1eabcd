// The change detector of watch hooks. From the rows a poll fetched it picks the
// new ones and advances the cursor, in one of three ways: a strictly increasing
// column, a timestamp column with the keys already emitted at the boundary, or
// a bounded window of seen keys.
//
// A row is its identity key and the value of the watched column; NULL is None.
module WatchEngine {
  import opened Wrappers

  datatype Row = Row(key: string, ts: Option<int>)

  datatype Cursor = Cursor(ts: Option<int>, boundaryKeys: seq<string>)

  datatype Advanced = Advanced(newRows: seq<Row>, cursor: Cursor)

  /* ----- the timestamp strategy ----- */

  function NewRows(rows: seq<Row>, emitted: seq<string>): seq<Row> {
    if |rows| == 0 then []
    else
      var before := NewRows(rows[..|rows| - 1], emitted);
      if rows[|rows| - 1].key in emitted then before else before + [rows[|rows| - 1]]
  }

  function MaxTs(rows: seq<Row>): Option<int> {
    if |rows| == 0 then None
    else
      var before, v := MaxTs(rows[..|rows| - 1]), rows[|rows| - 1].ts;
      if v.None? then before
      else if before.None? || v.value > before.value then v
      else before
  }

  function KeysAt(rows: seq<Row>, ts: Option<int>): seq<string> {
    if |rows| == 0 then []
    else
      var before := KeysAt(rows[..|rows| - 1], ts);
      if rows[|rows| - 1].ts == ts then before + [rows[|rows| - 1].key] else before
  }

  // [...new Set(keys)]
  function Dedupe(keys: seq<string>): seq<string> {
    if |keys| == 0 then []
    else
      var before := Dedupe(keys[..|keys| - 1]);
      if keys[|keys| - 1] in before then before else before + [keys[|keys| - 1]]
  }

  function AdvanceTimestamp(c: Cursor, rows: seq<Row>): Advanced {
    var newRows, maxTs := NewRows(rows, c.boundaryKeys), MaxTs(rows);
    if maxTs.None? then Advanced(newRows, c)
    else
      var boundary := KeysAt(rows, maxTs);
      Advanced(newRows, Cursor(maxTs, if maxTs == c.ts then Dedupe(c.boundaryKeys + boundary) else boundary))
  }

  method AdvanceByTimestamp(c: Cursor, rows: seq<Row>) returns (r: Advanced)
    ensures r == AdvanceTimestamp(c, rows)
  {
    var newRows := WithoutKeys(rows, c.boundaryKeys);
    if |rows| == 0 { return Advanced(newRows, c); }
    var maxTs := GreatestTs(rows);
    if maxTs.None? { return Advanced(newRows, c); }
    var boundary := KeysOfTs(rows, maxTs);
    var stalled := c.ts.Some? && maxTs == c.ts;
    r := Advanced(newRows, Cursor(maxTs, if stalled then Dedupe(c.boundaryKeys + boundary) else boundary));
  }

  method WithoutKeys(rows: seq<Row>, emitted: seq<string>) returns (newRows: seq<Row>)
    ensures newRows == NewRows(rows, emitted)
  {
    newRows := [];
    for i := 0 to |rows|
      invariant newRows == NewRows(rows[..i], emitted)
    {
      assert rows[..i + 1][..i] == rows[..i];
      if rows[i].key !in emitted {
        newRows := newRows + [rows[i]];
      }
    }
    assert rows[..|rows|] == rows;
  }

  method GreatestTs(rows: seq<Row>) returns (maxTs: Option<int>)
    ensures maxTs == MaxTs(rows)
  {
    maxTs := None;
    for i := 0 to |rows|
      invariant maxTs == MaxTs(rows[..i])
    {
      assert rows[..i + 1][..i] == rows[..i];
      if rows[i].ts.None? { continue; }
      if maxTs.None? || rows[i].ts.value > maxTs.value {
        maxTs := rows[i].ts;
      }
    }
    assert rows[..|rows|] == rows;
  }

  method KeysOfTs(rows: seq<Row>, ts: Option<int>) returns (keys: seq<string>)
    ensures keys == KeysAt(rows, ts)
  {
    keys := [];
    for i := 0 to |rows|
      invariant keys == KeysAt(rows[..i], ts)
    {
      assert rows[..i + 1][..i] == rows[..i];
      if rows[i].ts == ts {
        keys := keys + [rows[i].key];
      }
    }
    assert rows[..|rows|] == rows;
  }

  lemma {:induction false} NewRowsAre(rows: seq<Row>, emitted: seq<string>, r: Row)
    ensures r in NewRows(rows, emitted) <==> r in rows && r.key !in emitted
    ensures multiset(NewRows(rows, emitted))[r] == if r.key in emitted then 0 else multiset(rows)[r]
  {
    if |rows| > 0 {
      var init, last := rows[..|rows| - 1], rows[|rows| - 1];
      NewRowsAre(init, emitted, r);
      OneMore(NewRows(init, emitted), last, r);
      OneMore(init, last, r);
      assert rows == init + [last];
    }
  }

  lemma OneMore(rows: seq<Row>, last: Row, r: Row)
    ensures r in rows + [last] <==> r in rows || r == last
    ensures multiset(rows + [last])[r] == multiset(rows)[r] + if r == last then 1 else 0
  {
  }

  lemma {:induction false} MaxTsIs(rows: seq<Row>)
    ensures MaxTs(rows).None? <==> forall r :: r in rows ==> r.ts.None?
    ensures MaxTs(rows).Some? ==> exists r :: r in rows && r.ts == MaxTs(rows)
    ensures MaxTs(rows).Some? ==> forall r :: r in rows && r.ts.Some? ==> r.ts.value <= MaxTs(rows).value
  {
    if |rows| > 0 {
      var init, last := rows[..|rows| - 1], rows[|rows| - 1];
      MaxTsIs(init);
      assert last in rows;
      assert forall r :: r in rows <==> r in init || r == last;
    }
  }

  lemma {:induction false} KeysAtAre(rows: seq<Row>, ts: Option<int>, k: string)
    ensures k in KeysAt(rows, ts) <==> exists r :: r in rows && r.ts == ts && r.key == k
  {
    if |rows| > 0 {
      var init, last := rows[..|rows| - 1], rows[|rows| - 1];
      KeysAtAre(init, ts, k);
      assert last in rows;
      assert forall r :: r in rows <==> r in init || r == last;
    }
  }

  lemma {:induction false} DedupeIs(keys: seq<string>)
    ensures forall k :: k in Dedupe(keys) <==> k in keys
    ensures Distinct(Dedupe(keys))
  {
    if |keys| > 0 {
      DedupeIs(keys[..|keys| - 1]);
      assert keys == keys[..|keys| - 1] + [keys[|keys| - 1]];
    }
  }

  ghost predicate Distinct<T>(s: seq<T>) {
    forall i, j :: 0 <= i < j < |s| ==> s[i] != s[j]
  }

  /* ----- what a poll can fetch ----- */

  // One row per key, every timestamp present.
  ghost predicate Wellformed(table: set<Row>) {
    && (forall r, q :: r in table && q in table && r.key == q.key ==> r == q)
    && (forall r :: r in table ==> r.ts.Some?)
  }

  // The filter of the poll: ts >= cursor, or nothing yet.
  predicate Matches(c: Cursor, r: Row) {
    c.ts.Some? ==> r.ts.Some? && r.ts.value >= c.ts.value
  }

  // A page of the matching rows ordered by timestamp, cut at `limit`: rows that
  // share a timestamp may come in any order, and a different one at every poll.
  ghost predicate FetchedPage(table: set<Row>, c: Cursor, limit: nat, page: seq<Row>) {
    && Distinct(page) && |page| <= limit
    && (forall r :: r in page ==> r in table && Matches(c, r) && r.ts.Some?)
    && (forall i, j :: 0 <= i < j < |page| ==> page[i].ts.value <= page[j].ts.value)
    && (forall r :: r in table && Matches(c, r) && r !in page ==>
          |page| == limit && r.ts.Some? && forall q :: q in page ==> q.ts.value <= r.ts.value)
  }

  // What the cursor says has been emitted.
  predicate Passed(c: Cursor, r: Row) {
    c.ts.Some? && r.ts.Some? && (r.ts.value < c.ts.value || (r.ts == c.ts && r.key in c.boundaryKeys))
  }

  // Boundary keys are keys of rows at the cursor's timestamp, each once.
  ghost predicate BoundarySound(table: set<Row>, c: Cursor) {
    && Distinct(c.boundaryKeys)
    && (c.ts.None? ==> c.boundaryKeys == [])
    && forall k :: k in c.boundaryKeys ==> exists r :: r in table && r.key == k && r.ts == c.ts
  }

  lemma FetchedNotEmitted(table: set<Row>, c: Cursor, r: Row)
    requires Wellformed(table) && BoundarySound(table, c) && r in table && Matches(c, r)
    ensures r.key in c.boundaryKeys <==> Passed(c, r)
  {
  }

  // Timestamps in a page: its last row has the greatest.
  lemma PageMax(table: set<Row>, c: Cursor, limit: nat, page: seq<Row>)
    requires Wellformed(table) && FetchedPage(table, c, limit, page) && |page| > 0
    ensures MaxTs(page).Some? && (c.ts.Some? ==> c.ts.value <= MaxTs(page).value)
    ensures forall r :: r in table && Matches(c, r) && r.ts.value < MaxTs(page).value ==> r in page
  {
    MaxTsIs(page);
    assert page[0] in page;
  }

  /** One poll, whatever the limit and the order of ties: it emits each row it
      marks as passed, exactly once, and nothing that was passed before. */
  lemma PollIsExact(table: set<Row>, c: Cursor, limit: nat, page: seq<Row>)
    requires Wellformed(table) && BoundarySound(table, c) && FetchedPage(table, c, limit, page)
    ensures var a := AdvanceTimestamp(c, page);
            && BoundarySound(table, a.cursor)
            && (c.ts.Some? ==> a.cursor.ts.Some? && c.ts.value <= a.cursor.ts.value)
            && forall r :: r in table ==>
                 && (Passed(a.cursor, r) <==> Passed(c, r) || r in a.newRows)
                 && multiset(a.newRows)[r] == if Passed(a.cursor, r) && !Passed(c, r) then 1 else 0
    ensures forall r :: r in AdvanceTimestamp(c, page).newRows ==> r in table
  {
    var a := AdvanceTimestamp(c, page);
    forall r ensures r in a.newRows ==> r in table {
      NewRowsAre(page, c.boundaryKeys, r);
    }
    if |page| > 0 {
      PageMax(table, c, limit, page);
      BoundaryIsSound(table, c, limit, page);
      forall r | r in table
        ensures Passed(a.cursor, r) <==> Passed(c, r) || r in a.newRows
        ensures multiset(a.newRows)[r] == if Passed(a.cursor, r) && !Passed(c, r) then 1 else 0
      {
        NewRowsAre(page, c.boundaryKeys, r);
        OnceInPage(page, r);
        PassedAfter(table, c, limit, page, r);
        if Matches(c, r) {
          FetchedNotEmitted(table, c, r);
        }
      }
    }
  }

  lemma {:induction false} OnceInPage(page: seq<Row>, r: Row)
    requires Distinct(page)
    ensures multiset(page)[r] == if r in page then 1 else 0
  {
    if |page| > 0 {
      OnceInPage(page[..|page| - 1], r);
      assert page == page[..|page| - 1] + [page[|page| - 1]];
    }
  }

  lemma PassedAfter(table: set<Row>, c: Cursor, limit: nat, page: seq<Row>, r: Row)
    requires Wellformed(table) && BoundarySound(table, c) && FetchedPage(table, c, limit, page) && |page| > 0 && r in table
    ensures Passed(AdvanceTimestamp(c, page).cursor, r) <==> Passed(c, r) || r in page
  {
    var maxTs := MaxTs(page);
    PageMax(table, c, limit, page);
    MaxTsIs(page);
    KeysAtAre(page, maxTs, r.key);
    DedupeIs(c.boundaryKeys + KeysAt(page, maxTs));
  }

  lemma BoundaryIsSound(table: set<Row>, c: Cursor, limit: nat, page: seq<Row>)
    requires Wellformed(table) && BoundarySound(table, c) && FetchedPage(table, c, limit, page) && |page| > 0
    ensures BoundarySound(table, AdvanceTimestamp(c, page).cursor)
  {
    var maxTs := MaxTs(page);
    PageMax(table, c, limit, page);
    DedupeIs(c.boundaryKeys + KeysAt(page, maxTs));
    KeysAtDistinct(table, page, maxTs);
    forall k | k in AdvanceTimestamp(c, page).cursor.boundaryKeys
      ensures exists r :: r in table && r.key == k && r.ts == maxTs
    {
      KeysAtAre(page, maxTs, k);
    }
  }

  lemma {:induction false} KeysAtDistinct(table: set<Row>, rows: seq<Row>, ts: Option<int>)
    requires Wellformed(table) && Distinct(rows) && forall r :: r in rows ==> r in table
    ensures Distinct(KeysAt(rows, ts))
  {
    if |rows| > 0 {
      var init, last := rows[..|rows| - 1], rows[|rows| - 1];
      assert forall r :: r in init ==> r in rows;
      KeysAtDistinct(table, init, ts);
      KeysAtAre(init, ts, last.key);
      assert last in rows;
    }
  }

  /* ----- any run of polls and arrivals ----- */

  datatype Watch = Watch(table: set<Row>, cursor: Cursor, emitted: seq<Row>)

  datatype Event = Arrive(row: Row) | Poll(limit: nat, page: seq<Row>)

  const FRESH := Watch({}, Cursor(None, []), [])

  // Rows are inserted under new keys, with a timestamp not below the cursor.
  ghost predicate Possible(w: Watch, e: Event) {
    match e
    case Arrive(row) => (forall q :: q in w.table ==> q.key != row.key) && row.ts.Some? && Matches(w.cursor, row)
    case Poll(limit, page) => FetchedPage(w.table, w.cursor, limit, page)
  }

  ghost function Step(w: Watch, e: Event): Watch {
    if !Possible(w, e) then w
    else match e
      case Arrive(row) => w.(table := w.table + {row})
      case Poll(_, page) =>
        var a := AdvanceTimestamp(w.cursor, page);
        w.(cursor := a.cursor, emitted := w.emitted + a.newRows)
  }

  ghost function Run(events: seq<Event>): Watch {
    if |events| == 0 then FRESH else Step(Run(events[..|events| - 1]), events[|events| - 1])
  }

  ghost predicate Exact(w: Watch) {
    && Wellformed(w.table) && BoundarySound(w.table, w.cursor)
    && (forall r :: r in w.emitted ==> r in w.table)
    && forall r :: r in w.table ==> multiset(w.emitted)[r] == if Passed(w.cursor, r) then 1 else 0
  }

  lemma StepKeepsExact(w: Watch, e: Event)
    requires Exact(w)
    ensures Exact(Step(w, e))
  {
    if Possible(w, e) {
      match e
      case Arrive(row) =>
        assert row !in w.table;
        assert row !in w.emitted;
        assert row.key !in w.cursor.boundaryKeys;
      case Poll(limit, page) =>
        PollIsExact(w.table, w.cursor, limit, page);
    }
  }

  /** The timestamp watch is exact. After any run of polls and arrivals each row
      below the cursor has been emitted exactly once, a row at the cursor once if
      its key is remembered and else not at all, and nothing above. */
  lemma {:induction false} TimestampWatchIsExact(events: seq<Event>)
    ensures Exact(Run(events))
  {
    if |events| > 0 {
      TimestampWatchIsExact(events[..|events| - 1]);
      StepKeepsExact(Run(events[..|events| - 1]), events[|events| - 1]);
    }
  }

  /* ----- progress ----- */

  ghost predicate Emits(c: Cursor, page: seq<Row>) {
    AdvanceTimestamp(c, page).newRows != []
  }

  // Everything below the cursor has been passed, as in every run.
  ghost predicate NothingBelow(table: set<Row>, c: Cursor) {
    forall r :: r in table && !Passed(c, r) ==> Matches(c, r)
  }

  lemma {:induction false} KeysFit(page: seq<Row>, keys: seq<string>)
    requires forall i, j :: 0 <= i < j < |page| ==> page[i].key != page[j].key
    requires forall r :: r in page ==> r.key in keys
    ensures |page| <= |keys|
  {
    if |page| > 0 {
      var r := page[|page| - 1];
      assert r in page;
      var i :| 0 <= i < |keys| && keys[i] == r.key;
      var init, others := page[..|page| - 1], keys[..i] + keys[i + 1..];
      forall q | q in init ensures q.key in others {
        var j :| 0 <= j < |init| && init[j] == q;
        assert page[j].key != r.key && q in page;
        var m :| 0 <= m < |keys| && keys[m] == q.key;
        assert others[if m < i then m else m - 1] == q.key;
      }
      KeysFit(init, others);
    }
  }

  lemma DistinctKeys(table: set<Row>, page: seq<Row>)
    requires Wellformed(table) && Distinct(page) && forall r :: r in page ==> r in table
    ensures forall i, j :: 0 <= i < j < |page| ==> page[i].key != page[j].key
  {
    forall i, j | 0 <= i < j < |page| ensures page[i].key != page[j].key {
      assert page[i] in page && page[j] in page;
    }
  }

  lemma WideLimitEmits(table: set<Row>, c: Cursor, limit: nat, page: seq<Row>, r: Row)
    requires Wellformed(table) && BoundarySound(table, c) && FetchedPage(table, c, limit, page)
    requires limit > |c.boundaryKeys| && r in table && Matches(c, r) && !Passed(c, r)
    ensures Emits(c, page)
  {
    FetchedNotEmitted(table, c, r);
    NewRowsAre(page, c.boundaryKeys, r);
    if r !in page && !Emits(c, page) {
      forall q | q in page ensures q.key in c.boundaryKeys {
        NewRowsAre(page, c.boundaryKeys, q);
      }
      DistinctKeys(table, page);
      KeysFit(page, c.boundaryKeys);
      assert false;
    }
  }

  ghost function RowOf(table: set<Row>, c: Cursor, k: string): (r: Row)
    requires BoundarySound(table, c) && k in c.boundaryKeys
    ensures r in table && r.key == k && r.ts == c.ts
  {
    var r :| r in table && r.key == k && r.ts == c.ts;
    r
  }

  // With a narrow limit a page of remembered rows is possible.
  ghost function StuckPage(table: set<Row>, c: Cursor, limit: nat): seq<Row>
    requires BoundarySound(table, c) && limit <= |c.boundaryKeys|
  {
    seq(limit, i requires 0 <= i < limit => RowOf(table, c, c.boundaryKeys[i]))
  }

  lemma StuckPageRows(table: set<Row>, c: Cursor, limit: nat)
    requires BoundarySound(table, c) && limit <= |c.boundaryKeys|
    ensures var page := StuckPage(table, c, limit);
            && Distinct(page)
            && forall r :: r in page ==> r in table && r.ts == c.ts && r.key in c.boundaryKeys
  {
    var page := StuckPage(table, c, limit);
    forall i, j | 0 <= i < j < |page| ensures page[i] != page[j] {
      assert page[i].key == c.boundaryKeys[i] && page[j].key == c.boundaryKeys[j];
    }
  }

  lemma NarrowLimitCanStick(table: set<Row>, c: Cursor, limit: nat)
    requires Wellformed(table) && BoundarySound(table, c) && limit <= |c.boundaryKeys| && c.ts.Some?
    ensures var page := StuckPage(table, c, limit); FetchedPage(table, c, limit, page) && !Emits(c, page)
  {
    var page := StuckPage(table, c, limit);
    StuckPageRows(table, c, limit);
    forall i | 0 <= i < |page| ensures page[i].ts == c.ts {
      assert page[i] in page;
    }
    if Emits(c, page) {
      var r := AdvanceTimestamp(c, page).newRows[0];
      NewRowsAre(page, c.boundaryKeys, r);
      assert false;
    }
  }

  /** Progress: while some row is left to emit, every possible poll emits one
      exactly when the limit exceeds the number of remembered boundary keys. */
  lemma ProgressNeedsWideLimit(table: set<Row>, c: Cursor, limit: nat, r: Row)
    requires Wellformed(table) && BoundarySound(table, c) && NothingBelow(table, c) && limit > 0
    requires r in table && !Passed(c, r)
    ensures (forall page :: FetchedPage(table, c, limit, page) ==> Emits(c, page)) <==> limit > |c.boundaryKeys|
  {
    if limit > |c.boundaryKeys| {
      forall page | FetchedPage(table, c, limit, page) ensures Emits(c, page) {
        WideLimitEmits(table, c, limit, page, r);
      }
    } else {
      NarrowLimitCanStick(table, c, limit);
    }
  }

  function Unemitted(table: set<Row>, c: Cursor): set<Row> {
    set r | r in table && !Passed(c, r)
  }

  // Polls over a table that does not change.
  ghost predicate PollsOf(table: set<Row>, c: Cursor, limit: nat, pages: seq<seq<Row>>, end: Cursor)
    decreases |pages|
  {
    if |pages| == 0 then end == c
    else FetchedPage(table, c, limit, pages[0])
         && PollsOf(table, AdvanceTimestamp(c, pages[0]).cursor, limit, pages[1..], end)
  }

  function TieGroup(table: set<Row>, ts: Option<int>): set<Row> {
    set r | r in table && r.ts == ts
  }

  ghost predicate SmallTies(table: set<Row>, limit: nat) {
    forall ts :: |TieGroup(table, ts)| < limit
  }

  lemma BoundaryFitsTie(table: set<Row>, c: Cursor, limit: nat)
    requires Wellformed(table) && BoundarySound(table, c) && SmallTies(table, limit)
    ensures |c.boundaryKeys| < limit
  {
    if c.boundaryKeys == [] {
      assert |TieGroup(table, c.ts)| < limit;
    } else {
      var page := StuckPage(table, c, |c.boundaryKeys|);
      StuckPageRows(table, c, |c.boundaryKeys|);
      SeqInSet(page, TieGroup(table, c.ts));
    }
  }

  lemma {:induction false} SeqInSet(s: seq<Row>, rows: set<Row>)
    requires Distinct(s) && forall r :: r in s ==> r in rows
    ensures |s| <= |rows|
  {
    if |s| > 0 {
      var init, last := s[..|s| - 1], s[|s| - 1];
      assert last in s && forall r :: r in init ==> r in s;
      SeqInSet(init, rows - {last});
    }
  }

  /** A fixed table whose tie groups are all smaller than the limit is drained by
      as many polls as it has rows left. */
  lemma {:induction false} FixedTableDrains(table: set<Row>, c: Cursor, limit: nat, pages: seq<seq<Row>>, end: Cursor)
    requires Wellformed(table) && BoundarySound(table, c) && NothingBelow(table, c) && SmallTies(table, limit)
    requires PollsOf(table, c, limit, pages, end) && |pages| >= |Unemitted(table, c)|
    ensures Unemitted(table, end) == {}
    decreases |pages|
  {
    if |pages| > 0 {
      var a := AdvanceTimestamp(c, pages[0]);
      PollIsExact(table, c, limit, pages[0]);
      BoundaryFitsTie(table, c, limit);
      assert Unemitted(table, a.cursor) <= Unemitted(table, c);
      if exists r :: r in Unemitted(table, c) {
        var r :| r in Unemitted(table, c);
        WideLimitEmits(table, c, limit, pages[0], r);
        var q := a.newRows[0];
        NewRowsAre(pages[0], c.boundaryKeys, q);
        assert q in table && Matches(c, q);
        FetchedNotEmitted(table, c, q);
        SmallerSet(Unemitted(table, a.cursor), Unemitted(table, c), q);
      }
      FixedTableDrains(table, a.cursor, limit, pages[1..], end);
    }
  }

  lemma SmallerSet(a: set<Row>, b: set<Row>, q: Row)
    requires a <= b && q in b && q !in a
    ensures |a| < |b|
  {
    assert a <= b - {q};
    SubsetSize(a, b - {q});
  }

  lemma {:induction false} SubsetSize(a: set<Row>, b: set<Row>)
    requires a <= b
    ensures |a| <= |b|
  {
    if exists r :: r in a {
      var r :| r in a;
      SubsetSize(a - {r}, b - {r});
    }
  }

  /* ----- NULL timestamps ----- */

  /** Rows without a timestamp are remembered nowhere. From the start, the cursor
      moves exactly when the page holds some timestamp, and then no later poll can
      fetch such a row again; otherwise the same page is emitted once more. */
  lemma NullRowsRepeat(page: seq<Row>)
    ensures var a := AdvanceTimestamp(FRESH.cursor, page);
            && a.newRows == page
            && (a.cursor.ts.None? <==> forall r :: r in page ==> r.ts.None?)
            && (a.cursor.ts.None? ==> AdvanceTimestamp(a.cursor, page) == a)
            && (a.cursor.ts.Some? ==> forall r: Row :: r.ts.None? ==> !Matches(a.cursor, r))
  {
    MaxTsIs(page);
    NothingFiltered(page);
  }

  lemma {:induction false} NothingFiltered(rows: seq<Row>)
    ensures NewRows(rows, []) == rows
  {
    if |rows| > 0 {
      var init, last := rows[..|rows| - 1], rows[|rows| - 1];
      NothingFiltered(init);
      assert NewRows(rows, []) == NewRows(init, []) + [last];
      assert rows == init + [last];
    }
  }

  /* ----- the increment strategy ----- */

  // The last value that is not NULL, else the old one.
  function AdvanceIncrement(value: Option<int>, rows: seq<Row>): Option<int> {
    if |rows| == 0 then value
    else if rows[|rows| - 1].ts.Some? then rows[|rows| - 1].ts
    else AdvanceIncrement(value, rows[..|rows| - 1])
  }

  method AdvanceByIncrement(value: Option<int>, rows: seq<Row>) returns (next: Option<int>)
    ensures next == AdvanceIncrement(value, rows)
  {
    next := value;
    var i := |rows|;
    assert rows[..i] == rows;
    while i > 0
      invariant 0 <= i <= |rows| && next == value
      invariant AdvanceIncrement(value, rows) == AdvanceIncrement(value, rows[..i])
    {
      i := i - 1;
      assert rows[..i + 1][..i] == rows[..i];
      if rows[i].ts.Some? {
        next := rows[i].ts;
        return;
      }
    }
  }

  // The filter of the poll: above the cursor, or no filter at all yet.
  predicate Fetchable(value: Option<int>, r: Row) {
    value.Some? ==> r.ts.Some? && r.ts.value > value.value
  }

  ghost predicate Rising(page: seq<Row>) {
    forall i, j :: 0 <= i < j < |page| && page[i].ts.Some? && page[j].ts.Some? ==> page[i].ts.value <= page[j].ts.value
  }

  // The rows the filter lets through, in order and cut at the limit. Rows without
  // a value come first or last, as the engine has it.
  ghost predicate IncrementPage(table: set<Row>, value: Option<int>, limit: nat, page: seq<Row>) {
    && Distinct(page) && |page| <= limit && Rising(page)
    && (forall r :: r in page ==> r in table && Fetchable(value, r))
    && (forall r :: r in table && Fetchable(value, r) && r !in page && r.ts.Some? ==>
          |page| == limit && forall q :: q in page && q.ts.Some? ==> q.ts.value <= r.ts.value)
  }

  lemma {:induction false} LastIsGreatest(value: Option<int>, page: seq<Row>)
    requires Rising(page)
    ensures (forall r :: r in page ==> r.ts.None?) ==> AdvanceIncrement(value, page) == value
    ensures (exists r :: r in page && r.ts.Some?) ==>
              var next := AdvanceIncrement(value, page);
              && next.Some? && (exists r :: r in page && r.ts == next)
              && forall r :: r in page && r.ts.Some? ==> r.ts.value <= next.value
  {
    if |page| > 0 {
      var init, last := page[..|page| - 1], page[|page| - 1];
      assert last in page && forall r :: r in page <==> r in init || r == last;
      if last.ts.Some? {
        forall r | r in init && r.ts.Some? ensures r.ts.value <= last.ts.value {
          var i :| 0 <= i < |init| && init[i] == r;
          assert page[i] == r;
        }
      } else {
        LastIsGreatest(value, init);
      }
    }
  }

  lemma BelowLastIsIn(table: set<Row>, value: Option<int>, limit: nat, page: seq<Row>, next: Option<int>)
    requires IncrementPage(table, value, limit, page) && next.Some? && exists last :: last in page && last.ts == next
    ensures forall r :: r in table && Fetchable(value, r) && r.ts.Some? && r.ts.value < next.value ==> r in page
  {
  }

  // What the filter of `next` shuts out that the one before let through is below
  // `next`, tied with it, or without a value.
  lemma PassedOrTied(table: set<Row>, value: Option<int>, next: Option<int>, page: seq<Row>)
    requires next.Some? && (value.Some? ==> value.value < next.value)
    requires forall r :: r in table && Fetchable(value, r) && r.ts.Some? && r.ts.value < next.value ==> r in page
    ensures (forall r :: r in table && Fetchable(value, r) && !Fetchable(next, r) ==> r in page)
            <==> forall r :: r in table && Fetchable(value, r) && (r.ts.None? || r.ts == next) ==> r in page
  {
    forall r | r in table && Fetchable(value, r)
      ensures !Fetchable(next, r) <==> r.ts.None? || r.ts == next || r.ts.value < next.value
    {
    }
  }

  /** An increment poll with some value in its page emits exactly the rows it moves
      past, if and only if the page holds all rows that share its last value and,
      on a first poll, all rows without a value. A page without any value leaves
      the cursor where it is. */
  lemma IncrementLosesOnlyTies(table: set<Row>, value: Option<int>, limit: nat, page: seq<Row>)
    requires IncrementPage(table, value, limit, page)
    ensures var next := AdvanceIncrement(value, page);
            if forall r :: r in page ==> r.ts.None? then next == value
            else
              && next.Some? && (value.Some? ==> value.value < next.value)
              && (forall r :: r in page ==> !Fetchable(next, r))
              && ((forall r :: r in table && Fetchable(value, r) && !Fetchable(next, r) ==> r in page)
                  <==> forall r :: r in table && Fetchable(value, r) && (r.ts.None? || r.ts == next) ==> r in page)
  {
    LastIsGreatest(value, page);
    if r :| r in page && r.ts.Some? {
      var next := AdvanceIncrement(value, page);
      var last :| last in page && last.ts == next;
      BelowLastIsIn(table, value, limit, page, next);
      PassedOrTied(table, value, next, page);
    }
  }

  /* ----- the snapshot strategy ----- */

  function Keys(rows: seq<Row>): (keys: seq<string>)
    ensures |keys| == |rows| && forall i :: 0 <= i < |rows| ==> keys[i] == rows[i].key
  {
    seq(|rows|, i requires 0 <= i < |rows| => rows[i].key)
  }

  datatype Snapshot = Snapshot(seen: seq<string>, added: seq<Row>)

  // The scan of one page, before the window is cut.
  function Scan(seen: seq<string>, rows: seq<Row>): Snapshot {
    if |rows| == 0 then Snapshot(seen, [])
    else
      var before, r := Scan(seen, rows[..|rows| - 1]), rows[|rows| - 1];
      if r.key in before.seen then before else Snapshot(before.seen + [r.key], before.added + [r])
  }

  function Cut(seen: seq<string>, max: nat): seq<string> {
    if |seen| > max then seen[|seen| - max..] else seen
  }

  method AdvanceBySnapshot(seen: seq<string>, rows: seq<Row>, max: nat) returns (newRows: seq<Row>, kept: seq<string>)
    ensures newRows == Scan(seen, rows).added && kept == Cut(Scan(seen, rows).seen, max)
  {
    newRows, kept := [], seen;
    for i := 0 to |rows|
      invariant Snapshot(kept, newRows) == Scan(seen, rows[..i])
    {
      assert rows[..i + 1][..i] == rows[..i];
      if rows[i].key !in kept {
        kept := kept + [rows[i].key];
        newRows := newRows + [rows[i]];
      }
    }
    assert rows[..|rows|] == rows;
    if |kept| > max {
      kept := kept[|kept| - max..];
    }
  }

  // Polls from an empty cursor: the rows emitted so far, and the window.
  datatype SnapshotRun = SnapshotRun(emitted: seq<Row>, seen: seq<string>)

  function SnapshotPolls(pages: seq<seq<Row>>, max: nat): SnapshotRun {
    if |pages| == 0 then SnapshotRun([], [])
    else
      var before := SnapshotPolls(pages[..|pages| - 1], max);
      var scan := Scan(before.seen, pages[|pages| - 1]);
      SnapshotRun(before.emitted + scan.added, Cut(scan.seen, max))
  }

  // Any max + 1 consecutive emissions are of different keys.
  ghost predicate Spaced(emitted: seq<Row>, max: nat) {
    forall i, j :: 0 <= i < j < |emitted| && j - i <= max ==> emitted[i].key != emitted[j].key
  }

  // The window holds the keys of the last emissions, `max` of them or all.
  ghost predicate Window(emitted: seq<Row>, seen: seq<string>, max: nat) {
    && |seen| <= |emitted| && seen == Keys(emitted[|emitted| - |seen|..])
    && (|seen| >= max || |seen| == |emitted|)
  }

  lemma EmitOne(emitted: seq<Row>, seen: seq<string>, r: Row, max: nat)
    requires Window(emitted, seen, max) && Spaced(emitted, max) && r.key !in seen
    ensures Window(emitted + [r], seen + [r.key], max) && Spaced(emitted + [r], max)
  {
    WindowOne(emitted, seen, r, max);
    forall i | 0 <= i < |emitted| && |emitted| - i <= max ensures emitted[i].key != r.key {
      RecentIsSeen(emitted, seen, max, i);
    }
    SpacedOne(emitted, r, max);
  }

  lemma WindowOne(emitted: seq<Row>, seen: seq<string>, r: Row, max: nat)
    requires Window(emitted, seen, max)
    ensures Window(emitted + [r], seen + [r.key], max)
  {
    var start := |emitted| - |seen|;
    assert (emitted + [r])[start..] == emitted[start..] + [r];
  }

  lemma RecentIsSeen(emitted: seq<Row>, seen: seq<string>, max: nat, i: nat)
    requires Window(emitted, seen, max) && i < |emitted| && |emitted| - i <= max
    ensures emitted[i].key in seen
  {
    var start := |emitted| - |seen|;
    assert seen[i - start] == emitted[start..][i - start].key;
  }

  lemma SpacedOne(emitted: seq<Row>, r: Row, max: nat)
    requires Spaced(emitted, max) && forall i :: 0 <= i < |emitted| && |emitted| - i <= max ==> emitted[i].key != r.key
    ensures Spaced(emitted + [r], max)
  {
  }

  lemma {:induction false} ScanKeepsWindow(emitted: seq<Row>, seen: seq<string>, rows: seq<Row>, max: nat)
    requires Window(emitted, seen, max) && Spaced(emitted, max)
    ensures var s := Scan(seen, rows); Window(emitted + s.added, s.seen, max) && Spaced(emitted + s.added, max)
  {
    if |rows| == 0 {
      assert emitted + [] == emitted;
    } else {
      ScanKeepsWindow(emitted, seen, rows[..|rows| - 1], max);
      var before, r := Scan(seen, rows[..|rows| - 1]), rows[|rows| - 1];
      if r.key !in before.seen {
        EmitOne(emitted + before.added, before.seen, r, max);
        assert emitted + (before.added + [r]) == emitted + before.added + [r];
      }
    }
  }

  lemma CutKeepsWindow(emitted: seq<Row>, seen: seq<string>, max: nat)
    requires Window(emitted, seen, max)
    ensures Window(emitted, Cut(seen, max), max) && |Cut(seen, max)| <= max
  {
    if |seen| > max {
      assert emitted[|emitted| - |seen|..][|seen| - max..] == emitted[|emitted| - max..];
    }
  }

  /** The snapshot window: the seen-set never outgrows its bound, and between two
      emissions of one key at least `max` others lie, all different. */
  lemma {:induction false} SnapshotWindow(pages: seq<seq<Row>>, max: nat)
    ensures var run := SnapshotPolls(pages, max);
            && |run.seen| <= max
            && Window(run.emitted, run.seen, max) && Spaced(run.emitted, max)
  {
    if |pages| > 0 {
      SnapshotWindow(pages[..|pages| - 1], max);
      var before := SnapshotPolls(pages[..|pages| - 1], max);
      ScanKeepsWindow(before.emitted, before.seen, pages[|pages| - 1], max);
      var scan := Scan(before.seen, pages[|pages| - 1]);
      CutKeepsWindow(before.emitted + scan.added, scan.seen, max);
    }
  }

  /** With at most `max` distinct keys overall no key is ever emitted twice. */
  lemma FewKeysNeverRepeat(pages: seq<seq<Row>>, max: nat, universe: set<string>)
    requires |universe| <= max
    requires forall r :: r in SnapshotPolls(pages, max).emitted ==> r.key in universe
    ensures Distinct(Keys(SnapshotPolls(pages, max).emitted))
  {
    var e := SnapshotPolls(pages, max).emitted;
    SnapshotWindow(pages, max);
    if |e| > max {
      var head := Keys(e)[..max + 1];
      forall k | k in head ensures k in universe {
        var i :| 0 <= i <= max && head[i] == k;
        assert e[i] in e;
      }
      KeysInSet(head, universe);
    }
  }

  lemma {:induction false} KeysInSet(s: seq<string>, keys: set<string>)
    requires Distinct(s) && forall k :: k in s ==> k in keys
    ensures |s| <= |keys|
  {
    if |s| > 0 {
      var init, last := s[..|s| - 1], s[|s| - 1];
      assert last in s && forall k :: k in init ==> k in s;
      KeysInSet(init, keys - {last});
    }
  }

  lemma {:induction false} KeySetSize(table: set<Row>, keys: set<string>)
    requires keys == set r | r in table :: r.key
    ensures |keys| <= |table|
  {
    if r :| r in table {
      var rest := set q | q in table - {r} :: q.key;
      KeySetSize(table - {r}, rest);
      assert keys == rest + {r.key};
    }
  }

  predicate NewKey(rows: seq<Row>, k: string) {
    forall i :: 0 <= i < |rows| ==> rows[i].key != k
  }

  // A key that was never emitted is not in the window.
  lemma NewKeyUnseen(emitted: seq<Row>, seen: seq<string>, max: nat, k: string)
    requires Window(emitted, seen, max) && NewKey(emitted, k)
    ensures k !in seen
  {
    var start := |emitted| - |seen|;
    forall i | 0 <= i < |seen| ensures seen[i] != k {
      assert emitted[start..][i] == emitted[start + i];
    }
  }

  lemma FullWindow(rows: seq<Row>, seen: seq<string>, max: nat)
    requires Window(rows, seen, max) && |seen| <= max && |rows| == max + 1
    ensures seen == Keys(rows[1..])
  {
  }

  lemma KeysInit(rows: seq<Row>)
    requires |rows| > 0 && Distinct(Keys(rows))
    ensures Distinct(Keys(rows[..|rows| - 1])) && NewKey(rows[..|rows| - 1], rows[|rows| - 1].key)
  {
    assert Keys(rows)[..|rows| - 1] == Keys(rows[..|rows| - 1]);
    forall i | 0 <= i < |rows| - 1 ensures rows[i].key != rows[|rows| - 1].key {
      assert Keys(rows)[i] != Keys(rows)[|rows| - 1];
    }
  }

  function Min(a: nat, b: nat): nat {
    if a < b then a else b
  }

  // What a snapshot poll fetches: as many rows as the limit and the table allow,
  // each once, in no order of its own.
  ghost predicate FullPage(table: set<Row>, limit: nat, page: seq<Row>) {
    && Distinct(page) && |page| == Min(limit, |table|)
    && forall r :: r in page ==> r in table
  }

  ghost predicate FullPages(table: set<Row>, limit: nat, pages: seq<seq<Row>>) {
    forall i :: 0 <= i < |pages| ==> FullPage(table, limit, pages[i])
  }

  // Rows that were seen add nothing.
  lemma {:induction false} ScanSeen(seen: seq<string>, rows: seq<Row>)
    requires forall i :: 0 <= i < |rows| ==> rows[i].key in seen
    ensures Scan(seen, rows) == Snapshot(seen, [])
  {
    if |rows| > 0 { ScanSeen(seen, rows[..|rows| - 1]); }
  }

  // Rows that were not are all added.
  lemma {:induction false} ScanFresh(rows: seq<Row>)
    requires Distinct(Keys(rows))
    ensures Scan([], rows) == Snapshot(Keys(rows), rows)
  {
    if |rows| > 0 {
      var init, last := rows[..|rows| - 1], rows[|rows| - 1];
      KeysInit(rows);
      ScanFresh(init);
      forall i | 0 <= i < |init| ensures Keys(init)[i] != last.key {
      }
      assert Keys(rows) == Keys(init) + [last.key] && rows == init + [last];
    }
  }

  // The first row of a page is added if its key was not seen.
  lemma {:induction false} ScanFirst(seen: seq<string>, rows: seq<Row>)
    requires |rows| > 0 && rows[0].key !in seen
    ensures rows[0] in Scan(seen, rows).added
  {
    if |rows| > 1 {
      ScanFirst(seen, rows[..|rows| - 1]);
    } else {
      assert Scan(seen, rows[..0]) == Snapshot(seen, []);
    }
  }

  // Full pages that move through the rows one by one: the last shows rows n - limit
  // to n - 1.
  function SlidingPages(rows: seq<Row>, limit: nat, n: nat): seq<seq<Row>>
    requires limit <= n <= |rows|
    decreases n
  {
    if n == limit then [rows[..n]] else SlidingPages(rows, limit, n - 1) + [rows[n - limit..n]]
  }

  lemma LastPage(pages: seq<seq<Row>>, page: seq<Row>, max: nat)
    ensures var run, next := SnapshotPolls(pages, max), SnapshotPolls(pages + [page], max);
            next.emitted == run.emitted + Scan(run.seen, page).added
  {
    assert (pages + [page])[..|pages|] == pages;
  }

  // A page of rows just emitted and one new row adds that one.
  lemma PageAddsLast(emitted: seq<Row>, seen: seq<string>, lo: nat, last: Row, max: nat)
    requires Window(emitted, seen, max) && lo <= |emitted| < lo + max && NewKey(emitted, last.key)
    ensures Scan(seen, emitted[lo..] + [last]).added == [last]
  {
    var init := emitted[lo..];
    forall i | 0 <= i < |init| ensures init[i].key in seen {
      RecentIsSeen(emitted, seen, max, lo + i);
    }
    NewKeyUnseen(emitted, seen, max, last.key);
    ScanSeen(seen, init);
    assert (init + [last])[..|init|] == init;
    assert [] + [last] == [last];
  }

  lemma OneMoreEmitted(pages: seq<seq<Row>>, emitted: seq<Row>, lo: nat, last: Row, page: seq<Row>, all: seq<Row>, max: nat)
    requires SnapshotPolls(pages, max).emitted == emitted
    requires lo <= |emitted| < lo + max && NewKey(emitted, last.key)
    requires page == emitted[lo..] + [last] && all == emitted + [last]
    ensures SnapshotPolls(pages + [page], max).emitted == all
  {
    SnapshotWindow(pages, max);
    PageAddsLast(emitted, SnapshotPolls(pages, max).seen, lo, last, max);
    LastPage(pages, page, max);
  }

  lemma DistinctPart(rows: seq<Row>, lo: nat, hi: nat)
    requires lo <= hi <= |rows| && Distinct(Keys(rows))
    ensures Distinct(Keys(rows[lo..hi])) && Distinct(rows[lo..hi]) && rows[0..hi] == rows[..hi]
  {
    var part := rows[lo..hi];
    forall i, j | 0 <= i < j < |part| ensures part[i].key != part[j].key {
      assert Keys(rows)[lo + i] != Keys(rows)[lo + j];
    }
  }

  lemma FirstPageEmitted(page: seq<Row>, max: nat)
    requires Distinct(Keys(page))
    ensures SnapshotPolls([page], max).emitted == page
  {
    ScanFresh(page);
    LastPage([], page, max);
    assert SnapshotPolls([], max) == SnapshotRun([], []);
    assert [] + [page] == [page] && [] + page == page;
  }

  lemma NextEmitted(pages: seq<seq<Row>>, rows: seq<Row>, limit: nat, n: nat, max: nat)
    requires 0 < limit < n <= |rows| && limit <= max && Distinct(Keys(rows))
    requires SnapshotPolls(pages, max).emitted == rows[..n - 1]
    ensures SnapshotPolls(pages + [rows[n - limit..n]], max).emitted == rows[..n]
  {
    SlidingStep(rows, limit, n);
    OneMoreEmitted(pages, rows[..n - 1], n - limit, rows[n - 1], rows[n - limit..n], rows[..n], max);
  }

  // Each row is emitted once, in order.
  lemma {:induction false} SlidingEmitted(rows: seq<Row>, limit: nat, n: nat, max: nat)
    requires Distinct(Keys(rows)) && 0 < limit <= max && limit <= n <= |rows|
    ensures SnapshotPolls(SlidingPages(rows, limit, n), max).emitted == rows[..n]
    decreases n
  {
    if n == limit {
      DistinctPart(rows, 0, n);
      FirstPageEmitted(rows[..n], max);
    } else {
      SlidingEmitted(rows, limit, n - 1, max);
      NextEmitted(SlidingPages(rows, limit, n - 1), rows, limit, n, max);
    }
  }

  lemma SlidingStep(rows: seq<Row>, limit: nat, n: nat)
    requires 0 < limit < n <= |rows| && Distinct(Keys(rows))
    ensures rows[n - limit..n] == rows[..n - 1][n - limit..] + [rows[n - 1]]
    ensures rows[..n] == rows[..n - 1] + [rows[n - 1]] && NewKey(rows[..n - 1], rows[n - 1].key)
  {
    forall i | 0 <= i < n - 1 ensures rows[i].key != rows[n - 1].key {
      assert Keys(rows)[i] != Keys(rows)[n - 1];
    }
  }

  lemma {:induction false} SlidingFull(table: set<Row>, rows: seq<Row>, limit: nat, n: nat)
    requires Distinct(Keys(rows)) && (forall r :: r in rows ==> r in table) && limit <= |table|
    requires limit <= n <= |rows|
    ensures FullPages(table, limit, SlidingPages(rows, limit, n))
    decreases n
  {
    PartIsFull(table, rows, limit, n - limit);
    if n > limit { SlidingFull(table, rows, limit, n - 1); } else { DistinctPart(rows, 0, n); }
  }

  lemma PartIsFull(table: set<Row>, rows: seq<Row>, limit: nat, lo: nat)
    requires Distinct(Keys(rows)) && (forall r :: r in rows ==> r in table) && limit <= |table|
    requires lo + limit <= |rows|
    ensures FullPage(table, limit, rows[lo..lo + limit])
  {
    DistinctPart(rows, lo, lo + limit);
    forall r | r in rows[lo..lo + limit] ensures r in table {
      assert r in rows;
    }
  }

  // n rows of the table, no key twice.
  lemma {:induction false} SomeRows(table: set<Row>, n: nat) returns (rows: seq<Row>)
    requires n <= |table| && forall r, q :: r in table && q in table && r.key == q.key ==> r == q
    ensures |rows| == n && Distinct(Keys(rows)) && forall r :: r in rows ==> r in table
  {
    rows := [];
    if n > 0 {
      var r :| r in table;
      var more := SomeRows(table - {r}, n - 1);
      forall i | 0 <= i < |more| ensures more[i].key != r.key {
        assert more[i] in more;
      }
      rows := more + [r];
    }
  }

  lemma RepeatedEnds(rows: seq<Row>, more: seq<Row>)
    requires |rows| > 0 && rows[0] in more
    ensures !Distinct(Keys(rows + more))
  {
    var j :| 0 <= j < |more| && more[j] == rows[0];
    var keys := Keys(rows + more);
    assert keys[0] == keys[|rows| + j];
  }

  // One row more than the window holds was emitted: the first comes again.
  lemma FirstComesAgain(pages: seq<seq<Row>>, rows: seq<Row>, page: seq<Row>, max: nat)
    requires SnapshotPolls(pages, max).emitted == rows && |rows| == max + 1 && Distinct(Keys(rows))
    requires |page| > 0 && page[0] == rows[0]
    ensures !Distinct(Keys(SnapshotPolls(pages + [page], max).emitted))
  {
    var seen := SnapshotPolls(pages, max).seen;
    SnapshotWindow(pages, max);
    FullWindow(rows, seen, max);
    FirstIsOut(rows);
    ScanFirst(seen, page);
    LastPage(pages, page, max);
    RepeatedEnds(rows, Scan(seen, page).added);
  }

  // Full pages through those rows, and the first page once more.
  lemma NarrowWindowRepeats(table: set<Row>, rows: seq<Row>, limit: nat, max: nat) returns (pages: seq<seq<Row>>)
    requires 0 < limit <= max && limit <= |table|
    requires |rows| == max + 1 && Distinct(Keys(rows)) && forall r :: r in rows ==> r in table
    ensures FullPages(table, limit, pages) && !Distinct(Keys(SnapshotPolls(pages, max).emitted))
  {
    SlidingAll(rows, limit, max);
    SlidingFull(table, rows, limit, |rows|);
    FirstPageAgain(table, SlidingPages(rows, limit, |rows|), rows, limit, max);
    pages := SlidingPages(rows, limit, |rows|) + [rows[0..limit]];
  }

  lemma SlidingAll(rows: seq<Row>, limit: nat, max: nat)
    requires Distinct(Keys(rows)) && 0 < limit <= max && limit <= |rows|
    ensures SnapshotPolls(SlidingPages(rows, limit, |rows|), max).emitted == rows
  {
    SlidingEmitted(rows, limit, |rows|, max);
    WholeSeq(rows);
  }

  lemma WholeSeq<T>(s: seq<T>)
    ensures s[..|s|] == s
  {
  }

  lemma FirstPageAgain(table: set<Row>, pages: seq<seq<Row>>, rows: seq<Row>, limit: nat, max: nat)
    requires 0 < limit <= max && limit <= |table|
    requires |rows| == max + 1 && Distinct(Keys(rows)) && forall r :: r in rows ==> r in table
    requires FullPages(table, limit, pages) && SnapshotPolls(pages, max).emitted == rows
    ensures FullPages(table, limit, pages + [rows[0..limit]])
    ensures !Distinct(Keys(SnapshotPolls(pages + [rows[0..limit]], max).emitted))
  {
    PartIsFull(table, rows, limit, 0);
    FirstComesAgain(pages, rows, rows[0..limit], max);
  }

  lemma FirstIsOut(rows: seq<Row>)
    requires |rows| > 0 && Distinct(Keys(rows))
    ensures rows[0].key !in Keys(rows[1..])
  {
    forall i | 0 <= i < |rows| - 1 ensures rows[1..][i].key != rows[0].key {
      assert Keys(rows)[0] != Keys(rows)[i + 1];
    }
  }

  /** Exactly when the snapshot strategy emits no key twice, whatever full pages its
      polls find: when the window has room for every row of the table. */
  lemma SnapshotNeedsRoom(table: set<Row>, limit: nat, max: nat)
    requires 0 < limit <= max && forall r, q :: r in table && q in table && r.key == q.key ==> r == q
    ensures |table| <= max <==>
              forall pages :: FullPages(table, limit, pages) ==> Distinct(Keys(SnapshotPolls(pages, max).emitted))
  {
    if |table| <= max {
      var keys := set r | r in table :: r.key;
      KeySetSize(table, keys);
      forall pages | FullPages(table, limit, pages) ensures Distinct(Keys(SnapshotPolls(pages, max).emitted)) {
        EmittedFromTable(table, limit, pages, max);
        FewKeysNeverRepeat(pages, max, keys);
      }
    } else {
      var rows := SomeRows(table, max + 1);
      var pages := NarrowWindowRepeats(table, rows, limit, max);
    }
  }

  lemma {:induction false} EmittedFromTable(table: set<Row>, limit: nat, pages: seq<seq<Row>>, max: nat)
    requires FullPages(table, limit, pages)
    ensures forall r :: r in SnapshotPolls(pages, max).emitted ==> r in table
  {
    if |pages| > 0 {
      var init, last := pages[..|pages| - 1], pages[|pages| - 1];
      EmittedFromTable(table, limit, init, max);
      assert FullPage(table, limit, last);
      ScanAdds(SnapshotPolls(init, max).seen, last);
    }
  }

  lemma {:induction false} ScanAdds(seen: seq<string>, rows: seq<Row>)
    ensures forall r :: r in Scan(seen, rows).added ==> r in rows
  {
    if |rows| > 0 {
      ScanAdds(seen, rows[..|rows| - 1]);
      assert rows[|rows| - 1] in rows;
    }
  }

  lemma {:induction false} ScanAre(seen: seq<string>, rows: seq<Row>)
    requires Distinct(seen)
    ensures var s := Scan(seen, rows);
            && Distinct(s.seen) && Distinct(s.added)
            && (forall k :: k in s.seen <==> k in seen || exists r :: r in s.added && r.key == k)
            && (forall r :: r in s.added ==> r in rows && r.key !in seen)
            && (forall r :: r in rows ==> r.key in s.seen)
  {
    if |rows| > 0 {
      var init, last := rows[..|rows| - 1], rows[|rows| - 1];
      ScanAre(seen, init);
      assert last in rows && forall r :: r in rows <==> r in init || r == last;
      var before, s := Scan(seen, init), Scan(seen, rows);
      if last.key !in before.seen {
        assert last in s.added && forall r :: r in s.added <==> r in before.added || r == last;
      }
    }
  }

  /* ----- the three together ----- */

  datatype Strategy = ByIncrement | ByTimestamp | BySnapshot(maxTracked: nat)

  datatype WatchCursor = AtValue(value: Option<int>) | AtTime(time: Cursor) | AtKeys(seen: seq<string>)

  datatype Moved = Moved(newRows: seq<Row>, cursor: WatchCursor)

  function EmptyCursor(st: Strategy): WatchCursor {
    match st
    case ByIncrement => AtValue(None)
    case ByTimestamp => AtTime(FRESH.cursor)
    case BySnapshot(_) => AtKeys([])
  }

  // A cursor left by another strategy counts as an empty window.
  function AdvanceCursor(st: Strategy, c: WatchCursor, rows: seq<Row>): Moved {
    if st.ByIncrement? && c.AtValue? then Moved(rows, AtValue(AdvanceIncrement(c.value, rows)))
    else if st.ByTimestamp? && c.AtTime? then
      var a := AdvanceTimestamp(c.time, rows);
      Moved(a.newRows, AtTime(a.cursor))
    else
      var s := Scan(if c.AtKeys? then c.seen else [], rows);
      Moved(s.added, AtKeys(Cut(s.seen, if st.BySnapshot? then st.maxTracked else 50_000)))
  }

  method Advance(st: Strategy, c: WatchCursor, rows: seq<Row>) returns (m: Moved)
    ensures m == AdvanceCursor(st, c, rows)
  {
    if st.ByIncrement? && c.AtValue? {
      var value := AdvanceByIncrement(c.value, rows);
      return Moved(rows, AtValue(value));
    }
    if st.ByTimestamp? && c.AtTime? {
      var a := AdvanceByTimestamp(c.time, rows);
      return Moved(a.newRows, AtTime(a.cursor));
    }
    var newRows, kept := AdvanceBySnapshot(if c.AtKeys? then c.seen else [], rows, if st.BySnapshot? then st.maxTracked else 50_000);
    return Moved(newRows, AtKeys(kept));
  }

  function KeysIn(rows: seq<Row>): (keys: seq<string>)
    ensures |keys| == |rows| && forall i :: 0 <= i < |rows| ==> keys[i] == rows[i].key
  {
    seq(|rows|, i requires 0 <= i < |rows| => rows[i].key)
  }

  // The scan appends the keys of the rows it takes.
  lemma {:induction false} ScanAppends(seen: seq<string>, rows: seq<Row>)
    ensures Scan(seen, rows).seen == seen + KeysIn(Scan(seen, rows).added)
  {
    if |rows| > 0 {
      var init, last := rows[..|rows| - 1], rows[|rows| - 1];
      ScanAppends(seen, init);
      var before := Scan(seen, init);
      assert KeysIn(before.added + [last]) == KeysIn(before.added) + [last.key];
    }
  }

  // One row of each key not remembered, and no other.
  ghost predicate TakesNew(seen: seq<string>, rows: seq<Row>, taken: seq<Row>) {
    && (forall r :: r in taken ==> r in rows && r.key !in seen)
    && (forall r :: r in rows ==> r.key in seen || exists q :: q in taken && q.key == r.key)
    && Distinct(KeysIn(taken))
  }

  lemma ScanTakesNew(seen: seq<string>, rows: seq<Row>)
    requires Distinct(seen)
    ensures TakesNew(seen, rows, Scan(seen, rows).added)
  {
    var s := Scan(seen, rows);
    ScanAre(seen, rows);
    ScanAppends(seen, rows);
    DistinctBehind(seen, KeysIn(s.added), s.seen);
    forall r | r in rows ensures r.key in seen || exists q :: q in s.added && q.key == r.key {
      assert r.key in s.seen;
    }
  }

  lemma DistinctBehind<T>(a: seq<T>, b: seq<T>, whole: seq<T>)
    requires whole == a + b && Distinct(whole)
    ensures Distinct(b)
  {
    forall i, j | 0 <= i < j < |b| ensures b[i] != b[j] {
      assert whole[|a| + i] == b[i] && whole[|a| + j] == b[j];
    }
  }

  /** A cursor of another strategy, as an edited hook leaves it: the poll compares
      keys. It takes one row of each key it does not remember, and only those; its
      cursor is the window of the last keys, within the strategy's bound or 50,000. */
  lemma OtherCursor(st: Strategy, c: WatchCursor, rows: seq<Row>, seen: seq<string>)
    requires (st.ByIncrement? ==> !c.AtValue?) && (st.ByTimestamp? ==> !c.AtTime?)
    requires Distinct(seen) && if c.AtKeys? then seen == c.seen else seen == []
    ensures var m := AdvanceCursor(st, c, rows);
            && TakesNew(seen, rows, m.newRows)
            && m.cursor == AtKeys(Cut(seen + KeysIn(m.newRows), if st.BySnapshot? then st.maxTracked else 50_000))
  {
    ScanTakesNew(seen, rows);
    ScanAppends(seen, rows);
  }

  // What the query of a poll can return under each strategy.
  ghost predicate Fetched(st: Strategy, table: set<Row>, c: WatchCursor, limit: nat, page: seq<Row>) {
    if st.ByIncrement? && c.AtValue? then IncrementPage(table, c.value, limit, page)
    else if st.ByTimestamp? && c.AtTime? then FetchedPage(table, c.time, limit, page)
    else FullPage(table, limit, page)
  }

  // What a strategy asks of its table: one row per key; a value of its own in
  // each row for an increment, a timestamp in each row for a timestamp.
  ghost predicate Suited(st: Strategy, table: set<Row>) {
    && (forall r, q :: r in table && q in table && r.key == q.key ==> r == q)
    && (!st.BySnapshot? ==> forall r :: r in table ==> r.ts.Some?)
    && (st.ByIncrement? ==> forall r, q :: r in table && q in table && r.ts == q.ts ==> r == q)
  }

  // What it asks of a row inserted later: a new key; a value above all others for
  // an increment, a timestamp not below the cursor for a timestamp.
  ghost predicate Insertable(st: Strategy, table: set<Row>, c: WatchCursor, row: Row) {
    && (forall q :: q in table ==> q.key != row.key)
    && (!st.BySnapshot? ==> row.ts.Some?)
    && (st.ByIncrement? ==> forall q :: q in table ==> q.ts.Some? && q.ts.value < row.ts.value)
    && (c.AtTime? ==> Matches(c.time, row))
  }

  // What the cursor says has been emitted.
  predicate Behind(c: WatchCursor, r: Row) {
    match c
    case AtValue(value) => value.Some? && r.ts.Some? && r.ts.value <= value.value
    case AtTime(time) => Passed(time, r)
    case AtKeys(seen) => r.key in seen
  }

  // Every key belongs to a row of the table.
  ghost predicate KeysOf(table: set<Row>, seen: seq<string>) {
    forall k :: k in seen ==> exists r :: r in table && r.key == k
  }

  // The cursor is one of the strategy, and speaks of rows of the table only.
  ghost predicate CursorSound(st: Strategy, table: set<Row>, c: WatchCursor) {
    match c
    case AtValue(value) => st.ByIncrement? && (value.Some? ==> exists r :: r in table && r.ts == value)
    case AtTime(time) => st.ByTimestamp? && BoundarySound(table, time)
    case AtKeys(seen) => st.BySnapshot? && Distinct(seen) && KeysOf(table, seen)
  }

  // The window has room for every row.
  predicate Roomy(st: Strategy, table: set<Row>) {
    st.BySnapshot? ==> |table| <= st.maxTracked
  }

  lemma IncrementIsExact(table: set<Row>, value: Option<int>, limit: nat, page: seq<Row>)
    requires Suited(ByIncrement, table) && IncrementPage(table, value, limit, page)
    requires CursorSound(ByIncrement, table, AtValue(value))
    ensures var next := AtValue(AdvanceIncrement(value, page));
            && CursorSound(ByIncrement, table, next)
            && forall r :: r in table ==> (Behind(next, r) <==> Behind(AtValue(value), r) || r in page)
    ensures forall r :: r in page ==> r in table && !Behind(AtValue(value), r)
  {
    LastIsGreatest(value, page);
    IncrementLosesOnlyTies(table, value, limit, page);
    var next := AdvanceIncrement(value, page);
    if exists r :: r in page && r.ts.Some? {
      var last :| last in page && last.ts == next;
      forall r | r in table && Fetchable(value, r) && r.ts == next ensures r in page {
        assert r == last;
      }
      assert CursorSound(ByIncrement, table, AtValue(next));
    }
  }

  lemma ScanOfTable(table: set<Row>, seen: seq<string>, page: seq<Row>)
    requires Distinct(seen) && KeysOf(table, seen) && forall r :: r in page ==> r in table
    ensures Distinct(Scan(seen, page).seen) && KeysOf(table, Scan(seen, page).seen)
  {
    var s := Scan(seen, page);
    ScanAre(seen, page);
    forall k | k in s.seen ensures exists r :: r in table && r.key == k {
      if k !in seen {
        var r :| r in s.added && r.key == k;
        assert r in table;
      }
    }
  }

  lemma RoomForAll(table: set<Row>, seen: seq<string>, max: nat)
    requires Distinct(seen) && KeysOf(table, seen) && |table| <= max
    ensures Cut(seen, max) == seen
  {
    var keys := set r | r in table :: r.key;
    forall k | k in seen ensures k in keys {
      var r :| r in table && r.key == k;
    }
    KeysInSet(seen, keys);
    KeySetSize(table, keys);
  }

  lemma CutIsPart(seen: seq<string>, max: nat)
    requires Distinct(seen)
    ensures Distinct(Cut(seen, max)) && forall k :: k in Cut(seen, max) ==> k in seen
  {
  }

  lemma SnapshotIsSafe(table: set<Row>, max: nat, seen: seq<string>, page: seq<Row>)
    requires Suited(BySnapshot(max), table) && CursorSound(BySnapshot(max), table, AtKeys(seen))
    requires forall r :: r in page ==> r in table
    ensures var s, next := Scan(seen, page), AtKeys(Cut(Scan(seen, page).seen, max));
            && CursorSound(BySnapshot(max), table, next)
            && (forall r :: r in table && Behind(next, r) ==> Behind(AtKeys(seen), r) || r in s.added)
            && (|table| <= max ==> forall r :: r in table && (Behind(AtKeys(seen), r) || r in s.added) ==> Behind(next, r))
            && Distinct(s.added) && forall r :: r in s.added ==> r in table && !Behind(AtKeys(seen), r)
  {
    var s := Scan(seen, page);
    ScanAre(seen, page);
    ScanOfTable(table, seen, page);
    CutIsPart(s.seen, max);
    if |table| <= max { RoomForAll(table, s.seen, max); }
  }

  // A poll that moved the cursor past nothing it did not emit, and emitted only
  // rows of the table.
  ghost predicate MovedSafely(st: Strategy, table: set<Row>, c: WatchCursor, m: Moved) {
    && CursorSound(st, table, m.cursor)
    && (forall r :: r in m.newRows ==> r in table)
    && (forall r :: r in table && Behind(m.cursor, r) ==> Behind(c, r) || r in m.newRows)
  }

  // It emitted each row it moved past exactly once, and no other.
  ghost predicate MovedExactly(table: set<Row>, c: WatchCursor, m: Moved) {
    forall r :: r in table ==>
      && (Behind(m.cursor, r) <==> Behind(c, r) || r in m.newRows)
      && multiset(m.newRows)[r] == if Behind(m.cursor, r) && !Behind(c, r) then 1 else 0
  }

  lemma OnceEach(table: set<Row>, c: WatchCursor, m: Moved)
    requires Distinct(m.newRows) && forall r :: r in m.newRows ==> !Behind(c, r)
    requires forall r :: r in table ==> (Behind(m.cursor, r) <==> Behind(c, r) || r in m.newRows)
    ensures MovedExactly(table, c, m)
  {
    forall r ensures multiset(m.newRows)[r] == if r in m.newRows then 1 else 0 {
      OnceInPage(m.newRows, r);
    }
  }

  /** One poll under any strategy: the cursor moves past nothing that was not
      emitted, and what is emitted is in the table. Each row it moves past is
      emitted exactly once and none a second time, under the snapshot strategy if
      the window has room for the table. */
  lemma PollIsSafe(st: Strategy, table: set<Row>, c: WatchCursor, limit: nat, page: seq<Row>)
    requires Suited(st, table) && CursorSound(st, table, c) && Fetched(st, table, c, limit, page)
    ensures MovedSafely(st, table, c, AdvanceCursor(st, c, page))
    ensures Roomy(st, table) ==> MovedExactly(table, c, AdvanceCursor(st, c, page))
  {
    var m := AdvanceCursor(st, c, page);
    match c {
      case AtValue(value) =>
        IncrementIsExact(table, value, limit, page);
        OnceEach(table, c, m);
      case AtTime(time) =>
        PollIsExact(table, time, limit, page);
      case AtKeys(seen) =>
        SnapshotIsSafe(table, st.maxTracked, seen, page);
        if Roomy(st, table) { OnceEach(table, c, m); }
    }
  }
}
