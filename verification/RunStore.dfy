// The run row and the delivery rows of one run: recording and skipping
// deliveries, the counters that summarise them, and the lifecycle calls.
//
// Each database transaction is one atomic step, and recording calls do not
// overlap.
module RunStore {
  import opened Wrappers

  datatype DeliveryStatus = Success | Failed | Skipped

  datatype DeliveryRow = DeliveryRow(rowIndex: int, rowCount: int, status: DeliveryStatus)

  type Rows = map<int, DeliveryRow>

  datatype Ledger = Ledger(rows: Rows, sent: int, failed: int, skipped: int)

  datatype Meta = Meta(sequence: int, rowIndex: int, rowCount: int)

  datatype RunStatus = Queued | Running | Canceling | Completed | FailedRun | Canceled | Paused | Interrupted

  /* ----- what the counters count ----- */

  function Share(row: DeliveryRow, st: DeliveryStatus): int {
    if row.status == st then row.rowCount else 0
  }

  ghost function Sum(rows: Rows, over: set<int>, st: DeliveryStatus): int
    requires over <= rows.Keys
  {
    if exists s :: s in over then
      var s :| s in over;
      Share(rows[s], st) + Sum(rows, over - {s}, st)
    else 0
  }

  ghost function Total(rows: Rows, st: DeliveryStatus): int {
    Sum(rows, rows.Keys, st)
  }

  // The choice of the row taken first does not matter.
  lemma {:induction false} SumTake(rows: Rows, over: set<int>, st: DeliveryStatus, s: int)
    requires over <= rows.Keys && s in over
    ensures Sum(rows, over, st) == Share(rows[s], st) + Sum(rows, over - {s}, st)
  {
    var u :| u in over && Sum(rows, over, st) == Share(rows[u], st) + Sum(rows, over - {u}, st);
    if u != s {
      SumTake(rows, over - {u}, st, s);
      SumTake(rows, over - {s}, st, u);
      assert over - {u} - {s} == over - {s} - {u};
    }
  }

  lemma {:induction false} SumFrame(rows: Rows, rows': Rows, over: set<int>, st: DeliveryStatus)
    requires over <= rows.Keys && over <= rows'.Keys
    requires forall s :: s in over ==> rows[s] == rows'[s]
    ensures Sum(rows, over, st) == Sum(rows', over, st)
  {
    if exists s :: s in over {
      var s :| s in over;
      SumTake(rows, over, st, s);
      SumTake(rows', over, st, s);
      SumFrame(rows, rows', over - {s}, st);
    }
  }

  lemma TotalPut(rows: Rows, st: DeliveryStatus, s: int, row: DeliveryRow)
    ensures Total(rows[s := row], st) == Total(rows, st) - (if s in rows then Share(rows[s], st) else 0) + Share(row, st)
  {
    var rows' := rows[s := row];
    SumTake(rows', rows'.Keys, st, s);
    assert rows'.Keys - {s} == rows.Keys - {s};
    SumFrame(rows, rows', rows.Keys - {s}, st);
    if s in rows {
      SumTake(rows, rows.Keys, st, s);
    } else {
      assert rows.Keys - {s} == rows.Keys;
    }
  }

  ghost predicate Conserved(l: Ledger) {
    && l.sent == Total(l.rows, Success)
    && l.failed == Total(l.rows, Failed)
    && l.skipped == Total(l.rows, Skipped)
  }

  /* ----- recordDelivery ----- */

  // The upsert of a delivery row: an existing row keeps its index and count.
  function Recorded(rows: Rows, meta: Meta, st: DeliveryStatus): Rows {
    if meta.sequence in rows then rows[meta.sequence := rows[meta.sequence].(status := st)]
    else rows[meta.sequence := DeliveryRow(meta.rowIndex, meta.rowCount, st)]
  }

  function AfterRecord(l: Ledger, meta: Meta, ok: bool): Ledger {
    var existing := if meta.sequence in l.rows then Some(l.rows[meta.sequence]) else None;
    var dropped := (st: DeliveryStatus) => if existing.Some? then Share(existing.value, st) else 0;
    Ledger(
      Recorded(l.rows, meta, if ok then Success else Failed),
      l.sent - dropped(Success) + (if ok then meta.rowCount else 0),
      l.failed - dropped(Failed) + (if ok then 0 else meta.rowCount),
      l.skipped - dropped(Skipped))
  }

  /** Recording keeps the counters equal to their sums exactly when the sequence
      is new or is recorded again with the row count it was first stored with. */
  lemma RecordConserves(l: Ledger, meta: Meta, ok: bool)
    requires Conserved(l)
    ensures Conserved(AfterRecord(l, meta, ok))
            <==> meta.sequence in l.rows ==> l.rows[meta.sequence].rowCount == meta.rowCount
  {
    var row := AfterRecord(l, meta, ok).rows[meta.sequence];
    TotalPut(l.rows, Success, meta.sequence, row);
    TotalPut(l.rows, Failed, meta.sequence, row);
    TotalPut(l.rows, Skipped, meta.sequence, row);
  }

  /* ----- skipDeliveries ----- */

  function CeilDiv(n: nat, b: nat): nat
    requires b > 0
  {
    (n + b - 1) / b
  }

  function RowCountFor(total: Option<nat>, batchSize: nat, sequence: int): int
    requires batchSize > 0
  {
    if total.Some? && sequence == CeilDiv(total.value, batchSize) - 1
    then total.value - sequence * batchSize
    else batchSize
  }

  function SkipRow(total: Option<nat>, batchSize: nat, sequence: int): DeliveryRow
    requires batchSize > 0
  {
    DeliveryRow(sequence * batchSize, RowCountFor(total, batchSize, sequence), Skipped)
  }

  // Each requested sequence without a delivery row gets a skipped one, once.
  function AfterSkip(l: Ledger, total: Option<nat>, batchSize: nat, sequences: seq<int>): Ledger
    requires batchSize > 0
  {
    if |sequences| == 0 then l
    else
      var before := AfterSkip(l, total, batchSize, sequences[..|sequences| - 1]);
      var s := sequences[|sequences| - 1];
      if s in before.rows then before
      else
        before.(rows := before.rows[s := SkipRow(total, batchSize, s)],
                skipped := before.skipped + RowCountFor(total, batchSize, s))
  }

  /** Skipping never disturbs the counters, and never touches a row that exists. */
  lemma {:induction false} SkipConserves(l: Ledger, total: Option<nat>, batchSize: nat, sequences: seq<int>)
    requires batchSize > 0
    ensures var l' := AfterSkip(l, total, batchSize, sequences);
            && (Conserved(l) ==> Conserved(l'))
            && (forall s :: s in l.rows ==> s in l'.rows && l'.rows[s] == l.rows[s])
            && (forall s :: s in l'.rows && s !in l.rows ==> s in sequences && l'.rows[s] == SkipRow(total, batchSize, s))
            && (forall s :: s in sequences ==> s in l'.rows)
  {
    if |sequences| > 0 {
      var init, s := sequences[..|sequences| - 1], sequences[|sequences| - 1];
      SkipConserves(l, total, batchSize, init);
      var before := AfterSkip(l, total, batchSize, init);
      assert sequences == init + [s];
      if s !in before.rows {
        var row := SkipRow(total, batchSize, s);
        TotalPut(before.rows, Success, s, row);
        TotalPut(before.rows, Failed, s, row);
        TotalPut(before.rows, Skipped, s, row);
      }
    }
  }

  /* ----- any sequence of calls ----- */

  datatype Call = Record(meta: Meta, ok: bool) | Skip(sequences: seq<int>)

  function Perform(l: Ledger, total: Option<nat>, batchSize: nat, calls: seq<Call>): Ledger
    requires batchSize > 0
  {
    if |calls| == 0 then l
    else
      var before := Perform(l, total, batchSize, calls[..|calls| - 1]);
      match calls[|calls| - 1]
      case Record(meta, ok) => AfterRecord(before, meta, ok)
      case Skip(sequences) => AfterSkip(before, total, batchSize, sequences)
  }

  // Every call counts a sequence with the same number of rows.
  ghost predicate OneCount(total: Option<nat>, batchSize: nat, calls: seq<Call>, size: int -> int)
    requires batchSize > 0
  {
    forall i :: 0 <= i < |calls| ==>
      match calls[i]
      case Record(meta, _) => meta.rowCount == size(meta.sequence)
      case Skip(sequences) => forall s :: s in sequences ==> RowCountFor(total, batchSize, s) == size(s)
  }

  const EMPTY := Ledger(map[], 0, 0, 0)

  /** Counter conservation over any calls that give each sequence one row count. */
  lemma {:induction false} CallsConserve(total: Option<nat>, batchSize: nat, calls: seq<Call>, size: int -> int)
    requires batchSize > 0 && OneCount(total, batchSize, calls, size)
    ensures var l := Perform(EMPTY, total, batchSize, calls);
            Conserved(l) && forall s :: s in l.rows ==> l.rows[s].rowCount == size(s)
  {
    if |calls| > 0 {
      var init := calls[..|calls| - 1];
      assert OneCount(total, batchSize, init, size) by {
        forall i | 0 <= i < |init|
          ensures match init[i]
                  case Record(meta, _) => meta.rowCount == size(meta.sequence)
                  case Skip(sequences) => forall s :: s in sequences ==> RowCountFor(total, batchSize, s) == size(s)
        {
          assert init[i] == calls[i];
        }
      }
      CallsConserve(total, batchSize, init, size);
      var before := Perform(EMPTY, total, batchSize, init);
      match calls[|calls| - 1] {
        case Record(meta, ok) => RecordConserves(before, meta, ok);
        case Skip(sequences) => SkipConserves(before, total, batchSize, sequences);
      }
    }
  }

  /* ----- completion ----- */

  // The number of rows of batch s of a source of n rows.
  function BatchRows(n: nat, b: nat, s: int): int
    requires b > 0
  {
    if s * b + b <= n then b else n - s * b
  }

  lemma CeilBounds(n: nat, b: nat)
    requires b > 0
    ensures var c := CeilDiv(n, b); n <= c * b < n + b
  {
  }

  lemma MulOrder(x: int, y: int, b: nat)
    requires x <= y
    ensures x * b <= y * b
  {
  }

  lemma LastBatch(n: nat, b: nat, s: nat)
    requires b > 0
    ensures s < CeilDiv(n, b) <==> s * b < n
    ensures s < CeilDiv(n, b) ==> RowCountFor(Some(n), b, s) == BatchRows(n, b, s) && 0 < BatchRows(n, b, s) <= b
  {
    var c := CeilDiv(n, b);
    CeilBounds(n, b);
    if s < c {
      MulOrder(s + 1, c, b);
      if s < c - 1 {
        MulOrder(s + 2, c, b);
      }
    } else {
      MulOrder(c, s, b);
    }
  }

  ghost predicate Below(over: set<int>, c: nat) {
    forall s :: s in over <==> 0 <= s < c
  }

  // The rows in the first c batches.
  function RowsBelow(n: nat, b: nat, c: nat): nat {
    if c * b <= n then c * b else n
  }

  lemma NextBatch(n: nat, b: nat, c: nat)
    requires b > 0 && c < CeilDiv(n, b)
    ensures RowsBelow(n, b, c + 1) == RowsBelow(n, b, c) + BatchRows(n, b, c)
  {
    LastBatch(n, b, c);
    assert (c + 1) * b == c * b + b;
  }

  lemma {:induction false} RowsAddUp(rows: Rows, over: set<int>, n: nat, b: nat, c: nat)
    requires b > 0 && c <= CeilDiv(n, b) && over <= rows.Keys && Below(over, c)
    requires forall s :: s in over ==> rows[s].rowCount == BatchRows(n, b, s)
    ensures Sum(rows, over, Success) + Sum(rows, over, Failed) + Sum(rows, over, Skipped) == RowsBelow(n, b, c)
    decreases c
  {
    if c > 0 {
      var s := c - 1;
      RowsAddUp(rows, over - {s}, n, b, s);
      NextBatch(n, b, s);
      SumTake(rows, over, Success, s);
      SumTake(rows, over, Failed, s);
      SumTake(rows, over, Skipped, s);
    }
  }

  /** When exactly the batches of an n-row source have rows, the three counters
      add up to n. */
  lemma CompletedCountersAddUp(l: Ledger, n: nat, b: nat)
    requires b > 0 && Conserved(l) && Below(l.rows.Keys, CeilDiv(n, b))
    requires forall s :: s in l.rows ==> l.rows[s].rowCount == BatchRows(n, b, s)
    ensures l.sent + l.failed + l.skipped == n
  {
    var c := CeilDiv(n, b);
    RowsAddUp(l.rows, l.rows.Keys, n, b, c);
    LastBatch(n, b, c);
  }

  /* ----- the run, in its own form ----- */

  class HookRun {
    const batchSize: nat
    var status: RunStatus
    var cursorOffset: nat
    var totalCount: Option<nat>
    var sentCount: int
    var failedCount: int
    var skippedCount: int
    var deliveries: Rows

    function View(): Ledger
      reads this
    {
      Ledger(deliveries, sentCount, failedCount, skippedCount)
    }

    constructor (batchSize: nat, totalCount: Option<nat>)
      ensures this.batchSize == batchSize && this.totalCount == totalCount
      ensures status == Queued && cursorOffset == 0 && View() == EMPTY
    {
      this.batchSize, this.totalCount := batchSize, totalCount;
      status, cursorOffset := Queued, 0;
      sentCount, failedCount, skippedCount, deliveries := 0, 0, 0, map[];
    }

    method RecordDelivery(meta: Meta, ok: bool)
      modifies this`sentCount, this`failedCount, this`skippedCount, this`deliveries
      ensures View() == AfterRecord(old(View()), meta, ok)
    {
      var sent, failed, skipped := 0, 0, 0;
      if meta.sequence in deliveries {
        var existing := deliveries[meta.sequence];
        match existing.status {
          case Success => sent := sent - existing.rowCount;
          case Failed => failed := failed - existing.rowCount;
          case Skipped => skipped := skipped - existing.rowCount;
        }
      }
      if ok {
        sent := sent + meta.rowCount;
      } else {
        failed := failed + meta.rowCount;
      }
      deliveries := Recorded(deliveries, meta, if ok then Success else Failed);
      sentCount, failedCount, skippedCount := sentCount + sent, failedCount + failed, skippedCount + skipped;
    }

    method SkipDeliveries(sequences: seq<int>) returns (created: nat)
      requires batchSize > 0
      modifies this`skippedCount, this`deliveries
      ensures View() == AfterSkip(old(View()), totalCount, batchSize, sequences)
      ensures created == |deliveries| - |old(deliveries)|
    {
      var rows, skippedRows := deliveries, 0;
      created := 0;
      ghost var before := View();
      for i := 0 to |sequences|
        invariant created == |rows| - |deliveries|
        invariant AfterSkip(before, totalCount, batchSize, sequences[..i])
               == before.(rows := rows, skipped := before.skipped + skippedRows)
      {
        assert sequences[..i + 1][..i] == sequences[..i];
        var s := sequences[i];
        if s !in rows {
          rows := rows[s := SkipRow(totalCount, batchSize, s)];
          skippedRows := skippedRows + RowCountFor(totalCount, batchSize, s);
          created := created + 1;
        }
      }
      assert sequences[..|sequences|] == sequences;
      deliveries := rows;
      skippedCount := skippedCount + skippedRows;
    }

    // Sequences the worker must not send again.
    function SettledSequences(): set<int>
      reads this
    {
      set s | s in deliveries && deliveries[s].status != Failed
    }

    function SkippedSequences(): set<int>
      reads this
    {
      set s | s in deliveries && deliveries[s].status == Skipped
    }

    predicate Terminal()
      reads this
    {
      status in {Completed, FailedRun, Canceled, Interrupted}
    }

    predicate NoneFailed()
      reads this
    {
      forall s | s in deliveries :: deliveries[s].status != Failed
    }

    // Continue where the cursor stands; refused while the run is active or done.
    method Resume() returns (conflict: bool)
      modifies this`status
      ensures conflict <==> old(status) !in {FailedRun, Canceled, Paused, Interrupted}
      ensures status == if conflict then old(status) else Queued
    {
      if status !in {FailedRun, Canceled, Paused, Interrupted} { return true; }
      status := Queued;
      return false;
    }

    // Stream again from the start, in place; refused without failed deliveries.
    method RetryFailed() returns (refused: bool)
      modifies this`status, this`cursorOffset
      ensures refused <==> !old(Terminal()) || old(NoneFailed())
      ensures status == if refused then old(status) else Queued
      ensures cursorOffset == if refused then old(cursorOffset) else 0
    {
      if !Terminal() { return true; }
      if NoneFailed() { return true; }
      status, cursorOffset := Queued, 0;
      return false;
    }

    method Cancel()
      modifies this`status
      ensures status == if old(Terminal()) then old(status) else Canceling
    {
      if !Terminal() {
        status := Canceling;
      }
    }
  }
}
