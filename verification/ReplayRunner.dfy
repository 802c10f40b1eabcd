// The replay worker: stream the source from the cursor, group rows into
// batches, deliver each batch that is not settled, record it, checkpoint.
//
// The source does not change and the batch size stays the same. Everything the
// environment decides is left open: what a sink call writes before it fails,
// when the process dies or a read throws, when the user cancels or skips, and
// when the throttled control poll notices.
module ReplayRunner {
  import opened Wrappers
  import opened KeyedTable
  import opened RunStore
  import TablePaging

  // One call of the sink: whether its sequence was stored as delivered by then, and
  // whether the sink reported success.
  datatype Send = Send(sequence: int, rows: seq<Write>, delivered: bool, ok: bool)

  datatype FlushEnd = Settled(abort: bool) | Threw | Died

  // What may go wrong in an execution: nothing, sink calls only, or anything (the
  // process dies, a call throws, the user acts).
  datatype Faults = NoFaults | SinkFaults | AnyFaults

  /* ----- batches ----- */

  // The source cut into batches of b rows, the last one possibly shorter.
  function Batches(source: seq<Write>, b: nat): seq<seq<Write>>
    requires b > 0
    decreases |source|
  {
    if |source| == 0 then []
    else if |source| <= b then [source]
    else [source[..b]] + Batches(source[b..], b)
  }

  // The row at which batch q starts.
  function Start(q: nat, b: nat): nat {
    if q == 0 then 0 else b + Start(q - 1, b)
  }

  lemma {:induction false} StartIsProduct(q: nat, b: nat)
    ensures Start(q, b) == q * b
  {
    if q > 0 { StartIsProduct(q - 1, b); }
  }

  // The sequence number of any row of batch q.
  lemma SequenceOf(q: nat, b: nat, i: nat)
    requires b > 0 && Start(q, b) <= i < Start(q, b) + b
    ensures i / b == q
  {
    StartIsProduct(q, b);
    var k := i / b - q;
    assert b * k == i - q * b - i % b;
    var c: int := b;
    assert k >= 1 ==> c * k >= c;
    assert k <= -1 ==> c * k <= -c;
  }

  lemma StartOfSequence(i: nat, b: nat)
    requires b > 0
    ensures Start(i / b, b) <= i < Start(i / b, b) + b
  {
    StartIsProduct(i / b, b);
  }

  lemma {:induction false} StartsGrow(q: nat, r: nat, b: nat)
    requires b > 0 && q < r
    ensures Start(q, b) + b <= Start(r, b)
  {
    if q < r - 1 { StartsGrow(q, r - 1, b); }
  }

  // Up to b rows from `start` on.
  function Stretch(source: seq<Write>, start: nat, b: nat): seq<Write>
    requires start <= |source|
  {
    if start + b <= |source| then source[start..start + b] else source[start..]
  }

  lemma StretchShift(source: seq<Write>, start: nat, b: nat)
    requires b + start <= |source|
    ensures Stretch(source[b..], start, b) == Stretch(source, b + start, b)
  {
    assert start + b + b <= |source| ==> source[b..][start..start + b] == source[b + start..b + start + b];
    assert source[b..][start..] == source[b + start..];
  }

  // Batch q is the stretch of the source from its start.
  lemma {:induction false} BatchAt(source: seq<Write>, b: nat, q: nat)
    requires b > 0 && Start(q, b) < |source|
    ensures q < |Batches(source, b)| && Batches(source, b)[q] == Stretch(source, Start(q, b), b)
    decreases q
  {
    if q > 0 {
      BatchAt(source[b..], b, q - 1);
      StretchShift(source, Start(q - 1, b), b);
    } else {
      assert source[0..] == source;
    }
  }

  lemma {:induction false} BatchExists(source: seq<Write>, b: nat, q: nat)
    requires b > 0
    ensures q < |Batches(source, b)| <==> Start(q, b) < |source|
    decreases q
  {
    if q > 0 && |source| > b {
      BatchExists(source[b..], b, q - 1);
    }
  }

  lemma BatchCount(source: seq<Write>, b: nat)
    requires b > 0
    ensures |Batches(source, b)| == CeilDiv(|source|, b)
  {
    var m, c := |Batches(source, b)|, CeilDiv(|source|, b);
    BatchExists(source, b, m);
    BatchExists(source, b, c);
    StartIsProduct(m, b);
    StartIsProduct(c, b);
    LastBatch(|source|, b, m);
    LastBatch(|source|, b, c);
  }

  lemma BatchSize(source: seq<Write>, b: nat, s: nat)
    requires b > 0 && s < |Batches(source, b)|
    ensures |Batches(source, b)[s]| == BatchRows(|source|, b, s) == RowCountFor(Some(|source|), b, s)
  {
    BatchExists(source, b, s);
    BatchAt(source, b, s);
    StartIsProduct(s, b);
    LastBatch(|source|, b, s);
  }

  // Row i lies in batch i / b.
  lemma RowInBatch(source: seq<Write>, b: nat, i: nat)
    requires b > 0 && i < |source|
    ensures i / b < |Batches(source, b)| && source[i] in Batches(source, b)[i / b]
  {
    StartOfSequence(i, b);
    BatchAt(source, b, i / b);
    assert Batches(source, b)[i / b][i - Start(i / b, b)] == source[i];
  }

  /* ----- the target ----- */

  // The target shows this row: under its key, with all of its columns.
  predicate Holds(t: Table, w: Write) {
    w.op.Upsert? ==> w.key in t && forall c :: c in w.op.values ==> c in t[w.key] && t[w.key][c] == w.op.values[c]
  }

  ghost predicate DistinctRows(source: seq<Write>) {
    && (forall i :: 0 <= i < |source| ==> source[i].op.Upsert?)
    && (forall i, j :: 0 <= i < j < |source| ==> source[i].key != source[j].key)
  }

  // Writing any stretch of the source shows its rows and hides none.
  lemma {:induction false} StretchHolds(t: Table, source: seq<Write>, lo: nat, hi: nat, i: nat)
    requires DistinctRows(source) && lo <= hi <= |source| && i < |source|
    requires lo <= i < hi || Holds(t, source[i])
    ensures Holds(ApplyAll(t, source[lo..hi]), source[i])
    decreases hi
  {
    if lo < hi {
      assert source[lo..hi][..hi - lo - 1] == source[lo..hi - 1];
      if i != hi - 1 {
        StretchHolds(t, source, lo, hi - 1, i);
      }
    }
  }

  lemma StretchShows(t: Table, source: seq<Write>, lo: nat, hi: nat)
    requires DistinctRows(source) && lo <= hi <= |source|
    ensures forall w :: w in source && (Holds(t, w) || w in source[lo..hi]) ==> Holds(ApplyAll(t, source[lo..hi]), w)
  {
    forall w | w in source && (Holds(t, w) || w in source[lo..hi]) ensures Holds(ApplyAll(t, source[lo..hi]), w) {
      if w in source[lo..hi] {
        var i :| 0 <= i < hi - lo && source[lo..hi][i] == w;
        StretchHolds(t, source, lo, hi, lo + i);
      } else {
        var i :| 0 <= i < |source| && source[i] == w;
        StretchHolds(t, source, lo, hi, i);
      }
    }
  }

  // A sink call for some rows: the first few of them were written, all when it
  // reports success.
  ghost predicate WroteSome(rows: seq<Write>, before: Table, after: Table, ok: bool) {
    exists n :: 0 <= n <= |rows| && after == ApplyAll(before, rows[..n]) && (ok ==> n == |rows|)
  }

  // Where rows have keys of their own it hides no row of the source, and shows
  // the whole batch when it succeeds.
  lemma SinkShows(source: seq<Write>, lo: nat, rows: seq<Write>, before: Table, after: Table, ok: bool)
    requires DistinctRows(source)
    requires lo + |rows| <= |source| && rows == source[lo..lo + |rows|]
    requires WroteSome(rows, before, after, ok)
    ensures forall w :: w in source && Holds(before, w) ==> Holds(after, w)
    ensures ok ==> forall w :: w in rows ==> Holds(after, w)
  {
    var n :| 0 <= n <= |rows| && after == ApplyAll(before, rows[..n]) && (ok ==> n == |rows|);
    assert rows[..n] == source[lo..lo + |rows|][..n] == source[lo..lo + n];
    StretchShows(before, source, lo, lo + n);
  }

  /* ----- what every state of a run satisfies ----- */

  // What a delivered sequence means in the target, where rows have keys of their
  // own (`keyed`).
  ghost predicate Shown(keyed: bool, batches: seq<seq<Write>>, rows: Rows, target: Table) {
    forall s :: s in rows && rows[s].status != Skipped ==>
      0 <= s < |batches| && (keyed && rows[s].status == Success ==> forall w :: w in batches[s] ==> Holds(target, w))
  }

  // One idempotency key, one slice of the source; nothing delivered is sent.
  ghost predicate SendsFaithful(batches: seq<seq<Write>>, sends: seq<Send>) {
    forall i :: 0 <= i < |sends| ==>
      0 <= sends[i].sequence < |batches| && sends[i].rows == batches[sends[i].sequence] && !sends[i].delivered
  }

  predicate Sent(sends: seq<Send>, s: int, ok: bool) {
    exists i :: 0 <= i < |sends| && sends[i].sequence == s && sends[i].ok == ok
  }

  // What is recorded as delivered, or as failed, is what the sink reported.
  ghost predicate Reported(rows: Rows, sends: seq<Send>) {
    forall s :: s in rows && rows[s].status != Skipped ==> Sent(sends, s, rows[s].status == Success)
  }

  lemma SentStays(sends: seq<Send>, more: seq<Send>, s: int, ok: bool)
    requires Sent(sends, s, ok)
    ensures Sent(sends + more, s, ok)
  {
    var i :| 0 <= i < |sends| && sends[i].sequence == s && sends[i].ok == ok;
    assert (sends + more)[i] == sends[i];
  }

  lemma SentLast(sends: seq<Send>, last: Send)
    ensures Sent(sends + [last], last.sequence, last.ok)
  {
    assert (sends + [last])[|sends|] == last;
  }

  lemma ReportedStays(rows: Rows, sends: seq<Send>, last: Send)
    requires Reported(rows, sends)
    ensures Reported(rows, sends + [last])
  {
    forall s | s in rows && rows[s].status != Skipped ensures Sent(sends + [last], s, rows[s].status == Success) {
      SentStays(sends, [last], s, rows[s].status == Success);
    }
  }

  ghost predicate Counted(batches: seq<seq<Write>>, l: Ledger) {
    && Conserved(l)
    && forall s :: s in l.rows && 0 <= s < |batches| ==> l.rows[s].rowCount == |batches[s]|
  }

  // Every sequence below q has a delivery row.
  ghost predicate CoveredTo(rows: Rows, q: int) {
    forall s :: 0 <= s < q ==> s in rows
  }

  // The checkpoint is the start of a batch, and every earlier batch has a row.
  ghost predicate Checkpointed(rows: Rows, cursorOffset: nat, b: nat) {
    exists q: nat :: cursorOffset == Start(q, b) && CoveredTo(rows, q)
  }

  // Rows are only ever added, and delivered ones stay as they are.
  ghost predicate RowsGrow(rows: Rows, rows': Rows) {
    && rows.Keys <= rows'.Keys
    && forall s :: s in rows && rows[s].status == Success ==> rows'[s] == rows[s]
  }

  // The sequences that may be stored as delivered while batch q is next.
  ghost predicate DeliveredBefore(rows: Rows, done: set<int>, q: int) {
    && done <= rows.Keys
    && forall s :: s in rows && rows[s].status == Success ==> s in done || s < q
  }

  // Nothing from batch `first` up to q is missing or failed.
  ghost predicate SettledFrom(rows: Rows, first: int, q: int) {
    forall s :: first <= s < q ==> s in rows && rows[s].status != Failed
  }

  ghost predicate AllSettled(rows: Rows, done: set<int>) {
    forall s :: s in done ==> s in rows && rows[s].status != Failed
  }

  // All rows but that of q are as they were.
  ghost predicate OthersStay(rows: Rows, rows': Rows, q: int) {
    forall s :: s in rows && s != q ==> s in rows' && rows'[s] == rows[s]
  }

  ghost predicate AllStay(rows: Rows, rows': Rows) {
    forall s :: s in rows ==> s in rows' && rows'[s] == rows[s]
  }

  /* ----- the sink calls of one execution ----- */

  // One call for batch q if it is not settled, none if it is.
  ghost predicate CalledOnce(sends: seq<Send>, sends': seq<Send>, q: int, settled: bool) {
    if settled then sends' == sends
    else |sends'| == |sends| + 1 && sends <= sends' && sends'[|sends|].sequence == q
  }

  ghost predicate AllOk(sends: seq<Send>, from: nat, to: int) {
    forall i :: from <= i < to && i < |sends| ==> sends[i].ok
  }

  predicate CalledFor(sends: seq<Send>, from: nat, s: int) {
    exists i :: from <= i < |sends| && sends[i].sequence == s
  }

  // The calls from index `from` on: batches from `first` to before q in ascending
  // order, none of which was settled in `rows`.
  ghost predicate InOrder(sends: seq<Send>, from: nat, rows: Rows, first: int, q: int) {
    && from <= |sends|
    && (forall i :: from <= i < |sends| ==>
          && first <= sends[i].sequence < q
          && (sends[i].sequence in rows ==> rows[sends[i].sequence].status == Failed))
    && (forall i, j :: from <= i < j < |sends| ==> sends[i].sequence < sends[j].sequence)
  }

  // Every batch from `first` to before q was called for, or settled without a call.
  ghost predicate NoneLeftOut(sends: seq<Send>, from: nat, done: set<int>, first: int, q: int) {
    forall s :: first <= s < q ==> s in done || CalledFor(sends, from, s)
  }

  // What was settled beyond `rows` was skipped meanwhile.
  ghost predicate OnlySkipped(rows: Rows, now: Rows, done: set<int>) {
    forall s :: s in done && !(s in rows && rows[s].status != Failed) ==> s in now && now[s].status == Skipped
  }

  // The calls of an execution that goes on. `strict` says that no call may fail
  // without ending it.
  ghost predicate CallsOn(strict: bool, sends: seq<Send>, from: nat, rows: Rows, done: set<int>, first: int, q: int) {
    && first <= q && InOrder(sends, from, rows, first, q) && NoneLeftOut(sends, from, done, first, q)
    && (strict ==> AllOk(sends, from, |sends|))
  }

  // Its delivery rows, which were `rows` when it began and are now `now`.
  ghost predicate RowsOn(strict: bool, rows: Rows, now: Rows, done: set<int>, first: int, q: int) {
    && AllSettled(now, done) && OnlySkipped(rows, now, done)
    && (forall s :: s in rows && rows[s].status != Failed ==> s in done)
    && (strict ==> SettledFrom(now, first, q))
  }

  lemma Begins(strict: bool, rows: Rows, done: set<int>, sends: seq<Send>, first: nat)
    requires forall s :: s in done <==> s in rows && rows[s].status != Failed
    ensures RowsOn(strict, rows, rows, done, first, first) && CallsOn(strict, sends, |sends|, rows, done, first, first)
  {
  }

  lemma RowsWait(strict: bool, rows: Rows, now: Rows, now': Rows, done: set<int>, done': set<int>, first: int, q: int)
    requires RowsOn(strict, rows, now, done, first, q) && AllStay(now, now') && done <= done'
    requires forall s :: s in done' && s !in done ==> s in now' && now'[s].status == Skipped
    ensures RowsOn(strict, rows, now', done', first, q)
  {
  }

  lemma RowsFlush(strict: bool, rows: Rows, now: Rows, now': Rows, done: set<int>, first: int, q: int)
    requires RowsOn(strict, rows, now, done, first, q) && OthersStay(now, now', q) && (q in done ==> AllStay(now, now'))
    requires strict && q !in done ==> q in now' && now'[q].status == Success
    ensures RowsOn(strict, rows, now', done, first, q + 1)
  {
  }

  // Waiting and flushing in one: what joins `done` was skipped, and q, once it has,
  // is not flushed.
  lemma RowsRest(strict: bool, rows: Rows, now: Rows, now': Rows, done: set<int>, done': set<int>, first: int, q: int)
    requires RowsOn(strict, rows, now, done, first, q) && OthersStay(now, now', q) && (q in done ==> AllStay(now, now'))
    requires done <= done' && forall s :: s in done' && s !in done ==> s in now' && now'[s].status == Skipped
    requires strict && q !in done' ==> q in now' && now'[q].status == Success
    ensures RowsOn(strict, rows, now', done', first, q + 1)
  {
  }

  lemma CallsWait(strict: bool, sends: seq<Send>, from: nat, rows: Rows, done: set<int>, done': set<int>, first: int, q: int)
    requires CallsOn(strict, sends, from, rows, done, first, q) && done <= done'
    ensures CallsOn(strict, sends, from, rows, done', first, q)
  {
  }

  lemma OrderGrows(sends: seq<Send>, sends': seq<Send>, from: nat, rows: Rows, first: int, q: int, settled: bool)
    requires InOrder(sends, from, rows, first, q) && first <= q
    requires CalledOnce(sends, sends', q, settled) && (!settled && q in rows ==> rows[q].status == Failed)
    ensures InOrder(sends', from, rows, first, q + 1)
  {
  }

  lemma CallsFlush(strict: bool, sends: seq<Send>, sends': seq<Send>, from: nat, rows: Rows, done: set<int>, first: int, q: int)
    requires CallsOn(strict, sends, from, rows, done, first, q)
    requires CalledOnce(sends, sends', q, q in done) && (q !in done && q in rows ==> rows[q].status == Failed)
    requires strict ==> AllOk(sends', |sends|, |sends'|)
    ensures CallsOn(strict, sends', from, rows, done, first, q + 1)
  {
    OrderGrows(sends, sends', from, rows, first, q, q in done);
    forall s | first <= s < q + 1 && s !in done ensures CalledFor(sends', from, s) {
      if s < q {
        var i :| from <= i < |sends| && sends[i].sequence == s;
        assert sends'[i] == sends[i];
      } else {
        assert sends'[|sends|].sequence == s;
      }
    }
  }

  // What an execution leaves that began at batch `first` of n and at call `from`,
  // when the rows were `rows`: it called for batches in ascending order, for none
  // twice and for none that was settled; under abortOnError no call follows a
  // failed one; when it completed it left none out, and where no call may fail all
  // are settled; with sink faults only, it fails on a failed call under abortOnError
  // and else completes.
  ghost predicate Executed(faults: Faults, abortOnError: bool, n: nat, from: nat, rows: Rows, first: int,
                           sends: seq<Send>, now: Rows, status: RunStatus)
  {
    && InOrder(sends, from, rows, first, n)
    && (faults.NoFaults? ==> AllOk(sends, from, |sends|))
    && (abortOnError ==> AllOk(sends, from, |sends| - 1))
    && (status == Completed ==> forall s :: first <= s < n ==>
          || CalledFor(sends, from, s)
          || (s in rows && rows[s].status != Failed)
          || (s in now && now[s].status == Skipped))
    && (status == Completed && (abortOnError || faults.NoFaults?) ==>
          AllOk(sends, from, |sends|) && SettledFrom(now, first, n))
    && (!faults.AnyFaults? ==> status == if abortOnError && !AllOk(sends, from, |sends|) then FailedRun else Completed)
  }

  lemma EndsEarly(faults: Faults, abortOnError: bool, n: nat, from: nat, rows: Rows, done: set<int>, first: int, q: int,
                  sends: seq<Send>, sends': seq<Send>, now: Rows, status: RunStatus)
    requires CallsOn(abortOnError || faults.NoFaults?, sends, from, rows, done, first, q) && q < n
    requires sends' == sends || CalledOnce(sends, sends', q, q in done)
    requires q !in done && q in rows ==> rows[q].status == Failed
    requires status != Completed && (faults.NoFaults? ==> AllOk(sends', |sends|, |sends'|))
    requires !faults.AnyFaults? ==> abortOnError && !AllOk(sends', |sends|, |sends'|) && status == FailedRun
    ensures Executed(faults, abortOnError, n, from, rows, first, sends', now, status)
  {
    if sends' != sends { OrderGrows(sends, sends', from, rows, first, q, q in done); }
  }

  lemma EndsAtEnd(faults: Faults, abortOnError: bool, n: nat, from: nat, rows: Rows, done: set<int>, first: int, q: int,
                  sends: seq<Send>, now: Rows, now': Rows, status: RunStatus)
    requires CallsOn(abortOnError || faults.NoFaults?, sends, from, rows, done, first, q) && n <= q
    requires RowsOn(abortOnError || faults.NoFaults?, rows, now, done, first, q) && AllStay(now, now')
    requires forall i :: from <= i < |sends| ==> sends[i].sequence < n
    requires !faults.AnyFaults? ==> status == Completed
    ensures Executed(faults, abortOnError, n, from, rows, first, sends, now', status)
  {
  }

  lemma ShownStays(source: seq<Write>, b: nat, rows: Rows, before: Table, after: Table)
    requires b > 0 && Shown(DistinctRows(source), Batches(source, b), rows, before)
    requires DistinctRows(source) ==> forall w :: w in source && Holds(before, w) ==> Holds(after, w)
    ensures Shown(DistinctRows(source), Batches(source, b), rows, after)
  {
    var batches := Batches(source, b);
    forall s, w | DistinctRows(source) && s in rows && rows[s].status == Success && w in batches[s] ensures Holds(after, w) {
      BatchFromSource(source, b, s, w);
    }
  }

  lemma BatchFromSource(source: seq<Write>, b: nat, s: nat, w: Write)
    requires b > 0 && s < |Batches(source, b)| && w in Batches(source, b)[s]
    ensures w in source
  {
    BatchExists(source, b, s);
    BatchAt(source, b, s);
  }

  lemma RecordStep(keyed: bool, batches: seq<seq<Write>>, l: Ledger, s: nat, start: nat, ok: bool, target: Table)
    requires s < |batches| && Counted(batches, l) && Shown(keyed, batches, l.rows, target)
    requires s in l.rows ==> l.rows[s].status != Success
    requires ok && keyed ==> forall w :: w in batches[s] ==> Holds(target, w)
    ensures var l' := AfterRecord(l, Meta(s, start, |batches[s]|), ok);
            && Counted(batches, l') && Shown(keyed, batches, l'.rows, target) && RowsGrow(l.rows, l'.rows)
            && s in l'.rows
            && forall r :: r in l'.rows && r != s ==> r in l.rows && l'.rows[r] == l.rows[r]
  {
    RecordConserves(l, Meta(s, start, |batches[s]|), ok);
  }

  lemma SkipStep(source: seq<Write>, b: nat, l: Ledger, sequences: seq<int>, target: Table)
    requires b > 0 && Counted(Batches(source, b), l) && Shown(DistinctRows(source), Batches(source, b), l.rows, target)
    ensures var l' := AfterSkip(l, Some(|source|), b, sequences);
            && Counted(Batches(source, b), l') && Shown(DistinctRows(source), Batches(source, b), l'.rows, target)
            && RowsGrow(l.rows, l'.rows)
            && (forall s :: s in l.rows ==> l'.rows[s] == l.rows[s])
            && (forall s :: s in l'.rows && s !in l.rows ==> l'.rows[s].status == Skipped)
  {
    SkipConserves(l, Some(|source|), b, sequences);
    var l' := AfterSkip(l, Some(|source|), b, sequences);
    forall s | s in l'.rows && 0 <= s < |Batches(source, b)| ensures l'.rows[s].rowCount == |Batches(source, b)[s]| {
      BatchSize(source, b, s);
    }
  }

  /* ----- the worker ----- */

  class HookRunProcessor {
    const source: seq<Write>
    const batchSize: nat
    const abortOnError: bool
    const runs: HookRun
    var target: Table
    ghost var sends: seq<Send>

    constructor (source: seq<Write>, batchSize: nat, abortOnError: bool, target: Table)
      requires batchSize > 0
      ensures Inv() && fresh(runs)
      ensures this.source == source && this.target == target && sends == []
    {
      this.source, this.batchSize, this.abortOnError, this.target := source, batchSize, abortOnError, target;
      this.runs := new HookRun(batchSize, Some(|source|));
      sends := [];
      new;
      assert 0 == Start(0, batchSize) && CoveredTo(runs.deliveries, 0);
    }

    ghost predicate Inv()
      reads this, runs
    {
      && batchSize > 0
      && runs.batchSize == batchSize && runs.totalCount == Some(|source|)
      && runs.cursorOffset <= |source|
      && Checkpointed(runs.deliveries, runs.cursorOffset, batchSize)
      && Counted(Batches(source, batchSize), runs.View())
      && Shown(DistinctRows(source), Batches(source, batchSize), runs.deliveries, target)
      && SendsFaithful(Batches(source, batchSize), sends) && Reported(runs.deliveries, sends)
      && (runs.status == Completed ==> CoveredTo(runs.deliveries, |Batches(source, batchSize)|))
    }

    twostate predicate Grows()
      reads this, runs
    {
      old(sends) <= sends && RowsGrow(old(runs.deliveries), runs.deliveries)
    }

    // The user's side of a running run: skip anything, maybe cancel.
    method Interfere()
      requires Inv()
      modifies runs`deliveries, runs`skippedCount, runs`status
      ensures Inv() && Grows()
      ensures forall s :: s in old(runs.deliveries) ==> runs.deliveries[s] == old(runs.deliveries)[s]
      ensures forall s :: s in runs.deliveries && s !in old(runs.deliveries) ==> runs.deliveries[s].status == Skipped
      ensures runs.status == old(runs.status) || runs.status == Canceling
    {
      var sequences: seq<int> := *;
      SkipStep(source, batchSize, runs.View(), sequences, target);
      var _ := runs.SkipDeliveries(sequences);
      if * {
        runs.Cancel();
      }
    }

    // A sink call: everything written, or some first rows and a failure.
    method SinkDeliver(rows: seq<Write>, faults: Faults) returns (ok: bool)
      modifies this`target
      ensures WroteSome(rows, old(target), target, ok)
      ensures faults.NoFaults? ==> ok
    {
      var n: int := *;
      ok := *;
      ok := ok || faults.NoFaults?;
      if ok || n < 0 || n > |rows| {
        n := |rows|;
      }
      target := ApplyAll(target, rows[..n]);
    }

    method SendBatch(rows: seq<Write>, startIndex: nat, q: nat, faults: Faults) returns (ok: bool)
      requires Inv() && startIndex == Start(q, batchSize) < |source| && q < |Batches(source, batchSize)|
      requires rows == Batches(source, batchSize)[q]
      requires q in runs.deliveries ==> runs.deliveries[q].status != Success
      modifies this
      ensures Inv() && sends == old(sends) + [Send(q, rows, false, ok)]
      ensures faults.NoFaults? ==> ok
      ensures ok && DistinctRows(source) ==> forall w :: w in rows ==> Holds(target, w)
    {
      BatchAt(source, batchSize, q);
      ghost var before := target;
      ok := SinkDeliver(rows, faults);
      if DistinctRows(source) {
        SinkShows(source, startIndex, rows, before, target, ok);
      }
      ShownStays(source, batchSize, runs.deliveries, before, target);
      ghost var call := Send(q, rows, q in runs.deliveries && runs.deliveries[q].status == Success, ok);
      ReportedStays(runs.deliveries, sends, call);
      sends := sends + [call];
    }

    method Flush(rows: seq<Write>, startIndex: nat, done: set<int>, faults: Faults, ghost q: nat) returns (end: FlushEnd)
      requires Inv() && runs.status != Completed
      requires startIndex == Start(q, batchSize) < |source| && q < |Batches(source, batchSize)|
      requires rows == Batches(source, batchSize)[q]
      requires DeliveredBefore(runs.deliveries, done, q)
      modifies this, runs
      ensures Inv() && Grows() && runs.status != Completed && runs.cursorOffset == old(runs.cursorOffset)
      ensures end.Settled? ==> q in runs.deliveries
      ensures q in done ==> end == Settled(false) && sends == old(sends) && target == old(target) && runs.View() == old(runs.View())
      ensures q !in done ==> exists ok :: sends == old(sends) + [Send(q, rows, false, ok)] && (faults.NoFaults? ==> ok)
      ensures q !in done && end.Settled? ==>
                var ok := runs.deliveries[q].status == Success;
                && runs.deliveries[q].status != Skipped && sends == old(sends) + [Send(q, rows, false, ok)]
                && end.abort == (!ok && abortOnError)
      ensures DeliveredBefore(runs.deliveries, done, q + 1) && OthersStay(old(runs.deliveries), runs.deliveries, q)
      ensures !faults.AnyFaults? ==> end.Settled? && runs.status == old(runs.status)
    {
      SequenceOf(q, batchSize, startIndex);
      var sequence := startIndex / batchSize;
      if sequence in done { return Settled(false); }
      var ok := SendBatch(rows, startIndex, sequence, faults);
      SentLast(old(sends), Send(q, rows, false, ok));
      if faults.AnyFaults? {
        if * { return Died; }
        if * { return Threw; }
      }
      RecordSend(rows, startIndex, sequence, ok, faults);
      return Settled(!ok && abortOnError);
    }

    // The user may have been quicker than the record.
    method RecordSend(rows: seq<Write>, startIndex: nat, q: nat, ok: bool, faults: Faults)
      requires Inv() && runs.status != Completed
      requires q < |Batches(source, batchSize)| && rows == Batches(source, batchSize)[q]
      requires q in runs.deliveries ==> runs.deliveries[q].status != Success
      requires Sent(sends, q, ok)
      requires ok && DistinctRows(source) ==> forall w :: w in rows ==> Holds(target, w)
      modifies runs`sentCount, runs`failedCount, runs`skippedCount, runs`deliveries, runs`status
      ensures Inv() && Grows() && runs.status != Completed
      ensures q in runs.deliveries && runs.deliveries[q].status == if ok then Success else Failed
      ensures forall s :: s in runs.deliveries && s !in old(runs.deliveries) && s != q ==> runs.deliveries[s].status == Skipped
      ensures forall s :: s in old(runs.deliveries) && s != q ==> s in runs.deliveries && runs.deliveries[s] == old(runs.deliveries)[s]
      ensures !faults.AnyFaults? ==> runs.status == old(runs.status)
    {
      if faults.AnyFaults? { Interfere(); }
      StoreOutcome(rows, startIndex, q, ok);
    }

    method StoreOutcome(rows: seq<Write>, startIndex: nat, q: nat, ok: bool)
      requires Inv() && runs.status != Completed
      requires q < |Batches(source, batchSize)| && rows == Batches(source, batchSize)[q]
      requires q in runs.deliveries ==> runs.deliveries[q].status != Success
      requires Sent(sends, q, ok)
      requires ok && DistinctRows(source) ==> forall w :: w in rows ==> Holds(target, w)
      modifies runs`sentCount, runs`failedCount, runs`skippedCount, runs`deliveries
      ensures Inv() && Grows()
      ensures q in runs.deliveries && runs.deliveries[q].status == if ok then Success else Failed
      ensures forall s :: s != q ==> (s in runs.deliveries <==> s in old(runs.deliveries))
      ensures forall s :: s in old(runs.deliveries) && s != q ==> runs.deliveries[s] == old(runs.deliveries)[s]
    {
      RecordStep(DistinctRows(source), Batches(source, batchSize), runs.View(), q, startIndex, ok, target);
      runs.RecordDelivery(Meta(q, startIndex, |rows|), ok);
    }

    // No call may fail without ending the execution.
    predicate Strict(faults: Faults) {
      abortOnError || faults.NoFaults?
    }

    // A flush with the handling of a crash or a throw around it.
    method FlushOrEnd(rows: seq<Write>, startIndex: nat, done: set<int>, faults: Faults, ghost q: nat) returns (ended: bool, abort: bool)
      requires Inv() && runs.status != Completed
      requires startIndex == Start(q, batchSize) < |source| && q < |Batches(source, batchSize)|
      requires rows == Batches(source, batchSize)[q]
      requires DeliveredBefore(runs.deliveries, done, q)
      modifies this, runs
      ensures Inv() && Grows() && runs.status != Completed && runs.cursorOffset == old(runs.cursorOffset)
      ensures !ended ==> q in runs.deliveries && DeliveredBefore(runs.deliveries, done, q + 1)
      ensures OthersStay(old(runs.deliveries), runs.deliveries, q) && (q in done ==> runs.deliveries == old(runs.deliveries))
      ensures CalledOnce(old(sends), sends, q, q in done)
      ensures faults.NoFaults? ==> AllOk(sends, |old(sends)|, |sends|)
      ensures abort ==> !ended && abortOnError && !AllOk(sends, |old(sends)|, |sends|)
      ensures !ended && !abort && Strict(faults) ==> AllOk(sends, |old(sends)|, |sends|)
      ensures !ended && !abort && Strict(faults) && q !in done ==> runs.deliveries[q].status == Success
      ensures !faults.AnyFaults? ==> !ended && runs.status == old(runs.status)
    {
      var end := Flush(rows, startIndex, done, faults, q);
      if end.Threw? { FinalizeThrown(); }
      return !end.Settled?, end.Settled? && end.abort;
    }

    // A cancel the worker notices, and the skips it picks up with it.
    method StopRequested(done: set<int>) returns (stop: bool, done': set<int>)
      requires done <= runs.deliveries.Keys
      ensures stop ==> runs.status == Canceling
      ensures done <= done' <= runs.deliveries.Keys
      ensures forall s :: s in done' && s !in done ==> runs.deliveries[s].status == Skipped
    {
      if * { return false, done; }
      return runs.status == Canceling, done + runs.SkippedSequences();
    }

    // The check before a row or a last batch is taken: true ends the run.
    method ControlCheck(done: set<int>, faults: Faults, ghost q: nat) returns (stop: bool, done': set<int>)
      requires Inv() && runs.status != Completed && DeliveredBefore(runs.deliveries, done, q)
      modifies runs`deliveries, runs`skippedCount, runs`status
      ensures Inv() && Grows() && runs.status != Completed && DeliveredBefore(runs.deliveries, done', q)
      ensures AllStay(old(runs.deliveries), runs.deliveries) && done <= done'
      ensures forall s :: s in done' && s !in done ==> runs.deliveries[s].status == Skipped
      ensures !faults.AnyFaults? && old(runs.status) == Running ==> !stop && runs.status == Running
    {
      if faults.AnyFaults? { Interfere(); }
      stop, done' := StopRequested(done);
      if stop { runs.status := Canceled; }
    }

    // A throw ends the run as canceled when a cancel is pending, else as failed.
    method FinalizeThrown()
      requires Inv()
      modifies runs`status
      ensures Inv()
      ensures runs.status == if old(runs.status) == Canceling || old(runs.status) == Canceled then Canceled else FailedRun
    {
      runs.status := if runs.status in {Canceling, Canceled} then Canceled else FailedRun;
    }

    // Between two calls: the user may act, the process may die, or the next call may
    // throw.
    method Disturbance(faults: Faults) returns (ended: bool)
      requires Inv() && runs.status != Completed
      modifies runs`deliveries, runs`skippedCount, runs`status
      ensures Inv() && Grows() && runs.status != Completed
      ensures AllStay(old(runs.deliveries), runs.deliveries)
      ensures forall s :: s in runs.deliveries && s !in old(runs.deliveries) ==> runs.deliveries[s].status == Skipped
      ensures !faults.AnyFaults? ==> !ended && runs.status == old(runs.status)
    {
      if !faults.AnyFaults? { return false; }
      Interfere();
      if * { return true; }
      if * { FinalizeThrown(); return true; }
      return false;
    }

    // A batch that filled up. The record and the checkpoint are two calls: when the
    // worker ends between them, the batch is stored and the checkpoint still before
    // it. The checkpoint moves past the batch even when its failure ends the run.
    method FlushFull(buffer: seq<Write>, bufferStart: nat, next: nat, done: set<int>, faults: Faults, ghost q: nat) returns (ended: bool)
      requires Inv() && runs.status != Completed
      requires |buffer| == batchSize && bufferStart == Start(q, batchSize) && next == bufferStart + batchSize
      requires next <= |source| && buffer == source[bufferStart..next]
      requires CoveredTo(runs.deliveries, q) && DeliveredBefore(runs.deliveries, done, q)
      modifies this, runs
      ensures Inv() && Grows() && runs.status != Completed
      ensures !ended ==> runs.cursorOffset == next == Start(q + 1, batchSize)
      ensures !ended ==> CoveredTo(runs.deliveries, q + 1) && DeliveredBefore(runs.deliveries, done, q + 1)
      ensures OthersStay(old(runs.deliveries), runs.deliveries, q)
      ensures q in done ==> AllStay(old(runs.deliveries), runs.deliveries)
      ensures CalledOnce(old(sends), sends, q, q in done)
      ensures faults.NoFaults? ==> AllOk(sends, |old(sends)|, |sends|)
      ensures !ended && Strict(faults) ==> AllOk(sends, |old(sends)|, |sends|)
      ensures !ended && Strict(faults) && q !in done ==> q in runs.deliveries && runs.deliveries[q].status == Success
      ensures !faults.AnyFaults? ==>
                && (ended <==> abortOnError && !AllOk(sends, |old(sends)|, |sends|))
                && runs.status == if ended then FailedRun else old(runs.status)
    {
      BatchAt(source, batchSize, q);
      var abort;
      ended, abort := FlushOrEnd(buffer, bufferStart, done, faults, q);
      if ended { return; }
      ended := Checkpoint(next, abort, faults, q);
    }

    // Behind a batch that is stored.
    method Checkpoint(next: nat, abort: bool, faults: Faults, ghost q: nat) returns (ended: bool)
      requires Inv() && runs.status != Completed
      requires next == Start(q + 1, batchSize) <= |source| && CoveredTo(runs.deliveries, q + 1)
      modifies runs`deliveries, runs`skippedCount, runs`status, runs`cursorOffset
      ensures Inv() && Grows() && runs.status != Completed && AllStay(old(runs.deliveries), runs.deliveries)
      ensures forall s :: s in runs.deliveries && s !in old(runs.deliveries) ==> runs.deliveries[s].status == Skipped
      ensures abort ==> ended
      ensures !ended ==> runs.cursorOffset == next
      ensures !faults.AnyFaults? ==> ended == abort && runs.status == if abort then FailedRun else old(runs.status)
    {
      ended := Disturbance(faults);
      if ended { return; }
      runs.cursorOffset := next;
      if abort {
        EndFailed(faults);
        ended := true;
      }
    }

    // The run fails on its failed delivery, unless something is quicker.
    method EndFailed(faults: Faults)
      requires Inv() && runs.status != Completed
      modifies runs`deliveries, runs`skippedCount, runs`status
      ensures Inv() && Grows() && runs.status != Completed
      ensures AllStay(old(runs.deliveries), runs.deliveries)
      ensures forall s :: s in runs.deliveries && s !in old(runs.deliveries) ==> runs.deliveries[s].status == Skipped
      ensures !faults.AnyFaults? ==> runs.status == FailedRun
    {
      var ended := Disturbance(faults);
      if !ended { runs.status := FailedRun; }
    }

    // The stream is exhausted: the run completed, unless a cancel is noticed or the
    // worker ends before it says so.
    method Finish(faults: Faults, ghost q: nat)
      requires Inv() && runs.status != Completed && CoveredTo(runs.deliveries, q) && Start(q, batchSize) >= |source|
      modifies runs`deliveries, runs`skippedCount, runs`status
      ensures Inv() && Grows() && AllStay(old(runs.deliveries), runs.deliveries)
      ensures !faults.AnyFaults? && old(runs.status) == Running ==> runs.status == Completed
    {
      BatchExists(source, batchSize, q);
      var ended := Disturbance(faults);
      if ended { return; }
      var stop, _ := StopRequested({});
      runs.status := if stop then Canceled else Completed;
    }

    // The rows left over when the stream ends.
    method FlushRest(buffer: seq<Write>, bufferStart: nat, done: set<int>, faults: Faults, ghost q: nat)
      returns (ended: bool, ghost done': set<int>)
      requires Inv() && runs.status != Completed
      requires 0 < |buffer| < batchSize && bufferStart == Start(q, batchSize)
      requires bufferStart <= |source| && buffer == source[bufferStart..]
      requires DeliveredBefore(runs.deliveries, done, q)
      modifies this, runs
      ensures Inv() && Grows() && runs.status != Completed
      ensures !ended ==> q in runs.deliveries && Start(q + 1, batchSize) >= |source|
      ensures OthersStay(old(runs.deliveries), runs.deliveries, q)
      ensures q in done ==> AllStay(old(runs.deliveries), runs.deliveries)
      ensures done <= done' && forall s :: s in done' && s !in done ==> s in runs.deliveries && runs.deliveries[s].status == Skipped
      ensures sends == old(sends) || CalledOnce(old(sends), sends, q, q in done')
      ensures !ended ==> CalledOnce(old(sends), sends, q, q in done')
      ensures faults.NoFaults? ==> AllOk(sends, |old(sends)|, |sends|)
      ensures !ended && Strict(faults) ==> AllOk(sends, |old(sends)|, |sends|)
      ensures !ended && Strict(faults) && q !in done' ==> runs.deliveries[q].status == Success
      ensures !faults.AnyFaults? && old(runs.status) == Running ==>
                && (ended <==> abortOnError && !AllOk(sends, |old(sends)|, |sends|))
                && runs.status == if ended then FailedRun else Running
    {
      var stop, known := ControlCheck(done, faults, q);
      done' := known;
      if stop { return true, done'; }
      BatchAt(source, batchSize, q);
      var abort;
      ended, abort := FlushOrEnd(buffer, bufferStart, known, faults, q);
      if abort {
        EndFailed(faults);
        ended := true;
      }
    }

    ghost predicate GoesOn(faults: Faults, from: nat, rows: Rows, done: set<int>, first: int, q: int)
      reads this, runs
    {
      && RowsOn(Strict(faults), rows, runs.deliveries, done, first, q)
      && CallsOn(Strict(faults), sends, from, rows, done, first, q)
      && (!faults.AnyFaults? ==> runs.status == Running)
    }

    // The execution that began at batch `first` and call `from` is over.
    ghost predicate Over(faults: Faults, from: nat, rows: Rows, first: int)
      reads this, runs
    {
      batchSize > 0 &&
      Executed(faults, abortOnError, |Batches(source, batchSize)|, from, rows, first, sends, runs.deliveries, runs.status)
    }

    method FinishStream(buffer: seq<Write>, bufferStart: nat, done: set<int>, faults: Faults,
                        ghost from: nat, ghost rows: Rows, ghost first: nat, ghost q: nat)
      requires Inv() && runs.status != Completed
      requires |buffer| < batchSize && bufferStart == Start(q, batchSize)
      requires bufferStart <= |source| && buffer == source[bufferStart..]
      requires CoveredTo(runs.deliveries, q) && DeliveredBefore(runs.deliveries, done, q)
      requires GoesOn(faults, from, rows, done, first, q)
      modifies this, runs
      ensures Inv() && Grows() && Over(faults, from, rows, first)
    {
      BatchExists(source, batchSize, q);
      if |buffer| == 0 {
        EndStream(faults, from, rows, done, first, q);
      } else {
        BatchExists(source, batchSize, q + 1);
        var ended, known := FlushLast(buffer, bufferStart, done, faults, from, rows, first, q);
        if !ended {
          EndStream(faults, from, rows, known, first, q + 1);
        }
      }
    }

    method EndStream(faults: Faults, ghost from: nat, ghost rows: Rows, ghost done: set<int>, ghost first: nat, ghost q: nat)
      requires Inv() && runs.status != Completed && GoesOn(faults, from, rows, done, first, q)
      requires CoveredTo(runs.deliveries, q) && Start(q, batchSize) >= |source|
      modifies this, runs
      ensures Inv() && Grows() && Over(faults, from, rows, first)
    {
      ghost var now := runs.deliveries;
      BatchExists(source, batchSize, q);
      Finish(faults, q);
      EndsAtEnd(faults, abortOnError, |Batches(source, batchSize)|, from, rows, done, first, q, sends, now, runs.deliveries, runs.status);
    }

    method FlushLast(buffer: seq<Write>, bufferStart: nat, done: set<int>, faults: Faults,
                     ghost from: nat, ghost rows: Rows, ghost first: nat, ghost q: nat)
      returns (ended: bool, ghost done': set<int>)
      requires Inv() && runs.status != Completed
      requires 0 < |buffer| < batchSize && bufferStart == Start(q, batchSize) && q < |Batches(source, batchSize)|
      requires bufferStart <= |source| && buffer == source[bufferStart..]
      requires DeliveredBefore(runs.deliveries, done, q) && CoveredTo(runs.deliveries, q)
      requires GoesOn(faults, from, rows, done, first, q)
      modifies this, runs
      ensures Inv() && Grows() && (ended ==> Over(faults, from, rows, first))
      ensures !ended ==> runs.status != Completed && GoesOn(faults, from, rows, done', first, q + 1)
      ensures !ended ==> CoveredTo(runs.deliveries, q + 1) && Start(q + 1, batchSize) >= |source|
    {
      ghost var calls, before := sends, runs.deliveries;
      ended, done' := FlushRest(buffer, bufferStart, done, faults, q);
      CallsWait(Strict(faults), calls, from, rows, done, done', first, q);
      if ended {
        EndsEarly(faults, abortOnError, |Batches(source, batchSize)|, from, rows, done', first, q, calls, sends, runs.deliveries, runs.status);
      } else {
        CallsFlush(Strict(faults), calls, sends, from, rows, done', first, q);
        RowsRest(Strict(faults), rows, before, runs.deliveries, done, done', first, q);
      }
    }

    // Waiting for the next row of the stream: the process may die, the read may
    // throw, or the control check may end the run.
    method AwaitRow(done: set<int>, faults: Faults, ghost q: nat) returns (ended: bool, done': set<int>)
      requires Inv() && runs.status != Completed && DeliveredBefore(runs.deliveries, done, q)
      modifies runs`deliveries, runs`skippedCount, runs`status
      ensures Inv() && Grows() && runs.status != Completed && DeliveredBefore(runs.deliveries, done', q)
      ensures AllStay(old(runs.deliveries), runs.deliveries) && done <= done'
      ensures forall s :: s in done' && s !in done ==> runs.deliveries[s].status == Skipped
      ensures !faults.AnyFaults? && old(runs.status) == Running ==> !ended && runs.status == Running
    {
      done' := done;
      ended := Disturbance(faults);
      if !ended { ended, done' := ControlCheck(done, faults, q); }
    }

    // One turn of the loop: the row joins the buffer, a full buffer is flushed.
    method TakeRow(index: nat, buffer: seq<Write>, bufferStart: nat, done: set<int>, faults: Faults,
                   ghost from: nat, ghost rows: Rows, ghost first: nat, ghost q: nat)
      returns (ended: bool, buffer': seq<Write>, bufferStart': nat, done': set<int>, ghost q': nat)
      requires Streaming(index, buffer, bufferStart, done, q) && index < |source|
      requires GoesOn(faults, from, rows, done, first, q)
      modifies this, runs
      ensures Inv() && Grows()
      ensures !ended ==> Streaming(index + 1, buffer', bufferStart', done', q') && GoesOn(faults, from, rows, done', first, q')
      ensures ended ==> Over(faults, from, rows, first)
    {
      bufferStart', q' := bufferStart, q;
      buffer' := buffer + [source[index]];
      assert buffer' == source[bufferStart..index + 1];
      ended, done' := NextRow(index, buffer, bufferStart, done, faults, from, rows, first, q);
      if !ended && |buffer'| == batchSize {
        ended := FlushBatch(buffer', bufferStart, index + 1, done', faults, from, rows, first, q);
        buffer', bufferStart', q' := [], index + 1, q + 1;
      }
    }

    method NextRow(index: nat, buffer: seq<Write>, bufferStart: nat, done: set<int>, faults: Faults,
                   ghost from: nat, ghost rows: Rows, ghost first: nat, ghost q: nat)
      returns (ended: bool, done': set<int>)
      requires Streaming(index, buffer, bufferStart, done, q) && index < |source|
      requires GoesOn(faults, from, rows, done, first, q)
      modifies runs`deliveries, runs`skippedCount, runs`status
      ensures Inv() && Grows() && runs.cursorOffset == old(runs.cursorOffset)
      ensures !ended ==> Streaming(index, buffer, bufferStart, done', q) && GoesOn(faults, from, rows, done', first, q)
      ensures ended ==> Over(faults, from, rows, first)
    {
      ghost var before := runs.deliveries;
      BatchExists(source, batchSize, q);
      ended, done' := AwaitRow(done, faults, q);
      RowsWait(Strict(faults), rows, before, runs.deliveries, done, done', first, q);
      CallsWait(Strict(faults), sends, from, rows, done, done', first, q);
      if ended {
        EndsEarly(faults, abortOnError, |Batches(source, batchSize)|, from, rows, done, first, q, sends, sends, runs.deliveries, runs.status);
      }
    }

    method FlushBatch(buffer: seq<Write>, bufferStart: nat, next: nat, done: set<int>, faults: Faults,
                      ghost from: nat, ghost rows: Rows, ghost first: nat, ghost q: nat) returns (ended: bool)
      requires Inv() && runs.status != Completed && GoesOn(faults, from, rows, done, first, q)
      requires |buffer| == batchSize && bufferStart == Start(q, batchSize) && next == bufferStart + batchSize
      requires next <= |source| && buffer == source[bufferStart..next]
      requires CoveredTo(runs.deliveries, q) && DeliveredBefore(runs.deliveries, done, q)
      modifies this, runs
      ensures Inv() && Grows() && runs.status != Completed
      ensures !ended ==> Streaming(next, [], next, done, q + 1) && GoesOn(faults, from, rows, done, first, q + 1)
      ensures ended ==> Over(faults, from, rows, first)
    {
      ghost var calls, before := sends, runs.deliveries;
      BatchExists(source, batchSize, q);
      ended := FlushFull(buffer, bufferStart, next, done, faults, q);
      if ended {
        EndsEarly(faults, abortOnError, |Batches(source, batchSize)|, from, rows, done, first, q, calls, sends, runs.deliveries, runs.status);
      } else {
        CallsFlush(Strict(faults), calls, sends, from, rows, done, first, q);
        RowsFlush(Strict(faults), rows, before, runs.deliveries, done, first, q);
      }
    }

    // The worker's locals between two rows.
    ghost predicate Streaming(index: nat, buffer: seq<Write>, bufferStart: nat, done: set<int>, q: nat)
      reads this, runs
    {
      && Inv() && runs.status != Completed
      && bufferStart <= index <= |source|
      && runs.cursorOffset == bufferStart == Start(q, batchSize) && CoveredTo(runs.deliveries, q)
      && buffer == source[bufferStart..index] && |buffer| < batchSize
      && DeliveredBefore(runs.deliveries, done, q)
    }

    method Execute(faults: Faults)
      requires Inv()
      modifies this, runs
      ensures Inv() && Grows()
      ensures exists first: nat :: old(runs.cursorOffset) == Start(first, batchSize)
                                   && Over(faults, |old(sends)|, old(runs.deliveries), first)
    {
      runs.status := Running;
      var done := runs.SettledSequences();
      ghost var first: nat :| runs.cursorOffset == Start(first, batchSize) && CoveredTo(runs.deliveries, first);
      Begins(Strict(faults), runs.deliveries, done, sends, first);
      StreamFrom(done, faults, |sends|, runs.deliveries, first);
    }

    // The stream from the checkpoint on.
    method StreamFrom(done: set<int>, faults: Faults, ghost from: nat, ghost rows: Rows, ghost first: nat)
      requires Streaming(runs.cursorOffset, [], runs.cursorOffset, done, first) && GoesOn(faults, from, rows, done, first, first)
      modifies this, runs
      ensures Inv() && Grows() && Over(faults, from, rows, first)
    {
      var buffer: seq<Write>, known := [], done;
      var bufferStart := runs.cursorOffset;
      var index := bufferStart;
      ghost var q := first;
      while index < |source|
        invariant Streaming(index, buffer, bufferStart, known, q) && Grows()
        invariant GoesOn(faults, from, rows, known, first, q)
      {
        var ended;
        ended, buffer, bufferStart, known, q := TakeRow(index, buffer, bufferStart, known, faults, from, rows, first, q);
        if ended { return; }
        index := index + 1;
      }
      FinishStream(buffer, bufferStart, known, faults, from, rows, first, q);
    }

    // A run that ended is left alone, and one that is being canceled just ends.
    method Process(faults: Faults)
      requires Inv()
      modifies this, runs
      ensures Inv() && Grows()
      ensures old(runs.Terminal()) || old(runs.status) == Canceling ==>
                && runs.status == (if old(runs.status) == Canceling then Canceled else old(runs.status))
                && runs.View() == old(runs.View()) && runs.cursorOffset == old(runs.cursorOffset)
                && sends == old(sends) && target == old(target)
      ensures old(runs.status) in {Queued, Running, Paused} ==>
                exists first: nat :: old(runs.cursorOffset) == Start(first, batchSize)
                                     && Over(faults, |old(sends)|, old(runs.deliveries), first)
    {
      if runs.Terminal() { return; }
      if runs.status == Canceling {
        runs.status := Canceled;
        return;
      }
      Execute(faults);
    }

    /** A retry of the failed deliveries that nothing disturbs leaves none: every
        batch is delivered or skipped, and the failed count is back at zero. */
    method RetryCalmly() returns (refused: bool)
      requires Inv()
      modifies this, runs
      ensures Inv() && Grows()
      ensures refused <==> !old(runs.Terminal()) || old(runs.NoneFailed())
      ensures !refused ==> runs.status == Completed && runs.NoneFailed() && runs.failedCount == 0
    {
      refused := runs.RetryFailed();
      if refused { return; }
      assert 0 == Start(0, batchSize) && CoveredTo(runs.deliveries, 0);
      ghost var rows, from := runs.deliveries, |sends|;
      Process(NoFaults);
      ghost var first: nat :| 0 == Start(first, batchSize) && Over(NoFaults, from, rows, first);
      assert first == 0;
      NoneOfStatus(runs.deliveries, runs.deliveries.Keys, Failed);
    }

    /** Any history of executions, crashes, cancels, skips, resumes and retries
        of failed deliveries. */
    method History(steps: nat)
      requires Inv()
      modifies this, runs
      ensures Inv() && Grows()
    {
      for i := 0 to steps
        invariant Inv() && Grows()
      {
        var choice: nat := *;
        match choice {
          case 0 => Process(AnyFaults);
          case 1 => Interfere();
          case 2 => var _ := runs.Resume();
          case _ =>
            var _ := runs.RetryFailed();
            assert 0 == Start(0, batchSize) && CoveredTo(runs.deliveries, 0);
        }
      }
    }
  }

  /* ----- what any reachable state tells ----- */

  /** Replay coverage: the checkpoint is batch-aligned, below it nothing is
      missing, and a completed run has a delivery row for the batch of every row
      of the source. */
  lemma Coverage(p: HookRunProcessor)
    requires p.Inv()
    ensures exists q :: p.runs.cursorOffset == q * p.batchSize
    ensures forall i :: 0 <= i < p.runs.cursorOffset ==> i / p.batchSize in p.runs.deliveries
    ensures p.runs.status == Completed ==> forall i :: 0 <= i < |p.source| ==> i / p.batchSize in p.runs.deliveries
  {
    var b, c := p.batchSize, p.runs.cursorOffset;
    var q: nat :| c == Start(q, b) && CoveredTo(p.runs.deliveries, q);
    StartIsProduct(q, b);
    forall i | 0 <= i < |p.source| ensures 0 <= i / b < |Batches(p.source, b)| && (i < c ==> i / b < q) {
      RowInBatch(p.source, b, i);
      BatchBelow(i, q, b);
    }
  }

  lemma BatchBelow(i: nat, q: nat, b: nat)
    requires b > 0
    ensures i < Start(q, b) <==> i / b < q
  {
    StartOfSequence(i, b);
    if q < i / b { StartsGrow(q, i / b, b); }
    if i / b < q { StartsGrow(i / b, q, b); }
  }

  /** Idempotency keys are faithful: sends under one key carry the same slice of
      the source, and none was made for a sequence already stored as delivered. */
  lemma SameKeySameRows(p: HookRunProcessor, i: nat, j: nat)
    requires p.Inv() && i < |p.sends| && j < |p.sends| && p.sends[i].sequence == p.sends[j].sequence
    ensures p.sends[i].rows == p.sends[j].rows && !p.sends[i].delivered
    ensures var start := p.sends[i].sequence * p.batchSize;
            && 0 <= start <= start + |p.sends[i].rows| <= |p.source|
            && p.sends[i].rows == p.source[start..start + |p.sends[i].rows|]
  {
    var s := p.sends[i].sequence;
    BatchExists(p.source, p.batchSize, s);
    BatchAt(p.source, p.batchSize, s);
    StartIsProduct(s, p.batchSize);
  }

  // A call for sequence s carried the row, and the sink reported this outcome.
  predicate Carried(sends: seq<Send>, s: int, w: Write, ok: bool) {
    exists j :: 0 <= j < |sends| && sends[j].sequence == s && sends[j].ok == ok && w in sends[j].rows
  }

  lemma CarriedBy(p: HookRunProcessor, s: nat, w: Write)
    requires p.Inv() && s < |Batches(p.source, p.batchSize)| && w in Batches(p.source, p.batchSize)[s]
    requires s in p.runs.deliveries && p.runs.deliveries[s].status != Skipped
    ensures Carried(p.sends, s, w, p.runs.deliveries[s].status == Success)
  {
    var j :| 0 <= j < |p.sends| && p.sends[j].sequence == s && p.sends[j].ok == (p.runs.deliveries[s].status == Success);
    assert p.sends[j].rows == Batches(p.source, p.batchSize)[s];
  }

  // The writes of the rows, in order.
  function WritesOf(rows: seq<TablePaging.Row>, write: TablePaging.Row -> Write): (r: seq<Write>)
    ensures |r| == |rows| && forall i :: 0 <= i < |r| ==> r[i] == write(rows[i])
  {
    seq(|rows|, i requires 0 <= i < |rows| => write(rows[i]))
  }

  /** What the worker reads. In every state of a run over the selected rows of a
      table, both paging loops, started at the checkpoint, stream the same items:
      the rest of the source in order, each row under its own index. */
  lemma StreamIsSource(p: HookRunProcessor, selected: seq<TablePaging.Row>, write: TablePaging.Row -> Write)
    requires p.Inv() && p.source == WritesOf(selected, write)
    ensures var start, items := p.runs.cursorOffset, TablePaging.KeysetItems(selected, p.runs.cursorOffset);
            && items == TablePaging.OffsetItems(selected, start) && |items| == |p.source| - start
            && forall i :: 0 <= i < |items| ==> items[i].index == start + i && write(items[i].row) == p.source[start + i]
  {
    TablePaging.BothYieldRest(selected, p.runs.cursorOffset);
  }

  /** Delivery is at least once: in every state, a row of the source whose batch is
      recorded as delivered was handed to the sink in a call that reported success,
      one recorded as failed in a call that did not, and when the run is completed
      every row was either handed over or skipped. */
  lemma AtLeastOnce(p: HookRunProcessor, i: nat, s: nat)
    requires p.Inv() && i < |p.source| && s == i / p.batchSize
    ensures s in p.runs.deliveries && p.runs.deliveries[s].status != Skipped ==>
              Carried(p.sends, s, p.source[i], p.runs.deliveries[s].status == Success)
    ensures p.runs.status == Completed ==> s in p.runs.deliveries
  {
    RowInBatch(p.source, p.batchSize, i);
    if s in p.runs.deliveries && p.runs.deliveries[s].status != Skipped {
      CarriedBy(p, s, p.source[i]);
    }
  }

  /** A run in which every batch ended delivered has counted every row once and
      shows the whole source in a target keyed by it, whatever was retried. */
  lemma DeliveredRunIsWhole(p: HookRunProcessor)
    requires p.Inv() && p.runs.status == Completed
    requires forall s :: s in p.runs.deliveries ==> p.runs.deliveries[s].status == Success
    ensures p.runs.sentCount == |p.source| && p.runs.failedCount == 0 && p.runs.skippedCount == 0
    ensures DistinctRows(p.source) ==> forall w :: w in p.source ==> Holds(p.target, w)
  {
    var rows := p.runs.deliveries;
    CountersOf(p);
    NoneOfStatus(rows, rows.Keys, Failed);
    NoneOfStatus(rows, rows.Keys, Skipped);
    if DistinctRows(p.source) {
      forall i | 0 <= i < |p.source| ensures Holds(p.target, p.source[i]) {
        CompletedShows(p, i, i / p.batchSize);
      }
    }
  }

  lemma CompletedShows(p: HookRunProcessor, i: nat, s: nat)
    requires p.Inv() && p.runs.status == Completed && DistinctRows(p.source)
    requires forall r :: r in p.runs.deliveries ==> p.runs.deliveries[r].status == Success
    requires i < |p.source| && s == i / p.batchSize
    ensures Holds(p.target, p.source[i])
  {
    RowInBatch(p.source, p.batchSize, i);
    RowShown(p, s, p.source[i]);
  }

  lemma RowShown(p: HookRunProcessor, s: nat, w: Write)
    requires p.Inv() && DistinctRows(p.source)
    requires s < |Batches(p.source, p.batchSize)| && w in Batches(p.source, p.batchSize)[s]
    requires s in p.runs.deliveries && p.runs.deliveries[s].status == Success
    ensures Holds(p.target, w)
  {
  }

  /** Counter conservation: in every state each counter is the sum of the row
      counts of its status, and once a completed run has rows for its batches
      only, the three counters add up to the source. */
  lemma CountersOf(p: HookRunProcessor)
    requires p.Inv()
    ensures Conserved(p.runs.View())
    ensures p.runs.status == Completed && (forall s :: s in p.runs.deliveries ==> 0 <= s < |Batches(p.source, p.batchSize)|) ==>
              p.runs.sentCount + p.runs.failedCount + p.runs.skippedCount == |p.source|
  {
    var n, b, rows := |p.source|, p.batchSize, p.runs.deliveries;
    BatchCount(p.source, b);
    forall s | s in rows && 0 <= s < |Batches(p.source, b)| ensures rows[s].rowCount == BatchRows(n, b, s) {
      BatchSize(p.source, b, s);
    }
    if p.runs.status == Completed && forall s :: s in rows ==> 0 <= s < |Batches(p.source, b)| {
      CompletedCountersAddUp(p.runs.View(), n, b);
    }
  }

  lemma {:induction false} NoneOfStatus(rows: Rows, over: set<int>, st: DeliveryStatus)
    requires over <= rows.Keys && forall s :: s in over ==> rows[s].status != st
    ensures Sum(rows, over, st) == 0
  {
    if exists s :: s in over {
      var s :| s in over;
      SumTake(rows, over, st, s);
      NoneOfStatus(rows, over - {s}, st);
    }
  }
}
