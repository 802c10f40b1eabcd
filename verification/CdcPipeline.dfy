// The change pipeline of event-based hooks: drop replays by watermark, number
// each change, deliver it, record it, persist the resume cursor.
//
// `State` holds what survives a crash (the run row, the delivery rows and the
// target table) next to what does not (the live stream). A history is any
// sequence of events: stream starts, stops and crashes, and emissions by the
// provider, each with any outcome of its sink call and of its three database
// writes, and with a crash possible between any two of them.
module CdcPipeline {
  import opened Wrappers
  import opened KeyedTable
  import opened MysqlCursor

  datatype Change = Change(cursor: Position, write: Write)

  datatype Status = Success | Failed
  datatype Delivery = Delivery(change: Change, status: Status)

  // The resume columns of hook_runs, always written together.
  datatype RunRow = RunRow(cursorOffset: nat, cursor: Option<Position>)

  datatype Stream = Stream(sequence: nat, watermark: Option<Position>)

  datatype State = State(
    run: RunRow,
    deliveries: map<nat, Delivery>,
    stream: Option<Stream>,
    target: Table,
    // history: the changes let through in this life of the stream, and those whose
    // write ever reached the target
    passed: seq<Change>,
    reached: set<Change>)

  // What the sink did with one change: wrote it and said so, answered with a failed
  // outcome, or threw. The target stands for any one target of the destination, and
  // one outcome speaks for all of them: a failed one, or a throw, may come after
  // this target was written.
  datatype SinkResult = Wrote | Refused(wrote: bool) | Threw(wrote: bool)

  datatype Death = Survives | AfterSink | AfterRecord | AfterFailureRecord

  datatype Env = Env(sink: SinkResult, recordOk: bool, persistOk: bool, failureRecordOk: bool, death: Death)

  predicate IsAfter(a: Position, b: Option<Position>) {
    b.None? || After(a, b.value)
  }

  function Reached(sink: SinkResult): bool {
    sink.Wrote? || sink.wrote
  }

  function Dead(s: State): State {
    s.(stream := None)
  }

  function Record(s: State, sequence: nat, change: Change, status: Status): State {
    s.(deliveries := s.deliveries[sequence := Delivery(change, status)])
  }

  function Delivered(s: State, change: Change, env: Env): State {
    s.(passed := s.passed + [change],
       target := if Reached(env.sink) then Apply(s.target, change.write) else s.target,
       reached := if Reached(env.sink) then s.reached + {change} else s.reached)
  }

  /** One change through the pipeline; `None` as stream means it was stopped while queued. */
  function Handle(s: State, change: Change, env: Env): State {
    if s.stream.None? || !IsAfter(change.cursor, s.stream.value.watermark) then s
    else
      var sequence := s.stream.value.sequence;
      var advanced := Some(Stream(sequence + 1, Some(change.cursor)));
      var s1 := Delivered(s, change, env);
      if env.death == AfterSink then Dead(s1)
      else if env.sink.Threw? || !env.recordOk then HandleFailure(s1, sequence, change, env)
      else
        var s2 := Record(s1, sequence, change, if env.sink.Wrote? then Success else Failed);
        if env.death == AfterRecord then Dead(s2)
        else
          var s3 := s2.(stream := advanced);
          if env.persistOk then s3.(run := RunRow(sequence + 1, Some(change.cursor)))
          else HandleFailure(s3, sequence, change, env)
  }

  /** The catch block: the change becomes a failed delivery row, or the stream is torn down. */
  function HandleFailure(s: State, sequence: nat, change: Change, env: Env): State {
    if !env.failureRecordOk then Dead(s)
    else
      var s1 := Record(s, sequence, change, Failed);
      if env.death == AfterFailureRecord then Dead(s1)
      else s1.(stream := Some(Stream(sequence + 1, Some(change.cursor))))
  }

  function Begin(s: State): State {
    if s.stream.Some? then s
    else s.(stream := Some(Stream(s.run.cursorOffset, s.run.cursor)), passed := [])
  }

  /* ----- the service, in its own form ----- */

  class HookCdcService {
    var cursorOffset: nat
    var cursorJson: Option<Position>
    var deliveries: map<nat, Delivery>
    var stream: Option<Stream>
    var target: Table
    ghost var passed: seq<Change>
    ghost var reached: set<Change>

    ghost function View(): State
      reads this
    {
      State(RunRow(cursorOffset, cursorJson), deliveries, stream, target, passed, reached)
    }

    constructor (t: Table)
      ensures View() == Init(t)
    {
      cursorOffset, cursorJson, deliveries, stream, target := 0, None, map[], None, t;
      passed, reached := [], {};
    }

    method BeginStream() returns (conflict: bool)
      modifies this
      ensures conflict <==> old(stream.Some?)
      ensures View() == Begin(old(View()))
    {
      if stream.Some? { return true; }
      stream := Some(Stream(cursorOffset, cursorJson));
      passed := [];
      return false;
    }

    method Teardown()
      modifies this
      ensures View() == Dead(old(View()))
    {
      stream := None;
    }

    method RecordDelivery(sequence: nat, change: Change, status: Status)
      modifies this
      ensures View() == Record(old(View()), sequence, change, status)
    {
      deliveries := deliveries[sequence := Delivery(change, status)];
    }

    method ProcessChange(change: Change, env: Env)
      modifies this
      ensures View() == Handle(old(View()), change, env)
    {
      if stream.None? { return; }
      if !IsAfter(change.cursor, stream.value.watermark) { return; }
      var sequence := stream.value.sequence;
      passed := passed + [change];
      if Reached(env.sink) {
        target := Apply(target, change.write);
        reached := reached + {change};
      }
      if env.death == AfterSink { Teardown(); return; }
      var failed := env.sink.Threw? || !env.recordOk;
      if !failed {
        RecordDelivery(sequence, change, if env.sink.Wrote? then Success else Failed);
        if env.death == AfterRecord { Teardown(); return; }
        stream := Some(Stream(sequence + 1, Some(change.cursor)));
        if env.persistOk {
          cursorOffset, cursorJson := sequence + 1, Some(change.cursor);
        } else {
          failed := true;
        }
      }
      if failed {
        if !env.failureRecordOk { Teardown(); return; }
        RecordDelivery(sequence, change, Failed);
        if env.death == AfterFailureRecord { Teardown(); return; }
        stream := Some(Stream(sequence + 1, Some(change.cursor)));
      }
    }
  }

  /* ----- histories ----- */

  // `next` is how far the provider has emitted in this life, `high` the number
  // of changes ever handed to the sink.
  datatype World = World(s: State, next: nat, high: nat)

  datatype Event = Start | Emit(i: nat, env: Env) | Stop

  function Init(t: Table): State {
    State(RunRow(0, None), map[], None, t, [], {})
  }

  // Cursors strictly increase along the log.
  ghost predicate Increasing(log: seq<Change>) {
    forall i, j :: 0 <= i < j < |log| ==> After(log[j].cursor, log[i].cursor)
  }

  // The provider's contract on start: continue with the first change after the
  // resume cursor, or at the origin of the log without one.
  function ResumeIndex(log: seq<Change>, cursor: Option<Position>): nat {
    if |log| == 0 || IsAfter(log[0].cursor, cursor) then 0
    else 1 + ResumeIndex(log[1..], cursor)
  }

  // While live it emits the log in order; a reconnect may go back any distance
  // but never skips ahead. Any other event cannot happen and changes nothing.
  function Step(log: seq<Change>, w: World, e: Event): World {
    match e
    case Start =>
      if w.s.stream.Some? then w
      else World(Begin(w.s), ResumeIndex(log, w.s.run.cursor), w.high)
    case Emit(i, env) =>
      if w.s.stream.None? || i > w.next || i >= |log| then w
      else
        var next := if i == w.next then i + 1 else w.next;
        World(Handle(w.s, log[i], env), next, Max(next, w.high))
    case Stop => w.(s := Dead(w.s))
  }

  function Max(a: nat, b: nat): nat {
    if a > b then a else b
  }

  function Play(log: seq<Change>, w: World, events: seq<Event>): World {
    if |events| == 0 then w
    else Step(log, Play(log, w, events[..|events| - 1]), events[|events| - 1])
  }

  function Writes(log: seq<Change>): seq<Write> {
    seq(|log|, i requires 0 <= i < |log| => log[i].write)
  }

  /* ----- what every history keeps ----- */

  function CursorAt(log: seq<Change>, n: nat): Option<Position>
    requires n <= |log|
  {
    if n == 0 then None else Some(log[n - 1].cursor)
  }

  ghost predicate Numbered(log: seq<Change>, s: State) {
    && s.run.cursorOffset <= |log|
    && s.run.cursor == CursorAt(log, s.run.cursorOffset)
    && (forall k :: k in s.deliveries ==> k < |log| && s.deliveries[k].change == log[k])
    && (forall k :: 0 <= k < s.run.cursorOffset ==> k in s.deliveries)
  }

  ghost predicate Live(log: seq<Change>, w: World)
    requires w.s.stream.Some?
  {
    var st := w.s.stream.value;
    && st.sequence <= |log|
    && st.watermark == CursorAt(log, st.sequence)
    && w.s.run.cursorOffset <= st.sequence <= w.high
    && w.next == st.sequence
    && |w.s.passed| <= st.sequence
    && w.s.passed == log[st.sequence - |w.s.passed|..st.sequence]
    && (forall k :: 0 <= k < st.sequence ==> k in w.s.deliveries)
  }

  // How much of the log has been processed: the live stream's position, or the
  // persisted one when no stream is live.
  function Done(s: State): nat {
    if s.stream.Some? then s.stream.value.sequence else s.run.cursorOffset
  }

  // Replaying the log from `j` to any point at or past everything ever
  // delivered gives the content the log applied once gives.
  ghost predicate Recoverable(ws: seq<Write>, k: Key, j: nat, high: nat, cell: Cell, start: Cell)
    requires j <= |ws|
  {
    forall n {:trigger ws[j..n]} :: j <= n <= |ws| && high <= n ==>
      Fold(cell, ws[j..n], k) == Fold(start, ws[..n], k)
  }

  ghost predicate Placed(log: seq<Change>, w: World) {
    && Numbered(log, w.s)
    && w.s.run.cursorOffset <= w.high <= |log|
    && (w.s.stream.Some? ==> Live(log, w))
  }

  // The writes of the log as key k should see them when only the changes in
  // `kept` ever reach the target: the others go to a key of their own.
  function Muted(log: seq<Change>, kept: set<Change>, k: Key): (ws: seq<Write>)
    ensures |ws| == |log|
    ensures forall i :: 0 <= i < |log| ==> ws[i] == MutedWrite(log[i], kept, k)
  {
    seq(|log|, i requires 0 <= i < |log| => MutedWrite(log[i], kept, k))
  }

  function MutedWrite(change: Change, kept: set<Change>, k: Key): (w: Write)
    ensures change !in kept ==> w.key != k
  {
    if change in kept then change.write else Write(k + [Null], change.write.op)
  }

  // Below j every change of key k that ever reaches the target is stored as a
  // success.
  ghost predicate RowsTrue(log: seq<Change>, rows: map<nat, Delivery>, kept: set<Change>, k: Key, j: nat)
    requires j <= |log|
  {
    forall i :: 0 <= i < j && log[i].write.key == k && log[i] in kept ==> i in rows && rows[i].status == Success
  }

  // What a resume from j needs, as far as only changes in `kept` get through.
  ghost predicate Recovers(log: seq<Change>, t0: Table, rows: map<nat, Delivery>, target: Table, high: nat, j: nat, kept: set<Change>)
    requires j <= |log|
  {
    forall k :: RowsTrue(log, rows, kept, k, j) ==>
      Recoverable(Muted(log, kept, k), k, j, high, CellOf(target, k), CellOf(t0, k))
  }

  ghost predicate ResumesFrom(log: seq<Change>, t0: Table, w: World, j: nat, kept: set<Change>) {
    j <= |log| && (w.s.reached <= kept ==> Recovers(log, t0, w.s.deliveries, w.s.target, w.high, j, kept))
  }

  ghost predicate Resumable(log: seq<Change>, t0: Table, w: World, kept: set<Change>) {
    ResumesFrom(log, t0, w, w.s.run.cursorOffset, kept) && ResumesFrom(log, t0, w, Done(w.s), kept)
  }

  ghost predicate Inv(log: seq<Change>, t0: Table, w: World, kept: set<Change>) {
    Placed(log, w) && Resumable(log, t0, w, kept)
  }

  // The text of a position a provider printed.
  predicate Printable(a: Position) {
    a.pos >= 0 && a.row >= 0
  }

  function Printed(a: Position): string
    requires Printable(a)
  {
    Print(a.file, a.pos, a.row)
  }

  /** The watermark test on positions is the provider's on their text. */
  lemma WatermarkIsText(num: JsNumber, a: Position, b: Option<Position>)
    requires ReadsDecimals(num) && Printable(a) && (b.Some? ==> Printable(b.value))
    ensures IsAfter(a, b) <==> CursorAfter(num, Printed(a), if b.None? then None else Some(Printed(b.value)))
  {
    if b.Some? {
      PrintedOrder(num, a.file, a.pos, a.row, b.value.file, b.value.pos, b.value.row);
    }
  }

  // The watermark lets through exactly the changes not yet passed.
  lemma WatermarkExact(log: seq<Change>, n: nat, i: nat)
    requires Increasing(log) && n <= |log| && i < |log|
    ensures IsAfter(log[i].cursor, CursorAt(log, n)) <==> i >= n
  {
    if n > 0 {
      StrictTotalOrder(log[i].cursor, log[n - 1].cursor, log[i].cursor);
    }
  }

  lemma {:induction false} ResumesRightAfter(log: seq<Change>, cursor: Option<Position>, n: nat)
    requires n <= |log|
    requires forall i :: 0 <= i < |log| ==> (IsAfter(log[i].cursor, cursor) <==> i >= n)
    ensures ResumeIndex(log, cursor) == n
  {
    if n > 0 {
      forall i | 0 <= i < |log[1..]| ensures IsAfter(log[1..][i].cursor, cursor) <==> i >= n - 1 {
        assert log[1..][i] == log[i + 1];
      }
      ResumesRightAfter(log[1..], cursor, n - 1);
    }
  }

  // Delivering change q, first time or again, keeps every earlier resume point good.
  lemma DeliveryKeepsRecoverable(ws: seq<Write>, k: Key, j: nat, q: nat, high: nat, high': nat, cell: Cell, start: Cell)
    requires j <= q < |ws| && high <= high' && q < high'
    requires Recoverable(ws, k, j, high, cell, start)
    ensures Recoverable(ws, k, j, high', Fold(cell, [ws[q]], k), start)
  {
    forall n {:trigger ws[j..n]} | j <= n <= |ws| && high' <= n
      ensures Fold(Fold(cell, [ws[q]], k), ws[j..n], k) == Fold(start, ws[..n], k)
    {
      assert ws[j..n] == ws[j..q] + [ws[q]] + ws[q + 1..n];
      SegmentAbsorbsCell(ws[j..q], [ws[q]], ws[q + 1..n], k, cell);
    }
  }

  // Having delivered change q, the stream may also resume after it.
  lemma DeliveryAdvances(ws: seq<Write>, k: Key, q: nat, high: nat, high': nat, cell: Cell, start: Cell)
    requires q < |ws| && high <= high' && q < high'
    requires Recoverable(ws, k, q, high, cell, start)
    ensures Recoverable(ws, k, q + 1, high', Fold(cell, [ws[q]], k), start)
  {
    forall n {:trigger ws[q + 1..n]} | q + 1 <= n <= |ws| && high' <= n
      ensures Fold(Fold(cell, [ws[q]], k), ws[q + 1..n], k) == Fold(start, ws[..n], k)
    {
      assert ws[q..n] == [ws[q]] + ws[q + 1..n];
      FoldAppend(cell, [ws[q]], ws[q + 1..n], k);
    }
  }

  lemma InitKeepsInv(log: seq<Change>, t0: Table, kept: set<Change>)
    ensures Inv(log, t0, World(Init(t0), 0, 0), kept)
  {
    forall k ensures Recoverable(Muted(log, kept, k), k, 0, 0, CellOf(t0, k), CellOf(t0, k)) {
      RecoverableAtStart(Muted(log, kept, k), k, CellOf(t0, k));
    }
  }

  lemma RecoverableAtStart(ws: seq<Write>, k: Key, cell: Cell)
    ensures Recoverable(ws, k, 0, 0, cell, cell)
  {
    forall n {:trigger ws[0..n]} | 0 <= n <= |ws| ensures Fold(cell, ws[0..n], k) == Fold(cell, ws[..n], k) {
      assert ws[0..n] == ws[..n];
    }
  }

  lemma StartKeepsPlace(log: seq<Change>, w: World)
    requires Increasing(log) && Placed(log, w)
    ensures Placed(log, Step(log, w, Start))
  {
    var n := w.s.run.cursorOffset;
    forall i | 0 <= i < |log| ensures IsAfter(log[i].cursor, w.s.run.cursor) <==> i >= n {
      WatermarkExact(log, n, i);
    }
    ResumesRightAfter(log, w.s.run.cursor, n);
  }

  lemma StartKeepsInv(log: seq<Change>, t0: Table, w: World, kept: set<Change>)
    requires Increasing(log) && Inv(log, t0, w, kept)
    ensures Inv(log, t0, Step(log, w, Start), kept)
  {
    StartKeepsPlace(log, w);
  }

  // At most the row of this sequence was written, for this change.
  ghost predicate RowWritten(before: map<nat, Delivery>, after: map<nat, Delivery>, sequence: nat, change: Change) {
    && (forall k :: k != sequence ==> (k in after <==> k in before) && (k in before ==> after[k] == before[k]))
    && (sequence in before ==> sequence in after)
    && (sequence in after ==> after[sequence].change == change || (sequence in before && after[sequence] == before[sequence]))
  }

  // Whatever the environment does, a change that passes the watermark leaves
  // the run in one of these shapes ...
  ghost predicate Shape(s: State, change: Change, s': State)
    requires s.stream.Some?
  {
    var sequence := s.stream.value.sequence;
    && s'.passed == s.passed + [change]
    && (s'.stream.None? || s'.stream == Some(Stream(sequence + 1, Some(change.cursor))))
    && (s'.run == s.run || (s'.stream.Some? && s'.run == RunRow(sequence + 1, Some(change.cursor))))
    && RowWritten(s.deliveries, s'.deliveries, sequence, change)
    && (s'.stream.Some? ==> sequence in s'.deliveries)
  }

  // ... and its write on the target; or not, and then, if the stream goes on, the
  // change is stored as failed.
  ghost predicate TargetShape(s: State, change: Change, s': State)
    requires s.stream.Some?
  {
    || (s'.target == Apply(s.target, change.write) && s'.reached == s.reached + {change})
    || (&& s'.target == s.target && s'.reached == s.reached
        && (s'.stream.Some? ==> var q := s.stream.value.sequence; q in s'.deliveries && s'.deliveries[q].status == Failed))
  }

  lemma HandleFailureTarget(s: State, sequence: nat, change: Change, env: Env)
    ensures var s' := HandleFailure(s, sequence, change, env);
            && s'.target == s.target && s'.reached == s.reached
            && (s'.stream.Some? ==> sequence in s'.deliveries && s'.deliveries[sequence].status == Failed)
  {
  }

  lemma HandleTarget(s: State, change: Change, env: Env)
    requires s.stream.Some? && IsAfter(change.cursor, s.stream.value.watermark)
    ensures TargetShape(s, change, Handle(s, change, env))
  {
    var sequence := s.stream.value.sequence;
    var s1 := Delivered(s, change, env);
    HandleFailureTarget(s1, sequence, change, env);
    var s2 := Record(s1, sequence, change, if env.sink.Wrote? then Success else Failed);
    HandleFailureTarget(s2.(stream := Some(Stream(sequence + 1, Some(change.cursor)))), sequence, change, env);
  }

  lemma HandleFailureShape(s0: State, s: State, change: Change, env: Env)
    requires s0.stream.Some? && s.passed == s0.passed + [change] && s.run == s0.run
    requires RowWritten(s0.deliveries, s.deliveries, s0.stream.value.sequence, change)
    ensures Shape(s0, change, HandleFailure(s, s0.stream.value.sequence, change, env))
  {
  }

  lemma HandleShape(s: State, change: Change, env: Env)
    requires s.stream.Some? && IsAfter(change.cursor, s.stream.value.watermark)
    ensures Shape(s, change, Handle(s, change, env))
  {
    var sequence := s.stream.value.sequence;
    var s1 := Delivered(s, change, env);
    HandleFailureShape(s, s1, change, env);
    var s2 := Record(s1, sequence, change, if env.sink.Wrote? then Success else Failed);
    var s3 := s2.(stream := Some(Stream(sequence + 1, Some(change.cursor))));
    HandleFailureShape(s, s3, change, env);
  }

  lemma ShapeKeepsNumbers(log: seq<Change>, s: State, s': State)
    requires s.stream.Some? && s.stream.value.sequence < |log| && Numbered(log, s)
    requires forall k :: 0 <= k < s.stream.value.sequence ==> k in s.deliveries
    requires Shape(s, log[s.stream.value.sequence], s')
    ensures Numbered(log, s')
    ensures s'.stream.Some? ==> forall k :: 0 <= k <= s.stream.value.sequence ==> k in s'.deliveries
  {
  }

  lemma PassedGrows(log: seq<Change>, passed: seq<Change>, q: nat)
    requires |passed| <= q < |log| && passed == log[q - |passed|..q]
    ensures passed + [log[q]] == log[q - |passed|..q + 1]
  {
  }

  lemma PassKeepsPlace(log: seq<Change>, w: World, s': State)
    requires Placed(log, w) && w.s.stream.Some? && w.next < |log| && Shape(w.s, log[w.next], s')
    ensures Placed(log, World(s', w.next + 1, Max(w.next + 1, w.high)))
  {
    ShapeKeepsNumbers(log, w.s, s');
    PassedGrows(log, w.s.passed, w.next);
  }

  lemma RowsTrueBefore(log: seq<Change>, s: State, s': State, kept: set<Change>, k: Key, j: nat)
    requires s.stream.Some? && j <= s.stream.value.sequence < |log| && Shape(s, log[s.stream.value.sequence], s')
    ensures RowsTrue(log, s'.deliveries, kept, k, j) ==> RowsTrue(log, s.deliveries, kept, k, j)
  {
  }

  lemma LaterIsEasier(ws: seq<Write>, k: Key, j: nat, high: nat, high': nat, cell: Cell, start: Cell)
    requires j <= |ws| && high <= high' && Recoverable(ws, k, j, high, cell, start)
    ensures Recoverable(ws, k, j, high', cell, start)
  {
  }

  // A change that got through is one more step of the key's own log.
  lemma AppliedStep(log: seq<Change>, kept: set<Change>, k: Key, q: nat, t: Table, t': Table)
    requires q < |log| && log[q] in kept && t' == Apply(t, log[q].write)
    ensures CellOf(t', k) == Fold(CellOf(t, k), [Muted(log, kept, k)[q]], k)
  {
    FoldOne(CellOf(t, k), log[q].write, k);
  }

  // The persisted resume point stays good when the next change is delivered or not.
  lemma PersistedStaysGood(log: seq<Change>, t0: Table, w: World, s': State, high: nat, kept: set<Change>, k: Key)
    requires Placed(log, w) && w.s.stream.Some? && w.next < |log| && w.high <= high && w.next < high
    requires Recovers(log, t0, w.s.deliveries, w.s.target, w.high, w.s.run.cursorOffset, kept)
    requires Shape(w.s, log[w.next], s') && TargetShape(w.s, log[w.next], s') && s'.reached <= kept
    requires RowsTrue(log, s'.deliveries, kept, k, w.s.run.cursorOffset)
    ensures Recoverable(Muted(log, kept, k), k, w.s.run.cursorOffset, high, CellOf(s'.target, k), CellOf(t0, k))
  {
    var q, p, ws := w.next, w.s.run.cursorOffset, Muted(log, kept, k);
    RowsTrueBefore(log, w.s, s', kept, k, p);
    if s'.target == w.s.target {
      LaterIsEasier(ws, k, p, w.high, high, CellOf(w.s.target, k), CellOf(t0, k));
    } else {
      AppliedStep(log, kept, k, q, w.s.target, s'.target);
      DeliveryKeepsRecoverable(ws, k, p, q, w.high, high, CellOf(w.s.target, k), CellOf(t0, k));
    }
  }

  // If the stream goes on, the position after the change is one, too.
  lemma NextBecomesGood(log: seq<Change>, t0: Table, w: World, s': State, high: nat, kept: set<Change>, k: Key)
    requires Placed(log, w) && w.s.stream.Some? && w.next < |log| && w.high <= high && w.next < high
    requires Recovers(log, t0, w.s.deliveries, w.s.target, w.high, w.next, kept)
    requires Shape(w.s, log[w.next], s') && TargetShape(w.s, log[w.next], s') && s'.reached <= kept
    requires s'.stream.Some? && RowsTrue(log, s'.deliveries, kept, k, w.next + 1)
    ensures Recoverable(Muted(log, kept, k), k, w.next + 1, high, CellOf(s'.target, k), CellOf(t0, k))
  {
    var q, ws := w.next, Muted(log, kept, k);
    RowsTrueBefore(log, w.s, s', kept, k, q);
    if log[q] in kept && s'.target == Apply(w.s.target, log[q].write) {
      AppliedStep(log, kept, k, q, w.s.target, s'.target);
    } else {
      assert ws[q].key != k;
      FoldOne(CellOf(w.s.target, k), ws[q], k);
    }
    DeliveryAdvances(ws, k, q, w.high, high, CellOf(w.s.target, k), CellOf(t0, k));
  }

  lemma PersistedRecovers(log: seq<Change>, t0: Table, w: World, s': State, high: nat, kept: set<Change>)
    requires Placed(log, w) && w.s.stream.Some? && w.next < |log| && w.high <= high && w.next < high
    requires Recovers(log, t0, w.s.deliveries, w.s.target, w.high, w.s.run.cursorOffset, kept)
    requires Shape(w.s, log[w.next], s') && TargetShape(w.s, log[w.next], s') && s'.reached <= kept
    ensures Recovers(log, t0, s'.deliveries, s'.target, high, w.s.run.cursorOffset, kept)
  {
    forall k | RowsTrue(log, s'.deliveries, kept, k, w.s.run.cursorOffset)
      ensures Recoverable(Muted(log, kept, k), k, w.s.run.cursorOffset, high, CellOf(s'.target, k), CellOf(t0, k))
    {
      PersistedStaysGood(log, t0, w, s', high, kept, k);
    }
  }

  lemma NextRecovers(log: seq<Change>, t0: Table, w: World, s': State, high: nat, kept: set<Change>)
    requires Placed(log, w) && w.s.stream.Some? && w.next < |log| && w.high <= high && w.next < high
    requires Recovers(log, t0, w.s.deliveries, w.s.target, w.high, w.next, kept)
    requires Shape(w.s, log[w.next], s') && TargetShape(w.s, log[w.next], s') && s'.reached <= kept && s'.stream.Some?
    ensures Recovers(log, t0, s'.deliveries, s'.target, high, w.next + 1, kept)
  {
    forall k | RowsTrue(log, s'.deliveries, kept, k, w.next + 1)
      ensures Recoverable(Muted(log, kept, k), k, w.next + 1, high, CellOf(s'.target, k), CellOf(t0, k))
    {
      NextBecomesGood(log, t0, w, s', high, kept, k);
    }
  }

  // What the two resume points give as long as only `kept` gets through.
  lemma BothRecover(log: seq<Change>, t0: Table, w: World, s': State, kept: set<Change>)
    requires Placed(log, w) && Resumable(log, t0, w, kept) && w.s.stream.Some? && w.s.reached <= s'.reached <= kept
    ensures Recovers(log, t0, w.s.deliveries, w.s.target, w.high, w.s.run.cursorOffset, kept)
    ensures Recovers(log, t0, w.s.deliveries, w.s.target, w.high, w.next, kept)
  {
  }

  // The resume points after a pass are the old persisted one and the next position.
  lemma ResumePoints(s: State, change: Change, s': State)
    requires s.stream.Some? && Shape(s, change, s')
    ensures s'.run.cursorOffset == s.run.cursorOffset || (s'.stream.Some? && s'.run.cursorOffset == s.stream.value.sequence + 1)
    ensures Done(s') == if s'.stream.Some? then s.stream.value.sequence + 1 else s.run.cursorOffset
  {
  }

  lemma ReachedGrows(s: State, change: Change, s': State)
    requires s.stream.Some? && TargetShape(s, change, s')
    ensures s.reached <= s'.reached
  {
  }

  lemma PassKeepsResumable(log: seq<Change>, t0: Table, w: World, s': State, high: nat, kept: set<Change>)
    requires Placed(log, w) && Resumable(log, t0, w, kept) && w.s.stream.Some? && w.next < |log|
    requires Shape(w.s, log[w.next], s') && TargetShape(w.s, log[w.next], s') && w.high <= high && w.next < high
    ensures Resumable(log, t0, World(s', w.next + 1, high), kept)
  {
    ResumePoints(w.s, log[w.next], s');
    PassResumes(log, t0, w, s', high, kept, s'.run.cursorOffset);
    PassResumes(log, t0, w, s', high, kept, Done(s'));
  }

  // Either resume point of the state after the pass.
  lemma PassResumes(log: seq<Change>, t0: Table, w: World, s': State, high: nat, kept: set<Change>, j: nat)
    requires Placed(log, w) && Resumable(log, t0, w, kept) && w.s.stream.Some? && w.next < |log|
    requires Shape(w.s, log[w.next], s') && TargetShape(w.s, log[w.next], s') && w.high <= high && w.next < high
    requires j == w.s.run.cursorOffset || (s'.stream.Some? && j == w.next + 1)
    ensures ResumesFrom(log, t0, World(s', w.next + 1, high), j, kept)
  {
    if s'.reached <= kept {
      ReachedGrows(w.s, log[w.next], s');
      BothRecover(log, t0, w, s', kept);
      if j == w.s.run.cursorOffset {
        PersistedRecovers(log, t0, w, s', high, kept);
      } else {
        NextRecovers(log, t0, w, s', high, kept);
      }
    }
  }

  lemma EmitNextKeepsInv(log: seq<Change>, t0: Table, w: World, env: Env, kept: set<Change>)
    requires Inv(log, t0, w, kept) && w.s.stream.Some? && w.next < |log|
    requires IsAfter(log[w.next].cursor, w.s.stream.value.watermark)
    ensures Inv(log, t0, World(Handle(w.s, log[w.next], env), w.next + 1, Max(w.next + 1, w.high)), kept)
  {
    var s' := Handle(w.s, log[w.next], env);
    HandleShape(w.s, log[w.next], env);
    HandleTarget(w.s, log[w.next], env);
    PassKeepsPlace(log, w, s');
    PassKeepsResumable(log, t0, w, s', Max(w.next + 1, w.high), kept);
  }

  // A live stream lets through the next change and no earlier one.
  lemma NextPasses(log: seq<Change>, w: World, i: nat)
    requires Increasing(log) && Placed(log, w) && w.s.stream.Some? && i < |log|
    ensures IsAfter(log[i].cursor, w.s.stream.value.watermark) <==> i >= w.next
  {
    WatermarkExact(log, w.next, i);
  }

  lemma EmitKeepsInv(log: seq<Change>, t0: Table, w: World, i: nat, env: Env, kept: set<Change>)
    requires Increasing(log) && Inv(log, t0, w, kept)
    ensures Inv(log, t0, Step(log, w, Emit(i, env)), kept)
  {
    if w.s.stream.Some? && i <= w.next && i < |log| {
      NextPasses(log, w, i);
      if i == w.next {
        EmitIsHandled(log, w, env);
        EmitNextKeepsInv(log, t0, w, env, kept);
      } else {
        ReplayChangesNothing(log, w, i, env);
      }
    }
  }

  lemma EmitIsHandled(log: seq<Change>, w: World, env: Env)
    requires w.s.stream.Some? && w.next < |log|
    ensures Step(log, w, Emit(w.next, env)) == World(Handle(w.s, log[w.next], env), w.next + 1, Max(w.next + 1, w.high))
  {
  }

  lemma ReplayChangesNothing(log: seq<Change>, w: World, i: nat, env: Env)
    requires Placed(log, w) && w.s.stream.Some? && i < |log| && i < w.next
    requires !IsAfter(log[i].cursor, w.s.stream.value.watermark)
    ensures Step(log, w, Emit(i, env)) == w
  {
  }

  lemma FoldOne(c: Cell, w: Write, k: Key)
    ensures Fold(c, [w], k) == if w.key == k then ApplyCell(c, w.op) else c
  {
    assert [w][..0] == [];
  }

  lemma StepKeepsInv(log: seq<Change>, t0: Table, w: World, e: Event, kept: set<Change>)
    requires Increasing(log) && Inv(log, t0, w, kept)
    ensures Inv(log, t0, Step(log, w, e), kept)
  {
    match e
    case Start => StartKeepsInv(log, t0, w, kept);
    case Emit(i, env) => EmitKeepsInv(log, t0, w, i, env, kept);
    case Stop =>
  }

  lemma {:induction false} HistoryKeepsInv(log: seq<Change>, t0: Table, events: seq<Event>, kept: set<Change>)
    requires Increasing(log)
    ensures Inv(log, t0, Play(log, World(Init(t0), 0, 0), events), kept)
  {
    if |events| == 0 {
      InitKeepsInv(log, t0, kept);
    } else {
      HistoryKeepsInv(log, t0, events[..|events| - 1], kept);
      StepKeepsInv(log, t0, Play(log, World(Init(t0), 0, 0), events[..|events| - 1]), events[|events| - 1], kept);
    }
  }

  /* ----- main results ----- */

  /** What a processed log leaves, under any faults. Where no change of a key was
      written and yet stored as failed, the key holds the log applied once without
      the changes that never got through, however often parts were replayed. */
  lemma ConvergenceWithLosses(log: seq<Change>, t0: Table, events: seq<Event>, k: Key)
    requires Increasing(log)
    ensures var s := Play(log, World(Init(t0), 0, 0), events).s;
            Done(s) == |log| && RowsTrue(log, s.deliveries, s.reached, k, |log|) ==>
              CellOf(s.target, k) == Fold(CellOf(t0, k), Muted(log, s.reached, k), k)
  {
    var w := Play(log, World(Init(t0), 0, 0), events);
    HistoryKeepsInv(log, t0, events, w.s.reached);
    var ws, n := Muted(log, w.s.reached, k), |log|;
    if Done(w.s) == n && RowsTrue(log, w.s.deliveries, w.s.reached, k, n) {
      assert Recoverable(ws, k, n, w.high, CellOf(w.s.target, k), CellOf(t0, k));
      assert ws[n..n] == [] && ws[..n] == ws;
    }
  }

  ghost predicate AllSucceeded(log: seq<Change>, s: State, k: Key) {
    forall i :: 0 <= i < |log| && log[i].write.key == k ==> i in s.deliveries && s.deliveries[i].status == Success
  }

  lemma {:induction false} NothingMuted(log: seq<Change>, kept: set<Change>, k: Key, c: Cell, n: nat)
    requires n <= |log| && forall i :: 0 <= i < n && log[i].write.key == k ==> log[i] in kept
    ensures Fold(c, Muted(log, kept, k)[..n], k) == Fold(c, Writes(log)[..n], k)
  {
    if n > 0 {
      NothingMuted(log, kept, k, c, n - 1);
      assert Muted(log, kept, k)[..n][..n - 1] == Muted(log, kept, k)[..n - 1];
      assert Writes(log)[..n][..n - 1] == Writes(log)[..n - 1];
    }
  }

  lemma SucceededConverges(log: seq<Change>, t0: Table, events: seq<Event>, k: Key)
    requires Increasing(log)
    ensures var s := Play(log, World(Init(t0), 0, 0), events).s;
            Done(s) == |log| && AllSucceeded(log, s, k) ==>
              CellOf(s.target, k) == CellOf(ApplyAll(t0, Writes(log)), k)
  {
    var s := Play(log, World(Init(t0), 0, 0), events).s;
    ConvergenceWithLosses(log, t0, events, k);
    SuccessIsTrue(log, t0, events);
    StableNumbering(log, t0, events);
    ApplyAllByKey(t0, Writes(log), k);
    if AllSucceeded(log, s, k) {
      NothingMuted(log, s.reached, k, CellOf(t0, k), |log|);
      assert Muted(log, s.reached, k)[..|log|] == Muted(log, s.reached, k) && Writes(log)[..|log|] == Writes(log);
    }
  }

  /** Crash-replay convergence. After any history with any faults, once the whole
      log has been processed, every key all of whose changes are stored as
      successes holds exactly what the log applied once gives it. */
  lemma Convergence(log: seq<Change>, t0: Table, events: seq<Event>)
    requires Increasing(log)
    ensures var s := Play(log, World(Init(t0), 0, 0), events).s;
            Done(s) == |log| ==>
              && (forall k :: AllSucceeded(log, s, k) ==> CellOf(s.target, k) == CellOf(ApplyAll(t0, Writes(log)), k))
              && ((forall k :: AllSucceeded(log, s, k)) ==> s.target == ApplyAll(t0, Writes(log)))
  {
    var s := Play(log, World(Init(t0), 0, 0), events).s;
    forall k | Done(s) == |log| && AllSucceeded(log, s, k)
      ensures CellOf(s.target, k) == CellOf(ApplyAll(t0, Writes(log)), k)
    {
      SucceededConverges(log, t0, events, k);
    }
    if Done(s) == |log| && forall k :: AllSucceeded(log, s, k) {
      SameCellsSameTable(s.target, ApplyAll(t0, Writes(log)));
    }
  }

  /** Stable numbering. In every history change k is only ever recorded under
      sequence k, and everything processed has a delivery row. */
  lemma StableNumbering(log: seq<Change>, t0: Table, events: seq<Event>)
    requires Increasing(log)
    ensures var s := Play(log, World(Init(t0), 0, 0), events).s;
            && Done(s) <= |log|
            && (forall k :: k in s.deliveries ==> k < |log| && s.deliveries[k].change == log[k])
            && (forall k :: 0 <= k < Done(s) ==> k in s.deliveries)
            && s.run.cursorOffset <= Done(s)
            && s.run.cursor == CursorAt(log, s.run.cursorOffset)
  {
    HistoryKeepsInv(log, t0, events, {});
  }

  /** No re-processing. Within one life of the stream the changes let through
      are a contiguous stretch of the log, each once and in order, however often
      the provider reconnected and went back. */
  lemma OncePerLife(log: seq<Change>, t0: Table, events: seq<Event>)
    requires Increasing(log)
    ensures var s := Play(log, World(Init(t0), 0, 0), events).s;
            s.stream.Some? ==>
              var n := s.stream.value.sequence;
              |s.passed| <= n <= |log| && s.passed == log[n - |s.passed|..n]
  {
    HistoryKeepsInv(log, t0, events, {});
  }

  ghost predicate SuccessReached(s: State) {
    forall k :: k in s.deliveries && s.deliveries[k].status == Success ==> s.deliveries[k].change in s.reached
  }

  lemma HandleKeepsReached(s: State, change: Change, env: Env)
    requires SuccessReached(s)
    ensures SuccessReached(Handle(s, change, env)) && s.reached <= Handle(s, change, env).reached
  {
  }

  /** A delivery row that says success tells the truth: the write of its change
      reached the target at some time. In every history, with any faults. */
  lemma {:induction false} SuccessIsTrue(log: seq<Change>, t0: Table, events: seq<Event>)
    ensures SuccessReached(Play(log, World(Init(t0), 0, 0), events).s)
  {
    if |events| > 0 {
      var before, e := events[..|events| - 1], events[|events| - 1];
      SuccessIsTrue(log, t0, before);
      var w := Play(log, World(Init(t0), 0, 0), before);
      if e.Emit? && e.i < |log| {
        HandleKeepsReached(w.s, log[e.i], e.env);
      }
    }
  }

  /** A row that says failed may not. For every state and environment: a change
      without a row so far is written to a target and yet stored as failed if and
      only if the failed outcome of another target, a late throw of the sink or a
      failed write to the store could be recorded after the write. */
  lemma FailedThoughWritten(s: State, change: Change, env: Env)
    requires s.stream.Some? && IsAfter(change.cursor, s.stream.value.watermark)
    requires s.stream.value.sequence !in s.deliveries
    ensures var q, s' := s.stream.value.sequence, Handle(s, change, env);
            Reached(env.sink) && q in s'.deliveries && s'.deliveries[q].status == Failed
            <==> && env.death != AfterSink
                 && (|| (env.sink.Threw? && env.sink.wrote && env.failureRecordOk)
                     || (env.sink.Refused? && env.sink.wrote && (env.recordOk || env.failureRecordOk))
                     || (env.sink.Wrote? && env.failureRecordOk
                         && (!env.recordOk || (env.death != AfterRecord && !env.persistOk))))
  {
  }

  /* ----- going on past a change ----- */

  // The stream went on past the change.
  predicate WentOn(s: State, change: Change, s': State)
    requires s.stream.Some?
  {
    s'.stream == Some(Stream(s.stream.value.sequence + 1, Some(change.cursor)))
  }

  // The run row says the change is done.
  predicate PersistedPast(s: State, change: Change, s': State)
    requires s.stream.Some?
  {
    s'.run == RunRow(s.stream.value.sequence + 1, Some(change.cursor))
  }

  // The sink answered, and its outcome could be recorded.
  predicate Answered(env: Env) {
    env.death != AfterSink && !env.sink.Threw? && env.recordOk
  }

  // The outcome was recorded, and the cursor behind it.
  predicate Persisted(env: Env) {
    Answered(env) && env.death != AfterRecord && env.persistOk
  }

  // Something failed, and the catch block could record that.
  predicate Recovered(env: Env) {
    && env.death != AfterSink && !(Answered(env) && env.death == AfterRecord) && !Persisted(env)
    && env.failureRecordOk
  }

  /** What becomes of a change that passes the watermark, for every state and every
      environment. The run row goes past it if and only if the sink answered and
      both writes after that succeeded. The stream goes on if and only if the run
      row did, or the failure could be recorded and the process lived; otherwise it
      is gone. A change that does not pass changes nothing. */
  lemma GoesOnExactly(s: State, change: Change, env: Env)
    requires s.stream.Some? && s.run.cursorOffset <= s.stream.value.sequence
    ensures !IsAfter(change.cursor, s.stream.value.watermark) ==> Handle(s, change, env) == s
    ensures IsAfter(change.cursor, s.stream.value.watermark) ==>
              var s' := Handle(s, change, env);
              && (PersistedPast(s, change, s') <==> Persisted(env))
              && (!PersistedPast(s, change, s') ==> s'.run == s.run)
              && (WentOn(s, change, s') <==> Persisted(env) || (Recovered(env) && env.death != AfterFailureRecord))
              && (!WentOn(s, change, s') ==> s'.stream == None)
  {
  }

  /** And of its delivery row, whatever the row said before: a failure that could be
      recorded overwrites everything, else an outcome that could be recorded does,
      so a replay turns a failed row into a success and back; else the row stays.
      No other row changes. */
  lemma RowAfterExactly(s: State, change: Change, env: Env)
    requires s.stream.Some? && IsAfter(change.cursor, s.stream.value.watermark)
    ensures var q, rows := s.stream.value.sequence, Handle(s, change, env).deliveries;
            && (Recovered(env) ==> q in rows && rows[q] == Delivery(change, Failed))
            && (!Recovered(env) && Answered(env) ==>
                  q in rows && rows[q] == Delivery(change, if env.sink.Wrote? then Success else Failed))
            && (!Recovered(env) && !Answered(env) ==> (q in rows <==> q in s.deliveries)
                                                      && (q in rows ==> rows[q] == s.deliveries[q]))
            && forall k :: k != q ==> (k in rows <==> k in s.deliveries) && (k in rows ==> rows[k] == s.deliveries[k])
  {
  }

  /** A change is passed over unwritten if and only if the sink did not reach the
      target and the stream, or the run row, goes on all the same. */
  lemma PassedOverExactly(s: State, change: Change, env: Env)
    requires s.stream.Some? && IsAfter(change.cursor, s.stream.value.watermark)
    requires change !in s.reached && s.run.cursorOffset <= s.stream.value.sequence
    ensures var s' := Handle(s, change, env);
            change !in s'.reached && WentOn(s, change, s')
            <==> && !Reached(env.sink) && env.death != AfterSink
                 && if env.sink.Refused? && env.recordOk && env.persistOk then env.death != AfterRecord
                    else env.failureRecordOk && env.death != AfterFailureRecord
                         && !(env.sink.Refused? && env.recordOk && env.death == AfterRecord)
    ensures var s' := Handle(s, change, env);
            change !in s'.reached && PersistedPast(s, change, s')
            <==> && env.sink.Refused? && !env.sink.wrote
                 && env.recordOk && env.persistOk && env.death != AfterSink && env.death != AfterRecord
  {
    GoesOnExactly(s, change, env);
  }

  ghost predicate DoneFor(log: seq<Change>, s: State, s': State, k: nat)
    requires k < |log|
  {
    && k in s.deliveries && k in s'.deliveries && s'.deliveries[k] == s.deliveries[k]
    && (log[k] in s'.reached <==> log[k] in s.reached)
  }

  lemma StepLeavesDone(log: seq<Change>, t0: Table, w: World, e: Event, k: nat)
    requires Increasing(log) && Inv(log, t0, w, {}) && k < w.s.run.cursorOffset
    ensures w.s.run.cursorOffset <= Step(log, w, e).s.run.cursorOffset
    ensures DoneFor(log, w.s, Step(log, w, e).s, k)
  {
    if e.Emit? && w.s.stream.Some? && e.i <= w.next && e.i < |log| {
      NextPasses(log, w, e.i);
      if e.i == w.next {
        HandleShape(w.s, log[e.i], e.env);
        HandleTarget(w.s, log[e.i], e.env);
        assert log[k] != log[e.i] by { StrictTotalOrder(log[e.i].cursor, log[k].cursor, log[k].cursor); }
      }
    }
  }

  /** For good. What lies below the persisted cursor is never processed again,
      whatever happens later: its row stays as it is, and a change that had not
      reached the target never does. */
  lemma {:induction false} PassedForGood(log: seq<Change>, t0: Table, before: seq<Event>, after: seq<Event>, k: nat)
    requires Increasing(log)
    requires k < Play(log, World(Init(t0), 0, 0), before).s.run.cursorOffset
    ensures var w := Play(log, World(Init(t0), 0, 0), before);
            && k < |log| && w.s.run.cursorOffset <= Play(log, w, after).s.run.cursorOffset
            && DoneFor(log, w.s, Play(log, w, after).s, k)
    decreases |after|
  {
    var w := Play(log, World(Init(t0), 0, 0), before);
    HistoryKeepsInv(log, t0, before, {});
    if |after| > 0 {
      var init := after[..|after| - 1];
      PassedForGood(log, t0, before, init, k);
      PlayConcat(log, World(Init(t0), 0, 0), before, init);
      HistoryKeepsInv(log, t0, before + init, {});
      StepLeavesDone(log, t0, Play(log, w, init), after[|after| - 1], k);
    }
  }

  lemma {:induction false} PlayConcat(log: seq<Change>, w: World, a: seq<Event>, b: seq<Event>)
    ensures Play(log, w, a + b) == Play(log, Play(log, w, a), b)
  {
    if |b| == 0 {
      assert a + b == a;
    } else {
      assert (a + b)[..|a + b| - 1] == a + b[..|b| - 1];
      PlayConcat(log, w, a, b[..|b| - 1]);
    }
  }

  /* ----- progress ----- */

  const CALM := Env(Wrote, true, true, true, Survives)

  // The stream is at position n, and so is the run row.
  ghost predicate At(log: seq<Change>, w: World, n: nat)
    requires n <= |log|
  {
    && w.s.stream == Some(Stream(n, CursorAt(log, n))) && w.next == n
    && w.s.run == RunRow(n, CursorAt(log, n))
  }

  lemma CalmEmit(log: seq<Change>, w: World, n: nat)
    requires Increasing(log) && n < |log| && At(log, w, n)
    ensures var w' := Step(log, w, Emit(n, CALM));
            && At(log, w', n + 1)
            && w'.s.deliveries == w.s.deliveries[n := Delivery(log[n], Success)]
            && w'.s.target == Apply(w.s.target, log[n].write)
  {
    WatermarkExact(log, n, n);
  }

  // The changes from n on up to m, each without a fault.
  function CalmEmits(n: nat, m: nat): seq<Event>
    requires n <= m
    decreases m
  {
    if m == n then [] else CalmEmits(n, m - 1) + [Emit(m - 1, CALM)]
  }

  // From row n to m every change is stored as a success; the rows before are as
  // they were.
  ghost predicate SuccessesFrom(log: seq<Change>, before: map<nat, Delivery>, after: map<nat, Delivery>, n: nat, m: nat)
    requires m <= |log|
  {
    && (forall i :: n <= i < m ==> i in after && after[i] == Delivery(log[i], Success))
    && (forall i :: 0 <= i < n ==> (i in after <==> i in before) && (i in before ==> after[i] == before[i]))
  }

  lemma OneMoreSuccess(log: seq<Change>, before: map<nat, Delivery>, after: map<nat, Delivery>, n: nat, m: nat)
    requires n <= m < |log| && SuccessesFrom(log, before, after, n, m)
    ensures SuccessesFrom(log, before, after[m := Delivery(log[m], Success)], n, m + 1)
  {
  }

  lemma PlaySnoc(log: seq<Change>, w: World, events: seq<Event>, e: Event)
    ensures Play(log, w, events + [e]) == Step(log, Play(log, w, events), e)
  {
    assert (events + [e])[..|events|] == events;
  }

  ghost predicate CalmUpTo(log: seq<Change>, w: World, w': World, n: nat, m: nat) {
    n <= m <= |log| && At(log, w', m) && SuccessesFrom(log, w.s.deliveries, w'.s.deliveries, n, m)
  }

  lemma CalmNext(log: seq<Change>, w: World, w': World, n: nat, m: nat)
    requires Increasing(log) && m < |log| && CalmUpTo(log, w, w', n, m)
    ensures CalmUpTo(log, w, Step(log, w', Emit(m, CALM)), n, m + 1)
  {
    CalmEmit(log, w', m);
    OneMoreSuccess(log, w.s.deliveries, w'.s.deliveries, n, m);
  }

  lemma CalmNothing(log: seq<Change>, w: World, n: nat)
    requires n <= |log| && At(log, w, n)
    ensures CalmUpTo(log, w, w, n, n)
  {
  }

  lemma {:induction false} CalmEmitsAdvance(log: seq<Change>, w: World, n: nat, m: nat, events: seq<Event>) returns (w': World)
    requires Increasing(log) && n <= m <= |log| && At(log, w, n) && events == CalmEmits(n, m)
    ensures w' == Play(log, w, events) && CalmUpTo(log, w, w', n, m)
    decreases m
  {
    if m == n {
      CalmNothing(log, w, n);
      w' := w;
    } else {
      var init := CalmEmits(n, m - 1);
      var before := CalmEmitsAdvance(log, w, n, m - 1, init);
      CalmNext(log, w, before, n, m - 1);
      PlaySnoc(log, w, init, Emit(m - 1, CALM));
      assert events == init + [Emit(m - 1, CALM)];
      w' := Step(log, before, Emit(m - 1, CALM));
    }
  }

  lemma RestartAt(log: seq<Change>, w: World)
    requires Increasing(log) && Placed(log, w)
    ensures At(log, Play(log, w, [Stop, Start]), w.s.run.cursorOffset)
    ensures Play(log, w, [Stop, Start]).s.deliveries == w.s.deliveries
  {
    var stopped := Step(log, w, Stop);
    StartKeepsPlace(log, stopped);
    assert [Stop, Start][..1] == [Stop] && [Stop][..0] == [];
    assert Play(log, w, [Stop]) == stopped;
    assert Play(log, w, [Stop, Start]) == Step(log, stopped, Start);
  }

  /** Progress. From any state any history can reach, a restart and one emission of
      each remaining change without faults process the whole log: stream, run row
      and cursor stand at its end, every change from the old cursor on is stored as
      a success, and the rows before it are as they were. */
  lemma CalmRunFinishes(log: seq<Change>, t0: Table, before: seq<Event>)
    requires Increasing(log)
    ensures var w := Play(log, World(Init(t0), 0, 0), before);
            var n := w.s.run.cursorOffset;
            && n <= |log|
            && var s := Play(log, w, [Stop, Start] + CalmEmits(n, |log|)).s;
               && Done(s) == s.run.cursorOffset == |log| && s.stream.Some? && s.run.cursor == CursorAt(log, |log|)
               && (forall i :: n <= i < |log| ==> i in s.deliveries && s.deliveries[i] == Delivery(log[i], Success))
               && (forall i :: 0 <= i < n ==> i in s.deliveries && i in w.s.deliveries && s.deliveries[i] == w.s.deliveries[i])
  {
    var w := Play(log, World(Init(t0), 0, 0), before);
    HistoryKeepsInv(log, t0, before, {});
    RestartAt(log, w);
    var w' := CalmEmitsAdvance(log, Play(log, w, [Stop, Start]), w.s.run.cursorOffset, |log|, CalmEmits(w.s.run.cursorOffset, |log|));
    PlayConcat(log, w, [Stop, Start], CalmEmits(w.s.run.cursorOffset, |log|));
  }

  /** So the target converges after any history: once the faults are over and nothing
      before the cursor is stored as failed, it holds the log applied once. */
  lemma CalmRunConverges(log: seq<Change>, t0: Table, before: seq<Event>)
    requires Increasing(log)
    requires var s := Play(log, World(Init(t0), 0, 0), before).s;
             forall i :: 0 <= i < s.run.cursorOffset ==> i in s.deliveries && s.deliveries[i].status == Success
    ensures var w := Play(log, World(Init(t0), 0, 0), before);
            && w.s.run.cursorOffset <= |log|
            && Play(log, w, [Stop, Start] + CalmEmits(w.s.run.cursorOffset, |log|)).s.target == ApplyAll(t0, Writes(log))
  {
    var w := Play(log, World(Init(t0), 0, 0), before);
    CalmRunFinishes(log, t0, before);
    var more := [Stop, Start] + CalmEmits(w.s.run.cursorOffset, |log|);
    PlayConcat(log, World(Init(t0), 0, 0), before, more);
    Convergence(log, t0, before + more);
  }
}
