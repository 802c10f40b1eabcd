// The poll loop of a watch hook under crashes, for each of the three strategies:
// rows are handed to the sink, recorded and checkpointed one by one, and the watch
// cursor is persisted once the whole page is through.
//
// Every await is a point where the process may die, or the call may throw and
// end the poll: a poll is given the number of persisted steps it lives for.
module WatchPoll {
  import opened Wrappers
  import opened WatchEngine

  // One recordDelivery call.
  datatype Recorded = Recorded(sequence: nat, row: Row)

  // What survives a crash, and the history of what the sink and the store saw.
  datatype Store = Store(
    cursor: WatchCursor,
    cursorOffset: nat,
    deliveries: map<nat, Row>,
    handed: seq<Row>,
    log: seq<Recorded>)

  /* ----- the steps of one poll ----- */

  function Hand(s: Store, row: Row): Store {
    s.(handed := s.handed + [row])
  }

  function Record(s: Store, row: Row): Store {
    s.(deliveries := s.deliveries[s.cursorOffset := row], log := s.log + [Recorded(s.cursorOffset, row)])
  }

  function Checkpoint(s: Store): Store {
    s.(cursorOffset := s.cursorOffset + 1)
  }

  function DeliverOne(s: Store, row: Row): Store {
    Checkpoint(Record(Hand(s, row), row))
  }

  datatype Progress = Progress(store: Store, life: nat)

  function DeliverRows(s: Store, rows: seq<Row>, life: nat): Progress
    decreases |rows|
  {
    if |rows| == 0 || life == 0 then Progress(s, life)
    else if life == 1 then Progress(Hand(s, rows[0]), 0)
    else if life == 2 then Progress(Record(Hand(s, rows[0]), rows[0]), 0)
    else DeliverRows(DeliverOne(s, rows[0]), rows[1..], life - 3)
  }

  function PollOnce(st: Strategy, s: Store, page: seq<Row>, life: nat): Store {
    var m := AdvanceCursor(st, s.cursor, page);
    var p := DeliverRows(s, m.newRows, life);
    if p.life == 0 then p.store else p.store.(cursor := m.cursor)
  }

  class HookWatchService {
    var cursorJson: WatchCursor
    var cursorOffset: nat
    var deliveries: map<nat, Row>
    ghost var handed: seq<Row>
    ghost var log: seq<Recorded>

    ghost function State(): Store
      reads this
    {
      Store(cursorJson, cursorOffset, deliveries, handed, log)
    }

    constructor (st: Strategy)
      ensures State() == Beginning(st)
    {
      cursorJson, cursorOffset, deliveries := EmptyCursor(st), 0, map[];
      handed, log := [], [];
    }

    method RunPoll(st: Strategy, page: seq<Row>, life: nat)
      modifies this
      ensures State() == PollOnce(st, old(State()), page, life)
    {
      var advanced := Advance(st, cursorJson, page);
      var newRows := advanced.newRows;
      var sequence, left := cursorOffset, life;
      for i := 0 to |newRows|
        invariant sequence == cursorOffset && cursorJson == old(cursorJson)
        invariant DeliverRows(old(State()), newRows, life) == DeliverRows(State(), newRows[i..], left)
      {
        assert newRows[i..][1..] == newRows[i + 1..];
        if left == 0 { return; }
        handed := handed + [newRows[i]];
        if left == 1 { return; }
        deliveries := deliveries[sequence := newRows[i]];
        log := log + [Recorded(sequence, newRows[i])];
        sequence := sequence + 1;
        if left == 2 { return; }
        cursorOffset := sequence;
        left := left - 3;
      }
      if left == 0 { return; }
      cursorJson, cursorOffset := advanced.cursor, sequence;
    }
  }

  /* ----- what one poll does ----- */

  predicate Logged(s: Store, row: Row) {
    exists i :: 0 <= i < |s.log| && s.log[i].row == row
  }

  // Sequences 0..cursorOffset-1 are recorded, and none above cursorOffset.
  predicate Numbered(s: Store) {
    && (forall k: nat :: k < s.cursorOffset ==> k in s.deliveries)
    && (forall k :: k in s.deliveries ==> k <= s.cursorOffset)
  }

  // Each recorded row was handed over before, and a sequence holds a logged row.
  predicate Traced(s: Store) {
    && (forall i :: 0 <= i < |s.log| ==> s.log[i].row in s.handed && s.log[i].sequence in s.deliveries)
    && (forall k :: k in s.deliveries ==> Recorded(k, s.deliveries[k]) in s.log)
  }

  // A checkpoint is pending: the last record was not yet counted.
  predicate SlotTaken(s: Store) {
    s.cursorOffset in s.deliveries
  }

  lemma {:induction false} DeliverRowsKeeps(s: Store, rows: seq<Row>, life: nat)
    requires Numbered(s) && Traced(s)
    ensures Numbered(DeliverRows(s, rows, life).store) && Traced(DeliverRows(s, rows, life).store)
    decreases |rows|
  {
    if |rows| > 0 && life > 0 {
      HandKeeps(s, rows[0]);
      RecordKeeps(Hand(s, rows[0]), rows[0]);
      if life >= 3 {
        CheckpointKeeps(Record(Hand(s, rows[0]), rows[0]));
        DeliverRowsKeeps(DeliverOne(s, rows[0]), rows[1..], life - 3);
      }
    }
  }

  lemma {:induction false} DeliverRowsGrows(s: Store, rows: seq<Row>, life: nat)
    ensures var t := DeliverRows(s, rows, life).store; s.log <= t.log && t.cursor == s.cursor
    ensures forall r :: r in DeliverRows(s, rows, life).store.handed ==> r in s.handed || r in rows
    decreases |rows|
  {
    if |rows| > 0 && life >= 3 {
      DeliverRowsGrows(DeliverOne(s, rows[0]), rows[1..], life - 3);
    }
  }

  lemma HandKeeps(s: Store, row: Row)
    requires Numbered(s) && Traced(s)
    ensures Numbered(Hand(s, row)) && Traced(Hand(s, row)) && row in Hand(s, row).handed
  {
  }

  lemma CheckpointKeeps(s: Store)
    requires Numbered(s) && Traced(s) && SlotTaken(s)
    ensures Numbered(Checkpoint(s)) && Traced(Checkpoint(s))
  {
  }

  lemma CursorAside(s: Store, c: WatchCursor)
    requires Numbered(s) && Traced(s)
    ensures Numbered(s.(cursor := c)) && Traced(s.(cursor := c))
    ensures forall r :: Logged(s, r) ==> Logged(s.(cursor := c), r)
  {
    LongerLog(s, s.(cursor := c));
  }

  lemma RecordKeeps(s: Store, row: Row)
    requires Numbered(s) && Traced(s) && row in s.handed
    ensures Numbered(Record(s, row)) && Traced(Record(s, row)) && SlotTaken(Record(s, row))
  {
    var t := Record(s, row);
    forall k | k in t.deliveries ensures Recorded(k, t.deliveries[k]) in t.log {
      assert t.log[|s.log|] == Recorded(s.cursorOffset, row);
      if k != s.cursorOffset {
        assert Recorded(k, s.deliveries[k]) in s.log;
      }
    }
  }

  // A poll that survives its rows has recorded them all.
  lemma {:induction false} SurvivorLogsAll(s: Store, rows: seq<Row>, life: nat)
    requires DeliverRows(s, rows, life).life > 0
    ensures var t := DeliverRows(s, rows, life).store;
            && s.log <= t.log && t.handed == s.handed + rows && |t.log| == |s.log| + |rows|
            && forall i :: 0 <= i < |rows| ==> t.log[|s.log| + i] == Recorded(s.cursorOffset + i, rows[i])
    decreases |rows|
  {
    if |rows| > 0 {
      SurvivorLogsAll(DeliverOne(s, rows[0]), rows[1..], life - 3);
      assert rows == [rows[0]] + rows[1..];
    }
  }

  /* ----- any run of polls, crashes and arrivals ----- */

  datatype World = World(table: set<Row>, store: Store)

  datatype Event = Arrival(row: Row) | PollFor(limit: nat, page: seq<Row>, life: nat)

  function Beginning(st: Strategy): Store {
    Store(EmptyCursor(st), 0, map[], [], [])
  }

  ghost predicate Possible(st: Strategy, w: World, e: Event) {
    match e
    case Arrival(row) => Insertable(st, w.table, w.store.cursor, row)
    case PollFor(limit, page, _) => Fetched(st, w.table, w.store.cursor, limit, page)
  }

  ghost function Occur(st: Strategy, w: World, e: Event): World {
    if !Possible(st, w, e) then w
    else match e
      case Arrival(row) => w.(table := w.table + {row})
      case PollFor(_, page, life) => w.(store := PollOnce(st, w.store, page, life))
  }

  ghost function History(st: Strategy, events: seq<Event>): World {
    if |events| == 0 then World({}, Beginning(st))
    else Occur(st, History(st, events[..|events| - 1]), events[|events| - 1])
  }

  ghost predicate Safe(st: Strategy, w: World) {
    && Suited(st, w.table) && CursorSound(st, w.table, w.store.cursor)
    && Numbered(w.store) && Traced(w.store)
    && (forall r :: r in w.store.handed ==> r in w.table)
    && (forall r :: r in w.table && Behind(w.store.cursor, r) ==> Logged(w.store, r))
  }

  lemma PollKeepsSafe(st: Strategy, w: World, limit: nat, page: seq<Row>, life: nat)
    requires Safe(st, w) && Fetched(st, w.table, w.store.cursor, limit, page)
    ensures Safe(st, w.(store := PollOnce(st, w.store, page, life)))
  {
    var s, m := w.store, AdvanceCursor(st, w.store.cursor, page);
    var p := DeliverRows(s, m.newRows, life);
    PollIsSafe(st, w.table, s.cursor, limit, page);
    DeliverRowsKeeps(s, m.newRows, life);
    DeliverRowsGrows(s, m.newRows, life);
    LongerLog(s, p.store);
    if p.life > 0 {
      CursorAside(p.store, m.cursor);
      NewRowsAreLogged(s, m.newRows, life);
    }
  }

  // A row that arrives is ahead of the cursor.
  lemma ArrivalIsAhead(st: Strategy, table: set<Row>, c: WatchCursor, row: Row)
    requires Suited(st, table) && CursorSound(st, table, c) && Insertable(st, table, c, row)
    ensures Suited(st, table + {row}) && CursorSound(st, table + {row}, c) && !Behind(c, row)
  {
    match c {
      case AtValue(value) =>
        if value.Some? {
          var r :| r in table && r.ts == value;
        }
      case AtTime(time) =>
        assert row.key !in time.boundaryKeys;
      case AtKeys(seen) =>
        assert row.key !in seen;
    }
  }

  lemma NewRowsAreLogged(s: Store, rows: seq<Row>, life: nat)
    requires DeliverRows(s, rows, life).life > 0
    ensures forall r :: r in rows ==> Logged(DeliverRows(s, rows, life).store, r)
  {
    var t := DeliverRows(s, rows, life).store;
    SurvivorLogsAll(s, rows, life);
    forall r | r in rows ensures Logged(t, r) {
      var i :| 0 <= i < |rows| && rows[i] == r;
      assert t.log[|s.log| + i].row == r;
    }
  }

  lemma LongerLog(s: Store, t: Store)
    requires s.log <= t.log
    ensures forall r :: Logged(s, r) ==> Logged(t, r)
  {
    forall r | Logged(s, r) ensures Logged(t, r) {
      var i :| 0 <= i < |s.log| && s.log[i].row == r;
      assert t.log[i].row == r;
    }
  }

  lemma {:induction false} HistoryIsSafe(st: Strategy, events: seq<Event>)
    ensures Safe(st, History(st, events))
  {
    if |events| > 0 {
      var w, e := History(st, events[..|events| - 1]), events[|events| - 1];
      HistoryIsSafe(st, events[..|events| - 1]);
      if Possible(st, w, e) {
        match e
        case Arrival(row) =>
          ArrivalIsAhead(st, w.table, w.store.cursor, row);
        case PollFor(limit, page, life) =>
          PollKeepsSafe(st, w, limit, page, life);
      }
    }
  }

  /** Under every strategy and at every crash point of every history the persisted
      cursor has passed only rows that were handed to the sink and recorded:
      delivery is at least once. Sequences 0..cursorOffset-1 are all recorded, and
      none above cursorOffset. */
  lemma AtLeastOnce(st: Strategy, events: seq<Event>, r: Row)
    ensures var w := History(st, events);
            && Numbered(w.store)
            && (r in w.table && Behind(w.store.cursor, r) ==> Logged(w.store, r) && r in w.store.handed)
            && (r in w.store.handed ==> r in w.table)
  {
    HistoryIsSafe(st, events);
    var s := History(st, events).store;
    if Logged(s, r) {
      var i :| 0 <= i < |s.log| && s.log[i].row == r;
      assert s.log[i].row in s.handed;
    }
  }

  /* ----- polls that are never cut short ----- */

  predicate Whole(st: Strategy, w: World, e: Event) {
    e.PollFor? ==> e.life > 3 * |AdvanceCursor(st, w.store.cursor, e.page).newRows|
  }

  ghost predicate AllWhole(st: Strategy, events: seq<Event>) {
    |events| > 0 ==>
      AllWhole(st, events[..|events| - 1]) && Whole(st, History(st, events[..|events| - 1]), events[|events| - 1])
  }

  // The sink got each row behind the cursor once, and no other row.
  ghost predicate HandedOnce(w: World) {
    && (forall r :: r in w.store.handed ==> r in w.table)
    && forall r :: r in w.table ==> multiset(w.store.handed)[r] == if Behind(w.store.cursor, r) then 1 else 0
  }

  lemma {:induction false} LongLifeSurvives(s: Store, rows: seq<Row>, life: nat)
    requires life > 3 * |rows|
    ensures DeliverRows(s, rows, life).life > 0
    decreases |rows|
  {
    if |rows| > 0 { LongLifeSurvives(DeliverOne(s, rows[0]), rows[1..], life - 3); }
  }

  lemma WholePoll(st: Strategy, s: Store, page: seq<Row>, life: nat)
    requires life > 3 * |AdvanceCursor(st, s.cursor, page).newRows|
    ensures var m, t := AdvanceCursor(st, s.cursor, page), PollOnce(st, s, page, life);
            t.cursor == m.cursor && t.handed == s.handed + m.newRows
  {
    var rows := AdvanceCursor(st, s.cursor, page).newRows;
    LongLifeSurvives(s, rows, life);
    SurvivorLogsAll(s, rows, life);
  }

  lemma {:induction false} TableGrows(st: Strategy, events: seq<Event>, n: nat)
    requires n <= |events|
    ensures History(st, events[..n]).table <= History(st, events).table
  {
    if n < |events| {
      var init := events[..|events| - 1];
      assert init[..n] == events[..n];
      TableGrows(st, init, n);
    } else {
      assert events[..n] == events;
    }
  }

  lemma RoomyBefore(st: Strategy, small: set<Row>, big: set<Row>)
    requires small <= big && Roomy(st, big)
    ensures Roomy(st, small)
  {
    SubsetSize(small, big);
  }

  lemma PollHandedOnce(st: Strategy, w: World, limit: nat, page: seq<Row>, life: nat)
    requires Suited(st, w.table) && CursorSound(st, w.table, w.store.cursor) && Roomy(st, w.table) && HandedOnce(w)
    requires Fetched(st, w.table, w.store.cursor, limit, page) && Whole(st, w, PollFor(limit, page, life))
    ensures HandedOnce(w.(store := PollOnce(st, w.store, page, life)))
  {
    PollIsSafe(st, w.table, w.store.cursor, limit, page);
    WholePoll(st, w.store, page, life);
  }

  lemma ArrivalHandedOnce(st: Strategy, w: World, row: Row)
    requires HandedOnce(w) && Suited(st, w.table) && CursorSound(st, w.table, w.store.cursor)
    requires Insertable(st, w.table, w.store.cursor, row)
    ensures HandedOnce(w.(table := w.table + {row}))
  {
    ArrivalIsAhead(st, w.table, w.store.cursor, row);
    assert row !in w.table && row !in w.store.handed;
  }

  /** Without interruptions delivery is exactly once, under every strategy: each row
      the cursor has passed was handed over once and no other row at all. The
      snapshot strategy keeps this as long as its window has room for the table. */
  lemma {:induction false} WholePollsAreExact(st: Strategy, events: seq<Event>)
    requires AllWhole(st, events) && Roomy(st, History(st, events).table)
    ensures HandedOnce(History(st, events))
  {
    if |events| > 0 {
      var before, e := events[..|events| - 1], events[|events| - 1];
      var w := History(st, before);
      TableGrows(st, events, |events| - 1);
      RoomyBefore(st, w.table, History(st, events).table);
      WholePollsAreExact(st, before);
      HistoryIsSafe(st, before);
      if Possible(st, w, e) {
        match e
        case Arrival(row) => ArrivalHandedOnce(st, w, row);
        case PollFor(limit, page, life) => PollHandedOnce(st, w, limit, page, life);
      }
    }
  }

  // The same history as the timestamp change detector sees it.
  function Plain(e: Event): WatchEngine.Event {
    match e
    case Arrival(row) => Arrive(row)
    case PollFor(limit, page, _) => Poll(limit, page)
  }

  function PlainAll(events: seq<Event>): (r: seq<WatchEngine.Event>)
    ensures |r| == |events|
  {
    if |events| == 0 then [] else PlainAll(events[..|events| - 1]) + [Plain(events[|events| - 1])]
  }

  /** And the loop refines the change detector: what the sink got is what the
      detector emitted. */
  lemma {:induction false} LoopRefinesDetector(events: seq<Event>)
    requires AllWhole(ByTimestamp, events)
    ensures var w := History(ByTimestamp, events);
            w.store.cursor.AtTime? && Watch(w.table, w.store.cursor.time, w.store.handed) == Run(PlainAll(events))
  {
    if |events| > 0 {
      var before, e := events[..|events| - 1], events[|events| - 1];
      LoopRefinesDetector(before);
      assert PlainAll(events)[..|events| - 1] == PlainAll(before);
      if e.PollFor? {
        WholePoll(ByTimestamp, History(ByTimestamp, before).store, e.page, e.life);
      }
      HistoryIsSafe(ByTimestamp, before);
    }
  }

  /* ----- reuse of a sequence ----- */

  // Some row of this poll is recorded under a sequence that already has one.
  predicate Reuses(s: Store, rows: seq<Row>, life: nat)
    decreases |rows|
  {
    |rows| > 0 && life >= 2 &&
    (SlotTaken(s) || (life >= 3 && Reuses(DeliverOne(s, rows[0]), rows[1..], life - 3)))
  }

  lemma FreeSlotAhead(s: Store, row: Row)
    requires Numbered(s)
    ensures Numbered(DeliverOne(s, row)) && !SlotTaken(DeliverOne(s, row))
  {
  }

  /** A poll reuses a sequence if and only if it starts on an occupied one and
      lives to record its first row. */
  lemma {:induction false} ReuseExactly(s: Store, rows: seq<Row>, life: nat)
    requires Numbered(s)
    ensures Reuses(s, rows, life) <==> SlotTaken(s) && |rows| > 0 && life >= 2
    decreases |rows|
  {
    if |rows| > 0 && life >= 3 {
      FreeSlotAhead(s, rows[0]);
      ReuseExactly(DeliverOne(s, rows[0]), rows[1..], life - 3);
    }
  }

  // The process dies between recording a row and its checkpoint.
  predicate DiesUncounted(rows: seq<Row>, life: nat) {
    life % 3 == 2 && life < 3 * |rows|
  }

  /** The slot at cursorOffset is occupied after a poll if and only if the poll
      died between a record and its checkpoint, or it found the slot occupied and
      ended before its first checkpoint. */
  lemma {:induction false} OccupiedExactly(s: Store, rows: seq<Row>, life: nat)
    requires Numbered(s)
    ensures SlotTaken(DeliverRows(s, rows, life).store)
            <==> DiesUncounted(rows, life) || (SlotTaken(s) && (|rows| == 0 || life < 3))
    decreases |rows|
  {
    if |rows| > 0 && life >= 3 {
      FreeSlotAhead(s, rows[0]);
      OccupiedExactly(DeliverOne(s, rows[0]), rows[1..], life - 3);
      assert (life - 3) % 3 == life % 3;
      assert life - 3 < 3 * |rows[1..]| <==> life < 3 * |rows|;
      if life < 6 {
        assert life - 3 < 3 ==> (DiesUncounted(rows[1..], life - 3) <==> life == 5 && |rows| > 1);
      }
    }
  }

  // Every record went under its own sequence, in order.
  predicate OwnSequences(s: Store) {
    && |s.log| == s.cursorOffset
    && forall i :: 0 <= i < |s.log| ==> s.log[i].sequence == i && i in s.deliveries && s.deliveries[i] == s.log[i].row
  }

  ghost predicate NeverUncounted(st: Strategy, events: seq<Event>) {
    |events| > 0 ==>
      var before, e := events[..|events| - 1], events[|events| - 1];
      && NeverUncounted(st, before)
      && (e.PollFor? ==> !DiesUncounted(AdvanceCursor(st, History(st, before).store.cursor, e.page).newRows, e.life))
  }

  lemma {:induction false} DeliverRowsOwn(s: Store, rows: seq<Row>, life: nat)
    requires OwnSequences(s) && !DiesUncounted(rows, life)
    ensures OwnSequences(DeliverRows(s, rows, life).store)
    decreases |rows|
  {
    if |rows| > 0 && life >= 3 {
      assert (life - 3) % 3 == life % 3;
      assert life - 3 < 3 * |rows[1..]| <==> life < 3 * |rows|;
      DeliverRowsOwn(DeliverOne(s, rows[0]), rows[1..], life - 3);
    }
  }

  /** If no poll ever dies in that gap, however else they die, the k-th record is
      under sequence k and is never overwritten. */
  lemma {:induction false} RecordsKeepTheirSequence(st: Strategy, events: seq<Event>)
    requires NeverUncounted(st, events)
    ensures OwnSequences(History(st, events).store)
  {
    if |events| > 0 {
      var before, e := events[..|events| - 1], events[|events| - 1];
      RecordsKeepTheirSequence(st, before);
      if e.PollFor? {
        var s := History(st, before).store;
        DeliverRowsOwn(s, AdvanceCursor(st, s.cursor, e.page).newRows, e.life);
      }
    }
  }

  /** In that gap the promise fails. Two rows share a timestamp; the first poll
      dies after recording one of them, the second fetches them the other way
      round and records the other row over it. */
  lemma CrashReusesSequence(a: Row, b: Row)
    requires a.key != b.key && a.ts.Some? && b.ts == a.ts
    ensures var start := Beginning(ByTimestamp);
            var s := PollOnce(ByTimestamp, start, [a, b], 2);
            var t := PollOnce(ByTimestamp, s, [b, a], 7);
            && Fetched(ByTimestamp, {a, b}, start.cursor, 2, [a, b]) && Fetched(ByTimestamp, {a, b}, s.cursor, 2, [b, a])
            && s.deliveries == map[0 := a]
            && t.deliveries == map[0 := b, 1 := a] && t.cursorOffset == 2
  {
    var start := Beginning(ByTimestamp);
    WholePage({a, b}, [a, b], a.ts);
    WholePage({a, b}, [b, a], a.ts);
    DiesAfterFirst([a, b]);
    RecordsTwo(Record(Hand(start, a), a), b, a);
  }

  lemma WholePage(table: set<Row>, page: seq<Row>, ts: Option<int>)
    requires Distinct(page) && (forall r :: r in page <==> r in table)
    requires ts.Some? && forall r :: r in table ==> r.ts == ts
    ensures FetchedPage(table, FRESH.cursor, |page|, page)
  {
    forall i | 0 <= i < |page| ensures page[i].ts == ts {
      assert page[i] in page;
    }
  }

  lemma DiesAfterFirst(page: seq<Row>)
    requires |page| > 0
    ensures var start := Beginning(ByTimestamp);
            PollOnce(ByTimestamp, start, page, 2) == Record(Hand(start, page[0]), page[0])
  {
    NothingFiltered(page);
    PollRecords(Beginning(ByTimestamp), page, 2);
  }

  lemma RecordsTwo(s: Store, a: Row, b: Row)
    requires s.cursor == EmptyCursor(ByTimestamp)
    ensures var t := PollOnce(ByTimestamp, s, [a, b], 7);
            && t.cursorOffset == s.cursorOffset + 2
            && t.deliveries == s.deliveries[s.cursorOffset := a][s.cursorOffset + 1 := b]
  {
    NothingFiltered([a, b]);
    PollRecords(s, [a, b], 7);
    DeliverTwo(s, a, b);
  }

  lemma PollRecords(s: Store, page: seq<Row>, life: nat)
    requires s.cursor.AtTime?
    ensures var p := DeliverRows(s, NewRows(page, s.cursor.time.boundaryKeys), life);
            var t := PollOnce(ByTimestamp, s, page, life);
            && t.deliveries == p.store.deliveries && t.cursorOffset == p.store.cursorOffset
            && (p.life == 0 ==> t == p.store)
  {
  }

  lemma DeliverTwo(s: Store, a: Row, b: Row)
    ensures DeliverRows(s, [a, b], 7) == Progress(DeliverOne(DeliverOne(s, a), b), 1)
  {
    var one := DeliverOne(s, a);
    assert [a, b][1..] == [b];
    assert [b][1..] == [];
    assert DeliverRows(one, [b], 4) == DeliverRows(DeliverOne(one, b), [], 1);
  }
}
