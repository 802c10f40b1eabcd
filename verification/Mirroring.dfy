// A change stream into a database, end to end: the change pipeline delivers what
// the source emits, the database destination applies it, and the target becomes
// a mirror of the source under any crashes and faults.
module Mirroring {
  import opened Wrappers
  import opened KeyedTable
  import DatabaseSink
  import CdcPipeline

  // The log a provider emits for a history of the source, under any cursors.
  ghost predicate LogOf(cfg: DatabaseSink.Config, cs: seq<DatabaseSink.SourceChange>, log: seq<CdcPipeline.Change>) {
    && CdcPipeline.Increasing(log) && |log| == |cs|
    && forall i :: 0 <= i < |log| ==> log[i].write == DatabaseSink.Emitted(cfg, cs[i])
  }

  function RowOf(c: DatabaseSink.SourceChange): Row {
    match c
    case Inserted(row) => row
    case Updated(_, after) => after
    case Removed(row) => row
  }

  /** What the pipeline calls applying a change is what the destination does: a
      batch of one row that goes through is that one write. */
  lemma SinkAppliesChange(cfg: DatabaseSink.Config, t: Table, c: DatabaseSink.SourceChange)
    requires DatabaseSink.WellKeyed(t, cfg.keyColumns) && |cfg.keyColumns| > 0 && cfg.mode.UpsertMode?
    requires DatabaseSink.Batch(cfg, DatabaseSink.Keyed(t), [RowOf(c)], c.Removed?).Ok?
    ensures DatabaseSink.Batch(cfg, DatabaseSink.Keyed(t), [RowOf(c)], c.Removed?)
            == Ok(DatabaseSink.Keyed(Apply(t, DatabaseSink.Emitted(cfg, c))))
    ensures DatabaseSink.WellKeyed(Apply(t, DatabaseSink.Emitted(cfg, c)), cfg.keyColumns)
  {
    var rows := [RowOf(c)];
    DatabaseSink.BatchIsKeyedWrites(cfg, t, rows, c.Removed?);
    var ws := DatabaseSink.WritesOf(cfg, rows, c.Removed?);
    assert ws == [DatabaseSink.Emitted(cfg, c)] && ws[..0] == [];
    assert ApplyAll(t, ws[..0]) == t;
  }

  // The source keys its rows, and no written row has a NULL in its key.
  ghost predicate WellPlaced(cfg: DatabaseSink.Config, s0: DatabaseSink.Source, cs: seq<DatabaseSink.SourceChange>) {
    && DatabaseSink.Located(cfg, s0)
    && forall i :: 0 <= i < |cs| ==> DatabaseSink.Storable(cfg, RowOf(cs[i]), cs[i].Removed?)
  }

  lemma HandleWrites(s: CdcPipeline.State, change: CdcPipeline.Change, env: CdcPipeline.Env)
    ensures var passes := s.stream.Some? && CdcPipeline.IsAfter(change.cursor, s.stream.value.watermark);
            CdcPipeline.Handle(s, change, env).target
            == if passes && CdcPipeline.Reached(env.sink) then Apply(s.target, change.write) else s.target
  {
  }

  lemma EmittedIs(cfg: DatabaseSink.Config, c: DatabaseSink.SourceChange)
    ensures DatabaseSink.Emitted(cfg, c) == DatabaseSink.WriteOf(cfg, RowOf(c), c.Removed?)
  {
  }

  // In every history the target is a table the unique index admits.
  lemma {:induction false} TargetStaysKeyed(cfg: DatabaseSink.Config, s0: DatabaseSink.Source, cs: seq<DatabaseSink.SourceChange>,
                                           log: seq<CdcPipeline.Change>, events: seq<CdcPipeline.Event>)
    requires LogOf(cfg, cs, log) && WellPlaced(cfg, s0, cs)
    ensures var w0 := CdcPipeline.World(CdcPipeline.Init(DatabaseSink.Mirror(cfg, s0)), 0, 0);
            DatabaseSink.WellKeyed(CdcPipeline.Play(log, w0, events).s.target, cfg.keyColumns)
  {
    var w0 := CdcPipeline.World(CdcPipeline.Init(DatabaseSink.Mirror(cfg, s0)), 0, 0);
    if |events| == 0 {
      DatabaseSink.MirrorIsWellKeyed(cfg, s0);
    } else {
      TargetStaysKeyed(cfg, s0, cs, log, events[..|events| - 1]);
      var w, e := CdcPipeline.Play(log, w0, events[..|events| - 1]), events[|events| - 1];
      if e.Emit? && e.i < |log| {
        HandleWrites(w.s, log[e.i], e.env);
        EmittedIs(cfg, cs[e.i]);
        DatabaseSink.WriteKeepsIndex(cfg, w.s.target, RowOf(cs[e.i]), cs[e.i].Removed?);
      }
    }
  }

  /** What the pipeline lets the sink do to a target is what the destination can do.
      In every history, whatever the environment decides about a change that passes
      the watermark, the target goes where a delivery of its one row takes it: the
      whole batch where the target was reached, and nothing otherwise. */
  lemma EveryChangeIsADelivery(cfg: DatabaseSink.Config, s0: DatabaseSink.Source, cs: seq<DatabaseSink.SourceChange>,
                               log: seq<CdcPipeline.Change>, events: seq<CdcPipeline.Event>, i: nat, env: CdcPipeline.Env)
    requires LogOf(cfg, cs, log) && WellPlaced(cfg, s0, cs) && |cfg.keyColumns| > 0 && cfg.mode.UpsertMode? && i < |log|
    requires var w := CdcPipeline.Play(log, CdcPipeline.World(CdcPipeline.Init(DatabaseSink.Mirror(cfg, s0)), 0, 0), events);
             w.s.stream.Some? && i <= w.next && CdcPipeline.IsAfter(log[i].cursor, w.s.stream.value.watermark)
    ensures var w := CdcPipeline.Play(log, CdcPipeline.World(CdcPipeline.Init(DatabaseSink.Mirror(cfg, s0)), 0, 0), events);
            var w' := CdcPipeline.Step(log, w, CdcPipeline.Emit(i, env));
            DatabaseSink.Delivered(cfg, DatabaseSink.Keyed(w.s.target), DatabaseSink.Keyed(w'.s.target),
              [RowOf(cs[i])], cs[i].Removed?, CdcPipeline.Reached(env.sink))
  {
    var w := CdcPipeline.Play(log, CdcPipeline.World(CdcPipeline.Init(DatabaseSink.Mirror(cfg, s0)), 0, 0), events);
    TargetStaysKeyed(cfg, s0, cs, log, events);
    HandleWrites(w.s, log[i], env);
    OneRowDelivered(cfg, w.s.target, cs[i], CdcPipeline.Reached(env.sink));
  }

  lemma OneRowDelivered(cfg: DatabaseSink.Config, t: Table, c: DatabaseSink.SourceChange, wrote: bool)
    requires DatabaseSink.WellKeyed(t, cfg.keyColumns) && |cfg.keyColumns| > 0 && cfg.mode.UpsertMode?
    requires DatabaseSink.Storable(cfg, RowOf(c), c.Removed?)
    ensures DatabaseSink.Delivered(cfg, DatabaseSink.Keyed(t),
              DatabaseSink.Keyed(if wrote then Apply(t, DatabaseSink.Emitted(cfg, c)) else t), [RowOf(c)], c.Removed?, wrote)
  {
    var rows := [RowOf(c)];
    DatabaseSink.RowGoesThrough(cfg, t, RowOf(c), c.Removed?);
    SinkAppliesChange(cfg, t, c);
    assert DatabaseSink.Batch(cfg, DatabaseSink.Keyed(t), rows[..0], c.Removed?) == Ok(DatabaseSink.Keyed(t));
  }

  /** And the other way round: whatever a delivery of one change does to one of its
      targets, and however its other targets fare (`all` of them took the change, or
      one outcome says failed for all), is one of the pipeline's sink results. */
  lemma EveryDeliveryIsAResult(cfg: DatabaseSink.Config, t: Table, c: DatabaseSink.SourceChange,
                               t': DatabaseSink.TargetTable, done: bool, all: bool)
    requires DatabaseSink.WellKeyed(t, cfg.keyColumns) && |cfg.keyColumns| > 0 && cfg.mode.UpsertMode?
    requires DatabaseSink.Delivered(cfg, DatabaseSink.Keyed(t), t', [RowOf(c)], c.Removed?, done) && (all ==> done)
    ensures var wrote := t' != DatabaseSink.Keyed(t);
            var sink := if all then CdcPipeline.Wrote else CdcPipeline.Refused(wrote);
            t' == DatabaseSink.Keyed(if CdcPipeline.Reached(sink) then Apply(t, DatabaseSink.Emitted(cfg, c)) else t)
  {
    var rows := [RowOf(c)];
    assert rows[..0] == [] && rows[..1] == rows;
    assert DatabaseSink.Batch(cfg, DatabaseSink.Keyed(t), rows[..0], c.Removed?) == Ok(DatabaseSink.Keyed(t));
    if DatabaseSink.Batch(cfg, DatabaseSink.Keyed(t), rows, c.Removed?).Ok? {
      SinkAppliesChange(cfg, t, c);
    }
  }

  /** End to end. Start from a mirror of the source, let any history of starts,
      stops, crashes and faults process the log of a history of the source. Then
      every key whose changes are stored as successes holds what the source holds,
      and if all are, the target is a mirror of the last source state. If the source
      keys its rows, the target is at all times a table the unique index admits. */
  lemma MirrorAfterAnyHistory(cfg: DatabaseSink.Config, s0: DatabaseSink.Source, cs: seq<DatabaseSink.SourceChange>,
                              log: seq<CdcPipeline.Change>, events: seq<CdcPipeline.Event>)
    requires DatabaseSink.History(cfg, s0, cs) && LogOf(cfg, cs, log)
    ensures var t0, mirror := DatabaseSink.Mirror(cfg, s0), DatabaseSink.Mirror(cfg, DatabaseSink.Evolve(cfg, s0, cs));
            var s := CdcPipeline.Play(log, CdcPipeline.World(CdcPipeline.Init(t0), 0, 0), events).s;
            CdcPipeline.Done(s) == |log| ==>
              && (forall k :: CdcPipeline.AllSucceeded(log, s, k) ==> CellOf(s.target, k) == CellOf(mirror, k))
              && ((forall i :: 0 <= i < |log| ==> i in s.deliveries && s.deliveries[i].status == CdcPipeline.Success) ==>
                    s.target == mirror)
    ensures WellPlaced(cfg, s0, cs) ==>
              var w0 := CdcPipeline.World(CdcPipeline.Init(DatabaseSink.Mirror(cfg, s0)), 0, 0);
              DatabaseSink.WellKeyed(CdcPipeline.Play(log, w0, events).s.target, cfg.keyColumns)
  {
    var t0 := DatabaseSink.Mirror(cfg, s0);
    assert CdcPipeline.Writes(log) == DatabaseSink.EmittedAll(cfg, cs);
    DatabaseSink.LogIsMirrored(cfg, s0, cs);
    CdcPipeline.Convergence(log, t0, events);
    if WellPlaced(cfg, s0, cs) { TargetStaysKeyed(cfg, s0, cs, log, events); }
  }

  /** And the mirror is reached: after any history that left no failure on record, a
      restart and one calm emission of each remaining change bring the target to the
      mirror of the last source state. */
  lemma MirrorAtLast(cfg: DatabaseSink.Config, s0: DatabaseSink.Source, cs: seq<DatabaseSink.SourceChange>,
                     log: seq<CdcPipeline.Change>, before: seq<CdcPipeline.Event>)
    requires DatabaseSink.History(cfg, s0, cs) && LogOf(cfg, cs, log)
    requires var w := CdcPipeline.Play(log, CdcPipeline.World(CdcPipeline.Init(DatabaseSink.Mirror(cfg, s0)), 0, 0), before);
             forall i :: 0 <= i < w.s.run.cursorOffset ==> i in w.s.deliveries && w.s.deliveries[i].status == CdcPipeline.Success
    ensures var w := CdcPipeline.Play(log, CdcPipeline.World(CdcPipeline.Init(DatabaseSink.Mirror(cfg, s0)), 0, 0), before);
            var n := w.s.run.cursorOffset;
            && n <= |log|
            && CdcPipeline.Play(log, w, [CdcPipeline.Stop, CdcPipeline.Start] + CdcPipeline.CalmEmits(n, |log|)).s.target
               == DatabaseSink.Mirror(cfg, DatabaseSink.Evolve(cfg, s0, cs))
  {
    assert CdcPipeline.Writes(log) == DatabaseSink.EmittedAll(cfg, cs);
    DatabaseSink.LogIsMirrored(cfg, s0, cs);
    CdcPipeline.CalmRunConverges(log, DatabaseSink.Mirror(cfg, s0), before);
  }
}
