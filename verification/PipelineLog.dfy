/**
 The read model with a log INSIDE it, written by the projector itself, so that the log is rolled
 back, replayed and committed with every other write. The instrumented system runs in lockstep
 with the plain one.
 */
module PipelineLog {
  import opened Prelude
  import opened PipelineModel
  import opened PipelineSteps

  datatype Fate = WasApplied | WasUnknown | WasDeadLettered

  datatype Entry = Entry(msgId: MsgId, fate: Fate)

  datatype Logged<M> = Logged(model: M, log: seq<Entry>)

  function LoggedProjection<M, E>(lm: Logged<M>, row: RawRow<E>, p: Projection<M>): Projection<Logged<M>> {
    match p
    case Applied(m) => Applied(Logged(m, lm.log + [Entry(row.msgId, WasApplied)]))
    case Unknown(m) => Unknown(Logged(m, lm.log + [Entry(row.msgId, WasUnknown)]))
    case Deferred(m) => Deferred(Logged(m, lm.log))
    case Failed => Failed
  }

  function LoggedRepair<M, E>(lm: Logged<M>, row: RawRow<E>, r: Option<M>): Option<Logged<M>> {
    match r
    case Some(m) => Some(Logged(m, lm.log + [Entry(row.msgId, WasDeadLettered)]))
    case None => None
  }

  /** The same handlers over the instrumented read model. */
  function LogHandlers<M, E>(h: Handlers<M, E>): Handlers<Logged<M>, E> {
    Handlers(
      (lm: Logged<M>, row: RawRow<E>) => LoggedProjection(lm, row, h.project(lm.model, row)),
      (lm: Logged<M>, row: RawRow<E>) => LoggedRepair(lm, row, h.repair(lm.model, row)),
      h.isInference,
      h.cutoff)
  }

  function LogStep<M, E>(step: Step<M, E>): Step<Logged<M>, E> {
    match step
    case Capture(stream, edges, end, atHead, at) => Capture(stream, edges, end, atHead, at)
    case Publish(cursor, atHead) => Publish(cursor, atHead)
    case Elsewhere(change) => Elsewhere((lm: Logged<M>) => Logged(change(lm.model), lm.log))
    case Begin(retry, ceiling) => Begin(retry, ceiling)
    case Fast(h, cx, size, rows, acked) => Fast(LogHandlers(h), cx, size, rows, acked)
    case FastFails(size, rows, tried) => FastFails(size, rows, tried)
    case Replay(h, cx, size, rows, acked) => Replay(LogHandlers(h), cx, size, rows, acked)
    case Abort(size, rows, tried) => Abort(size, rows, tried)
    case Restart => Restart
  }

  function LogSteps<M, E>(steps: seq<Step<M, E>>): seq<Step<Logged<M>, E>>
    ensures |LogSteps(steps)| == |steps|
    decreases |steps|
  {
    if steps == [] then [] else [LogStep(steps[0])] + LogSteps(steps[1..])
  }

  function EraseDb<M, E>(db: Db<Logged<M>, E>): Db<M, E> {
    Db(db.raw, db.cursors, db.model.model)
  }

  function Erase<M, E>(s: Sys<Logged<M>, E>): Sys<M, E> {
    Sys(EraseDb(s.db), s.floor, s.phase, s.high, s.firsts)
  }

  // ---------------------------------------------------------------- the log changes nothing

  /** The instrumented batch transaction agrees with the plain one on everything but the log. */
  ghost predicate SameButLog<M>(p: Progress<M>, lp: Progress<Logged<M>>) {
    p.model == lp.model.model && p.toMark == lp.toMark && p.stats == lp.stats
  }

  lemma ErasedRow<M, E>(
    h: Handlers<M, E>, cx: Context, p: Progress<M>, lp: Progress<Logged<M>>, row: RawRow<E>)
    requires SameButLog(p, lp)
    ensures SameButLog(SavepointStep(h, cx, p, row), SavepointStep(LogHandlers(h), cx, lp, row))
  {
  }

  lemma {:induction false} ErasedDrain<M, E>(
    h: Handlers<M, E>, cx: Context, lm: Logged<M>, rows: seq<RawRow<E>>)
    ensures SameButLog(Savepointed(h, cx, Fresh(lm.model), rows), Savepointed(LogHandlers(h), cx, Fresh(lm), rows))
    decreases |rows|
  {
    if rows != [] {
      var front := rows[..|rows| - 1];
      ErasedDrain(h, cx, lm, front);
      ErasedRow(
        h, cx, Savepointed(h, cx, Fresh(lm.model), front), Savepointed(LogHandlers(h), cx, Fresh(lm), front),
        rows[|rows| - 1]);
    }
  }

  lemma ErasedBatch<M, E>(h: Handlers<M, E>, cx: Context, db: Db<Logged<M>, E>, rows: seq<RawRow<E>>)
    ensures EraseDb(PerRow(LogHandlers(h), cx, db, rows).0) == PerRow(h, cx, EraseDb(db), rows).0
    ensures PerRow(LogHandlers(h), cx, db, rows).1 == PerRow(h, cx, EraseDb(db), rows).1
  {
    SavepointedShift(LogHandlers(h), cx, Start(db.model, rows), rows);
    SavepointedShift(h, cx, Start(db.model.model, rows), rows);
    ErasedDrain(h, cx, db.model, rows);
  }

  /** The instrumented optimistic transaction goes through exactly when the plain one does. */
  lemma ErasedOptimistic<M, E>(h: Handlers<M, E>, cx: Context, db: Db<Logged<M>, E>, rows: seq<RawRow<E>>)
    ensures Optimistic(LogHandlers(h), cx, Start(db.model, rows), rows).Some?
            <==> Optimistic(h, cx, Start(db.model.model, rows), rows).Some?
  {
    OptimisticIsSavepointed(LogHandlers(h), cx, Start(db.model, rows), rows);
    OptimisticIsSavepointed(h, cx, Start(db.model.model, rows), rows);
    ErasedBatch(h, cx, db, rows);
  }

  lemma ErasedCommit<M, E>(s: Sys<Logged<M>, E>, step: Step<M, E>)
    requires Commits(step) && Enabled(Erase(s), step)
    ensures Enabled(s, LogStep(step))
    ensures Erase(Next(s, LogStep(step))) == Next(Erase(s), step)
  {
    ErasedOptimistic(step.h, step.cx, s.db, step.rows);
    ErasedBatch(step.h, step.cx, s.db, step.rows);
    AdvanceIsPerRow(s, LogStep(step));
    AdvanceIsPerRow(Erase(s), step);
  }

  lemma ErasedStep<M, E>(s: Sys<Logged<M>, E>, step: Step<M, E>)
    requires Enabled(Erase(s), step)
    ensures Enabled(s, LogStep(step))
    ensures Erase(Next(s, LogStep(step))) == Next(Erase(s), step)
  {
    if Commits(step) {
      ErasedCommit(s, step);
    }
  }

  /** The instrumented system can take every run of the plain one, and differs from it only by the log. */
  lemma {:induction false} LogIsInvisible<M, E>(s: Sys<Logged<M>, E>, steps: seq<Step<M, E>>)
    requires Runs(Erase(s), steps)
    ensures Runs(s, LogSteps(steps))
    ensures Erase(Run(s, LogSteps(steps))) == Run(Erase(s), steps)
    decreases |steps|
  {
    if steps != [] {
      ErasedStep(s, steps[0]);
      LogIsInvisible(Next(s, LogStep(steps[0])), steps[1..]);
      assert LogSteps(steps)[1..] == LogSteps(steps[1..]);
    }
  }
}
