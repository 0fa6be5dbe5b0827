/**
 Sweep erasure of the whole pipeline. The sweeper writes to the read model behind the drain
 loop's back, yet no attempt ever turns out differently for it: the system without its steps
 runs in lockstep with the system with them.
 */
module PipelineErasure {
  import opened Prelude
  import opened PipelineModel
  import opened PipelineSteps
  import opened PipelineInference
  import opened InferenceRuns
  import opened InferenceErasure
  import I = InferenceModel

  type State = Sys<I.Tables, I.Event>
  type Move = Step<I.Tables, I.Event>

  /** Every stored placement repeats what the chain placed under its key. */
  ghost predicate GenuineEvent(placed: Placements, e: Option<I.Event>, order: ChainOrder) {
    e.Some? ==> Genuine(placed, Deliver(e.value, order))
  }

  ghost predicate GenuineRaw(placed: Placements, raw: RawEvents<I.Event>) {
    forall k :: k in raw ==> GenuineEvent(placed, raw[k].event, raw[k].chainOrder)
  }

  ghost predicate GenuineCapture(placed: Placements, step: Move) {
    step.Capture? ==>
      forall i :: 0 <= i < |step.edges| && step.edges[i].chainOrder.Some? ==>
        GenuineEvent(placed, step.edges[i].event, step.edges[i].chainOrder.value)
  }

  lemma {:induction false} CaptureKeepsGenuine(
    placed: Placements, raw: RawEvents<I.Event>, edges: seq<Edge<I.Event>>, at: int)
    requires GenuineRaw(placed, raw)
    requires forall i :: 0 <= i < |edges| && edges[i].chainOrder.Some? ==>
               GenuineEvent(placed, edges[i].event, edges[i].chainOrder.value)
    ensures GenuineRaw(placed, Captured(raw, edges, at))
    decreases |edges|
  {
    if edges != [] {
      CaptureKeepsGenuine(placed, raw, edges[..|edges| - 1], at);
    }
  }

  // ---------------------------------------------------------------- one row

  /** The outcome of an event does not depend on what was swept. */
  lemma SameOutcome(placed: Placements, t: I.Tables, u: I.Tables, e: I.Event, order: ChainOrder)
    requires Twins(placed, t, u)
    ensures var a, b := I.Project(t, e, order), I.Project(u, e, order);
            && (a.Applied? <==> b.Applied?) && (a.Deferred? <==> b.Deferred?) && (a.Unknown? <==> b.Unknown?)
    ensures I.Repair(t, e, order).Some? <==> I.Repair(u, e, order).Some?
  {
    assert u.orders.Keys == t.orders.Keys;
  }

  ghost predicate SameVerdict(
    placed: Placements, t: I.Tables, u: I.Tables, a: Verdict<I.Tables>, b: Verdict<I.Tables>)
  {
    && (a.Consumed? <==> b.Consumed?) && (a.Left? <==> b.Left?) && (a.Skipped? <==> b.Skipped?)
    && (a.Consumed? ==> a.unknown == b.unknown)
    && Twins(placed, After(a, t), After(b, u))
  }

  lemma AttemptsAgree(placed: Placements, cutoff: nat, cx: Context, t: I.Tables, u: I.Tables, row: RawRow<I.Event>)
    requires Twins(placed, t, u) && GenuineEvent(placed, row.event, row.chainOrder)
    ensures var h := InferenceHandlers(cutoff);
            SameVerdict(placed, t, u, Attempt(h, cx, t, row), Attempt(h, cx, u, row))
  {
    var h := InferenceHandlers(cutoff);
    if row.event.Some? {
      var e, order := row.event.value, row.chainOrder;
      var t', u' := Act(t, Deliver(e, order)), Act(u, Deliver(e, order));
      assert h.project(t, row) == ProjectRow(t, row) && h.project(u, row) == ProjectRow(u, row);
      assert h.repair(t', row) == RepairRow(t', row) && h.repair(u', row) == RepairRow(u', row);
      SameOutcome(placed, t, u, e, order);
      TwinsAct(placed, t, u, Deliver(e, order));
      SameOutcome(placed, t', u', e, order);
      TwinsAct(placed, t', u', Orphan(e, order));
    }
  }

  /** Two batch transactions that agree on everything but the sweeps. */
  ghost predicate SameProgress(placed: Placements, p: Progress<I.Tables>, q: Progress<I.Tables>) {
    Twins(placed, p.model, q.model) && p.toMark == q.toMark && p.stats == q.stats
  }

  lemma RowsAgree(
    placed: Placements, cutoff: nat, cx: Context, p: Progress<I.Tables>, q: Progress<I.Tables>, row: RawRow<I.Event>)
    requires SameProgress(placed, p, q) && GenuineEvent(placed, row.event, row.chainOrder)
    ensures var h := InferenceHandlers(cutoff);
            SameProgress(placed, SavepointStep(h, cx, p, row), SavepointStep(h, cx, q, row))
  {
    AttemptsAgree(placed, cutoff, cx, p.model, q.model, row);
  }

  lemma {:induction false} DrainsAgree(
    placed: Placements, cutoff: nat, cx: Context, p: Progress<I.Tables>, q: Progress<I.Tables>,
    rows: seq<RawRow<I.Event>>)
    requires SameProgress(placed, p, q)
    requires forall i :: 0 <= i < |rows| ==> GenuineEvent(placed, rows[i].event, rows[i].chainOrder)
    ensures var h := InferenceHandlers(cutoff);
            SameProgress(placed, Savepointed(h, cx, p, rows), Savepointed(h, cx, q, rows))
    decreases |rows|
  {
    if rows != [] {
      var h, front := InferenceHandlers(cutoff), rows[..|rows| - 1];
      DrainsAgree(placed, cutoff, cx, p, q, front);
      RowsAgree(placed, cutoff, cx, Savepointed(h, cx, p, front), Savepointed(h, cx, q, front), rows[|rows| - 1]);
    }
  }

  // ---------------------------------------------------------------- one step

  /** The system without its sweeps: everything equal but the provisional marks. */
  ghost predicate SameButSweeps(placed: Placements, s: State, u: State) {
    && GenuineRaw(placed, s.db.raw) && Twins(placed, s.db.model, u.db.model)
    && u.db.raw == s.db.raw && u.db.cursors == s.db.cursors
    && u.floor == s.floor && u.phase == s.phase && u.high == s.high && u.firsts == s.firsts
  }

  lemma BatchesAgree(placed: Placements, cutoff: nat, s: State, u: State, step: Move)
    requires SameButSweeps(placed, s, u) && Commits(step) && Enabled(s, step) && Deployed(cutoff, step)
    ensures Enabled(u, step) && SameButSweeps(placed, Next(s, step), Next(u, step))
  {
    var rows, h, cx := step.rows, step.h, step.cx;
    var p, q := Start(s.db.model, rows), Start(u.db.model, rows);
    forall i | 0 <= i < |rows| ensures GenuineEvent(placed, rows[i].event, rows[i].chainOrder) {
      assert Stored(s.db.raw, rows[i]);
    }
    DrainsAgree(placed, cutoff, cx, p, q, rows);
    OptimisticIsSavepointed(h, cx, p, rows);
    OptimisticIsSavepointed(h, cx, q, rows);
    AdvanceIsPerRow(s, step);
    AdvanceIsPerRow(u, step);
    MarkingKeepsGenuine(placed, s.db.raw, Savepointed(h, cx, p, rows).toMark);
  }

  lemma MarkingKeepsGenuine(placed: Placements, raw: RawEvents<I.Event>, ids: seq<MsgId>)
    requires GenuineRaw(placed, raw)
    ensures GenuineRaw(placed, MarkProcessed(raw, ids))
  {
  }

  lemma SweepIsInvisible(placed: Placements, cutoff: nat, s: State, u: State, step: Move)
    requires SameButSweeps(placed, s, u) && step.Elsewhere? && Deployed(cutoff, step)
    ensures SameButSweeps(placed, Next(s, step), u)
  {
    var book, ids :| SweepsOnly(step.change, book, ids);
    TwinsSweep(placed, s.db.model, u.db.model, SweepIds(book, ids));
  }

  lemma OthersAgree(placed: Placements, s: State, u: State, step: Move)
    requires SameButSweeps(placed, s, u) && Enabled(s, step) && GenuineCapture(placed, step)
    requires !Commits(step) && !step.Elsewhere?
    ensures Enabled(u, step) && SameButSweeps(placed, Next(s, step), Next(u, step))
  {
    if step.Capture? {
      CaptureKeepsGenuine(placed, s.db.raw, step.edges, step.ingestedAt);
    }
  }

  // ---------------------------------------------------------------- whole runs

  function WithoutSweeps(steps: seq<Move>): seq<Move>
    decreases |steps|
  {
    if steps == [] then []
    else (if steps[0].Elsewhere? then [] else [steps[0]]) + WithoutSweeps(steps[1..])
  }

  /** Without the sweeper every step is still enabled and leads to the same state, sweeps aside. */
  lemma {:induction false} LockstepWithoutSweeps(
    placed: Placements, cutoff: nat, s: State, u: State, steps: seq<Move>)
    requires SameButSweeps(placed, s, u) && Runs(s, steps)
    requires forall i :: 0 <= i < |steps| ==> Deployed(cutoff, steps[i]) && GenuineCapture(placed, steps[i])
    ensures Runs(u, WithoutSweeps(steps))
    ensures SameButSweeps(placed, Run(s, steps), Run(u, WithoutSweeps(steps)))
    decreases |steps|
  {
    if steps != [] {
      var step, rest := steps[0], WithoutSweeps(steps[1..]);
      if step.Elsewhere? {
        SweepIsInvisible(placed, cutoff, s, u, step);
        assert WithoutSweeps(steps) == rest;
        LockstepWithoutSweeps(placed, cutoff, Next(s, step), u, steps[1..]);
      } else {
        if Commits(step) {
          BatchesAgree(placed, cutoff, s, u, step);
        } else {
          OthersAgree(placed, s, u, step);
        }
        assert WithoutSweeps(steps)[0] == step && WithoutSweeps(steps)[1..] == rest;
        LockstepWithoutSweeps(placed, cutoff, Next(s, step), Next(u, step), steps[1..]);
      }
    }
  }

  /**
   Deleting the sweeper from any run of the deployed pipeline with genuine captures leaves a run
   of the pipeline. It ends with the same raw rows and marks, cursors, floor, phase and first
   attempts, the same deals and tape, the same markets up to the sweeper's bookkeeping, and the
   same orders, except that a row still marked swept is OPEN with everything else equal.
   */
  lemma PipelineSweepsAreErasable(placed: Placements, cutoff: nat, t: I.Tables, steps: seq<Move>)
    requires t.orders == map[] && Runs(Boot(t), steps)
    requires forall i :: 0 <= i < |steps| ==> Deployed(cutoff, steps[i]) && GenuineCapture(placed, steps[i])
    ensures Runs(Boot(t), WithoutSweeps(steps))
    ensures var s, u := Run(Boot(t), steps), Run(Boot(t), WithoutSweeps(steps));
            && u.db.raw == s.db.raw && u.db.cursors == s.db.cursors
            && u.floor == s.floor && u.phase == s.phase && u.firsts == s.firsts
            && u.db.model.deals == s.db.model.deals && u.db.model.trades == s.db.model.trades
            && u.db.model.orders == UndoAll(s.db.model.orders)
            && MarketsAlike(s.db.model.markets, u.db.model.markets)
  {
    assert UndoAll(t.orders) == t.orders;
    LockstepWithoutSweeps(placed, cutoff, Boot(t), Boot(t), steps);
  }
}
