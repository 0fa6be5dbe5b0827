/**
 Exactly-once effect: the log of the instrumented read model shows each message id at most once,
 and exactly the ids marked processed.
 */
module PipelineExactlyOnce {
  import opened Prelude
  import opened PipelineModel
  import opened PipelineSteps
  import opened PipelineLog

  function Ids(log: seq<Entry>): seq<MsgId> {
    seq(|log|, i requires 0 <= i < |log| => log[i].msgId)
  }

  /** The log names exactly the processed rows, each once. */
  ghost predicate Once<M, E>(db: Db<Logged<M>, E>) {
    && WellKeyed(db.raw)
    && Distinct(Ids(db.model.log))
    && forall id :: id in Ids(db.model.log) <==> id in db.raw && db.raw[id].processed
  }

  /** One attempt logs its row exactly when it consumes it. */
  lemma AttemptLogs<M, E>(h: Handlers<M, E>, cx: Context, lm: Logged<M>, row: RawRow<E>)
    ensures var v := Attempt(LogHandlers(h), cx, lm, row);
            && (v.Consumed? ==> Ids(v.model.log) == Ids(lm.log) + [row.msgId])
            && (v.Left? ==> v.model.log == lm.log)
  {
    var p := h.project(lm.model, row);
    assert LogHandlers(h).project(lm, row) == LoggedProjection(lm, row, p);
    if p.Deferred? {
      var lm' := Logged(p.model, lm.log);
      assert LogHandlers(h).repair(lm', row) == LoggedRepair(lm', row, h.repair(lm'.model, row));
    }
  }

  /** A drain appends to the log exactly the ids it marks, in the same order. */
  lemma {:induction false} LogFollowsMarks<M, E>(
    h: Handlers<M, E>, cx: Context, lm: Logged<M>, rows: seq<RawRow<E>>)
    ensures var p := Savepointed(LogHandlers(h), cx, Fresh(lm), rows);
            Ids(p.model.log) == Ids(lm.log) + p.toMark
    decreases |rows|
  {
    if rows == [] {
      assert Ids(lm.log) + [] == Ids(lm.log);
    } else {
      LogFollowsMarks(h, cx, lm, rows[..|rows| - 1]);
      var q := Savepointed(LogHandlers(h), cx, Fresh(lm), rows[..|rows| - 1]);
      var row := rows[|rows| - 1];
      AttemptLogs(h, cx, q.model, row);
      assert Ids(lm.log) + q.toMark + [row.msgId] == Ids(lm.log) + (q.toMark + [row.msgId]);
    }
  }

  lemma {:induction false} MarksAreDistinct<M, E>(h: Handlers<M, E>, cx: Context, m: M, rows: seq<RawRow<E>>)
    requires NoRepeats(rows)
    ensures Distinct(Savepointed(h, cx, Fresh(m), rows).toMark)
    decreases |rows|
  {
    if rows != [] {
      var front := rows[..|rows| - 1];
      MarksAreDistinct(h, cx, m, front);
      MarksComeFromRows(h, cx, m, front);
      assert forall i :: 0 <= i < |front| ==> front[i] == rows[i];
      var q := Savepointed(h, cx, Fresh(m), front).toMark;
      assert forall i :: 0 <= i < |q| ==> q[i] in q;
    }
  }

  lemma AppendDistinct(a: seq<MsgId>, b: seq<MsgId>)
    requires Distinct(a) && Distinct(b)
    requires forall id :: id in b ==> id !in a
    ensures Distinct(a + b)
  {
    assert forall i :: 0 <= i < |a| ==> (a + b)[i] == a[i];
    assert forall i :: 0 <= i < |b| ==> b[i] in b;
  }

  lemma BatchKeepsOnce<M, E>(
    h: Handlers<M, E>, cx: Context, db: Db<Logged<M>, E>,
    after: Option<ChainOrder>, until: Option<ChainOrder>, rows: seq<RawRow<E>>)
    requires Once(db)
    requires AllStored(db.raw, rows) && AllEligible(rows, after, until) && NoRepeats(rows)
    ensures Once(PerRow(LogHandlers(h), cx, db, rows).0)
  {
    var p := Savepointed(LogHandlers(h), cx, Fresh(db.model), rows);
    SavepointedShift(LogHandlers(h), cx, Start(db.model, rows), rows);
    assert [] + p.toMark == p.toMark;
    LogFollowsMarks(h, cx, db.model, rows);
    MarksAreDistinct(LogHandlers(h), cx, db.model, rows);
    MarksComeFromRows(LogHandlers(h), cx, db.model, rows);
    forall id | id in p.toMark ensures id in db.raw && !db.raw[id].processed {
      var i :| 0 <= i < |rows| && rows[i].msgId == id;
      assert Stored(db.raw, rows[i]) && Eligible(rows[i], after, until);
    }
    AppendDistinct(Ids(db.model.log), p.toMark);
  }

  lemma {:induction false} CapturedIsUnprocessed<E>(raw: RawEvents<E>, edges: seq<Edge<E>>, ingestedAt: int)
    ensures forall k :: k in Captured(raw, edges, ingestedAt) && k !in raw
              ==> !Captured(raw, edges, ingestedAt)[k].processed
    decreases |edges|
  {
    if edges != [] {
      CapturedIsUnprocessed(raw, edges[..|edges| - 1], ingestedAt);
    }
  }

  lemma StepKeepsOnce<M, E>(s: Sys<Logged<M>, E>, step: Step<M, E>)
    requires Once(s.db) && Enabled(s, LogStep(step))
    ensures Once(Next(s, LogStep(step)).db)
  {
    if step.Capture? {
      CapturedKeepsKeys(s.db.raw, step.edges, step.ingestedAt);
      CapturedIsUnprocessed(s.db.raw, step.edges, step.ingestedAt);
    } else if Commits(step) {
      AdvanceIsPerRow(s, LogStep(step));
      BatchKeepsOnce(step.h, step.cx, s.db, s.phase.after, Some(s.phase.ceiling), step.rows);
    }
  }

  lemma {:induction false} RunKeepsOnce<M, E>(s: Sys<Logged<M>, E>, steps: seq<Step<M, E>>)
    requires Once(s.db) && Runs(s, LogSteps(steps))
    ensures Once(Run(s, LogSteps(steps)).db)
    decreases |steps|
  {
    if steps != [] {
      assert LogSteps(steps)[1..] == LogSteps(steps[1..]);
      StepKeepsOnce(s, steps[0]);
      RunKeepsOnce(Next(s, LogStep(steps[0])), steps[1..]);
    }
  }

  /**
   Under any interleaving of captures, re-captures, barrier moves, background writes, fast,
   failed, replayed, aborted and half-acknowledged batches and restarts: each message's effect
   entered the read model at most once, and the applied, unknown and dead-lettered ids are
   exactly the processed ones.
   */
  lemma EffectsHappenExactlyOnce<M, E>(m: M, steps: seq<Step<M, E>>)
    requires Runs(Boot(m), steps)
    ensures Runs(Boot(Logged(m, [])), LogSteps(steps))
    ensures var s := Run(Boot(Logged(m, [])), LogSteps(steps));
            && Erase(s) == Run(Boot(m), steps)
            && Distinct(Ids(s.db.model.log))
            && forall id :: id in Ids(s.db.model.log) <==> id in s.db.raw && s.db.raw[id].processed
  {
    var s0: Sys<Logged<M>, E> := Boot(Logged(m, []));
    LogIsInvisible(s0, steps);
    RunKeepsOnce(s0, steps);
  }

  // ---------------------------------------------------------------- fates

  /** What a fate says about the row and the clock it was read against. */
  ghost predicate FateFits<M, E>(h: Handlers<M, E>, cx: Context, row: RawRow<E>, fate: Fate) {
    row.event.Some? && (fate == WasDeadLettered ==> PastCutoff(h, cx, row.event.value, row.ingestedAt))
  }

  /** The fate an attempt gives its row is that of its outcome. */
  lemma AttemptFate<M, E>(h: Handlers<M, E>, cx: Context, lm: Logged<M>, row: RawRow<E>)
    ensures var v, p := Attempt(LogHandlers(h), cx, lm, row), h.project(lm.model, row);
            v.Consumed? ==>
              && |v.model.log| == |lm.log| + 1 && v.model.log[..|lm.log|] == lm.log
              && var last := v.model.log[|lm.log|];
                 && last.msgId == row.msgId && FateFits(h, cx, row, last.fate)
                 && (last.fate == WasDeadLettered <==> p.Deferred?) && (last.fate == WasUnknown <==> p.Unknown?)
  {
    var p := h.project(lm.model, row);
    assert LogHandlers(h).project(lm, row) == LoggedProjection(lm, row, p);
    if row.event.Some? && p.Deferred? {
      var lm' := Logged(p.model, lm.log);
      assert LogHandlers(h).repair(lm', row) == LoggedRepair(lm', row, h.repair(lm'.model, row));
      DeferredVerdict(LogHandlers(h), cx, lm, row);
    }
  }

  /** One of `rows` explains the log entry. */
  ghost predicate Explained<M, E>(h: Handlers<M, E>, cx: Context, rows: seq<RawRow<E>>, entry: Entry) {
    exists j :: 0 <= j < |rows| && rows[j].msgId == entry.msgId && FateFits(h, cx, rows[j], entry.fate)
  }

  lemma {:induction false} DrainFates<M, E>(
    h: Handlers<M, E>, cx: Context, lm: Logged<M>, rows: seq<RawRow<E>>, entry: Entry)
    requires entry in Savepointed(LogHandlers(h), cx, Fresh(lm), rows).model.log
    ensures entry in lm.log || Explained(h, cx, rows, entry)
    decreases |rows|
  {
    if rows != [] {
      var front, row := rows[..|rows| - 1], rows[|rows| - 1];
      var q := Savepointed(LogHandlers(h), cx, Fresh(lm), front).model;
      if entry in q.log {
        DrainFates(h, cx, lm, front, entry);
        if Explained(h, cx, front, entry) {
          var j :| 0 <= j < |front| && front[j].msgId == entry.msgId && FateFits(h, cx, front[j], entry.fate);
          assert rows[j] == front[j];
        }
      } else {
        AttemptLogs(h, cx, q, row);
        AttemptFate(h, cx, q, row);
        assert rows[|rows| - 1].msgId == entry.msgId && FateFits(h, cx, row, entry.fate);
      }
    }
  }

  /** The step committed a batch in which the stored row of the entry met its fate. */
  ghost predicate EndedBy<M, E>(raw: RawEvents<E>, step: Step<M, E>, entry: Entry) {
    && entry.msgId in raw && Commits(step)
    && (exists j :: 0 <= j < |step.rows| && step.rows[j].msgId == entry.msgId)
    && FateFits(step.h, step.cx, raw[entry.msgId], entry.fate)
  }

  /** Rows stay, with the columns they were captured with. */
  ghost predicate KeepsRows<E>(raw: RawEvents<E>, raw': RawEvents<E>) {
    forall k :: k in raw ==> k in raw' && raw'[k].(processed := raw[k].processed) == raw[k]
  }

  lemma StepKeepsRows<M, E>(s: Sys<M, E>, step: Step<M, E>)
    requires Enabled(s, step) && WellKeyed(s.db.raw)
    ensures WellKeyed(Next(s, step).db.raw) && KeepsRows(s.db.raw, Next(s, step).db.raw)
  {
    if step.Capture? {
      CapturedKeepsKeys(s.db.raw, step.edges, step.ingestedAt);
    } else if Commits(step) {
      AdvanceIsPerRow(s, step);
    }
  }

  lemma {:induction false} RunKeepsRows<M, E>(s: Sys<M, E>, steps: seq<Step<M, E>>)
    requires Runs(s, steps) && WellKeyed(s.db.raw)
    ensures WellKeyed(Run(s, steps).db.raw) && KeepsRows(s.db.raw, Run(s, steps).db.raw)
    decreases |steps|
  {
    if steps != [] {
      StepKeepsRows(s, steps[0]);
      RunKeepsRows(Next(s, steps[0]), steps[1..]);
    }
  }

  /** Every stored row was captured by a page: its columns are those of the first edge there that names it. */
  lemma {:induction false} RowsComeFromPages<M, E>(s: Sys<M, E>, steps: seq<Step<M, E>>, k: MsgId)
    returns (n: nat, i: nat)
    requires Runs(s, steps) && WellKeyed(s.db.raw) && k !in s.db.raw && k in Run(s, steps).db.raw
    ensures n < |steps| && steps[n].Capture? && FirstKeyed(steps[n].edges, i, k)
    ensures var row, e := Run(s, steps).db.raw[k], steps[n].edges[i];
            && row.msgId == k && row.chainOrder == e.chainOrder.value && row.event == e.event
            && row.ingestedAt == steps[n].ingestedAt
    decreases |steps|
  {
    var s' := Next(s, steps[0]);
    StepKeepsRows(s, steps[0]);
    if k in s'.db.raw {
      NewKeysAreCaptured(s, steps[0], k);
      n := 0;
      i := NewRowHasEdge(s.db.raw, steps[0].edges, steps[0].ingestedAt, k);
      NewRowIsFirstEdge(s.db.raw, steps[0].edges, steps[0].ingestedAt, k, i);
      RunKeepsRows(s', steps[1..]);
    } else {
      n, i := RowsComeFromPages(s', steps[1..], k);
      n := n + 1;
    }
  }

  lemma NewKeysAreCaptured<M, E>(s: Sys<M, E>, step: Step<M, E>, k: MsgId)
    requires Enabled(s, step) && k !in s.db.raw && k in Next(s, step).db.raw
    ensures step.Capture?
  {
    if Commits(step) {
      AdvanceIsPerRow(s, step);
    }
  }

  lemma StepFates<M, E>(s: Sys<Logged<M>, E>, step: Step<M, E>, entry: Entry)
    requires Enabled(s, LogStep(step)) && WellKeyed(s.db.raw)
    requires entry in Next(s, LogStep(step)).db.model.log
    ensures entry in s.db.model.log || EndedBy(s.db.raw, step, entry)
  {
    if Commits(step) {
      AdvanceIsPerRow(s, LogStep(step));
      PerRowIsCommit(LogHandlers(step.h), step.cx, s.db, step.rows);
      DrainFates(step.h, step.cx, s.db.model, step.rows, entry);
      if entry !in s.db.model.log {
        var rows := step.rows;
        var j :| 0 <= j < |rows| && rows[j].msgId == entry.msgId && FateFits(step.h, step.cx, rows[j], entry.fate);
        assert Stored(s.db.raw, rows[j]);
      }
    }
  }

  ghost predicate EndedBySome<M, E>(raw: RawEvents<E>, steps: seq<Step<M, E>>, entry: Entry) {
    exists i :: 0 <= i < |steps| && EndedBy(raw, steps[i], entry)
  }

  lemma {:induction false} RunFates<M, E>(s: Sys<Logged<M>, E>, steps: seq<Step<M, E>>, entry: Entry)
    requires Runs(s, LogSteps(steps)) && WellKeyed(s.db.raw)
    requires entry in Run(s, LogSteps(steps)).db.model.log
    ensures entry in s.db.model.log || EndedBySome(Run(s, LogSteps(steps)).db.raw, steps, entry)
    decreases |steps|
  {
    if steps != [] {
      var s' := Next(s, LogStep(steps[0]));
      assert LogSteps(steps)[1..] == LogSteps(steps[1..]);
      StepKeepsRows(s, LogStep(steps[0]));
      RunFates(s', steps[1..], entry);
      var raw := Run(s, LogSteps(steps)).db.raw;
      if entry in s'.db.model.log {
        StepFates(s, steps[0], entry);
        RunKeepsRows(s', LogSteps(steps[1..]));
        assert EndedBy(s.db.raw, steps[0], entry) ==> EndedBy(raw, steps[0], entry);
      } else {
        var i :| 0 <= i < |steps| - 1 && EndedBy(raw, steps[1..][i], entry);
        assert steps[i + 1] == steps[1..][i];
      }
    }
  }

  /**
   Over every run, a row whose fate was to be dead-lettered was attempted in a committed batch while capture
   was at head, carries an inference event, and was older than the cutoff by that batch's clock.
   */
  lemma DeadLettersAreOld<M, E>(m: M, steps: seq<Step<M, E>>, id: MsgId) returns (i: nat)
    requires Runs(Boot(m), steps) && Runs(Boot(Logged(m, [])), LogSteps(steps))
    requires Entry(id, WasDeadLettered) in Run(Boot(Logged(m, [])), LogSteps(steps)).db.model.log
    ensures var raw := Run(Boot(m), steps).db.raw;
            && id in raw && raw[id].event.Some? && raw[id].processed
            && i < |steps| && Commits(steps[i])
            && (exists j :: 0 <= j < |steps[i].rows| && steps[i].rows[j].msgId == id)
            && steps[i].cx.captureAtHead && steps[i].h.isInference(raw[id].event.value)
            && steps[i].cx.now > raw[id].ingestedAt + steps[i].h.cutoff
  {
    var entry := Entry(id, WasDeadLettered);
    var s0: Sys<Logged<M>, E> := Boot(Logged(m, []));
    var log := Run(s0, LogSteps(steps)).db.model.log;
    EffectsHappenExactlyOnce(m, steps);
    var k := Position(entry, log);
    assert Ids(log)[k] == id;
    RunFates(s0, steps, entry);
    i :| 0 <= i < |steps| && EndedBy(Run(s0, LogSteps(steps)).db.raw, steps[i], entry);
  }

  /** While capture has never been published at head, nothing is dead-lettered: a parent may yet be captured. */
  lemma DeadLettersNeedHead<M, E>(m: M, steps: seq<Step<M, E>>, id: MsgId) returns (i: nat, j: nat)
    requires Runs(Boot(m), steps) && Runs(Boot(Logged(m, [])), LogSteps(steps)) && ReadsFlag(Boot(m), steps, false)
    requires Entry(id, WasDeadLettered) in Run(Boot(Logged(m, [])), LogSteps(steps)).db.model.log
    ensures j < i < |steps| && SetsHead(steps[j]) && Commits(steps[i])
    ensures exists k :: 0 <= k < |steps[i].rows| && steps[i].rows[k].msgId == id
  {
    i := DeadLettersAreOld(m, steps, id);
    j := HeadWasPublished(Boot(m), steps, i);
  }
}
