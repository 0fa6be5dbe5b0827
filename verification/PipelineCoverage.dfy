/**
 Which rows a pass attempts while the other components keep committing between its
 transactions. The cursor moves with a strict comparison, so a row that shares its key with the
 last row of a full batch is jumped over: passes cover their range exactly when no two pending
 rows of the range share a chain order.
 */
module PipelineCoverage {
  import opened Prelude
  import opened PipelineModel
  import opened PipelineSteps
  import opened PipelineRuns

  /** The steps a pass is made of, with everything that can commit meanwhile. */
  predicate InPass<M, E>(step: Step<M, E>) {
    Outside(step) || step.FastFails? || (Commits(step) && step.acked)
  }

  /** What the ceiling needs of the environment: nothing is captured below it during the pass. */
  ghost predicate CapturesPast<M, E>(s: Sys<M, E>, step: Step<M, E>) {
    s.phase.Draining? && step.Capture? ==>
      var raw' := Captured(s.db.raw, step.edges, step.ingestedAt);
      forall k :: k in raw' && k !in s.db.raw ==> raw'[k].chainOrder > s.phase.ceiling
  }

  /** A run of such steps. */
  ghost predicate PassRun<M, E>(s: Sys<M, E>, steps: seq<Step<M, E>>)
    ensures PassRun(s, steps) ==> Runs(s, steps)
    decreases |steps|
  {
    steps == [] ||
    (InPass(steps[0]) && Enabled(s, steps[0]) && CapturesPast(s, steps[0]) && PassRun(Next(s, steps[0]), steps[1..]))
  }

  /** An orderly run of in-pass steps is one: captures above the barrier are above the ceiling. */
  lemma {:induction false} OrderlyIsPassRun<M, E>(s: Sys<M, E>, steps: seq<Step<M, E>>)
    requires Ordered(s) && Runs(s, steps) && OrderlyRun(s, steps)
    requires forall i :: 0 <= i < |steps| ==> InPass(steps[i])
    ensures PassRun(s, steps)
    decreases |steps|
  {
    if steps != [] {
      StepKeepsOrder(s, steps[0]);
      OrderlyIsPassRun(Next(s, steps[0]), steps[1..]);
    }
  }

  lemma {:induction false} PassRunConcat<M, E>(s: Sys<M, E>, a: seq<Step<M, E>>, b: seq<Step<M, E>>)
    requires PassRun(s, a) && PassRun(Run(s, a), b)
    ensures PassRun(s, a + b)
    decreases |a|
  {
    if a == [] {
      assert a + b == b;
    } else {
      assert (a + b)[1..] == a[1..] + b;
      PassRunConcat(Next(s, a[0]), a[1..], b);
    }
  }

  // ---------------------------------------------------------------- one step

  lemma OneRuns<M, E>(s: Sys<M, E>, step: Step<M, E>)
    requires InPass(step) && Enabled(s, step) && !step.Capture?
    ensures PassRun(s, [step]) && Run(s, [step]) == Next(s, step)
    ensures Attempted([step]) == if Commits(step) then step.rows else []
  {
    RunOne(s, step);
    var one := [step];
    assert one[0] == step && PassRun(Next(s, one[0]), one[1..]);
  }

  /** Capture past the ceiling leaves the range as it is. */
  lemma RangeSurvives<E>(
    raw: RawEvents<E>, raw': RawEvents<E>, after: Option<ChainOrder>, ceiling: ChainOrder, range: seq<RawRow<E>>)
    requires IsRange(raw, after, Some(ceiling), range)
    requires forall k :: k in raw ==> k in raw' && raw'[k] == raw[k]
    requires forall k :: k in raw' && k !in raw ==> raw'[k].chainOrder > ceiling
    ensures IsRange(raw', after, Some(ceiling), range)
  {
  }

  lemma KeysSurvive<M, E>(s: Sys<M, E>, step: Step<M, E>)
    requires WellKeyed(s.db.raw) && InPass(step) && Enabled(s, step)
    ensures WellKeyed(Next(s, step).db.raw)
  {
    if step.Capture? {
      CapturedKeepsKeys(s.db.raw, step.edges, step.ingestedAt);
    } else if Commits(step) {
      AdvanceIsPerRow(s, step);
    }
  }

  /** A step that commits no batch leaves the cursor, the ceiling and the range. */
  lemma OthersKeepRange<M, E>(s: Sys<M, E>, step: Step<M, E>, range: seq<RawRow<E>>)
    requires WellKeyed(s.db.raw) && s.phase.Draining? && InPass(step) && !Commits(step)
    requires Enabled(s, step) && CapturesPast(s, step)
    requires IsRange(s.db.raw, s.phase.after, Some(s.phase.ceiling), range)
    ensures var s' := Next(s, step);
            && s'.phase.Draining? && s'.phase.ceiling == s.phase.ceiling && s'.phase.after == s.phase.after
            && IsRange(s'.db.raw, s.phase.after, Some(s.phase.ceiling), range)
  {
    if step.Capture? {
      var raw' := Captured(s.db.raw, step.edges, step.ingestedAt);
      CapturedKeepsKeys(s.db.raw, step.edges, step.ingestedAt);
      RangeSurvives(s.db.raw, raw', s.phase.after, s.phase.ceiling, range);
    }
  }

  /** A committed batch takes the front of the range; a full one leaves the rest above the new cursor. */
  lemma BatchTakesFront<M, E>(s: Sys<M, E>, step: Step<M, E>, range: seq<RawRow<E>>)
    requires WellKeyed(s.db.raw) && Commits(step) && step.acked && Enabled(s, step)
    requires IsRange(s.db.raw, s.phase.after, Some(s.phase.ceiling), range)
    ensures |step.rows| <= |range| && step.rows == range[..|step.rows|]
    ensures var s' := Next(s, step);
            if s'.phase.Idle? then step.rows == range
            else && s'.phase.ceiling == s.phase.ceiling
                 && IsRange(s'.db.raw, s'.phase.after, Some(s.phase.ceiling), range[|step.rows|..])
  {
    var rows := step.rows;
    assert |rows| <= |range| && rows == range[..|rows|] && (|rows| < step.size ==> |rows| == |range|) by {
      BatchIsFrontOfRange(s.db.raw, s.phase.after, Some(s.phase.ceiling), step.size, range, rows);
    }
    AdvanceIsPerRow(s, step);
    if |rows| == step.size {
      BatchAdvances(step.h, step.cx, s.db, s.phase.after, Some(s.phase.ceiling), range, rows);
    }
  }

  // ---------------------------------------------------------------- coverage

  lemma {:induction false} IdleAttemptsNothing<M, E>(s: Sys<M, E>, steps: seq<Step<M, E>>)
    requires s.phase.Idle? && PassRun(s, steps)
    ensures Attempted(steps) == [] && Run(s, steps).phase.Idle?
    decreases |steps|
  {
    if steps != [] {
      IdleAttemptsNothing(Next(s, steps[0]), steps[1..]);
    }
  }

  /**
   Whatever commits meanwhile, and for any batch sizes, the batches of a pass are the front of its
   range, each row once and in order, and the whole range once the pass has ended.
   */
  lemma {:induction false} PassCoversRange<M, E>(s: Sys<M, E>, steps: seq<Step<M, E>>, range: seq<RawRow<E>>)
    requires WellKeyed(s.db.raw) && s.phase.Draining? && PassRun(s, steps)
    requires IsRange(s.db.raw, s.phase.after, Some(s.phase.ceiling), range)
    ensures Attempted(steps) <= range
    ensures Run(s, steps).phase.Idle? ==> Attempted(steps) == range
    decreases |steps|
  {
    if steps != [] {
      var step, s', rest := steps[0], Next(s, steps[0]), Attempted(steps[1..]);
      KeysSurvive(s, step);
      if !Commits(step) {
        OthersKeepRange(s, step, range);
        PassCoversRange(s', steps[1..], range);
        assert Attempted(steps) == rest;
      } else {
        BatchTakesFront(s, step, range);
        assert range == step.rows + range[|step.rows|..];
        if s'.phase.Idle? {
          IdleAttemptsNothing(s', steps[1..]);
        } else {
          PassCoversRange(s', steps[1..], range[|step.rows|..]);
        }
      }
    }
  }

  /** In an orderly run a pass that has ended cleanly attempted exactly the pending rows of its range. */
  lemma CleanPassCoversRange<M, E>(s: Sys<M, E>, steps: seq<Step<M, E>>, range: seq<RawRow<E>>)
    requires Ordered(s) && s.phase.Draining? && Runs(s, steps) && OrderlyRun(s, steps)
    requires forall i :: 0 <= i < |steps| ==> InPass(steps[i])
    requires IsRange(s.db.raw, s.phase.after, Some(s.phase.ceiling), range)
    requires Run(s, steps).phase.Idle?
    ensures Attempted(steps) == range
  {
    OrderlyIsPassRun(s, steps);
    PassCoversRange(s, steps, range);
  }

  // ---------------------------------------------------------------- termination

  function CommitCount<M, E>(steps: seq<Step<M, E>>): nat
    decreases |steps|
  {
    if steps == [] then 0 else (if Commits(steps[0]) then 1 else 0) + CommitCount(steps[1..])
  }

  lemma {:induction false} IdleCommitsNothing<M, E>(s: Sys<M, E>, steps: seq<Step<M, E>>)
    requires s.phase.Idle? && PassRun(s, steps)
    ensures CommitCount(steps) == 0
    decreases |steps|
  {
    if steps != [] {
      IdleCommitsNothing(Next(s, steps[0]), steps[1..]);
    }
  }

  lemma CaptureKeepsAhead<E>(raw: RawEvents<E>, raw': RawEvents<E>, after: Option<ChainOrder>, ceiling: ChainOrder)
    requires forall k :: k in raw ==> k in raw' && raw'[k] == raw[k]
    requires forall k :: k in raw' && k !in raw ==> raw'[k].chainOrder > ceiling
    ensures Ahead(raw', after, Some(ceiling)) == Ahead(raw, after, Some(ceiling))
  {
  }

  /** Under sustained ingest and with tied keys alike, a pass commits at most one batch more than it has rows ahead. */
  lemma {:induction false} PassIsBounded<M, E>(s: Sys<M, E>, steps: seq<Step<M, E>>)
    requires WellKeyed(s.db.raw) && s.phase.Draining? && PassRun(s, steps)
    ensures CommitCount(steps) <= |Ahead(s.db.raw, s.phase.after, Some(s.phase.ceiling))| + 1
    decreases |steps|
  {
    if steps != [] {
      var step, s' := steps[0], Next(s, steps[0]);
      KeysSurvive(s, step);
      if Commits(step) {
        AdvanceIsPerRow(s, step);
        if s'.phase.Idle? {
          IdleCommitsNothing(s', steps[1..]);
        } else {
          BatchShrinks(step.h, step.cx, s.db, s.phase.after, Some(s.phase.ceiling), step.size, step.rows);
          PassIsBounded(s', steps[1..]);
        }
      } else {
        if step.Capture? {
          CapturedKeepsKeys(s.db.raw, step.edges, step.ingestedAt);
          CaptureKeepsAhead(s.db.raw, s'.db.raw, s.phase.after, s.phase.ceiling);
        }
        PassIsBounded(s', steps[1..]);
      }
    }
  }

  // ---------------------------------------------------------------- exactly when

  /** No two pending rows of the range share a key. */
  ghost predicate DistinctIn<E>(raw: RawEvents<E>, after: Option<ChainOrder>, until: Option<ChainOrder>) {
    forall j, k :: j in raw && k in raw && j != k && Eligible(raw[j], after, until) && Eligible(raw[k], after, until)
      ==> raw[j].chainOrder != raw[k].chainOrder
  }

  lemma LowestKey<E>(raw: RawEvents<E>, keys: set<MsgId>) returns (k: MsgId)
    requires keys != {} && keys <= raw.Keys
    ensures k in keys && forall j :: j in keys ==> raw[k].chainOrder <= raw[j].chainOrder
  {
    var order := (j: MsgId) => if j in raw then raw[j].chainOrder else 0;
    k := LeastBy(keys, order);
    assert forall j :: j in keys ==> order(k) <= order(j);
  }

  /** Rows with distinct keys can be listed in strictly ascending order. */
  lemma {:induction false} ListInOrder<E>(raw: RawEvents<E>, keys: set<MsgId>) returns (rows: seq<RawRow<E>>)
    requires WellKeyed(raw) && keys <= raw.Keys
    requires forall j, k :: j in keys && k in keys && j != k ==> raw[j].chainOrder != raw[k].chainOrder
    ensures StrictlyAscending(rows) && AllStored(raw, rows)
    ensures forall i :: 0 <= i < |rows| ==> rows[i].msgId in keys
    ensures forall k :: k in keys ==> raw[k] in rows
    decreases |keys|
  {
    if keys == {} {
      rows := [];
    } else {
      var k := LowestKey(raw, keys);
      var rest := ListInOrder(raw, keys - {k});
      rows := [raw[k]] + rest;
    }
  }

  /** A range with distinct keys can be listed. */
  lemma RangeExists<E>(raw: RawEvents<E>, after: Option<ChainOrder>, until: Option<ChainOrder>)
    returns (range: seq<RawRow<E>>)
    requires WellKeyed(raw) && DistinctIn(raw, after, until)
    ensures IsRange(raw, after, until, range)
  {
    range := ListInOrder(raw, Ahead(raw, after, until));
    forall i | 0 <= i < |range| ensures Eligible(range[i], after, until) {
      assert Stored(raw, range[i]);
    }
    forall k | k in raw && Eligible(raw[k], after, until) ensures raw[k] in range {
      assert k in Ahead(raw, after, until);
    }
  }

  lemma OneRow<E>(
    raw: RawEvents<E>, after: Option<ChainOrder>, until: Option<ChainOrder>)
    returns (rows: seq<RawRow<E>>)
    requires WellKeyed(raw)
    ensures IsBatch(raw, after, until, 1, rows)
  {
    var ahead := Ahead(raw, after, until);
    assert forall k :: k in raw && Eligible(raw[k], after, until) ==> k in ahead;
    if ahead == {} {
      rows := [];
    } else {
      var k := LowestKey(raw, ahead);
      rows := [raw[k]];
    }
  }

  /** One row: the fast commit if it goes through, otherwise its failure and the replay. */
  function OneStep<M, E>(s: Sys<M, E>, h: Handlers<M, E>, cx: Context, rows: seq<RawRow<E>>): seq<Step<M, E>>
    requires s.phase.Draining?
  {
    if s.phase.replaying then [Replay(h, cx, 1, rows, true)]
    else if Optimistic(h, cx, Start(s.db.model, rows), rows).Some? then [Fast(h, cx, 1, rows, true)]
    else [FastFails(1, rows, |rows|)] + [Replay(h, cx, 1, rows, true)]
  }

  lemma OneStepRuns<M, E>(s: Sys<M, E>, h: Handlers<M, E>, cx: Context, rows: seq<RawRow<E>>)
    requires WellKeyed(s.db.raw) && Fetches(s, 1, rows)
    ensures PassRun(s, OneStep(s, h, cx, rows)) && Attempted(OneStep(s, h, cx, rows)) == rows
    ensures var s' := Run(s, OneStep(s, h, cx, rows));
            && s'.db == PerRow(h, cx, s.db, rows).0
            && s'.phase == if rows == [] then Idle
                           else s.phase.(after := HighWater(rows), replaying := false)
  {
    var fast, replay := Fast(h, cx, 1, rows, true), Replay(h, cx, 1, rows, true);
    if s.phase.replaying {
      AdvanceIsPerRow(s, replay);
      OneRuns(s, replay);
    } else if Optimistic(h, cx, Start(s.db.model, rows), rows).Some? {
      AdvanceIsPerRow(s, fast);
      OneRuns(s, fast);
    } else {
      var fails := FastFails(1, rows, |rows|);
      var mid := Next(s, fails);
      OneRuns(s, fails);
      AdvanceIsPerRow(mid, replay);
      OneRuns(mid, replay);
      RunConcat(s, [fails], [replay]);
      PassRunConcat(s, [fails], [replay]);
      AttemptedConcat([fails], [replay]);
    }
  }

  /** Strictly ascending rows above a cursor. */
  ghost predicate AscendsFrom<E>(rows: seq<RawRow<E>>, after: Option<ChainOrder>) {
    StrictlyAscending(rows) && forall i :: 0 <= i < |rows| ==> Above(rows[i].chainOrder, after)
  }

  lemma PrependAscends<E>(row: RawRow<E>, rest: seq<RawRow<E>>, after: Option<ChainOrder>)
    requires AscendsFrom(rest, Some(row.chainOrder)) && Above(row.chainOrder, after)
    ensures AscendsFrom([row] + rest, after)
  {
  }

  lemma SharedKeyIsMissed<E>(rows: seq<RawRow<E>>, after: Option<ChainOrder>, a: RawRow<E>, b: RawRow<E>)
    requires AscendsFrom(rows, after) && a != b && a.chainOrder == b.chainOrder
    ensures a !in rows || b !in rows
  {
  }

  /** From every state of a pass there is a run that ends it, one row at a time; it never attempts one key twice. */
  lemma {:induction false} PassOfOnes<M, E>(s: Sys<M, E>, h: Handlers<M, E>, cx: Context)
    returns (steps: seq<Step<M, E>>)
    requires WellKeyed(s.db.raw) && s.phase.Draining?
    ensures PassRun(s, steps) && Run(s, steps).phase.Idle?
    ensures AscendsFrom(Attempted(steps), s.phase.after)
    decreases |Ahead(s.db.raw, s.phase.after, Some(s.phase.ceiling))|
  {
    var one, rows := OneMove(s, h, cx);
    steps := one;
    if rows != [] {
      var rest := PassOfOnes(Run(s, one), h, cx);
      steps := one + rest;
      RunConcat(s, one, rest);
      PassRunConcat(s, one, rest);
      AttemptedConcat(one, rest);
      PrependAscends(rows[0], Attempted(rest), s.phase.after);
    }
  }

  /** Where attempting `rows`, at most one of them, leaves the pass. */
  ghost predicate Moved<M, E>(s: Sys<M, E>, s': Sys<M, E>, rows: seq<RawRow<E>>)
    requires s.phase.Draining?
  {
    && WellKeyed(s'.db.raw)
    && if rows == [] then s'.phase.Idle?
       else && rows == [rows[0]] && Above(rows[0].chainOrder, s.phase.after)
            && s'.phase == s.phase.(after := Some(rows[0].chainOrder), replaying := false)
            && |Ahead(s'.db.raw, s'.phase.after, Some(s.phase.ceiling))|
               < |Ahead(s.db.raw, s.phase.after, Some(s.phase.ceiling))|
  }

  lemma OneRowMoves<M, E>(s: Sys<M, E>, s': Sys<M, E>, h: Handlers<M, E>, cx: Context, rows: seq<RawRow<E>>)
    requires WellKeyed(s.db.raw) && Fetches(s, 1, rows) && s'.db == PerRow(h, cx, s.db, rows).0
    requires s'.phase == if rows == [] then Idle else s.phase.(after := HighWater(rows), replaying := false)
    ensures Moved(s, s', rows)
  {
    if rows != [] {
      assert Eligible(rows[0], s.phase.after, Some(s.phase.ceiling));
      BatchShrinks(h, cx, s.db, s.phase.after, Some(s.phase.ceiling), 1, rows);
    }
  }

  /** A run that attempts the lowest row ahead, or ends the pass if there is none. */
  lemma OneMove<M, E>(s: Sys<M, E>, h: Handlers<M, E>, cx: Context) returns (one: seq<Step<M, E>>, rows: seq<RawRow<E>>)
    requires WellKeyed(s.db.raw) && s.phase.Draining?
    ensures PassRun(s, one) && Attempted(one) == rows && Moved(s, Run(s, one), rows)
  {
    rows := OneRow(s.db.raw, s.phase.after, Some(s.phase.ceiling));
    one := OneStep(s, h, cx, rows);
    OneStepRuns(s, h, cx, rows);
    OneRowMoves(s, Run(s, one), h, cx, rows);
  }

  ghost predicate Covers<M, E>(s: Sys<M, E>, steps: seq<Step<M, E>>)
    requires s.phase.Draining?
  {
    PassRun(s, steps) && Run(s, steps).phase.Idle? ==>
      TakesAll(s.db.raw, s.phase.after, Some(s.phase.ceiling), Attempted(steps))
  }

  /**
   From a state inside a pass, every run that ends the pass covers its range, whatever the batch
   sizes and whatever commits meanwhile, if and only if the range's pending keys are distinct.
   */
  lemma PassesCoverIffKeysDistinct<M, E>(s: Sys<M, E>, h: Handlers<M, E>, cx: Context)
    requires WellKeyed(s.db.raw) && s.phase.Draining?
    ensures (forall steps: seq<Step<M, E>> :: Covers(s, steps))
            <==> DistinctIn(s.db.raw, s.phase.after, Some(s.phase.ceiling))
  {
    var raw, after, until := s.db.raw, s.phase.after, Some(s.phase.ceiling);
    if DistinctIn(raw, after, until) {
      var range := RangeExists(raw, after, until);
      forall steps: seq<Step<M, E>> ensures Covers(s, steps) {
        if PassRun(s, steps) {
          PassCoversRange(s, steps, range);
        }
      }
    } else {
      var j, k :| j in raw && k in raw && j != k && Eligible(raw[j], after, until)
                  && Eligible(raw[k], after, until) && raw[j].chainOrder == raw[k].chainOrder;
      var steps := PassOfOnes(s, h, cx);
      assert !TakesAll(raw, after, until, Attempted(steps)) by {
        SharedKeyIsMissed(Attempted(steps), after, raw[j], raw[k]);
      }
      assert !Covers(s, steps);
    }
  }

  // ---------------------------------------------------------------- the range of a pass

  ghost predicate AllWithin<E>(rows: seq<RawRow<E>>, after: Option<ChainOrder>, ceiling: ChainOrder) {
    forall i :: 0 <= i < |rows| ==>
      !rows[i].processed && rows[i].event.Some? && rows[i].chainOrder <= ceiling
      && (after.Some? ==> after.value < rows[i].chainOrder)
  }

  /** Every row of a pass lies above its cursor and at or below its ceiling, keys tied or not. */
  lemma {:induction false} PassStaysInRange<M, E>(s: Sys<M, E>, steps: seq<Step<M, E>>)
    requires s.phase.Draining? && PassRun(s, steps)
    ensures AllWithin(Attempted(steps), s.phase.after, s.phase.ceiling)
    decreases |steps|
  {
    if steps != [] {
      var step, s', rest := steps[0], Next(s, steps[0]), steps[1..];
      if Commits(step) {
        AdvanceIsPerRow(s, step);
        assert AllEligible(step.rows, s.phase.after, Some(s.phase.ceiling));
        assert AllWithin(step.rows, s.phase.after, s.phase.ceiling);
      }
      if s'.phase.Idle? {
        IdleAttemptsNothing(s', rest);
      } else {
        PassStaysInRange(s', rest);
      }
      assert AllWithin(Attempted(rest), s.phase.after, s.phase.ceiling);
    }
  }

  /**
   A forward pass attempts no row at or below the floor, and a retry pass starts from the front; neither
   attempts a row above the barrier it read.
   */
  lemma PassStartsAtFloor<M, E>(s: Sys<M, E>, retry: bool, ceiling: Option<ChainOrder>, steps: seq<Step<M, E>>)
    requires Enabled(s, Begin(retry, ceiling)) && PassRun(Next(s, Begin(retry, ceiling)), steps)
    ensures var rows := Attempted(steps);
            forall i :: 0 <= i < |rows| ==>
              && Barrier(s.db.cursors).Some? && rows[i].chainOrder <= Barrier(s.db.cursors).value
              && (!retry && s.floor.Some? ==> s.floor.value < rows[i].chainOrder)
    ensures retry && ceiling.Some? ==> Next(s, Begin(retry, ceiling)).phase.after.None?
  {
    var s' := Next(s, Begin(retry, ceiling));
    if ceiling.None? {
      IdleAttemptsNothing(s', steps);
    } else {
      PassStaysInRange(s', steps);
    }
  }

  /**
   A new process starts over: its first pass, a retry or not, attempts every pending row inside the barrier
   once it has ended, whatever the old process had raised its floor to.
   */
  lemma RestartStartsOver<M, E>(
    s: Sys<M, E>, retry: bool, ceiling: ChainOrder, steps: seq<Step<M, E>>, range: seq<RawRow<E>>)
    requires WellKeyed(s.db.raw) && IsRange(s.db.raw, None, Barrier(s.db.cursors), range)
    requires Enabled(Next(s, Restart), Begin(retry, Some(ceiling)))
    requires PassRun(Next(Next(s, Restart), Begin(retry, Some(ceiling))), steps)
    requires Run(Next(Next(s, Restart), Begin(retry, Some(ceiling))), steps).phase.Idle?
    ensures Attempted(steps) == range
  {
    assert IsRange(s.db.raw, None, Some(ceiling), range) by {
      forall i | 0 <= i < |range| ensures Eligible(range[i], None, Some(ceiling)) {
        assert Stored(s.db.raw, range[i]) && Eligible(range[i], None, Barrier(s.db.cursors));
      }
    }
    PassCoversRange(Next(Next(s, Restart), Begin(retry, Some(ceiling))), steps, range);
  }
}
