/** Ordered first attempts: what holds after every run of the interleaved components. */
module PipelineRuns {
  import opened Prelude
  import opened PipelineModel
  import opened PipelineSteps

  ghost predicate DistinctKeys<E>(raw: RawEvents<E>) {
    forall j, k :: j in raw && k in raw && j != k ==> raw[j].chainOrder != raw[k].chainOrder
  }

  /** Capture inserts nothing at or below an earlier barrier and reuses no key. */
  ghost predicate CapturesAbove<M, E>(s: Sys<M, E>, edges: seq<Edge<E>>, ingestedAt: int) {
    var raw' := Captured(s.db.raw, edges, ingestedAt);
    && DistinctKeys(raw')
    && forall k :: k in raw' && k !in s.db.raw && s.high.Some? ==> raw'[k].chainOrder > s.high.value
  }

  /** What ordered attempts need of the environment: pages move their own cursor and capture above the barrier. */
  ghost predicate Orderly<M, E>(s: Sys<M, E>, step: Step<M, E>) {
    step.Capture? ==> step.stream != CAPTURE_STREAM && CapturesAbove(s, step.edges, step.ingestedAt)
  }

  ghost predicate OrderlyRun<M, E>(s: Sys<M, E>, steps: seq<Step<M, E>>)
    requires Runs(s, steps)
    decreases |steps|
  {
    steps == [] || (Orderly(s, steps[0]) && OrderlyRun(Next(s, steps[0]), steps[1..]))
  }

  ghost predicate FirstsAscend(firsts: seq<First>) {
    forall i, j :: 0 <= i < j < |firsts| ==> firsts[i].order < firsts[j].order
  }

  ghost predicate FirstsKnown<E>(raw: RawEvents<E>, high: Option<ChainOrder>, firsts: seq<First>) {
    forall i :: 0 <= i < |firsts| ==>
      && firsts[i].msgId in raw && raw[firsts[i].msgId].chainOrder == firsts[i].order
      && high.Some? && firsts[i].order <= firsts[i].barrier <= high.value
  }

  /** Rows never attempted lie above every first attempt so far. */
  ghost predicate UntriedAbove<E>(raw: RawEvents<E>, firsts: seq<First>) {
    forall k, i :: k in raw && Pending(raw[k]) && !Tried(firsts, k) && 0 <= i < |firsts|
      ==> firsts[i].order < raw[k].chainOrder
  }

  /** Every pending row at or below `mark` has been attempted. */
  ghost predicate TriedUpTo<E>(raw: RawEvents<E>, firsts: seq<First>, mark: Option<ChainOrder>) {
    mark.Some? ==> forall k :: k in raw && Pending(raw[k]) && raw[k].chainOrder <= mark.value ==> Tried(firsts, k)
  }

  predicate Within(mark: Option<ChainOrder>, high: Option<ChainOrder>) {
    mark.Some? ==> high.Some? && mark.value <= high.value
  }

  ghost predicate Ordered<M, E>(s: Sys<M, E>) {
    && WellKeyed(s.db.raw) && DistinctKeys(s.db.raw)
    && FirstsAscend(s.firsts) && FirstsKnown(s.db.raw, s.high, s.firsts)
    && UntriedAbove(s.db.raw, s.firsts)
    && TriedUpTo(s.db.raw, s.firsts, s.floor)
    && Within(s.floor, s.high) && Within(Barrier(s.db.cursors), s.high)
    && (s.phase.Draining? ==>
          && s.phase.ceiling <= s.phase.barrier
          && Within(Some(s.phase.barrier), s.high) && Within(s.phase.after, s.high)
          && TriedUpTo(s.db.raw, s.firsts, s.phase.after))
  }

  lemma {:induction false} RecordGrows<E>(firsts: seq<First>, rows: seq<RawRow<E>>, barrier: ChainOrder)
    ensures firsts <= Record(firsts, rows, barrier)
    ensures forall i :: 0 <= i < |rows| ==> Tried(Record(firsts, rows, barrier), rows[i].msgId)
    ensures forall id :: Tried(firsts, id) ==> Tried(Record(firsts, rows, barrier), id)
    decreases |rows|
  {
    if rows != [] {
      var front, row := rows[..|rows| - 1], rows[|rows| - 1];
      RecordGrows(firsts, front, barrier);
      var before, all := Record(firsts, front, barrier), Record(firsts, rows, barrier);
      assert before <= all;
      forall id | Tried(before, id) ensures Tried(all, id) {
        var i :| 0 <= i < |before| && before[i].msgId == id;
        assert all[i].msgId == id;
      }
      assert Tried(all, row.msgId) by {
        if !Tried(before, row.msgId) {
          assert all[|all| - 1].msgId == row.msgId;
        }
      }
      forall i | 0 <= i < |rows| ensures Tried(all, rows[i].msgId) {
        if i < |rows| - 1 {
          assert front[i] == rows[i];
        }
      }
    }
  }

  /** Attempting the front of a fetched batch keeps first attempts ascending. */
  lemma {:induction false} RecordKeepsOrder<E>(
    raw: RawEvents<E>, high: Option<ChainOrder>, firsts: seq<First>, barrier: ChainOrder,
    after: Option<ChainOrder>, ceiling: ChainOrder, rows: seq<RawRow<E>>, n: nat)
    requires WellKeyed(raw) && DistinctKeys(raw) && n <= |rows|
    requires AllStored(raw, rows) && AllEligible(rows, after, Some(ceiling)) && Ascending(rows) && NoRepeats(rows)
    requires TakesLowest(raw, after, Some(ceiling), rows)
    requires FirstsAscend(firsts) && FirstsKnown(raw, high, firsts) && UntriedAbove(raw, firsts)
    requires TriedUpTo(raw, firsts, after) && ceiling <= barrier && Within(Some(barrier), high)
    ensures var f := Record(firsts, rows[..n], barrier);
            FirstsAscend(f) && FirstsKnown(raw, high, f) && UntriedAbove(raw, f)
    decreases n
  {
    if n == 0 {
      assert rows[..n] == [];
    } else {
      RecordKeepsOrder(raw, high, firsts, barrier, after, ceiling, rows, n - 1);
      assert rows[..n][..n - 1] == rows[..n - 1];
      var before := Record(firsts, rows[..n - 1], barrier);
      var row := rows[n - 1];
      assert Stored(raw, rows[n - 1]) && Eligible(rows[n - 1], after, Some(ceiling));
      if !Tried(before, row.msgId) {
        UntriedIsHigher(raw, firsts, barrier, after, ceiling, rows, n);
        AppendKeepsOrder(raw, high, before, First(row.msgId, row.chainOrder, barrier));
      }
    }
  }

  /** Whatever is untried after the first `n - 1` rows of a batch, and is not the n-th, lies above the n-th. */
  lemma UntriedIsHigher<E>(
    raw: RawEvents<E>, firsts: seq<First>, barrier: ChainOrder, after: Option<ChainOrder>, ceiling: ChainOrder,
    rows: seq<RawRow<E>>, n: nat)
    requires WellKeyed(raw) && DistinctKeys(raw) && 0 < n <= |rows|
    requires AllStored(raw, rows) && AllEligible(rows, after, Some(ceiling)) && Ascending(rows)
    requires TakesLowest(raw, after, Some(ceiling), rows) && TriedUpTo(raw, firsts, after)
    ensures forall k ::
              && k in raw && Pending(raw[k]) && k != rows[n - 1].msgId
              && !Tried(Record(firsts, rows[..n - 1], barrier), k) ==>
                rows[n - 1].chainOrder < raw[k].chainOrder
  {
    var before := Record(firsts, rows[..n - 1], barrier);
    RecordGrows(firsts, rows[..n - 1], barrier);
    forall k | k in raw && Pending(raw[k]) && !Tried(before, k) && k != rows[n - 1].msgId
      ensures rows[n - 1].chainOrder < raw[k].chainOrder
    {
      forall i | 0 <= i < n - 1 ensures rows[i].msgId != k {
        assert rows[..n - 1][i] == rows[i];
      }
      NextIsHigher(raw, firsts, after, ceiling, rows, n, k);
    }
  }

  lemma AppendKeepsOrder<E>(raw: RawEvents<E>, high: Option<ChainOrder>, before: seq<First>, first: First)
    requires FirstsAscend(before) && FirstsKnown(raw, high, before) && UntriedAbove(raw, before)
    requires first.msgId in raw && Pending(raw[first.msgId]) && raw[first.msgId].chainOrder == first.order
    requires !Tried(before, first.msgId)
    requires high.Some? && first.order <= first.barrier <= high.value
    requires forall k :: k in raw && Pending(raw[k]) && !Tried(before, k) && k != first.msgId
               ==> first.order < raw[k].chainOrder
    ensures var f := before + [first];
            FirstsAscend(f) && FirstsKnown(raw, high, f) && UntriedAbove(raw, f)
  {
    var f := before + [first];
    forall k | k in raw && Pending(raw[k]) && !Tried(f, k)
      ensures !Tried(before, k) && k != first.msgId
    {
      assert f[|before|] == first;
      assert forall i :: 0 <= i < |before| ==> f[i] == before[i];
    }
  }

  /** A row that is still untried after the first `n` of a batch lies above the n-th. */
  lemma NextIsHigher<E>(
    raw: RawEvents<E>, firsts: seq<First>, after: Option<ChainOrder>, ceiling: ChainOrder,
    rows: seq<RawRow<E>>, n: nat, k: MsgId)
    requires WellKeyed(raw) && DistinctKeys(raw) && 0 < n <= |rows|
    requires AllStored(raw, rows) && AllEligible(rows, after, Some(ceiling)) && Ascending(rows)
    requires TakesLowest(raw, after, Some(ceiling), rows)
    requires TriedUpTo(raw, firsts, after)
    requires k in raw && Pending(raw[k]) && !Tried(firsts, k)
    requires forall i :: 0 <= i < n ==> rows[i].msgId != k
    ensures rows[n - 1].chainOrder < raw[k].chainOrder
  {
  }

  /** The same rows under the same keys, with no more of them pending. */
  ghost predicate Shrinks<E>(raw: RawEvents<E>, raw': RawEvents<E>) {
    && raw'.Keys == raw.Keys
    && forall k :: k in raw ==>
         && raw'[k].msgId == raw[k].msgId && raw'[k].chainOrder == raw[k].chainOrder
         && (Pending(raw'[k]) ==> Pending(raw[k]))
  }

  /** The marks only shrink what is pending, and nothing else in `raw` moves. */
  lemma CommitShrinksPending<M, E>(h: Handlers<M, E>, cx: Context, db: Db<M, E>, rows: seq<RawRow<E>>)
    ensures Shrinks(db.raw, PerRow(h, cx, db, rows).0.raw) && PerRow(h, cx, db, rows).0.cursors == db.cursors
  {
  }

  lemma ShrinkKeepsKeys<E>(raw: RawEvents<E>, raw': RawEvents<E>)
    requires Shrinks(raw, raw') && WellKeyed(raw) && DistinctKeys(raw)
    ensures WellKeyed(raw') && DistinctKeys(raw')
  {
  }

  lemma ShrinkKeepsFirsts<E>(raw: RawEvents<E>, raw': RawEvents<E>, high: Option<ChainOrder>, firsts: seq<First>)
    requires Shrinks(raw, raw') && FirstsKnown(raw, high, firsts) && UntriedAbove(raw, firsts)
    ensures FirstsKnown(raw', high, firsts) && UntriedAbove(raw', firsts)
  {
  }

  lemma ShrinkKeepsTried<E>(
    raw: RawEvents<E>, raw': RawEvents<E>, firsts: seq<First>, f: seq<First>, mark: Option<ChainOrder>)
    requires Shrinks(raw, raw') && TriedUpTo(raw, firsts, mark)
    requires forall id :: Tried(firsts, id) ==> Tried(f, id)
    ensures TriedUpTo(raw', f, mark)
  {
  }

  /** What a committed batch leaves behind: the order invariant, with the cursor moved to its last row. */
  ghost predicate BatchDone<M, E>(
    s: Sys<M, E>, raw': RawEvents<E>, f: seq<First>, size: nat, rows: seq<RawRow<E>>)
    requires s.phase.Draining?
  {
    && WellKeyed(raw') && DistinctKeys(raw')
    && FirstsAscend(f) && FirstsKnown(raw', s.high, f) && UntriedAbove(raw', f)
    && TriedUpTo(raw', f, s.floor)
    && (|rows| < size ==> TriedUpTo(raw', f, Some(s.phase.ceiling)))
    && (|rows| == size ==> TriedUpTo(raw', f, HighWater(rows)) && Within(HighWater(rows), s.high))
  }

  lemma BatchCovers<M, E>(s: Sys<M, E>, size: nat, rows: seq<RawRow<E>>, f: seq<First>)
    requires Ordered(s) && Fetches(s, size, rows) && f == Record(s.firsts, rows, s.phase.barrier)
    ensures |rows| < size ==> TriedUpTo(s.db.raw, f, Some(s.phase.ceiling))
    ensures |rows| == size ==> TriedUpTo(s.db.raw, f, HighWater(rows)) && Within(HighWater(rows), s.high)
  {
    RecordGrows(s.firsts, rows, s.phase.barrier);
    if |rows| < size {
      ShortBatchCovers(s.db.raw, s.firsts, f, s.phase.after, s.phase.ceiling, rows);
    } else {
      FullBatchCovers(s.db.raw, s.firsts, f, s.phase.after, s.phase.ceiling, rows);
      assert Stored(s.db.raw, rows[|rows| - 1]) && Eligible(rows[|rows| - 1], s.phase.after, Some(s.phase.ceiling));
    }
  }

  lemma BatchKeepsOrder<M, E>(
    s: Sys<M, E>, size: nat, rows: seq<RawRow<E>>, raw': RawEvents<E>, f: seq<First>)
    requires Ordered(s) && Fetches(s, size, rows) && Shrinks(s.db.raw, raw')
    requires f == Record(s.firsts, rows, s.phase.barrier)
    ensures BatchDone(s, raw', f, size, rows)
  {
    var raw := s.db.raw;
    assert FirstsAscend(f) && FirstsKnown(raw, s.high, f) && UntriedAbove(raw, f) by {
      RecordKeepsOrder(raw, s.high, s.firsts, s.phase.barrier, s.phase.after, s.phase.ceiling, rows, |rows|);
      assert rows[..|rows|] == rows;
    }
    ShrinkKeepsKeys(raw, raw');
    ShrinkKeepsFirsts(raw, raw', s.high, f);
    assert TriedUpTo(raw', f, s.floor) by {
      RecordGrows(s.firsts, rows, s.phase.barrier);
      ShrinkKeepsTried(raw, raw', s.firsts, f, s.floor);
    }
    BatchCovers(s, size, rows, f);
    if |rows| < size {
      ShrinkKeepsTried(raw, raw', f, f, Some(s.phase.ceiling));
    } else {
      ShrinkKeepsTried(raw, raw', f, f, HighWater(rows));
    }
  }

  lemma ShortBatchCovers<E>(
    raw: RawEvents<E>, firsts: seq<First>, f: seq<First>, after: Option<ChainOrder>, ceiling: ChainOrder,
    rows: seq<RawRow<E>>)
    requires TakesAll(raw, after, Some(ceiling), rows) && WellKeyed(raw)
    requires TriedUpTo(raw, firsts, after)
    requires forall i :: 0 <= i < |rows| ==> Tried(f, rows[i].msgId)
    requires forall id :: Tried(firsts, id) ==> Tried(f, id)
    ensures TriedUpTo(raw, f, Some(ceiling))
  {
  }

  lemma FullBatchCovers<E>(
    raw: RawEvents<E>, firsts: seq<First>, f: seq<First>, after: Option<ChainOrder>, ceiling: ChainOrder,
    rows: seq<RawRow<E>>)
    requires WellKeyed(raw) && DistinctKeys(raw) && rows != []
    requires AllStored(raw, rows) && AllEligible(rows, after, Some(ceiling)) && Ascending(rows)
    requires TakesLowest(raw, after, Some(ceiling), rows)
    requires TriedUpTo(raw, firsts, after)
    requires forall i :: 0 <= i < |rows| ==> Tried(f, rows[i].msgId)
    requires forall id :: Tried(firsts, id) ==> Tried(f, id)
    ensures TriedUpTo(raw, f, HighWater(rows))
  {
  }

  /** A page of another stream leaves the barrier alone. */
  lemma PageKeepsBarrier(cursors: map<string, Cursor>, stream: string, end: Option<ChainOrder>, atHead: bool)
    requires stream != CAPTURE_STREAM
    ensures Barrier(PageCursor(cursors, stream, end, atHead)) == Barrier(cursors)
  {
  }

  lemma GrowthKeepsTried<E>(raw: RawEvents<E>, raw': RawEvents<E>, firsts: seq<First>, mark: Option<ChainOrder>)
    requires forall k :: k in raw ==> k in raw' && raw'[k] == raw[k]
    requires forall k :: k in raw' && k !in raw ==> mark.Some? ==> raw'[k].chainOrder > mark.value
    requires TriedUpTo(raw, firsts, mark)
    ensures TriedUpTo(raw', firsts, mark)
  {
  }

  lemma GrowthKeepsFirsts<E>(raw: RawEvents<E>, raw': RawEvents<E>, high: Option<ChainOrder>, firsts: seq<First>)
    requires forall k :: k in raw ==> k in raw' && raw'[k] == raw[k]
    requires forall k :: k in raw' && k !in raw && high.Some? ==> raw'[k].chainOrder > high.value
    requires FirstsKnown(raw, high, firsts) && UntriedAbove(raw, firsts)
    ensures FirstsKnown(raw', high, firsts) && UntriedAbove(raw', firsts)
  {
    forall i | 0 <= i < |firsts| ensures firsts[i].msgId in raw' && raw'[firsts[i].msgId] == raw[firsts[i].msgId] {
      assert firsts[i].msgId in raw;
    }
  }

  lemma CaptureKeepsOrder<M, E>(s: Sys<M, E>, step: Step<M, E>)
    requires Ordered(s) && step.Capture? && Orderly(s, step)
    ensures Ordered(Next(s, step))
  {
    var raw, raw' := s.db.raw, Captured(s.db.raw, step.edges, step.ingestedAt);
    CapturedKeepsKeys(raw, step.edges, step.ingestedAt);
    PageKeepsBarrier(s.db.cursors, step.stream, step.endCursor, step.atHead);
    GrowthKeepsFirsts(raw, raw', s.high, s.firsts);
    GrowthKeepsTried(raw, raw', s.firsts, s.floor);
    if s.phase.Draining? {
      GrowthKeepsTried(raw, raw', s.firsts, s.phase.after);
    }
  }

  lemma TriedPrefixKeepsOrder<M, E>(s: Sys<M, E>, step: Step<M, E>)
    requires Ordered(s) && (step.Abort? || step.FastFails?) && Enabled(s, step)
    ensures Ordered(Next(s, step))
  {
    var rows := step.rows;
    if rows != [] {
      RecordGrows(s.firsts, rows[..step.tried], s.phase.barrier);
      RecordKeepsOrder(s.db.raw, s.high, s.firsts, s.phase.barrier, s.phase.after, s.phase.ceiling, rows, step.tried);
    }
  }

  lemma PublishKeepsOrder<M, E>(s: Sys<M, E>, step: Step<M, E>)
    requires Ordered(s) && step.Publish?
    ensures Ordered(Next(s, step))
  {
  }

  lemma DrainKeepsOrder<M, E>(s: Sys<M, E>, step: Step<M, E>)
    requires Ordered(s) && Commits(step) && Enabled(s, step)
    ensures Ordered(Next(s, step))
  {
    var db' := PerRow(step.h, step.cx, s.db, step.rows).0;
    AdvanceIsPerRow(s, step);
    CommitShrinksPending(step.h, step.cx, s.db, step.rows);
    BatchKeepsOrder(s, step.size, step.rows, db'.raw, Record(s.firsts, step.rows, s.phase.barrier));
  }

  /** Every step of every component keeps the order invariant. */
  lemma StepKeepsOrder<M, E>(s: Sys<M, E>, step: Step<M, E>)
    requires Ordered(s) && Enabled(s, step) && Orderly(s, step)
    ensures Ordered(Next(s, step))
  {
    match step
    case Capture(_, _, _, _, _) => CaptureKeepsOrder(s, step);
    case Publish(_, _) => PublishKeepsOrder(s, step);
    case Fast(_, _, _, _, _) => DrainKeepsOrder(s, step);
    case Replay(_, _, _, _, _) => DrainKeepsOrder(s, step);
    case FastFails(_, _, _) => TriedPrefixKeepsOrder(s, step);
    case Abort(_, _, _) => TriedPrefixKeepsOrder(s, step);
    case Elsewhere(_) =>
    case Begin(_, _) =>
    case Restart =>
  }

  lemma {:induction false} RunKeepsOrder<M, E>(s: Sys<M, E>, steps: seq<Step<M, E>>)
    requires Ordered(s) && Runs(s, steps) && OrderlyRun(s, steps)
    ensures Ordered(Run(s, steps))
    decreases |steps|
  {
    if steps != [] {
      StepKeepsOrder(s, steps[0]);
      RunKeepsOrder(Next(s, steps[0]), steps[1..]);
    }
  }

  /**
   After every run of a freshly booted system: first attempts happened in strictly ascending
   chain order, none above the barrier its pass had read, every pending row at or below
   `floor` has been attempted, and inside a pass so has every pending row at or below its cursor.
   */
  lemma FirstAttemptsAreOrdered<M, E>(m: M, steps: seq<Step<M, E>>)
    requires Runs(Boot(m), steps) && OrderlyRun(Boot(m), steps)
    ensures var s := Run(Boot(m), steps);
            && (forall i, j :: 0 <= i < j < |s.firsts| ==> s.firsts[i].order < s.firsts[j].order)
            && (forall i :: 0 <= i < |s.firsts| ==> s.firsts[i].order <= s.firsts[i].barrier)
            && TriedUpTo(s.db.raw, s.firsts, s.floor)
            && (s.phase.Draining? ==> TriedUpTo(s.db.raw, s.firsts, s.phase.after))
  {
    RunKeepsOrder(Boot(m), steps);
  }

  // ---------------------------------------------------------------- every attempt is recorded

  /** The rows a step attempts, whether it commits or not. */
  function Tries<M, E>(step: Step<M, E>): seq<RawRow<E>> {
    if Commits(step) then step.rows
    else if (step.FastFails? || step.Abort?) && step.tried <= |step.rows| then step.rows[..step.tried]
    else []
  }

  /** A step records every row it attempts, a step without attempts nothing, and no record is lost. */
  lemma StepRecords<M, E>(s: Sys<M, E>, step: Step<M, E>)
    requires Enabled(s, step)
    ensures s.firsts <= Next(s, step).firsts
    ensures forall i :: 0 <= i < |Tries(step)| ==> Tried(Next(s, step).firsts, Tries(step)[i].msgId)
    ensures Tries(step) == [] ==> Next(s, step).firsts == s.firsts
  {
    if Commits(step) {
      AdvanceIsPerRow(s, step);
      RecordGrows(s.firsts, step.rows, s.phase.barrier);
    } else if step.FastFails? || step.Abort? {
      RecordGrows(s.firsts, step.rows[..step.tried], s.phase.barrier);
    }
  }

  lemma {:induction false} RecordsStay<M, E>(s: Sys<M, E>, steps: seq<Step<M, E>>)
    requires Runs(s, steps)
    ensures s.firsts <= Run(s, steps).firsts
    decreases |steps|
  {
    if steps != [] {
      StepRecords(s, steps[0]);
      RecordsStay(Next(s, steps[0]), steps[1..]);
    }
  }

  /** Over every run each row a transaction attempted, committed, failed or aborted, is among the first attempts. */
  lemma {:induction false} EveryAttemptIsRecorded<M, E>(s: Sys<M, E>, steps: seq<Step<M, E>>, n: nat, i: nat)
    requires Runs(s, steps) && n < |steps| && i < |Tries(steps[n])|
    ensures Tried(Run(s, steps).firsts, Tries(steps[n])[i].msgId)
    decreases |steps|
  {
    var s' := Next(s, steps[0]);
    if n > 0 {
      EveryAttemptIsRecorded(s', steps[1..], n - 1, i);
    } else {
      StepRecords(s, steps[0]);
      RecordsStay(s', steps[1..]);
      var k :| 0 <= k < |s'.firsts| && s'.firsts[k].msgId == Tries(steps[0])[i].msgId;
      assert Run(s, steps).firsts[k] == s'.firsts[k];
    }
  }
}
