/**
 The capture loop, the drain loop and the background jobs as interleaved atomic steps. A batch
 of the drain loop is up to two transactions, the optimistic one and its savepointed replay,
 and any other component may commit between them.
 */
module PipelineSteps {
  import opened Prelude
  import opened PipelineModel

  /** A row's first attempt: which row, its key, and the barrier its pass had read. */
  datatype First = First(msgId: MsgId, order: ChainOrder, barrier: ChainOrder)

  /** Where the drain loop is: between passes, or inside one, possibly about to replay a failed batch. */
  datatype Phase =
    | Idle
    | Draining(after: Option<ChainOrder>, ceiling: ChainOrder, barrier: ChainOrder, replaying: bool)

  /** `high` is the highest barrier published so far; `firsts` lists first attempts in the order they happened. */
  datatype Sys<M, E> = Sys(
    db: Db<M, E>, floor: Option<ChainOrder>, phase: Phase, high: Option<ChainOrder>, firsts: seq<First>)

  /** An unacknowledged batch was committed but reported as failed, which ends the pass like any error. */
  datatype Step<!M, !E> =
    | Capture(stream: string, edges: seq<Edge<E>>, endCursor: Option<ChainOrder>, atHead: bool, ingestedAt: int)
    | Publish(cursor: Option<ChainOrder>, atHead: bool)
    | Elsewhere(change: M -> M)                                  // sweeper, reconcilers
    | Begin(retry: bool, ceiling: Option<ChainOrder>)            // snapshot of the ceiling
    | Fast(h: Handlers<M, E>, cx: Context, size: nat, rows: seq<RawRow<E>>, acked: bool)
    | FastFails(size: nat, rows: seq<RawRow<E>>, tried: nat)     // a row erred: rolled back, to be replayed
    | Replay(h: Handlers<M, E>, cx: Context, size: nat, rows: seq<RawRow<E>>, acked: bool)
    | Abort(size: nat, rows: seq<RawRow<E>>, tried: nat)         // a batch transaction failed as a whole
    | Restart                                                    // a new process on the same database

  predicate Tried(firsts: seq<First>, id: MsgId) {
    exists i :: 0 <= i < |firsts| && firsts[i].msgId == id
  }

  function Record<E>(firsts: seq<First>, rows: seq<RawRow<E>>, barrier: ChainOrder): seq<First>
    decreases |rows|
  {
    if rows == [] then firsts
    else
      var before := Record(firsts, rows[..|rows| - 1], barrier);
      var row := rows[|rows| - 1];
      if Tried(before, row.msgId) then before else before + [First(row.msgId, row.chainOrder, barrier)]
  }

  /** Steps of the other components. */
  predicate Outside<M, E>(step: Step<M, E>) {
    step.Capture? || step.Publish? || step.Elsewhere?
  }

  function Disturb<M, E>(db: Db<M, E>, step: Step<M, E>): Db<M, E>
    requires Outside(step)
  {
    match step
    case Capture(stream, edges, end, atHead, at) =>
      db.(raw := Captured(db.raw, edges, at), cursors := PageCursor(db.cursors, stream, end, atHead))
    case Publish(cursor, atHead) => db.(cursors := db.cursors[CAPTURE_STREAM := Cursor(cursor, atHead)])
    case Elsewhere(change) => db.(model := change(db.model))
  }

  function DisturbAll<M, E>(db: Db<M, E>, steps: seq<Step<M, E>>): Db<M, E>
    requires forall i :: 0 <= i < |steps| ==> Outside(steps[i])
    decreases |steps|
  {
    if steps == [] then db else DisturbAll(Disturb(db, steps[0]), steps[1..])
  }

  /** Steps that commit a batch. */
  predicate Commits<M, E>(step: Step<M, E>) {
    step.Fast? || step.Replay?
  }

  function OptimisticOn<M, E>(db: Db<M, E>, step: Step<M, E>): Option<Progress<M>>
    requires Commits(step)
  {
    Optimistic(step.h, step.cx, Start(db.model, step.rows), step.rows)
  }

  /** The committed transaction: the whole optimistic drain, or the replay with its savepoints. */
  function Transaction<M, E>(db: Db<M, E>, step: Step<M, E>): (Db<M, E>, Stats)
    requires Commits(step) && (step.Fast? ==> OptimisticOn(db, step).Some?)
  {
    if step.Fast? then
      var p := OptimisticOn(db, step).value;
      (Commit(db, p), p.stats)
    else PerRow(step.h, step.cx, db, step.rows)
  }

  ghost predicate Fetches<M, E>(s: Sys<M, E>, size: nat, rows: seq<RawRow<E>>) {
    s.phase.Draining? && size > 0 && IsBatch(s.db.raw, s.phase.after, Some(s.phase.ceiling), size, rows)
  }

  ghost predicate Enabled<M, E>(s: Sys<M, E>, step: Step<M, E>) {
    match step
    case Capture(_, _, _, _, _) => true
    case Publish(_, _) => true
    case Elsewhere(_) => true
    case Begin(_, ceiling) => s.phase.Idle? && IsCeiling(s.db.raw, s.db.cursors, ceiling)
    case Fast(_, _, size, rows, _) => Fetches(s, size, rows) && !s.phase.replaying && OptimisticOn(s.db, step).Some?
    case FastFails(size, rows, tried) => Fetches(s, size, rows) && !s.phase.replaying && tried <= |rows|
    case Replay(_, _, size, rows, _) => Fetches(s, size, rows) && s.phase.replaying
    case Abort(size, rows, tried) => s.phase.Draining? && tried <= |rows| && (rows == [] || Fetches(s, size, rows))
    case Restart => true
  }

  ghost function Next<M, E>(s: Sys<M, E>, step: Step<M, E>): Sys<M, E>
    requires Enabled(s, step)
  {
    match step
    case Capture(_, _, _, _, _) => s.(db := Disturb(s.db, step))
    case Publish(cursor, _) => s.(db := Disturb(s.db, step), high := GreatestOpt(s.high, cursor))
    case Elsewhere(_) => s.(db := Disturb(s.db, step))
    case Begin(retry, ceiling) =>
      if ceiling.None? then s
      else
        var after := if retry then None else s.floor;
        s.(phase := Draining(after, ceiling.value, Barrier(s.db.cursors).value, false))
    case Fast(_, _, _, _, _) => Advance(s, step)
    case FastFails(_, rows, tried) =>
      s.(phase := s.phase.(replaying := true), firsts := Record(s.firsts, rows[..tried], s.phase.barrier))
    case Replay(_, _, _, _, _) => Advance(s, step)
    case Abort(_, rows, tried) =>
      s.(phase := Idle, firsts := Record(s.firsts, rows[..tried], s.phase.barrier))
    case Restart => s.(phase := Idle, floor := None)
  }

  /** A committed batch: a full one moves the cursor, a short one ends the pass and raises the floor. */
  ghost function Advance<M, E>(s: Sys<M, E>, step: Step<M, E>): Sys<M, E>
    requires Commits(step) && Enabled(s, step)
  {
    var (db', stats) := Transaction(s.db, step);
    var s' := s.(db := db', firsts := Record(s.firsts, step.rows, s.phase.barrier));
    if !step.acked then s'.(phase := Idle)
    else if stats.scanned < step.size then s'.(phase := Idle, floor := Some(s.phase.ceiling))
    else s'.(phase := s.phase.(after := stats.maxChainOrder, replaying := false))
  }

  ghost predicate Runs<M, E>(s: Sys<M, E>, steps: seq<Step<M, E>>)
    decreases |steps|
  {
    steps == [] || (Enabled(s, steps[0]) && Runs(Next(s, steps[0]), steps[1..]))
  }

  ghost function Run<M, E>(s: Sys<M, E>, steps: seq<Step<M, E>>): Sys<M, E>
    requires Runs(s, steps)
    decreases |steps|
  {
    if steps == [] then s else Run(Next(s, steps[0]), steps[1..])
  }

  /** A fresh process on an empty database. */
  function Boot<M, E>(m: M): Sys<M, E> {
    Sys(Db(map[], map[], m), None, Idle, None, [])
  }

  /** The rows of the committed batches, in order. */
  function Attempted<M, E>(steps: seq<Step<M, E>>): seq<RawRow<E>>
    decreases |steps|
  {
    if steps == [] then []
    else (if Commits(steps[0]) then steps[0].rows else []) + Attempted(steps[1..])
  }

  // ---------------------------------------------------------------- laws

  /** Whichever strategy committed, the transaction is the per-row drain of its own fetch. */
  lemma TransactionIsPerRow<M, E>(db: Db<M, E>, step: Step<M, E>)
    requires Commits(step) && (step.Fast? ==> OptimisticOn(db, step).Some?)
    ensures Transaction(db, step) == PerRow(step.h, step.cx, db, step.rows)
  {
    TwoStrategyEqualsPerRow(step.h, step.cx, db, step.rows);
  }

  /** What a committed batch does to the loop's state, whichever strategy committed it. */
  lemma AdvanceIsPerRow<M, E>(s: Sys<M, E>, step: Step<M, E>)
    requires Commits(step) && Enabled(s, step)
    ensures var s' := Next(s, step);
            && s'.db == PerRow(step.h, step.cx, s.db, step.rows).0
            && s'.firsts == Record(s.firsts, step.rows, s.phase.barrier) && s'.high == s.high
            && s'.phase == (if step.acked && |step.rows| == step.size
                            then s.phase.(after := HighWater(step.rows), replaying := false) else Idle)
            && s'.floor == (if step.acked && |step.rows| < step.size then Some(s.phase.ceiling) else s.floor)
  {
    TransactionIsPerRow(s.db, step);
    ScannedAll(step.h, step.cx, Start(s.db.model, step.rows), step.rows);
  }

  lemma RunOne<M, E>(s: Sys<M, E>, step: Step<M, E>)
    requires Enabled(s, step)
    ensures Runs(s, [step]) && Run(s, [step]) == Next(s, step)
    ensures Attempted([step]) == if Commits(step) then step.rows else []
  {
    var one := [step];
    var rest := one[1..];
    assert one[0] == step && rest == [];
    assert Runs(Next(s, one[0]), rest) && Run(Next(s, one[0]), rest) == Next(s, one[0]);
    assert Attempted(rest) == [];
  }

  lemma {:induction false} RunConcat<M, E>(s: Sys<M, E>, a: seq<Step<M, E>>, b: seq<Step<M, E>>)
    requires Runs(s, a) && Runs(Run(s, a), b)
    ensures Runs(s, a + b) && Run(s, a + b) == Run(Run(s, a), b)
    decreases |a|
  {
    if a == [] {
      assert a + b == b;
    } else {
      assert (a + b)[1..] == a[1..] + b;
      RunConcat(Next(s, a[0]), a[1..], b);
    }
  }

  lemma {:induction false} AttemptedConcat<M, E>(a: seq<Step<M, E>>, b: seq<Step<M, E>>)
    ensures Attempted(a + b) == Attempted(a) + Attempted(b)
    decreases |a|
  {
    if a == [] {
      assert a + b == b;
    } else {
      assert (a + b)[1..] == a[1..] + b;
      AttemptedConcat(a[1..], b);
    }
  }

  // ---------------------------------------------------------------- cursors

  /** A page of the stream; `Ends` if it carried an end cursor. */
  predicate PageOf<M, E>(step: Step<M, E>, stream: string) {
    step.Capture? && step.stream == stream
  }

  predicate Ends<M, E>(step: Step<M, E>, stream: string) {
    PageOf(step, stream) && step.endCursor.Some?
  }

  function PositionOf(cursors: map<string, Cursor>, stream: string): Option<ChainOrder> {
    if stream in cursors then cursors[stream].cursor else None
  }

  /** What one step does to the cursor row of a stream. */
  lemma StepCursor<M, E>(s: Sys<M, E>, step: Step<M, E>, stream: string)
    requires Enabled(s, step) && stream != CAPTURE_STREAM
    ensures var c, c' := s.db.cursors, Next(s, step).db.cursors;
            && (stream in c' <==> stream in c || PageOf(step, stream))
            && PositionOf(c', stream) == (if Ends(step, stream) then step.endCursor else PositionOf(c, stream))
            && (stream in c' ==>
                  c'[stream].atHead == if PageOf(step, stream) then step.atHead else c[stream].atHead)
  {
    if Commits(step) {
      AdvanceIsPerRow(s, step);
    }
  }

  ghost predicate NoEnds<M, E>(steps: seq<Step<M, E>>, stream: string) {
    forall i :: 0 <= i < |steps| ==> !Ends(steps[i], stream)
  }

  ghost predicate NoPages<M, E>(steps: seq<Step<M, E>>, stream: string) {
    forall i :: 0 <= i < |steps| ==> !PageOf(steps[i], stream)
  }

  ghost predicate NoneIsPublished<M, E>(steps: seq<Step<M, E>>) {
    forall i :: 0 <= i < |steps| ==> !steps[i].Publish?
  }

  lemma {:induction false} CursorStays<M, E>(s: Sys<M, E>, steps: seq<Step<M, E>>, stream: string)
    requires Runs(s, steps) && stream != CAPTURE_STREAM
    ensures var c, c' := s.db.cursors, Run(s, steps).db.cursors;
            && (stream in c ==> stream in c')
            && (NoEnds(steps, stream) ==> PositionOf(c', stream) == PositionOf(c, stream))
            && (NoPages(steps, stream) ==>
                  (stream in c' ==> stream in c && c'[stream].atHead == c[stream].atHead))
    decreases |steps|
  {
    if steps != [] {
      StepCursor(s, steps[0], stream);
      CursorStays(Next(s, steps[0]), steps[1..], stream);
    }
  }

  /**
   Over every run, the position of a stream is the end of its last page that carried one, and it is at head
   if its last page said so.
   */
  lemma {:induction false} CursorIsLastEnd<M, E>(s: Sys<M, E>, steps: seq<Step<M, E>>, stream: string, n: nat)
    requires Runs(s, steps) && stream != CAPTURE_STREAM && n < |steps| && PageOf(steps[n], stream)
    ensures var c := Run(s, steps).db.cursors;
            && stream in c
            && (Ends(steps[n], stream) && NoEnds(steps[n + 1..], stream) ==> c[stream].cursor == steps[n].endCursor)
            && (NoPages(steps[n + 1..], stream) ==> c[stream].atHead == steps[n].atHead)
    decreases |steps|
  {
    var s' := Next(s, steps[0]);
    if n == 0 {
      StepCursor(s, steps[0], stream);
      CursorStays(s', steps[1..], stream);
    } else {
      assert steps[1..][n - 1] == steps[n] && steps[1..][n..] == steps[n + 1..];
      CursorIsLastEnd(s', steps[1..], stream, n - 1);
    }
  }

  lemma {:induction false} BarrierStays<M, E>(s: Sys<M, E>, steps: seq<Step<M, E>>)
    requires Runs(s, steps) && NoPages(steps, CAPTURE_STREAM) && NoneIsPublished(steps)
    ensures Barrier(Run(s, steps).db.cursors) == Barrier(s.db.cursors)
    decreases |steps|
  {
    if steps != [] {
      assert !PageOf(steps[0], CAPTURE_STREAM) && !steps[0].Publish?;
      if Commits(steps[0]) {
        AdvanceIsPerRow(s, steps[0]);
      }
      BarrierStays(Next(s, steps[0]), steps[1..]);
    }
  }

  /** Over every run, the barrier is the one last published, also when that is none. */
  lemma {:induction false} BarrierIsLastPublished<M, E>(s: Sys<M, E>, steps: seq<Step<M, E>>, n: nat)
    requires Runs(s, steps) && n < |steps| && steps[n].Publish?
    requires NoPages(steps[n + 1..], CAPTURE_STREAM) && NoneIsPublished(steps[n + 1..])
    ensures Barrier(Run(s, steps).db.cursors) == steps[n].cursor
    decreases |steps|
  {
    var s' := Next(s, steps[0]);
    if n == 0 {
      BarrierStays(s', steps[1..]);
    } else {
      assert steps[1..][n - 1] == steps[n] && steps[1..][n..] == steps[n + 1..];
      BarrierIsLastPublished(s', steps[1..], n - 1);
    }
  }

  // ---------------------------------------------------------------- the capture flag

  /** The capture stream's row says that it is at head; without a row it is not. */
  predicate AtHead(cursors: map<string, Cursor>) {
    CAPTURE_STREAM in cursors && cursors[CAPTURE_STREAM].atHead
  }

  /** What a batch may hold of the flag after this step, if it held `held` before. */
  function Held<M, E>(s: Sys<M, E>, step: Step<M, E>, held: bool): bool {
    if step.FastFails? then AtHead(s.db.cursors) else held
  }

  /**
   A batch reads the flag before its optimistic transaction and keeps it for the replay; it may take a set
   flag for unset, as it does when the read fails, but never the other way round.
   */
  ghost predicate ReadsFlag<M, E>(s: Sys<M, E>, steps: seq<Step<M, E>>, held: bool)
    requires Runs(s, steps)
    decreases |steps|
  {
    steps == [] ||
    (var step := steps[0];
     && (step.Fast? && step.cx.captureAtHead ==> AtHead(s.db.cursors))
     && (step.Replay? && step.cx.captureAtHead ==> held)
     && ReadsFlag(Next(s, step), steps[1..], Held(s, step, held)))
  }

  lemma {:induction false} HoldingMoreReads<M, E>(s: Sys<M, E>, steps: seq<Step<M, E>>, held: bool)
    requires Runs(s, steps) && ReadsFlag(s, steps, false)
    ensures ReadsFlag(s, steps, held)
    decreases |steps|
  {
    if steps != [] && !steps[0].FastFails? {
      HoldingMoreReads(Next(s, steps[0]), steps[1..], held);
    }
  }

  lemma {:induction false} ReadsConcat<M, E>(s: Sys<M, E>, a: seq<Step<M, E>>, b: seq<Step<M, E>>, held: bool)
    requires Runs(s, a) && ReadsFlag(s, a, held) && Runs(Run(s, a), b) && ReadsFlag(Run(s, a), b, false)
    ensures Runs(s, a + b) && ReadsFlag(s, a + b, held)
    decreases |a|
  {
    if a == [] {
      assert a + b == b;
      HoldingMoreReads(s, b, held);
    } else {
      assert (a + b)[1..] == a[1..] + b;
      ReadsConcat(Next(s, a[0]), a[1..], b, Held(s, a[0], held));
    }
  }

  /** Steps of other components, followed by the end of the batch, leave what the batch holds. */
  lemma {:induction false} OutsideReads<M, E>(s: Sys<M, E>, steps: seq<Step<M, E>>, end: Step<M, E>, held: bool)
    requires (forall i :: 0 <= i < |steps| ==> Outside(steps[i])) && Runs(s, steps + [end])
    requires !end.Fast? && (end.Replay? && end.cx.captureAtHead ==> held)
    ensures ReadsFlag(s, steps + [end], held)
    decreases |steps|
  {
    var all := steps + [end];
    if steps == [] {
      assert all[0] == end && all[1..] == [];
    } else {
      assert all[0] == steps[0] && all[1..] == steps[1..] + [end];
      OutsideReads(Next(s, steps[0]), steps[1..], end, held);
    }
  }

  /** A step that writes the flag, at head. */
  predicate SetsHead<M, E>(step: Step<M, E>) {
    (step.Publish? || PageOf(step, CAPTURE_STREAM)) && step.atHead
  }

  lemma OnlyPublishingSetsHead<M, E>(s: Sys<M, E>, step: Step<M, E>)
    requires Enabled(s, step) && !AtHead(s.db.cursors) && !SetsHead(step)
    ensures !AtHead(Next(s, step).db.cursors)
  {
    if Commits(step) {
      AdvanceIsPerRow(s, step);
    }
  }

  /** Until capture has been at head once, no batch takes it to be. */
  lemma {:induction false} HeadWasPublished<M, E>(s: Sys<M, E>, steps: seq<Step<M, E>>, i: nat) returns (j: nat)
    requires Runs(s, steps) && !AtHead(s.db.cursors) && ReadsFlag(s, steps, false)
    requires i < |steps| && Commits(steps[i]) && steps[i].cx.captureAtHead
    ensures j < i && SetsHead(steps[j])
    decreases |steps|
  {
    if SetsHead(steps[0]) {
      j := 0;
    } else {
      OnlyPublishingSetsHead(s, steps[0]);
      j := HeadWasPublished(Next(s, steps[0]), steps[1..], i - 1);
      j := j + 1;
    }
  }

  // ---------------------------------------------------------------- passes left alone

  /** Only batches of one projector, read against one clock and one capture flag, and failures. */
  ghost predicate Quiet<M, E>(steps: seq<Step<M, E>>, h: Handlers<M, E>, cx: Context) {
    forall i :: 0 <= i < |steps| ==>
      || steps[i].FastFails? || steps[i].Abort?
      || (Commits(steps[i]) && steps[i].h == h && steps[i].cx == cx)
  }

  /** Left alone, batches of any sizes and strategies leave what one per-row drain of their rows leaves. */
  lemma {:induction false} QuietPassIsOneDrain<M, E>(
    s: Sys<M, E>, steps: seq<Step<M, E>>, h: Handlers<M, E>, cx: Context)
    requires Runs(s, steps) && Quiet(steps, h, cx)
    ensures Run(s, steps).db == Commit(s.db, Savepointed(h, cx, Fresh(s.db.model), Attempted(steps)))
    decreases |steps|
  {
    if steps == [] {
      assert MarkProcessed(s.db.raw, []) == s.db.raw;
    } else {
      var s', rest := Next(s, steps[0]), Attempted(steps[1..]);
      QuietPassIsOneDrain(s', steps[1..], h, cx);
      if Commits(steps[0]) {
        var rows := steps[0].rows;
        AdvanceIsPerRow(s, steps[0]);
        PerRowIsCommit(h, cx, s.db, rows);
        PerRowIsCommit(h, cx, s'.db, rest);
        CommitConcat(h, cx, s.db, rows, rest);
      } else {
        assert [] + rest == rest;
      }
    }
  }

  lemma PerRowIsCommit<M, E>(h: Handlers<M, E>, cx: Context, db: Db<M, E>, rows: seq<RawRow<E>>)
    ensures PerRow(h, cx, db, rows).0 == Commit(db, Savepointed(h, cx, Fresh(db.model), rows))
  {
    SavepointedShift(h, cx, Start(db.model, rows), rows);
    var q := Savepointed(h, cx, Fresh(db.model), rows);
    assert [] + q.toMark == q.toMark;
  }
}
