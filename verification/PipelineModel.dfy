/**
 The event-sourced projection pipeline as values: the `raw_events` table, the cursors,
 the read model, and what one transaction does to them.

 The read model `M` and the decoded event `E` are type parameters and the projector is a
 pair of functions, so everything proved here holds for every deterministic projector.
 */
module PipelineModel {
  import opened Prelude

  type MsgId = string

  /** The aggregate cursor row that carries the projection barrier. */
  const CAPTURE_STREAM: string := "blockchain_events"

  /**
   One `raw_events` row. `event` is None when the body was not decoded (`event_type` and
   `decoded` are null together). The surrogate `id` is in one-to-one correspondence with
   the unique `msg_id`, so `msgId` plays both roles.
   */
  datatype RawRow<E> = RawRow(
    msgId: MsgId,
    chainOrder: ChainOrder,
    event: Option<E>,
    ingestedAt: int,
    processed: bool)

  datatype Cursor = Cursor(cursor: Option<ChainOrder>, atHead: bool)

  type RawEvents<E> = map<MsgId, RawRow<E>>

  datatype Db<M, E> = Db(raw: RawEvents<E>, cursors: map<string, Cursor>, model: M)

  /** Every row is stored under its own message id. */
  ghost predicate WellKeyed<E>(raw: RawEvents<E>) {
    forall k :: k in raw ==> raw[k].msgId == k
  }

  // ---------------------------------------------------------------- capture

  /** A gateway edge, already decoded; a missing `chainOrder` makes it unusable. */
  datatype Edge<E> = Edge(msgId: MsgId, chainOrder: Option<ChainOrder>, event: Option<E>)

  /** `insert ... on conflict (msg_id) do nothing`. */
  function InsertRow<E>(raw: RawEvents<E>, row: RawRow<E>): RawEvents<E> {
    if row.msgId in raw then raw else raw[row.msgId := row]
  }

  function Captured<E>(raw: RawEvents<E>, edges: seq<Edge<E>>, ingestedAt: int): RawEvents<E>
    decreases |edges|
  {
    if edges == [] then raw
    else
      var e := edges[|edges| - 1];
      var before := Captured(raw, edges[..|edges| - 1], ingestedAt);
      if e.chainOrder.None? then before
      else InsertRow(before, RawRow(e.msgId, e.chainOrder.value, e.event, ingestedAt, false))
  }

  /** Page cursors keep their old position when the page carries none; the barrier does not. */
  function PageCursor(cursors: map<string, Cursor>, stream: string, end: Option<ChainOrder>, atHead: bool)
    : map<string, Cursor>
  {
    var prior := if stream in cursors then cursors[stream].cursor else None;
    cursors[stream := Cursor(Coalesce(end, prior), atHead)]
  }

  function Barrier(cursors: map<string, Cursor>): Option<ChainOrder> {
    if CAPTURE_STREAM in cursors then cursors[CAPTURE_STREAM].cursor else None
  }

  // ---------------------------------------------------------------- fetch

  predicate Pending<E>(row: RawRow<E>) {
    !row.processed && row.event.Some?
  }

  predicate Above(order: ChainOrder, after: Option<ChainOrder>) {
    after.None? || order > after.value
  }

  predicate UpTo(order: ChainOrder, until: Option<ChainOrder>) {
    until.None? || order <= until.value
  }

  /** The filter of the keyset select: pending rows in `(after, until]`. */
  predicate Eligible<E>(row: RawRow<E>, after: Option<ChainOrder>, until: Option<ChainOrder>) {
    Pending(row) && Above(row.chainOrder, after) && UpTo(row.chainOrder, until)
  }

  ghost predicate Ascending<E>(rows: seq<RawRow<E>>) {
    forall i, j :: 0 <= i < j < |rows| ==> rows[i].chainOrder <= rows[j].chainOrder
  }

  ghost predicate StrictlyAscending<E>(rows: seq<RawRow<E>>) {
    forall i, j :: 0 <= i < j < |rows| ==> rows[i].chainOrder < rows[j].chainOrder
  }

  ghost predicate NoRepeats<E>(rows: seq<RawRow<E>>) {
    forall i, j :: 0 <= i < j < |rows| ==> rows[i].msgId != rows[j].msgId
  }

  ghost predicate Stored<E>(raw: RawEvents<E>, row: RawRow<E>) {
    row.msgId in raw && raw[row.msgId] == row
  }

  ghost predicate AllStored<E>(raw: RawEvents<E>, rows: seq<RawRow<E>>) {
    forall i :: 0 <= i < |rows| ==> Stored(raw, rows[i])
  }

  ghost predicate AllEligible<E>(rows: seq<RawRow<E>>, after: Option<ChainOrder>, until: Option<ChainOrder>) {
    forall i :: 0 <= i < |rows| ==> Eligible(rows[i], after, until)
  }

  /** Every eligible row that was not fetched lies at or above every fetched one. */
  ghost predicate TakesLowest<E>(
    raw: RawEvents<E>, after: Option<ChainOrder>, until: Option<ChainOrder>, rows: seq<RawRow<E>>)
  {
    forall k, i :: k in raw && Eligible(raw[k], after, until) && raw[k] !in rows && 0 <= i < |rows|
      ==> rows[i].chainOrder <= raw[k].chainOrder
  }

  ghost predicate TakesAll<E>(
    raw: RawEvents<E>, after: Option<ChainOrder>, until: Option<ChainOrder>, rows: seq<RawRow<E>>)
  {
    forall k :: k in raw && Eligible(raw[k], after, until) ==> raw[k] in rows
  }

  /**
   `rows` is a possible answer of `fetch_pending_batch`: eligible rows, oldest first, the
   lowest `size` of them. The order among equal keys is left open, as SQL leaves it.
   */
  ghost predicate IsBatch<E>(
    raw: RawEvents<E>, after: Option<ChainOrder>, until: Option<ChainOrder>, size: nat, rows: seq<RawRow<E>>)
  {
    && |rows| <= size
    && AllStored(raw, rows)
    && AllEligible(rows, after, until)
    && Ascending(rows)
    && NoRepeats(rows)
    && TakesLowest(raw, after, until, rows)
    && (|rows| < size ==> TakesAll(raw, after, until, rows))
  }

  /** `max_projectable_chain_order`: the highest pending key at or below the barrier, if any. */
  ghost predicate IsCeiling<E>(raw: RawEvents<E>, cursors: map<string, Cursor>, ceiling: Option<ChainOrder>) {
    var b := Barrier(cursors);
    && (ceiling.Some? ==>
          && b.Some? && ceiling.value <= b.value
          && exists k :: k in raw && Pending(raw[k]) && raw[k].chainOrder == ceiling.value)
    && (b.Some? ==>
          forall k :: k in raw && Pending(raw[k]) && raw[k].chainOrder <= b.value
            ==> ceiling.Some? && raw[k].chainOrder <= ceiling.value)
  }

  // ---------------------------------------------------------------- one row

  datatype Projection<M> = Applied(model: M) | Deferred(model: M) | Unknown(model: M) | Failed

  /** The projector, the orphan repair, and the orphan cutoff. */
  datatype Handlers<!M, !E> = Handlers(
    project: (M, RawRow<E>) -> Projection<M>,
    repair: (M, RawRow<E>) -> Option<M>,
    isInference: E -> bool,
    cutoff: nat)

  /** What a batch goes by besides the rows: the clock, and the capture `at_head` flag as it read it. */
  datatype Context = Context(now: int, captureAtHead: bool)

  predicate ExpiredOrphan<M, E>(h: Handlers<M, E>, cx: Context, row: RawRow<E>) {
    && cx.captureAtHead
    && row.event.Some? && h.isInference(row.event.value)
    && cx.now - row.ingestedAt > h.cutoff
  }

  /** Verdict on one row: consumed, left pending with its writes kept, not decodable, or failed. */
  datatype Verdict<M> = Consumed(model: M, unknown: bool) | Left(model: M) | Skipped | Errored

  function Attempt<M, E>(h: Handlers<M, E>, cx: Context, m: M, row: RawRow<E>): Verdict<M> {
    if row.event.None? then Skipped
    else
      match h.project(m, row)
      case Applied(m') => Consumed(m', false)
      case Unknown(m') => Consumed(m', true)
      case Failed => Errored
      case Deferred(m') =>
        if ExpiredOrphan(h, cx, row) then
          match h.repair(m', row)
          case Some(m'') => Consumed(m'', false)
          case None => Errored
        else Left(m')
  }

  // ---------------------------------------------------------------- one batch

  datatype Stats = Stats(
    scanned: nat, applied: nat, deferred: nat, unknown: nat, failed: nat, maxChainOrder: Option<ChainOrder>)

  /** The uncommitted state of a batch transaction. */
  datatype Progress<M> = Progress(model: M, toMark: seq<MsgId>, stats: Stats)

  function HighWater<E>(rows: seq<RawRow<E>>): Option<ChainOrder> {
    if rows == [] then None else Some(rows[|rows| - 1].chainOrder)
  }

  function Start<M, E>(m: M, rows: seq<RawRow<E>>): Progress<M> {
    Progress(m, [], Stats(0, 0, 0, 0, 0, HighWater(rows)))
  }

  /** One row under its own savepoint: an error rolls back this row only. */
  function SavepointStep<M, E>(h: Handlers<M, E>, cx: Context, p: Progress<M>, row: RawRow<E>): Progress<M> {
    var s := p.stats.(scanned := p.stats.scanned + 1);
    match Attempt(h, cx, p.model, row)
    case Consumed(m, false) => Progress(m, p.toMark + [row.msgId], s.(applied := s.applied + 1))
    case Consumed(m, true) => Progress(m, p.toMark + [row.msgId], s.(unknown := s.unknown + 1))
    case Left(m) => Progress(m, p.toMark, s.(deferred := s.deferred + 1))
    case Skipped => p.(stats := s)
    case Errored => p.(stats := s.(failed := s.failed + 1))
  }

  function Savepointed<M, E>(h: Handlers<M, E>, cx: Context, p: Progress<M>, rows: seq<RawRow<E>>): Progress<M>
    decreases |rows|
  {
    if rows == [] then p
    else SavepointStep(h, cx, Savepointed(h, cx, p, rows[..|rows| - 1]), rows[|rows| - 1])
  }

  /** One row of the optimistic transaction: an error discards the transaction. */
  function OptimisticStep<M, E>(h: Handlers<M, E>, cx: Context, p: Progress<M>, row: RawRow<E>): Option<Progress<M>> {
    var s := p.stats.(scanned := p.stats.scanned + 1);
    match Attempt(h, cx, p.model, row)
    case Consumed(m, u) =>
      Some(Progress(m, p.toMark + [row.msgId],
                    if u then s.(unknown := s.unknown + 1) else s.(applied := s.applied + 1)))
    case Left(m) => Some(Progress(m, p.toMark, s.(deferred := s.deferred + 1)))
    case Skipped => Some(p.(stats := s))
    case Errored => None
  }

  /** The optimistic drain: None as soon as one row errors. */
  function Optimistic<M, E>(h: Handlers<M, E>, cx: Context, p: Progress<M>, rows: seq<RawRow<E>>)
    : Option<Progress<M>>
    decreases |rows|
  {
    if rows == [] then Some(p)
    else
      var before := Optimistic(h, cx, p, rows[..|rows| - 1]);
      if before.None? then None else OptimisticStep(h, cx, before.value, rows[|rows| - 1])
  }

  /** How many rows the optimistic drain attempts: up to the failing one, or all of them. */
  function TriedCount<M, E>(h: Handlers<M, E>, cx: Context, p: Progress<M>, rows: seq<RawRow<E>>): (n: nat)
    ensures n <= |rows|
    decreases |rows|
  {
    if rows == [] then 0
    else if Optimistic(h, cx, p, rows[..|rows| - 1]).None? then TriedCount(h, cx, p, rows[..|rows| - 1])
    else |rows|
  }

  /** `update raw_events set processed_at ... where id = any(ids) and processed_at is null`. */
  function MarkProcessed<E>(raw: RawEvents<E>, ids: seq<MsgId>): RawEvents<E> {
    map k | k in raw :: if k in ids then raw[k].(processed := true) else raw[k]
  }

  /** Commit of a batch transaction. */
  function Commit<M, E>(db: Db<M, E>, p: Progress<M>): Db<M, E> {
    db.(model := p.model, raw := MarkProcessed(db.raw, p.toMark))
  }

  /** `reproject_pending_from` on the rows it fetched: optimistic first, savepointed on failure. */
  function TwoStrategy<M, E>(h: Handlers<M, E>, cx: Context, db: Db<M, E>, rows: seq<RawRow<E>>)
    : (Db<M, E>, Stats)
  {
    match Optimistic(h, cx, Start(db.model, rows), rows)
    case Some(p) => (Commit(db, p), p.stats)
    case None =>
      // the optimistic transaction is discarded: the replay starts from `db` itself
      var p := Savepointed(h, cx, Start(db.model, rows), rows);
      (Commit(db, p), p.stats)
  }

  /** The simple drain that the two strategies together must equal. */
  function PerRow<M, E>(h: Handlers<M, E>, cx: Context, db: Db<M, E>, rows: seq<RawRow<E>>)
    : (Db<M, E>, Stats)
  {
    var p := Savepointed(h, cx, Start(db.model, rows), rows);
    (Commit(db, p), p.stats)
  }

  // ---------------------------------------------------------------- batch laws

  /** A clean optimistic pass is the savepointed pass; it is clean iff no row fails along the way. */
  lemma {:induction false} OptimisticIsSavepointed<M, E>(
    h: Handlers<M, E>, cx: Context, p: Progress<M>, rows: seq<RawRow<E>>)
    ensures Optimistic(h, cx, p, rows).Some? ==> Optimistic(h, cx, p, rows).value == Savepointed(h, cx, p, rows)
    ensures Savepointed(h, cx, p, rows).stats.failed >= p.stats.failed
    ensures Optimistic(h, cx, p, rows).Some? <==> Savepointed(h, cx, p, rows).stats.failed == p.stats.failed
    decreases |rows|
  {
    if rows != [] {
      OptimisticIsSavepointed(h, cx, p, rows[..|rows| - 1]);
    }
  }

  /** Final state, processed marks and stats of the two-strategy batch are those of the per-row one. */
  lemma TwoStrategyEqualsPerRow<M, E>(h: Handlers<M, E>, cx: Context, db: Db<M, E>, rows: seq<RawRow<E>>)
    ensures TwoStrategy(h, cx, db, rows) == PerRow(h, cx, db, rows)
  {
    OptimisticIsSavepointed(h, cx, Start(db.model, rows), rows);
  }

  /** Draining `a + b` is draining `b` from where `a` ended. */
  lemma {:induction false} SavepointedConcat<M, E>(
    h: Handlers<M, E>, cx: Context, p: Progress<M>, a: seq<RawRow<E>>, b: seq<RawRow<E>>)
    ensures Savepointed(h, cx, p, a + b) == Savepointed(h, cx, Savepointed(h, cx, p, a), b)
    decreases |b|
  {
    if b == [] {
      assert a + b == a;
    } else {
      assert (a + b)[..|a + b| - 1] == a + b[..|b| - 1];
      SavepointedConcat(h, cx, p, a, b[..|b| - 1]);
    }
  }

  /** The progress with its counters and marks shifted: what came before does not influence what comes after. */
  function Shift<M>(base: Progress<M>, p: Progress<M>): Progress<M> {
    Progress(p.model, base.toMark + p.toMark,
      Stats(base.stats.scanned + p.stats.scanned, base.stats.applied + p.stats.applied,
            base.stats.deferred + p.stats.deferred, base.stats.unknown + p.stats.unknown,
            base.stats.failed + p.stats.failed, base.stats.maxChainOrder))
  }

  function Fresh<M>(m: M): Progress<M> {
    Progress(m, [], Stats(0, 0, 0, 0, 0, None))
  }

  lemma ShiftStep<M, E>(h: Handlers<M, E>, cx: Context, base: Progress<M>, p: Progress<M>, row: RawRow<E>)
    ensures SavepointStep(h, cx, Shift(base, p), row) == Shift(base, SavepointStep(h, cx, p, row))
  {
    assert base.toMark + (p.toMark + [row.msgId]) == (base.toMark + p.toMark) + [row.msgId];
  }

  /** The counters and the marks are only ever added to: a drain can be computed from zero and shifted. */
  lemma {:induction false} SavepointedShift<M, E>(
    h: Handlers<M, E>, cx: Context, p: Progress<M>, rows: seq<RawRow<E>>)
    ensures Savepointed(h, cx, p, rows) == Shift(p, Savepointed(h, cx, Fresh(p.model), rows))
    decreases |rows|
  {
    if rows == [] {
      assert p.toMark + [] == p.toMark;
    } else {
      var front := rows[..|rows| - 1];
      SavepointedShift(h, cx, p, front);
      ShiftStep(h, cx, p, Savepointed(h, cx, Fresh(p.model), front), rows[|rows| - 1]);
    }
  }

  /** A row that errors affects no other row: the drain is the drain without it, plus one failure counted. */
  lemma ErroringRowIsIsolated<M, E>(
    h: Handlers<M, E>, cx: Context, p: Progress<M>, a: seq<RawRow<E>>, row: RawRow<E>, b: seq<RawRow<E>>)
    requires Attempt(h, cx, Savepointed(h, cx, p, a).model, row).Errored?
    ensures var without := Savepointed(h, cx, p, a + b);
            Savepointed(h, cx, p, a + [row] + b) ==
            without.(stats := without.stats.(scanned := without.stats.scanned + 1,
                                             failed := without.stats.failed + 1))
  {
    SavepointedConcat(h, cx, p, a + [row], b);
    SavepointedConcat(h, cx, p, a, [row]);
    SavepointedConcat(h, cx, p, a, b);
    var q := Savepointed(h, cx, p, a);
    assert [row][..0] == [];
    assert Savepointed(h, cx, q, [row]) == SavepointStep(h, cx, q, row);
    SavepointedShift(h, cx, SavepointStep(h, cx, q, row), b);
    SavepointedShift(h, cx, q, b);
  }

  /** Every mark names a row of the batch. */
  lemma {:induction false} MarksComeFromRows<M, E>(
    h: Handlers<M, E>, cx: Context, m: M, rows: seq<RawRow<E>>)
    ensures forall id :: id in Savepointed(h, cx, Fresh(m), rows).toMark
              ==> exists i :: 0 <= i < |rows| && rows[i].msgId == id
    decreases |rows|
  {
    if rows != [] {
      MarksComeFromRows(h, cx, m, rows[..|rows| - 1]);
      var last := rows[|rows| - 1];
      var q := Savepointed(h, cx, Fresh(m), rows[..|rows| - 1]);
      forall id | id in Savepointed(h, cx, Fresh(m), rows).toMark
        ensures exists i :: 0 <= i < |rows| && rows[i].msgId == id
      {
        if id in q.toMark {
          var i :| 0 <= i < |rows| - 1 && rows[..|rows| - 1][i].msgId == id;
          assert rows[i].msgId == id;
        } else {
          assert rows[|rows| - 1].msgId == id;
        }
      }
    }
  }

  // ---------------------------------------------------------------- verdicts and counters

  /** Too old to wait: capture has caught up, it is an inference event, and its age exceeds the cutoff. */
  ghost predicate PastCutoff<M, E>(h: Handlers<M, E>, cx: Context, e: E, ingestedAt: int) {
    cx.captureAtHead && h.isInference(e) && cx.now > ingestedAt + h.cutoff
  }

  /** A deferred row is consumed exactly when it is too old and its repair goes through; not too old, it is left. */
  lemma DeferredVerdict<M, E>(h: Handlers<M, E>, cx: Context, m: M, row: RawRow<E>)
    requires row.event.Some? && h.project(m, row).Deferred?
    ensures var m' := h.project(m, row).model;
            var dead, repaired, v := PastCutoff(h, cx, row.event.value, row.ingestedAt), h.repair(m', row),
                                     Attempt(h, cx, m, row);
            && (v.Consumed? <==> dead && repaired.Some?) && (v.Consumed? ==> v == Consumed(repaired.value, false))
            && (v.Left? <==> !dead) && (v.Left? ==> v == Left(m'))
            && (v.Errored? <==> dead && repaired.None?)
  {
  }

  /** Every other outcome decides alone; an undecoded row is skipped and a failing one is never consumed. */
  lemma PromptVerdict<M, E>(h: Handlers<M, E>, cx: Context, m: M, row: RawRow<E>)
    requires row.event.Some? ==> !h.project(m, row).Deferred?
    ensures var p, v := h.project(m, row), Attempt(h, cx, m, row);
            && (v.Skipped? <==> row.event.None?) && !v.Left?
            && (row.event.Some? ==>
                  && (v.Errored? <==> p.Failed?)
                  && (v.Consumed? ==> v == Consumed(p.model, p.Unknown?)))
  {
  }

  /** The verdict on the i-th row, attempted where the rows before it have left the read model. */
  function VerdictAt<M, E>(h: Handlers<M, E>, cx: Context, p: Progress<M>, rows: seq<RawRow<E>>, i: nat): Verdict<M>
    requires i < |rows|
  {
    Attempt(h, cx, Savepointed(h, cx, p, rows[..i]).model, rows[i])
  }

  ghost function Where<M, E>(
    h: Handlers<M, E>, cx: Context, p: Progress<M>, rows: seq<RawRow<E>>, kind: Verdict<M> -> bool): set<nat>
  {
    set i: nat | i < |rows| && kind(VerdictAt(h, cx, p, rows, i))
  }

  lemma WhereLast<M, E>(
    h: Handlers<M, E>, cx: Context, p: Progress<M>, rows: seq<RawRow<E>>, kind: Verdict<M> -> bool)
    requires rows != []
    ensures var n := |rows| - 1;
            |Where(h, cx, p, rows, kind)|
            == |Where(h, cx, p, rows[..n], kind)| + if kind(VerdictAt(h, cx, p, rows, n)) then 1 else 0
  {
    var n := |rows| - 1;
    var a, b := Where(h, cx, p, rows, kind), Where(h, cx, p, rows[..n], kind);
    var last := kind(VerdictAt(h, cx, p, rows, n));
    forall i: nat | i < n ensures i in a <==> i in b {
      assert rows[..n][..i] == rows[..i] && rows[..n][i] == rows[i];
    }
    SplitLast(a, b, n, last);
  }

  lemma SplitLast(a: set<nat>, b: set<nat>, n: nat, last: bool)
    requires forall i: nat :: i < n ==> (i in a <==> i in b)
    requires (forall i :: i in a ==> i <= n) && (forall i :: i in b ==> i < n) && (n in a <==> last)
    ensures |a| == |b| + if last then 1 else 0
  {
    assert a == if last then b + {n} else b;
  }

  /** Each counter counts the rows of its verdict. */
  lemma {:induction false} CountersCountVerdicts<M, E>(
    h: Handlers<M, E>, cx: Context, p: Progress<M>, rows: seq<RawRow<E>>)
    ensures var s := Savepointed(h, cx, p, rows).stats;
            && s.applied == p.stats.applied + |Where(h, cx, p, rows, (v: Verdict<M>) => v.Consumed? && !v.unknown)|
            && s.unknown == p.stats.unknown + |Where(h, cx, p, rows, (v: Verdict<M>) => v.Consumed? && v.unknown)|
            && s.deferred == p.stats.deferred + |Where(h, cx, p, rows, (v: Verdict<M>) => v.Left?)|
            && s.failed == p.stats.failed + |Where(h, cx, p, rows, (v: Verdict<M>) => v.Errored?)|
    decreases |rows|
  {
    if rows != [] {
      CountersCountVerdicts(h, cx, p, rows[..|rows| - 1]);
      WhereLast(h, cx, p, rows, (v: Verdict<M>) => v.Consumed? && !v.unknown);
      WhereLast(h, cx, p, rows, (v: Verdict<M>) => v.Consumed? && v.unknown);
      WhereLast(h, cx, p, rows, (v: Verdict<M>) => v.Left?);
      WhereLast(h, cx, p, rows, (v: Verdict<M>) => v.Errored?);
    }
  }

  /** A batch marks exactly the rows it consumes. */
  lemma {:induction false} MarkedIffConsumed<M, E>(
    h: Handlers<M, E>, cx: Context, m: M, rows: seq<RawRow<E>>, i: nat)
    requires NoRepeats(rows) && i < |rows|
    ensures rows[i].msgId in Savepointed(h, cx, Fresh(m), rows).toMark
            <==> VerdictAt(h, cx, Fresh(m), rows, i).Consumed?
    decreases |rows|
  {
    var n := |rows| - 1;
    if i < n {
      assert rows[..n][..i] == rows[..i] && rows[..n][i] == rows[i];
      MarkedIffConsumed(h, cx, m, rows[..n], i);
      assert rows[n].msgId != rows[i].msgId;
    } else {
      LastIsUnmarked(h, cx, m, rows);
    }
  }

  lemma LastIsUnmarked<M, E>(h: Handlers<M, E>, cx: Context, m: M, rows: seq<RawRow<E>>)
    requires NoRepeats(rows) && rows != []
    ensures rows[|rows| - 1].msgId !in Savepointed(h, cx, Fresh(m), rows[..|rows| - 1]).toMark
  {
    MarksComeFromRows(h, cx, m, rows[..|rows| - 1]);
  }

  /** Marking in two rounds is marking once. */
  lemma MarkTwice<E>(raw: RawEvents<E>, a: seq<MsgId>, b: seq<MsgId>)
    ensures MarkProcessed(MarkProcessed(raw, a), b) == MarkProcessed(raw, a + b)
  {
  }

  // ---------------------------------------------------------------- fetch laws

  /** The whole range `(after, until]`, in order. */
  ghost predicate IsRange<E>(
    raw: RawEvents<E>, after: Option<ChainOrder>, until: Option<ChainOrder>, rows: seq<RawRow<E>>)
  {
    && AllStored(raw, rows)
    && AllEligible(rows, after, until)
    && StrictlyAscending(rows)
    && TakesAll(raw, after, until, rows)
  }

  /** With distinct keys a batch is the front of the range, so the fetch is deterministic. */
  lemma BatchIsFrontOfRange<E>(
    raw: RawEvents<E>, after: Option<ChainOrder>, until: Option<ChainOrder>, size: nat,
    range: seq<RawRow<E>>, batch: seq<RawRow<E>>)
    requires WellKeyed(raw)
    requires IsRange(raw, after, until, range)
    requires IsBatch(raw, after, until, size, batch)
    ensures |batch| <= |range| && batch == range[..|batch|]
    ensures |batch| == if |range| < size then |range| else size
  {
    FrontAt(raw, after, until, range, batch, |batch|);
    assert |batch| < size ==> |range| <= |batch| by {
      if |batch| < size && |range| > 0 {
        assert Stored(raw, range[|range| - 1]);
        var i :| 0 <= i < |batch| && batch[i] == range[|range| - 1];
      }
    }
  }

  lemma {:induction false} FrontAt<E>(
    raw: RawEvents<E>, after: Option<ChainOrder>, until: Option<ChainOrder>,
    range: seq<RawRow<E>>, batch: seq<RawRow<E>>, n: nat)
    requires IsRange(raw, after, until, range)
    requires AllStored(raw, batch) && AllEligible(batch, after, until)
    requires Ascending(batch) && NoRepeats(batch) && TakesLowest(raw, after, until, batch)
    requires n <= |batch|
    ensures n <= |range|
    ensures forall i :: 0 <= i < n ==> batch[i] == range[i]
    decreases n
  {
    if n > 0 {
      FrontAt(raw, after, until, range, batch, n - 1);
      var j := IndexInRange(raw, after, until, range, batch[n - 1]);
      assert j >= n - 1;
      LowestIsNext(raw, after, until, range, batch, n);
    }
  }

  lemma IndexInRange<E>(
    raw: RawEvents<E>, after: Option<ChainOrder>, until: Option<ChainOrder>, range: seq<RawRow<E>>, row: RawRow<E>)
    returns (j: nat)
    requires TakesAll(raw, after, until, range)
    requires Stored(raw, row) && Eligible(row, after, until)
    ensures j < |range| && range[j] == row
  {
    assert raw[row.msgId] in range;
    j :| 0 <= j < |range| && range[j] == row;
  }

  /** The next row of the range is not below the next row of the batch. */
  lemma LowestIsNext<E>(
    raw: RawEvents<E>, after: Option<ChainOrder>, until: Option<ChainOrder>,
    range: seq<RawRow<E>>, batch: seq<RawRow<E>>, n: nat)
    requires 0 < n <= |batch| && n <= |range|
    requires forall i :: 0 <= i < n - 1 ==> batch[i] == range[i]
    requires StrictlyAscending(range) && Ascending(batch) && TakesLowest(raw, after, until, batch)
    requires Stored(raw, range[n - 1]) && Eligible(range[n - 1], after, until)
    ensures batch[n - 1].chainOrder <= range[n - 1].chainOrder
  {
  }

  /** After a full batch is committed, what is left above the cursor is the rest of the range. */
  lemma RangeAfterBatch<E>(
    raw: RawEvents<E>, after: Option<ChainOrder>, until: Option<ChainOrder>,
    range: seq<RawRow<E>>, n: nat, ids: seq<MsgId>)
    requires WellKeyed(raw)
    requires IsRange(raw, after, until, range)
    requires 0 < n <= |range|
    requires forall id :: id in ids ==> exists i :: 0 <= i < n && range[i].msgId == id
    ensures WellKeyed(MarkProcessed(raw, ids))
    ensures IsRange(MarkProcessed(raw, ids), Some(range[n - 1].chainOrder), until, range[n..])
  {
    var raw' := MarkProcessed(raw, ids);
    var rest := range[n..];
    forall i | 0 <= i < |rest|
      ensures Stored(raw', rest[i]) && Eligible(rest[i], Some(range[n - 1].chainOrder), until)
    {
      assert rest[i] == range[n + i];
      assert Stored(raw, range[n + i]);
      assert forall j :: 0 <= j < n ==> Stored(raw, range[j]) && range[j].chainOrder < rest[i].chainOrder;
      assert rest[i].msgId !in ids;
    }
    forall k | k in raw' && Eligible(raw'[k], Some(range[n - 1].chainOrder), until)
      ensures raw'[k] in rest
    {
      assert raw'[k] == raw[k];
      assert raw[k] in range;
      var j :| 0 <= j < |range| && range[j] == raw[k];
      assert j >= n;
      assert rest[j - n] == raw[k];
    }
  }

  // ---------------------------------------------------------------- passes

  /** The pending rows the pass still has in front of it: its termination measure. */
  ghost function Ahead<E>(raw: RawEvents<E>, after: Option<ChainOrder>, until: Option<ChainOrder>): set<MsgId> {
    set k | k in raw && Eligible(raw[k], after, until)
  }

  /** Once a prefix has failed, the optimistic drain has failed. */
  lemma {:induction false} FailureIsFinal<M, E>(
    h: Handlers<M, E>, cx: Context, p: Progress<M>, rows: seq<RawRow<E>>, n: nat)
    requires n <= |rows|
    requires Optimistic(h, cx, p, rows[..n]).None?
    ensures Optimistic(h, cx, p, rows).None?
    decreases |rows|
  {
    if n == |rows| {
      assert rows[..n] == rows;
    } else {
      assert rows[..|rows| - 1][..n] == rows[..n];
      FailureIsFinal(h, cx, p, rows[..|rows| - 1], n);
    }
  }

  /** A failed optimistic drain attempted a clean prefix and then the row that erred. */
  lemma {:induction false} TriedEndsAtFailure<M, E>(
    h: Handlers<M, E>, cx: Context, p: Progress<M>, rows: seq<RawRow<E>>)
    requires Optimistic(h, cx, p, rows).None?
    ensures var n := TriedCount(h, cx, p, rows);
            && 0 < n && Optimistic(h, cx, p, rows[..n - 1]).Some?
            && Attempt(h, cx, Optimistic(h, cx, p, rows[..n - 1]).value.model, rows[n - 1]).Errored?
    decreases |rows|
  {
    var front := rows[..|rows| - 1];
    if Optimistic(h, cx, p, front).None? {
      TriedEndsAtFailure(h, cx, p, front);
      var n := TriedCount(h, cx, p, front);
      assert front[..n - 1] == rows[..n - 1] && front[n - 1] == rows[n - 1];
    }
  }

  /** A committed batch followed by another is one committed drain of both. */
  lemma CommitConcat<M, E>(h: Handlers<M, E>, cx: Context, db: Db<M, E>, a: seq<RawRow<E>>, b: seq<RawRow<E>>)
    ensures var mid := Commit(db, Savepointed(h, cx, Fresh(db.model), a));
            PerRow(h, cx, mid, b).0 == Commit(db, Savepointed(h, cx, Fresh(db.model), a + b))
  {
    var p := Savepointed(h, cx, Fresh(db.model), a);
    var mid := Commit(db, p);
    SavepointedConcat(h, cx, Fresh(db.model), a, b);
    SavepointedShift(h, cx, p, b);
    SavepointedShift(h, cx, Start(mid.model, b), b);
    var q := Savepointed(h, cx, Fresh(mid.model), b);
    assert [] + q.toMark == q.toMark;
    MarkTwice(db.raw, p.toMark, q.toMark);
  }

  /** Capture never re-keys or rewrites a stored row. */
  lemma {:induction false} CapturedKeepsKeys<E>(raw: RawEvents<E>, edges: seq<Edge<E>>, ingestedAt: int)
    requires WellKeyed(raw)
    ensures WellKeyed(Captured(raw, edges, ingestedAt))
    ensures forall k :: k in raw ==>
              k in Captured(raw, edges, ingestedAt) && Captured(raw, edges, ingestedAt)[k] == raw[k]
    decreases |edges|
  {
    if edges != [] {
      CapturedKeepsKeys(raw, edges[..|edges| - 1], ingestedAt);
    }
  }

  /** An edge with a key is the first of the page to name its message. */
  ghost predicate FirstKeyed<E>(edges: seq<Edge<E>>, i: nat, k: MsgId) {
    && i < |edges| && edges[i].chainOrder.Some? && edges[i].msgId == k
    && forall j :: 0 <= j < i ==> edges[j].chainOrder.None? || edges[j].msgId != k
  }

  lemma {:induction false} UnnamedIsNotCaptured<E>(raw: RawEvents<E>, edges: seq<Edge<E>>, ingestedAt: int, k: MsgId)
    requires k !in raw && forall j :: 0 <= j < |edges| ==> edges[j].chainOrder.None? || edges[j].msgId != k
    ensures k !in Captured(raw, edges, ingestedAt)
    decreases |edges|
  {
    if edges != [] {
      UnnamedIsNotCaptured(raw, edges[..|edges| - 1], ingestedAt, k);
    }
  }

  /** A message that is new to the table shows the columns of the first edge with a key that names it, unprocessed. */
  lemma {:induction false} NewRowIsFirstEdge<E>(
    raw: RawEvents<E>, edges: seq<Edge<E>>, ingestedAt: int, k: MsgId, i: nat)
    requires k !in raw && FirstKeyed(edges, i, k)
    ensures var raw' := Captured(raw, edges, ingestedAt);
            k in raw' && raw'[k] == RawRow(k, edges[i].chainOrder.value, edges[i].event, ingestedAt, false)
    decreases |edges|
  {
    var n := |edges| - 1;
    if i < n {
      assert edges[..n][i] == edges[i];
      NewRowIsFirstEdge(raw, edges[..n], ingestedAt, k, i);
    } else {
      UnnamedIsNotCaptured(raw, edges[..n], ingestedAt, k);
    }
  }

  /** No other message is new. */
  lemma {:induction false} NewRowHasEdge<E>(raw: RawEvents<E>, edges: seq<Edge<E>>, ingestedAt: int, k: MsgId)
    returns (i: nat)
    requires k !in raw && k in Captured(raw, edges, ingestedAt)
    ensures FirstKeyed(edges, i, k)
    decreases |edges|
  {
    var n := |edges| - 1;
    if k in Captured(raw, edges[..n], ingestedAt) {
      i := NewRowHasEdge(raw, edges[..n], ingestedAt, k);
    } else {
      i := n;
      if j: nat :| j < n && edges[j].chainOrder.Some? && edges[j].msgId == k {
        KeyedIsCaptured(raw, edges[..n], ingestedAt, j);
      }
    }
  }

  lemma {:induction false} KeyedIsCaptured<E>(raw: RawEvents<E>, edges: seq<Edge<E>>, ingestedAt: int, j: nat)
    requires j < |edges| && edges[j].chainOrder.Some?
    ensures edges[j].msgId in Captured(raw, edges, ingestedAt)
    decreases |edges|
  {
    if j < |edges| - 1 {
      assert edges[..|edges| - 1][j] == edges[j];
      KeyedIsCaptured(raw, edges[..|edges| - 1], ingestedAt, j);
    }
  }

  /** Every fetched row is scanned, and the high-water mark stays what the fetch made it. */
  lemma {:induction false} ScannedAll<M, E>(
    h: Handlers<M, E>, cx: Context, p: Progress<M>, rows: seq<RawRow<E>>)
    ensures Savepointed(h, cx, p, rows).stats.scanned == p.stats.scanned + |rows|
    ensures Savepointed(h, cx, p, rows).stats.maxChainOrder == p.stats.maxChainOrder
    decreases |rows|
  {
    if rows != [] {
      ScannedAll(h, cx, p, rows[..|rows| - 1]);
    }
  }

  /** After a batch that is the front of the range, the rest of the range is what lies above the new cursor. */
  lemma BatchAdvances<M, E>(
    h: Handlers<M, E>, cx: Context, db: Db<M, E>, after: Option<ChainOrder>, until: Option<ChainOrder>,
    range: seq<RawRow<E>>, rows: seq<RawRow<E>>)
    requires WellKeyed(db.raw) && IsRange(db.raw, after, until, range)
    requires |rows| <= |range| && rows == range[..|rows|]
    ensures rows != [] ==>
              IsRange(PerRow(h, cx, db, rows).0.raw, Some(rows[|rows| - 1].chainOrder), until, range[|rows|..])
  {
    if rows != [] {
      SavepointedShift(h, cx, Start(db.model, rows), rows);
      MarksComeFromRows(h, cx, db.model, rows);
      RangeAfterBatch(db.raw, after, until, range, |rows|, Savepointed(h, cx, Fresh(db.model), rows).toMark);
    }
  }

  /** A full batch leaves strictly fewer rows ahead of the cursor, ties or not. */
  lemma BatchShrinks<M, E>(
    h: Handlers<M, E>, cx: Context, db: Db<M, E>, after: Option<ChainOrder>, until: Option<ChainOrder>,
    size: nat, rows: seq<RawRow<E>>)
    requires WellKeyed(db.raw) && IsBatch(db.raw, after, until, size, rows) && rows != []
    ensures |Ahead(PerRow(h, cx, db, rows).0.raw, HighWater(rows), until)| < |Ahead(db.raw, after, until)|
  {
    var a, b := Ahead(PerRow(h, cx, db, rows).0.raw, HighWater(rows), until), Ahead(db.raw, after, until);
    var last := rows[|rows| - 1];
    assert Stored(db.raw, rows[|rows| - 1]);
    assert last.msgId in b && last.msgId !in a;
    assert a <= b - {last.msgId};
    SubsetSize(a, b - {last.msgId});
  }
}
