/** The repository object: the same tables as mutable fields, and the methods that change them. */
module PipelineRepository {
  import opened Prelude
  import opened PipelineModel
  import opened PipelineSteps
  import opened PipelineCoverage

  function InsertAll<E>(raw: RawEvents<E>, rows: seq<RawRow<E>>): RawEvents<E>
    decreases |rows|
  {
    if rows == [] then raw else InsertRow(InsertAll(raw, rows[..|rows| - 1]), rows[|rows| - 1])
  }

  lemma InsertLast<E>(raw: RawEvents<E>, rows: seq<RawRow<E>>, row: RawRow<E>)
    ensures InsertAll(raw, rows + [row]) == InsertRow(InsertAll(raw, rows), row)
  {
    assert (rows + [row])[..|rows|] == rows;
  }

  function RowOf<E>(e: Edge<E>, ingestedAt: int): RawRow<E>
    requires e.chainOrder.Some?
  {
    RawRow(e.msgId, e.chainOrder.value, e.event, ingestedAt, false)
  }

  lemma CapturedLast<E>(raw: RawEvents<E>, edges: seq<Edge<E>>, i: nat, ingestedAt: int)
    requires i < |edges|
    ensures var before := Captured(raw, edges[..i], ingestedAt);
            Captured(raw, edges[..i + 1], ingestedAt) ==
            if edges[i].chainOrder.None? then before else InsertRow(before, RowOf(edges[i], ingestedAt))
  {
    assert edges[..i + 1][..i] == edges[..i];
  }

  /** The ids of the edges that have a key. */
  function KeyedIds<E>(edges: seq<Edge<E>>): set<MsgId>
    decreases |edges|
  {
    if edges == [] then {}
    else
      var e := edges[|edges| - 1];
      KeyedIds(edges[..|edges| - 1]) + if e.chainOrder.Some? then {e.msgId} else {}
  }

  /** Those whose first edge with a key was decoded. */
  function DecodedIds<E>(edges: seq<Edge<E>>): set<MsgId>
    decreases |edges|
  {
    if edges == [] then {}
    else
      var e, before := edges[|edges| - 1], edges[..|edges| - 1];
      DecodedIds(before) + if e.chainOrder.Some? && e.event.Some? && e.msgId !in KeyedIds(before) then {e.msgId} else {}
  }

  function UnkeyedCount<E>(edges: seq<Edge<E>>): nat
    decreases |edges|
  {
    if edges == [] then 0
    else UnkeyedCount(edges[..|edges| - 1]) + if edges[|edges| - 1].chainOrder.None? then 1 else 0
  }

  /** The counters of a page, from its edges alone. */
  ghost predicate Counted<E>(edges: seq<Edge<E>>, kept: nat, decoded: nat, undecoded: nat) {
    && kept == |KeyedIds(edges)|
    && decoded == |DecodedIds(edges)|
    && undecoded == UnkeyedCount(edges) + |KeyedIds(edges) - DecodedIds(edges)|
  }

  lemma {:induction false} DecodedAreKeyed<E>(edges: seq<Edge<E>>)
    ensures DecodedIds(edges) <= KeyedIds(edges)
    decreases |edges|
  {
    if edges != [] {
      DecodedAreKeyed(edges[..|edges| - 1]);
    }
  }

  lemma CountUnkeyed<E>(edges: seq<Edge<E>>, e: Edge<E>, kept: nat, decoded: nat, undecoded: nat)
    requires Counted(edges, kept, decoded, undecoded) && e.chainOrder.None?
    ensures Counted(edges + [e], kept, decoded, undecoded + 1) && KeyedIds(edges + [e]) == KeyedIds(edges)
  {
    assert (edges + [e])[..|edges|] == edges;
  }

  lemma CountRepeat<E>(edges: seq<Edge<E>>, e: Edge<E>, kept: nat, decoded: nat, undecoded: nat)
    requires Counted(edges, kept, decoded, undecoded) && e.chainOrder.Some? && e.msgId in KeyedIds(edges)
    ensures Counted(edges + [e], kept, decoded, undecoded) && KeyedIds(edges + [e]) == KeyedIds(edges)
  {
    assert (edges + [e])[..|edges|] == edges;
    assert KeyedIds(edges) + {e.msgId} == KeyedIds(edges);
  }

  lemma CountNew<E>(edges: seq<Edge<E>>, e: Edge<E>, kept: nat, decoded: nat, undecoded: nat)
    requires Counted(edges, kept, decoded, undecoded) && e.chainOrder.Some? && e.msgId !in KeyedIds(edges)
    ensures KeyedIds(edges + [e]) == KeyedIds(edges) + {e.msgId}
    ensures if e.event.Some? then Counted(edges + [e], kept + 1, decoded + 1, undecoded)
            else Counted(edges + [e], kept + 1, decoded, undecoded + 1)
  {
    assert (edges + [e])[..|edges|] == edges;
    DecodedAreKeyed(edges);
    AddedCounts(KeyedIds(edges), DecodedIds(edges), e.msgId);
    assert DecodedIds(edges + [e]) == DecodedIds(edges) + (if e.event.Some? then {e.msgId} else {});
  }

  lemma AddedCounts<T>(keyed: set<T>, known: set<T>, x: T)
    requires known <= keyed && x !in keyed
    ensures |keyed + {x}| == |keyed| + 1 && |known + {x}| == |known| + 1 && known + {} == known
    ensures |(keyed + {x}) - (known + {x})| == |keyed - known|
    ensures |(keyed + {x}) - known| == |keyed - known| + 1
  {
    assert (keyed + {x}) - (known + {x}) == keyed - known;
    assert (keyed + {x}) - known == (keyed - known) + {x};
  }

  lemma {:induction false} CapturedKeys<E>(raw: RawEvents<E>, edges: seq<Edge<E>>, ingestedAt: int)
    ensures Captured(raw, edges, ingestedAt).Keys == raw.Keys + KeyedIds(edges)
    decreases |edges|
  {
    if edges != [] {
      CapturedKeys(raw, edges[..|edges| - 1], ingestedAt);
    }
  }

  lemma SplitCount<T>(a: set<T>, b: set<T>)
    ensures |a + b| == |a| + |b - a|
    ensures |b| == |b - a| + |b * a|
  {
    assert a + b == a + (b - a);
    assert b == (b - a) + (b * a);
  }

  lemma CountInserted<E>(raw: RawEvents<E>, edges: seq<Edge<E>>, ingestedAt: int, inserted: nat)
    requires |Captured(raw, edges, ingestedAt)| == |raw| + inserted
    ensures inserted == |KeyedIds(edges) - raw.Keys|
    ensures |KeyedIds(edges)| - inserted == |KeyedIds(edges) * raw.Keys|
  {
    CapturedKeys(raw, edges, ingestedAt);
    SplitCount(raw.Keys, KeyedIds(edges));
    assert |Captured(raw, edges, ingestedAt).Keys| == |Captured(raw, edges, ingestedAt)| && |raw.Keys| == |raw|;
  }

  /** `rows`, with ids `seen`, are what the first `i` edges contribute. */
  ghost predicate Collected<E>(
    raw: RawEvents<E>, edges: seq<Edge<E>>, i: nat, ingestedAt: int, rows: seq<RawRow<E>>, seen: set<MsgId>)
    requires i <= |edges|
  {
    && InsertAll(raw, rows) == Captured(raw, edges[..i], ingestedAt)
    && seen <= Captured(raw, edges[..i], ingestedAt).Keys
    && NoRepeats(rows) && forall j :: 0 <= j < |rows| ==> rows[j].msgId in seen
  }

  /** An edge without a key, or one seen before, contributes nothing. */
  lemma CollectNothing<E>(
    raw: RawEvents<E>, edges: seq<Edge<E>>, i: nat, ingestedAt: int, rows: seq<RawRow<E>>, seen: set<MsgId>)
    requires i < |edges| && Collected(raw, edges, i, ingestedAt, rows, seen)
    requires edges[i].chainOrder.None? || edges[i].msgId in seen
    ensures Collected(raw, edges, i + 1, ingestedAt, rows, seen)
  {
    CapturedLast(raw, edges, i, ingestedAt);
  }

  lemma CollectRow<E>(
    raw: RawEvents<E>, edges: seq<Edge<E>>, i: nat, ingestedAt: int, rows: seq<RawRow<E>>, seen: set<MsgId>)
    requires i < |edges| && Collected(raw, edges, i, ingestedAt, rows, seen)
    requires edges[i].chainOrder.Some? && edges[i].msgId !in seen
    ensures Collected(raw, edges, i + 1, ingestedAt, rows + [RowOf(edges[i], ingestedAt)], seen + {edges[i].msgId})
  {
    CapturedLast(raw, edges, i, ingestedAt);
    InsertLast(raw, rows, RowOf(edges[i], ingestedAt));
  }

  /** The loop state after `i` edges: the rows so far, the ids seen, and the counters. */
  ghost predicate PageSoFar<E>(
    raw: RawEvents<E>, edges: seq<Edge<E>>, i: nat, ingestedAt: int, rows: seq<RawRow<E>>, seen: set<MsgId>,
    decoded: nat, undecoded: nat)
    requires i <= |edges|
  {
    && Collected(raw, edges, i, ingestedAt, rows, seen)
    && seen == KeyedIds(edges[..i]) && Counted(edges[..i], |rows|, decoded, undecoded)
  }

  lemma PageSkips<E>(
    raw: RawEvents<E>, edges: seq<Edge<E>>, i: nat, ingestedAt: int, rows: seq<RawRow<E>>, seen: set<MsgId>,
    decoded: nat, undecoded: nat)
    requires i < |edges| && PageSoFar(raw, edges, i, ingestedAt, rows, seen, decoded, undecoded)
    requires edges[i].chainOrder.None? || edges[i].msgId in seen
    ensures PageSoFar(raw, edges, i + 1, ingestedAt, rows, seen, decoded,
                      if edges[i].chainOrder.None? then undecoded + 1 else undecoded)
  {
    assert edges[..i + 1] == edges[..i] + [edges[i]];
    CollectNothing(raw, edges, i, ingestedAt, rows, seen);
    if edges[i].chainOrder.None? {
      CountUnkeyed(edges[..i], edges[i], |rows|, decoded, undecoded);
    } else {
      CountRepeat(edges[..i], edges[i], |rows|, decoded, undecoded);
    }
  }

  lemma PageKeeps<E>(
    raw: RawEvents<E>, edges: seq<Edge<E>>, i: nat, ingestedAt: int, rows: seq<RawRow<E>>, seen: set<MsgId>,
    decoded: nat, undecoded: nat)
    requires i < |edges| && PageSoFar(raw, edges, i, ingestedAt, rows, seen, decoded, undecoded)
    requires edges[i].chainOrder.Some? && edges[i].msgId !in seen
    ensures PageSoFar(raw, edges, i + 1, ingestedAt, rows + [RowOf(edges[i], ingestedAt)], seen + {edges[i].msgId},
                      if edges[i].event.Some? then decoded + 1 else decoded,
                      if edges[i].event.Some? then undecoded else undecoded + 1)
  {
    assert edges[..i + 1] == edges[..i] + [edges[i]];
    CollectRow(raw, edges, i, ingestedAt, rows, seen);
    CountNew(edges[..i], edges[i], |rows|, decoded, undecoded);
  }

  /** The rows a page contributes: edges without a chain order dropped, repeats within the page dropped. */
  method PageRows<E>(edges: seq<Edge<E>>, ingestedAt: int, ghost raw: RawEvents<E>)
    returns (rows: seq<RawRow<E>>, decoded: nat, undecoded: nat)
    ensures InsertAll(raw, rows) == Captured(raw, edges, ingestedAt)
    ensures Counted(edges, |rows|, decoded, undecoded)
    ensures NoRepeats(rows)
  {
    var seen: set<MsgId> := {};
    rows, decoded, undecoded := [], 0, 0;
    for i := 0 to |edges|
      invariant PageSoFar(raw, edges, i, ingestedAt, rows, seen, decoded, undecoded)
    {
      var e := edges[i];
      if e.chainOrder.None? {
        PageSkips(raw, edges, i, ingestedAt, rows, seen, decoded, undecoded);
        undecoded := undecoded + 1;
      } else if e.msgId in seen {
        PageSkips(raw, edges, i, ingestedAt, rows, seen, decoded, undecoded);
      } else {
        PageKeeps(raw, edges, i, ingestedAt, rows, seen, decoded, undecoded);
        seen := seen + {e.msgId};
        if e.event.Some? {
          decoded := decoded + 1;
        } else {
          undecoded := undecoded + 1;
        }
        rows := rows + [RowOf(e, ingestedAt)];
      }
    }
    assert edges[..|edges|] == edges;
  }

  /** The optimistic loop over fetched rows: gives up on the first error. */
  method DrainOptimistic<M, E>(h: Handlers<M, E>, cx: Context, model: M, rows: seq<RawRow<E>>)
    returns (p: Option<Progress<M>>)
    ensures p == Optimistic(h, cx, Start(model, rows), rows)
  {
    var m := model;
    var toMark: seq<MsgId> := [];
    var s := Stats(0, 0, 0, 0, 0, if rows == [] then None else Some(rows[|rows| - 1].chainOrder));
    var i := 0;
    while i < |rows|
      invariant 0 <= i <= |rows|
      invariant Optimistic(h, cx, Start(model, rows), rows[..i]) == Some(Progress(m, toMark, s))
    {
      assert rows[..i + 1][..i] == rows[..i];
      var row := rows[i];
      ghost var next := OptimisticStep(h, cx, Progress(m, toMark, s), row);
      assert Optimistic(h, cx, Start(model, rows), rows[..i + 1]) == next;
      s := s.(scanned := s.scanned + 1);
      if row.event.Some? {
        match h.project(m, row)
        case Applied(m') =>
          m, toMark, s := m', toMark + [row.msgId], s.(applied := s.applied + 1);
        case Deferred(m') =>
          m := m';
          if ExpiredOrphan(h, cx, row) {
            var repaired := h.repair(m, row);
            if repaired.None? {
              FailureIsFinal(h, cx, Start(model, rows), rows, i + 1);
              return None;
            }
            m, toMark, s := repaired.value, toMark + [row.msgId], s.(applied := s.applied + 1);
          } else {
            s := s.(deferred := s.deferred + 1);
          }
        case Unknown(m') =>
          m, toMark, s := m', toMark + [row.msgId], s.(unknown := s.unknown + 1);
        case Failed =>
          FailureIsFinal(h, cx, Start(model, rows), rows, i + 1);
          return None;
      }
      assert next == Some(Progress(m, toMark, s));
      i := i + 1;
    }
    assert rows[..i] == rows;
    p := Some(Progress(m, toMark, s));
  }

  /** The savepointed loop: the model is put back to the savepoint when a row errors. */
  method DrainSavepointed<M, E>(h: Handlers<M, E>, cx: Context, model: M, rows: seq<RawRow<E>>)
    returns (p: Progress<M>)
    ensures p == Savepointed(h, cx, Start(model, rows), rows)
  {
    var m := model;
    var toMark: seq<MsgId> := [];
    var s := Stats(0, 0, 0, 0, 0, if rows == [] then None else Some(rows[|rows| - 1].chainOrder));
    var i := 0;
    while i < |rows|
      invariant 0 <= i <= |rows|
      invariant Savepointed(h, cx, Start(model, rows), rows[..i]) == Progress(m, toMark, s)
    {
      assert rows[..i + 1][..i] == rows[..i];
      var row := rows[i];
      ghost var next := SavepointStep(h, cx, Progress(m, toMark, s), row);
      assert Savepointed(h, cx, Start(model, rows), rows[..i + 1]) == next;
      s := s.(scanned := s.scanned + 1);
      if row.event.Some? {
        var savepoint := m;
        match h.project(m, row)
        case Applied(m') =>
          m, toMark, s := m', toMark + [row.msgId], s.(applied := s.applied + 1);
        case Deferred(m') =>
          m := m';
          if ExpiredOrphan(h, cx, row) {
            var repaired := h.repair(m, row);
            if repaired.Some? {
              m, toMark, s := repaired.value, toMark + [row.msgId], s.(applied := s.applied + 1);
            } else {
              m, s := savepoint, s.(failed := s.failed + 1);
            }
          } else {
            s := s.(deferred := s.deferred + 1);
          }
        case Unknown(m') =>
          m, toMark, s := m', toMark + [row.msgId], s.(unknown := s.unknown + 1);
        case Failed =>
          m, s := savepoint, s.(failed := s.failed + 1);
      }
      assert next == Progress(m, toMark, s);
      i := i + 1;
    }
    assert rows[..i] == rows;
    p := Progress(m, toMark, s);
  }

  /** How a batch can fail as a whole: before its commit, before its replay, or by a commit nobody acknowledged. */
  datatype Fault = NoFault | BatchFails | ReplayFails | AckLost

  /** What a batch reads from outside the tables: the clock, and whether its read of the capture flag succeeds. */
  datatype Reading = Reading(now: int, flagRead: bool)

  /** A failed read of the flag counts as not at head. */
  function ContextAt(r: Reading, cursors: map<string, Cursor>): Context {
    Context(r.now, r.flagRead && AtHead(cursors))
  }

  class Repository<M, E> {
    var raw: RawEvents<E>
    var cursors: map<string, Cursor>
    var model: M
    const handlers: Handlers<M, E>

    constructor (handlers: Handlers<M, E>, model: M)
      ensures this.handlers == handlers && this.model == model && raw == map[] && cursors == map[]
    {
      this.handlers := handlers;
      this.model := model;
      raw := map[];
      cursors := map[];
    }

    ghost predicate Valid()
      reads this
    {
      WellKeyed(raw)
    }

    ghost function Snapshot(): Db<M, E>
      reads this
    {
      Db(raw, cursors, model)
    }

    /** `insert ... on conflict do nothing`, row by row; the count is of rows actually inserted. */
    method InsertRows(rows: seq<RawRow<E>>) returns (inserted: nat)
      modifies this`raw
      ensures raw == InsertAll(old(raw), rows) && |raw| == old(|raw|) + inserted && inserted <= |rows|
    {
      inserted := 0;
      for j := 0 to |rows|
        invariant inserted <= j
        invariant raw == InsertAll(old(raw), rows[..j]) && |raw| == old(|raw|) + inserted
      {
        assert rows[..j + 1][..j] == rows[..j];
        if rows[j].msgId !in raw {
          raw := raw[rows[j].msgId := rows[j]];
          inserted := inserted + 1;
        }
      }
      assert rows[..|rows|] == rows;
    }

    /** Bulk-inserts one page of edges and moves the stream's own cursor. */
    method PersistPage(
      stream: string, edges: seq<Edge<E>>, endCursor: Option<ChainOrder>, atHead: bool, ingestedAt: int)
      returns (inserted: nat, skipped: nat, decoded: nat, undecoded: nat)
      requires Valid()
      modifies this
      ensures Valid()
      ensures raw == Captured(old(raw), edges, ingestedAt)
      ensures cursors == PageCursor(old(cursors), stream, endCursor, atHead)
      ensures stream in cursors && cursors[stream].atHead == atHead
      ensures endCursor.Some? ==> cursors[stream].cursor == endCursor
      ensures endCursor.None? ==>
                cursors[stream].cursor == if stream in old(cursors) then old(cursors)[stream].cursor else None
      ensures forall other :: other != stream ==>
                (other in cursors <==> other in old(cursors))
                && (other in cursors ==> cursors[other] == old(cursors)[other])
      ensures model == old(model)
      ensures inserted == |KeyedIds(edges) - old(raw).Keys| && skipped == |KeyedIds(edges) * old(raw).Keys|
      ensures Counted(edges, inserted + skipped, decoded, undecoded)
    {
      inserted, skipped, decoded, undecoded := PersistRows(edges, ingestedAt);
      var prior := if stream in cursors then cursors[stream].cursor else None;
      cursors := cursors[stream := Cursor(if endCursor.Some? then endCursor else prior, atHead)];
    }

    method PersistRows(edges: seq<Edge<E>>, ingestedAt: int)
      returns (inserted: nat, skipped: nat, decoded: nat, undecoded: nat)
      requires Valid()
      modifies this`raw
      ensures Valid()
      ensures raw == Captured(old(raw), edges, ingestedAt)
      ensures inserted == |KeyedIds(edges) - old(raw).Keys| && skipped == |KeyedIds(edges) * old(raw).Keys|
      ensures Counted(edges, inserted + skipped, decoded, undecoded)
    {
      var rows;
      rows, decoded, undecoded := PageRows(edges, ingestedAt, raw);
      inserted := InsertRows(rows);
      skipped := |rows| - inserted;
      CapturedKeepsKeys(old(raw), edges, ingestedAt);
      CountInserted(old(raw), edges, ingestedAt, inserted);
    }

    /** Replaces the aggregate barrier; a null cursor replaces the previous value too. */
    method SetCaptureBarrier(cursor: Option<ChainOrder>, atHead: bool)
      modifies this`cursors
      ensures cursors == old(cursors)[CAPTURE_STREAM := Cursor(cursor, atHead)]
      ensures Barrier(cursors) == cursor
    {
      cursors := cursors[CAPTURE_STREAM := Cursor(cursor, atHead)];
    }

    /** The capture stream's `at_head`; false without a row. */
    method CaptureAtHead() returns (atHead: bool)
      ensures atHead <==> CAPTURE_STREAM in cursors && cursors[CAPTURE_STREAM].atHead
    {
      atHead := false;
      if CAPTURE_STREAM in cursors {
        atHead := cursors[CAPTURE_STREAM].atHead;
      }
    }

    /** An oldest row of a non-empty set of keys. */
    method Oldest(keys: set<MsgId>) returns (k: MsgId)
      requires keys != {} && keys <= raw.Keys
      ensures k in keys
      ensures forall j :: j in keys ==> raw[k].chainOrder <= raw[j].chainOrder
    {
      k :| k in keys;
      var rest := keys - {k};
      while rest != {}
        invariant rest <= keys && k in keys
        invariant forall j :: j in keys - rest ==> raw[k].chainOrder <= raw[j].chainOrder
        decreases |rest|
      {
        var j :| j in rest;
        if raw[j].chainOrder < raw[k].chainOrder {
          k := j;
        }
        rest := rest - {j};
      }
    }

    /** The keyset select shared by both drains. */
    method FetchPendingBatch(size: nat, after: Option<ChainOrder>, until: Option<ChainOrder>)
      returns (rows: seq<RawRow<E>>)
      requires Valid()
      ensures IsBatch(raw, after, until, size, rows)
      ensures forall i :: 0 <= i < |rows| ==>
                && rows[i].msgId in raw && raw[rows[i].msgId] == rows[i] && !rows[i].processed && rows[i].event.Some?
                && (after.Some? ==> after.value < rows[i].chainOrder)
                && (until.Some? ==> rows[i].chainOrder <= until.value)
      ensures forall k, i ::
                && k in raw && !raw[k].processed && raw[k].event.Some? && raw[k] !in rows && 0 <= i < |rows|
                && (after.Some? ==> after.value < raw[k].chainOrder)
                && (until.Some? ==> raw[k].chainOrder <= until.value)
                ==> |rows| == size && rows[i].chainOrder <= raw[k].chainOrder
    {
      rows := [];
      var rest := set k | k in raw && Eligible(raw[k], after, until);
      while |rows| < size && rest != {}
        invariant |rows| <= size && Selected(raw, after, until, rows, rest)
        decreases size - |rows|
      {
        var k := Oldest(rest);
        SelectNext(raw, after, until, rows, rest, k);
        rows := rows + [raw[k]];
        rest := rest - {k};
      }
    }

    /** Highest pending row inside the capture barrier; None when there is no barrier or no such row. */
    method MaxProjectable() returns (ceiling: Option<ChainOrder>)
      requires Valid()
      ensures IsCeiling(raw, cursors, ceiling)
      ensures ceiling.Some? ==>
                && CAPTURE_STREAM in cursors && cursors[CAPTURE_STREAM].cursor.Some?
                && ceiling.value <= cursors[CAPTURE_STREAM].cursor.value
                && exists k :: k in raw && !raw[k].processed && raw[k].event.Some? && raw[k].chainOrder == ceiling.value
      ensures CAPTURE_STREAM in cursors && cursors[CAPTURE_STREAM].cursor.Some? ==>
                forall k :: k in raw && !raw[k].processed && raw[k].event.Some?
                            && raw[k].chainOrder <= cursors[CAPTURE_STREAM].cursor.value
                  ==> ceiling.Some? && raw[k].chainOrder <= ceiling.value
    {
      ceiling := None;
      var b := Barrier(cursors);
      if b.None? {
        return;
      }
      var rest := raw.Keys;
      while rest != {}
        invariant rest <= raw.Keys
        invariant ceiling.Some? ==>
          ceiling.value <= b.value && exists k :: k in raw && Pending(raw[k]) && raw[k].chainOrder == ceiling.value
        invariant forall k :: k in raw && k !in rest && Pending(raw[k]) && raw[k].chainOrder <= b.value
                    ==> ceiling.Some? && raw[k].chainOrder <= ceiling.value
        decreases |rest|
      {
        var k :| k in rest;
        rest := rest - {k};
        if Pending(raw[k]) && raw[k].chainOrder <= b.value
           && (ceiling.None? || ceiling.value < raw[k].chainOrder) {
          ceiling := Some(raw[k].chainOrder);
        }
      }
    }

    /** One transaction, no savepoints: commits everything or, on the first error, nothing. */
    method ReprojectBatchFast(
      size: nat, after: Option<ChainOrder>, until: Option<ChainOrder>, cx: Context)
      returns (stats: Option<Stats>, rows: seq<RawRow<E>>)
      requires Valid()
      modifies this`raw, this`model
      ensures Valid()
      ensures IsBatch(old(raw), after, until, size, rows)
      ensures var p := Optimistic(handlers, cx, Start(old(model), rows), rows);
              if p.Some? then stats == Some(p.value.stats) && Snapshot() == Commit(old(Snapshot()), p.value)
              else stats.None? && Snapshot() == old(Snapshot())
    {
      rows := FetchPendingBatch(size, after, until);
      var p := DrainOptimistic(handlers, cx, model, rows);
      if p.None? {
        return None, rows;
      }
      Mark(p.value.toMark);
      model := p.value.model;
      stats := Some(p.value.stats);
    }

    /** One transaction with a savepoint per row: a failing row rolls back alone. */
    method ReprojectBatchSavepointed(
      size: nat, after: Option<ChainOrder>, until: Option<ChainOrder>, cx: Context)
      returns (stats: Stats, rows: seq<RawRow<E>>)
      requires Valid()
      modifies this`raw, this`model
      ensures Valid()
      ensures IsBatch(old(raw), after, until, size, rows)
      ensures (Snapshot(), stats) == PerRow(handlers, cx, old(Snapshot()), rows)
    {
      rows := FetchPendingBatch(size, after, until);
      var p := DrainSavepointed(handlers, cx, model, rows);
      Mark(p.toMark);
      model := p.model;
      stats := p.stats;
    }

    /** Stamps `processed` on the given rows. */
    method Mark(ids: seq<MsgId>)
      modifies this`raw
      ensures raw == MarkProcessed(old(raw), ids)
      ensures forall k :: k in old(raw) ==>
                && k in raw && (raw[k].processed <==> old(raw)[k].processed || k in ids)
                && raw[k].(processed := false) == old(raw)[k].(processed := false)
    {
      var i := 0;
      while i < |ids|
        invariant 0 <= i <= |ids|
        invariant raw == MarkProcessed(old(raw), ids[..i])
      {
        if ids[i] in raw && !raw[ids[i]].processed {
          raw := raw[ids[i] := raw[ids[i]].(processed := true)];
        }
        i := i + 1;
      }
      assert ids[..i] == ids;
    }

    /** What other components commit between two transactions of the drain loop. */
    method Interleave(steps: seq<Step<M, E>>)
      requires Valid() && forall i :: 0 <= i < |steps| ==> Outside(steps[i])
      modifies this
      ensures Valid() && Snapshot() == DisturbAll(old(Snapshot()), steps)
    {
      ghost var db0 := Snapshot();
      for i := 0 to |steps|
        invariant Valid() && DisturbAll(db0, steps) == DisturbAll(Snapshot(), steps[i..])
      {
        assert steps[i..][0] == steps[i] && steps[i..][1..] == steps[i + 1..];
        match steps[i]
        case Capture(stream, edges, end, atHead, at) =>
          var _, _, _, _ := PersistPage(stream, edges, end, atHead, at);
        case Publish(cursor, atHead) => SetCaptureBarrier(cursor, atHead);
        case Elsewhere(change) => model := change(model);
      }
    }

    /**
     Optimistic drain, and on any error a savepointed replay of the same range. The replay is a
     transaction of its own with a fetch of its own: `meanwhile` is committed before it. No stats
     are returned if a transaction fails as a whole, or if its commit is not acknowledged.
     */
    method ReprojectPendingFrom(
      size: nat, after: Option<ChainOrder>, until: Option<ChainOrder>, r: Reading, meanwhile: seq<Step<M, E>>,
      fault: Fault)
      returns (stats: Option<Stats>, rows: seq<RawRow<E>>, fellBack: bool, committed: bool, ghost tried: seq<RawRow<E>>)
      requires Valid() && forall i :: 0 <= i < |meanwhile| ==> Outside(meanwhile[i])
      modifies this
      ensures Valid()
      ensures IsBatch(old(raw), after, until, size, tried)
      ensures fellBack <==>
                && fault != BatchFails
                && Optimistic(handlers, ContextAt(r, old(cursors)), Start(old(model), tried), tried).None?
      ensures committed <==> fault != BatchFails && !(fellBack && fault == ReplayFails)
      ensures stats.Some? <==> committed && fault != AckLost
      ensures committed && !fellBack ==> rows == tried
      ensures !committed ==> rows == []
      ensures var db := if fellBack then DisturbAll(old(Snapshot()), meanwhile) else old(Snapshot());
              var cx := ContextAt(r, old(cursors));
              if !committed then Snapshot() == db
              else && IsBatch(db.raw, after, until, size, rows)
                   && Snapshot() == PerRow(handlers, cx, db, rows).0
                   && (stats.Some? ==> stats.value == PerRow(handlers, cx, db, rows).1)
    {
      if fault == BatchFails {
        rows := FetchPendingBatch(size, after, until);
        tried := rows;
        return None, [], false, false, tried;
      }
      var atHead := CaptureAtHead();
      var cx := Context(r.now, r.flagRead && atHead);
      stats, rows := ReprojectBatchFast(size, after, until, cx);
      tried, fellBack, committed := rows, stats.None?, true;
      if stats.Some? {
        TwoStrategyEqualsPerRow(handlers, cx, old(Snapshot()), rows);
      } else {
        Interleave(meanwhile);
        if fault == ReplayFails {
          return None, [], true, false, tried;
        }
        var replayed;
        replayed, rows := ReprojectBatchSavepointed(size, after, until, cx);
        stats := Some(replayed);
      }
      if fault == AckLost {
        stats := None;
      }
    }

    /**
     One batch of a pass, with what the other components commit before it and before its replay, as a
     run of the transition system. Without stats the pass is over, with the floor where it was.
     */
    method PassBatch(
      size: nat, after: Option<ChainOrder>, ceiling: ChainOrder, r: Reading, fault: Fault,
      before: seq<Step<M, E>>, between: seq<Step<M, E>>, ghost s: Sys<M, E>, ghost keys: set<MsgId>)
      returns (stats: Option<Stats>, rows: seq<RawRow<E>>, ghost steps: seq<Step<M, E>>)
      requires Valid() && size > 0 && keys <= raw.Keys
      requires s.db == Snapshot() && s.phase.Draining?
      requires s.phase.after == after && s.phase.ceiling == ceiling && !s.phase.replaying
      requires ArrivesPast(before, keys, ceiling) && ArrivesPast(between, keys, ceiling)
      modifies this
      ensures Valid() && keys <= raw.Keys
      ensures Runs(s, steps) && Run(s, steps).db == Snapshot() && Attempted(steps) == rows
      ensures ReadsFlag(s, steps, false)
      ensures stats.Some? ==> stats.value.scanned == |rows| && stats.value.maxChainOrder == HighWater(rows)
      ensures stats.Some? ==> PassRun(s, steps) && BatchOutcome(s, Run(s, steps), size, rows)
      ensures stats.None? ==> Run(s, steps).phase.Idle? && Run(s, steps).floor == s.floor
      ensures before == [] && between == [] ==>
                cursors == old(cursors) && Quiet(steps, handlers, ContextAt(r, old(cursors)))
      ensures fault == NoFault ==> stats.Some?
    {
      OutsideRuns(s, before, keys);
      Interleave(before);
      ghost var s1 := Run(s, before);
      ghost var cx := ContextAt(r, cursors);
      var fellBack, committed;
      ghost var tried;
      stats, rows, fellBack, committed, tried := ReprojectPendingFrom(size, after, Some(ceiling), r, between, fault);
      ghost var acked := stats.Some?;
      steps := MovesRun(s, handlers, cx, size, before, tried, rows, fellBack, committed, acked, between, keys);
      if committed {
        PerRowScans(handlers, cx, if fellBack then DisturbAll(s1.db, between) else s1.db, rows);
      }
      QuietBatch(s, steps, handlers, cx, s1.db.model, size, before, tried, rows, fellBack, committed, acked, between);
    }

    /**
     One pass of the drain loop over `(from, ceiling]`. Before the j-th batch the other components
     commit `meanwhile(2 * j)`, and `meanwhile(2 * j + 1)` before its replay; `reading(j)` is what
     the batch reads; `fault(j)` says whether and when its transaction fails as a whole, or its commit is
     not acknowledged: either ends the pass.

     The pass terminates and is a run of the transition system, so what is proved of such runs
     holds of it: `steps` are its steps from `s`, and on a clean end it is a pass in the sense of
     the coverage theorems. If nothing else commits and the clock stands still, its state is that
     of one per-row drain of the rows it committed: batching and the strategies leave no trace.
     */
    method DrainPass(
      size: nat, from: Option<ChainOrder>, ceiling: ChainOrder, reading: nat -> Reading, fault: nat -> Fault,
      meanwhile: nat -> seq<Step<M, E>>, ghost s: Sys<M, E>)
      returns (clean: bool, attempted: seq<RawRow<E>>, ghost steps: seq<Step<M, E>>)
      requires Valid() && size > 0
      requires s.db == Snapshot() && s.phase.Draining?
      requires s.phase.after == from && s.phase.ceiling == ceiling && !s.phase.replaying
      requires forall j :: ArrivesPast(meanwhile(j), raw.Keys, ceiling)
      modifies this
      ensures Valid() && Runs(s, steps) && Run(s, steps).db == Snapshot() && Run(s, steps).phase.Idle?
      ensures Run(s, steps).floor == if clean then Some(ceiling) else s.floor
      ensures attempted == Attempted(steps)
      ensures clean ==> PassRun(s, steps)
      ensures (forall j :: fault(j) == NoFault) ==> clean
      ensures ReadsFlag(s, steps, false)
      ensures (forall j :: meanwhile(j) == [] && reading(j) == reading(0)) ==>
                var cx := ContextAt(reading(0), old(cursors));
                Snapshot() == Commit(old(Snapshot()), Savepointed(handlers, cx, Fresh(old(model)), attempted))
    {
      attempted, clean, steps := [], true, [];
      var after, j, more := from, 0, true;
      ghost var now := s;
      ghost var keys := raw.Keys;
      ghost var alone := forall j :: meanwhile(j) == [] && reading(j) == reading(0);
      ghost var cx := ContextAt(reading(0), cursors);
      while more
        invariant Valid() && keys <= raw.Keys && clean
        invariant PassSoFar(s, steps, now) && now.db == Snapshot() && attempted == Attempted(steps)
        invariant more ==> now.phase == s.phase.(after := after) && now.floor == s.floor
        invariant !more ==> now.phase.Idle? && now.floor == Some(ceiling)
        invariant ReadsFlag(s, steps, false)
        invariant alone ==> cursors == old(cursors) && Quiet(steps, handlers, cx)
        decreases more, |Ahead(raw, after, Some(ceiling))|
      {
        var stats, rows, batch :=
          PassBatch(size, after, ceiling, reading(j), fault(j), meanwhile(2 * j), meanwhile(2 * j + 1), now, keys);
        attempted := attempted + rows;
        ReadsConcat(s, steps, batch, false);
        if stats.None? {
          steps := Ended(s, steps, now, batch);
          clean, more := false, false;
          break;
        }
        steps, now := Extended(s, steps, now, batch);
        if stats.value.scanned < size {
          more := false;
        } else {
          after := stats.value.maxChainOrder;
        }
        j := j + 1;
      }
      if alone {
        QuietPassIsOneDrain(s, steps, handlers, cx);
      }
    }

    /**
     One turn of the reprojection loop: a turn retries when it is the first or the interval has passed
     since the last retry; it takes a snapshot of the ceiling, drains from the front if it retries and from
     the floor otherwise, and raises the floor after a clean pass. Turn by turn the loop is a run of the
     transition system.
     */
    method LoopTurn(
      size: nat, floor: Option<ChainOrder>, forceRetry: bool, lastRetry: int, now: int, interval: int,
      reading: nat -> Reading, fault: nat -> Fault, meanwhile: nat -> seq<Step<M, E>>, ghost s: Sys<M, E>)
      returns (floor': Option<ChainOrder>, lastRetry': int, ghost steps: seq<Step<M, E>>)
      requires Valid() && size > 0
      requires s.db == Snapshot() && s.phase.Idle? && s.floor == floor
      requires Barrier(cursors).Some? ==> forall j :: ArrivesPast(meanwhile(j), raw.Keys, Barrier(cursors).value)
      modifies this
      ensures Valid() && Runs(s, steps) && Run(s, steps).db == Snapshot() && Run(s, steps).phase.Idle?
      ensures Run(s, steps).floor == floor' && ReadsFlag(s, steps, false)
      ensures var retry := forceRetry || now - lastRetry >= interval;
              && lastRetry' == (if retry then now else lastRetry)
              && exists ceiling :: steps != [] && steps[0] == Begin(retry, ceiling)
    {
      var retry := forceRetry || now - lastRetry >= interval;
      lastRetry' := if retry then now else lastRetry;
      var from := if retry then None else floor;
      var ceiling := MaxProjectable();
      ghost var begin := Begin(retry, ceiling);
      RunOne(s, begin);
      if ceiling.None? {
        return floor, lastRetry', [begin];
      }
      forall j ensures ArrivesPast(meanwhile(j), raw.Keys, ceiling.value) {
        assert ArrivesPast(meanwhile(j), raw.Keys, Barrier(cursors).value);
      }
      var clean, _, pass := DrainPass(size, from, ceiling.value, reading, fault, meanwhile, Next(s, begin));
      RunConcat(s, [begin], pass);
      ReadsConcat(s, [begin], pass, false);
      floor', steps := if clean then ceiling else floor, [begin] + pass;
    }
  }

  // ---------------------------------------------------------------- the pass as a run

  /** Only messages already stored are captured again at or below `ceiling`. */
  ghost predicate ArrivesPast<M, E>(steps: seq<Step<M, E>>, keys: set<MsgId>, ceiling: ChainOrder) {
    forall i :: 0 <= i < |steps| ==>
      Outside(steps[i]) && (steps[i].Capture? ==> EdgesPast(steps[i].edges, keys, ceiling))
  }

  ghost predicate EdgesPast<E>(edges: seq<Edge<E>>, keys: set<MsgId>, ceiling: ChainOrder) {
    forall i :: 0 <= i < |edges| && edges[i].chainOrder.Some? && edges[i].chainOrder.value <= ceiling ==>
      edges[i].msgId in keys
  }

  lemma {:induction false} EdgesPastAreNew<E>(
    raw: RawEvents<E>, edges: seq<Edge<E>>, ingestedAt: int, keys: set<MsgId>, ceiling: ChainOrder)
    requires EdgesPast(edges, keys, ceiling) && keys <= raw.Keys
    ensures forall k :: k in Captured(raw, edges, ingestedAt) && k !in raw ==>
              Captured(raw, edges, ingestedAt)[k].chainOrder > ceiling
    decreases |edges|
  {
    if edges != [] {
      EdgesPastAreNew(raw, edges[..|edges| - 1], ingestedAt, keys, ceiling);
    }
  }

  lemma OutsideStep<M, E>(s: Sys<M, E>, step: Step<M, E>, keys: set<MsgId>)
    requires s.phase.Draining? && ArrivesPast([step], keys, s.phase.ceiling)
    requires WellKeyed(s.db.raw) && keys <= s.db.raw.Keys
    ensures Outside(step) && CapturesPast(s, step)
    ensures var s' := Next(s, step);
            && s'.db == Disturb(s.db, step) && s'.phase == s.phase && s'.floor == s.floor
            && WellKeyed(s'.db.raw) && keys <= s'.db.raw.Keys
            && Ahead(s'.db.raw, s.phase.after, Some(s.phase.ceiling))
               == Ahead(s.db.raw, s.phase.after, Some(s.phase.ceiling))
  {
    assert [step][0] == step;
    if step.Capture? {
      EdgesPastAreNew(s.db.raw, step.edges, step.ingestedAt, keys, s.phase.ceiling);
      CapturedKeepsKeys(s.db.raw, step.edges, step.ingestedAt);
      CaptureKeepsAhead(s.db.raw, Disturb(s.db, step).raw, s.phase.after, s.phase.ceiling);
    }
  }

  /** Steps of other components run inside a pass and leave the loop's own state and its rows ahead. */
  lemma {:induction false} OutsideRuns<M, E>(s: Sys<M, E>, steps: seq<Step<M, E>>, keys: set<MsgId>)
    requires s.phase.Draining? && ArrivesPast(steps, keys, s.phase.ceiling)
    requires WellKeyed(s.db.raw) && keys <= s.db.raw.Keys
    ensures PassRun(s, steps) && Attempted(steps) == []
    ensures var s' := Run(s, steps);
            && s'.db == DisturbAll(s.db, steps) && s'.phase == s.phase && s'.floor == s.floor
            && WellKeyed(s'.db.raw) && keys <= s'.db.raw.Keys
            && Ahead(s'.db.raw, s.phase.after, Some(s.phase.ceiling))
               == Ahead(s.db.raw, s.phase.after, Some(s.phase.ceiling))
    decreases |steps|
  {
    if steps != [] {
      assert ArrivesPast([steps[0]], keys, s.phase.ceiling);
      OutsideStep(s, steps[0], keys);
      OutsideRuns(Next(s, steps[0]), steps[1..], keys);
    }
  }

  /** Where a committed batch leaves the loop, and that a full one has left fewer rows ahead. */
  ghost predicate BatchOutcome<M, E>(s: Sys<M, E>, s': Sys<M, E>, size: nat, rows: seq<RawRow<E>>)
    requires s.phase.Draining?
  {
    && WellKeyed(s'.db.raw)
    && if |rows| < size then s'.phase.Idle? && s'.floor == Some(s.phase.ceiling)
       else && s'.phase == s.phase.(after := HighWater(rows), replaying := false) && s'.floor == s.floor
            && |Ahead(s'.db.raw, s'.phase.after, Some(s.phase.ceiling))|
               < |Ahead(s.db.raw, s.phase.after, Some(s.phase.ceiling))|
  }

  lemma PerRowScans<M, E>(h: Handlers<M, E>, cx: Context, db: Db<M, E>, rows: seq<RawRow<E>>)
    ensures PerRow(h, cx, db, rows).1.scanned == |rows|
    ensures PerRow(h, cx, db, rows).1.maxChainOrder == HighWater(rows)
  {
    ScannedAll(h, cx, Start(db.model, rows), rows);
  }

  ghost predicate PassSoFar<M, E>(s: Sys<M, E>, steps: seq<Step<M, E>>, now: Sys<M, E>) {
    PassRun(s, steps) && Run(s, steps) == now
  }

  lemma Extended<M, E>(s: Sys<M, E>, steps: seq<Step<M, E>>, now: Sys<M, E>, more: seq<Step<M, E>>)
    returns (steps': seq<Step<M, E>>, now': Sys<M, E>)
    requires PassSoFar(s, steps, now) && PassRun(now, more)
    ensures steps' == steps + more && now' == Run(now, more) && PassSoFar(s, steps', now')
    ensures Attempted(steps') == Attempted(steps) + Attempted(more)
  {
    RunConcat(s, steps, more);
    PassRunConcat(s, steps, more);
    AttemptedConcat(steps, more);
    steps', now' := steps + more, Run(now, more);
  }

  /** The pass is over: its last batch need not have ended it cleanly. */
  lemma Ended<M, E>(s: Sys<M, E>, steps: seq<Step<M, E>>, now: Sys<M, E>, last: seq<Step<M, E>>)
    returns (steps': seq<Step<M, E>>)
    requires PassSoFar(s, steps, now) && Runs(now, last)
    ensures steps' == steps + last && Runs(s, steps') && Run(s, steps') == Run(now, last)
    ensures Attempted(steps') == Attempted(steps) + Attempted(last)
  {
    RunConcat(s, steps, last);
    AttemptedConcat(steps, last);
    steps' := steps + last;
  }

  /** The steps of a batch up to its commit: a fast failure, up to the failing row, and what came in between. */
  function LeadSteps<M, E>(
    h: Handlers<M, E>, cx: Context, m: M, size: nat, tried: seq<RawRow<E>>, fellBack: bool,
    meanwhile: seq<Step<M, E>>): seq<Step<M, E>>
  {
    if fellBack then [FastFails(size, tried, TriedCount(h, cx, Start(m, tried), tried))] + meanwhile else []
  }

  /** Its last step: a commit by either strategy, acknowledged or not, or a failure as a whole. */
  function EndStep<M, E>(
    h: Handlers<M, E>, cx: Context, size: nat, rows: seq<RawRow<E>>, fellBack: bool, committed: bool,
    acked: bool): Step<M, E>
  {
    if !committed then Abort(size, [], 0)
    else if fellBack then Replay(h, cx, size, rows, acked)
    else Fast(h, cx, size, rows, acked)
  }

  lemma QuietBatch<M, E>(
    s: Sys<M, E>, steps: seq<Step<M, E>>, h: Handlers<M, E>, cx: Context, m: M, size: nat, before: seq<Step<M, E>>,
    tried: seq<RawRow<E>>, rows: seq<RawRow<E>>, fellBack: bool, committed: bool, acked: bool,
    between: seq<Step<M, E>>)
    requires var end := EndStep(h, cx, size, rows, fellBack, committed, acked);
             steps == before + LeadSteps(h, cx, m, size, tried, fellBack, between) + [end] && Runs(s, steps)
    ensures before == [] && between == [] ==> Quiet(steps, h, cx) && Run(s, steps).db.cursors == s.db.cursors
  {
    if before == [] && between == [] {
      QuietPassIsOneDrain(s, steps, h, cx);
    }
  }

  /** The steps up to the commit are a run that leaves the cursor and the rows ahead. */
  lemma LeadRuns<M, E>(
    s: Sys<M, E>, h: Handlers<M, E>, cx: Context, size: nat, tried: seq<RawRow<E>>, fellBack: bool,
    meanwhile: seq<Step<M, E>>, keys: set<MsgId>)
    requires s.phase.Draining? && !s.phase.replaying && WellKeyed(s.db.raw) && keys <= s.db.raw.Keys
    requires ArrivesPast(meanwhile, keys, s.phase.ceiling) && Fetches(s, size, tried)
    ensures var lead := LeadSteps(h, cx, s.db.model, size, tried, fellBack, meanwhile);
            && PassRun(s, lead) && Attempted(lead) == []
            && var s' := Run(s, lead);
               && s'.db == (if fellBack then DisturbAll(s.db, meanwhile) else s.db)
               && s'.phase == s.phase.(replaying := fellBack) && s'.floor == s.floor
               && WellKeyed(s'.db.raw) && keys <= s'.db.raw.Keys
               && Ahead(s'.db.raw, s.phase.after, Some(s.phase.ceiling))
                  == Ahead(s.db.raw, s.phase.after, Some(s.phase.ceiling))
  {
    if fellBack {
      var fails := FastFails(size, tried, TriedCount(h, cx, Start(s.db.model, tried), tried));
      OneRuns(s, fails);
      OutsideRuns(Next(s, fails), meanwhile, keys);
      var _, _ := Extended(s, [fails], Next(s, fails), meanwhile);
    }
  }

  /** The whole batch: what came before it, its lead, and its last step. */
  lemma BatchRuns<M, E>(s: Sys<M, E>, before: seq<Step<M, E>>, lead: seq<Step<M, E>>, end: Step<M, E>)
    returns (steps: seq<Step<M, E>>)
    requires s.phase.Draining? && !s.phase.replaying && PassRun(s, before) && Attempted(before) == []
    requires PassRun(Run(s, before), lead) && Attempted(lead) == []
    requires var s2 := Run(Run(s, before), lead);
             && s2.phase == s.phase.(replaying := s2.phase.Draining? && s2.phase.replaying) && s2.floor == s.floor
             && WellKeyed(s2.db.raw) && Enabled(s2, end) && (Commits(end) || (end.Abort? && end.rows == []))
             && Ahead(s2.db.raw, s.phase.after, Some(s.phase.ceiling))
                == Ahead(s.db.raw, s.phase.after, Some(s.phase.ceiling))
    ensures steps == before + lead + [end] && Runs(s, steps)
    ensures var s2 := Run(Run(s, before), lead);
            if Commits(end) then
              Attempted(steps) == end.rows && Run(s, steps).db == PerRow(end.h, end.cx, s2.db, end.rows).0
            else Attempted(steps) == [] && Run(s, steps).db == s2.db
    ensures if Commits(end) && end.acked then PassRun(s, steps) && BatchOutcome(s, Run(s, steps), end.size, end.rows)
            else Run(s, steps).phase.Idle? && Run(s, steps).floor == s.floor
  {
    var led, s2 := Extended(s, before, Run(s, before), lead);
    EndRuns(s2, end);
    steps := Ended(s, led, s2, [end]);
    if Commits(end) && end.acked {
      var _, _ := Extended(s, led, s2, [end]);
    }
  }

  /** The moves of one batch, whichever way it went, are a run. */
  lemma MovesRun<M, E>(
    s: Sys<M, E>, h: Handlers<M, E>, cx: Context, size: nat, before: seq<Step<M, E>>, tried: seq<RawRow<E>>,
    rows: seq<RawRow<E>>, fellBack: bool, committed: bool, acked: bool, between: seq<Step<M, E>>, keys: set<MsgId>)
    returns (steps: seq<Step<M, E>>)
    requires s.phase.Draining? && !s.phase.replaying && size > 0 && WellKeyed(s.db.raw) && keys <= s.db.raw.Keys
    requires ArrivesPast(before, keys, s.phase.ceiling) && ArrivesPast(between, keys, s.phase.ceiling)
    requires var db := DisturbAll(s.db, before);
             && IsBatch(db.raw, s.phase.after, Some(s.phase.ceiling), size, tried)
             && (committed && !fellBack ==>
                   rows == tried && Optimistic(h, cx, Start(db.model, rows), rows).Some?)
             && (committed && fellBack ==>
                   IsBatch(DisturbAll(db, between).raw, s.phase.after, Some(s.phase.ceiling), size, rows))
             && (!committed ==> rows == [] && !acked) && (cx.captureAtHead ==> AtHead(db.cursors))
    ensures var m, end := DisturbAll(s.db, before).model, EndStep(h, cx, size, rows, fellBack, committed, acked);
            steps == before + LeadSteps(h, cx, m, size, tried, fellBack, between) + [end]
    ensures Runs(s, steps) && Attempted(steps) == rows && ReadsFlag(s, steps, false)
    ensures var db := if fellBack then DisturbAll(DisturbAll(s.db, before), between) else DisturbAll(s.db, before);
            keys <= db.raw.Keys && Run(s, steps).db == if committed then PerRow(h, cx, db, rows).0 else db
    ensures if acked then PassRun(s, steps) && BatchOutcome(s, Run(s, steps), size, rows)
            else Run(s, steps).phase.Idle? && Run(s, steps).floor == s.floor
  {
    OutsideRuns(s, before, keys);
    var s1 := Run(s, before);
    LeadRuns(s1, h, cx, size, tried, fellBack, between, keys);
    var lead := LeadSteps(h, cx, s1.db.model, size, tried, fellBack, between);
    steps := BatchRuns(s, before, lead, EndStep(h, cx, size, rows, fellBack, committed, acked));
    LeadReads(s1, h, cx, s1.db.model, size, tried, rows, fellBack, committed, acked, between);
    MovesRead(s, before, lead, EndStep(h, cx, size, rows, fellBack, committed, acked));
  }

  /** The batch takes capture to be at head only if it was when the batch read the flag. */
  lemma LeadReads<M, E>(
    s: Sys<M, E>, h: Handlers<M, E>, cx: Context, m: M, size: nat, tried: seq<RawRow<E>>, rows: seq<RawRow<E>>,
    fellBack: bool, committed: bool, acked: bool, between: seq<Step<M, E>>)
    requires forall i :: 0 <= i < |between| ==> Outside(between[i])
    requires var lead := LeadSteps(h, cx, m, size, tried, fellBack, between);
             Runs(s, lead) && Enabled(Run(s, lead), EndStep(h, cx, size, rows, fellBack, committed, acked))
    requires cx.captureAtHead ==> AtHead(s.db.cursors)
    ensures var lead, end := LeadSteps(h, cx, m, size, tried, fellBack, between),
                             EndStep(h, cx, size, rows, fellBack, committed, acked);
            Runs(s, lead + [end]) && ReadsFlag(s, lead + [end], false)
  {
    var lead := LeadSteps(h, cx, m, size, tried, fellBack, between);
    var end := EndStep(h, cx, size, rows, fellBack, committed, acked);
    RunOne(Run(s, lead), end);
    RunConcat(s, lead, [end]);
    if fellBack {
      ReplayReads(s, lead[0], between, end);
    } else {
      assert lead + [end] == [end] && [end][1..] == [];
    }
  }

  lemma ReplayReads<M, E>(s: Sys<M, E>, fails: Step<M, E>, between: seq<Step<M, E>>, end: Step<M, E>)
    requires fails.FastFails? && (forall i :: 0 <= i < |between| ==> Outside(between[i]))
    requires Runs(s, [fails] + between + [end])
    requires !end.Fast? && (end.Replay? && end.cx.captureAtHead ==> AtHead(s.db.cursors))
    ensures ReadsFlag(s, [fails] + between + [end], false)
  {
    var all := [fails] + between + [end];
    assert all[0] == fails && all[1..] == between + [end];
    OutsideReads(Next(s, fails), between, end, AtHead(s.db.cursors));
  }

  lemma MovesRead<M, E>(s: Sys<M, E>, before: seq<Step<M, E>>, lead: seq<Step<M, E>>, end: Step<M, E>)
    requires Runs(s, before) && forall i :: 0 <= i < |before| ==> Outside(before[i])
    requires Runs(Run(s, before), lead + [end]) && ReadsFlag(Run(s, before), lead + [end], false)
    ensures Runs(s, before + lead + [end]) && ReadsFlag(s, before + lead + [end], false)
  {
    OutsideReadsNothing(s, before);
    ReadsConcat(s, before, lead + [end], false);
    assert before + lead + [end] == before + (lead + [end]);
  }

  lemma {:induction false} OutsideReadsNothing<M, E>(s: Sys<M, E>, steps: seq<Step<M, E>>)
    requires Runs(s, steps) && forall i :: 0 <= i < |steps| ==> Outside(steps[i])
    ensures ReadsFlag(s, steps, false)
    decreases |steps|
  {
    if steps != [] {
      OutsideReadsNothing(Next(s, steps[0]), steps[1..]);
    }
  }

  lemma EndRuns<M, E>(s: Sys<M, E>, end: Step<M, E>)
    requires s.phase.Draining? && WellKeyed(s.db.raw) && Enabled(s, end)
    requires Commits(end) || (end.Abort? && end.rows == [])
    ensures Runs(s, [end]) && Attempted([end]) == if Commits(end) then end.rows else []
    ensures Run(s, [end]).db == if Commits(end) then PerRow(end.h, end.cx, s.db, end.rows).0 else s.db
    ensures if Commits(end) && end.acked then
              PassRun(s, [end]) && BatchOutcome(s, Run(s, [end]), end.size, end.rows)
            else Run(s, [end]).phase.Idle? && Run(s, [end]).floor == s.floor
  {
    RunOne(s, end);
    if Commits(end) {
      AdvanceIsPerRow(s, end);
      if end.acked {
        OneRuns(s, end);
        if |end.rows| == end.size {
          BatchShrinks(end.h, end.cx, s.db, s.phase.after, Some(s.phase.ceiling), end.size, end.rows);
        }
      }
    }
  }

  /** `rows` are the lowest eligible rows so far and `rest` the keys of all the others. */
  ghost predicate Selected<E>(
    raw: RawEvents<E>, after: Option<ChainOrder>, until: Option<ChainOrder>, rows: seq<RawRow<E>>, rest: set<MsgId>)
  {
    && (forall k :: k in rest ==> k in raw && Eligible(raw[k], after, until))
    && AllStored(raw, rows) && AllEligible(rows, after, until)
    && Ascending(rows) && NoRepeats(rows)
    && (forall i, k :: 0 <= i < |rows| && k in rest ==> rows[i].chainOrder <= raw[k].chainOrder)
    && (forall i :: 0 <= i < |rows| ==> rows[i].msgId !in rest)
    && (forall k :: k in raw && Eligible(raw[k], after, until) ==> k in rest || raw[k] in rows)
  }

  lemma SelectNext<E>(
    raw: RawEvents<E>, after: Option<ChainOrder>, until: Option<ChainOrder>, rows: seq<RawRow<E>>, rest: set<MsgId>,
    k: MsgId)
    requires WellKeyed(raw) && Selected(raw, after, until, rows, rest) && k in rest
    requires forall j :: j in rest ==> raw[k].chainOrder <= raw[j].chainOrder
    ensures Selected(raw, after, until, rows + [raw[k]], rest - {k})
  {
  }
}
