/**
 How the projection barrier is computed from the capture streams, and exactly when it is safe: when
 nothing will ever be captured at or below it.
 */
module CaptureBarrier {
  import opened Prelude
  import opened PipelineModel
  import opened PipelineSteps
  import opened PipelineRuns

  // ---------------------------------------------------------------- the computation

  /** What one stream reports after a drain: how far it got, and whether that was the head. */
  datatype Drained = Drained(cursor: Option<ChainOrder>, atHead: bool)

  datatype Candidate = Candidate(cursor: Option<ChainOrder>, atHead: bool)

  function Highest(states: seq<Drained>): Option<ChainOrder>
    decreases |states|
  {
    if states == [] then None else GreatestOpt(states[0].cursor, Highest(states[1..]))
  }

  /** The least cursor of the streams still backfilling; no cursor at all if one of them has none. */
  function Limit(states: seq<Drained>): Option<Option<ChainOrder>>
    decreases |states|
  {
    if states == [] then None
    else
      var rest := Limit(states[1..]);
      if states[0].atHead then rest
      else if rest.None? then Some(states[0].cursor)
      else if states[0].cursor.None? || rest.value.None? then Some(None)
      else Some(Some(if states[0].cursor.value < rest.value.value then states[0].cursor.value else rest.value.value))
  }

  function Synchronized(states: seq<Drained>): Candidate {
    if forall i :: 0 <= i < |states| ==> states[i].atHead then Candidate(Highest(states), true)
    else
      var limit := Limit(states);
      Candidate(if limit.Some? then limit.value else None, false)
  }

  /** A head candidate is held back until the next poll; a backfill candidate is published at once. */
  function Stabilized(candidate: Candidate, published: Option<ChainOrder>, pending: Option<Candidate>)
    : (Candidate, Option<Candidate>)
  {
    if !candidate.atHead then (candidate, None)
    else
      var previous := if pending.Some? then pending.value.cursor else None;
      (Candidate(Coalesce(previous, published), true), Some(candidate))
  }

  // ---------------------------------------------------------------- polls

  /** The messages of each stream, and when a message of a given key becomes visible to the gateway. */
  datatype World = World(on: (nat, ChainOrder) -> bool, seen: ChainOrder -> int)

  /** The gateway shows messages in chain order, across the streams. */
  ghost predicate InOrder(w: World) {
    forall a, b :: a <= b ==> w.seen(a) <= w.seen(b)
  }

  /** The capture loop between polls: cursors, the barrier in the database, the held candidate, the time. */
  datatype Loop = Loop(
    cursors: seq<Option<ChainOrder>>, published: Option<ChainOrder>, pending: Option<Candidate>, now: int)

  /** One poll: what each stream reports, when it was asked for its head, and whether drains and write succeeded. */
  datatype Poll = Poll(states: seq<Drained>, checked: seq<int>, end: int, drained: bool, stored: bool)

  predicate Past(before: Option<ChainOrder>, after: Option<ChainOrder>) {
    before.Some? ==> after.Some? && before.value <= after.value
  }

  predicate Reached(cursor: Option<ChainOrder>, order: ChainOrder) {
    cursor.Some? && order <= cursor.value
  }

  /** A stream only moves forward, over messages already visible; at head it has reached all that was visible then. */
  ghost predicate PlausibleStream(w: World, l: Loop, p: Poll, i: nat)
    requires i < |l.cursors| == |p.states| == |p.checked|
  {
    && l.now <= p.checked[i] <= p.end
    && Past(l.cursors[i], p.states[i].cursor)
    && (p.states[i].cursor.Some? ==> w.seen(p.states[i].cursor.value) <= p.end)
    && (p.states[i].atHead ==>
          forall o :: w.on(i, o) && w.seen(o) <= p.checked[i] ==> Reached(p.states[i].cursor, o))
  }

  ghost predicate Plausible(w: World, l: Loop, p: Poll) {
    && |l.cursors| == |p.states| == |p.checked| && l.now <= p.end
    && forall i :: 0 <= i < |p.states| ==> PlausibleStream(w, l, p, i)
  }

  function Cursors(states: seq<Drained>): seq<Option<ChainOrder>> {
    seq(|states|, i requires 0 <= i < |states| => states[i].cursor)
  }

  predicate Publishes(p: Poll) {
    p.drained && p.stored
  }

  function Offered(l: Loop, p: Poll): (Candidate, Option<Candidate>) {
    Stabilized(Synchronized(p.states), l.published, l.pending)
  }

  function After(l: Loop, p: Poll): Loop {
    if !p.drained then l.(cursors := Cursors(p.states), now := p.end)
    else
      var (barrier, pending) := Offered(l, p);
      Loop(Cursors(p.states), if p.stored then barrier.cursor else l.published, pending, p.end)
  }

  // ---------------------------------------------------------------- safety

  /** Every message at or below the barrier is behind the cursor of its stream: no later capture is below it. */
  ghost predicate Safe(w: World, barrier: Option<ChainOrder>, cursors: seq<Option<ChainOrder>>) {
    barrier.Some? ==>
      forall i, o :: 0 <= i < |cursors| && w.on(i, o) && o <= barrier.value ==> Reached(cursors[i], o)
  }

  /** No head stream has a message between its cursor and the barrier a backfilling stream sets. */
  ghost predicate GapFree(w: World, states: seq<Drained>) {
    var b := Synchronized(states);
    !b.atHead && b.cursor.Some? ==>
      forall i, o :: 0 <= i < |states| && states[i].atHead && w.on(i, o) && o <= b.cursor.value ==>
        Reached(states[i].cursor, o)
  }

  lemma SafeGrows(w: World, b: Option<ChainOrder>, before: seq<Option<ChainOrder>>, after: seq<Option<ChainOrder>>)
    requires |before| == |after| && forall i :: 0 <= i < |before| ==> Past(before[i], after[i])
    requires Safe(w, b, before)
    ensures Safe(w, b, after)
  {
    if b.Some? {
      forall i, o | 0 <= i < |after| && w.on(i, o) && o <= b.value ensures Reached(after[i], o) {
        assert Reached(before[i], o);
      }
    }
  }

  /** The limit is at or below the cursor of every stream that is still backfilling. */
  lemma {:induction false} LimitIsLeast(states: seq<Drained>)
    ensures Limit(states).Some? <==> exists i :: 0 <= i < |states| && !states[i].atHead
    ensures Limit(states).Some? && Limit(states).value.Some? ==>
              var least := Limit(states).value.value;
              forall i :: 0 <= i < |states| && !states[i].atHead ==> Reached(states[i].cursor, least)
    decreases |states|
  {
    if states != [] {
      LimitIsLeast(states[1..]);
      assert forall i :: 0 <= i < |states[1..]| ==> states[1..][i] == states[i + 1];
      if Limit(states[1..]).Some? {
        var i :| 0 <= i < |states[1..]| && !states[1..][i].atHead;
        assert !states[i + 1].atHead;
      }
      if i :| 0 <= i < |states| && !states[i].atHead && i > 0 {
        assert !states[1..][i - 1].atHead;
      }
    }
  }

  /** The limit is the cursor of a backfilling stream. */
  lemma {:induction false} LimitIsOne(states: seq<Drained>)
    requires Limit(states).Some?
    ensures exists i :: 0 <= i < |states| && !states[i].atHead && states[i].cursor == Limit(states).value
    decreases |states|
  {
    var rest := states[1..];
    if Limit(rest).Some? {
      LimitIsOne(rest);
      var i :| 0 <= i < |rest| && !rest[i].atHead && rest[i].cursor == Limit(rest).value;
      assert states[i + 1] == rest[i];
    }
    assert states[0].atHead || states[0].cursor == Limit(states).value || Limit(rest).value == Limit(states).value;
  }

  /** The highest cursor is the cursor of a stream, and none is higher. */
  lemma {:induction false} HighestIsOne(states: seq<Drained>)
    ensures Highest(states).Some? ==> exists i :: 0 <= i < |states| && states[i].cursor == Highest(states)
    ensures forall i :: 0 <= i < |states| ==> Past(states[i].cursor, Highest(states))
    decreases |states|
  {
    if states != [] {
      HighestIsOne(states[1..]);
      assert forall i :: 0 < i < |states| ==> states[i] == states[1..][i - 1];
    }
    if states != [] && Highest(states).Some? {
      if states[0].cursor == Highest(states) {
        assert states[0].cursor == Highest(states);
      } else {
        var i :| 0 <= i < |states[1..]| && states[1..][i].cursor == Highest(states[1..]);
        assert states[i + 1].cursor == Highest(states);
      }
    }
  }

  /** With a stream still backfilling, the barrier is safe exactly when no head stream has a gap below it. */
  lemma BackfillBarrierSafeIff(w: World, states: seq<Drained>)
    requires !Synchronized(states).atHead
    ensures Safe(w, Synchronized(states).cursor, Cursors(states)) <==> GapFree(w, states)
  {
    LimitIsLeast(states);
    var b, cursors := Synchronized(states).cursor, Cursors(states);
    if b.Some? && GapFree(w, states) {
      forall i, o | 0 <= i < |cursors| && w.on(i, o) && o <= b.value ensures Reached(cursors[i], o) {
        assert !states[i].atHead ==> Reached(states[i].cursor, b.value);
      }
    }
    if b.Some? && Safe(w, b, cursors) {
      forall i, o | 0 <= i < |states| && states[i].atHead && w.on(i, o) && o <= b.value
        ensures Reached(states[i].cursor, o)
      {
        assert Reached(cursors[i], o);
      }
    }
  }

  /** The barrier in the database is safe, and a held candidate was visible by now. */
  ghost predicate Sound(w: World, l: Loop) {
    && Safe(w, l.published, l.cursors)
    && (l.pending.Some? && l.pending.value.cursor.Some? ==> w.seen(l.pending.value.cursor.value) <= l.now)
  }

  lemma CursorsPast(w: World, l: Loop, p: Poll)
    requires Plausible(w, l, p)
    ensures |Cursors(p.states)| == |l.cursors|
    ensures forall i :: 0 <= i < |l.cursors| ==> Past(l.cursors[i], Cursors(p.states)[i])
  {
    forall i | 0 <= i < |l.cursors| ensures Past(l.cursors[i], Cursors(p.states)[i]) {
      assert PlausibleStream(w, l, p, i);
    }
  }

  /** With all streams at head, what is published is always safe: it had become visible before this poll asked. */
  lemma HeadBarrierIsSafe(w: World, l: Loop, p: Poll)
    requires InOrder(w) && Sound(w, l) && Plausible(w, l, p) && Synchronized(p.states).atHead
    ensures Safe(w, Offered(l, p).0.cursor, Cursors(p.states))
  {
    var b, cursors := Offered(l, p).0.cursor, Cursors(p.states);
    CursorsPast(w, l, p);
    if l.pending.Some? && l.pending.value.cursor.Some? {
      forall i, o | 0 <= i < |cursors| && w.on(i, o) && o <= b.value ensures Reached(cursors[i], o) {
        assert PlausibleStream(w, l, p, i);
        assert w.seen(o) <= w.seen(b.value);
      }
    } else {
      SafeGrows(w, b, l.cursors, cursors);
    }
  }

  /** The candidate held after a poll is a cursor, which was visible by its end. */
  lemma HeldIsVisible(w: World, l: Loop, p: Poll)
    requires Plausible(w, l, p) && p.drained
    ensures var held := Offered(l, p).1;
            held.Some? && held.value.cursor.Some? ==> w.seen(held.value.cursor.value) <= p.end
  {
    var held := Offered(l, p).1;
    if held.Some? && held.value.cursor.Some? {
      HighestIsOne(p.states);
      var i :| 0 <= i < |p.states| && p.states[i].cursor == Highest(p.states);
      assert PlausibleStream(w, l, p, i);
    }
  }

  /** A poll that publishes keeps the loop sound exactly when the barrier it publishes is safe; others always do. */
  lemma PollKeepsSound(w: World, l: Loop, p: Poll)
    requires InOrder(w) && Sound(w, l) && Plausible(w, l, p)
    ensures Publishes(p) ==> (Safe(w, Offered(l, p).0.cursor, Cursors(p.states)) <==> GapFree(w, p.states))
    ensures !Publishes(p) || GapFree(w, p.states) ==> Sound(w, After(l, p))
  {
    CursorsPast(w, l, p);
    SafeGrows(w, l.published, l.cursors, Cursors(p.states));
    if p.drained {
      HeldIsVisible(w, l, p);
      if Synchronized(p.states).atHead {
        HeadBarrierIsSafe(w, l, p);
      } else {
        BackfillBarrierSafeIff(w, p.states);
      }
    }
  }

  // ---------------------------------------------------------------- progress

  predicate AllAtHead(p: Poll) {
    forall i :: 0 <= i < |p.states| ==> p.states[i].atHead
  }

  /**
   The barrier follows the streams: a head poll after a head poll publishes the highest cursor of the first, and
   a poll with a stream still backfilling publishes the least cursor of those, or none if one of them has none.
   */
  lemma BarrierFollows(l: Loop, p: Poll, q: Poll)
    requires p.drained && Publishes(q)
    ensures AllAtHead(p) && AllAtHead(q) && (exists i :: 0 <= i < |p.states| && p.states[i].cursor.Some?) ==>
              var b := After(After(l, p), q).published;
              && (exists i :: 0 <= i < |p.states| && p.states[i].cursor == b)
              && forall i :: 0 <= i < |p.states| ==> Past(p.states[i].cursor, b)
    ensures !AllAtHead(q) ==>
              var b := After(l, q).published;
              && (exists i :: 0 <= i < |q.states| && !q.states[i].atHead && q.states[i].cursor == b)
              && forall i :: 0 <= i < |q.states| && !q.states[i].atHead ==> Past(b, q.states[i].cursor)
  {
    HighestIsOne(p.states);
    if !AllAtHead(q) {
      LimitIsLeast(q.states);
      LimitIsOne(q.states);
    }
  }

  // ---------------------------------------------------------------- runs of polls

  ghost predicate PlausibleRun(w: World, l: Loop, polls: seq<Poll>)
    decreases |polls|
  {
    polls == [] || (Plausible(w, l, polls[0]) && PlausibleRun(w, After(l, polls[0]), polls[1..]))
  }

  /** Every barrier the run publishes is safe when it is published. */
  ghost predicate AllSafe(w: World, l: Loop, polls: seq<Poll>)
    decreases |polls|
  {
    polls == [] ||
    ((Publishes(polls[0]) ==> Safe(w, Offered(l, polls[0]).0.cursor, Cursors(polls[0].states)))
     && AllSafe(w, After(l, polls[0]), polls[1..]))
  }

  ghost predicate AllGapFree(w: World, polls: seq<Poll>) {
    forall i :: 0 <= i < |polls| && Publishes(polls[i]) ==> GapFree(w, polls[i].states)
  }

  /**
   Over every run of polls, if the gateway shows messages in chain order: all published barriers are safe if
   and only if no poll publishes a backfilling stream's cursor over a gap of a stream at head.
   */
  lemma {:induction false} BarriersSafeIffGapFree(w: World, l: Loop, polls: seq<Poll>)
    requires InOrder(w) && Sound(w, l) && PlausibleRun(w, l, polls)
    ensures AllSafe(w, l, polls) <==> AllGapFree(w, polls)
    decreases |polls|
  {
    if polls != [] {
      var p, rest := polls[0], polls[1..];
      PollKeepsSound(w, l, p);
      assert AllGapFree(w, polls) <==> (Publishes(p) ==> GapFree(w, p.states)) && AllGapFree(w, rest) by {
        assert forall i :: 0 <= i < |rest| ==> rest[i] == polls[i + 1];
        assert forall i :: 0 < i < |polls| ==> polls[i] == rest[i - 1];
      }
      if Publishes(p) ==> GapFree(w, p.states) {
        BarriersSafeIffGapFree(w, After(l, p), rest);
      }
    }
  }

  /** It suffices that every head stream was asked after the backfilling cursor had become visible. */
  lemma AskedLateIsGapFree(w: World, l: Loop, p: Poll)
    requires InOrder(w) && Plausible(w, l, p)
    requires var b := Synchronized(p.states).cursor;
             b.Some? ==> forall i :: 0 <= i < |p.states| && p.states[i].atHead ==> w.seen(b.value) <= p.checked[i]
    ensures GapFree(w, p.states)
  {
    var b := Synchronized(p.states).cursor;
    if b.Some? {
      forall i, o | 0 <= i < |p.states| && p.states[i].atHead && w.on(i, o) && o <= b.value
        ensures Reached(p.states[i].cursor, o)
      {
        assert PlausibleStream(w, l, p, i);
        assert w.seen(o) <= w.seen(b.value);
      }
    }
  }

  /**
   The gap does occur: a stream asked for its head just before a message arrives, while the other one is
   already past that message. The barrier is published over it.
   */
  lemma GapIsReachable() returns (w: World, l: Loop, p: Poll)
    ensures InOrder(w) && Sound(w, l) && Plausible(w, l, p) && Publishes(p)
    ensures !Safe(w, Offered(l, p).0.cursor, Cursors(p.states))
  {
    w := World((i: nat, o: ChainOrder) => (i == 0 && (o == 10 || o == 15)) || (i == 1 && o == 20),
               (o: ChainOrder) => if o <= 10 then 0 else 2);
    l := Loop([None, None], None, None, 0);
    p := Poll([Drained(Some(10), true), Drained(Some(20), false)], [1, 2], 3, true, true);
    var rest := p.states[1..];
    assert rest == [Drained(Some(20), false)] && rest[1..] == [];
    assert Limit(rest) == Some(Some(20)) && Limit(p.states) == Some(Some(20));
    assert !p.states[1].atHead;
    assert Offered(l, p).0.cursor == Some(20);
    assert w.on(0, 15) && !Reached(Cursors(p.states)[0], 15);
  }

  // ---------------------------------------------------------------- what capture owes the drain loop

  /** While the highest published barrier is safe, messages captured past the cursors lie above it. */
  lemma {:induction false} SafeBarrierKeepsCaptureAbove<E>(
    w: World, high: Option<ChainOrder>, cursors: seq<Option<ChainOrder>>, i: nat,
    raw: RawEvents<E>, edges: seq<Edge<E>>, ingestedAt: int)
    requires Safe(w, high, cursors) && i < |cursors|
    requires forall j :: 0 <= j < |edges| && edges[j].chainOrder.Some? && edges[j].msgId !in raw ==>
               w.on(i, edges[j].chainOrder.value) && !Reached(cursors[i], edges[j].chainOrder.value)
    ensures var raw' := Captured(raw, edges, ingestedAt);
            forall k :: k in raw' && k !in raw && high.Some? ==> raw'[k].chainOrder > high.value
    decreases |edges|
  {
    if edges != [] {
      SafeBarrierKeepsCaptureAbove(w, high, cursors, i, raw, edges[..|edges| - 1], ingestedAt);
    }
  }

  /** So a page of such messages with keys of their own is an orderly step of the pipeline. */
  lemma PageIsOrderly<M, E>(w: World, s: Sys<M, E>, cursors: seq<Option<ChainOrder>>, i: nat, step: Step<M, E>)
    requires step.Capture? && step.stream != CAPTURE_STREAM && Safe(w, s.high, cursors) && i < |cursors|
    requires forall j :: 0 <= j < |step.edges| && step.edges[j].chainOrder.Some? && step.edges[j].msgId !in s.db.raw ==>
               w.on(i, step.edges[j].chainOrder.value) && !Reached(cursors[i], step.edges[j].chainOrder.value)
    requires DistinctKeys(Captured(s.db.raw, step.edges, step.ingestedAt))
    ensures Orderly(s, step)
  {
    SafeBarrierKeepsCaptureAbove(w, s.high, cursors, i, s.db.raw, step.edges, step.ingestedAt);
  }
}
