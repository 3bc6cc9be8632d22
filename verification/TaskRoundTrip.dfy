/** Completing a prerequisite and reopening it (db.js): the completing write, the propagation of every
    row it finished, the reopening write and the propagation of the reopened task. */
module TaskRoundTrip {
  import opened Options
  import opened TaskDependencies

  // ===== The two writes =====

  /** A finished row.  An undated row may be stamped with a day; when the target had markers, which
      then are all released, the markers of every finished row are dropped. */
  function Finished(r: Row, stamp: Option<int>, dropMarkers: bool): Row {
    r.(status := Some("done"), done := true,
       date := if r.date.None? then stamp else r.date,
       stamped := if r.date.None? && stamp.Some? then stamp else r.stamped,
       ids := if dropMarkers then None else r.ids,
       one := if dropMarkers then None else r.one)
  }

  /** A reopened row; a stamped day is taken back. */
  function Reopened(r: Row): Row {
    var back := r.date.Some? && r.stamped == r.date;
    r.(status := if r.status.Some? && r.status.value != "" && r.status.value != "done" then r.status else Some("open"),
       done := false,
       date := if back then None else r.date,
       stamped := if back then None else r.stamped)
  }

  function FinishAll(rows: Rows, ids: seq<string>, stamp: Option<int>): Rows {
    map t | t in rows ::
      if t in ids then Finished(rows[t], stamp, ids[0] in rows && Markers(rows[ids[0]]) != []) else rows[t]
  }

  /** Nothing the task waits for is still open. */
  predicate MayFinish(rows: Rows, id: string)
    requires id in rows
  {
    forall m :: m in MarkerSet(rows[id]) && m in rows && !rows[m].deleted && rows[m].edge.Some? ==> StatusOf(rows[m]) != "open"
  }

  // ===== The propagations of one completion =====

  /** One propagation after the other, each with its own edges. */
  function TurnEach(rows: Rows, orders: seq<seq<string>>, at: int): (after: Rows)
    requires forall k :: 0 <= k < |orders| ==> AllIn(rows, orders[k])
    ensures SameShapes(rows, after)
  {
    if orders == [] then rows
    else
      var before := TurnEach(rows, orders[..|orders| - 1], at);
      assert AllIn(before, orders[|orders| - 1]) by {
        assert AllIn(rows, orders[|orders| - 1]);
      }
      TurnsKeepShapes(before, orders[|orders| - 1], true, at);
      TurnEdges(before, orders[|orders| - 1], true, at)
  }

  /** The k-th finished row turns its open edges, unless it was done before. */
  ghost predicate IsPropagation(before: Rows, now: Rows, id: string, order: seq<string>)
    requires id in before
  {
    if IsCompleted(before[id]) then order == [] else IsOrder(order, EdgesToTurn(now, id, true))
  }

  ghost predicate Propagates(before: Rows, start: Rows, ids: seq<string>, orders: seq<seq<string>>, at: int) {
    && |orders| == |ids|
    && (forall k :: 0 <= k < |orders| ==> AllIn(start, orders[k]))
    && (forall k :: 0 <= k < |ids| ==> ids[k] in before)
    && (forall k :: 0 <= k < |ids| ==> IsPropagation(before, TurnEach(start, orders[..k], at), ids[k], orders[k]))
  }

  /** The edges turned by some propagations whose dependents' subtrees hold a row. */
  ghost function OverEach(rows: Rows, orders: seq<seq<string>>, t: string): set<string> {
    if orders == [] then {}
    else OverEach(rows, orders[..|orders| - 1], t) + Over(rows, orders[|orders| - 1], t)
  }

  lemma OverByShape(rows: Rows, after: Rows, order: seq<string>, t: string)
    requires SameShapes(rows, after)
    ensures Over(rows, order, t) == Over(after, order, t)
  {
    forall e | e in order && e in rows ensures t in Dependents(rows, rows[e]) <==> t in Dependents(after, after[e]) {
      DependentsByShape(rows, after, rows[e]);
      assert Dependents(after, rows[e]) == Dependents(after, after[e]);
    }
  }

  lemma {:induction false} TurnsRelease(rows: Rows, orders: seq<seq<string>>, at: int, t: string)
    requires forall k :: 0 <= k < |orders| ==> AllIn(rows, orders[k]) && t !in orders[k]
    requires t in rows
    ensures IsMarkedBy(rows[t], TurnEach(rows, orders, at)[t], OverEach(rows, orders, t), true)
  {
    if orders != [] {
      var n := |orders| - 1;
      var before := TurnEach(rows, orders[..n], at);
      TurnsRelease(rows, orders[..n], at, t);
      assert AllIn(rows, orders[n]) && AllIn(before, orders[n]);
      TurnsMarkTasks(before, orders[n], true, at, t);
      OverByShape(rows, before, orders[n], t);
    }
  }

  /** An edge that only the first propagation may turn. */
  lemma {:induction false} FirstPropagationTurns(rows: Rows, orders: seq<seq<string>>, at: int, e: string)
    requires orders != [] && forall k :: 0 <= k < |orders| ==> AllIn(rows, orders[k])
    requires e in rows && forall k :: 0 < k < |orders| ==> e !in orders[k]
    ensures TurnEach(rows, orders, at)[e].status == if e in orders[0] then Some("ready") else rows[e].status
  {
    var n := |orders| - 1;
    var before := TurnEach(rows, orders[..n], at);
    assert AllIn(rows, orders[n]) && AllIn(before, orders[n]);
    TurnsSetStatus(before, orders[n], true, at, e);
    if n > 0 {
      FirstPropagationTurns(rows, orders[..n], at, e);
    } else {
      assert orders[..n] == [];
    }
  }

  // ===== The round trip =====

  /** The unfinished tasks under a dependent list its edge. */
  ghost predicate EdgesAreListed(rows: Rows, id: string) {
    forall e, t ::
      (e in rows && IsWaitingFor(rows[e], id) && t in rows && t in Dependents(rows, rows[e])
       && rows[t].edge.None? && !IsCompleted(rows[t])) ==> e in MarkerSet(rows[t])
  }

  /** A task completed with some of its steps: `ids` lists the rows finished, the task first. */
  ghost predicate MayComplete(rows: Rows, ids: seq<string>) {
    && ids != [] && (forall j, k :: 0 <= j < k < |ids| ==> ids[j] != ids[k])
    && (forall k :: 0 <= k < |ids| ==> ids[k] in rows)
    && rows[ids[0]].edge.None? && !IsCompleted(rows[ids[0]]) && MayFinish(rows, ids[0])
  }

  function Reopen(rows: Rows, id: string): Rows
    requires id in rows
  {
    rows[id := Reopened(rows[id])]
  }

  /** The four steps: completing write, propagations, reopening write, propagation. */
  ghost predicate IsRoundTrip(rows: Rows, ids: seq<string>, stamp: Option<int>, at: int, orders: seq<seq<string>>,
                              at': int, again: seq<string>) {
    && MayComplete(rows, ids)
    && Propagates(rows, FinishAll(rows, ids, stamp), ids, orders, at)
    && ids[0] in Done(rows, ids, stamp, at, orders)
    && IsOrder(again, EdgesToTurn(Reopen(Done(rows, ids, stamp, at, orders), ids[0]), ids[0], false))
  }

  /** The rows after the completion. */
  ghost function Done(rows: Rows, ids: seq<string>, stamp: Option<int>, at: int, orders: seq<seq<string>>): Rows
    requires forall k :: 0 <= k < |orders| ==> AllIn(FinishAll(rows, ids, stamp), orders[k])
  {
    TurnEach(FinishAll(rows, ids, stamp), orders, at)
  }

  /** The rows after the reopening. */
  ghost function Back(rows: Rows, ids: seq<string>, stamp: Option<int>, at: int, orders: seq<seq<string>>,
                      at': int, again: seq<string>): Rows
    requires IsRoundTrip(rows, ids, stamp, at, orders, at', again)
  {
    TurnEdges(Reopen(Done(rows, ids, stamp, at, orders), ids[0]), again, false, at')
  }

  // ----- Which edges turn -----

  /** An edge that the completion turns: it is open, waits for a row that is finished now, and is not
      finished itself. */
  predicate Turns(rows: Rows, ids: seq<string>, e: string)
    requires e in rows
  {
    && !rows[e].deleted && rows[e].edge.Some? && rows[e].edge.value.blocker.Some?
    && rows[e].edge.value.blocker.value in ids && rows[e].edge.value.blocker.value in rows
    && !IsCompleted(rows[rows[e].edge.value.blocker.value])
    && e !in ids && StatusOf(rows[e]) == "open"
  }

  /** An edge that the reopening turns back: it waits for the task and was open, or counts as released. */
  predicate TurnsBack(rows: Rows, ids: seq<string>, e: string)
    requires e in rows && ids != []
  {
    IsWaitingFor(rows[e], ids[0]) && (e in ids || StatusOf(rows[e]) == "open" || StatusOf(rows[e]) in READY_STATUSES)
  }

  /** A propagation turns only edges that wait for its own row. */
  lemma TurnedEdgeWaits(rows: Rows, start: Rows, ids: seq<string>, orders: seq<seq<string>>, at: int, k: nat, e: string)
    requires Propagates(rows, start, ids, orders, at) && k < |ids| && e in start && e in orders[k]
    ensures IsWaitingFor(start[e], ids[k])
  {
    assert IsPropagation(rows, TurnEach(start, orders[..k], at), ids[k], orders[k]);
    assert SameShape(start[e], TurnEach(start, orders[..k], at)[e]);
  }

  lemma {:induction false} StatusStays(rows: Rows, orders: seq<seq<string>>, at: int, e: string)
    requires e in rows && forall k :: 0 <= k < |orders| ==> AllIn(rows, orders[k]) && e !in orders[k]
    ensures TurnEach(rows, orders, at)[e].status == rows[e].status
  {
    if orders != [] {
      var n := |orders| - 1;
      var before := TurnEach(rows, orders[..n], at);
      StatusStays(rows, orders[..n], at, e);
      assert AllIn(rows, orders[n]) && AllIn(before, orders[n]);
      TurnsSetStatus(before, orders[n], true, at, e);
    }
  }

  /** The k-th propagation turns exactly the edges of its row that turn. */
  lemma PropagationTurns(rows: Rows, ids: seq<string>, stamp: Option<int>, at: int, orders: seq<seq<string>>, k: nat, e: string)
    requires MayComplete(rows, ids) && Propagates(rows, FinishAll(rows, ids, stamp), ids, orders, at)
    requires k < |ids| && e in rows
    ensures e in orders[k] <==> IsWaitingFor(rows[e], ids[k]) && Turns(rows, ids, e)
  {
    var start := FinishAll(rows, ids, stamp);
    var now := TurnEach(start, orders[..k], at);
    assert IsPropagation(rows, now, ids[k], orders[k]);
    assert SameShape(start[e], now[e]);
    if IsWaitingFor(rows[e], ids[k]) {
      forall j | 0 <= j < k ensures e !in orders[..k][j] {
        if e in orders[j] {
          TurnedEdgeWaits(rows, start, ids, orders, at, j, e);
        }
      }
      StatusStays(start, orders[..k], at, e);
    }
  }

  /** Between completion and reopening an edge of the task is ready, or done with it, or as it was. */
  lemma EdgeIsReady(rows: Rows, ids: seq<string>, stamp: Option<int>, at: int, orders: seq<seq<string>>, e: string)
    requires MayComplete(rows, ids) && Propagates(rows, FinishAll(rows, ids, stamp), ids, orders, at) && e in rows
    requires IsWaitingFor(rows[e], ids[0])
    ensures e in Done(rows, ids, stamp, at, orders)
    ensures Done(rows, ids, stamp, at, orders)[e].status
         == if e in ids then Some("done") else if StatusOf(rows[e]) == "open" then Some("ready") else rows[e].status
  {
    var start := FinishAll(rows, ids, stamp);
    forall k | 0 < k < |orders| ensures e !in orders[k] {
      PropagationTurns(rows, ids, stamp, at, orders, k, e);
    }
    PropagationTurns(rows, ids, stamp, at, orders, 0, e);
    FirstPropagationTurns(start, orders, at, e);
  }

  lemma EdgesOfReopened(done: Rows, id: string, e: string)
    requires id in done && done[id].edge.None? && e in done
    ensures e in EdgesToTurn(Reopen(done, id), id, false) <==>
            IsWaitingFor(done[e], id) && StatusOf(done[e]) in READY_STATUSES
  {
  }

  /** The reopened task turns back exactly the edges that turn back. */
  lemma ReopeningTurns(rows: Rows, ids: seq<string>, stamp: Option<int>, at: int, orders: seq<seq<string>>,
                       at': int, again: seq<string>, e: string)
    requires IsRoundTrip(rows, ids, stamp, at, orders, at', again) && e in rows
    ensures e in again <==> TurnsBack(rows, ids, e)
  {
    var start, done := FinishAll(rows, ids, stamp), Done(rows, ids, stamp, at, orders);
    assert SameShape(start[e], done[e]) && SameShape(start[ids[0]], done[ids[0]]);
    EdgesOfReopened(done, ids[0], e);
    if IsWaitingFor(rows[e], ids[0]) {
      EdgeIsReady(rows, ids, stamp, at, orders, e);
      TurnedStatusCounts(done[e], rows[e], e in ids);
    }
  }

  lemma TurnedStatusCounts(done: Row, before: Row, finished: bool)
    requires done.status == if finished then Some("done") else if StatusOf(before) == "open" then Some("ready") else before.status
    ensures StatusOf(done) in READY_STATUSES <==> finished || StatusOf(before) == "open" || StatusOf(before) in READY_STATUSES
  {
  }

  /** Completing a prerequisite and then reopening it leaves each of its edges open; only an edge that
      was neither open nor released keeps its status. */
  lemma EdgesComeBack(rows: Rows, ids: seq<string>, stamp: Option<int>, at: int, orders: seq<seq<string>>,
                      at': int, again: seq<string>, e: string)
    requires IsRoundTrip(rows, ids, stamp, at, orders, at', again)
    requires e in rows && IsWaitingFor(rows[e], ids[0])
    ensures var back := Back(rows, ids, stamp, at, orders, at', again);
            e in back && back[e].status == if TurnsBack(rows, ids, e) then Some("open") else rows[e].status
  {
    ReopeningTurns(rows, ids, stamp, at, orders, at', again, e);
    EdgeIsReady(rows, ids, stamp, at, orders, e);
    TurnsSetStatus(Reopen(Done(rows, ids, stamp, at, orders), ids[0]), again, false, at', e);
  }

  // ----- There are such runs -----

  lemma {:induction false} SomeOrder(edges: set<string>) returns (order: seq<string>)
    ensures IsOrder(order, edges)
    decreases edges
  {
    if edges == {} {
      return [];
    }
    var e :| e in edges;
    var rest := SomeOrder(edges - {e});
    order := rest + [e];
  }

  lemma OneMorePropagation(rows: Rows, orders: seq<seq<string>>, order: seq<string>, at: int)
    requires forall k :: 0 <= k < |orders| ==> AllIn(rows, orders[k])
    requires AllIn(rows, order)
    ensures forall k :: 0 <= k < |orders + [order]| ==> AllIn(rows, (orders + [order])[k])
    ensures AllIn(TurnEach(rows, orders, at), order)
    ensures TurnEach(rows, orders + [order], at) == TurnEdges(TurnEach(rows, orders, at), order, true, at)
  {
    assert (orders + [order])[..|orders|] == orders;
  }

  /** The propagations of the first n finished rows. */
  ghost predicate PropagatesSoFar(before: Rows, start: Rows, ids: seq<string>, orders: seq<seq<string>>, at: int, n: nat) {
    && |orders| == n <= |ids|
    && (forall k :: 0 <= k < |ids| ==> ids[k] in before)
    && (forall k :: 0 <= k < n ==> AllIn(start, orders[k]))
    && (forall k :: 0 <= k < n ==> IsPropagation(before, TurnEach(start, orders[..k], at), ids[k], orders[k]))
  }

  lemma PropagatesOneMore(before: Rows, start: Rows, ids: seq<string>, orders: seq<seq<string>>, at: int, order: seq<string>)
    requires PropagatesSoFar(before, start, ids, orders, at, |orders|) && |orders| < |ids| && AllIn(start, order)
    requires IsPropagation(before, TurnEach(start, orders, at), ids[|orders|], order)
    ensures PropagatesSoFar(before, start, ids, orders + [order], at, |orders| + 1)
  {
    var longer := orders + [order];
    forall k | 0 <= k < |longer| ensures AllIn(start, longer[k]) {
      assert k < |orders| ==> longer[k] == orders[k];
    }
    forall k | 0 <= k < |longer| ensures IsPropagation(before, TurnEach(start, longer[..k], at), ids[k], longer[k]) {
      assert longer[..k] == orders[..k];
      assert orders[..|orders|] == orders;
    }
  }

  lemma {:induction false} SomePropagations(before: Rows, start: Rows, ids: seq<string>, at: int, n: nat)
    returns (orders: seq<seq<string>>)
    requires n <= |ids| && forall k :: 0 <= k < |ids| ==> ids[k] in before
    ensures PropagatesSoFar(before, start, ids, orders, at, n)
    decreases n
  {
    if n == 0 {
      return [];
    }
    orders := SomePropagations(before, start, ids, at, n - 1);
    var now := TurnEach(start, orders, at);
    var order := [];
    if !IsCompleted(before[ids[n - 1]]) {
      order := SomeOrder(EdgesToTurn(now, ids[n - 1], true));
    }
    assert AllIn(start, order);
    PropagatesOneMore(before, start, ids, orders, at, order);
    orders := orders + [order];
  }

  /** Every task that may be completed makes the round trip. */
  lemma SomeRoundTrip(rows: Rows, ids: seq<string>, stamp: Option<int>, at: int, at': int)
    returns (orders: seq<seq<string>>, again: seq<string>)
    requires MayComplete(rows, ids)
    ensures IsRoundTrip(rows, ids, stamp, at, orders, at', again)
  {
    orders := SomePropagations(rows, FinishAll(rows, ids, stamp), ids, at, |ids|);
    again := SomeOrder(EdgesToTurn(Reopen(Done(rows, ids, stamp, at, orders), ids[0]), ids[0], false));
  }

  // ===== Markers =====

  /** The rows after the two writes alone: this is how they are filed when edges are turned back. */
  function BothWrites(rows: Rows, ids: seq<string>, stamp: Option<int>): Rows
    requires ids != [] && ids[0] in rows
  {
    Reopen(FinishAll(rows, ids, stamp), ids[0])
  }

  /** The markers of a row that the propagations of the completion release. */
  function Released(rows: Rows, ids: seq<string>, stamp: Option<int>, t: string): set<string> {
    var start := FinishAll(rows, ids, stamp);
    set e | e in rows && Turns(rows, ids, e) && t in Dependents(start, start[e])
  }

  /** The edges that the reopening turns back over a row. */
  function Restored(rows: Rows, ids: seq<string>, stamp: Option<int>, t: string): set<string>
    requires ids != [] && ids[0] in rows
  {
    var shape := BothWrites(rows, ids, stamp);
    set e | e in rows && TurnsBack(rows, ids, e) && t in Dependents(shape, shape[e])
  }

  lemma {:induction false} InOverEach(rows: Rows, orders: seq<seq<string>>, t: string, e: string)
    ensures e in OverEach(rows, orders, t) <==> exists k :: 0 <= k < |orders| && e in Over(rows, orders[k], t)
  {
    if orders != [] {
      var n := |orders| - 1;
      InOverEach(rows, orders[..n], t, e);
      if k :| 0 <= k < |orders| && e in Over(rows, orders[k], t) {
        assert k < n ==> orders[..n][k] == orders[k];
      }
    }
  }

  /** An edge that turns does so in the propagation of the row it waits for. */
  lemma ReleasedOnce(rows: Rows, ids: seq<string>, stamp: Option<int>, at: int, orders: seq<seq<string>>, t: string, e: string)
    requires MayComplete(rows, ids) && Propagates(rows, FinishAll(rows, ids, stamp), ids, orders, at)
    ensures e in OverEach(FinishAll(rows, ids, stamp), orders, t) <==> e in Released(rows, ids, stamp, t)
  {
    var start := FinishAll(rows, ids, stamp);
    InOverEach(start, orders, t, e);
    if k :| 0 <= k < |orders| && e in Over(start, orders[k], t) {
      PropagationTurns(rows, ids, stamp, at, orders, k, e);
    }
    if e in Released(rows, ids, stamp, t) {
      var k :| 0 <= k < |ids| && ids[k] == rows[e].edge.value.blocker.value;
      PropagationTurns(rows, ids, stamp, at, orders, k, e);
      assert e in Over(start, orders[k], t);
    }
  }

  lemma OverEachIsReleased(rows: Rows, ids: seq<string>, stamp: Option<int>, at: int, orders: seq<seq<string>>, t: string)
    requires MayComplete(rows, ids) && Propagates(rows, FinishAll(rows, ids, stamp), ids, orders, at)
    ensures OverEach(FinishAll(rows, ids, stamp), orders, t) == Released(rows, ids, stamp, t)
  {
    forall e ensures e in OverEach(FinishAll(rows, ids, stamp), orders, t) <==> e in Released(rows, ids, stamp, t) {
      ReleasedOnce(rows, ids, stamp, at, orders, t, e);
    }
  }

  lemma {:induction false} StampsStay(rows: Rows, orders: seq<seq<string>>, at: int, t: string)
    requires t in rows && forall k :: 0 <= k < |orders| ==> AllIn(rows, orders[k])
    ensures TurnEach(rows, orders, at)[t].stamped == rows[t].stamped
  {
    if orders != [] {
      var n := |orders| - 1;
      StampsStay(rows, orders[..n], at, t);
      assert AllIn(rows, orders[n]);
      TurnsKeepStamps(TurnEach(rows, orders[..n], at), orders[n], at, t);
    }
  }

  lemma MarkedKeepsStamp(r: Row, e: string, nowDone: bool)
    ensures Marked(r, e, nowDone).stamped == r.stamped
  {
  }

  lemma {:induction false} TurnsKeepStamps(rows: Rows, order: seq<string>, at: int, t: string)
    requires t in rows && AllIn(rows, order)
    ensures t in TurnEdges(rows, order, true, at) && TurnEdges(rows, order, true, at)[t].stamped == rows[t].stamped
  {
    if order != [] {
      var n := |order| - 1;
      TurnsKeepStamps(rows, order[..n], at, t);
      TurnsKeepShapes(rows, order[..n], true, at);
      var before, e := TurnEdges(rows, order[..n], true, at), order[n];
      TurnEdgeAt(before, e, rows[e], true, at, t);
      MarkedKeepsStamp(if t == e then Turned(rows[e], true, at) else before[t], e, true);
    }
  }

  lemma ReopenedAlike(a: Rows, b: Rows, id: string)
    requires SameShapes(a, b) && id in a && a[id].stamped == b[id].stamped
    ensures SameShapes(Reopen(a, id), Reopen(b, id))
  {
  }

  /** Turning edges leaves rows filed as the two writes file them. */
  lemma FiledAsWritten(rows: Rows, ids: seq<string>, stamp: Option<int>, at: int, orders: seq<seq<string>>)
    requires MayComplete(rows, ids) && Propagates(rows, FinishAll(rows, ids, stamp), ids, orders, at)
    ensures ids[0] in Done(rows, ids, stamp, at, orders)
    ensures SameShapes(BothWrites(rows, ids, stamp), Reopen(Done(rows, ids, stamp, at, orders), ids[0]))
  {
    var start := FinishAll(rows, ids, stamp);
    StampsStay(start, orders, at, ids[0]);
    ReopenedAlike(start, TurnEach(start, orders, at), ids[0]);
  }

  lemma SameDependents(rows: Rows, after: Rows, e: string)
    requires SameShapes(rows, after) && e in rows
    ensures Dependents(rows, rows[e]) == Dependents(after, after[e])
  {
    DependentsByShape(rows, after, rows[e]);
    assert rows[e].edge == after[e].edge;
  }

  lemma OverIsRestored(rows: Rows, ids: seq<string>, stamp: Option<int>, at: int, orders: seq<seq<string>>,
                       at': int, again: seq<string>, t: string)
    requires IsRoundTrip(rows, ids, stamp, at, orders, at', again)
    ensures Over(Reopen(Done(rows, ids, stamp, at, orders), ids[0]), again, t) == Restored(rows, ids, stamp, t)
  {
    var reopened := Reopen(Done(rows, ids, stamp, at, orders), ids[0]);
    FiledAsWritten(rows, ids, stamp, at, orders);
    assert reopened.Keys == rows.Keys;
    forall e | e in rows ensures e in Over(reopened, again, t) <==> e in Restored(rows, ids, stamp, t) {
      ReopeningTurns(rows, ids, stamp, at, orders, at', again, e);
      SameDependents(BothWrites(rows, ids, stamp), reopened, e);
    }
  }

  lemma NoTaskIsTurned(rows: Rows, ids: seq<string>, stamp: Option<int>, at: int, orders: seq<seq<string>>, t: string)
    requires MayComplete(rows, ids) && Propagates(rows, FinishAll(rows, ids, stamp), ids, orders, at)
    requires t in rows && rows[t].edge.None?
    ensures forall k :: 0 <= k < |orders| ==> t !in orders[k]
  {
    forall k | 0 <= k < |orders| ensures t !in orders[k] {
      PropagationTurns(rows, ids, stamp, at, orders, k, t);
    }
  }

  /** The task was done before, or was finished along with the prerequisite: reopening the
      prerequisite does not open it. */
  predicate StaysDone(rows: Rows, ids: seq<string>, t: string)
    requires t in rows && ids != []
  {
    t != ids[0] && (t in ids || IsCompleted(rows[t]))
  }

  /** What the reopening adds to the markers of a task. */
  function Added(rows: Rows, ids: seq<string>, stamp: Option<int>, t: string): set<string>
    requires t in rows && ids != [] && ids[0] in rows
  {
    if StaysDone(rows, ids, t) then {} else Restored(rows, ids, stamp, t)
  }

  lemma MarkersOnceDone(rows: Rows, ids: seq<string>, stamp: Option<int>, at: int, orders: seq<seq<string>>, t: string)
    requires MayComplete(rows, ids) && Propagates(rows, FinishAll(rows, ids, stamp), ids, orders, at)
    requires t in rows && rows[t].edge.None?
    ensures var done, start := Done(rows, ids, stamp, at, orders), FinishAll(rows, ids, stamp);
            && t in done && MarkerSet(done[t]) == MarkerSet(start[t]) - Released(rows, ids, stamp, t)
            && IsCompleted(done[t]) == (t in ids || IsCompleted(rows[t]))
  {
    NoTaskIsTurned(rows, ids, stamp, at, orders, t);
    TurnsRelease(FinishAll(rows, ids, stamp), orders, at, t);
    OverEachIsReleased(rows, ids, stamp, at, orders, t);
  }

  lemma ReopenedRow(done: Rows, id: string, t: string)
    requires id in done && t in done
    ensures Markers(Reopen(done, id)[t]) == Markers(done[t])
    ensures IsCompleted(Reopen(done, id)[t]) == (t != id && IsCompleted(done[t]))
  {
  }

  lemma MarkersOnceReopened(done: Rows, id: string, again: seq<string>, at: int, t: string)
    requires id in done && t in done && AllIn(Reopen(done, id), again) && t !in again
    ensures var back := TurnEdges(Reopen(done, id), again, false, at);
            && t in back && IsCompleted(back[t]) == (t != id && IsCompleted(done[t]))
            && MarkerSet(back[t])
               == MarkerSet(done[t]) + (if IsCompleted(back[t]) then {} else Over(Reopen(done, id), again, t))
  {
    ReopenedRow(done, id, t);
    TurnsMarkTasks(Reopen(done, id), again, false, at, t);
  }

  /** The markers of any task after the round trip, wherever rows stand: the finishing write and the
      propagations take some away, the reopening adds some. */
  lemma MarkersAfterRoundTrip(rows: Rows, ids: seq<string>, stamp: Option<int>, at: int, orders: seq<seq<string>>,
                              at': int, again: seq<string>, t: string)
    requires IsRoundTrip(rows, ids, stamp, at, orders, at', again)
    requires t in rows && rows[t].edge.None?
    ensures var back := Back(rows, ids, stamp, at, orders, at', again);
            && t in back && IsCompleted(back[t]) == StaysDone(rows, ids, t)
            && MarkerSet(back[t])
               == MarkerSet(FinishAll(rows, ids, stamp)[t]) - Released(rows, ids, stamp, t) + Added(rows, ids, stamp, t)
  {
    var done := Done(rows, ids, stamp, at, orders);
    MarkersOnceDone(rows, ids, stamp, at, orders, t);
    ReopeningTurns(rows, ids, stamp, at, orders, at', again, t);
    MarkersOnceReopened(done, ids[0], again, at', t);
    OverIsRestored(rows, ids, stamp, at, orders, at', again, t);
  }

  /** The markers that a task loses on the way: all of them when its finishing write drops them, else
      the released ones. */
  function Lost(rows: Rows, ids: seq<string>, stamp: Option<int>, t: string): set<string>
    requires t in rows && ids != [] && ids[0] in rows
  {
    if t in ids && Markers(rows[ids[0]]) != [] then MarkerSet(rows[t])
    else MarkerSet(rows[t]) * Released(rows, ids, stamp, t)
  }

  lemma RestoredIsListed(rows: Rows, ids: seq<string>, stamp: Option<int>, at: int, orders: seq<seq<string>>,
                         at': int, again: seq<string>, t: string, e: string)
    requires IsRoundTrip(rows, ids, stamp, at, orders, at', again)
    requires t in rows && rows[t].edge.None? && !IsCompleted(rows[t]) && t !in ids && e in Restored(rows, ids, stamp, t)
    ensures var back := Back(rows, ids, stamp, at, orders, at', again); t in back && e in MarkerSet(back[t])
  {
    MarkersAfterRoundTrip(rows, ids, stamp, at, orders, at', again, t);
  }

  /** What can be checked before the prerequisite is completed: the reopening adds no marker that the
      task does not have, and every marker that it loses. */
  predicate MarkersWillReturn(rows: Rows, ids: seq<string>, stamp: Option<int>, t: string)
    requires t in rows && ids != [] && ids[0] in rows
  {
    Lost(rows, ids, stamp, t) <= Added(rows, ids, stamp, t) <= MarkerSet(rows[t])
  }

  lemma FinishingDrops(rows: Rows, ids: seq<string>, stamp: Option<int>, t: string)
    requires t in rows && ids != [] && ids[0] in rows
    ensures MarkerSet(FinishAll(rows, ids, stamp)[t])
         == if t in ids && Markers(rows[ids[0]]) != [] then {} else MarkerSet(rows[t])
  {
    var r := FinishAll(rows, ids, stamp)[t];
    assert t in ids && Markers(rows[ids[0]]) != [] ==> Markers(r) == [];
  }

  /** Completing and reopening a prerequisite brings back the marker set of a task if and only if it
      will return; no day, no edge and no step is assumed to stay where it is. */
  lemma MarkersComeBackExactlyWhenTheyReturn(rows: Rows, ids: seq<string>, stamp: Option<int>, at: int,
                                             orders: seq<seq<string>>, at': int, again: seq<string>, t: string)
    requires IsRoundTrip(rows, ids, stamp, at, orders, at', again)
    requires t in rows && rows[t].edge.None?
    ensures var back := Back(rows, ids, stamp, at, orders, at', again);
            t in back && (MarkerSet(back[t]) == MarkerSet(rows[t]) <==> MarkersWillReturn(rows, ids, stamp, t))
  {
    MarkersAfterRoundTrip(rows, ids, stamp, at, orders, at', again, t);
    FinishingDrops(rows, ids, stamp, t);
    TakenAndGiven(MarkerSet(rows[t]), MarkerSet(FinishAll(rows, ids, stamp)[t]), Released(rows, ids, stamp, t),
                  Added(rows, ids, stamp, t));
  }

  lemma TakenAndGiven(markers: set<string>, kept: set<string>, released: set<string>, added: set<string>)
    requires kept == markers || kept == {}
    ensures kept - released + added == markers
            <==> (if kept == markers then markers * released else markers) <= added <= markers
  {
  }

  // ----- When the steps keep their days -----

  /** Only the prerequisite itself may be stamped with a day, which reopening takes back. */
  predicate StepsKeepTheirDays(rows: Rows, ids: seq<string>, stamp: Option<int>)
    requires forall k :: 0 <= k < |ids| ==> ids[k] in rows
  {
    && (forall k :: 0 < k < |ids| ==> rows[ids[k]].date.Some? || stamp.None?)
    && (ids != [] && rows[ids[0]].date.Some? ==> rows[ids[0]].stamped != rows[ids[0]].date)
  }

  /** The task lists exactly the edges of the prerequisite that it is under. */
  predicate ListsItsEdges(rows: Rows, ids: seq<string>, t: string)
    requires t in rows && ids != []
  {
    forall e :: e in rows && TurnsBack(rows, ids, e) ==> (e in MarkerSet(rows[t]) <==> t in Dependents(rows, rows[e]))
  }

  /** The released edges of the other finished rows, which nothing turns back. */
  function OfOthers(rows: Rows, ids: seq<string>, stamp: Option<int>, t: string): set<string>
    requires ids != []
  {
    set e | e in Released(rows, ids, stamp, t) && !IsWaitingFor(rows[e], ids[0])
  }

  lemma FiledAsBefore(rows: Rows, ids: seq<string>, stamp: Option<int>)
    requires MayComplete(rows, ids) && StepsKeepTheirDays(rows, ids, stamp)
    ensures SameShapes(rows, BothWrites(rows, ids, stamp))
  {
    var shape := BothWrites(rows, ids, stamp);
    forall t | t in rows ensures SameShape(rows[t], shape[t]) {
      if t in ids {
        var k :| 0 <= k < |ids| && ids[k] == t;
      }
    }
  }

  /** Then an unfinished task that lists its edges gets its markers back; only edges of other finished
      rows stay away. */
  lemma MarkersComeBack(rows: Rows, ids: seq<string>, stamp: Option<int>, at: int, orders: seq<seq<string>>,
                        at': int, again: seq<string>, t: string)
    requires IsRoundTrip(rows, ids, stamp, at, orders, at', again) && StepsKeepTheirDays(rows, ids, stamp)
    requires t in rows && rows[t].edge.None? && !IsCompleted(rows[t]) && t !in ids && ListsItsEdges(rows, ids, t)
    ensures var back := Back(rows, ids, stamp, at, orders, at', again);
            t in back && MarkerSet(back[t]) == MarkerSet(rows[t]) - OfOthers(rows, ids, stamp, t)
  {
    MarkersAfterRoundTrip(rows, ids, stamp, at, orders, at', again, t);
    FinishingDrops(rows, ids, stamp, t);
    var shape := BothWrites(rows, ids, stamp);
    FiledAsBefore(rows, ids, stamp);
    forall e | e in rows
      ensures e in Restored(rows, ids, stamp, t) <==> TurnsBack(rows, ids, e) && e in MarkerSet(rows[t])
    {
      SameDependents(rows, shape, e);
    }
  }

  /** A task finished along with the prerequisite keeps exactly the markers that it does not lose. */
  lemma FinishedTasksLoseMarkers(rows: Rows, ids: seq<string>, stamp: Option<int>, at: int, orders: seq<seq<string>>,
                                 at': int, again: seq<string>, t: string)
    requires IsRoundTrip(rows, ids, stamp, at, orders, at', again)
    requires t in rows && rows[t].edge.None? && t in ids && t != ids[0]
    ensures var back := Back(rows, ids, stamp, at, orders, at', again);
            t in back && MarkerSet(back[t]) == MarkerSet(rows[t]) - Lost(rows, ids, stamp, t)
  {
    MarkersAfterRoundTrip(rows, ids, stamp, at, orders, at', again, t);
    FinishingDrops(rows, ids, stamp, t);
  }

  // ===== Stamped days =====

  /** Row ids, the local id they share, and a day. */
  datatype Names = Names(p: string, q: string, t: string, d: string, e: string, f: string, alias: string, day: int)

  ghost predicate AreDistinct(n: Names) {
    && n.p !in {n.q, n.t, n.d, n.e, n.f} && n.q !in {n.t, n.d, n.e, n.f} && n.t !in {n.d, n.e, n.f}
    && n.d !in {n.e, n.f} && n.e != n.f && n.alias !in {n.p, n.q, n.t, n.d, n.e, n.f}
  }

  function TrapRow(n: Names, k: string): Row {
    var marker := if k == n.t then Some(n.f) else if k == n.d then Some(n.e) else None;
    Row(false, false, if k == n.d then Some(n.day) else None, if k == n.p || k == n.d then Some(n.alias) else None,
        if k == n.t then Some(n.q) else None, if k == n.q then Some(n.alias) else None, None,
        if k == n.e then Some(Edge(Some(n.p), Some(n.d))) else if k == n.f then Some(Edge(Some(n.p), Some(n.t))) else None,
        Some("open"), false, None, marker, None, false, [], None)
  }

  /** A prerequisite `p` with one step `q`, both undated.  The reference of the step also fits the
      dependent `d` of one day; the task `t` is filed under the step and waits by an edge of its own. */
  function Trap(n: Names): Rows {
    map k | k in {n.p, n.q, n.t, n.d, n.e, n.f} :: TrapRow(n, k)
  }

  lemma TrapMarkers(n: Names, k: string)
    requires AreDistinct(n)
    ensures MarkerSet(TrapRow(n, k)) == (if k == n.t then {n.f} else if k == n.d then {n.e} else {})
    ensures k == n.p ==> Markers(TrapRow(n, k)) == []
  {
    var markers := Markers(TrapRow(n, k));
    if k == n.t {
      assert markers == [n.f];
    } else if k == n.d {
      assert markers == [n.e];
    }
  }

  lemma ChildlessTree(rows: Rows, root: string)
    requires forall c :: !IsChild(rows, root, c)
    ensures Tree(rows, root) <= {root}
  {
  }

  lemma GrandchildIsInTree(rows: Rows, root: string, c: string, t: string)
    requires root in rows && !rows[root].deleted && !rows[root].dayRoot
    requires IsChild(rows, root, c) && IsChild(rows, c, t) && root != c && c != t && root != t
    ensures t in Tree(rows, root)
  {
    var left := rows.Keys - {root};
    assert IsMet(rows, left - {c} - {t}, t, t);
    assert IsMet(rows, left - {c}, c, t);
  }

  lemma TrapIsListed(n: Names)
    requires AreDistinct(n)
    ensures EdgesAreListed(Trap(n), n.p)
  {
    var rows := Trap(n);
    ChildlessTree(rows, n.d);
    ChildlessTree(rows, n.t);
    TrapMarkers(n, n.d);
    TrapMarkers(n, n.t);
    assert Dependents(rows, rows[n.e]) <= {n.d};
    assert Dependents(rows, rows[n.f]) <= {n.t};
  }

  lemma TrapMayComplete(n: Names)
    requires AreDistinct(n)
    ensures MayComplete(Trap(n), [n.p, n.q])
  {
    TrapMarkers(n, n.p);
  }

  /** The rows that matter after the completion: the step stands on the day of the dependent. */
  lemma StepIsStamped(n: Names, ids: seq<string>, start: Rows)
    requires AreDistinct(n) && ids == [n.p, n.q] && start == FinishAll(Trap(n), ids, Some(n.day))
    ensures n.d in start && n.q in start && n.t in start && n.e in start
    ensures start[n.d] == TrapRow(n, n.d) && start[n.t] == TrapRow(n, n.t) && start[n.e] == TrapRow(n, n.e)
    ensures start[n.q].date == Some(n.day) && start[n.q].subtaskOf == Some(n.alias) && start[n.q].wrapId.None?
    ensures !start[n.q].deleted && !start[n.q].dayRoot
  {
  }

  /** Rows of these shapes nest: dependent, step, task. */
  lemma StepNests(n: Names, rows: Rows)
    requires AreDistinct(n) && n.d in rows && n.q in rows && n.t in rows && n.e in rows
    requires SameShape(TrapRow(n, n.d), rows[n.d]) && SameShape(TrapRow(n, n.t), rows[n.t])
    requires rows[n.q].date == Some(n.day) && rows[n.q].subtaskOf == Some(n.alias) && rows[n.q].wrapId.None?
    requires !rows[n.q].deleted && !rows[n.q].dayRoot && rows[n.e].edge == Some(Edge(Some(n.p), Some(n.d)))
    ensures n.t in Dependents(rows, rows[n.e])
  {
    GrandchildIsInTree(rows, n.d, n.q, n.t);
  }

  lemma StepHasMoved(n: Names, ids: seq<string>)
    requires AreDistinct(n) && ids == [n.p, n.q]
    ensures n.e in Restored(Trap(n), ids, Some(n.day), n.t)
  {
    var start, shape := FinishAll(Trap(n), ids, Some(n.day)), BothWrites(Trap(n), ids, Some(n.day));
    StepIsStamped(n, ids, start);
    assert shape[n.d] == start[n.d] && shape[n.q] == start[n.q] && shape[n.t] == start[n.t] && shape[n.e] == start[n.e];
    StepNests(n, shape);
    assert Trap(n)[n.e] == TrapRow(n, n.e);
  }

  lemma TrapTaskIsDependent(n: Names)
    requires AreDistinct(n)
    ensures n.t in Dependents(Trap(n), Trap(n)[n.f]) && n.e !in MarkerSet(Trap(n)[n.t])
  {
    TrapMarkers(n, n.t);
    assert IsMet(Trap(n), Trap(n).Keys - {n.t}, n.t, n.t);
  }

  lemma TrapGainsMarker(n: Names, rows: Rows, ids: seq<string>, at: int, orders: seq<seq<string>>, at': int, again: seq<string>)
    requires AreDistinct(n) && rows == Trap(n) && ids == [n.p, n.q]
    requires IsRoundTrip(rows, ids, Some(n.day), at, orders, at', again)
    ensures var back := Back(rows, ids, Some(n.day), at, orders, at', again); n.t in back && n.e in MarkerSet(back[n.t])
  {
    assert rows[n.t] == TrapRow(n, n.t);
    StepHasMoved(n, ids);
    RestoredIsListed(rows, ids, Some(n.day), at, orders, at', again, n.t, n.e);
  }

  /** When completing stamps a day on undated rows, a step can move under another dependent: a task
      below it then comes back with a marker it did not have. */
  lemma StampedDaysCanAddMarkers(n: Names, at: int, at': int)
    returns (rows: Rows, ids: seq<string>, orders: seq<seq<string>>, again: seq<string>)
    requires AreDistinct(n)
    ensures n.t in rows && n.f in rows && EdgesAreListed(rows, n.p) && n.t in Dependents(rows, rows[n.f])
    ensures IsRoundTrip(rows, ids, Some(n.day), at, orders, at', again) && ids == [n.p, n.q]
    ensures var back := Back(rows, ids, Some(n.day), at, orders, at', again);
            n.t in back && n.e in MarkerSet(back[n.t]) && n.e !in MarkerSet(rows[n.t])
  {
    rows, ids := Trap(n), [n.p, n.q];
    TrapMayComplete(n);
    TrapIsListed(n);
    TrapTaskIsDependent(n);
    orders, again := SomeRoundTrip(rows, ids, Some(n.day), at, at');
    TrapGainsMarker(n, rows, ids, at, orders, at', again);
  }

  // ===== The transactions =====

  lemma OneMoreListed(order: seq<string>, listed: set<string>, e: string)
    requires IsOrder(order, listed) && e !in listed
    ensures IsOrder(order + [e], listed + {e})
  {
    assert forall x :: x in order + [e] <==> x in order || x == e;
  }

  /** The query for the edges of a flip, in whatever order the rows come. */
  method ListEdges(rows: Rows, id: string, nowDone: bool) returns (order: seq<string>)
    ensures IsOrder(order, EdgesToTurn(rows, id, nowDone)) && AllIn(rows, order)
  {
    order := [];
    var edges := EdgesToTurn(rows, id, nowDone);
    var todo := edges;
    while todo != {}
      invariant todo <= edges && IsOrder(order, edges - todo)
    {
      var e :| e in todo;
      OneMoreListed(order, edges - todo, e);
      assert edges - todo + {e} == edges - (todo - {e});
      order := order + [e];
      todo := todo - {e};
    }
    assert edges - {} == edges;
    assert forall k :: 0 <= k < |order| ==> order[k] in order;
  }

  class WaitingTasks {
    var rows: Rows

    constructor (rows: Rows)
      ensures this.rows == rows
    {
      this.rows := rows;
    }

    /** Finishes the listed rows and propagates each of them that was not done before; an ambiguous
        reference undoes everything. */
    method Complete(ids: seq<string>, stamp: Option<int>, at: int) returns (ok: bool, ghost orders: seq<seq<string>>)
      requires forall k :: 0 <= k < |ids| ==> ids[k] in rows
      modifies this
      ensures !ok ==> rows == old(rows)
      ensures ok ==> Propagates(old(rows), FinishAll(old(rows), ids, stamp), ids, orders, at)
      ensures ok ==> rows == TurnEach(FinishAll(old(rows), ids, stamp), orders, at)
    {
      var before, work := rows, FinishAll(rows, ids, stamp);
      ghost var start := work;
      orders := [];
      for n := 0 to |ids|
        invariant rows == before && PropagatesSoFar(before, start, ids, orders, at, n)
        invariant work == TurnEach(start, orders, at)
      {
        var order := [];
        if !IsCompleted(before[ids[n]]) {
          order := ListEdges(work, ids[n], true);
        }
        assert AllIn(start, order) by {
          assert work.Keys == start.Keys;
        }
        PropagatesOneMore(before, start, ids, orders, at, order);
        OneMorePropagation(start, orders, order, at);
        var turned, fine := TurnAll(work, order, true, at);
        if !fine {
          return false, orders;
        }
        work, orders := turned, orders + [order];
      }
      rows := work;
      return true, orders;
    }

    /** Reopens one task and propagates it. */
    method ReopenTask(id: string, at: int) returns (ok: bool, ghost order: seq<string>)
      requires id in rows
      modifies this
      ensures !ok ==> rows == old(rows)
      ensures ok ==> if IsCompleted(old(rows)[id])
                     then IsOrder(order, EdgesToTurn(Reopen(old(rows), id), id, false))
                          && rows == TurnEdges(Reopen(old(rows), id), order, false, at)
                     else rows == Reopen(old(rows), id)
    {
      var wasDone := IsCompleted(rows[id]);
      var work := Reopen(rows, id);
      order := [];
      ok := true;
      if wasDone {
        var list := ListEdges(work, id, false);
        order := list;
        work, ok := TurnAll(work, list, false, at);
      }
      if ok {
        rows := work;
      }
    }
  }
}
