/** The transaction that completes a task (db.js) does two things to the same rows: it writes the
    completion fields of the task and its steps, as `Completion` has it, and it propagates every
    row it finished to the waiting edges, as `TaskRoundTrip` has it.  Here the two are one. */
module CompletionTransaction {
  import opened Options
  import C = Completion
  import D = TaskDependencies
  import R = TaskRoundTrip

  // ===== One store, read in two ways =====

  /** A stored row, with the properties that completion reads and those that propagation reads. */
  predicate SameRow(r: C.Row, d: D.Row) {
    && r.deleted == d.deleted && r.date == d.date && r.parentId == d.parentId
    && r.props.localId == d.localId && r.props.wrapId == d.wrapId && r.props.subtaskOf == d.subtaskOf
    && r.props.status == d.status && r.props.stamped == d.stamped
    && d.done == (r.props.done == Some(true) || r.props.completed == Some(true)
                  || r.props.completedAt.Some? || r.props.doneAt.Some?)
    && (d.edge.Some? ==> !C.IsTask(r))
  }

  ghost predicate SameStore(rows: map<string, C.Row>, waiting: D.Rows) {
    rows.Keys == waiting.Keys && forall id :: id in rows ==> SameRow(rows[id], waiting[id])
  }

  /** The rows that a completion writes, the task first. */
  ghost predicate ListsWrites(ids: seq<string>, rows: map<string, C.Row>, q: C.Request) {
    && q.id in rows && ids != [] && ids[0] == q.id
    && (forall id :: id in ids <==> id in C.Writes(rows, q))
    && (forall j, k :: 0 <= j < k < |ids| ==> ids[j] != ids[k])
  }

  lemma SameDone(r: C.Row, d: D.Row)
    requires SameRow(r, d)
    ensures C.IsCompleted(r.props) == D.IsCompleted(d)
  {
  }

  lemma SameWhenFinished(r: C.Row, d: D.Row, q: C.Request, drawn: C.Revision, dropMarkers: bool)
    requires SameRow(r, d)
    ensures SameRow(C.CompletedRow(r, q, drawn), R.Finished(d, q.taskDate, dropMarkers))
  {
  }

  lemma SameWhenReopened(r: C.Row, d: D.Row, q: C.Request, drawn: C.Revision)
    requires SameRow(r, d) && C.IsTask(r)
    ensures SameRow(C.ReopenedRow(r, q, drawn), R.Reopened(d))
  {
  }

  /** Completing writes, in both readings, the same rows in the same way. */
  lemma CompletionFinishes(s: C.State, q: C.Request, waiting: D.Rows, ids: seq<string>)
    requires SameStore(s.rows, waiting) && C.Accepts(s, q) && q.completed && ListsWrites(ids, s.rows, q)
    ensures SameStore(C.AfterCompletion(s, q).rows, R.FinishAll(waiting, ids, q.taskDate))
  {
    var after, finished := C.AfterCompletion(s, q).rows, R.FinishAll(waiting, ids, q.taskDate);
    forall id | id in s.rows ensures SameRow(after[id], finished[id]) {
      SameWhenFinished(s.rows[id], waiting[id], q, C.Revision(s.step, id), D.Markers(waiting[ids[0]]) != []);
    }
  }

  lemma ReopeningReopens(s: C.State, q: C.Request, waiting: D.Rows)
    requires SameStore(s.rows, waiting) && C.Accepts(s, q) && !q.completed
    ensures SameStore(C.AfterCompletion(s, q).rows, R.Reopen(waiting, q.id))
  {
    SameWhenReopened(s.rows[q.id], waiting[q.id], q, C.Revision(s.step, q.id));
  }

  // ===== The round trip of two accepted requests =====

  /** A task is completed by an accepted request and its edges are propagated; the task is reopened by
      an accepted request in a store that holds the rows so far, and its edges are propagated.  These
      are the round trips that `TaskRoundTrip` speaks of, and both stores agree on them. */
  lemma AcceptedRequestsMakeARoundTrip(s: C.State, q: C.Request, waiting: D.Rows, ids: seq<string>, at: int,
                                       orders: seq<seq<string>>, later: C.State, undo: C.Request, at': int,
                                       again: seq<string>)
    requires SameStore(s.rows, waiting) && C.Accepts(s, q) && q.completed && ListsWrites(ids, s.rows, q)
    requires !C.IsCompleted(s.rows[q.id].props) && R.MayFinish(waiting, q.id)
    requires R.Propagates(waiting, R.FinishAll(waiting, ids, q.taskDate), ids, orders, at)
    requires SameStore(later.rows, R.Done(waiting, ids, q.taskDate, at, orders))
    requires C.Accepts(later, undo) && !undo.completed && undo.id == q.id
    requires D.IsOrder(again, D.EdgesToTurn(R.Reopen(R.Done(waiting, ids, q.taskDate, at, orders), q.id), q.id, false))
    ensures R.IsRoundTrip(waiting, ids, q.taskDate, at, orders, at', again)
    ensures SameStore(C.AfterCompletion(s, q).rows, R.FinishAll(waiting, ids, q.taskDate))
    ensures SameStore(C.AfterCompletion(later, undo).rows, R.Reopen(R.Done(waiting, ids, q.taskDate, at, orders), q.id))
  {
    CompletionFinishes(s, q, waiting, ids);
    ReopeningReopens(later, undo, R.Done(waiting, ids, q.taskDate, at, orders));
    SameDone(s.rows[q.id], waiting[q.id]);
    forall k | 0 <= k < |ids| ensures ids[k] in waiting {
      assert ids[k] in C.Writes(s.rows, q);
    }
  }

  /** The rows to finish come from the queue over the steps, and are then propagated. */
  method FinishAndPropagate(tasks: C.TaskRows, waiting: R.WaitingTasks, q: C.Request, order: seq<string>, at: int)
    returns (ok: bool, written: seq<string>, ghost orders: seq<seq<string>>)
    requires SameStore(tasks.rows, waiting.rows) && C.Accepts(tasks.View(), q) && q.completed
    requires forall id :: id in order <==> id in C.Pool(tasks.rows, tasks.rows[q.id].date)
    requires forall j, k :: 0 <= j < k < |order| ==> order[j] != order[k]
    modifies waiting
    ensures ListsWrites(written, tasks.rows, q)
    ensures SameStore(C.AfterCompletion(tasks.View(), q).rows, R.FinishAll(old(waiting.rows), written, q.taskDate))
    ensures !ok ==> waiting.rows == old(waiting.rows)
    ensures ok ==> R.Propagates(old(waiting.rows), R.FinishAll(old(waiting.rows), written, q.taskDate), written, orders, at)
    ensures ok ==> waiting.rows == R.Done(old(waiting.rows), written, q.taskDate, at, orders)
  {
    written := tasks.SelectRows(q, order);
    assert forall k :: 0 <= k < |written| ==> written[k] in waiting.rows;
    CompletionFinishes(tasks.View(), q, waiting.rows, written);
    ok, orders := waiting.Complete(written, q.taskDate, at);
  }
}
