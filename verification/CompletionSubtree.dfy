/** The rows that completing a task takes along (db.js): a queue over the alias links of the rows of
    one day.  A row names its parent by row id or local id; the links may run in circles. */
module CompletionSubtree {
  import opened Options

  /** What the walk reads of a row: its local id, its references and its parent id. */
  datatype Link = Link(localId: Option<string>, wrapId: Option<string>, subtaskOf: Option<string>, parentId: Option<string>)

  predicate Truthy(s: Option<string>) {
    s.Some? && s.value != ""
  }

  /** The parent a row is filed under; work that merely rides along is independent. */
  function RefOf(r: Link): Option<string> {
    if Truthy(r.wrapId) then None
    else if Truthy(r.subtaskOf) then r.subtaskOf
    else if Truthy(r.parentId) then r.parentId
    else None
  }

  predicate IsAlias(id: string, r: Link, ref: string) {
    ref != "" && (ref == id || Some(ref) == r.localId)
  }

  /** Row `c` hangs under row `x`. */
  predicate Hangs(rows: map<string, Link>, x: string, c: string)
    requires x in rows && c in rows
  {
    RefOf(rows[c]).Some? && IsAlias(x, rows[x], RefOf(rows[c]).value)
  }

  /** The link rule: from one row to a walkable row that hangs under it. */
  predicate Step(rows: map<string, Link>, pool: set<string>, x: string, c: string) {
    x in rows && c in rows && c in pool && Hangs(rows, x, c)
  }

  ghost predicate IsChain(rows: map<string, Link>, pool: set<string>, chain: seq<string>) {
    && chain != []
    && (forall k :: 0 <= k < |chain| - 1 ==> Step(rows, pool, chain[k], chain[k + 1]))
  }

  /** The closure of a row under the link rule. */
  ghost predicate Reached(rows: map<string, Link>, pool: set<string>, start: string, id: string) {
    exists chain :: IsChain(rows, pool, chain) && chain[0] == start && chain[|chain| - 1] == id
  }

  lemma StartIsReached(rows: map<string, Link>, pool: set<string>, start: string)
    ensures Reached(rows, pool, start, start)
  {
    assert IsChain(rows, pool, [start]);
  }

  lemma NextIsReached(rows: map<string, Link>, pool: set<string>, start: string, x: string, c: string)
    requires Reached(rows, pool, start, x) && Step(rows, pool, x, c)
    ensures Reached(rows, pool, start, c)
  {
    var chain :| IsChain(rows, pool, chain) && chain[0] == start && chain[|chain| - 1] == x;
    var longer := chain + [c];
    forall k | 0 <= k < |longer| - 1 ensures Step(rows, pool, longer[k], longer[k + 1]) {
      if k < |chain| - 1 {
        assert Step(rows, pool, chain[k], chain[k + 1]);
      }
    }
    assert IsChain(rows, pool, longer);
  }

  /** A set with the start that the link rule does not leave holds the whole closure. */
  lemma {:induction false} ClosedHoldsChain(rows: map<string, Link>, pool: set<string>, ids: set<string>, chain: seq<string>)
    requires IsChain(rows, pool, chain) && chain[0] in ids
    requires forall x, c :: x in ids && Step(rows, pool, x, c) ==> c in ids
    ensures chain[|chain| - 1] in ids
    decreases |chain|
  {
    if |chain| > 1 {
      var front := chain[..|chain| - 1];
      assert forall k :: 0 <= k < |front| - 1 ==> Step(rows, pool, front[k], front[k + 1]) by {
        forall k | 0 <= k < |front| - 1 ensures Step(rows, pool, front[k], front[k + 1]) {
          assert Step(rows, pool, chain[k], chain[k + 1]);
        }
      }
      ClosedHoldsChain(rows, pool, ids, front);
      assert Step(rows, pool, chain[|chain| - 2], chain[|chain| - 2 + 1]);
    }
  }

  // ===== The index and the queue =====

  /** The index files exactly the walkable rows with a parent, under their reference. */
  ghost predicate IsIndex(rows: map<string, Link>, ids: set<string>, links: map<string, seq<string>>) {
    && (forall ref, k :: ref in links && 0 <= k < |links[ref]| ==>
          links[ref][k] in ids && links[ref][k] in rows && RefOf(rows[links[ref][k]]) == Some(ref))
    && (forall id :: id in ids && id in rows && RefOf(rows[id]).Some? ==>
          RefOf(rows[id]).value in links && id in links[RefOf(rows[id]).value])
  }

  function IdSet(order: seq<string>): set<string> {
    set id | id in order
  }

  method IndexLinks(rows: map<string, Link>, order: seq<string>) returns (links: map<string, seq<string>>)
    requires forall k :: 0 <= k < |order| ==> order[k] in rows
    ensures IsIndex(rows, IdSet(order), links)
  {
    links := map[];
    for n := 0 to |order|
      invariant IsIndex(rows, IdSet(order[..n]), links)
    {
      ghost var before := links;
      var id := order[n];
      var ref := RefOf(rows[id]);
      assert IdSet(order[..n + 1]) == IdSet(order[..n]) + {id};
      if ref.Some? {
        if ref.value !in links {
          links := links[ref.value := []];
        }
        links := links[ref.value := links[ref.value] + [id]];
      }
    }
    assert order[..|order|] == order;
  }

  function Aliases(id: string, r: Link): (refs: seq<string>)
    ensures forall ref :: ref in refs <==> IsAlias(id, r, ref)
  {
    (if id != "" then [id] else []) + (if Truthy(r.localId) then [r.localId.value] else [])
  }

  /** The state of the queue: what is in it was reached, and nothing is in it twice. */
  ghost predicate Queued(rows: map<string, Link>, pool: set<string>, start: string, rowIds: set<string>, queue: seq<string>) {
    && (forall id :: id in rowIds <==> id in queue)
    && (forall k :: 0 <= k < |queue| ==> queue[k] in rows && Reached(rows, pool, start, queue[k]))
    && (forall j, k :: 0 <= j < k < |queue| ==> queue[j] != queue[k])
  }

  /** Files the rows of one list that were not met before. */
  method Enqueue(rows: map<string, Link>, ghost pool: set<string>, ghost start: string, ghost x: string, children: seq<string>,
                 rowIds: set<string>, queue: seq<string>)
    returns (newIds: set<string>, newQueue: seq<string>)
    requires Queued(rows, pool, start, rowIds, queue) && x in rowIds
    requires forall k :: 0 <= k < |children| ==> Step(rows, pool, x, children[k])
    ensures Queued(rows, pool, start, newIds, newQueue) && queue <= newQueue && rowIds <= newIds
    ensures forall k :: 0 <= k < |children| ==> children[k] in newIds
  {
    newIds, newQueue := rowIds, queue;
    for k := 0 to |children|
      invariant Queued(rows, pool, start, newIds, newQueue) && queue <= newQueue && rowIds <= newIds
      invariant x in newIds
      invariant forall j :: 0 <= j < k ==> children[j] in newIds
    {
      if children[k] !in newIds {
        NextIsReached(rows, pool, start, x, children[k]);
        newIds := newIds + {children[k]};
        newQueue := newQueue + [children[k]];
      }
    }
  }

  /** One turn of the queue: everything that hangs under `x` is filed. */
  method VisitRow(rows: map<string, Link>, ghost pool: set<string>, ghost start: string, links: map<string, seq<string>>, x: string,
                  rowIds: set<string>, queue: seq<string>)
    returns (newIds: set<string>, newQueue: seq<string>)
    requires IsIndex(rows, pool, links) && Queued(rows, pool, start, rowIds, queue) && x in rowIds
    ensures Queued(rows, pool, start, newIds, newQueue) && queue <= newQueue && rowIds <= newIds
    ensures forall c :: Step(rows, pool, x, c) ==> c in newIds
  {
    newIds, newQueue := rowIds, queue;
    var refs := Aliases(x, rows[x]);
    for k := 0 to |refs|
      invariant Queued(rows, pool, start, newIds, newQueue) && queue <= newQueue && rowIds <= newIds
      invariant x in newIds
      invariant forall j, c :: 0 <= j < k && refs[j] in links && c in links[refs[j]] ==> c in newIds
    {
      if refs[k] in links {
        var children := links[refs[k]];
        newIds, newQueue := Enqueue(rows, pool, start, x, children, newIds, newQueue);
      }
    }
  }

  /** Collects the start row and everything that hangs under it, whatever circles the links form. */
  method CollectCompletionSubtreeIds(rows: map<string, Link>, order: seq<string>, start: string)
    returns (rowIds: set<string>)
    requires start in rows
    requires forall k :: 0 <= k < |order| ==> order[k] in rows
    ensures forall id :: id in rowIds <==> Reached(rows, IdSet(order), start, id)
  {
    var links := IndexLinks(rows, order);
    ghost var pool := IdSet(order);
    rowIds := {start};
    var queue := [start];
    StartIsReached(rows, pool, start);
    var i := 0;
    while i < |queue|
      invariant 0 <= i <= |queue| && start in rowIds
      invariant Queued(rows, pool, start, rowIds, queue)
      invariant forall j, c :: 0 <= j < i && Step(rows, pool, queue[j], c) ==> c in rowIds
      decreases rows.Keys - IdSet(queue[..i])
    {
      ghost var before, x := queue, queue[i];
      rowIds, queue := VisitRow(rows, pool, start, links, queue[i], rowIds, queue);
      assert queue[..i] == before[..i] && queue[i] == x;
      assert x in IdSet(queue[..i + 1]) && x !in IdSet(queue[..i]) && IdSet(queue[..i]) <= IdSet(queue[..i + 1]);
      i := i + 1;
    }
    forall id ensures id in rowIds <==> Reached(rows, pool, start, id) {
      if Reached(rows, pool, start, id) {
        var chain :| IsChain(rows, pool, chain) && chain[0] == start && chain[|chain| - 1] == id;
        ClosedHoldsChain(rows, pool, rowIds, chain);
      }
    }
  }
}
