/** Waiting edges between tasks (db.js).  A delegated item that waits for a task is an edge: when the
    task is completed its open edges become ready and leave the markers of the waiting tasks; when it
    is reopened they are opened again and come back. */
module TaskDependencies {
  import opened Options

  datatype Edge = Edge(blocker: Option<string>, linked: Option<string>)

  /** A row: `edge` is set for a delegated item that waits for a task, `done` stands for the done
      properties other than the status, `ids` and `one` are the two spellings of the markers,
      `stamped` is a day that completing gave to an undated row. */
  datatype Row = Row(dayRoot: bool, deleted: bool, date: Option<int>, localId: Option<string>,
                     wrapId: Option<string>, subtaskOf: Option<string>, parentId: Option<string>,
                     edge: Option<Edge>, status: Option<string>, done: bool,
                     ids: Option<seq<string>>, one: Option<string>, readyAt: Option<int>,
                     inconsistent: bool, inconsistentIds: seq<string>, stamped: Option<int>)

  type Rows = map<string, Row>

  predicate IsCompleted(r: Row) {
    r.status == Some("done") || r.done
  }

  // ===== The rows under a row =====

  /** Row `c` is a child of row `t`: by its reference, or by its parent id when it has none. */
  predicate IsChild(rows: Rows, t: string, c: string) {
    && t in rows && c in rows && !rows[c].deleted && !rows[c].dayRoot
    && var ref := if rows[c].wrapId.Some? then rows[c].wrapId else rows[c].subtaskOf;
       if ref.Some? then ref == Some(t) || (ref == rows[t].localId && rows[c].date == rows[t].date)
       else rows[c].parentId == Some(t)
  }

  /** The recursive query: `id` is met from `t` along rows of `left`, each at most once. */
  predicate IsMet(rows: Rows, left: set<string>, t: string, id: string)
    decreases left
  {
    t == id || exists c :: c in left && IsChild(rows, t, c) && IsMet(rows, left - {c}, c, id)
  }

  /** The subtree of a dependent, or the dependent alone when it is no task. */
  function Tree(rows: Rows, root: string): set<string> {
    if root in rows && !rows[root].deleted && !rows[root].dayRoot
    then set id | id in rows && IsMet(rows, rows.Keys - {root}, root, id)
    else set id | id in rows && id == root
  }

  // ----- What the recursive query finds -----

  /** Each row of the list is a child of the one before. */
  ghost predicate IsDescent(rows: Rows, chain: seq<string>) {
    chain != [] && forall k :: 0 <= k < |chain| - 1 ==> IsChild(rows, chain[k], chain[k + 1])
  }

  /** Some descent of any length leads from a row to another, or to itself. */
  ghost predicate IsUnder(rows: Rows, root: string, id: string) {
    exists chain :: IsDescent(rows, chain) && chain[0] == root && chain[|chain| - 1] == id
  }

  lemma {:induction false} MetIsUnder(rows: Rows, left: set<string>, t: string, id: string)
    requires IsMet(rows, left, t, id)
    ensures IsUnder(rows, t, id)
    decreases left
  {
    if t == id {
      assert IsDescent(rows, [t]);
    } else {
      var c :| c in left && IsChild(rows, t, c) && IsMet(rows, left - {c}, c, id);
      MetIsUnder(rows, left - {c}, c, id);
      var chain :| IsDescent(rows, chain) && chain[0] == c && chain[|chain| - 1] == id;
      assert IsDescent(rows, [t] + chain);
    }
  }

  /** The query follows a descent that meets no row twice. */
  lemma {:induction false} DescentIsMet(rows: Rows, left: set<string>, chain: seq<string>)
    requires IsDescent(rows, chain)
    requires forall k :: 0 < k < |chain| ==> chain[k] in left
    requires forall j, k :: 0 <= j < k < |chain| ==> chain[j] != chain[k]
    ensures IsMet(rows, left, chain[0], chain[|chain| - 1])
    decreases |chain|
  {
    if |chain| > 1 {
      var c := chain[1];
      assert IsChild(rows, chain[0], chain[0 + 1]);
      forall k | 0 <= k < |chain[1..]| - 1 ensures IsChild(rows, chain[1..][k], chain[1..][k + 1]) {
        assert IsChild(rows, chain[k + 1], chain[k + 1 + 1]);
      }
      DescentIsMet(rows, left - {c}, chain[1..]);
    }
  }

  lemma CutDescent(rows: Rows, chain: seq<string>, i: nat, j: nat)
    requires IsDescent(rows, chain) && i < j < |chain| && chain[i] == chain[j]
    ensures IsDescent(rows, chain[..i] + chain[j..])
    ensures (chain[..i] + chain[j..])[0] == chain[0]
  {
    var shorter := chain[..i] + chain[j..];
    forall k | 0 <= k < |shorter| - 1 ensures IsChild(rows, shorter[k], shorter[k + 1]) {
      if k < i {
        assert IsChild(rows, chain[k], chain[k + 1]);
      } else {
        assert IsChild(rows, chain[k + j - i], chain[k + j - i + 1]);
      }
    }
  }

  /** Cycles can be cut out of a descent. */
  lemma {:induction false} SimpleDescent(rows: Rows, chain: seq<string>) returns (simple: seq<string>)
    requires IsDescent(rows, chain)
    ensures IsDescent(rows, simple) && simple[0] == chain[0] && simple[|simple| - 1] == chain[|chain| - 1]
    ensures forall j, k :: 0 <= j < k < |simple| ==> simple[j] != simple[k]
    decreases |chain|
  {
    if i, j :| 0 <= i < j < |chain| && chain[i] == chain[j] {
      CutDescent(rows, chain, i, j);
      simple := SimpleDescent(rows, chain[..i] + chain[j..]);
    } else {
      simple := chain;
    }
  }

  /** However deep, and also on cyclic links, the tree of a live task is everything under it. */
  lemma TreeIsEverythingUnder(rows: Rows, root: string, id: string)
    requires root in rows && !rows[root].deleted && !rows[root].dayRoot
    ensures id in Tree(rows, root) <==> id in rows && IsUnder(rows, root, id)
  {
    if id in Tree(rows, root) {
      MetIsUnder(rows, rows.Keys - {root}, root, id);
    }
    if id in rows && IsUnder(rows, root, id) {
      var chain :| IsDescent(rows, chain) && chain[0] == root && chain[|chain| - 1] == id;
      var simple := SimpleDescent(rows, chain);
      forall k | 0 < k < |simple| ensures simple[k] in rows.Keys - {root} {
        assert IsChild(rows, simple[k - 1], simple[k - 1 + 1]);
      }
      DescentIsMet(rows, rows.Keys - {root}, simple);
    }
  }

  function Matches(rows: Rows, ref: string): set<string> {
    set id | id in rows && !rows[id].deleted && rows[id].localId == Some(ref)
  }

  datatype Found = Nothing | One(id: string) | Ambiguous

  /** A live row by id, or else the only one with this local id. */
  function FindUnique(rows: Rows, ref: Option<string>): (found: Found)
    ensures found.One? ==>
              && ref.Some? && found.id in rows && !rows[found.id].deleted
              && (found.id == ref.value
                  || ((ref.value in rows ==> rows[ref.value].deleted) && Matches(rows, ref.value) == {found.id}))
    ensures found.Nothing? && ref.Some? ==> (ref.value in rows ==> rows[ref.value].deleted) && Matches(rows, ref.value) == {}
    ensures found.Ambiguous? ==> ref.Some? && exists a, b :: a != b && {a, b} <= Matches(rows, ref.value)
  {
    if ref.None? then Nothing
    else if ref.value in rows && !rows[ref.value].deleted then One(ref.value)
    else
      var m := Matches(rows, ref.value);
      if m == {} then Nothing
      else if |m| > 1 then
        TwoElements(m);
        Ambiguous
      else
        OnlyElement(m);
        var id :| id in m;
        One(id)
  }

  lemma TwoElements(m: set<string>)
    requires |m| > 1
    ensures exists a, b :: a != b && {a, b} <= m
  {
    var a :| a in m;
    var rest := m - {a};
    assert m == rest + {a};
    assert |rest| > 0;
    var b :| b in rest;
    assert a != b && {a, b} <= m;
  }

  lemma OnlyElement(m: set<string>)
    requires |m| <= 1
    ensures forall a, b :: a in m && b in m ==> a == b
  {
    forall a, b | a in m && b in m ensures a == b {
      var rest := m - {a};
      assert m == rest + {a};
      assert rest == {};
    }
  }

  /** Where a row stands, apart from its state. */
  predicate SameShape(a: Row, b: Row) {
    && a.dayRoot == b.dayRoot && a.deleted == b.deleted && a.date == b.date && a.localId == b.localId
    && a.wrapId == b.wrapId && a.subtaskOf == b.subtaskOf && a.parentId == b.parentId && a.edge == b.edge
  }

  ghost predicate SameShapes(rows: Rows, after: Rows) {
    rows.Keys == after.Keys && forall id :: id in rows ==> SameShape(rows[id], after[id])
  }

  lemma {:induction false} SameShapesMeet(rows: Rows, after: Rows, left: set<string>, t: string, id: string)
    requires SameShapes(rows, after)
    ensures IsMet(rows, left, t, id) <==> IsMet(after, left, t, id)
    decreases left
  {
    forall c | c in left
      ensures IsChild(rows, t, c) && IsMet(rows, left - {c}, c, id) <==> IsChild(after, t, c) && IsMet(after, left - {c}, c, id)
    {
      SameShapesMeet(rows, after, left - {c}, c, id);
    }
  }

  lemma SameShapesSameTree(rows: Rows, after: Rows, root: string)
    requires SameShapes(rows, after)
    ensures Tree(rows, root) == Tree(after, root)
  {
    forall id | id in rows ensures id in Tree(rows, root) <==> id in Tree(after, root) {
      SameShapesMeet(rows, after, rows.Keys - {root}, root, id);
    }
  }

  lemma SameShapesSameDependent(rows: Rows, after: Rows, ref: Option<string>)
    requires SameShapes(rows, after)
    ensures FindUnique(rows, ref) == FindUnique(after, ref)
  {
    if ref.Some? {
      assert Matches(rows, ref.value) == Matches(after, ref.value);
    }
  }

  // ===== Markers =====

  function Markers(r: Row): seq<string> {
    if r.ids.Some? then r.ids.value else if r.one.Some? then [r.one.value] else []
  }

  function MarkerSet(r: Row): set<string> {
    set m | m in Markers(r)
  }

  function Without(markers: seq<string>, e: string): (rest: seq<string>)
    ensures forall m :: m in rest <==> m in markers && m != e
  {
    if markers == [] then []
    else
      var front, last := Without(markers[..|markers| - 1], e), markers[|markers| - 1];
      assert forall m :: m in markers <==> m in markers[..|markers| - 1] || m == last;
      if last == e then front else front + [last]
  }

  /** First occurrences only. */
  function Unique(markers: seq<string>): (once: seq<string>)
    ensures forall m :: m in once <==> m in markers
  {
    if markers == [] then []
    else
      var front, last := Unique(markers[..|markers| - 1]), markers[|markers| - 1];
      assert forall m :: m in markers <==> m in markers[..|markers| - 1] || m == last;
      if last in front then front else front + [last]
  }

  function WithMarkers(r: Row, markers: seq<string>): Row {
    if markers == [] then r.(ids := None, one := None) else r.(ids := Some(markers), one := Some(markers[0]))
  }

  /** What an edge does to one row under its dependent. */
  function Marked(r: Row, e: string, nowDone: bool): Row {
    if nowDone then WithMarkers(r, Without(Markers(r), e))
    else if IsCompleted(r) then r.(inconsistent := true, inconsistentIds := Unique(r.inconsistentIds + [e]))
    else WithMarkers(r, Unique(Markers(r) + [e]))
  }

  // ===== Propagation =====

  const READY_STATUSES := {"ready", "unblocked", "done"}

  predicate IsWaitingFor(r: Row, id: string) {
    !r.deleted && r.edge.Some? && r.edge.value.blocker == Some(id)
  }

  function StatusOf(r: Row): string {
    if r.status.Some? then r.status.value else "open"
  }

  /** The edges a flip of task `id` turns. */
  function EdgesToTurn(rows: Rows, id: string, nowDone: bool): set<string> {
    set e | e in rows && IsWaitingFor(rows[e], id)
      && if nowDone then StatusOf(rows[e]) == "open" else StatusOf(rows[e]) in READY_STATUSES
  }

  function Turned(r: Row, nowDone: bool, at: int): Row {
    if nowDone then r.(status := Some("ready"), readyAt := Some(at)) else r.(status := Some("open"), readyAt := None)
  }

  function Dependents(rows: Rows, r: Row): set<string> {
    var found := if r.edge.Some? then FindUnique(rows, r.edge.value.linked) else Nothing;
    if found.One? then Tree(rows, found.id) else {}
  }

  /** The edge of a row means this dependent: a live row by its id, or else the only live row with that
      local id. */
  ghost predicate IsDependent(rows: Rows, r: Row, d: string) {
    && r.edge.Some? && r.edge.value.linked.Some? && d in rows && !rows[d].deleted
    && var ref := r.edge.value.linked.value;
       || d == ref
       || (&& (ref in rows ==> rows[ref].deleted)
           && rows[d].localId == Some(ref)
           && forall x :: x in rows && !rows[x].deleted && rows[x].localId == Some(ref) ==> x == d)
  }

  /** A row waits by the edge: it is the dependent, or stands somewhere under it. */
  ghost predicate WaitsBy(rows: Rows, r: Row, t: string) {
    t in rows && exists d :: IsDependent(rows, r, d) && (t == d || (!rows[d].dayRoot && IsUnder(rows, d, t)))
  }

  lemma DependentIsFound(rows: Rows, r: Row, d: string)
    ensures (r.edge.Some? && FindUnique(rows, r.edge.value.linked) == One(d)) <==> IsDependent(rows, r, d)
  {
    if IsDependent(rows, r, d) {
      var ref := r.edge.value.linked.value;
      if d != ref {
        assert Matches(rows, ref) == {d};
      }
    } else if r.edge.Some? && r.edge.value.linked.Some? && FindUnique(rows, r.edge.value.linked) == One(d) {
      assert d in rows && !rows[d].deleted;
      var ref := r.edge.value.linked.value;
      if d != ref {
        assert d in Matches(rows, ref);
        forall x | x in rows && !rows[x].deleted && rows[x].localId == Some(ref) ensures x == d {
          assert x in Matches(rows, ref);
        }
      }
    }
  }

  /** The rows that an edge marks are exactly those that wait by it. */
  lemma DependentsAreWaiting(rows: Rows, r: Row, t: string)
    ensures t in Dependents(rows, r) <==> WaitsBy(rows, r, t)
  {
    if r.edge.Some? && FindUnique(rows, r.edge.value.linked).One? {
      var d := FindUnique(rows, r.edge.value.linked).id;
      DependentIsFound(rows, r, d);
      WaitsUnder(rows, r, d, t);
    }
    if d :| IsDependent(rows, r, d) {
      DependentIsFound(rows, r, d);
    }
  }

  lemma WaitsUnder(rows: Rows, r: Row, d: string, t: string)
    requires IsDependent(rows, r, d)
    ensures t in Tree(rows, d) <==> WaitsBy(rows, r, t)
  {
    DependentIsFound(rows, r, d);
    forall x | IsDependent(rows, r, x) ensures x == d {
      DependentIsFound(rows, r, x);
    }
    if !rows[d].dayRoot {
      TreeIsEverythingUnder(rows, d, t);
      assert IsDescent(rows, [d]);
      assert [d][0] == d;
      assert IsUnder(rows, d, d);
    }
  }

  function MarkAll(rows: Rows, tree: set<string>, e: string, nowDone: bool): Rows {
    map id | id in rows :: if id in tree then Marked(rows[id], e, nowDone) else rows[id]
  }

  /** One edge, written from the row as it was read before the first turn. */
  function TurnEdge(rows: Rows, e: string, read: Row, nowDone: bool, at: int): Rows {
    var turned := rows[e := Turned(read, nowDone, at)];
    MarkAll(turned, Dependents(turned, read), e, nowDone)
  }

  predicate AllIn(rows: Rows, order: seq<string>) {
    forall k :: 0 <= k < |order| ==> order[k] in rows
  }

  function TurnEdges(rows: Rows, order: seq<string>, nowDone: bool, at: int): Rows
    requires AllIn(rows, order)
  {
    if order == [] then rows
    else
      var e := order[|order| - 1];
      TurnEdge(TurnEdges(rows, order[..|order| - 1], nowDone, at), e, rows[e], nowDone, at)
  }

  /** An order in which the query may return the edges of a flip. */
  ghost predicate IsOrder(order: seq<string>, edges: set<string>) {
    && (forall k :: 0 <= k < |order| ==> order[k] in edges)
    && (forall e :: e in edges ==> e in order)
    && (forall j, k :: 0 <= j < k < |order| ==> order[j] != order[k])
  }

  // ===== What a turn does =====

  /** One turn, row by row. */
  lemma TurnEdgeAt(rows: Rows, e: string, read: Row, nowDone: bool, at: int, t: string)
    requires e in rows && t in rows && SameShape(rows[e], read)
    ensures t in TurnEdge(rows, e, read, nowDone, at)
    ensures var base := if t == e then Turned(read, nowDone, at) else rows[t];
            TurnEdge(rows, e, read, nowDone, at)[t]
            == if t in Dependents(rows, read) then Marked(base, e, nowDone) else base
  {
    var turned := rows[e := Turned(read, nowDone, at)];
    DependentsByShape(rows, turned, read);
  }

  lemma WithMarkersKeepsShape(r: Row, markers: seq<string>)
    ensures SameShape(r, WithMarkers(r, markers)) && WithMarkers(r, markers).status == r.status
    ensures WithMarkers(r, markers).done == r.done
  {
  }

  lemma MarkedKeepsShape(r: Row, e: string, nowDone: bool)
    ensures SameShape(r, Marked(r, e, nowDone)) && Marked(r, e, nowDone).status == r.status
    ensures IsCompleted(Marked(r, e, nowDone)) == IsCompleted(r)
  {
    if nowDone {
      WithMarkersKeepsShape(r, Without(Markers(r), e));
    } else if !IsCompleted(r) {
      WithMarkersKeepsShape(r, Unique(Markers(r) + [e]));
    }
  }

  lemma TurnKeepsShapes(rows: Rows, e: string, read: Row, nowDone: bool, at: int)
    requires e in rows && SameShape(rows[e], read)
    ensures SameShapes(rows, TurnEdge(rows, e, read, nowDone, at))
  {
    forall t | t in rows ensures SameShape(rows[t], TurnEdge(rows, e, read, nowDone, at)[t]) {
      TurnEdgeAt(rows, e, read, nowDone, at, t);
      MarkedKeepsShape(if t == e then Turned(read, nowDone, at) else rows[t], e, nowDone);
    }
  }

  lemma {:induction false} TurnsKeepShapes(rows: Rows, order: seq<string>, nowDone: bool, at: int)
    requires AllIn(rows, order)
    ensures SameShapes(rows, TurnEdges(rows, order, nowDone, at))
  {
    if order != [] {
      var front, e := order[..|order| - 1], order[|order| - 1];
      TurnsKeepShapes(rows, front, nowDone, at);
      TurnKeepsShapes(TurnEdges(rows, front, nowDone, at), e, rows[e], nowDone, at);
    }
  }

  /** The edges of a list whose dependents' subtrees hold a row. */
  ghost function Over(rows: Rows, order: seq<string>, t: string): set<string> {
    set e | e in order && e in rows && t in Dependents(rows, rows[e])
  }

  lemma DependentsByShape(rows: Rows, after: Rows, r: Row)
    requires SameShapes(rows, after)
    ensures Dependents(rows, r) == Dependents(after, r)
  {
    if r.edge.Some? {
      SameShapesSameDependent(rows, after, r.edge.value.linked);
      var found := FindUnique(rows, r.edge.value.linked);
      if found.One? {
        SameShapesSameTree(rows, after, found.id);
      }
    }
  }

  lemma ReleasedSet(r: Row, e: string)
    ensures MarkerSet(Marked(r, e, true)) == MarkerSet(r) - {e}
  {
    var rest := Without(Markers(r), e);
    assert Markers(WithMarkers(r, rest)) == rest;
  }

  lemma AddedSet(r: Row, e: string)
    ensures MarkerSet(Marked(r, e, false)) == if IsCompleted(r) then MarkerSet(r) else MarkerSet(r) + {e}
  {
    if !IsCompleted(r) {
      var more := Unique(Markers(r) + [e]);
      assert e in more;
      assert Markers(WithMarkers(r, more)) == more;
    }
  }

  /** What the turns of a list do to a row that is not itself in the list. */
  ghost predicate IsMarkedBy(before: Row, after: Row, over: set<string>, nowDone: bool) {
    && IsCompleted(after) == IsCompleted(before)
    && MarkerSet(after) == if nowDone then MarkerSet(before) - over
                           else if IsCompleted(before) then MarkerSet(before)
                           else MarkerSet(before) + over
  }

  /** The edge itself, if the row is under its dependent. */
  function EdgeOver(rows: Rows, e: string, t: string): set<string>
    requires e in rows
  {
    if t in Dependents(rows, rows[e]) then {e} else {}
  }

  lemma OneTurnMarks(rows: Rows, before: Rows, e: string, nowDone: bool, at: int, t: string, over: set<string>)
    requires SameShapes(rows, before) && e in rows && t in rows && t != e
    requires IsMarkedBy(rows[t], before[t], over, nowDone)
    ensures t in TurnEdge(before, e, rows[e], nowDone, at)
    ensures IsMarkedBy(rows[t], TurnEdge(before, e, rows[e], nowDone, at)[t], over + EdgeOver(rows, e, t), nowDone)
  {
    DependentsByShape(rows, before, rows[e]);
    TurnEdgeAt(before, e, rows[e], nowDone, at, t);
    OneMoreMark(rows[t], before[t], e, over, nowDone);
    assert over + {} == over;
  }

  lemma {:induction false} TurnsMarkTasks(rows: Rows, order: seq<string>, nowDone: bool, at: int, t: string)
    requires AllIn(rows, order)
    requires t in rows && t !in order
    ensures t in TurnEdges(rows, order, nowDone, at)
    ensures IsMarkedBy(rows[t], TurnEdges(rows, order, nowDone, at)[t], Over(rows, order, t), nowDone)
  {
    if order == [] {
      assert Over(rows, order, t) == {};
    } else {
      var front, e := order[..|order| - 1], order[|order| - 1];
      TurnsMarkTasks(rows, front, nowDone, at, t);
      TurnsKeepShapes(rows, front, nowDone, at);
      OneTurnMarks(rows, TurnEdges(rows, front, nowDone, at), e, nowDone, at, t, Over(rows, front, t));
      OneMoreOver(rows, order, t);
    }
  }

  /** What completing or reopening does to a task, in terms of links: it loses, or while unfinished
      gains, exactly the turned edges by which it waits. */
  lemma TurnsMarkWhatWaits(rows: Rows, order: seq<string>, nowDone: bool, at: int, t: string, e: string)
    requires AllIn(rows, order) && t in rows && t !in order
    ensures t in TurnEdges(rows, order, nowDone, at)
    ensures var before, after := rows[t], TurnEdges(rows, order, nowDone, at)[t];
            var turned := e in order && WaitsBy(rows, rows[e], t);
            && IsCompleted(after) == IsCompleted(before)
            && (e in MarkerSet(after) <==>
                  if nowDone then e in MarkerSet(before) && !turned
                  else e in MarkerSet(before) || (turned && !IsCompleted(before)))
  {
    TurnsMarkTasks(rows, order, nowDone, at, t);
    if e in order {
      DependentsAreWaiting(rows, rows[e], t);
    }
  }

  /** ... and a completed task is noted as inconsistent, with exactly those edges. */
  lemma {:induction false} TurnsNoteInconsistency(rows: Rows, order: seq<string>, at: int, t: string)
    requires AllIn(rows, order) && t in rows && t !in order && IsCompleted(rows[t])
    ensures t in TurnEdges(rows, order, false, at)
    ensures var before, after := rows[t], TurnEdges(rows, order, false, at)[t];
            && after.inconsistent == (before.inconsistent || Over(rows, order, t) != {})
            && forall e :: e in after.inconsistentIds <==> e in before.inconsistentIds || e in Over(rows, order, t)
  {
    if order == [] {
      assert Over(rows, order, t) == {};
    } else {
      var front, e := order[..|order| - 1], order[|order| - 1];
      TurnsNoteInconsistency(rows, front, at, t);
      TurnsMarkTasks(rows, front, false, at, t);
      TurnsKeepShapes(rows, front, false, at);
      var before := TurnEdges(rows, front, false, at);
      DependentsByShape(rows, before, rows[e]);
      TurnEdgeAt(before, e, rows[e], false, at, t);
      OneMoreOver(rows, order, t);
    }
  }

  /** Which edges a flip of a task turns, by their fields. */
  lemma FlipTurnsExactly(rows: Rows, id: string, nowDone: bool, e: string)
    ensures e in EdgesToTurn(rows, id, nowDone) <==>
            && e in rows && !rows[e].deleted && rows[e].edge.Some? && rows[e].edge.value.blocker == Some(id)
            && if nowDone then rows[e].status.None? || rows[e].status.value == "open"
               else rows[e].status.Some?
                    && (rows[e].status.value == "ready" || rows[e].status.value == "unblocked" || rows[e].status.value == "done")
  {
  }

  lemma OneMoreOver(rows: Rows, order: seq<string>, t: string)
    requires order != [] && order[|order| - 1] in rows
    ensures Over(rows, order, t) == Over(rows, order[..|order| - 1], t) + EdgeOver(rows, order[|order| - 1], t)
  {
    assert order == order[..|order| - 1] + [order[|order| - 1]];
  }

  lemma OneMoreMark(first: Row, before: Row, e: string, over: set<string>, nowDone: bool)
    requires IsMarkedBy(first, before, over, nowDone)
    ensures IsMarkedBy(first, Marked(before, e, nowDone), over + {e}, nowDone)
  {
    MarkedKeepsShape(before, e, nowDone);
    if nowDone {
      ReleasedSet(before, e);
    } else {
      AddedSet(before, e);
    }
  }

  /** A turned edge keeps its new status, whichever subtrees it is in. */
  lemma {:induction false} TurnsSetStatus(rows: Rows, order: seq<string>, nowDone: bool, at: int, id: string)
    requires AllIn(rows, order)
    requires id in rows
    ensures id in TurnEdges(rows, order, nowDone, at)
    ensures TurnEdges(rows, order, nowDone, at)[id].status
         == if id in order then Some(if nowDone then "ready" else "open") else rows[id].status
  {
    if order != [] {
      var front, e := order[..|order| - 1], order[|order| - 1];
      TurnsSetStatus(rows, front, nowDone, at, id);
      TurnsKeepShapes(rows, front, nowDone, at);
      var before := TurnEdges(rows, front, nowDone, at);
      TurnEdgeAt(before, e, rows[e], nowDone, at, id);
      MarkedKeepsShape(if id == e then Turned(rows[e], nowDone, at) else before[id], e, nowDone);
      assert id in order <==> id in order[..|order| - 1] || id == order[|order| - 1];
    }
  }

  lemma MarkedKeepsReadyAt(r: Row, e: string, nowDone: bool)
    ensures Marked(r, e, nowDone).readyAt == r.readyAt
  {
  }

  /** A released edge is ready since the flip, an opened one is not ready. */
  lemma {:induction false} TurnsSetReadyAt(rows: Rows, order: seq<string>, nowDone: bool, at: int, id: string)
    requires AllIn(rows, order) && id in rows
    ensures id in TurnEdges(rows, order, nowDone, at)
    ensures TurnEdges(rows, order, nowDone, at)[id].readyAt
         == if id in order then (if nowDone then Some(at) else None) else rows[id].readyAt
  {
    if order != [] {
      var front, e := order[..|order| - 1], order[|order| - 1];
      assert order == front + [e];
      TurnsSetReadyAt(rows, front, nowDone, at, id);
      TurnsKeepShapes(rows, front, nowDone, at);
      var before := TurnEdges(rows, front, nowDone, at);
      var base := if id == e then Turned(rows[e], nowDone, at) else before[id];
      TurnEdgeAt(before, e, rows[e], nowDone, at, id);
      MarkedKeepsReadyAt(base, e, nowDone);
    }
  }

  // ===== The transaction =====

  predicate IsAmbiguous(rows: Rows, r: Row) {
    r.edge.Some? && FindUnique(rows, r.edge.value.linked).Ambiguous?
  }

  lemma AmbiguityByShape(rows: Rows, after: Rows, r: Row)
    requires SameShapes(rows, after)
    ensures IsAmbiguous(rows, r) == IsAmbiguous(after, r)
  {
    if r.edge.Some? {
      SameShapesSameDependent(rows, after, r.edge.value.linked);
    }
  }

  /** Marks the rows of a subtree one by one. */
  method MarkTree(rows: Rows, tree: set<string>, e: string, nowDone: bool) returns (after: Rows)
    ensures after == MarkAll(rows, tree, e, nowDone)
  {
    after := rows;
    var todo := tree;
    while todo != {}
      invariant todo <= tree && after.Keys == rows.Keys
      invariant forall t :: t in rows ==> after[t] == if t in tree - todo then Marked(rows[t], e, nowDone) else rows[t]
    {
      var t :| t in todo;
      if t in after {
        after := after[t := Marked(after[t], e, nowDone)];
      }
      todo := todo - {t};
    }
  }

  /** One turn of the outer loop. */
  method Turn(rows: Rows, e: string, relation: Row, nowDone: bool, at: int) returns (after: Rows)
    requires e in rows
    ensures after == TurnEdge(rows, e, relation, nowDone, at)
  {
    var props := relation;
    if nowDone {
      props := props.(status := Some("ready"), readyAt := Some(at));
    } else {
      props := props.(status := Some("open"), readyAt := None);
    }
    var turned := rows[e := props];
    var dependent := if relation.edge.Some? then FindUnique(turned, relation.edge.value.linked) else Nothing;
    if dependent.One? {
      after := MarkTree(turned, Tree(turned, dependent.id), e, nowDone);
    } else {
      after := turned;
      assert MarkAll(turned, {}, e, nowDone) == turned;
    }
  }

  lemma OneMoreTurn(rows: Rows, order: seq<string>, n: nat, nowDone: bool, at: int)
    requires n < |order| && AllIn(rows, order)
    ensures AllIn(rows, order[..n])
    ensures AllIn(rows, order[..n + 1])
    ensures TurnEdges(rows, order[..n + 1], nowDone, at)
         == TurnEdge(TurnEdges(rows, order[..n], nowDone, at), order[n], rows[order[n]], nowDone, at)
    ensures order[n] in TurnEdges(rows, order[..n], nowDone, at)
    ensures IsAmbiguous(TurnEdges(rows, order[..n], nowDone, at), rows[order[n]]) == IsAmbiguous(rows, rows[order[n]])
  {
    assert order[..n + 1][..n] == order[..n];
    TurnsKeepShapes(rows, order[..n], nowDone, at);
    AmbiguityByShape(rows, TurnEdges(rows, order[..n], nowDone, at), rows[order[n]]);
  }

  /** The outer loop, which gives up at an ambiguous reference. */
  method TurnAll(rows: Rows, order: seq<string>, nowDone: bool, at: int) returns (work: Rows, ok: bool)
    requires AllIn(rows, order)
    ensures ok <==> forall k :: 0 <= k < |order| ==> !IsAmbiguous(rows, rows[order[k]])
    ensures ok ==> work == TurnEdges(rows, order, nowDone, at)
  {
    work := rows;
    for n := 0 to |order|
      invariant AllIn(rows, order[..n])
      invariant work == TurnEdges(rows, order[..n], nowDone, at)
      invariant forall k :: 0 <= k < n ==> !IsAmbiguous(rows, rows[order[k]])
    {
      OneMoreTurn(rows, order, n, nowDone, at);
      var e := order[n];
      if IsAmbiguous(work, rows[e]) {
        return work, false;
      }
      work := Turn(work, e, rows[e], nowDone, at);
    }
    assert order[..|order|] == order;
    ok := true;
  }

  class DependencyStore {
    var rows: Rows

    constructor (rows: Rows)
      ensures this.rows == rows
    {
      this.rows := rows;
    }

    /** Turns every edge of a task that crossed the done line; an ambiguous reference undoes it all.
        `order` is the order in which the query returned the edges. */
    method PropagateTaskDependencies(id: string, wasDone: bool, nowDone: bool, at: int, order: seq<string>)
      returns (ok: bool)
      requires IsOrder(order, EdgesToTurn(rows, id, nowDone))
      modifies this
      ensures ok <==> wasDone == nowDone || forall k :: 0 <= k < |order| ==> !IsAmbiguous(old(rows), old(rows)[order[k]])
      ensures rows == if ok && wasDone != nowDone then TurnEdges(old(rows), order, nowDone, at) else old(rows)
    {
      if wasDone == nowDone {
        return true;
      }
      var work;
      work, ok := TurnAll(rows, order, nowDone, at);
      if ok {
        rows := work;
      }
    }
  }
}
