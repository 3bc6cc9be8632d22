/** The parent links of task rows (db.js, pg-schema.js).  A row names its parent by row id or by the
    local id of a row of the same day; references may dangle and be resolved by a later row.  A
    create refuses a parent that would close a cycle.  All rows here are read and written in one
    transaction under the hierarchy lock. */
module TaskGraph {
  import opened Options

  datatype Kind = TaskRow | DayRoot | OtherRow

  /** A row of `blocks`; `None` stands for NULL and for an absent or null JSON property. */
  datatype Row = Row(kind: Kind, workspace: Option<int>, date: Option<int>, localId: Option<string>,
                     wrapId: Option<string>, subtaskOf: Option<string>, parentId: Option<string>, deleted: bool)

  type Rows = map<string, Row>

  /** A create of a task row, with the id the caller minted or the server drew. */
  datatype Request = Request(id: string, workspace: Option<int>, date: Option<int>, localId: Option<string>,
                             wrapId: Option<string>, subtaskOf: Option<string>, parentId: Option<string>)

  predicate Truthy(s: Option<string>) {
    s.Some? && s.value != ""
  }

  function OrNull(s: Option<string>): Option<string> {
    if Truthy(s) then s else None
  }

  /** SQL's COALESCE and JavaScript's `??`: blank text counts. */
  function Coalesce(a: Option<string>, b: Option<string>): Option<string> {
    if a.Some? then a else b
  }

  /** JavaScript's `||`: blank text does not count. */
  function FirstTruthy(a: Option<string>, b: Option<string>): Option<string> {
    if Truthy(a) then a else OrNull(b)
  }

  const DAY_ROOT_PREFIX := "day-root-"

  predicate IsDayRootId(id: string) {
    DAY_ROOT_PREFIX <= id
  }

  // ===== The parent relation =====

  /** The reference that the edge rule reads from a row. */
  function RefOf(r: Row): Option<string> {
    Coalesce(r.wrapId, r.subtaskOf)
  }

  /** Row `p` is a parent of row `c`: named by row id, or by local id on the same day. */
  predicate Edge(rows: Rows, c: string, p: string) {
    && c in rows && p in rows && !rows[c].deleted && !rows[p].deleted
    && rows[c].workspace == rows[p].workspace && rows[p].kind != DayRoot
    && (Coalesce(RefOf(rows[c]), rows[c].parentId) == Some(p)
        || (RefOf(rows[c]).Some? && rows[p].localId == RefOf(rows[c]) && rows[p].date == rows[c].date))
  }

  ghost predicate IsPath(rows: Rows, path: seq<string>) {
    && path != []
    && (forall k :: 0 <= k < |path| - 1 ==> Edge(rows, path[k], path[k + 1]))
  }

  ghost predicate IsCycle(rows: Rows, path: seq<string>) {
    |path| >= 2 && IsPath(rows, path) && path[0] == path[|path| - 1]
  }

  ghost predicate Acyclic(rows: Rows) {
    forall path :: !IsCycle(rows, path)
  }

  // ===== Resolving a reference =====

  predicate Candidate(rows: Rows, q: Request, ref: string, id: string)
    requires id in rows
  {
    var x := rows[id];
    && x.workspace == q.workspace && x.kind != DayRoot
    && (id == ref || (x.localId == Some(ref) && (x.date == q.date || x.date.None?)))
  }

  function Tier(rows: Rows, q: Request, ref: string, id: string): nat
    requires id in rows
  {
    (if id == ref then 0 else if rows[id].date == q.date then 2 else 4) + (if rows[id].deleted then 1 else 0)
  }

  function AtTier(rows: Rows, q: Request, ref: string, tier: nat): set<string> {
    set id | id in rows && Candidate(rows, q, ref, id) && Tier(rows, q, ref, id) == tier
  }

  /** The only candidate of the best tier that has candidates, if it is the only one. */
  function ResolveFrom(rows: Rows, q: Request, ref: string, tier: nat): (found: Option<string>)
    ensures found.Some? ==> found.value in rows && Candidate(rows, q, ref, found.value)
    decreases 6 - tier
  {
    if tier >= 6 then None
    else
      var m := AtTier(rows, q, ref, tier);
      if m == {} then ResolveFrom(rows, q, ref, tier + 1)
      else if |m| != 1 then None
      else
        assert exists id :: id in m;
        OneElement(m);
        var id :| id in m;
        Some(id)
  }

  lemma OneElement(m: set<string>)
    requires |m| == 1
    ensures forall a, b :: a in m && b in m ==> a == b
  {
    forall a, b | a in m && b in m ensures a == b {
      if a != b {
        assert {a, b} <= m;
        SubsetIsSmaller({a, b}, m);
      }
    }
  }

  lemma {:induction false} SubsetIsSmaller(a: set<string>, b: set<string>)
    requires a <= b
    ensures |a| <= |b|
  {
    if a != {} {
      var x :| x in a;
      SubsetIsSmaller(a - {x}, b - {x});
    }
  }

  function Resolve(rows: Rows, q: Request, ref: Option<string>): (found: Option<string>)
    ensures found.Some? ==> Truthy(ref) && found.value in rows && Candidate(rows, q, ref.value, found.value)
  {
    if !Truthy(ref) then None
    else
      var id := ResolveFrom(rows, q, ref.value, 0);
      if id == Some(q.id) then None else id
  }

  /** A live row of the workspace is found by its id before anything else. */
  lemma RowIdResolves(rows: Rows, q: Request, ref: string)
    requires ref != "" && ref != q.id
    requires ref in rows && !rows[ref].deleted && rows[ref].workspace == q.workspace && rows[ref].kind != DayRoot
    ensures Resolve(rows, q, Some(ref)) == Some(ref)
  {
    assert AtTier(rows, q, ref, 0) == {ref};
  }

  /** A row that a reference may mean: by row id, or by local id on the day of the request or on none. */
  predicate MayMean(rows: Rows, q: Request, ref: string, x: string) {
    && x in rows && rows[x].workspace == q.workspace && rows[x].kind != DayRoot
    && (x == ref || (rows[x].localId == Some(ref) && (rows[x].date == q.date || rows[x].date.None?)))
  }

  /** The row id comes first, then the day of the request, then live rows; no other row comes near. */
  ghost predicate Wins(rows: Rows, q: Request, ref: string, id: string) {
    && MayMean(rows, q, ref, id)
    && forall x :: MayMean(rows, q, ref, x) && x != id ==>
         || id == ref
         || (x != ref && rows[id].date == q.date && rows[x].date != q.date)
         || (x != ref && (rows[id].date == q.date <==> rows[x].date == q.date) && !rows[id].deleted && rows[x].deleted)
  }

  lemma {:induction false} ResolvedFrom(rows: Rows, q: Request, ref: string, tier: nat, id: string)
    requires ResolveFrom(rows, q, ref, tier) == Some(id)
    requires forall x :: x in rows && Candidate(rows, q, ref, x) ==> Tier(rows, q, ref, x) >= tier
    ensures id in rows && Candidate(rows, q, ref, id)
    ensures forall x :: x in rows && Candidate(rows, q, ref, x) && x != id ==> Tier(rows, q, ref, id) < Tier(rows, q, ref, x)
    decreases 6 - tier
  {
    if tier < 6 {
      var m := AtTier(rows, q, ref, tier);
      if m == {} {
        forall x | x in rows && Candidate(rows, q, ref, x) ensures Tier(rows, q, ref, x) >= tier + 1 {
          assert x !in m;
        }
        ResolvedFrom(rows, q, ref, tier + 1, id);
      } else if |m| == 1 {
        OneElement(m);
        forall x | x in rows && Candidate(rows, q, ref, x) && x != id ensures Tier(rows, q, ref, id) < Tier(rows, q, ref, x) {
          assert id in m;
          assert x !in m;
        }
      }
    }
  }

  lemma {:induction false} BestResolves(rows: Rows, q: Request, ref: string, tier: nat, id: string)
    requires id in rows && Candidate(rows, q, ref, id) && tier <= Tier(rows, q, ref, id)
    requires forall x :: x in rows && Candidate(rows, q, ref, x) && x != id ==> Tier(rows, q, ref, id) < Tier(rows, q, ref, x)
    ensures ResolveFrom(rows, q, ref, tier) == Some(id)
    decreases 6 - tier
  {
    if tier < Tier(rows, q, ref, id) {
      assert AtTier(rows, q, ref, tier) == {};
      BestResolves(rows, q, ref, tier + 1, id);
    } else {
      assert AtTier(rows, q, ref, tier) == {id};
    }
  }

  /** A reference resolves to the row that wins, unless that is the new row itself; blank and
      ambiguous references resolve to nothing. */
  lemma ResolveIsExact(rows: Rows, q: Request, ref: string, id: string)
    ensures Resolve(rows, q, Some(ref)) == Some(id) <==> ref != "" && id != q.id && Wins(rows, q, ref, id)
  {
    if ref != "" {
      if ResolveFrom(rows, q, ref, 0) == Some(id) {
        ResolvedFrom(rows, q, ref, 0, id);
      }
      if Wins(rows, q, ref, id) {
        forall x | x in rows && Candidate(rows, q, ref, x) && x != id ensures Tier(rows, q, ref, id) < Tier(rows, q, ref, x) {
          assert MayMean(rows, q, ref, x);
        }
        BestResolves(rows, q, ref, 0, id);
      }
    }
  }

  // ===== Creating a row =====

  predicate NamesItself(q: Request) {
    || q.parentId == Some(q.id)
    || (Truthy(q.subtaskOf) && (q.subtaskOf == Some(q.id) || q.subtaskOf == q.localId))
    || (Truthy(q.wrapId) && (q.wrapId == Some(q.id) || q.wrapId == q.localId))
  }

  predicate IsTaskParent(id: Option<string>) {
    Truthy(id) && !IsDayRootId(id.value)
  }

  predicate CreatesHierarchy(q: Request) {
    Truthy(q.subtaskOf) || Truthy(q.wrapId) || IsTaskParent(q.parentId)
  }

  datatype Result<T> = Ok(value: T) | Refused

  /** Which parent id the row gets: the reference decides unless a task was named explicitly. */
  function ChooseParent(rows: Rows, q: Request): Result<Option<string>> {
    var ref := Coalesce(q.subtaskOf, q.wrapId);
    var parent := OrNull(q.parentId);
    if ref.None? then Ok(parent)
    else
      var resolved := Resolve(rows, q, ref);
      if !IsTaskParent(parent) then Ok(if resolved.Some? then resolved else parent)
      else if resolved != parent then Refused
      else Ok(parent)
  }

  predicate IsLive(rows: Rows, id: string) {
    id in rows && !rows[id].deleted
  }

  /** A live parent must be a task of the same workspace and day. */
  predicate FitsParent(rows: Rows, q: Request, parent: Option<string>) {
    CreatesHierarchy(q) && IsTaskParent(parent) && IsLive(rows, parent.value) ==>
      && rows[parent.value].workspace == q.workspace
      && rows[parent.value].date == q.date
      && rows[parent.value].kind == TaskRow
  }

  /** A row that names its parent by parent id alone is given a reference to it. */
  function GivenSubtaskOf(rows: Rows, q: Request, parent: Option<string>): Option<string> {
    if CreatesHierarchy(q) && IsTaskParent(parent) && IsLive(rows, parent.value)
       && !Truthy(Coalesce(q.subtaskOf, q.wrapId))
    then if Truthy(rows[parent.value].localId) then rows[parent.value].localId else parent
    else q.subtaskOf
  }

  function NewRow(rows: Rows, q: Request, parent: Option<string>): Row {
    Row(TaskRow, q.workspace, q.date, q.localId, q.wrapId, GivenSubtaskOf(rows, q, parent), parent, false)
  }

  /** The walk starts at the rows the new row would hang under. */
  predicate IsStart(rows: Rows, r: Row, a: string) {
    && IsLive(rows, a) && rows[a].workspace == r.workspace
    && (r.parentId == Some(a)
        || (FirstTruthy(r.wrapId, r.subtaskOf).Some?
            && rows[a].localId == FirstTruthy(r.wrapId, r.subtaskOf) && rows[a].date == r.date))
  }

  /** An ancestor that is, or hangs under, the new row. */
  predicate Names(rows: Rows, a: string, id: string, localId: Option<string>)
    requires a in rows
  {
    || a == id
    || (Truthy(localId) && rows[a].localId == localId)
    || RefOf(rows[a]) == Some(id)
    || (Truthy(localId) && RefOf(rows[a]) == localId)
  }

  /** The recursive query: from `a` the walk meets a row that names the new one, or runs in a circle.
      `left` holds the rows that are not on the current path. */
  predicate Closes(rows: Rows, left: set<string>, a: string, id: string, localId: Option<string>)
    requires a in rows
    decreases left
  {
    || Names(rows, a, id, localId)
    || exists p :: p in rows && Edge(rows, a, p) && (p !in left || Closes(rows, left - {p}, p, id, localId))
  }

  predicate WouldClose(rows: Rows, r: Row, id: string) {
    exists a :: a in rows && IsStart(rows, r, a) && Closes(rows, rows.Keys - {a}, a, id, r.localId)
  }

  /** The rows after a create; a refusal, a taken id and a missing parent leave them as they were. */
  function Create(rows: Rows, q: Request): Rows {
    var parent := ChooseParent(rows, q);
    if NamesItself(q) || parent.Refused? || !FitsParent(rows, q, parent.value) then rows
    else
      var r := NewRow(rows, q, parent.value);
      if CreatesHierarchy(q) && ((Truthy(r.wrapId) && Truthy(r.subtaskOf)) || WouldClose(rows, r, q.id)) then rows
      else if q.id in rows || (r.parentId.Some? && r.parentId.value !in rows) then rows
      else rows[q.id := r]
  }

  function SoftDelete(rows: Rows, id: string): Rows {
    if id in rows then rows[id := rows[id].(deleted := true)] else rows
  }

  function EnsureDayRoot(rows: Rows, id: string, workspace: Option<int>, date: Option<int>): Rows {
    if id in rows || !IsDayRootId(id) then rows
    else rows[id := Row(DayRoot, workspace, date, None, None, None, None, false)]
  }

  // ===== The walk finds every way back =====

  lemma PartIsPath(rows: Rows, path: seq<string>, i: nat, j: nat)
    requires IsPath(rows, path) && i < j <= |path|
    ensures IsPath(rows, path[i..j])
  {
    var part := path[i..j];
    forall k | 0 <= k < |part| - 1 ensures Edge(rows, part[k], part[k + 1]) {
      assert Edge(rows, path[i + k], path[i + k + 1]);
    }
  }

  lemma {:induction false} WalkFollowsPath(rows: Rows, left: set<string>, path: seq<string>, id: string, localId: Option<string>)
    requires IsPath(rows, path) && path[0] in rows && path[|path| - 1] in rows
    requires Names(rows, path[|path| - 1], id, localId)
    ensures Closes(rows, left, path[0], id, localId)
    decreases |path|
  {
    if |path| > 1 {
      var p := path[1];
      assert Edge(rows, path[0], p);
      PartIsPath(rows, path, 1, |path|);
      WalkFollowsPath(rows, left - {p}, path[1..], id, localId);
    }
  }

  // ===== Sound stores =====

  /** A row that hangs under nothing but day roots. */
  predicate IsLow(r: Row) {
    || r.kind == DayRoot
    || ((RefOf(r).None? || RefOf(r) == r.parentId) && (r.parentId.Some? ==> IsDayRootId(r.parentId.value)))
  }

  /** Parent ids point at rows (a foreign key), rows with a day-root id hang under nothing else, and
      no row reads a blank reference. */
  ghost predicate Sound(rows: Rows) {
    && (forall c :: c in rows ==> RefOf(rows[c]) != Some(""))
    && (forall c :: c in rows && rows[c].parentId.Some? ==> rows[c].parentId.value in rows)
    && (forall c :: c in rows && IsDayRootId(c) ==> IsLow(rows[c]))
  }

  /** No row's local id is another row's id. */
  ghost predicate AliasesApart(rows: Rows) {
    forall a, b :: a in rows && b in rows && a != b ==> rows[a].localId != Some(b)
  }

  /** A blank reference makes the walk start elsewhere than the edge rule leads.  The exceptions are
      refused in any store, or lead to a day root. */
  predicate ReadsBlank(q: Request) {
    && (q.wrapId == Some("") || q.subtaskOf == Some(""))
    && (IsTaskParent(q.parentId) ==> Truthy(q.subtaskOf))
    && !(Truthy(q.wrapId) && IsDayRootId(q.wrapId.value))
  }

  /** A task with the id of a day root that can hang under a task: whoever names it by parent id
      skips the walk.  The exceptions are refused in any store, or hang under day roots only. */
  predicate PosesAsDayRoot(q: Request) {
    && IsDayRootId(q.id)
    && (|| (Truthy(q.wrapId) && q.subtaskOf.None?)
        || (Truthy(q.subtaskOf) && q.wrapId.None?)
        || (q.wrapId.None? && q.subtaskOf.None? && IsTaskParent(q.parentId))
        || (Truthy(q.wrapId) && IsDayRootId(q.wrapId.value) && q.subtaskOf == Some("")
            && !IsTaskParent(q.parentId) && q.parentId != q.wrapId))
  }

  predicate Careless(q: Request) {
    ReadsBlank(q) || PosesAsDayRoot(q)
  }

  /** A careful row hangs under rows the walk starts at, and under rows with a day-root id. */
  lemma FirstStepIsStart(rows: Rows, q: Request, p: string)
    requires Sound(rows) && AliasesApart(Create(rows, q)) && !Careless(q) && q.id != ""
    requires Create(rows, q) != rows && p != q.id && Edge(Create(rows, q), q.id, p)
    ensures IsDayRootId(p) || (CreatesHierarchy(q) && IsStart(rows, Create(rows, q)[q.id], p))
  {
    var r := Create(rows, q)[q.id];
    var given := Coalesce(q.subtaskOf, q.wrapId);
    if IsTaskParent(q.parentId) && !Truthy(given) {
      if p != r.parentId.value {
        LocalIdIsNoRowId(Create(rows, q), r.parentId.value, p);
      }
    } else if RefOf(r) == Some(p) {
      if Truthy(given) {
        RowIdResolves(rows, q, p);
      }
    }
  }

  lemma JoinedIsPath(rows: Rows, a: seq<string>, b: seq<string>)
    requires IsPath(rows, a) && IsPath(rows, b) && a[|a| - 1] == b[0]
    ensures IsPath(rows, a + b[1..])
  {
    var joined := a + b[1..];
    forall k | 0 <= k < |joined| - 1 ensures Edge(rows, joined[k], joined[k + 1]) {
      if k < |a| - 1 {
        assert joined[k] == a[k] && joined[k + 1] == a[k + 1];
      } else {
        assert joined[k] == b[k - |a| + 1] && joined[k + 1] == b[k - |a| + 2];
      }
    }
  }

  /** A cycle can be walked from any of its rows. */
  lemma Rotate(rows: Rows, cycle: seq<string>, i: nat) returns (turned: seq<string>)
    requires IsCycle(rows, cycle) && i < |cycle|
    ensures IsCycle(rows, turned) && turned[0] == cycle[i]
  {
    if i == |cycle| - 1 {
      return cycle;
    }
    PartIsPath(rows, cycle, i, |cycle|);
    PartIsPath(rows, cycle, 0, i + 1);
    JoinedIsPath(rows, cycle[i..], cycle[..i + 1]);
    return cycle[i..] + cycle[..i + 1][1..];
  }

  lemma OldEdges(rows: Rows, n: string, r: Row, a: string, b: string)
    requires n !in rows && a != n && b != n
    ensures Edge(rows[n := r], a, b) <==> Edge(rows, a, b)
  {
  }

  lemma OldPath(rows: Rows, n: string, r: Row, path: seq<string>)
    requires n !in rows && n !in path && IsPath(rows[n := r], path)
    ensures IsPath(rows, path)
    ensures IsCycle(rows[n := r], path) ==> IsCycle(rows, path)
  {
    forall k | 0 <= k < |path| - 1 ensures Edge(rows, path[k], path[k + 1]) {
      OldEdges(rows, n, r, path[k], path[k + 1]);
    }
  }

  /** A way back to the start of a closed walk that meets the start only at its ends. */
  lemma {:induction false} FirstReturn(rows: Rows, path: seq<string>, j: nat) returns (loop: seq<string>)
    requires IsPath(rows, path) && 1 <= j < |path| && path[j] == path[0]
    ensures IsCycle(rows, loop) && loop[0] == path[0]
    ensures forall k :: 0 < k < |loop| - 1 ==> loop[k] != path[0]
    decreases j
  {
    if k :| 0 < k < j && path[k] == path[0] {
      loop := FirstReturn(rows, path, k);
    } else {
      PartIsPath(rows, path, 0, j + 1);
      loop := path[..j + 1];
    }
  }

  lemma CreatedRow(rows: Rows, q: Request) returns (r: Row)
    requires Create(rows, q) != rows
    ensures q.id !in rows && Create(rows, q) == rows[q.id := r]
    ensures r.localId == q.localId && !NamesItself(q) && r.parentId != Some(q.id)
    ensures CreatesHierarchy(q) ==> !WouldClose(rows, r, q.id)
  {
    r := NewRow(rows, q, ChooseParent(rows, q).value);
  }

  /** What the new row reads as its parent, unless the request named no task at all. */
  lemma ReadReference(rows: Rows, q: Request) returns (r: Row)
    requires Sound(rows) && !Careless(q) && Create(rows, q) != rows
    ensures r == Create(rows, q)[q.id] && RefOf(r) != Some("")
    ensures RefOf(r) == Coalesce(q.wrapId, q.subtaskOf)
         || (IsTaskParent(r.parentId) && CreatesHierarchy(q) && IsLive(rows, r.parentId.value)
             && rows[r.parentId.value].workspace == q.workspace
             && (RefOf(r) == r.parentId || RefOf(r) == rows[r.parentId.value].localId))
  {
    r := CreatedRow(rows, q);
  }

  lemma LocalIdIsNoRowId(rows: Rows, a: string, b: string)
    requires AliasesApart(rows) && a in rows && b in rows && a != b
    ensures rows[a].localId != Some(b)
  {
  }

  lemma NoSelfEdge(rows: Rows, q: Request)
    requires Sound(rows) && AliasesApart(Create(rows, q)) && !Careless(q) && q.id != ""
    requires Create(rows, q) != rows
    ensures !Edge(Create(rows, q), q.id, q.id)
  {
    var r := CreatedRow(rows, q);
    var same := ReadReference(rows, q);
    if RefOf(r) != Coalesce(q.wrapId, q.subtaskOf) {
      var a := r.parentId.value;
      assert IsStart(rows, r, a);
      assert !Closes(rows, rows.Keys - {a}, a, q.id, q.localId);
      LocalIdIsNoRowId(Create(rows, q), a, q.id);
      LocalIdIsNoRowId(Create(rows, q), q.id, a);
    }
  }

  /** Whatever hangs under the new row names it. */
  lemma WayBackNames(rows: Rows, q: Request, a: string)
    requires Sound(rows) && !Careless(q) && q.id != ""
    requires Create(rows, q) != rows && a != q.id
    requires Edge(Create(rows, q), a, q.id)
    ensures a in rows && Names(rows, a, q.id, q.localId)
  {
    var r := CreatedRow(rows, q);
  }

  /** From a task with a day-root id every path leads to such tasks only. */
  lemma {:induction false} LowPathStaysLow(rows: Rows, way: seq<string>)
    requires Sound(rows) && AliasesApart(rows) && IsPath(rows, way)
    requires IsDayRootId(way[0]) && way[0] in rows && rows[way[0]].kind != DayRoot
    ensures IsDayRootId(way[|way| - 1]) && way[|way| - 1] in rows && rows[way[|way| - 1]].kind != DayRoot
  {
    if |way| > 1 {
      assert Edge(rows, way[0], way[0 + 1]);
      LowEdgeStaysLow(rows, way[0], way[1]);
      PartIsPath(rows, way, 1, |way|);
      LowPathStaysLow(rows, way[1..]);
    }
  }

  lemma LowEdgeStaysLow(rows: Rows, a: string, b: string)
    requires Sound(rows) && AliasesApart(rows) && IsDayRootId(a) && Edge(rows, a, b) && rows[a].kind != DayRoot
    ensures IsDayRootId(b)
  {
    if rows[a].parentId.Some? && b != rows[a].parentId.value {
      LocalIdIsNoRowId(rows, b, rows[a].parentId.value);
    }
  }

  /** ... and never to a row that is yet to come. */
  lemma LowRowIsBefore(rows: Rows, q: Request, a: string)
    requires Sound(rows) && AliasesApart(Create(rows, q)) && Create(rows, q) != rows
    requires a in rows && IsDayRootId(a) && rows[a].kind != DayRoot
    ensures !Edge(Create(rows, q), a, q.id)
  {
    var r := CreatedRow(rows, q);
    if rows[a].parentId.Some? {
      LocalIdIsNoRowId(Create(rows, q), q.id, rows[a].parentId.value);
    }
  }

  /** No path leads from a parent of an accepted row back to the new row. */
  lemma WayIsRefused(rows: Rows, q: Request, way: seq<string>)
    requires Sound(rows) && AliasesApart(Create(rows, q)) && !Careless(q) && q.id != ""
    requires Create(rows, q) != rows && IsPath(rows, way) && q.id !in way
    requires Edge(Create(rows, q), q.id, way[0])
    ensures !Edge(Create(rows, q), way[|way| - 1], q.id)
  {
    var r := CreatedRow(rows, q);
    if Edge(Create(rows, q), way[|way| - 1], q.id) {
      FirstStepIsStart(rows, q, way[0]);
      if IsDayRootId(way[0]) {
        AliasesWereApart(rows, Create(rows, q));
        LowPathStaysLow(rows, way);
        LowRowIsBefore(rows, q, way[|way| - 1]);
        return;
      }
      WayBackNames(rows, q, way[|way| - 1]);
      WalkFollowsPath(rows, rows.Keys - {way[0]}, way, q.id, q.localId);
    }
  }

  /** No cycle leads through a new row. */
  lemma NewRowIsOnNoLoop(rows: Rows, q: Request, loop: seq<string>)
    requires Sound(rows) && AliasesApart(Create(rows, q)) && !Careless(q) && q.id != ""
    requires Create(rows, q) != rows
    requires |loop| >= 2 && loop[0] == q.id == loop[|loop| - 1]
    requires forall k :: 0 < k < |loop| - 1 ==> loop[k] != q.id
    ensures !IsCycle(Create(rows, q), loop)
  {
    var after, n := Create(rows, q), |loop| - 1;
    if IsCycle(after, loop) {
      assert Edge(after, loop[0], loop[1]) && Edge(after, loop[n - 1], loop[n - 1 + 1]);
      if n == 1 {
        NoSelfEdge(rows, q);
      } else {
        var r := CreatedRow(rows, q);
        var way := loop[1..n];
        PartIsPath(after, loop, 1, n);
        OldPath(rows, q.id, r, way);
        WayIsRefused(rows, q, way);
      }
    }
  }

  lemma CreateClosesNothing(rows: Rows, q: Request, path: seq<string>)
    requires Sound(rows) && AliasesApart(Create(rows, q)) && Acyclic(rows)
    requires !Careless(q) && q.id != "" && Create(rows, q) != rows
    ensures !IsCycle(Create(rows, q), path)
  {
    var after := Create(rows, q);
    if IsCycle(after, path) {
      if i :| 0 <= i < |path| && path[i] == q.id {
        var turned := Rotate(after, path, i);
        var loop := FirstReturn(after, turned, |turned| - 1);
        NewRowIsOnNoLoop(rows, q, loop);
      } else {
        var r := CreatedRow(rows, q);
        OldPath(rows, q.id, r, path);
      }
    }
  }

  /** A create with careful references keeps the parent relation acyclic, even when it is the row
      that earlier references were waiting for. */
  lemma CreateKeepsAcyclic(rows: Rows, q: Request)
    requires Sound(rows) && AliasesApart(Create(rows, q)) && Acyclic(rows)
    requires !Careless(q) && q.id != ""
    ensures Acyclic(Create(rows, q)) && Sound(Create(rows, q))
  {
    if Create(rows, q) != rows {
      forall path ensures !IsCycle(Create(rows, q), path) {
        CreateClosesNothing(rows, q, path);
      }
    }
  }

  lemma ReturningPathIsCycle(rows: Rows, path: seq<string>, i: nat)
    requires IsPath(rows, path) && i < |path| - 1 && path[i] == path[|path| - 1]
    ensures IsCycle(rows, path[i..])
  {
    PartIsPath(rows, path, i, |path|);
  }

  function OffTrail(rows: Rows, trail: seq<string>): set<string> {
    set x | x in rows && x !in trail
  }

  /** A refusal by the walk has a reason: some way leads from a start row to a row that names the
      new one. */
  lemma {:induction false} WalkFindsOnlyWaysBack(rows: Rows, trail: seq<string>, id: string, localId: Option<string>)
    returns (way: seq<string>)
    requires Acyclic(rows) && IsPath(rows, trail) && trail[|trail| - 1] in rows
    requires Closes(rows, OffTrail(rows, trail), trail[|trail| - 1], id, localId)
    ensures IsPath(rows, way) && way[0] == trail[|trail| - 1] && way[|way| - 1] in rows
    ensures Names(rows, way[|way| - 1], id, localId)
    decreases OffTrail(rows, trail)
  {
    var a := trail[|trail| - 1];
    var left := OffTrail(rows, trail);
    if Names(rows, a, id, localId) {
      return [a];
    }
    var p :| p in rows && Edge(rows, a, p) && (p !in left || Closes(rows, left - {p}, p, id, localId));
    assert IsPath(rows, [a, p]);
    JoinedIsPath(rows, trail, [a, p]);
    var longer := trail + [a, p][1..];
    if p !in left {
      var i :| 0 <= i < |trail| && trail[i] == p;
      ReturningPathIsCycle(rows, longer, i);
    } else {
      assert OffTrail(rows, longer) == left - {p};
      var rest := WalkFindsOnlyWaysBack(rows, longer, id, localId);
      JoinedIsPath(rows, [a, p], rest);
      return [a, p] + rest[1..];
    }
  }

  // ===== Exactly which rows are created =====

  /** A path from a row the walk starts at to a row that is, or hangs under, the new one. */
  ghost predicate LeadsBack(rows: Rows, r: Row, id: string, way: seq<string>) {
    && IsPath(rows, way) && way[0] in rows && way[|way| - 1] in rows
    && IsStart(rows, r, way[0]) && Names(rows, way[|way| - 1], id, r.localId)
  }

  /** In an acyclic store the walk refuses exactly when some way leads back. */
  lemma WalkIsExact(rows: Rows, r: Row, id: string)
    requires Acyclic(rows)
    ensures WouldClose(rows, r, id) <==> exists way :: LeadsBack(rows, r, id, way)
  {
    if WouldClose(rows, r, id) {
      var a :| a in rows && IsStart(rows, r, a) && Closes(rows, rows.Keys - {a}, a, id, r.localId);
      assert OffTrail(rows, [a]) == rows.Keys - {a};
      var way := WalkFindsOnlyWaysBack(rows, [a], id, r.localId);
      assert LeadsBack(rows, r, id, way);
    }
    if way :| LeadsBack(rows, r, id, way) {
      WalkFollowsPath(rows, rows.Keys - {way[0]}, way, id, r.localId);
    }
  }

  /** The parent id that a row gets. */
  ghost predicate GetsParent(rows: Rows, q: Request, parent: Option<string>) {
    var ref := if q.subtaskOf.Some? then q.subtaskOf else q.wrapId;
    var asked := if q.parentId == Some("") then None else q.parentId;
    if ref.None? then parent == asked
    else if asked.Some? && !IsDayRootId(asked.value) then
      parent == asked && ref.value != "" && asked.value != q.id && Wins(rows, q, ref.value, asked.value)
    else if parent.Some? && ref.value != "" && parent.value != q.id && Wins(rows, q, ref.value, parent.value) then true
    else parent == asked && forall x :: ref.value != "" && x != q.id ==> !Wins(rows, q, ref.value, x)
  }

  /** The request names a task as its parent. */
  predicate HasTaskParent(q: Request) {
    || (q.subtaskOf.Some? && q.subtaskOf.value != "") || (q.wrapId.Some? && q.wrapId.value != "")
    || (q.parentId.Some? && q.parentId.value != "" && !IsDayRootId(q.parentId.value))
  }

  /** What the code accepts, in the words of the request and the rows. */
  ghost predicate MayBeCreated(rows: Rows, q: Request, parent: Option<string>) {
    && q.id !in rows && q.parentId != Some(q.id)
    && (forall ref :: ref != "" && (q.subtaskOf == Some(ref) || q.wrapId == Some(ref)) ==> ref != q.id && Some(ref) != q.localId)
    && GetsParent(rows, q, parent)
    && (parent.Some? ==> parent.value in rows)
    && (HasTaskParent(q) ==>
          && (parent.Some? && !IsDayRootId(parent.value) && !rows[parent.value].deleted ==>
                rows[parent.value].workspace == q.workspace && rows[parent.value].date == q.date
                && rows[parent.value].kind == TaskRow)
          && !(q.wrapId.Some? && q.wrapId.value != "" && q.subtaskOf.Some? && q.subtaskOf.value != "")
          && forall way :: !LeadsBack(rows, NewRow(rows, q, parent), q.id, way))
  }

  lemma ParentIsChosen(rows: Rows, q: Request, parent: Option<string>)
    requires parent != Some("")
    ensures ChooseParent(rows, q) == Ok(parent) <==> GetsParent(rows, q, parent)
  {
    var ref := if q.subtaskOf.Some? then q.subtaskOf else q.wrapId;
    if ref.Some? {
      forall x ensures Resolve(rows, q, ref) == Some(x) <==> ref.value != "" && x != q.id && Wins(rows, q, ref.value, x) {
        ResolveIsExact(rows, q, ref.value, x);
      }
    }
  }

  /** A create is accepted exactly so, and then stores what was asked for. */
  lemma CreateIsExact(rows: Rows, q: Request, parent: Option<string>)
    requires Acyclic(rows) && "" !in rows && parent != Some("")
    ensures (Create(rows, q) != rows && ChooseParent(rows, q) == Ok(parent)) <==> MayBeCreated(rows, q, parent)
    ensures MayBeCreated(rows, q, parent) ==>
              && Create(rows, q) == rows[q.id := NewRow(rows, q, parent)]
              && var r := NewRow(rows, q, parent);
                 && r.kind == TaskRow && r.workspace == q.workspace && r.date == q.date && r.localId == q.localId
                 && r.wrapId == q.wrapId && r.parentId == parent && !r.deleted
                 && (q.subtaskOf.Some? && q.subtaskOf.value != "" ==> r.subtaskOf == q.subtaskOf)
  {
    ParentIsChosen(rows, q, parent);
    WalkIsExact(rows, NewRow(rows, q, parent), q.id);
  }

  // ===== Whole runs =====

  datatype Op =
    | CreateTask(request: Request)
    | DeleteRow(id: string)
    | AddDayRoot(rootId: string, workspace: Option<int>, date: Option<int>)

  function Do(rows: Rows, op: Op): Rows {
    match op
    case CreateTask(q) => Create(rows, q)
    case DeleteRow(id) => SoftDelete(rows, id)
    case AddDayRoot(id, workspace, date) => EnsureDayRoot(rows, id, workspace, date)
  }

  function Run(rows: Rows, ops: seq<Op>): Rows {
    if ops == [] then rows else Do(Run(rows, ops[..|ops| - 1]), ops[|ops| - 1])
  }

  predicate Careful(op: Op) {
    op.CreateTask? ==> !Careless(op.request) && op.request.id != ""
  }

  ghost predicate AllCareful(ops: seq<Op>) {
    forall k :: 0 <= k < |ops| ==> Careful(ops[k])
  }

  lemma FewerEdges(rows: Rows, after: Rows, path: seq<string>)
    requires forall a, b :: Edge(after, a, b) ==> Edge(rows, a, b)
    ensures IsCycle(after, path) ==> IsCycle(rows, path)
  {
  }

  lemma DeleteKeepsAcyclic(rows: Rows, id: string)
    requires Sound(rows) && Acyclic(rows)
    ensures Sound(SoftDelete(rows, id)) && Acyclic(SoftDelete(rows, id))
  {
    forall path ensures !IsCycle(SoftDelete(rows, id), path) {
      FewerEdges(rows, SoftDelete(rows, id), path);
    }
  }

  lemma RootKeepsAcyclic(rows: Rows, id: string, workspace: Option<int>, date: Option<int>)
    requires Sound(rows) && Acyclic(rows)
    ensures Sound(EnsureDayRoot(rows, id, workspace, date)) && Acyclic(EnsureDayRoot(rows, id, workspace, date))
  {
    forall path ensures !IsCycle(EnsureDayRoot(rows, id, workspace, date), path) {
      FewerEdges(rows, EnsureDayRoot(rows, id, workspace, date), path);
    }
  }

  /** Rows are never removed and keep their local ids. */
  lemma RowsStay(rows: Rows, op: Op)
    ensures forall id :: id in rows ==> id in Do(rows, op) && Do(rows, op)[id].localId == rows[id].localId
  {
  }

  /** Over any run of task creates, soft deletes and new days, the parent relation stays acyclic. */
  lemma {:induction false} EveryRunIsAcyclic(rows: Rows, ops: seq<Op>)
    requires Sound(rows) && Acyclic(rows)
    requires AllCareful(ops) && AliasesApart(Run(rows, ops))
    ensures Sound(Run(rows, ops)) && Acyclic(Run(rows, ops))
  {
    if ops != [] {
      var before, op := Run(rows, ops[..|ops| - 1]), ops[|ops| - 1];
      RowsStay(before, op);
      AliasesWereApart(before, Do(before, op));
      EveryRunIsAcyclic(rows, ops[..|ops| - 1]);
      match op {
        case CreateTask(q) => CreateKeepsAcyclic(before, q);
        case DeleteRow(id) => DeleteKeepsAcyclic(before, id);
        case AddDayRoot(id, workspace, date) => RootKeepsAcyclic(before, id, workspace, date);
      }
    }
  }

  lemma {:induction false} RunKeepsRows(rows: Rows, ops: seq<Op>)
    ensures forall id :: id in rows ==> id in Run(rows, ops) && Run(rows, ops)[id].localId == rows[id].localId
  {
    if ops != [] {
      RunKeepsRows(rows, ops[..|ops| - 1]);
      RowsStay(Run(rows, ops[..|ops| - 1]), ops[|ops| - 1]);
    }
  }

  lemma AliasesWereApart(rows: Rows, after: Rows)
    requires AliasesApart(after)
    requires forall id :: id in rows ==> id in after && after[id].localId == rows[id].localId
    ensures AliasesApart(rows)
  {
    forall a, b | a in rows && b in rows && a != b ensures rows[a].localId != Some(b) {
      LocalIdIsNoRowId(after, a, b);
    }
  }

  // ===== Where the walk misses a way back =====

  /** A text that is none of the given ones. */
  function LongerThan(a: string, b: string, c: string, d: string): (s: string)
    ensures s != a && s != b && s != c && s != d && s != "" && !IsDayRootId(s)
  {
    var s := "x" + a + b + c + d;
    assert s[0] == 'x' && DAY_ROOT_PREFIX[0] == 'd';
    s
  }

  function TextOf(s: Option<string>): string {
    if s.Some? then s.value else ""
  }

  /** A row that waits for the id of the request, where the edge rule will look and the walk not. */
  function Waiting(q: Request): Row {
    Row(TaskRow, q.workspace, q.date, if Truthy(q.wrapId) then None else Some(""), Some(q.id), None, None, false)
  }

  function WaitingId(q: Request): string {
    if Truthy(q.wrapId) then q.wrapId.value
    else LongerThan(q.id, TextOf(q.localId), TextOf(q.subtaskOf), TextOf(q.parentId))
  }

  function NamedParent(q: Request): Row {
    if IsDayRootId(TextOf(q.parentId)) then Row(DayRoot, q.workspace, q.date, None, None, None, None, false)
    else Row(TaskRow, q.workspace, q.date, if q.parentId == q.subtaskOf then None else q.subtaskOf, None, None, None, false)
  }

  /** The store in which a careless request does harm. */
  function Trap(q: Request): Rows {
    (if Truthy(q.parentId) then map[q.parentId.value := NamedParent(q)] else map[])[WaitingId(q) := Waiting(q)]
  }

  lemma NoEdgesNoCycle(rows: Rows)
    requires forall a, b :: !Edge(rows, a, b)
    ensures Acyclic(rows)
  {
    forall path ensures !IsCycle(rows, path) {
      assert |path| >= 2 ==> !Edge(rows, path[0], path[0 + 1]);
    }
  }

  lemma TrapIsSound(q: Request)
    requires ReadsBlank(q) && !NamesItself(q) && q.id != ""
    ensures Sound(Trap(q)) && Acyclic(Trap(q))
  {
    NoEdgesNoCycle(Trap(q));
  }

  /** A task parent named twice is found in the trap. */
  lemma TrapFindsParent(q: Request)
    requires ReadsBlank(q) && !NamesItself(q) && q.id != "" && IsTaskParent(q.parentId)
    ensures Resolve(Trap(q), q, Coalesce(q.subtaskOf, q.wrapId)) == q.parentId
  {
    var ref, p := q.subtaskOf.value, q.parentId.value;
    if ref == p {
      RowIdResolves(Trap(q), q, ref);
    } else {
      assert AtTier(Trap(q), q, ref, 0) == {};
      assert AtTier(Trap(q), q, ref, 1) == {};
      assert AtTier(Trap(q), q, ref, 2) == {p};
      assert ResolveFrom(Trap(q), q, ref, 2) == Some(p);
      assert ResolveFrom(Trap(q), q, ref, 1) == Some(p);
    }
  }

  /** Without a task parent the trap resolves nothing. */
  lemma TrapFindsNothing(q: Request)
    requires ReadsBlank(q) && q.id != "" && !IsTaskParent(q.parentId)
    ensures Resolve(Trap(q), q, Coalesce(q.subtaskOf, q.wrapId)) == None
  {
    var ref := Coalesce(q.subtaskOf, q.wrapId);
    if Truthy(ref) {
      NothingResolves(Trap(q), q, ref.value, 0);
    }
  }

  lemma {:induction false} NothingResolves(rows: Rows, q: Request, ref: string, tier: nat)
    requires forall id :: id in rows ==> !Candidate(rows, q, ref, id)
    ensures ResolveFrom(rows, q, ref, tier) == None
    decreases 6 - tier
  {
    if tier < 6 {
      assert AtTier(rows, q, ref, tier) == {};
      NothingResolves(rows, q, ref, tier + 1);
    }
  }

  lemma TrapChooses(q: Request)
    requires ReadsBlank(q) && !NamesItself(q) && q.id != ""
    ensures ChooseParent(Trap(q), q) == Ok(OrNull(q.parentId))
  {
    if IsTaskParent(q.parentId) {
      TrapFindsParent(q);
    } else {
      TrapFindsNothing(q);
    }
  }

  /** The walk starts at the named parent only, which leads nowhere. */
  lemma TrapWalkIsShort(q: Request)
    requires ReadsBlank(q) && !NamesItself(q) && q.id != ""
    requires q.localId != q.parentId || q.localId.None?
    ensures !WouldClose(Trap(q), NewRow(Trap(q), q, OrNull(q.parentId)), q.id)
  {
    var rows := Trap(q);
    var r := NewRow(rows, q, OrNull(q.parentId));
    forall a | a in rows && IsStart(rows, r, a) ensures !Closes(rows, rows.Keys - {a}, a, q.id, q.localId) {
      assert !Names(rows, a, q.id, q.localId);
      assert forall p :: !Edge(rows, a, p);
    }
  }

  lemma TrapAccepts(q: Request)
    requires ReadsBlank(q) && !NamesItself(q) && q.id != ""
    requires q.localId != q.parentId || q.localId.None?
    ensures Create(Trap(q), q) == Trap(q)[q.id := NewRow(Trap(q), q, OrNull(q.parentId))]
    ensures q.id !in Trap(q)
  {
    TrapChooses(q);
    TrapWalkIsShort(q);
  }

  /** A request that reads a blank reference, accepted in this store, closes a cycle. */
  lemma BlankReferenceClosesACycle(q: Request)
    requires ReadsBlank(q) && !NamesItself(q) && q.id != ""
    requires q.localId != q.parentId || q.localId.None?
    ensures Sound(Trap(q)) && Acyclic(Trap(q)) && AliasesApart(Create(Trap(q), q))
    ensures !Acyclic(Create(Trap(q), q))
  {
    TrapIsSound(q);
    TrapAccepts(q);
    var after, w := Create(Trap(q), q), WaitingId(q);
    assert Edge(after, q.id, w) && Edge(after, w, q.id);
    assert IsCycle(after, [q.id, w, q.id]);
  }

  // ===== Tasks with the id of a day root =====

  /** The task that the request hangs under, and a later task that will name the request's row. */
  function UpperId(q: Request): string {
    if IsTaskParent(q.parentId) then q.parentId.value
    else LongerThan(q.id, TextOf(q.localId), TextOf(FirstTruthy(q.wrapId, q.subtaskOf)), TextOf(q.parentId))
  }

  function LaterId(q: Request): string {
    LongerThan(q.id, TextOf(q.localId), TextOf(FirstTruthy(q.wrapId, q.subtaskOf)), UpperId(q))
  }

  /** The upper task already waits for the later one. */
  function Upper(q: Request): Row {
    var ref := FirstTruthy(q.wrapId, q.subtaskOf);
    Row(TaskRow, q.workspace, q.date, if ref == Some(UpperId(q)) then None else ref, Some(LaterId(q)), None, None, false)
  }

  function Later(q: Request): Request {
    Request(LaterId(q), q.workspace, q.date, None, None, None, Some(q.id))
  }

  /** The store in which a task with a day-root id does harm. */
  function IdTrap(q: Request): Rows {
    (if q.subtaskOf == Some("") && Truthy(q.parentId)
     then map[q.parentId.value := Row(DayRoot, q.workspace, q.date, None, None, None, None, false)]
     else map[])[UpperId(q) := Upper(q)]
  }

  lemma IdTrapIsSound(q: Request)
    requires PosesAsDayRoot(q) && !NamesItself(q)
    ensures Sound(IdTrap(q)) && Acyclic(IdTrap(q)) && q.id !in IdTrap(q)
  {
    NoEdgesNoCycle(IdTrap(q));
  }

  lemma IdTrapResolves(q: Request, ref: string)
    requires PosesAsDayRoot(q) && !NamesItself(q) && ref != ""
    requires Some(ref) == FirstTruthy(q.wrapId, q.subtaskOf) && q.subtaskOf != Some("")
    ensures Resolve(IdTrap(q), q, Some(ref)) == Some(UpperId(q))
  {
    var u := UpperId(q);
    if ref == u {
      RowIdResolves(IdTrap(q), q, ref);
    } else {
      assert AtTier(IdTrap(q), q, ref, 0) == {};
      assert AtTier(IdTrap(q), q, ref, 1) == {};
      assert AtTier(IdTrap(q), q, ref, 2) == {u};
      assert ResolveFrom(IdTrap(q), q, ref, 2) == Some(u);
      assert ResolveFrom(IdTrap(q), q, ref, 1) == Some(u);
    }
  }

  lemma IdTrapChooses(q: Request)
    requires PosesAsDayRoot(q) && !NamesItself(q)
    ensures ChooseParent(IdTrap(q), q) == Ok(if q.subtaskOf == Some("") then OrNull(q.parentId) else Some(UpperId(q)))
  {
    if q.subtaskOf != Some("") && FirstTruthy(q.wrapId, q.subtaskOf).Some? {
      IdTrapResolves(q, FirstTruthy(q.wrapId, q.subtaskOf).value);
    }
  }

  /** The walk meets the upper task, which leads nowhere yet. */
  lemma IdTrapWalkIsShort(q: Request, r: Row)
    requires PosesAsDayRoot(q) && !NamesItself(q)
    requires q.localId != q.parentId || q.localId.None?
    ensures !WouldClose(IdTrap(q), r.(localId := q.localId), q.id)
  {
    var rows := IdTrap(q);
    forall a | a in rows ensures !Closes(rows, rows.Keys - {a}, a, q.id, q.localId) {
      assert !Names(rows, a, q.id, q.localId);
      assert forall p :: !Edge(rows, a, p);
    }
  }

  lemma IdTrapAccepts(q: Request) returns (r: Row)
    requires PosesAsDayRoot(q) && !NamesItself(q)
    requires q.localId != q.parentId || q.localId.None?
    ensures Create(IdTrap(q), q) == IdTrap(q)[q.id := r]
    ensures r.kind == TaskRow && r.workspace == q.workspace && r.date == q.date && !r.deleted && r.localId == q.localId
    ensures RefOf(r) == if q.wrapId.None? && q.subtaskOf.None? then Some(UpperId(q)) else FirstTruthy(q.wrapId, q.subtaskOf)
  {
    IdTrapIsSound(q);
    IdTrapChooses(q);
    r := NewRow(IdTrap(q), q, ChooseParent(IdTrap(q), q).value);
    IdTrapWalkIsShort(q, r);
  }

  lemma LaterIsAccepted(q: Request, rows: Rows)
    requires IsDayRootId(q.id) && q.id in rows && LaterId(q) !in rows
    ensures Create(rows, Later(q)) == rows[LaterId(q) := Row(TaskRow, q.workspace, q.date, None, None, None, Some(q.id), false)]
    ensures !Careless(Later(q)) && LaterId(q) != ""
  {
  }

  /** Whatever its id and workspace, a task that poses as a day root is accepted in some sound store
      in which one more careful create closes a cycle through it. */
  lemma PosingAsDayRootClosesACycle(q: Request)
    requires PosesAsDayRoot(q) && !NamesItself(q)
    requires q.localId != q.parentId || q.localId.None?
    ensures Sound(IdTrap(q)) && Acyclic(IdTrap(q)) && Careful(CreateTask(Later(q)))
    ensures var after := Create(Create(IdTrap(q), q), Later(q)); AliasesApart(after) && !Acyclic(after)
  {
    IdTrapIsSound(q);
    var r := IdTrapAccepts(q);
    var rows := IdTrap(q)[q.id := r];
    LaterIsAccepted(q, rows);
    LocalIdsApart(q, r, Create(rows, Later(q)));
    ThreeRowsClose(q, r, Create(rows, Later(q)));
  }

  lemma LocalIdsApart(q: Request, r: Row, after: Rows)
    requires PosesAsDayRoot(q) && !NamesItself(q) && r.localId == q.localId
    requires q.localId != q.parentId || q.localId.None?
    requires after == IdTrap(q)[q.id := r][LaterId(q) := Row(TaskRow, q.workspace, q.date, None, None, None, Some(q.id), false)]
    ensures AliasesApart(after)
  {
  }

  lemma ThreeRowsClose(q: Request, r: Row, after: Rows)
    requires PosesAsDayRoot(q) && !NamesItself(q)
    requires r.kind == TaskRow && r.workspace == q.workspace && r.date == q.date && !r.deleted && r.localId == q.localId
    requires RefOf(r) == if q.wrapId.None? && q.subtaskOf.None? then Some(UpperId(q)) else FirstTruthy(q.wrapId, q.subtaskOf)
    requires after == IdTrap(q)[q.id := r][LaterId(q) := Row(TaskRow, q.workspace, q.date, None, None, None, Some(q.id), false)]
    requires UpperId(q) != q.id
    ensures !Acyclic(after)
  {
    var n, u := LaterId(q), UpperId(q);
    assert Edge(after, n, q.id) && Edge(after, q.id, u) && Edge(after, u, n);
    var cycle := [n, q.id, u, n];
    assert forall k :: 0 <= k < 3 ==> Edge(after, cycle[k], cycle[k + 1]);
    assert IsCycle(after, cycle);
  }

  // ===== Exactly the safe requests =====

  /** Whatever the store and whatever careful operations follow, the request brings no cycle. */
  ghost predicate AlwaysSafe(q: Request) {
    forall rows, ops ::
      Sound(rows) && Acyclic(rows) && AllCareful(ops) && AliasesApart(Run(Create(rows, q), ops)) ==>
        Acyclic(Run(Create(rows, q), ops))
  }

  /** Exactly the careful requests, and those that name themselves, are safe.  (A request whose local
      id is the id of its parent breaks the rule on aliases.) */
  lemma SafeExactlyWhenCareful(q: Request)
    requires q.id != ""
    requires q.localId != q.parentId || q.localId.None?
    ensures AlwaysSafe(q) <==> !Careless(q) || NamesItself(q)
  {
    if !Careless(q) || NamesItself(q) {
      forall rows, ops | Sound(rows) && Acyclic(rows) && AllCareful(ops) && AliasesApart(Run(Create(rows, q), ops))
        ensures Acyclic(Run(Create(rows, q), ops))
      {
        CarefulCreateIsSafe(rows, q, ops);
      }
    } else {
      CarelessIsUnsafe(q);
    }
  }

  lemma CarefulCreateIsSafe(rows: Rows, q: Request, ops: seq<Op>)
    requires Sound(rows) && Acyclic(rows) && AllCareful(ops) && AliasesApart(Run(Create(rows, q), ops))
    requires q.id != "" && (!Careless(q) || NamesItself(q))
    ensures Acyclic(Run(Create(rows, q), ops))
  {
    RunKeepsRows(Create(rows, q), ops);
    AliasesWereApart(Create(rows, q), Run(Create(rows, q), ops));
    if !NamesItself(q) {
      CreateKeepsAcyclic(rows, q);
    }
    EveryRunIsAcyclic(Create(rows, q), ops);
  }

  lemma UnsafeHere(rows: Rows, q: Request, ops: seq<Op>)
    requires Sound(rows) && Acyclic(rows) && AllCareful(ops) && AliasesApart(Run(Create(rows, q), ops))
    requires !Acyclic(Run(Create(rows, q), ops))
    ensures !AlwaysSafe(q)
  {
  }

  lemma CarelessIsUnsafe(q: Request)
    requires Careless(q) && !NamesItself(q) && q.id != ""
    requires q.localId != q.parentId || q.localId.None?
    ensures !AlwaysSafe(q)
  {
    if ReadsBlank(q) {
      BlankReferenceClosesACycle(q);
      UnsafeHere(Trap(q), q, []);
    } else {
      PosingAsDayRootClosesACycle(q);
      var rows, ops := Create(IdTrap(q), q), [CreateTask(Later(q))];
      assert ops[..0] == [];
      assert Run(rows, ops) == Create(rows, Later(q));
      UnsafeHere(IdTrap(q), q, ops);
    }
  }

  // ===== The store =====

  datatype Outcome = Created | Existing | Conflict | Missing

  class TaskStore {
    var rows: Rows

    constructor ()
      ensures rows == map[] && Sound(rows) && Acyclic(rows)
    {
      rows := map[];
      new;
      NoEdgesNoCycle(rows);
    }

    /** Creates a task row.  A taken id answers with the row that holds it. */
    method CreateBlock(q: Request) returns (outcome: Outcome)
      modifies this
      ensures rows == Create(old(rows), q)
      ensures outcome == Created <==> rows != old(rows)
      ensures outcome == Existing ==> q.id in rows && rows[q.id].workspace == q.workspace
    {
      var createsHierarchy := Truthy(q.subtaskOf) || Truthy(q.wrapId) || IsTaskParent(q.parentId);
      if NamesItself(q) {
        return Conflict;
      }
      var parentId := OrNull(q.parentId);
      var subtaskOf := q.subtaskOf;
      var ref := if q.subtaskOf.Some? then q.subtaskOf else q.wrapId;
      if ref.Some? {
        var resolved := Resolve(rows, q, ref);
        if !IsTaskParent(parentId) {
          parentId := if resolved.Some? then resolved else parentId;
        } else if resolved != parentId {
          return Conflict;
        }
      }
      if createsHierarchy && IsTaskParent(parentId) && IsLive(rows, parentId.value) {
        var parent := rows[parentId.value];
        if parent.workspace != q.workspace || parent.date != q.date || parent.kind != TaskRow {
          return Conflict;
        }
        if !Truthy(ref) {
          subtaskOf := if Truthy(parent.localId) then parent.localId else parentId;
        }
      }
      var r := Row(TaskRow, q.workspace, q.date, q.localId, q.wrapId, subtaskOf, parentId, false);
      assert r == NewRow(rows, q, parentId);
      if createsHierarchy {
        if Truthy(q.wrapId) && Truthy(subtaskOf) {
          return Conflict;
        }
        if WouldClose(rows, r, q.id) {
          return Conflict;
        }
      }
      if q.id in rows {
        return if rows[q.id].workspace == q.workspace then Existing else Missing;
      }
      if parentId.Some? && parentId.value !in rows {
        return Conflict;
      }
      rows := rows[q.id := r];
      return Created;
    }

    method DeleteBlock(id: string)
      modifies this
      ensures rows == SoftDelete(old(rows), id)
    {
      if id in rows {
        rows := rows[id := rows[id].(deleted := true)];
      }
    }
  }
}
