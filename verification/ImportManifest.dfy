/** Validation of a reviewed import (project-store.js): size and field checks, then a
    depth-first search with a set of tasks being visited and a set of finished tasks.

    `Validator.ValidateImportManifest` accepts exactly the manifests whose items refer to items of the
    manifest only and never in a circle; the finished set, in insertion order, is a topological
    order. */
module ImportManifest {

  import opened Options

  /** `idIsStable`: the id is non-empty and equal to its cleaned form; `hasTitle`: the cleaned
      title is non-empty.  A missing parent or an empty reference is the empty string. */
  datatype Item = Item(tempId: string, idIsStable: bool, hasTitle: bool,
                       dependsOn: seq<string>, parentTempId: string)

  /** `None` where the source finds something that is not a list. */
  datatype Manifest = Manifest(version: int, items: Option<seq<Item>>, facets: Option<seq<Option<nat>>>)

  datatype Reason =
    | NotReviewed | WrongCount | TooManyFacets | TooManyValues | UnstableId | MissingTitle
    | UnknownReference | SelfReference | Cyclic

  datatype Verdict = Accepted | Rejected(reason: Reason)

  type Graph = map<string, seq<string>>

  function NonEmpty(refs: seq<string>): (r: seq<string>)
    ensures forall x :: x in r <==> x in refs && x != ""
  {
    if refs == [] then []
    else (if refs[0] == "" then [] else [refs[0]]) + NonEmpty(refs[1..])
  }

  /** What a task must come after: its dependencies, then its parent. */
  function References(item: Item): seq<string> {
    NonEmpty(item.dependsOn + [item.parentTempId])
  }

  /** The references of the first n items, by id. */
  function Indexed(items: seq<Item>, n: nat): Graph
    requires n <= |items|
  {
    if n == 0 then map[] else Indexed(items, n - 1)[items[n - 1].tempId := References(items[n - 1])]
  }

  function GraphOf(items: seq<Item>): Graph {
    Indexed(items, |items|)
  }

  // ----- What acceptance should mean -----

  ghost predicate SizesHold(m: Manifest) {
    && m.version == 1
    && m.items.Some? && 1 <= |m.items.value| <= 5000
    && m.facets.Some? && |m.facets.value| <= 50
    && forall k :: 0 <= k < |m.facets.value| ==> FacetFits(m.facets.value[k])
  }

  predicate FacetFits(facet: Option<nat>) {
    facet.Some? && facet.value <= 1000
  }

  ghost predicate FieldsHold(items: seq<Item>) {
    && (forall k :: 0 <= k < |items| ==> items[k].idIsStable && items[k].hasTitle)
    && DistinctIds(items)
  }

  /** An item refers to an id: as a dependency or as its parent. */
  predicate RefersTo(item: Item, id: string) {
    id != "" && (id in item.dependsOn || id == item.parentTempId)
  }

  /** Every id that an item refers to is the id of some item. */
  ghost predicate ReferencesExist(items: seq<Item>) {
    forall k, id :: 0 <= k < |items| && RefersTo(items[k], id) ==> HasId(items, id)
  }

  ghost predicate HasId(items: seq<Item>, id: string) {
    exists j :: 0 <= j < |items| && items[j].tempId == id
  }

  /** Each next item is a dependency or the parent of the one before. */
  ghost predicate IsChain(items: seq<Item>, path: seq<nat>) {
    && path != []
    && (forall i :: 0 <= i < |path| ==> path[i] < |items|)
    && (forall i :: 0 <= i < |path| - 1 ==> RefersTo(items[path[i]], items[path[i + 1]].tempId))
  }

  ghost predicate IsCircle(items: seq<Item>, path: seq<nat>) {
    IsChain(items, path) && |path| >= 2 && path[0] == path[|path| - 1]
  }

  /** No way from an item over dependencies and parents leads back to it. */
  ghost predicate NothingComesBack(items: seq<Item>) {
    forall path :: !IsCircle(items, path)
  }

  /** What the import promises to accept. */
  ghost predicate Importable(m: Manifest) {
    && SizesHold(m)
    && FieldsHold(m.items.value)
    && ReferencesExist(m.items.value)
    && NothingComesBack(m.items.value)
  }

  ghost predicate DistinctIds(items: seq<Item>) {
    forall i, j :: 0 <= i < j < |items| ==> items[i].tempId != items[j].tempId
  }

  ghost predicate Closed(g: Graph) {
    forall id, ref :: id in g && ref in g[id] ==> ref in g
  }

  ghost predicate IsWalk(g: Graph, p: seq<string>) {
    && p != []
    && forall i :: 0 <= i < |p| - 1 ==> p[i] in g && p[i + 1] in g[p[i]]
  }

  ghost predicate IsCycle(g: Graph, p: seq<string>) {
    IsWalk(g, p) && |p| >= 2 && p[0] == p[|p| - 1]
  }

  ghost predicate Acyclic(g: Graph) {
    forall p :: !IsCycle(g, p)
  }

  /** Every task comes after everything it refers to. */
  ghost predicate Topological(g: Graph, order: seq<string>) {
    forall k :: 0 <= k < |order| ==>
      order[k] in g && forall ref :: ref in g[order[k]] ==> ref in order[..k]
  }

  // ----- A topological order of all tasks rules out dangling references and cycles -----

  function Position(order: seq<string>, id: string): (k: nat)
    requires id in order
    ensures k < |order| && order[k] == id
    ensures forall j :: 0 <= j < |order| && order[j] == id ==> k <= j
  {
    if order[0] == id then 0 else 1 + Position(order[1..], id)
  }

  /** The first position of a task lies after the first position of what it refers to. */
  lemma ReferenceComesFirst(g: Graph, order: seq<string>, id: string, ref: string)
    requires Topological(g, order)
    requires id in order && id in g && ref in g[id]
    ensures ref in order && Position(order, ref) < Position(order, id)
  {
    var k := Position(order, id);
    assert ref in order[..k];
    var j :| 0 <= j < k && order[..k][j] == ref;
    assert order[j] == ref;
  }

  lemma {:induction false} WalkGoesDown(g: Graph, order: seq<string>, p: seq<string>)
    requires Topological(g, order) && IsWalk(g, p) && p[0] in order
    ensures p[|p| - 1] in order
    ensures |p| >= 2 ==> Position(order, p[|p| - 1]) < Position(order, p[0])
    decreases |p|
  {
    if |p| >= 2 {
      ReferenceComesFirst(g, order, p[0], p[1]);
      assert IsWalk(g, p[1..]);
      WalkGoesDown(g, order, p[1..]);
    }
  }

  lemma OrderedGraphIsSound(g: Graph, order: seq<string>)
    requires Topological(g, order)
    requires forall id :: id in g ==> id in order
    ensures Closed(g) && Acyclic(g)
  {
    forall id, ref | id in g && ref in g[id] ensures ref in g {
      ReferenceComesFirst(g, order, id, ref);
      var k := Position(order, ref);
    }
    forall p ensures !IsCycle(g, p) {
      if IsCycle(g, p) {
        WalkGoesDown(g, order, p);
      }
    }
  }

  /** A walk that comes back to one of its own tasks holds a cycle. */
  lemma ReturningWalkHoldsCycle(g: Graph, p: seq<string>, k: nat)
    requires IsWalk(g, p) && k < |p| - 1 && p[k] == p[|p| - 1]
    ensures !Acyclic(g)
  {
    assert IsCycle(g, p[k..]);
  }

  /** Some item among the first n has this id. */
  ghost predicate Listed(items: seq<Item>, n: nat, id: string)
    requires n <= |items|
  {
    exists i :: 0 <= i < n && items[i].tempId == id
  }

  lemma {:induction false} IndexKnowsTheListed(items: seq<Item>, n: nat, id: string)
    requires n <= |items|
    ensures id in Indexed(items, n) <==> Listed(items, n, id)
  {
    if n > 0 {
      IndexKnowsTheListed(items, n - 1, id);
    }
  }

  // ----- The index and the items -----

  lemma ReferencesAreRead(item: Item, id: string)
    ensures id in References(item) <==> RefersTo(item, id)
  {
  }

  /** While ids are distinct, the index holds the references of every item. */
  lemma {:induction false} IndexHoldsItem(items: seq<Item>, n: nat, k: nat)
    requires k < n <= |items| && DistinctIds(items)
    ensures items[k].tempId in Indexed(items, n) && Indexed(items, n)[items[k].tempId] == References(items[k])
  {
    if k < n - 1 {
      IndexHoldsItem(items, n - 1, k);
    }
  }

  lemma IdIsIndexed(items: seq<Item>, id: string)
    ensures id in GraphOf(items) <==> HasId(items, id)
  {
    IndexKnowsTheListed(items, |items|, id);
    if HasId(items, id) {
      var j :| 0 <= j < |items| && items[j].tempId == id;
      assert Listed(items, |items|, id);
    }
  }

  lemma EdgeOfItem(items: seq<Item>, k: nat, id: string)
    requires k < |items| && DistinctIds(items)
    ensures items[k].tempId in GraphOf(items) && (id in GraphOf(items)[items[k].tempId] <==> RefersTo(items[k], id))
  {
    IndexHoldsItem(items, |items|, k);
    ReferencesAreRead(items[k], id);
  }

  lemma ClosedMeansExisting(items: seq<Item>)
    requires DistinctIds(items)
    ensures Closed(GraphOf(items)) <==> ReferencesExist(items)
  {
    var g := GraphOf(items);
    if Closed(g) {
      forall k, id | 0 <= k < |items| && RefersTo(items[k], id) ensures HasId(items, id) {
        EdgeOfItem(items, k, id);
        IdIsIndexed(items, id);
      }
    }
    if ReferencesExist(items) {
      forall id, ref | id in g && ref in g[id] ensures ref in g {
        IdIsIndexed(items, id);
        var k :| 0 <= k < |items| && items[k].tempId == id;
        EdgeOfItem(items, k, ref);
        IdIsIndexed(items, ref);
      }
    }
  }

  /** A circle of items is a cycle of their ids. */
  lemma CircleIsCycle(items: seq<Item>, path: seq<nat>)
    requires DistinctIds(items) && IsCircle(items, path)
    ensures !Acyclic(GraphOf(items))
  {
    var p := seq(|path|, i requires 0 <= i < |path| => items[path[i]].tempId);
    forall i | 0 <= i < |p| - 1 ensures p[i] in GraphOf(items) && p[i + 1] in GraphOf(items)[p[i]] {
      EdgeOfItem(items, path[i], p[i + 1]);
    }
    assert IsCycle(GraphOf(items), p);
  }

  ghost function ItemOf(items: seq<Item>, id: string): (k: nat)
    requires HasId(items, id)
    ensures k < |items| && items[k].tempId == id
  {
    var k :| 0 <= k < |items| && items[k].tempId == id;
    k
  }

  /** A cycle of ids is a circle of items. */
  lemma CycleIsCircle(items: seq<Item>, p: seq<string>)
    requires DistinctIds(items) && IsCycle(GraphOf(items), p)
    ensures !NothingComesBack(items)
  {
    forall i | 0 <= i < |p| ensures HasId(items, p[i]) {
      IdIsIndexed(items, p[i]);
      assert i == |p| - 1 ==> p[i] == p[0];
    }
    var path: seq<nat> := seq(|p|, i requires 0 <= i < |p| => ItemOf(items, p[i]));
    forall i | 0 <= i < |path| - 1 ensures RefersTo(items[path[i]], items[path[i + 1]].tempId) {
      EdgeOfItem(items, path[i], p[i + 1]);
    }
    assert IsCircle(items, path);
  }

  lemma AcyclicMeansNoCircle(items: seq<Item>)
    requires DistinctIds(items)
    ensures Acyclic(GraphOf(items)) <==> NothingComesBack(items)
  {
    if !NothingComesBack(items) {
      var path :| IsCircle(items, path);
      CircleIsCycle(items, path);
    }
    if !Acyclic(GraphOf(items)) {
      var p :| IsCycle(GraphOf(items), p);
      CycleIsCircle(items, p);
    }
  }

  lemma SelfEdgeIsCircle(items: seq<Item>, id: string)
    requires DistinctIds(items) && id in GraphOf(items) && id in GraphOf(items)[id]
    ensures exists k :: 0 <= k < |items| && RefersTo(items[k], items[k].tempId)
  {
    IdIsIndexed(items, id);
    var k := ItemOf(items, id);
    EdgeOfItem(items, k, id);
  }

  class Validator {
    var byId: Graph
    var visiting: set<string>
    var visited: seq<string>

    constructor ()
      ensures byId == map[] && visiting == {} && visited == []
    {
      byId, visiting, visited := map[], {}, [];
    }

    /** Visits one task.  `stack` is the chain of tasks now being visited. */
    method Visit(id: string, ghost stack: seq<string>) returns (error: Option<Reason>)
      requires id in byId
      requires IsWalk(byId, stack + [id])
      requires visiting == set x | x in stack
      requires Topological(byId, visited)
      modifies this`visiting, this`visited
      ensures error.None? ==>
                visiting == old(visiting) && old(visited) <= visited && id in visited && Topological(byId, visited)
      ensures error == Some(Cyclic) ==> !Acyclic(byId)
      ensures error == Some(UnknownReference) ==> !Closed(byId)
      ensures error == Some(SelfReference) ==> exists x :: x in byId && x in byId[x]
      ensures error.Some? ==> error.value in {Cyclic, UnknownReference, SelfReference}
      decreases byId.Keys - visiting
    {
      if id in visited {
        return None;
      }
      if id in visiting {
        ghost var k :| 0 <= k < |stack| && stack[k] == id;
        ReturningWalkHoldsCycle(byId, stack + [id], k);
        return Some(Cyclic);
      }
      visiting := visiting + {id};
      ghost var chain := stack + [id];
      assert forall x :: x in chain <==> x in stack || x == id;
      var refs := byId[id];
      for n := 0 to |refs|
        invariant visiting == set x | x in chain
        invariant Topological(byId, visited) && old(visited) <= visited
        invariant forall j :: 0 <= j < n ==> refs[j] in visited
      {
        var ref := refs[n];
        assert ref in byId[id];
        if ref !in byId {
          return Some(UnknownReference);
        }
        if ref == id {
          return Some(SelfReference);
        }
        assert IsWalk(byId, chain + [ref]);
        ghost var before := visited;
        error := Visit(ref, chain);
        if error.Some? {
          return error;
        }
        assert forall j :: 0 <= j < n ==> refs[j] in before && refs[j] in visited;
      }
      visiting := visiting - {id};
      ghost var before := visited;
      visited := visited + [id];
      assert forall k :: 0 <= k < |before| ==> visited[..k] == before[..k];
      assert visited[..|before|] == before;
      assert visited[|before|] == id;
      error := None;
    }

    method CheckSizes(manifest: Manifest) returns (error: Option<Reason>)
      ensures error.None? <==> SizesHold(manifest)
      ensures error.Some? ==> error.value in {NotReviewed, WrongCount, TooManyFacets, TooManyValues}
    {
      if manifest.version != 1 || manifest.items.None? {
        return Some(NotReviewed);
      }
      if manifest.items.value == [] || |manifest.items.value| > 5000 {
        return Some(WrongCount);
      }
      if manifest.facets.None? || |manifest.facets.value| > 50 {
        return Some(TooManyFacets);
      }
      var facets := manifest.facets.value;
      for n := 0 to |facets|
        invariant forall k :: 0 <= k < n ==> FacetFits(facets[k])
      {
        if !FacetFits(facets[n]) {
          return Some(TooManyValues);
        }
      }
      return None;
    }

    /** Fills `byId`, the tasks by id. */
    method IndexItems(items: seq<Item>) returns (error: Option<Reason>)
      requires byId == map[]
      modifies this`byId
      ensures error.None? <==> FieldsHold(items)
      ensures error.None? ==> byId == GraphOf(items)
      ensures error.Some? ==> error.value in {UnstableId, MissingTitle}
    {
      for n := 0 to |items|
        invariant forall k :: 0 <= k < n ==> items[k].idIsStable && items[k].hasTitle
        invariant forall i, j :: 0 <= i < j < n ==> items[i].tempId != items[j].tempId
        invariant byId == Indexed(items, n)
      {
        var item := items[n];
        IndexKnowsTheListed(items, n, item.tempId);
        if !item.idIsStable || item.tempId in byId {
          return Some(UnstableId);
        }
        if !item.hasTitle {
          return Some(MissingTitle);
        }
        byId := byId[item.tempId := References(item)];
      }
      return None;
    }

    method VisitAll(items: seq<Item>) returns (error: Option<Reason>)
      requires FieldsHold(items) && byId == GraphOf(items)
      requires visiting == {} && visited == []
      modifies this`visiting, this`visited
      ensures error.None? <==> Closed(byId) && Acyclic(byId)
      ensures error.None? ==> Topological(byId, visited) && forall id :: id in byId ==> id in visited
      ensures error == Some(Cyclic) ==> !Acyclic(byId)
      ensures error == Some(UnknownReference) ==> !Closed(byId)
      ensures error == Some(SelfReference) ==> exists x :: x in byId && x in byId[x]
      ensures error.Some? ==> error.value in {Cyclic, UnknownReference, SelfReference}
    {
      for n := 0 to |items|
        invariant visiting == {} && Topological(byId, visited)
        invariant forall k :: 0 <= k < n ==> items[k].tempId in visited
      {
        IndexKnowsTheListed(items, |items|, items[n].tempId);
        ghost var before := visited;
        error := Visit(items[n].tempId, []);
        if error.Some? {
          if error.value == SelfReference {
            ghost var x :| x in byId && x in byId[x];
            assert IsCycle(byId, [x, x]);
          }
          return;
        }
        assert forall k :: 0 <= k < n ==> items[k].tempId in before && items[k].tempId in visited;
      }
      forall id | id in byId ensures id in visited {
        IndexKnowsTheListed(items, |items|, id);
      }
      OrderedGraphIsSound(byId, visited);
      error := None;
    }

    method ValidateImportManifest(manifest: Manifest) returns (verdict: Verdict)
      requires byId == map[] && visiting == {} && visited == []
      modifies this
      ensures verdict.Accepted? <==> Importable(manifest)
      ensures verdict.Accepted? ==> Topological(byId, visited) && forall id :: id in byId ==> id in visited
      ensures verdict.Rejected? && verdict.reason in {Cyclic, UnknownReference, SelfReference} ==>
                && SizesHold(manifest) && FieldsHold(manifest.items.value)
                && (verdict.reason == Cyclic ==> !NothingComesBack(manifest.items.value))
                && (verdict.reason == UnknownReference ==> !ReferencesExist(manifest.items.value))
                && (verdict.reason == SelfReference ==>
                      exists k :: 0 <= k < |manifest.items.value|
                        && RefersTo(manifest.items.value[k], manifest.items.value[k].tempId))
      ensures verdict.Rejected? && verdict.reason in {UnstableId, MissingTitle} ==>
                SizesHold(manifest) && !FieldsHold(manifest.items.value)
      ensures verdict.Rejected? && verdict.reason in {NotReviewed, WrongCount, TooManyFacets, TooManyValues} ==>
                !SizesHold(manifest)
    {
      var error := CheckSizes(manifest);
      if error.Some? {
        return Rejected(error.value);
      }
      error := IndexItems(manifest.items.value);
      if error.Some? {
        return Rejected(error.value);
      }
      ClosedMeansExisting(manifest.items.value);
      AcyclicMeansNoCircle(manifest.items.value);
      error := VisitAll(manifest.items.value);
      if error.Some? {
        if error.value == SelfReference {
          ghost var x :| x in byId && x in byId[x];
          SelfEdgeIsCircle(manifest.items.value, x);
        }
        return Rejected(error.value);
      }
      return Accepted;
    }
  }
}
