/** Templates read from top to bottom (responsibility-store.js): clamping keeps the first 200 nodes
    of that reading, and an occurrence has one row for each node, timed by those before it. */
module TemplateVisits {
  import opened Options
  import opened RepeatTemplate

  // ===== Reading a tree from top to bottom =====

  datatype Visit = Visit(node: Node, depth: nat)

  /** A node and everything below it, parents first. */
  function Visits(n: Node, depth: nat): (v: seq<Visit>)
    ensures |v| == Size(n)
    decreases n, 1
  {
    [Visit(n, depth)] + VisitsAll(n.children, depth + 1)
  }

  function VisitsAll(ns: seq<Node>, depth: nat): (v: seq<Visit>)
    ensures |v| == SizeAll(ns)
    decreases ns, 0
  {
    if ns == [] then [] else VisitsAll(ns[..|ns| - 1], depth) + Visits(ns[|ns| - 1], depth)
  }

  datatype RawVisit = RawVisit(node: Raw, depth: nat)

  /** The objects of a tree as it arrives, down to the sixth level. */
  function RawVisits(n: Raw, depth: nat): seq<RawVisit>
    decreases n, 1
  {
    if n.NoObject? || depth > 6 then [] else [RawVisit(n, depth)] + RawVisitsAll(n.children, depth + 1)
  }

  function RawVisitsAll(ns: seq<Raw>, depth: nat): seq<RawVisit>
    decreases ns, 0
  {
    if ns == [] then [] else RawVisitsAll(ns[..|ns| - 1], depth) + RawVisits(ns[|ns| - 1], depth)
  }

  // ===== What clamping keeps =====

  /** One node is the other with its fields clamped. */
  predicate IsCleaned(raw: Raw, n: Node, isRoot: bool) {
    && raw.Raw?
    && n.title == (if |raw.title| <= 300 then raw.title else raw.title[..300])
    && n.detail == (if |raw.detail| <= 2000 then raw.detail else raw.detail[..2000])
    && n.priority == (if raw.priority == None then Medium else raw.priority.value)
    && n.guidedId == raw.guidedId
    && (raw.guidedId.Some? ==> n.kind == "guided")
    && (raw.guidedId.None? && (isRoot || raw.kind == "") ==> n.kind == "task")
    && (raw.guidedId.None? && !isRoot && raw.kind != "" ==> n.kind == raw.kind)
    && (isRoot ==> n.place == Root(raw.occurrenceAnchor || raw.kind == "shell"))
    && (!isRoot ==> n.place.Step? && n.place.edge == raw.edge && LastsAsAsked(raw.minutes, n.place.durationMin))
  }

  /** Half an hour where nothing is asked for, and between a minute and a day. */
  predicate LastsAsAsked(minutes: Option<int>, durationMin: int) {
    match minutes
    case None => durationMin == 30
    case Some(asked) =>
      if asked <= 0 then durationMin == 1 else if asked >= 1440 then durationMin == 1440 else durationMin == asked
  }

  /** The first nodes of a reading, as many as there is room for, with clamped fields. */
  ghost predicate AreFirst(v: seq<Visit>, raws: seq<RawVisit>, room: int) {
    && |v| == (if room <= 0 then 0 else if |raws| <= room then |raws| else room)
    && forall k :: 0 <= k < |v| ==> v[k].depth == raws[k].depth && IsCleaned(raws[k].node, v[k].node, raws[k].depth == 0)
  }

  lemma FirstJoins(v: seq<Visit>, w: seq<Visit>, raws: seq<RawVisit>, more: seq<RawVisit>, room: int)
    requires AreFirst(v, raws, room) && AreFirst(w, more, room - |raws|)
    ensures AreFirst(v + w, raws + more, room)
  {
  }

  function KeptVisits(kept: Option<Node>, depth: nat): seq<Visit> {
    if kept.None? then [] else Visits(kept.value, depth)
  }

  /** The count has gone up by this many nodes, as far as the limit. */
  predicate CountsTo(counted: nat, count: nat, n: nat) {
    if count + n <= 200 then counted == count + n else counted >= 200
  }

  lemma {:induction false} NodeCounts(n: Raw, depth: nat, count: nat)
    requires depth <= 6
    ensures CountsTo(CountNode(n, depth, count), count, |RawVisits(n, depth)|)
    decreases n, 1
  {
    if n.Raw? && depth < 6 {
      AllCount(n.children, depth + 1, count + 1);
    } else if n.Raw? {
      NothingBelow(n.children);
    }
  }

  lemma {:induction false} AllCount(ns: seq<Raw>, depth: nat, count: nat)
    requires 1 <= depth <= 6
    ensures CountsTo(CountAll(ns, depth, count), count, |RawVisitsAll(ns, depth)|)
    decreases ns, 0
  {
    if ns != [] {
      AllCount(ns[..|ns| - 1], depth, count);
      NodeCounts(ns[|ns| - 1], depth, CountAll(ns[..|ns| - 1], depth, count));
    }
  }

  lemma {:induction false} NothingBelow(ns: seq<Raw>)
    ensures RawVisitsAll(ns, 7) == []
    decreases ns
  {
    if ns != [] {
      NothingBelow(ns[..|ns| - 1]);
    }
  }

  lemma RootJoins(n: Raw, children: seq<Node>, depth: nat, below: seq<RawVisit>, room: int)
    requires n.Raw? && room > 0 && AreFirst(VisitsAll(children, depth + 1), below, room - 1)
    ensures AreFirst(Visits(Cleaned(n, depth == 0, children), depth), [RawVisit(n, depth)] + below, room)
  {
    var root := Cleaned(n, depth == 0, children);
    FirstJoins([Visit(root, depth)], VisitsAll(children, depth + 1), [RawVisit(n, depth)], below, room);
  }

  /** A node that is kept, with what is kept of its children. */
  lemma KeptNode(n: Raw, depth: nat, count: nat, children: seq<Node>, below: seq<RawVisit>)
    requires n.Raw? && count < 200 && depth <= 6
    requires children == if depth < 6 then KeepAll(n.children, depth + 1, count + 1) else []
    requires below == RawVisitsAll(n.children, depth + 1) && AreFirst(VisitsAll(children, depth + 1), below, 200 - count - 1)
    ensures AreFirst(KeptVisits(KeepNode(n, depth, depth == 0, count), depth), RawVisits(n, depth), 200 - count)
  {
    RootJoins(n, children, depth, below, 200 - count);
    assert KeepNode(n, depth, depth == 0, count) == Some(Cleaned(n, depth == 0, children));
    assert RawVisits(n, depth) == [RawVisit(n, depth)] + below;
  }

  lemma DroppedNode(n: Raw, depth: nat, count: nat)
    requires n.NoObject? || count >= 200
    ensures AreFirst(KeptVisits(KeepNode(n, depth, depth == 0, count), depth), RawVisits(n, depth), 200 - count)
  {
    assert KeepNode(n, depth, depth == 0, count) == None;
  }

  /** What a node keeps when `count` nodes have come before it. */
  lemma {:induction false} NodeKeepsFirst(n: Raw, depth: nat, count: nat)
    requires depth <= 6
    ensures AreFirst(KeptVisits(KeepNode(n, depth, depth == 0, count), depth), RawVisits(n, depth), 200 - count)
    decreases n, 1
  {
    if n.NoObject? || count >= 200 {
      DroppedNode(n, depth, count);
    } else if depth < 6 {
      AllKeepFirst(n.children, depth + 1, count + 1);
      KeptNode(n, depth, count, KeepAll(n.children, depth + 1, count + 1), RawVisitsAll(n.children, depth + 1));
    } else {
      NothingBelow(n.children);
      KeptNode(n, depth, count, [], []);
    }
  }

  lemma {:induction false} AllKeepFirst(ns: seq<Raw>, depth: nat, count: nat)
    requires 1 <= depth <= 6
    ensures AreFirst(VisitsAll(KeepAll(ns, depth, count), depth), RawVisitsAll(ns, depth), 200 - count)
    decreases ns, 0
  {
    if ns != [] {
      var front, last := ns[..|ns| - 1], ns[|ns| - 1];
      var count' := CountAll(front, depth, count);
      AllKeepFirst(front, depth, count);
      AllCount(front, depth, count);
      NodeKeepsFirst(last, depth, count');
      var kept, one := KeepAll(front, depth, count), KeepNode(last, depth, false, count');
      RoomLeft(KeptVisits(one, depth), RawVisits(last, depth), count, count', |RawVisitsAll(front, depth)|);
      FirstJoins(VisitsAll(kept, depth), KeptVisits(one, depth), RawVisitsAll(front, depth), RawVisits(last, depth), 200 - count);
      OneMoreVisited(kept, one, depth);
    }
  }

  lemma RoomLeft(v: seq<Visit>, raws: seq<RawVisit>, count: nat, count': nat, n: nat)
    requires CountsTo(count', count, n) && AreFirst(v, raws, 200 - count')
    ensures AreFirst(v, raws, 200 - count - n)
  {
  }

  lemma OneMoreVisited(ns: seq<Node>, n: Option<Node>, depth: nat)
    ensures VisitsAll(WithKept(ns, n), depth) == VisitsAll(ns, depth) + KeptVisits(n, depth)
  {
    if n.Some? {
      assert (ns + [n.value])[..|ns|] == ns;
    }
  }

  /** A template is refused if and only if there is none, its root is no object, or the root has no
      title.  Otherwise clamping keeps exactly the first 200 objects down to the sixth level, in
      place and with clamped fields. */
  lemma ClampKeepsTheFirst(tree: Option<Raw>)
    ensures var t := NormalizeTree(tree);
            && (t.None? <==> tree.None? || tree.value.NoObject? || tree.value.title == "")
            && (t.Some? ==> AreFirst(Visits(t.value, 0), RawVisits(tree.value, 0), 200))
  {
    if tree.Some? {
      NodeKeepsFirst(tree.value, 0, 0);
    }
  }

  // ===== What an occurrence shows =====

  /** Minutes of a visited step that are added to the day: none for the root and for subtasks. */
  function Minutes(v: Visit): int {
    if v.node.place.Step? && v.node.place.edge == Wrap then v.node.place.durationMin else 0
  }

  function MinutesBefore(v: seq<Visit>, k: nat): int
    requires k <= |v|
  {
    if k == 0 then 0 else MinutesBefore(v, k - 1) + Minutes(v[k - 1])
  }

  /** The parent of a visited node: the last one before it that is one level higher. */
  predicate ParentIs(v: seq<Visit>, k: nat, p: nat)
    requires k < |v|
  {
    p < k && v[p].depth + 1 == v[k].depth && forall j :: p < j < k ==> v[j].depth >= v[k].depth
  }

  /** The row of a step that starts `cursor` minutes after midnight under this parent.  Steps of the
      top level and subtasks have no time of their own. */
  predicate Shows(row: TaskRow, v: Visit, cursor: int, parent: nat) {
    && v.node.place.Step?
    && row.title == v.node.title && row.duration == v.node.place.durationMin
    && (v.depth == 1 ==> row.relation == TopLevel && row.start == None && row.end == None)
    && (v.depth != 1 && v.node.place.edge == Subtask ==> row.relation == SubtaskOf(parent) && row.start == None && row.end == None)
    && (v.depth != 1 && v.node.place.edge == Wrap ==>
          row.relation == RideAlong(parent) && IsTimed(row, cursor))
  }

  /** The row starts at the cursor and ends after its duration. */
  predicate IsTimed(row: TaskRow, cursor: int) {
    && row.start.Some? && HhmmToMinutes(row.start.value) == cursor % 1440
    && row.end.Some? && HhmmToMinutes(row.end.value) == (cursor % 1440 + row.duration) % 1440
  }

  /** The k-th row shows the k-th visit: those on the highest level under `parent`, any other under
      the row of its parent, and each timed by the steps before it. */
  ghost predicate RowFollows(rows: seq<TaskRow>, v: seq<Visit>, k: nat, depth: nat, cursor: int, parent: nat, index: nat)
    requires k < |rows| == |v|
  {
    && v[k].depth >= depth
    && (v[k].depth == depth ==> Shows(rows[k], v[k], cursor + MinutesBefore(v, k), parent))
    && (v[k].depth > depth ==> exists p :: ParentIs(v, k, p) && Shows(rows[k], v[k], cursor + MinutesBefore(v, k), index + p))
  }

  ghost predicate RowsFollow(rows: seq<TaskRow>, v: seq<Visit>, depth: nat, cursor: int, parent: nat, index: nat) {
    |rows| == |v| && forall k :: 0 <= k < |v| ==> RowFollows(rows, v, k, depth, cursor, parent, index)
  }

  lemma {:induction false} MinutesJoin(v: seq<Visit>, w: seq<Visit>, k: nat)
    requires k <= |v| + |w|
    ensures MinutesBefore(v + w, k) == if k <= |v| then MinutesBefore(v, k) else MinutesBefore(v, |v|) + MinutesBefore(w, k - |v|)
  {
    if k > 0 {
      MinutesJoin(v, w, k - 1);
    }
  }

  lemma {:induction false} TotalIsMinutes(n: Node, depth: nat)
    requires IsClean(n, false)
    ensures Total(n) == MinutesBefore(Visits(n, depth), |Visits(n, depth)|)
    decreases n, 1
  {
    var below := VisitsAll(n.children, depth + 1);
    TotalAllIsMinutes(n.children, depth + 1);
    MinutesJoin([Visit(n, depth)], below, 1 + |below|);
    assert MinutesBefore([Visit(n, depth)], 1) == Minutes(Visit(n, depth));
  }

  lemma {:induction false} TotalAllIsMinutes(ns: seq<Node>, depth: nat)
    requires AllClean(ns)
    ensures TotalAll(ns) == MinutesBefore(VisitsAll(ns, depth), |VisitsAll(ns, depth)|)
    decreases ns, 0
  {
    if ns != [] {
      var front, last := ns[..|ns| - 1], ns[|ns| - 1];
      TotalAllIsMinutes(front, depth);
      TotalIsMinutes(last, depth);
      MinutesJoin(VisitsAll(front, depth), Visits(last, depth), |VisitsAll(ns, depth)|);
    }
  }

  lemma EarlierRowFollows(rows: seq<TaskRow>, more: seq<TaskRow>, v: seq<Visit>, w: seq<Visit>, k: nat,
                          depth: nat, cursor: int, parent: nat, index: nat)
    requires |rows| == |v| && |more| == |w| && k < |v| && RowFollows(rows, v, k, depth, cursor, parent, index)
    ensures RowFollows(rows + more, v + w, k, depth, cursor, parent, index)
  {
    MinutesJoin(v, w, k);
    if v[k].depth > depth {
      var p: nat :| ParentIs(v, k, p) && Shows(rows[k], v[k], cursor + MinutesBefore(v, k), index + p);
      assert ParentIs(v + w, k, p);
    }
  }

  lemma LaterParent(v: seq<Visit>, w: seq<Visit>, k: nat, p: nat)
    requires k < |w| && ParentIs(w, k, p)
    ensures ParentIs(v + w, |v| + k, |v| + p)
  {
  }

  lemma LaterRowFollows(rows: seq<TaskRow>, more: seq<TaskRow>, v: seq<Visit>, w: seq<Visit>, k: nat,
                        depth: nat, cursor: int, parent: nat, index: nat)
    requires |rows| == |v| && |more| == |w| && k < |w|
    requires RowFollows(more, w, k, depth, cursor + MinutesBefore(v, |v|), parent, index + |v|)
    ensures RowFollows(rows + more, v + w, |v| + k, depth, cursor, parent, index)
  {
    MinutesJoin(v, w, |v| + k);
    if w[k].depth > depth {
      var p: nat :| ParentIs(w, k, p) && Shows(more[k], w[k], cursor + MinutesBefore(v, |v|) + MinutesBefore(w, k), index + |v| + p);
      LaterParent(v, w, k, p);
      assert Shows((rows + more)[|v| + k], (v + w)[|v| + k], cursor + MinutesBefore(v + w, |v| + k), index + (|v| + p));
    }
  }

  lemma FollowJoins(rows: seq<TaskRow>, more: seq<TaskRow>, v: seq<Visit>, w: seq<Visit>,
                    depth: nat, cursor: int, parent: nat, index: nat)
    requires RowsFollow(rows, v, depth, cursor, parent, index)
    requires RowsFollow(more, w, depth, cursor + MinutesBefore(v, |v|), parent, index + |v|)
    ensures RowsFollow(rows + more, v + w, depth, cursor, parent, index)
  {
    forall k | 0 <= k < |v + w| ensures RowFollows(rows + more, v + w, k, depth, cursor, parent, index) {
      if k < |v| {
        EarlierRowFollows(rows, more, v, w, k, depth, cursor, parent, index);
      } else {
        LaterRowFollows(rows, more, v, w, k - |v|, depth, cursor, parent, index);
      }
    }
  }

  /** A row below another one, seen from that one. */
  lemma RowBelowFollows(row: TaskRow, rows: seq<TaskRow>, first: Visit, v: seq<Visit>, k: nat, cursor: int, parent: nat, index: nat)
    requires |rows| == |v| && k < |v|
    requires forall j :: 0 <= j < |v| ==> v[j].depth > first.depth
    requires RowFollows(rows, v, k, first.depth + 1, cursor + Minutes(first), index, index + 1)
    ensures RowFollows([row] + rows, [first] + v, k + 1, first.depth, cursor, parent, index)
  {
    MinutesJoin([first], v, k + 1);
    assert MinutesBefore([first], 1) == Minutes(first);
    var p: nat;
    if v[k].depth == first.depth + 1 {
      p := 0;
    } else {
      var q: nat :| ParentIs(v, k, q) && Shows(rows[k], v[k], cursor + Minutes(first) + MinutesBefore(v, k), index + 1 + q);
      p := q + 1;
    }
    assert ParentIs([first] + v, k + 1, p);
    assert Shows(([row] + rows)[k + 1], ([first] + v)[k + 1], cursor + MinutesBefore([first] + v, k + 1), index + p);
  }

  lemma EndOfDay(start: int, duration: int)
    ensures HhmmToMinutes(MinutesToHhmm(HhmmToMinutes(MinutesToHhmm(start)) + duration)) == (start % 1440 + duration) % 1440
  {
    ClockRoundTrip(start);
    ClockRoundTrip(start % 1440 + duration);
  }

  lemma TimesAreShown(row: TaskRow, cursor: int)
    requires row.start == Some(MinutesToHhmm(cursor))
    requires row.end == Some(MinutesToHhmm(HhmmToMinutes(MinutesToHhmm(cursor)) + row.duration))
    ensures IsTimed(row, cursor)
  {
    ClockRoundTrip(cursor);
    EndOfDay(cursor, row.duration);
  }

  lemma StepFields(n: Node, cursor: int, depth: nat, parent: nat)
    requires HasCleanFields(n, false)
    ensures var row := StepRow(n, cursor, depth, parent);
            && row.title == n.title && row.duration == n.place.durationMin
            && (depth != 1 && n.place.edge == Wrap ==>
                  && row.start == Some(MinutesToHhmm(cursor))
                  && row.end == Some(MinutesToHhmm(HhmmToMinutes(MinutesToHhmm(cursor)) + row.duration))
                  && row.relation == RideAlong(parent))
  {
  }

  lemma StepShows(n: Node, cursor: int, depth: nat, parent: nat)
    requires HasCleanFields(n, false)
    ensures Shows(StepRow(n, cursor, depth, parent), Visit(n, depth), cursor, parent)
  {
    StepFields(n, cursor, depth, parent);
    if depth != 1 && n.place.edge == Wrap {
      TimesAreShown(StepRow(n, cursor, depth, parent), cursor);
    }
  }

  lemma {:induction false} RowsOfFollow(n: Node, cursor: int, depth: nat, parent: nat, index: nat)
    requires IsClean(n, false)
    ensures RowsFollow(RowsOf(n, cursor, depth, parent, index), Visits(n, depth), depth, cursor, parent, index)
    decreases n, 1
  {
    var first, below := Visit(n, depth), VisitsAll(n.children, depth + 1);
    var row, rows := StepRow(n, cursor, depth, parent), RowsOfAll(n.children, cursor + Own(n), depth + 1, index, index + 1);
    StepShows(n, cursor, depth, parent);
    RowsOfAllFollow(n.children, cursor + Own(n), depth + 1, index, index + 1);
    FollowFirst(row, rows, first, below, cursor, parent, index);
  }

  lemma FollowFirst(row: TaskRow, rows: seq<TaskRow>, first: Visit, v: seq<Visit>, cursor: int, parent: nat, index: nat)
    requires Shows(row, first, cursor, parent)
    requires RowsFollow(rows, v, first.depth + 1, cursor + Minutes(first), index, index + 1)
    ensures RowsFollow([row] + rows, [first] + v, first.depth, cursor, parent, index)
  {
    forall j | 0 <= j < |v| ensures v[j].depth > first.depth {
      assert RowFollows(rows, v, j, first.depth + 1, cursor + Minutes(first), index, index + 1);
    }
    forall k | 0 <= k < |v| + 1 ensures RowFollows([row] + rows, [first] + v, k, first.depth, cursor, parent, index) {
      if k > 0 {
        RowBelowFollows(row, rows, first, v, k - 1, cursor, parent, index);
      }
    }
  }

  lemma {:induction false} RowsOfAllFollow(ns: seq<Node>, cursor: int, depth: nat, parent: nat, index: nat)
    requires AllClean(ns)
    ensures RowsFollow(RowsOfAll(ns, cursor, depth, parent, index), VisitsAll(ns, depth), depth, cursor, parent, index)
    decreases ns, 0
  {
    if ns != [] {
      var front, last := ns[..|ns| - 1], ns[|ns| - 1];
      RowsOfAllFollow(front, cursor, depth, parent, index);
      RowsOfFollow(last, cursor + TotalAll(front), depth, parent, index + SizeAll(front));
      TotalAllIsMinutes(front, depth);
      FollowJoins(RowsOfAll(front, cursor, depth, parent, index),
                  RowsOf(last, cursor + TotalAll(front), depth, parent, index + SizeAll(front)),
                  VisitsAll(front, depth), Visits(last, depth), depth, cursor, parent, index);
    }
  }

  /** An occurrence of a template is laid out if and only if its steps end by midnight.  Its first row
      stands for the whole, from the start for as long as the steps take; every other row shows the
      step visited there, under the row of its parent, and starts when the timed steps before it end. */
  lemma OccurrenceShowsTheTemplate(tree: Option<Raw>, p: Plain, start: Clock)
    requires NormalizeTree(tree).Some?
    ensures var v := VisitsAll(NormalizeTree(tree).value.children, 1);
            var begin, total := HhmmToMinutes(start), MinutesBefore(v, |v|);
            var rows := RowsFor(NormalizeTree(tree), p, start);
            && (rows.Some? <==> begin + total <= 1440)
            && (rows.Some? ==>
                  && |rows.value| == 1 + |v|
                  && IsAnchor(rows.value[0], NormalizeTree(tree).value.title, start, total)
                  && RowsFollow(rows.value[1..], v, 1, begin, 0, 1))
  {
    ClampedTreeIsBounded(tree);
    var children := NormalizeTree(tree).value.children;
    TotalAllIsMinutes(children, 1);
    RowsOfAllFollow(children, HhmmToMinutes(start), 1, 0, 1);
    ClockRoundTrip(HhmmToMinutes(start) + TotalAll(children));
  }

  predicate IsAnchor(row: TaskRow, title: string, start: Clock, total: int) {
    && row.title == title && row.duration == total && row.relation == Anchor && row.start == Some(start)
    && row.end.Some? && HhmmToMinutes(row.end.value) == (HhmmToMinutes(start) + total) % 1440
  }
}
