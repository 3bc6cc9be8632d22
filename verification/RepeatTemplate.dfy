/** Saved templates of repeating work (responsibility-store.js): clamping a template tree,
    checking that it fits the day, and laying it out as task rows of one occurrence. */
module RepeatTemplate {
  import opened Options

  const MAX_NODES := 200
  const MAX_DEPTH := 6

  // ===== Clock times =====

  /** A text of the form HH:MM, or any other text. */
  datatype Clock = Hhmm(h: nat, m: nat) | NotATime

  /** Minutes since midnight; anything not of the form HH:MM counts as midnight. */
  function HhmmToMinutes(c: Clock): nat {
    match c
    case Hhmm(h, m) => h * 60 + m
    case NotATime => 0
  }

  function MinutesToHhmm(mins: int): Clock {
    var m := mins % 1440;
    Hhmm(m / 60, m % 60)
  }

  lemma ClockRoundTrip(mins: int)
    ensures HhmmToMinutes(MinutesToHhmm(mins)) == mins % 1440
  {
  }

  // ===== Templates before and after clamping =====

  datatype Priority = High | Medium | Low

  datatype Edge = Wrap | Subtask

  /** A template node as it arrives.  A text that is missing or of another type is empty, an
      unknown priority is `None`, and so is a guided id that is missing or not of its form.
      `minutes` is the duration rounded to a whole number, `None` when it is missing, zero or
      not a number. */
  datatype Raw =
    | NoObject
    | Raw(title: string, kind: string, priority: Option<Priority>, detail: string, guidedId: Option<string>,
          occurrenceAnchor: bool, edge: Edge, minutes: Option<int>, children: seq<Raw>)

  datatype Place = Root(occurrenceAnchor: bool) | Step(edge: Edge, durationMin: int)

  datatype Node = Node(title: string, kind: string, priority: Priority, detail: string, guidedId: Option<string>,
                       place: Place, children: seq<Node>)

  function Clipped(s: string, max: nat): (r: string)
    ensures |r| <= max && (|s| <= max ==> r == s)
  {
    if |s| <= max then s else s[..max]
  }

  function ClampedDuration(minutes: Option<int>): (d: int)
    ensures 1 <= d <= 1440
  {
    if minutes.None? then 30 else if minutes.value < 1 then 1 else if minutes.value > 1440 then 1440 else minutes.value
  }

  /** The fields of a kept node. */
  function Cleaned(n: Raw, isRoot: bool, children: seq<Node>): Node
    requires n.Raw?
  {
    Node(Clipped(n.title, 300),
         if n.guidedId.Some? then "guided" else if isRoot || n.kind == "" then "task" else n.kind,
         if n.priority.Some? then n.priority.value else Medium,
         Clipped(n.detail, 2000),
         n.guidedId,
         if isRoot then Root(n.occurrenceAnchor || n.kind == "shell") else Step(n.edge, ClampedDuration(n.minutes)),
         children)
  }

  /** The count of nodes seen, after a node that found it at `count`. */
  function CountNode(n: Raw, depth: nat, count: nat): nat
    decreases n, 1
  {
    if n.NoObject? then count
    else if count + 1 > MAX_NODES || depth >= MAX_DEPTH then count + 1
    else CountAll(n.children, depth + 1, count + 1)
  }

  function CountAll(ns: seq<Raw>, depth: nat, count: nat): nat
    decreases ns, 0
  {
    if ns == [] then count
    else CountNode(ns[|ns| - 1], depth, CountAll(ns[..|ns| - 1], depth, count))
  }

  /** The clamped node; `None` drops it with everything below. */
  function KeepNode(n: Raw, depth: nat, isRoot: bool, count: nat): Option<Node>
    decreases n, 1
  {
    if n.NoObject? || count + 1 > MAX_NODES then None
    else Some(Cleaned(n, isRoot, if depth < MAX_DEPTH then KeepAll(n.children, depth + 1, count + 1) else []))
  }

  function KeepAll(ns: seq<Raw>, depth: nat, count: nat): seq<Node>
    decreases ns, 0
  {
    if ns == [] then []
    else WithKept(KeepAll(ns[..|ns| - 1], depth, count),
                  KeepNode(ns[|ns| - 1], depth, false, CountAll(ns[..|ns| - 1], depth, count)))
  }

  function WithKept(ns: seq<Node>, n: Option<Node>): seq<Node> {
    if n.Some? then ns + [n.value] else ns
  }

  function NormalizeTree(tree: Option<Raw>): Option<Node> {
    if tree.None? then None
    else
      var root := KeepNode(tree.value, 0, true, 0);
      if root.None? || root.value.title == "" then None else root
  }

  // ----- Size, depth and form of a clamped tree -----

  function Size(n: Node): nat
    decreases n, 1
  {
    1 + SizeAll(n.children)
  }

  function SizeAll(ns: seq<Node>): nat
    decreases ns, 0
  {
    if ns == [] then 0 else SizeAll(ns[..|ns| - 1]) + Size(ns[|ns| - 1])
  }

  /** The tree reaches no deeper than `levels` below this node. */
  predicate FitsIn(n: Node, levels: int)
    decreases n, 1
  {
    levels >= 0 && AllFitIn(n.children, levels - 1)
  }

  predicate AllFitIn(ns: seq<Node>, levels: int)
    decreases ns, 0
  {
    ns == [] || (AllFitIn(ns[..|ns| - 1], levels) && FitsIn(ns[|ns| - 1], levels))
  }

  predicate HasCleanFields(n: Node, isRoot: bool) {
    && |n.title| <= 300 && |n.detail| <= 2000 && n.kind != ""
    && (n.guidedId.Some? ==> n.kind == "guided")
    && match n.place
       case Root(_) => isRoot && (n.guidedId.None? ==> n.kind == "task")
       case Step(_, durationMin) => !isRoot && 1 <= durationMin <= 1440
  }

  predicate IsClean(n: Node, isRoot: bool)
    decreases n, 1
  {
    HasCleanFields(n, isRoot) && AllClean(n.children)
  }

  predicate AllClean(ns: seq<Node>)
    decreases ns, 0
  {
    ns == [] || (AllClean(ns[..|ns| - 1]) && IsClean(ns[|ns| - 1], false))
  }

  function Capped(count: nat): nat {
    if count <= MAX_NODES then count else MAX_NODES
  }

  lemma OneMore(ns: seq<Node>, n: Node)
    ensures SizeAll(ns + [n]) == SizeAll(ns) + Size(n)
    ensures AllClean(ns + [n]) <==> AllClean(ns) && IsClean(n, false)
    ensures forall levels :: AllFitIn(ns + [n], levels) <==> AllFitIn(ns, levels) && FitsIn(n, levels)
  {
    assert (ns + [n])[..|ns|] == ns;
  }

  /** A node that is kept is clean, within the depth left, and counted. */
  lemma {:induction false} NodeIsClamped(n: Raw, depth: nat, isRoot: bool, count: nat)
    requires depth <= MAX_DEPTH
    ensures count <= CountNode(n, depth, count)
    ensures var kept := KeepNode(n, depth, isRoot, count);
            kept.Some? ==>
              && IsClean(kept.value, isRoot) && FitsIn(kept.value, MAX_DEPTH - depth)
              && Size(kept.value) <= Capped(CountNode(n, depth, count)) - Capped(count)
    decreases n, 1
  {
    if n.Raw? && count + 1 <= MAX_NODES && depth < MAX_DEPTH {
      AllAreClamped(n.children, depth + 1, count + 1);
    }
  }

  lemma {:induction false} AllAreClamped(ns: seq<Raw>, depth: nat, count: nat)
    requires depth <= MAX_DEPTH
    ensures count <= CountAll(ns, depth, count)
    ensures var kept := KeepAll(ns, depth, count);
            && AllClean(kept) && AllFitIn(kept, MAX_DEPTH - depth)
            && SizeAll(kept) <= Capped(CountAll(ns, depth, count)) - Capped(count)
    decreases ns, 0
  {
    if ns != [] {
      var front, last := ns[..|ns| - 1], ns[|ns| - 1];
      var count' := CountAll(front, depth, count);
      AllAreClamped(front, depth, count);
      NodeIsClamped(last, depth, false, count');
      var kept := KeepNode(last, depth, false, count');
      if kept.Some? {
        OneMore(KeepAll(front, depth, count), kept.value);
      }
    }
  }

  /** A clamped template has at most 200 nodes, reaches at most 6 levels down, and is titled. */
  lemma ClampedTreeIsBounded(tree: Option<Raw>)
    ensures var t := NormalizeTree(tree);
            t.Some? ==> Size(t.value) <= 200 && FitsIn(t.value, 6) && IsClean(t.value, true) && t.value.title != ""
  {
    if tree.Some? {
      NodeIsClamped(tree.value, 0, true, 0);
    }
  }

  // ----- Clamping twice -----

  /** A clean node as input. */
  function Reread(n: Node): Raw
    decreases n, 1
  {
    Raw(n.title, n.kind, Some(n.priority), n.detail, n.guidedId,
        n.place.Root? && n.place.occurrenceAnchor,
        if n.place.Step? then n.place.edge else Wrap,
        if n.place.Step? then Some(n.place.durationMin) else None,
        RereadAll(n.children))
  }

  function RereadAll(ns: seq<Node>): (r: seq<Raw>)
    ensures |r| == |ns|
    decreases ns, 0
  {
    if ns == [] then [] else RereadAll(ns[..|ns| - 1]) + [Reread(ns[|ns| - 1])]
  }

  lemma CleaningKeepsClean(n: Node, isRoot: bool)
    requires HasCleanFields(n, isRoot)
    ensures Cleaned(Reread(n), isRoot, n.children) == n
  {
  }

  lemma NothingFitsBelow(ns: seq<Node>)
    ensures AllFitIn(ns, -1) ==> ns == []
  {
    if ns != [] {
      assert !FitsIn(ns[|ns| - 1], -1);
    }
  }

  /** A clean tree within the limits is kept as it is and counted in full. */
  lemma {:induction false} CleanNodeIsKept(n: Node, depth: nat, isRoot: bool, count: nat)
    requires IsClean(n, isRoot) && depth <= MAX_DEPTH && FitsIn(n, MAX_DEPTH - depth) && count + Size(n) <= MAX_NODES
    ensures KeepNode(Reread(n), depth, isRoot, count) == Some(n)
    ensures CountNode(Reread(n), depth, count) == count + Size(n)
    decreases n, 1
  {
    NothingFitsBelow(n.children);
    if depth < MAX_DEPTH {
      CleanNodesAreKept(n.children, depth + 1, count + 1);
    }
    NodeIsKeptWithChildren(n, depth, isRoot, count);
  }

  lemma NodeIsKeptWithChildren(n: Node, depth: nat, isRoot: bool, count: nat)
    requires HasCleanFields(n, isRoot) && count + 1 + SizeAll(n.children) <= MAX_NODES
    requires if depth < MAX_DEPTH
             then KeepAll(RereadAll(n.children), depth + 1, count + 1) == n.children
                  && CountAll(RereadAll(n.children), depth + 1, count + 1) == count + 1 + SizeAll(n.children)
             else n.children == []
    ensures KeepNode(Reread(n), depth, isRoot, count) == Some(n)
    ensures CountNode(Reread(n), depth, count) == count + Size(n)
  {
    CleaningKeepsClean(n, isRoot);
  }

  lemma {:induction false} CleanNodesAreKept(ns: seq<Node>, depth: nat, count: nat)
    requires depth <= MAX_DEPTH && count + SizeAll(ns) <= MAX_NODES
    requires AllClean(ns) && AllFitIn(ns, MAX_DEPTH - depth)
    ensures KeepAll(RereadAll(ns), depth, count) == ns
    ensures CountAll(RereadAll(ns), depth, count) == count + SizeAll(ns)
    decreases ns, 0
  {
    if ns != [] {
      var front, last := ns[..|ns| - 1], ns[|ns| - 1];
      CleanNodesAreKept(front, depth, count);
      CleanNodeIsKept(last, depth, false, count + SizeAll(front));
      OneMoreIsKept(front, last, depth, count);
      LastIsAppended(ns);
    }
  }

  lemma LastIsAppended<T>(s: seq<T>)
    requires s != []
    ensures s[..|s| - 1] + [s[|s| - 1]] == s
  {
  }

  lemma OneMoreIsKept(front: seq<Node>, last: Node, depth: nat, count: nat)
    requires KeepAll(RereadAll(front), depth, count) == front
    requires CountAll(RereadAll(front), depth, count) == count + SizeAll(front)
    requires KeepNode(Reread(last), depth, false, count + SizeAll(front)) == Some(last)
    requires CountNode(Reread(last), depth, count + SizeAll(front)) == count + SizeAll(front) + Size(last)
    ensures KeepAll(RereadAll(front + [last]), depth, count) == front + [last]
    ensures CountAll(RereadAll(front + [last]), depth, count) == count + SizeAll(front) + Size(last)
  {
    assert (front + [last])[..|front|] == front;
    var raws := RereadAll(front) + [Reread(last)];
    assert raws[..|front|] == RereadAll(front);
  }

  /** Clamping a clamped template changes nothing. */
  lemma ClampingIsIdempotent(tree: Option<Raw>)
    ensures var t := NormalizeTree(tree);
            t.Some? ==> NormalizeTree(Some(Reread(t.value))) == t
  {
    ClampedTreeIsBounded(tree);
    var t := NormalizeTree(tree);
    if t.Some? {
      CleanNodeIsKept(t.value, 0, true, 0);
    }
  }

  /** The recursion over one mutable counter. */
  class Clamper {
    var count: nat

    constructor ()
      ensures count == 0
    {
      count := 0;
    }

    method Visit(n: Raw, depth: nat, isRoot: bool) returns (kept: Option<Node>)
      modifies this
      ensures kept == KeepNode(n, depth, isRoot, old(count))
      ensures count == CountNode(n, depth, old(count))
      decreases n
    {
      if n.NoObject? {
        return None;
      }
      count := count + 1;
      if count > MAX_NODES {
        return None;
      }
      var children := [];
      if depth < MAX_DEPTH {
        ghost var begin := count;
        for k := 0 to |n.children|
          invariant children == KeepAll(n.children[..k], depth + 1, begin)
          invariant count == CountAll(n.children[..k], depth + 1, begin)
        {
          assert n.children[..k + 1][..k] == n.children[..k];
          var child := Visit(n.children[k], depth + 1, false);
          children := WithKept(children, child);
        }
        assert n.children[..|n.children|] == n.children;
      }
      return Some(Cleaned(n, isRoot, children));
    }
  }

  method NormalizeTemplateTree(tree: Option<Raw>) returns (t: Option<Node>)
    ensures t == NormalizeTree(tree)
  {
    if tree.None? {
      return None;
    }
    var clamper := new Clamper();
    t := clamper.Visit(tree.value, 0, true);
    if t.Some? && t.value.title == "" {
      t := None;
    }
  }

  // ===== The time a template takes =====

  /** Minutes a node adds to the cursor by itself: nothing for the root and for subtasks. */
  function Own(n: Node): int {
    if n.place.Step? && n.place.edge.Wrap? then (if n.place.durationMin < 1 then 1 else n.place.durationMin) else 0
  }

  function Total(n: Node): int
    decreases n, 1
  {
    Own(n) + TotalAll(n.children)
  }

  function TotalAll(ns: seq<Node>): int
    decreases ns, 0
  {
    if ns == [] then 0 else TotalAll(ns[..|ns| - 1]) + Total(ns[|ns| - 1])
  }

  lemma {:induction false} TotalIsNatural(n: Node)
    ensures Total(n) >= Own(n) >= 0
    decreases n, 1
  {
    TotalAllIsNatural(n.children);
  }

  lemma {:induction false} TotalAllIsNatural(ns: seq<Node>)
    ensures TotalAll(ns) >= 0
    decreases ns, 0
  {
    if ns != [] {
      TotalAllIsNatural(ns[..|ns| - 1]);
      TotalIsNatural(ns[|ns| - 1]);
    }
  }

  /** How long an occurrence is said to take. */
  function CheckedDuration(template: Option<Node>, plainDuration: int): int {
    if template.Some? then Total(template.value) else plainDuration
  }

  /** The save-time check: the duration is 1 to 1440 minutes and no start time crosses midnight. */
  predicate BoundsHold(template: Option<Node>, plainDuration: int, times: seq<Clock>) {
    var duration := CheckedDuration(template, plainDuration);
    1 <= duration <= 1440 && forall t :: t in times ==> HhmmToMinutes(t) + duration <= 1440
  }

  method ValidateScheduledTaskBounds(tree: Option<Raw>, plainDuration: int, times: seq<Clock>) returns (ok: bool)
    ensures ok <==> BoundsHold(NormalizeTree(tree), plainDuration, times)
  {
    var template := NormalizeTemplateTree(tree);
    var duration := if template.Some? then Total(template.value) else plainDuration;
    if duration < 1 || duration > 1440 {
      return false;
    }
    for k := 0 to |times|
      invariant forall i :: 0 <= i < k ==> HhmmToMinutes(times[i]) + duration <= 1440
    {
      if HhmmToMinutes(times[k]) + duration > 1440 {
        return false;
      }
    }
    return true;
  }

  // ===== Laying out one occurrence =====

  datatype Relation = Anchor | Whole | TopLevel | SubtaskOf(parent: nat) | RideAlong(parent: nat)

  /** A generated row; rows are numbered in creation order and name their parent by number. */
  datatype TaskRow = TaskRow(title: string, duration: int, start: Option<Clock>, end: Option<Clock>, relation: Relation)

  /** The row of one step, at this cursor and depth. */
  function StepRow(n: Node, cursor: int, depth: nat, parent: nat): TaskRow {
    var duration := if n.place.Step? then (if n.place.durationMin < 1 then 1 else n.place.durationMin) else 0;
    if depth == 1 then TaskRow(n.title, duration, None, None, TopLevel)
    else if n.place.Step? && n.place.edge.Subtask? then TaskRow(n.title, duration, None, None, SubtaskOf(parent))
    else
      var start := MinutesToHhmm(cursor);
      TaskRow(n.title, duration, Some(start), Some(MinutesToHhmm(HhmmToMinutes(start) + duration)), RideAlong(parent))
  }

  /** The rows of a step and everything below it, the first one numbered `index`. */
  function RowsOf(n: Node, cursor: int, depth: nat, parent: nat, index: nat): (rows: seq<TaskRow>)
    ensures |rows| == Size(n)
    decreases n, 1
  {
    [StepRow(n, cursor, depth, parent)] + RowsOfAll(n.children, cursor + Own(n), depth + 1, index, index + 1)
  }

  function RowsOfAll(ns: seq<Node>, cursor: int, depth: nat, parent: nat, index: nat): (rows: seq<TaskRow>)
    ensures |rows| == SizeAll(ns)
    decreases ns, 0
  {
    if ns == [] then []
    else
      var front := ns[..|ns| - 1];
      RowsOfAll(front, cursor, depth, parent, index)
      + RowsOf(ns[|ns| - 1], cursor + TotalAll(front), depth, parent, index + SizeAll(front))
  }

  /** A row with a start and an end, inside the given minutes. */
  ghost predicate StartsWithin(r: TaskRow, from: int, to: int) {
    r.start.Some? ==> r.duration >= 1 && from <= HhmmToMinutes(r.start.value) && HhmmToMinutes(r.start.value) + r.duration <= to
  }

  /** The first of two rows ends before the second starts. */
  ghost predicate Before(r: TaskRow, q: TaskRow) {
    r.start.Some? && q.start.Some? ==> HhmmToMinutes(r.start.value) + r.duration <= HhmmToMinutes(q.start.value)
  }

  ghost predicate InOrder(rows: seq<TaskRow>, from: int, to: int) {
    && (forall i :: 0 <= i < |rows| ==> StartsWithin(rows[i], from, to))
    && (forall i, j :: 0 <= i < j < |rows| ==> Before(rows[i], rows[j]))
  }

  lemma InOrderJoins(a: seq<TaskRow>, b: seq<TaskRow>, from: int, mid: int, to: int)
    requires from <= mid <= to && InOrder(a, from, mid) && InOrder(b, mid, to)
    ensures InOrder(a + b, from, to)
  {
    forall i, j | 0 <= i < j < |a + b| ensures Before((a + b)[i], (a + b)[j]) {
      if i < |a| <= j {
        assert StartsWithin(a[i], from, mid) && StartsWithin(b[j - |a|], mid, to);
      }
    }
    forall i | 0 <= i < |a + b| ensures StartsWithin((a + b)[i], from, to) {
      assert i < |a| ==> StartsWithin(a[i], from, mid);
      assert i >= |a| ==> StartsWithin(b[i - |a|], mid, to);
    }
  }

  lemma StepRowTakesItsTime(n: Node, cursor: int, depth: nat, parent: nat)
    requires IsClean(n, false) && 0 <= cursor && cursor + Own(n) <= 1440
    ensures StartsWithin(StepRow(n, cursor, depth, parent), cursor, cursor + Own(n))
  {
    TimedStep(n, cursor, depth, parent);
    StartsAt(StepRow(n, cursor, depth, parent), cursor, Own(n));
  }

  lemma TimedStep(n: Node, cursor: int, depth: nat, parent: nat)
    requires IsClean(n, false)
    ensures var r := StepRow(n, cursor, depth, parent);
            r.start.Some? ==> r.start.value == MinutesToHhmm(cursor) && r.duration == Own(n) >= 1
  {
  }

  lemma StartsAt(r: TaskRow, cursor: int, own: int)
    requires r.start.Some? ==> r.start.value == MinutesToHhmm(cursor) && r.duration == own >= 1
    requires 0 <= cursor && cursor + own <= 1440
    ensures StartsWithin(r, cursor, cursor + own)
  {
    if r.start.Some? {
      ClockRoundTrip(cursor);
    }
  }

  /** The timed rows below a node follow each other and stay within its own time. */
  lemma {:induction false} RowsAreInOrder(n: Node, cursor: int, depth: nat, parent: nat, index: nat)
    requires IsClean(n, false) && 0 <= cursor && cursor + Total(n) <= 1440
    ensures InOrder(RowsOf(n, cursor, depth, parent, index), cursor, cursor + Total(n))
    decreases n, 1
  {
    TotalIsNatural(n);
    TotalAllIsNatural(n.children);
    AllRowsAreInOrder(n.children, cursor + Own(n), depth + 1, index, index + 1);
    var first := [StepRow(n, cursor, depth, parent)];
    StepRowTakesItsTime(n, cursor, depth, parent);
    InOrderJoins(first, RowsOfAll(n.children, cursor + Own(n), depth + 1, index, index + 1),
                 cursor, cursor + Own(n), cursor + Total(n));
  }

  lemma {:induction false} AllRowsAreInOrder(ns: seq<Node>, cursor: int, depth: nat, parent: nat, index: nat)
    requires AllClean(ns)
    requires 0 <= cursor && cursor + TotalAll(ns) <= 1440
    ensures InOrder(RowsOfAll(ns, cursor, depth, parent, index), cursor, cursor + TotalAll(ns))
    decreases ns, 0
  {
    if ns != [] {
      var front, last := ns[..|ns| - 1], ns[|ns| - 1];
      TotalAllIsNatural(front);
      TotalIsNatural(last);
      AllRowsAreInOrder(front, cursor, depth, parent, index);
      RowsAreInOrder(last, cursor + TotalAll(front), depth, parent, index + SizeAll(front));
      InOrderJoins(RowsOfAll(front, cursor, depth, parent, index),
                   RowsOf(last, cursor + TotalAll(front), depth, parent, index + SizeAll(front)),
                   cursor, cursor + TotalAll(front), cursor + TotalAll(ns));
    }
  }

  lemma PrefixStep(ns: seq<Node>, k: nat, cursor: int, depth: nat, parent: nat, index: nat)
    requires k < |ns|
    ensures RowsOfAll(ns[..k + 1], cursor, depth, parent, index)
         == RowsOfAll(ns[..k], cursor, depth, parent, index)
            + RowsOf(ns[k], cursor + TotalAll(ns[..k]), depth, parent, index + SizeAll(ns[..k]))
    ensures TotalAll(ns[..k + 1]) == TotalAll(ns[..k]) + Total(ns[k])
  {
    var upTo := ns[..k + 1];
    assert upTo[..k] == ns[..k] && upTo[k] == ns[k];
  }

  /** The rows of an occurrence under construction, with the moving cursor. */
  class Occurrence {
    var rows: seq<TaskRow>
    var cursor: int

    constructor (startMin: int)
      ensures rows == [] && cursor == startMin
    {
      rows, cursor := [], startMin;
    }

    method AppendNode(n: Node, depth: nat, parent: nat)
      modifies this
      ensures rows == old(rows) + RowsOf(n, old(cursor), depth, parent, |old(rows)|)
      ensures cursor == old(cursor) + Total(n)
      decreases n, 1
    {
      ghost var before := rows;
      var index := |rows|;
      var row := StepRow(n, cursor, depth, parent);
      if n.place.Step? && n.place.edge.Wrap? {
        cursor := cursor + row.duration;
      }
      rows := rows + [row];
      ghost var below := RowsOfAll(n.children, cursor, depth + 1, index, index + 1);
      AppendAll(n.children, depth + 1, index);
      Reassociate(before, [row], below);
    }

    method AppendAll(ns: seq<Node>, depth: nat, parent: nat)
      modifies this
      ensures rows == old(rows) + RowsOfAll(ns, old(cursor), depth, parent, |old(rows)|)
      ensures cursor == old(cursor) + TotalAll(ns)
      decreases ns, 0
    {
      ghost var before, begin, index, added := rows, cursor, |rows|, [];
      for k := 0 to |ns|
        invariant added == RowsOfAll(ns[..k], begin, depth, parent, index)
        invariant rows == before + added
        invariant cursor == begin + TotalAll(ns[..k])
      {
        PrefixStep(ns, k, begin, depth, parent, index);
        ghost var next := RowsOf(ns[k], cursor, depth, parent, |rows|);
        AppendNode(ns[k], depth, parent);
        Reassociate(before, added, next);
        added := added + next;
      }
      WholePrefix(ns);
    }
  }

  lemma WholePrefix<T>(s: seq<T>)
    ensures s[..|s|] == s
  {
  }

  lemma Reassociate<T>(a: seq<T>, b: seq<T>, c: seq<T>)
    ensures (a + b) + c == a + (b + c)
  {
  }

  /** The rows of one occurrence of a templated repeat; `None` is the midnight error. */
  function OccurrenceRows(template: Node, start: Clock): Option<seq<TaskRow>> {
    var startMin := HhmmToMinutes(start);
    var elapsed := TotalAll(template.children);
    if startMin + elapsed > 1440 then None
    else
      Some([AnchorRow(template.title, start, elapsed)]
           + RowsOfAll(template.children, startMin, 1, 0, 1))
  }

  /** The first row stands for the whole occurrence. */
  function AnchorRow(title: string, start: Clock, elapsed: int): TaskRow {
    TaskRow(title, elapsed, Some(start), Some(MinutesToHhmm(HhmmToMinutes(start) + elapsed)), Anchor)
  }

  method LayOut(root: Node, startMin: int, anchor: TaskRow) returns (rows: seq<TaskRow>, cursor: int)
    ensures rows == [anchor] + RowsOfAll(root.children, startMin, 1, 0, 1)
    ensures cursor == startMin + TotalAll(root.children)
  {
    var occurrence := new Occurrence(startMin);
    occurrence.rows := [anchor];
    occurrence.AppendAll(root.children, 1, 0);
    return occurrence.rows, occurrence.cursor;
  }

  lemma ReplaceFirst<T>(x: T, y: T, rest: seq<T>)
    ensures ([x] + rest)[0 := y] == [y] + rest
  {
  }

  /** A repeat without a template: one task, with the titles of its default subtasks. */
  datatype Plain = Plain(title: string, duration: int, subtasks: seq<string>)

  function PlainRows(p: Plain, start: Clock): (rows: seq<TaskRow>)
    ensures |rows| == 1 + |p.subtasks|
  {
    [TaskRow(p.title, p.duration, Some(start), Some(MinutesToHhmm(HhmmToMinutes(start) + p.duration)), Whole)]
    + seq(|p.subtasks|, k requires 0 <= k < |p.subtasks| =>
        TaskRow(p.subtasks[k], 0, Some(start), Some(start), SubtaskOf(0)))
  }

  /** The rows of one occurrence; only a template can meet the midnight error. */
  function RowsFor(template: Option<Node>, p: Plain, start: Clock): Option<seq<TaskRow>> {
    if template.None? then Some(PlainRows(p, start)) else OccurrenceRows(template.value, start)
  }

  method ScheduledRowsForOccurrence(tree: Option<Raw>, p: Plain, start: Clock) returns (rows: Option<seq<TaskRow>>)
    ensures rows == RowsFor(NormalizeTree(tree), p, start)
  {
    var template := NormalizeTemplateTree(tree);
    var startMin := HhmmToMinutes(start);
    if template.None? {
      var root := TaskRow(p.title, p.duration, Some(start), Some(MinutesToHhmm(startMin + p.duration)), Whole);
      var children := seq(|p.subtasks|, k requires 0 <= k < |p.subtasks| =>
        TaskRow(p.subtasks[k], 0, Some(start), Some(start), SubtaskOf(0)));
      return Some([root] + children);
    }
    var root := template.value;
    var anchor := AnchorRow(root.title, start, 0);
    var laid, cursor := LayOut(root, startMin, anchor);
    TotalAllIsNatural(root.children);
    var elapsed := if cursor - startMin > 0 then cursor - startMin else 0;
    if startMin + elapsed > 1440 {
      return None;
    }
    ReplaceFirst(anchor, AnchorRow(root.title, start, elapsed), RowsOfAll(root.children, startMin, 1, 0, 1));
    return Some(laid[0 := AnchorRow(root.title, start, elapsed)]);
  }

  /** A repeat that passed the save-time check never meets the midnight error at one of the rule's
      own times: the occurrence lasts exactly the checked duration and ends by midnight, and the timed
      steps of a template follow each other inside it without overlapping. */
  lemma CheckedOccurrenceFitsItsDay(tree: Option<Raw>, p: Plain, times: seq<Clock>, start: Clock)
    requires BoundsHold(NormalizeTree(tree), p.duration, times) && start in times
    ensures var t, duration := NormalizeTree(tree), CheckedDuration(NormalizeTree(tree), p.duration);
            var rows := RowsFor(t, p, start);
            && rows.Some? && rows.value != []
            && rows.value[0].start == Some(start) && rows.value[0].duration == duration
            && HhmmToMinutes(start) + duration <= 1440
            && (t.Some? ==> |rows.value| == Size(t.value)
                            && InOrder(rows.value[1..], HhmmToMinutes(start), HhmmToMinutes(start) + duration))
  {
    ClampedTreeIsBounded(tree);
    var t := NormalizeTree(tree);
    if t.Some? {
      AllRowsAreInOrder(t.value.children, HhmmToMinutes(start), 1, 0, 1);
    }
  }

  /** The check is exact for templates: it refuses a rule if and only if the template takes no time or
      more than a day, or some time of the rule meets the midnight error. */
  lemma CheckRefusesExactlyTheErrors(tree: Option<Raw>, p: Plain, times: seq<Clock>)
    requires NormalizeTree(tree).Some?
    ensures var t := NormalizeTree(tree);
            !BoundsHold(t, p.duration, times) <==>
              || Total(t.value) < 1 || Total(t.value) > 1440
              || exists start :: start in times && RowsFor(t, p, start).None?
  {
    ClampedTreeIsBounded(tree);
    var t := NormalizeTree(tree);
    forall start | start in times
      ensures RowsFor(t, p, start).None? <==> HhmmToMinutes(start) + Total(t.value) > 1440
    {
      assert Own(t.value) == 0;
    }
  }

  lemma EndWraps(mins: int)
    requires 0 <= mins < 2880
    ensures HhmmToMinutes(MinutesToHhmm(mins)) == if mins < 1440 then mins else mins - 1440
  {
    ClockRoundTrip(mins);
    assert mins >= 1440 ==> mins % 1440 == (mins - 1440) % 1440;
  }

  lemma FirstPlainRow(p: Plain, start: Clock)
    ensures RowsFor(None, p, start).Some? && RowsFor(None, p, start).value != []
    ensures RowsFor(None, p, start).value[0].end == Some(MinutesToHhmm(HhmmToMinutes(start) + p.duration))
  {
  }

  /** Without a template nothing is refused when the rows are built: a task of less than a day that
      does not end before midnight gets an end that lies before its start. */
  lemma PlainTaskWrapsExactlyPastMidnight(p: Plain, start: Clock, rows: Option<seq<TaskRow>>)
    requires 0 <= p.duration < 1440 && HhmmToMinutes(start) < 1440 && rows == RowsFor(None, p, start)
    ensures rows.Some? && rows.value != [] && rows.value[0].end.Some?
    ensures HhmmToMinutes(rows.value[0].end.value) < HhmmToMinutes(start)
            <==> HhmmToMinutes(start) + p.duration >= 1440
  {
    FirstPlainRow(p, start);
    EndWraps(HhmmToMinutes(start) + p.duration);
  }
}
