/** The loops of the calendar sweep (meeting-materializer.js), proved against `MeetingSweep`: the
    queue over nested work, the grouping of the feed by day, and the two passes over the days. */
module MeetingStore {
  import opened Options
  import opened MeetingSweep

  // ===== Nested work =====

  datatype Move = Move(id: Key, date: int, facts: Facts)

  function IdSet(order: seq<Key>): set<Key> {
    set id | id in order
  }

  /** The index files exactly the live loaded rows with a parent, under their reference. */
  ghost predicate IsIndex(rows: Rows, ctx: set<Key>, children: map<Key, seq<Key>>) {
    && (forall ref, k :: ref in children && 0 <= k < |children[ref]| ==>
          && children[ref][k] in ctx && children[ref][k] in rows && !rows[children[ref][k]].deleted
          && RefOf(rows[children[ref][k]]) == Some(ref))
    && (forall id :: id in ctx && id in rows && !rows[id].deleted && RefOf(rows[id]).Some? ==>
          RefOf(rows[id]).value in children && id in children[RefOf(rows[id]).value])
  }

  method IndexChildren(rows: Rows, blocks: seq<Key>) returns (children: map<Key, seq<Key>>)
    requires forall k :: 0 <= k < |blocks| ==> blocks[k] in rows
    ensures IsIndex(rows, IdSet(blocks), children)
  {
    children := map[];
    for n := 0 to |blocks|
      invariant IsIndex(rows, IdSet(blocks[..n]), children)
    {
      var id := blocks[n];
      assert IdSet(blocks[..n + 1]) == IdSet(blocks[..n]) + {id};
      var ref := RefOf(rows[id]);
      if !rows[id].deleted && ref.Some? {
        if ref.value !in children {
          children := children[ref.value := []];
        }
        children := children[ref.value := children[ref.value] + [id]];
      }
    }
    assert blocks[..|blocks|] == blocks;
  }

  /** The rows filed directly under a row. */
  method ChildrenOf(rows: Rows, ghost ctx: set<Key>, children: map<Key, seq<Key>>, x: Key) returns (found: seq<Key>)
    requires IsIndex(rows, ctx, children) && x in rows
    ensures forall c :: c in found <==> Nests(rows, ctx, x, c)
  {
    found := if x != Text("") && x in children then children[x] else [];
    var alias := rows[x].localId;
    if alias.Some? && alias.value != Text("") && alias.value in children {
      found := found + children[alias.value];
    }
  }

  lemma NextIsReached(rows: Rows, ctx: set<Key>, start: Key, x: Key, c: Key)
    requires Reached(rows, ctx, start, x) && Nests(rows, ctx, x, c)
    ensures Reached(rows, ctx, start, c)
  {
    var chain :| IsChain(rows, ctx, chain) && chain[0] == start && chain[|chain| - 1] == x;
    var longer := chain + [c];
    forall k | 0 <= k < |longer| - 1 ensures Nests(rows, ctx, longer[k], longer[k + 1]) {
      if k < |chain| - 1 {
        assert Nests(rows, ctx, chain[k], chain[k + 1]);
      }
    }
    assert IsChain(rows, ctx, longer);
  }

  lemma StartIsReached(rows: Rows, ctx: set<Key>, start: Key)
    ensures Reached(rows, ctx, start, start)
  {
    assert IsChain(rows, ctx, [start]);
  }

  lemma {:induction false} ClosedHoldsChain(rows: Rows, ctx: set<Key>, seen: set<Key>, chain: seq<Key>, k: nat)
    requires IsChain(rows, ctx, chain) && chain[0] in seen && k < |chain|
    requires forall x, c :: x in seen && Nests(rows, ctx, x, c) ==> c in seen
    ensures chain[k] in seen
  {
    if k > 0 {
      ClosedHoldsChain(rows, ctx, seen, chain, k - 1);
      assert Nests(rows, ctx, chain[k - 1], chain[k - 1 + 1]);
    }
  }

  function MoveOf(rows: Rows, c: Key, delta: int, days: int): Move
    requires c in rows
  {
    Move(c, rows[c].date + days, Shifted(rows[c].facts, delta, days))
  }

  /** What the queue holds and what was seen. */
  ghost predicate Draining(rows: Rows, ctx: set<Key>, start: Key, seen: set<Key>, queue: seq<Key>) {
    && start in seen
    && (forall x :: x in seen ==> x in rows && Reached(rows, ctx, start, x))
    && (forall c :: c in queue ==> c in rows && c in ctx && Reached(rows, ctx, start, c))
    && (forall x, c :: x in seen && Nests(rows, ctx, x, c) ==> c in seen || c in queue)
  }

  /** Some move is for this row. */
  ghost predicate HasMove(moves: seq<Move>, id: Key) {
    exists k :: 0 <= k < |moves| && moves[k].id == id
  }

  /** The moves list every seen row but the start, once, all by the same offset. */
  ghost predicate Lists(rows: Rows, start: Key, seen: set<Key>, moves: seq<Move>, delta: int, days: int) {
    && (forall x :: x in seen && x != start ==> HasMove(moves, x))
    && (forall k :: 0 <= k < |moves| ==>
          moves[k].id in seen && moves[k].id != start && moves[k].id in rows && moves[k] == MoveOf(rows, moves[k].id, delta, days))
    && (forall j, k :: 0 <= j < k < |moves| ==> moves[j].id != moves[k].id)
  }

  lemma OneMoreMove(rows: Rows, start: Key, seen: set<Key>, moves: seq<Move>, delta: int, days: int, c: Key)
    requires Lists(rows, start, seen, moves, delta, days) && c in rows && c !in seen && start in seen
    ensures Lists(rows, start, seen + {c}, moves + [MoveOf(rows, c, delta, days)], delta, days)
  {
    var longer := moves + [MoveOf(rows, c, delta, days)];
    forall x | x in seen + {c} && x != start ensures HasMove(longer, x) {
      if x == c {
        assert longer[|moves|].id == x;
      } else {
        var k :| 0 <= k < |moves| && moves[k].id == x;
        assert longer[k].id == x;
      }
    }
  }

  lemma OneMoreSeen(rows: Rows, ctx: set<Key>, start: Key, seen: set<Key>, queue: seq<Key>, found: seq<Key>)
    requires queue != [] && Draining(rows, ctx, start, seen, queue)
    requires forall c :: c in found <==> Nests(rows, ctx, queue[0], c)
    ensures Draining(rows, ctx, start, seen + {queue[0]}, queue[1..] + found)
  {
    var x := queue[0];
    forall c | c in found ensures c in rows && c in ctx && Reached(rows, ctx, start, c) {
      NextIsReached(rows, ctx, start, x, c);
    }
    assert forall c :: c in queue ==> c == x || c in queue[1..];
    assert forall c :: c in queue[1..] + found <==> c in queue[1..] || c in found;
  }

  lemma SeenBefore(rows: Rows, ctx: set<Key>, start: Key, seen: set<Key>, queue: seq<Key>)
    requires queue != [] && queue[0] in seen && Draining(rows, ctx, start, seen, queue)
    ensures Draining(rows, ctx, start, seen, queue[1..])
  {
    assert forall c :: c in queue ==> c == queue[0] || c in queue[1..];
  }

  /** Drains the queue under a meeting: every row of its closure is moved once, all by the same days
      and minutes; when neither changes, nothing is moved. */
  method NestedMoveOps(rows: Rows, blocks: seq<Key>, parent: Key, delta: int, days: int) returns (moves: seq<Move>)
    requires parent in rows && forall k :: 0 <= k < |blocks| ==> blocks[k] in rows
    ensures delta == 0 && days == 0 ==> moves == []
    ensures delta != 0 || days != 0 ==>
              forall id :: HasMove(moves, id) <==> id != parent && Reached(rows, IdSet(blocks), parent, id)
    ensures forall k :: 0 <= k < |moves| ==> moves[k].id in rows && moves[k] == MoveOf(rows, moves[k].id, delta, days)
    ensures forall j, k :: 0 <= j < k < |moves| ==> moves[j].id != moves[k].id
  {
    var children := IndexChildren(rows, blocks);
    ghost var ctx := IdSet(blocks);
    var seen := {parent};
    var queue := ChildrenOf(rows, ctx, children, parent);
    moves := [];
    StartIsReached(rows, ctx, parent);
    forall c | c in queue ensures c in rows && c in ctx && Reached(rows, ctx, parent, c) {
      NextIsReached(rows, ctx, parent, parent, c);
    }
    while queue != []
      invariant Draining(rows, ctx, parent, seen, queue)
      invariant if delta == 0 && days == 0 then moves == [] else Lists(rows, parent, seen, moves, delta, days)
      decreases ctx - seen, |queue|
    {
      var child := queue[0];
      if child in seen {
        SeenBefore(rows, ctx, parent, seen, queue);
        queue := queue[1..];
      } else {
        var found := ChildrenOf(rows, ctx, children, child);
        OneMoreSeen(rows, ctx, parent, seen, queue, found);
        if delta != 0 || days != 0 {
          OneMoreMove(rows, parent, seen, moves, delta, days, child);
          moves := moves + [MoveOf(rows, child, delta, days)];
        }
        seen := seen + {child};
        queue := queue[1..] + found;
      }
    }
    forall id | Reached(rows, ctx, parent, id) ensures id in seen {
      var chain :| IsChain(rows, ctx, chain) && chain[0] == parent && chain[|chain| - 1] == id;
      ClosedHoldsChain(rows, ctx, seen, chain, |chain| - 1);
    }
  }

  /** Writes a batch of moves. */
  method ApplyMoves(rows: Rows, moves: seq<Move>) returns (after: Rows)
    requires forall k :: 0 <= k < |moves| ==> moves[k].id in rows
    requires forall j, k :: 0 <= j < k < |moves| ==> moves[j].id != moves[k].id
    ensures after.Keys == rows.Keys
    ensures forall k :: 0 <= k < |moves| ==>
              after[moves[k].id] == rows[moves[k].id].(date := moves[k].date, facts := moves[k].facts)
    ensures forall id :: id in rows && (forall k :: 0 <= k < |moves| ==> moves[k].id != id) ==> after[id] == rows[id]
  {
    after := rows;
    for n := 0 to |moves|
      invariant after.Keys == rows.Keys
      invariant forall k :: 0 <= k < n ==>
                  after[moves[k].id] == rows[moves[k].id].(date := moves[k].date, facts := moves[k].facts)
      invariant forall id :: id in rows && (forall k :: 0 <= k < n ==> moves[k].id != id) ==> after[id] == rows[id]
    {
      var m := moves[n];
      assert after[m.id] == rows[m.id];
      after := after[m.id := after[m.id].(date := m.date, facts := m.facts)];
    }
  }

  /** A list of moves covers the nest of a meeting. */
  ghost predicate Covers(rows: Rows, ctx: set<Key>, id: Key, m: Item, moves: seq<Move>)
    requires id in rows
  {
    && (forall k :: 0 <= k < |moves| ==>
          moves[k].id in rows && moves[k].id != id && Moves(rows[id], m) && Reached(rows, ctx, id, moves[k].id)
          && moves[k] == MoveOf(rows, moves[k].id, Delta(rows[id], m), m.day - rows[id].date))
    && (forall c :: c in rows && c != id && Moves(rows[id], m) && Reached(rows, ctx, id, c) ==> HasMove(moves, c))
  }

  lemma MovedRow(rows: Rows, ctx: set<Key>, id: Key, m: Item, moves: seq<Move>, moved: Rows, k: Key)
    requires id in rows && k in rows && k != id && Covers(rows, ctx, id, m, moves) && moved.Keys == rows.Keys
    requires forall j :: 0 <= j < |moves| ==>
               moved[moves[j].id] == rows[moves[j].id].(date := moves[j].date, facts := moves[j].facts)
    requires forall c :: c in rows && (forall j :: 0 <= j < |moves| ==> moves[j].id != c) ==> moved[c] == rows[c]
    ensures moved[k] == Reconciled(rows, ctx, id, m)[k]
  {
    if Moves(rows[id], m) && Reached(rows, ctx, id, k) {
      var j :| 0 <= j < |moves| && moves[j].id == k;
    }
  }

  lemma BatchReconciles(rows: Rows, ctx: set<Key>, id: Key, m: Item, moves: seq<Move>, moved: Rows)
    requires id in rows && Covers(rows, ctx, id, m, moves) && moved.Keys == rows.Keys
    requires forall j :: 0 <= j < |moves| ==>
               moved[moves[j].id] == rows[moves[j].id].(date := moves[j].date, facts := moves[j].facts)
    requires forall c :: c in rows && (forall j :: 0 <= j < |moves| ==> moves[j].id != c) ==> moved[c] == rows[c]
    ensures moved[id := rows[id].(date := m.day, facts := NextFacts(rows[id].facts, m))] == Reconciled(rows, ctx, id, m)
  {
    forall k | k in rows && k != id ensures moved[k] == Reconciled(rows, ctx, id, m)[k] {
      MovedRow(rows, ctx, id, m, moves, moved, k);
    }
  }

  /** Reconciles one open meeting: its own row, and its nested work in the same batch. */
  method ReconcileMeeting(rows: Rows, blocks: seq<Key>, id: Key, m: Item) returns (after: Rows)
    requires id in rows && forall k :: 0 <= k < |blocks| ==> blocks[k] in rows
    ensures after == Reconciled(rows, IdSet(blocks), id, m)
  {
    var r := rows[id];
    var moves := NestedMoveOps(rows, blocks, id, Delta(r, m), m.day - r.date);
    CoversNest(rows, IdSet(blocks), id, m, moves);
    var moved := ApplyMoves(rows, moves);
    BatchReconciles(rows, IdSet(blocks), id, m, moves, moved);
    after := moved[id := r.(date := m.day, facts := NextFacts(r.facts, m))];
  }

  lemma CoversNest(rows: Rows, ctx: set<Key>, id: Key, m: Item, moves: seq<Move>)
    requires id in rows
    requires !Moves(rows[id], m) ==> moves == []
    requires Moves(rows[id], m) ==> forall c :: HasMove(moves, c) <==> c != id && Reached(rows, ctx, id, c)
    requires forall k :: 0 <= k < |moves| ==>
               moves[k].id in rows && moves[k] == MoveOf(rows, moves[k].id, Delta(rows[id], m), m.day - rows[id].date)
    ensures Covers(rows, ctx, id, m, moves)
  {
    forall k | 0 <= k < |moves| ensures moves[k].id != id && Moves(rows[id], m) && Reached(rows, ctx, id, moves[k].id) {
      assert HasMove(moves, moves[k].id);
    }
  }

  // ===== Grouping the feed =====

  /** An event as the calendar sends it, with its day and times in the app's time zone. */
  datatype Event = Event(day: Option<int>, allDay: bool, endDay: Option<int>, start: Option<int>, end: Option<int>,
                         identity: Option<string>, title: string, info: Info, soft: Soft, near: bool)

  datatype Feed = Feed(anchor: int, events: seq<Event>, hasMeetings: bool)

  const WINDOW_DAYS := 60
  const DEFAULT_MINUTES := 30

  function EndDayOf(e: Event): int
    requires e.day.Some?
  {
    if e.endDay.Some? then e.endDay.value else e.day.value + 1
  }

  /** The row an event asks for, if it is complete enough to be shown. */
  function ItemOf(e: Event): (item: Option<Item>)
    ensures item.Some? ==> e.day == Some(item.value.day) && e.identity == Some(item.value.identity) && item.value.identity != ""
  {
    if e.day.None? || !Truthy(e.identity) then None
    else if e.allDay then
      if EndDayOf(e) <= e.day.value then None
      else Some(Item(e.day.value, e.identity.value, true, None, None, Some(EndDayOf(e)), 0, e.title, e.info, e.soft, e.near))
    else if e.start.None? || e.end.None? then None
    else
      var minutes := e.end.value - e.start.value;
      Some(Item(e.day.value, e.identity.value, false, e.start, e.end, None,
                if minutes > 0 then minutes else DEFAULT_MINUTES, e.title, e.info, e.soft, e.near))
  }

  /** The last day an event reaches. */
  function LastDay(e: Event): int
    requires e.day.Some?
  {
    if e.allDay then EndDayOf(e) - 1 else e.day.value
  }

  function Horizon(events: seq<Event>, anchor: int): int {
    if events == [] then anchor
    else
      var before, e := Horizon(events[..|events| - 1], anchor), events[|events| - 1];
      if e.day.Some? && LastDay(e) > before then LastDay(e) else before
  }

  function ItemsOn(events: seq<Event>, d: int): (items: seq<Item>)
    ensures forall k :: 0 <= k < |items| ==> items[k].day == d && items[k].identity != ""
  {
    if events == [] then []
    else
      var before, item := ItemsOn(events[..|events| - 1], d), ItemOf(events[|events| - 1]);
      if item.Some? && item.value.day == d then before + [item.value] else before
  }

  function NamedOn(events: seq<Event>, d: int): set<string> {
    set k | 0 <= k < |events| && events[k].day == Some(d) && Truthy(events[k].identity) :: events[k].identity.value
  }

  function NamedDays(events: seq<Event>): set<int> {
    set k | 0 <= k < |events| && events[k].day.Some? && Truthy(events[k].identity) :: events[k].day.value
  }

  function ItemDays(events: seq<Event>): set<int> {
    set k | 0 <= k < |events| && ItemOf(events[k]).Some? :: ItemOf(events[k]).value.day
  }

  /** The days from one to another, both included. */
  function EachDay(first: int, last: int): (days: seq<int>)
    ensures forall d :: d in days <==> first <= d <= last
    decreases last - first + 1
  {
    if first > last then [] else EachDay(first, last - 1) + [last]
  }

  /** The days whose stale meetings may be cancelled. */
  function CancelDays(feed: Feed): set<int> {
    var horizon := Horizon(feed.events, feed.anchor);
    var last := if horizon > feed.anchor + WINDOW_DAYS then feed.anchor + WINDOW_DAYS else horizon;
    if feed.hasMeetings then set d | d in EachDay(feed.anchor, last) else {}
  }

  /** The items day by day. */
  function ItemsOver(events: seq<Event>, days: seq<int>): seq<Item> {
    if days == [] then [] else ItemsOver(events, days[..|days| - 1]) + ItemsOn(events, days[|days| - 1])
  }

  function IncomingOf(events: seq<Event>): map<int, set<string>> {
    map d | d in NamedDays(events) :: NamedOn(events, d)
  }

  function PlanOf(feed: Feed, days: seq<int>): Plan {
    Plan(ItemsOver(feed.events, days), IncomingOf(feed.events), CancelDays(feed))
  }

  /** The plan of a feed takes the days with events and the days of the window in order. */
  ghost predicate IsPlanOf(feed: Feed, plan: Plan) {
    exists days ::
      && plan == PlanOf(feed, days) && Ascending(days)
      && forall d :: d in days <==> d in ItemDays(feed.events) + CancelDays(feed)
  }

  ghost predicate Ascending(days: seq<int>) {
    forall j, k :: 0 <= j < k < |days| ==> days[j] < days[k]
  }

  lemma {:induction false} ItemComesFromEvent(events: seq<Event>, d: int, j: nat) returns (k: nat)
    requires j < |ItemsOn(events, d)|
    ensures k < |events| && ItemOf(events[k]) == Some(ItemsOn(events, d)[j])
  {
    var front := events[..|events| - 1];
    if j < |ItemsOn(front, d)| {
      k := ItemComesFromEvent(front, d, j);
    } else {
      k := |events| - 1;
    }
  }

  lemma {:induction false} ItemsAreNamed(events: seq<Event>, days: seq<int>, j: nat)
    requires j < |ItemsOver(events, days)|
    ensures var m := ItemsOver(events, days)[j];
            m.identity != "" && m.day in days && m.day in IncomingOf(events) && m.identity in IncomingOf(events)[m.day]
  {
    var front, d := ItemsOver(events, days[..|days| - 1]), days[|days| - 1];
    if j < |front| {
      ItemsAreNamed(events, days[..|days| - 1], j);
    } else {
      var k := ItemComesFromEvent(events, d, j - |front|);
      assert events[k].identity.value in NamedOn(events, d);
    }
  }

  /** The plan of a feed names every event it materializes. */
  lemma PlanNamesItems(feed: Feed, days: seq<int>)
    ensures NamesItems(PlanOf(feed, days))
  {
    var plan := PlanOf(feed, days);
    forall j | 0 <= j < |plan.items|
      ensures plan.items[j].identity != ""
      ensures plan.items[j].day in plan.incoming && plan.items[j].identity in plan.incoming[plan.items[j].day]
    {
      ItemsAreNamed(feed.events, days, j);
    }
  }

  // ----- What grouping reads from an event -----

  /** Which events are shown: those with a day and an identity that, all day, end after their day, or
      else have a start and an end. */
  predicate IsEligible(e: Event) {
    && e.day.Some? && e.identity.Some? && e.identity.value != ""
    && if e.allDay then e.endDay.None? || e.endDay.value > e.day.value else e.start.Some? && e.end.Some?
  }

  /** An item repeats its event. */
  predicate Repeats(m: Item, e: Event) {
    && e.day == Some(m.day) && e.identity == Some(m.identity) && m.allDay == e.allDay
    && m.title == e.title && m.info == e.info && m.soft == e.soft && m.near == e.near
    && if e.allDay then
         m.start.None? && m.end.None? && m.minutes == 0
         && m.dayEnd == (if e.endDay.Some? then e.endDay else Some(m.day + 1))
       else
         m.start == e.start && m.end == e.end && m.dayEnd.None? && m.start.Some? && m.end.Some?
         && m.minutes == if m.end.value > m.start.value then m.end.value - m.start.value else 30
  }

  lemma ItemRepeatsEvent(e: Event)
    ensures ItemOf(e).Some? <==> IsEligible(e)
    ensures ItemOf(e).Some? ==> Repeats(ItemOf(e).value, e)
  {
  }

  lemma {:induction false} EventIsListed(events: seq<Event>, d: int, k: nat)
    requires k < |events| && IsEligible(events[k]) && events[k].day == Some(d)
    ensures ItemOf(events[k]).Some? && ItemOf(events[k]).value in ItemsOn(events, d)
  {
    ItemRepeatsEvent(events[k]);
    if k < |events| - 1 {
      EventIsListed(events[..|events| - 1], d, k);
    }
  }

  lemma {:induction false} DayIsListed(events: seq<Event>, days: seq<int>, j: nat)
    requires j < |days|
    ensures forall m :: m in ItemsOn(events, days[j]) ==> m in ItemsOver(events, days)
  {
    if j < |days| - 1 {
      DayIsListed(events, days[..|days| - 1], j);
    }
  }

  /** Every eligible event is materialized. */
  lemma EventIsPlanned(feed: Feed, plan: Plan, k: nat) returns (j: nat)
    requires IsPlanOf(feed, plan) && k < |feed.events| && IsEligible(feed.events[k])
    ensures j < |plan.items| && Repeats(plan.items[j], feed.events[k])
  {
    var e := feed.events[k];
    var days :| plan == PlanOf(feed, days) && Ascending(days)
      && forall d :: d in days <==> d in ItemDays(feed.events) + CancelDays(feed);
    ItemRepeatsEvent(e);
    assert e.day.value in ItemDays(feed.events);
    var n :| 0 <= n < |days| && days[n] == e.day.value;
    EventIsListed(feed.events, e.day.value, k);
    DayIsListed(feed.events, days, n);
    j :| 0 <= j < |plan.items| && plan.items[j] == ItemOf(e).value;
  }

  /** The last day that an event covers. */
  predicate LastsUntil(e: Event, d: int) {
    e.day.Some? && d == if e.allDay then (if e.endDay.Some? then e.endDay.value - 1 else e.day.value) else e.day.value
  }

  /** The horizon is the anchor or the last day of some event, and no event reaches past it. */
  lemma {:induction false} HorizonIsLatest(events: seq<Event>, anchor: int)
    ensures Horizon(events, anchor) >= anchor
    ensures forall k, d :: 0 <= k < |events| && LastsUntil(events[k], d) ==> d <= Horizon(events, anchor)
    ensures Horizon(events, anchor) == anchor || exists k :: 0 <= k < |events| && LastsUntil(events[k], Horizon(events, anchor))
  {
    if events != [] {
      var n := |events| - 1;
      HorizonIsLatest(events[..n], anchor);
      assert forall k :: 0 <= k < n ==> events[..n][k] == events[k];
    }
  }

  /** Stale meetings may be cancelled from the anchor to the horizon, but no more than 60 days on, and
      only when the request carried meetings. */
  lemma CancelDaysAreNear(feed: Feed, d: int)
    ensures d in CancelDays(feed) <==>
            feed.hasMeetings && feed.anchor <= d <= feed.anchor + 60 && d <= Horizon(feed.events, feed.anchor)
  {
  }

  /** The items of some events, filed by day. */
  ghost predicate IsByDate(events: seq<Event>, byDate: map<int, seq<Item>>) {
    && byDate.Keys == ItemDays(events)
    && (forall d :: d in byDate ==> byDate[d] == ItemsOn(events, d))
    && (forall d :: d !in byDate ==> ItemsOn(events, d) == [])
  }

  function WithItem(byDate: map<int, seq<Item>>, e: Event): map<int, seq<Item>> {
    if ItemOf(e).None? then byDate
    else
      var item := ItemOf(e).value;
      byDate[item.day := (if item.day in byDate then byDate[item.day] else []) + [item]]
  }

  function WithName(incoming: map<int, set<string>>, e: Event): map<int, set<string>> {
    if e.day.None? || !Truthy(e.identity) then incoming
    else
      var d := e.day.value;
      incoming[d := (if d in incoming then incoming[d] else {}) + {e.identity.value}]
  }

  lemma OneMoreItemDay(events: seq<Event>, n: nat)
    requires n < |events|
    ensures ItemDays(events[..n + 1])
         == ItemDays(events[..n]) + (if ItemOf(events[n]).Some? then {ItemOf(events[n]).value.day} else {})
  {
    var shorter, longer := events[..n], events[..n + 1];
    assert forall k :: 0 <= k < n ==> longer[k] == shorter[k];
    assert longer[n] == events[n];
  }

  lemma ItemsOnStep(events: seq<Event>, n: nat, d: int)
    requires n < |events|
    ensures ItemsOn(events[..n + 1], d)
         == ItemsOn(events[..n], d)
            + (if ItemOf(events[n]).Some? && ItemOf(events[n]).value.day == d then [ItemOf(events[n]).value] else [])
  {
    assert events[..n + 1][..n] == events[..n];
  }

  lemma ItemStep(events: seq<Event>, n: nat, byDate: map<int, seq<Item>>)
    requires n < |events| && IsByDate(events[..n], byDate)
    ensures IsByDate(events[..n + 1], WithItem(byDate, events[n]))
  {
    var after := WithItem(byDate, events[n]);
    OneMoreItemDay(events, n);
    forall d ensures if d in after then after[d] == ItemsOn(events[..n + 1], d) else ItemsOn(events[..n + 1], d) == [] {
      ItemsOnStep(events, n, d);
    }
  }

  lemma DayStep(events: seq<Event>, n: nat)
    requires n < |events|
    ensures var e := events[n];
            NamedDays(events[..n + 1])
            == NamedDays(events[..n]) + (if e.day.Some? && Truthy(e.identity) then {e.day.value} else {})
  {
    var shorter, longer := events[..n], events[..n + 1];
    assert forall k :: 0 <= k < n ==> longer[k] == shorter[k];
    assert longer[n] == events[n];
  }

  lemma NameStepOn(events: seq<Event>, n: nat, d: int)
    requires n < |events|
    ensures var e := events[n];
            NamedOn(events[..n + 1], d)
            == NamedOn(events[..n], d) + (if e.day == Some(d) && Truthy(e.identity) then {e.identity.value} else {})
    ensures d !in NamedDays(events[..n]) ==> NamedOn(events[..n], d) == {}
  {
    var shorter, longer := events[..n], events[..n + 1];
    assert forall k :: 0 <= k < n ==> longer[k] == shorter[k];
    assert longer[n] == events[n];
  }

  lemma NameStep(events: seq<Event>, n: nat)
    requires n < |events|
    ensures WithName(IncomingOf(events[..n]), events[n]) == IncomingOf(events[..n + 1])
  {
    var after := WithName(IncomingOf(events[..n]), events[n]);
    DayStep(events, n);
    forall d | d in NamedDays(events[..n + 1]) ensures d in after && after[d] == NamedOn(events[..n + 1], d) {
      NameStepOn(events, n, d);
    }
  }

  /** Files the eligible events and all named identities by day, and finds how far the feed reaches. */
  method GroupFeed(events: seq<Event>, anchor: int)
    returns (byDate: map<int, seq<Item>>, incoming: map<int, set<string>>, horizon: int)
    ensures IsByDate(events, byDate) && incoming == IncomingOf(events) && horizon == Horizon(events, anchor)
  {
    byDate, incoming, horizon := map[], map[], anchor;
    for n := 0 to |events|
      invariant IsByDate(events[..n], byDate)
      invariant incoming == IncomingOf(events[..n])
      invariant horizon == Horizon(events[..n], anchor)
    {
      var e := events[n];
      assert events[..n + 1][..n] == events[..n];
      if e.day.Some? && LastDay(e) > horizon {
        horizon := LastDay(e);
      }
      NameStep(events, n);
      incoming := WithName(incoming, e);
      ItemStep(events, n, byDate);
      byDate := WithItem(byDate, e);
    }
    assert events[..|events|] == events;
  }

  // ===== The first pass =====

  /** The index by source id finds the row of every named event. */
  ghost predicate Knows(rows: Rows, bySource: map<string, Key>, names: set<string>) {
    forall s :: s in names && s != "" ==>
      && (s in bySource <==> HasMeeting(rows, s))
      && (s in bySource ==> bySource[s] in rows && IsMeeting(rows[bySource[s]], s))
  }

  lemma GrowthKeepsKnown(rows: Rows, after: Rows, bySource: map<string, Key>, names: set<string>)
    requires Knows(rows, bySource, names) && Grows(rows, after) && after.Keys == rows.Keys
    ensures Knows(after, bySource, names)
  {
    forall s | s in names && s != "" ensures HasMeeting(rows, s) <==> HasMeeting(after, s) {
      if HasMeeting(rows, s) {
        assert IsMeeting(after[MeetingOf(rows, s)], s);
      }
      if HasMeeting(after, s) {
        assert IsMeeting(rows[MeetingOf(after, s)], s);
      }
    }
  }

  lemma NewRowIsKnown(rows: Rows, id: Key, m: Item, bySource: map<string, Key>, names: set<string>)
    requires Knows(rows, bySource, names) && id !in rows && m.identity != ""
    ensures Knows(rows[id := NewRow(m)], bySource[m.identity := id], names)
  {
    var after := rows[id := NewRow(m)];
    forall s | s in names && s != "" && s != m.identity ensures HasMeeting(rows, s) <==> HasMeeting(after, s) {
      if HasMeeting(rows, s) {
        assert IsMeeting(after[MeetingOf(rows, s)], s);
      }
      if HasMeeting(after, s) {
        assert IsMeeting(rows[MeetingOf(after, s)], s);
      }
    }
    assert IsMeeting(after[id], m.identity);
  }

  /** Indexes the loaded meetings by source id. */
  method IndexBySource(rows: Rows, blocks: seq<Key>) returns (bySource: map<string, Key>)
    requires forall k :: 0 <= k < |blocks| ==> blocks[k] in rows
    ensures forall s :: s in bySource ==> bySource[s] in rows && IsMeeting(rows[bySource[s]], s)
    ensures forall k :: 0 <= k < |blocks| && rows[blocks[k]].calendar && Truthy(rows[blocks[k]].sourceId) ==>
              rows[blocks[k]].sourceId.value in bySource
  {
    bySource := map[];
    for n := 0 to |blocks|
      invariant forall s :: s in bySource ==> bySource[s] in rows && IsMeeting(rows[bySource[s]], s)
      invariant forall k :: 0 <= k < n && rows[blocks[k]].calendar && Truthy(rows[blocks[k]].sourceId) ==>
                  rows[blocks[k]].sourceId.value in bySource
    {
      var b := rows[blocks[n]];
      if b.calendar && Truthy(b.sourceId) {
        bySource := bySource[b.sourceId.value := blocks[n]];
      }
    }
  }

  lemma LoadedAreKnown(s: Store, plan: Plan, blocks: seq<Key>, bySource: map<string, Key>)
    requires IdSet(blocks) == Context(s.rows, plan)
    requires forall s' :: s' in bySource ==> bySource[s'] in s.rows && IsMeeting(s.rows[bySource[s']], s')
    requires forall k :: 0 <= k < |blocks| && blocks[k] in s.rows && s.rows[blocks[k]].calendar && Truthy(s.rows[blocks[k]].sourceId) ==>
               s.rows[blocks[k]].sourceId.value in bySource
    ensures Knows(s.rows, bySource, NamedIds(plan))
  {
    forall name | name in NamedIds(plan) && HasMeeting(s.rows, name) ensures name in bySource {
      var id := MeetingOf(s.rows, name);
      assert IsLoadedDay(s.rows, plan, s.rows[id].date);
      assert id in IdSet(blocks);
      var k :| 0 <= k < |blocks| && blocks[k] == id;
    }
  }

  ghost predicate SoundPass(p: Pass) {
    Sound(Store(p.rows, p.next))
  }

  predicate AllIn(rows: Rows, ids: seq<Key>) {
    forall k :: 0 <= k < |ids| ==> ids[k] in rows
  }

  /** One event of a day. */
  method MaterializeMeeting(p: Pass, bySource: map<string, Key>, ghost names: set<string>, blocks: seq<Key>, m: Item)
    returns (after: Pass, index: map<string, Key>)
    requires SoundPass(p) && Knows(p.rows, bySource, names) && m.identity in names && m.identity != ""
    requires AllIn(p.rows, blocks)
    ensures after == Materialized(p, IdSet(blocks), m)
    ensures Knows(after.rows, index, names)
  {
    if m.identity !in bySource {
      var id := Uuid(p.next);
      NewRowIsKnown(p.rows, id, m, bySource, names);
      return Pass(p.rows[id := NewRow(m)], p.next + 1, p.claimed + {id}), bySource[m.identity := id];
    }
    var id := bySource[m.identity];
    MeetingIsUnique(p.rows, id, m.identity);
    if p.rows[id].deleted {
      return p, bySource;
    }
    var rows := p.rows;
    if !rows[id].completed && Changed(rows[id], m) {
      ReconciledKeeps(rows, IdSet(blocks), id, m);
      rows := ReconcileMeeting(rows, blocks, id, m);
      GrowthKeepsKnown(p.rows, rows, bySource, names);
    }
    return Pass(rows, p.next, p.claimed + {id}), bySource;
  }

  lemma OneMoreItem(start: Pass, ctx: set<Key>, done: seq<Item>, eligible: seq<Item>, k: nat)
    requires k < |eligible|
    ensures MaterializedAll(start, ctx, done + eligible[..k + 1])
         == Materialized(MaterializedAll(start, ctx, done + eligible[..k]), ctx, eligible[k])
  {
    assert done + eligible[..k + 1] == done + eligible[..k] + [eligible[k]];
    OneMoreMaterialized(start, ctx, done + eligible[..k], eligible[k]);
  }

  lemma OneMoreMaterialized(start: Pass, ctx: set<Key>, items: seq<Item>, m: Item)
    ensures MaterializedAll(start, ctx, items + [m]) == Materialized(MaterializedAll(start, ctx, items), ctx, m)
  {
    assert (items + [m])[..|items|] == items && (items + [m])[|items|] == m;
  }

  lemma PassSoFar(start: Pass, ctx: set<Key>, done: seq<Item>, eligible: seq<Item>, k: nat, blocks: seq<Key>)
    requires SoundPass(start) && NamesAreSet(done) && NamesAreSet(eligible) && k <= |eligible| && AllIn(start.rows, blocks)
    ensures var p := MaterializedAll(start, ctx, done + eligible[..k]);
            SoundPass(p) && AllIn(p.rows, blocks)
  {
    FirstPassKeeps(start, ctx, done + eligible[..k]);
  }

  /** The events of one day, after those of earlier days. */
  method MaterializeDate(p: Pass, bySource: map<string, Key>, ghost names: set<string>, blocks: seq<Key>,
                         eligible: seq<Item>, ghost start: Pass, ghost done: seq<Item>)
    returns (after: Pass, index: map<string, Key>)
    requires SoundPass(start) && Knows(p.rows, bySource, names) && NamesAreSet(done) && NamesAreSet(eligible)
    requires p == MaterializedAll(start, IdSet(blocks), done)
    requires forall k :: 0 <= k < |eligible| ==> eligible[k].identity in names
    requires AllIn(start.rows, blocks)
    ensures after == MaterializedAll(start, IdSet(blocks), done + eligible)
    ensures Knows(after.rows, index, names)
  {
    after, index := p, bySource;
    assert done + eligible[..0] == done;
    for k := 0 to |eligible|
      invariant after == MaterializedAll(start, IdSet(blocks), done + eligible[..k])
      invariant Knows(after.rows, index, names)
    {
      OneMoreItem(start, IdSet(blocks), done, eligible, k);
      PassSoFar(start, IdSet(blocks), done, eligible, k, blocks);
      after, index := MaterializeMeeting(after, index, names, blocks, eligible[k]);
    }
    assert eligible[..|eligible|] == eligible;
  }

  // ===== The second pass =====

  /** The rows after the children among some rows were detached. */
  ghost predicate ArePartlyDetached(rows: Rows, pool: set<Key>, b: Key, done: seq<Key>, after: Rows)
    requires b in rows
  {
    && after.Keys == rows.Keys
    && forall k :: k in rows ==> after[k] == if k in done && Loses(rows, pool, b, k) then Detached(rows[k]) else rows[k]
  }

  lemma OneMoreDetached(rows: Rows, pool: set<Key>, b: Key, done: seq<Key>, c: Key, after: Rows)
    requires b in rows && c in rows && ArePartlyDetached(rows, pool, b, done, after)
    ensures ArePartlyDetached(rows, pool, b, done + [c],
                              if Loses(rows, pool, b, c) then after[c := Detached(rows[c])] else after)
  {
  }

  /** Cancels one meeting: its children are detached in the same batch. */
  method CancelMeeting(rows: Rows, live: seq<Key>, b: Key) returns (after: Rows)
    requires b in rows && forall k :: 0 <= k < |live| ==> live[k] in rows
    ensures after == if BatchFails(rows, IdSet(live), b) then rows
                     else map k | k in rows ::
                            if k == b then rows[k].(deleted := true)
                            else if Loses(rows, IdSet(live), b, k) then Detached(rows[k])
                            else rows[k]
  {
    after := rows;
    ghost var pool := IdSet(live);
    for n := 0 to |live|
      invariant ArePartlyDetached(rows, pool, b, live[..n], after)
      invariant forall k :: 0 <= k < n && Loses(rows, pool, b, live[k]) ==> !rows[live[k]].deleted
    {
      var c := live[n];
      assert live[..n + 1] == live[..n] + [c] && c in pool;
      OneMoreDetached(rows, pool, b, live[..n], c, after);
      var ref := RefOf(rows[c]);
      if c != b && ref.Some? && IsAlias(b, rows[b], ref.value) {
        assert Loses(rows, pool, b, c);
        if rows[c].deleted {
          return rows;
        }
        after := after[c := Detached(rows[c])];
      }
    }
    assert live[..|live|] == live;
    after := after[b := after[b].(deleted := true)];
  }

  /** The stale meetings among the rows loaded for one day, after those of earlier days. */
  method CancelDate(rows: Rows, w: Window, live: seq<Key>, blocks: seq<Key>, ghost start: Rows, ghost done: seq<Key>)
    returns (after: Rows)
    requires rows == CancelledAll(start, w, done) && OneRowPerSource(start) && w.loaded == IdSet(live)
    requires forall k :: 0 <= k < |live| ==> live[k] in start
    requires forall k :: 0 <= k < |blocks| ==> blocks[k] in start && blocks[k] in w.day
    ensures after == CancelledAll(start, w, done + blocks)
  {
    after := rows;
    assert done + blocks[..0] == done;
    for n := 0 to |blocks|
      invariant after == CancelledAll(start, w, done + blocks[..n])
    {
      var b := blocks[n];
      assert (done + blocks[..n + 1])[..|done| + n] == done + blocks[..n];
      CancellationsKeep(start, w, done + blocks[..n]);
      if IsStale(after, w, b) {
        after := CancelMeeting(after, live, b);
      }
    }
    assert blocks[..|blocks|] == blocks;
  }

  // ===== The sweep =====

  /** Puts a day in its place, once. */
  function InsertDay(days: seq<int>, d: int): (more: seq<int>)
    requires Ascending(days)
    ensures Ascending(more)
    ensures forall e :: e in more <==> e in days || e == d
  {
    if days == [] || days[|days| - 1] < d then days + [d]
    else if days[|days| - 1] == d then days
    else
      var front, last := days[..|days| - 1], days[|days| - 1];
      var head := InsertDay(front, d);
      assert forall e :: e in days <==> e in front || e == last;
      assert forall k :: 0 <= k < |head| ==> head[k] in head;
      head + [last]
  }

  /** The days to process, in order: those with events and those of the window. */
  method ProcessDates(events: seq<Event>, window: seq<int>) returns (days: seq<int>)
    ensures Ascending(days) && forall d :: d in days <==> d in ItemDays(events) || d in window
  {
    days := [];
    for n := 0 to |events|
      invariant Ascending(days) && forall d :: d in days <==> d in ItemDays(events[..n])
    {
      OneMoreItemDay(events, n);
      if ItemOf(events[n]).Some? {
        days := InsertDay(days, ItemOf(events[n]).value.day);
      }
    }
    assert events[..|events|] == events;
    for n := 0 to |window|
      invariant Ascending(days) && forall d :: d in days <==> d in ItemDays(events) || d in window[..n]
    {
      assert window[..n + 1] == window[..n] + [window[n]];
      days := InsertDay(days, window[n]);
    }
    assert window[..|window|] == window;
  }

  /** Every row once, in the order of the queries. */
  ghost predicate IsListing(rows: Rows, listing: seq<Key>) {
    && (forall id :: id in rows <==> id in listing)
    && (forall j, k :: 0 <= j < k < |listing| ==> listing[j] != listing[k])
  }

  function RowsOn(rows: Rows, listing: seq<Key>, d: int): (blocks: seq<Key>)
    requires forall k :: 0 <= k < |listing| ==> listing[k] in rows
    ensures forall id :: id in blocks <==> id in listing && id in rows && rows[id].date == d
  {
    if listing == [] then []
    else
      var before, id := RowsOn(rows, listing[..|listing| - 1], d), listing[|listing| - 1];
      assert forall k :: k in listing <==> k in listing[..|listing| - 1] || k == id;
      if rows[id].date == d then before + [id] else before
  }

  function RowsOver(rows: Rows, listing: seq<Key>, days: seq<int>): (blocks: seq<Key>)
    requires forall k :: 0 <= k < |listing| ==> listing[k] in rows
    ensures forall id :: id in blocks <==> id in listing && id in rows && rows[id].date in days
  {
    if days == [] then []
    else
      assert forall d :: d in days <==> d in days[..|days| - 1] || d == days[|days| - 1];
      RowsOver(rows, listing, days[..|days| - 1]) + RowsOn(rows, listing, days[|days| - 1])
  }

  /** The loaded rows, and those of them that are live. */
  method LoadContext(rows: Rows, plan: Plan, listing: seq<Key>) returns (blocks: seq<Key>, live: seq<Key>)
    requires IsListing(rows, listing)
    ensures IdSet(blocks) == Context(rows, plan) && IdSet(live) == LoadedLive(rows, plan)
  {
    blocks, live := [], [];
    for n := 0 to |listing|
      invariant forall id :: id in blocks <==> id in listing[..n] && id in Context(rows, plan)
      invariant forall id :: id in live <==> id in listing[..n] && id in LoadedLive(rows, plan)
    {
      var id := listing[n];
      assert id in rows;
      assert listing[..n + 1] == listing[..n] + [id];
      if IsLoadedDay(rows, plan, rows[id].date) {
        blocks := blocks + [id];
        if !rows[id].deleted {
          live := live + [id];
        }
      }
    }
    assert listing[..|listing|] == listing;
  }

  /** The first pass, day by day. */
  method MaterializeDays(start: Pass, plan: Plan, events: seq<Event>, byDate: map<int, seq<Item>>, days: seq<int>,
                         blocks: seq<Key>)
    returns (p: Pass)
    requires SoundPass(start) && IsByDate(events, byDate)
    requires IdSet(blocks) == Context(start.rows, plan)
    requires plan.items == ItemsOver(events, days) && plan.incoming == IncomingOf(events)
    ensures p == MaterializedAll(start, IdSet(blocks), plan.items)
  {
    assert forall k :: 0 <= k < |blocks| ==> blocks[k] in IdSet(blocks);
    var bySource := IndexBySource(start.rows, blocks);
    ghost var names := NamedIds(plan);
    LoadedAreKnown(Store(start.rows, start.next), plan, blocks, bySource);
    p := start;
    for n := 0 to |days|
      invariant p == MaterializedAll(start, IdSet(blocks), ItemsOver(events, days[..n]))
      invariant Knows(p.rows, bySource, names)
    {
      var d := days[n];
      var eligible := if d in byDate then byDate[d] else [];
      OneMoreDay(events, days, n);
      EarlierItemsAreNamed(events, days, n);
      forall k | 0 <= k < |eligible| ensures eligible[k].identity in names {
        DayIsNamed(events, d, plan.incoming, plan, k);
      }
      p, bySource := MaterializeDate(p, bySource, names, blocks, eligible, start, ItemsOver(events, days[..n]));
    }
    assert days[..|days|] == days;
  }

  lemma OneMoreDay(events: seq<Event>, days: seq<int>, n: nat)
    requires n < |days|
    ensures ItemsOver(events, days[..n + 1]) == ItemsOver(events, days[..n]) + ItemsOn(events, days[n])
  {
    assert days[..n + 1][..n] == days[..n];
  }

  lemma EarlierItemsAreNamed(events: seq<Event>, days: seq<int>, n: nat)
    requires n <= |days|
    ensures NamesAreSet(ItemsOver(events, days[..n]))
  {
    forall k | 0 <= k < |ItemsOver(events, days[..n])| ensures ItemsOver(events, days[..n])[k].identity != "" {
      ItemsAreNamed(events, days[..n], k);
    }
  }

  lemma DayIsNamed(events: seq<Event>, d: int, incoming: map<int, set<string>>, plan: Plan, k: nat)
    requires plan.incoming == incoming == IncomingOf(events) && k < |ItemsOn(events, d)|
    ensures ItemsOn(events, d)[k].identity in NamedIds(plan)
  {
    var j := ItemComesFromEvent(events, d, k);
    assert events[j].identity.value in NamedOn(events, d);
    assert d in incoming && events[j].identity.value in incoming[d];
  }

  /** The second pass: the cancellation window, day by day. */
  method ClearWindow(rows: Rows, loaded: Rows, w: Window, live: seq<Key>, listing: seq<Key>, days: seq<int>,
                     cancelSet: set<int>)
    returns (after: Rows, ghost order: seq<Key>)
    requires OneRowPerSource(rows) && w.loaded == IdSet(live) && IsListing(loaded, listing)
    requires loaded.Keys <= rows.Keys && forall k :: 0 <= k < |live| ==> live[k] in rows
    requires forall d :: d in cancelSet ==> d in days
    requires w.day == map id | id in loaded && loaded[id].date in cancelSet :: loaded[id].date
    ensures after == CancelledAll(rows, w, order)
    ensures forall id :: id in order <==> id in w.day
  {
    after, order := rows, [];
    for n := 0 to |days|
      invariant after == CancelledAll(rows, w, order)
      invariant forall id :: id in order <==> id in w.day && w.day[id] in days[..n]
    {
      assert days[..n + 1] == days[..n] + [days[n]];
      if days[n] in cancelSet {
        assert forall k :: 0 <= k < |listing| ==> listing[k] in loaded;
        var blocks := RowsOn(loaded, listing, days[n]);
        assert forall k :: 0 <= k < |blocks| ==> blocks[k] in blocks;
        after := CancelDate(after, w, live, blocks, rows, order);
        order := order + blocks;
      }
    }
    assert days[..|days|] == days;
  }

  /** Groups the feed and decides which days to process and which of them to clear. */
  method PlanSweep(feed: Feed) returns (byDate: map<int, seq<Item>>, days: seq<int>, plan: Plan)
    ensures IsByDate(feed.events, byDate) && plan == PlanOf(feed, days) && IsPlanOf(feed, plan)
    ensures forall d :: d in plan.window ==> d in days
  {
    var incoming, horizon;
    byDate, incoming, horizon := GroupFeed(feed.events, feed.anchor);
    if horizon > feed.anchor + WINDOW_DAYS {
      horizon := feed.anchor + WINDOW_DAYS;
    }
    var window := if feed.hasMeetings then EachDay(feed.anchor, horizon) else [];
    days := ProcessDates(feed.events, window);
    plan := Plan(ItemsOver(feed.events, days), incoming, set d | d in window);
    assert plan.window == CancelDays(feed);
  }

  class CalendarRows {
    var rows: Rows
    var next: nat

    ghost function View(): Store
      reads this
    {
      Store(rows, next)
    }

    constructor ()
      ensures View() == Store(map[], 0) && Sound(View())
    {
      rows, next := map[], 0;
    }

    /** One sweep; `listing` is the order in which the queries return the rows. */
    method MaterializeMeetings(feed: Feed, listing: seq<Key>) returns (ghost plan: Plan, ghost order: seq<Key>)
      requires Sound(View()) && IsListing(rows, listing)
      modifies this
      ensures IsPlanOf(feed, plan) && NamesItems(plan) && IsOrder(old(rows), plan, order)
      ensures View() == Swept(old(View()), plan, order)
    {
      var byDate, days, thePlan := PlanSweep(feed);
      plan := thePlan;
      PlanNamesItems(feed, days);
      rows, next, order := SweepRows(rows, next, listing, feed.events, byDate, days, thePlan);
    }
  }

  /** Both passes over the loaded rows. */
  method SweepRows(loaded: Rows, drawn: nat, listing: seq<Key>, events: seq<Event>, byDate: map<int, seq<Item>>,
                   days: seq<int>, plan: Plan)
    returns (rows: Rows, next: nat, ghost order: seq<Key>)
    requires Sound(Store(loaded, drawn)) && IsListing(loaded, listing) && IsByDate(events, byDate)
    requires plan.items == ItemsOver(events, days) && plan.incoming == IncomingOf(events) && NamesItems(plan)
    requires forall d :: d in plan.window ==> d in days
    ensures IsOrder(loaded, plan, order)
    ensures Store(rows, next) == Swept(Store(loaded, drawn), plan, order)
  {
    ghost var s := Store(loaded, drawn);
    var blocks, live := LoadContext(loaded, plan, listing);
    var p := MaterializeDays(Pass(loaded, drawn, {}), plan, events, byDate, days, blocks);
    assert p == FirstPass(s, plan);
    FirstPassKeeps(Pass(loaded, drawn, {}), IdSet(blocks), plan.items);
    var w := Window(DaysOf(loaded, plan), IdSet(live), plan.incoming, p.claimed);
    assert w == WindowOf(s, plan);
    assert forall k :: 0 <= k < |live| ==> live[k] in IdSet(live);
    rows, order := ClearWindow(p.rows, loaded, w, live, listing, days, plan.window);
    next := p.next;
  }
}
