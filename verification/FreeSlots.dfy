/** The server-side slot engine (responsibility-store.js): the first free slot of a day, and a
    batch of tasks placed one after the other from one day context.  Times are minutes. */
module FreeSlots {
  import opened Options

  datatype Blocker = Blocker(s: int, e: int)

  /** An interval of this length meets a blocker. */
  predicate Meets(start: int, duration: int, b: Blocker) {
    start < b.e && b.s < start + duration
  }

  ghost predicate IsFree(start: int, duration: int, blockers: seq<Blocker>) {
    forall b :: b in blockers ==> !Meets(start, duration, b)
  }

  /** The earliest free start at or after `start`. */
  ghost predicate IsEarliest(slot: int, start: int, duration: int, blockers: seq<Blocker>) {
    && start <= slot
    && IsFree(slot, duration, blockers)
    && forall t :: start <= t < slot ==> !IsFree(t, duration, blockers)
  }

  // ----- The stable sort by start -----

  predicate SortedByStart(bs: seq<Blocker>) {
    forall i, j :: 0 <= i < j < |bs| ==> bs[i].s <= bs[j].s
  }

  function Insert(bs: seq<Blocker>, b: Blocker): (r: seq<Blocker>)
    requires SortedByStart(bs)
    ensures SortedByStart(r)
    ensures forall x :: x in r <==> x in bs || x == b
  {
    if bs == [] || bs[|bs| - 1].s <= b.s then bs + [b]
    else
      var front, last := bs[..|bs| - 1], bs[|bs| - 1];
      assert bs == front + [last];
      var head := Insert(front, b);
      assert forall i :: 0 <= i < |head| ==> head[i] in head;
      head + [last]
  }

  function Sort(bs: seq<Blocker>): (r: seq<Blocker>)
    ensures SortedByStart(r)
    ensures forall x :: x in r <==> x in bs
  {
    if bs == [] then []
    else
      assert bs == bs[..|bs| - 1] + [bs[|bs| - 1]];
      Insert(Sort(bs[..|bs| - 1]), bs[|bs| - 1])
  }

  /** The blockers with this start, in the order they are listed. */
  function StartingAt(bs: seq<Blocker>, start: int): seq<Blocker> {
    if bs == [] then []
    else StartingAt(bs[..|bs| - 1], start) + (if bs[|bs| - 1].s == start then [bs[|bs| - 1]] else [])
  }

  /** Sorted by start, where blockers with the same start keep their order. */
  ghost predicate IsStableSort(sorted: seq<Blocker>, bs: seq<Blocker>) {
    SortedByStart(sorted) && forall t :: StartingAt(sorted, t) == StartingAt(bs, t)
  }

  lemma StartingAtGrows(bs: seq<Blocker>, b: Blocker, t: int)
    ensures StartingAt(bs + [b], t) == StartingAt(bs, t) + (if b.s == t then [b] else [])
  {
    assert (bs + [b])[..|bs|] == bs;
  }

  lemma {:induction false} ListedStart(bs: seq<Blocker>, k: nat)
    requires k < |bs|
    ensures bs[k] in StartingAt(bs, bs[k].s)
  {
    var n := |bs| - 1;
    if k < n {
      ListedStart(bs[..n], k);
    }
  }

  lemma {:induction false} IsListed(bs: seq<Blocker>, t: int, x: Blocker)
    requires x in StartingAt(bs, t)
    ensures x in bs && x.s == t
  {
    var n := |bs| - 1;
    if x in StartingAt(bs[..n], t) {
      IsListed(bs[..n], t, x);
    }
  }

  lemma {:induction false} InsertIsStable(bs: seq<Blocker>, b: Blocker, t: int)
    requires SortedByStart(bs)
    ensures StartingAt(Insert(bs, b), t) == StartingAt(bs, t) + (if b.s == t then [b] else [])
  {
    if bs == [] || bs[|bs| - 1].s <= b.s {
      StartingAtGrows(bs, b, t);
    } else {
      var front, last := bs[..|bs| - 1], bs[|bs| - 1];
      InsertIsStable(front, b, t);
      var head := Insert(front, b);
      assert Insert(bs, b) == head + [last];
      StartingAtGrows(head, last, t);
      if b.s == t {
        assert StartingAt(bs, t) == StartingAt(front, t);
      } else {
        assert StartingAt(head, t) == StartingAt(front, t);
      }
    }
  }

  /** The sort loses and doubles no blocker and keeps the order of equal starts. */
  lemma {:induction false} SortIsStable(bs: seq<Blocker>)
    ensures IsStableSort(Sort(bs), bs)
  {
    if bs != [] {
      var front, last := bs[..|bs| - 1], bs[|bs| - 1];
      SortIsStable(front);
      assert bs == front + [last];
      forall t ensures StartingAt(Sort(bs), t) == StartingAt(bs, t) {
        InsertIsStable(Sort(front), last, t);
        StartingAtGrows(front, last, t);
      }
    }
  }

  lemma LastIsLatest(bs: seq<Blocker>, x: Blocker)
    requires SortedByStart(bs) && x in bs
    ensures bs != [] && x.s <= bs[|bs| - 1].s
  {
    var k :| 0 <= k < |bs| && bs[k] == x;
  }

  /** The last start of one stable sort is not behind that of another. */
  lemma LastStart(a: seq<Blocker>, b: seq<Blocker>)
    requires a != [] && SortedByStart(b)
    requires StartingAt(a, a[|a| - 1].s) == StartingAt(b, a[|a| - 1].s)
    ensures b != [] && a[|a| - 1].s <= b[|b| - 1].s
  {
    var last := a[|a| - 1];
    ListedStart(a, |a| - 1);
    assert last in StartingAt(b, last.s);
    IsListed(b, last.s, last);
    LastIsLatest(b, last);
  }

  lemma SameLast(a: seq<Blocker>, b: seq<Blocker>)
    requires a != [] && b != [] && a[|a| - 1].s == b[|b| - 1].s
    requires forall t :: StartingAt(a, t) == StartingAt(b, t)
    ensures a[|a| - 1] == b[|b| - 1]
  {
    var m, n, t := |a| - 1, |b| - 1, a[|a| - 1].s;
    assert StartingAt(a, t) == StartingAt(b, t);
    assert StartingAt(a, t) == StartingAt(a[..m], t) + [a[m]];
    assert StartingAt(b, t) == StartingAt(b[..n], t) + [b[n]];
    SameEnd(StartingAt(a[..m], t), a[m], StartingAt(b[..n], t), b[n]);
  }

  lemma SameEnd<T>(s: seq<T>, x: T, r: seq<T>, y: T)
    requires s + [x] == r + [y]
    ensures x == y
  {
    assert (s + [x])[|s|] == x && (r + [y])[|r|] == y && |s + [x]| == |r + [y]|;
  }

  lemma SameFront<T>(s: seq<T>, r: seq<T>, rest: seq<T>)
    requires s + rest == r + rest
    ensures s == r
  {
    assert |s| == |r|;
    assert (s + rest)[..|s|] == s && (r + rest)[..|r|] == r;
  }

  /** A stable sort of a list is the only one. */
  lemma {:induction false} StableSortIsUnique(a: seq<Blocker>, b: seq<Blocker>)
    requires SortedByStart(a) && SortedByStart(b) && forall t :: StartingAt(a, t) == StartingAt(b, t)
    ensures a == b
  {
    if a != [] || b != [] {
      if a != [] {
        LastStart(a, b);
      }
      LastStart(b, a);
      var m, n := |a| - 1, |b| - 1;
      SameLast(a, b);
      forall t ensures StartingAt(a[..m], t) == StartingAt(b[..n], t) {
        assert StartingAt(a, t) == StartingAt(b, t);
        assert StartingAt(a, t) == StartingAt(a[..m], t) + (if a[m].s == t then [a[m]] else []);
        assert StartingAt(b, t) == StartingAt(b[..n], t) + (if a[m].s == t then [a[m]] else []);
        SameFront(StartingAt(a[..m], t), StartingAt(b[..n], t), if a[m].s == t then [a[m]] else []);
      }
      StableSortIsUnique(a[..m], b[..n]);
    }
  }

  // ----- The walk of the cursor -----

  /** The cursor stands behind the first n blockers. */
  ghost predicate Passed(bs: seq<Blocker>, n: nat, cursor: int, duration: int)
    requires n <= |bs|
  {
    forall k :: 0 <= k < n ==> bs[k].e <= cursor && bs[k].s < cursor + duration
  }

  ghost predicate NoneFree(bs: seq<Blocker>, start: int, end: int, duration: int) {
    forall t :: start <= t < end ==> !IsFree(t, duration, bs)
  }

  /** Up to the end of the next blocker no start is free. */
  lemma StepOver(bs: seq<Blocker>, n: nat, start: int, cursor: int, duration: int)
    requires n < |bs| && Passed(bs, n, cursor, duration) && NoneFree(bs[..n], start, cursor, duration)
    requires bs[n].s < cursor + duration
    ensures var next := if cursor < bs[n].e then bs[n].e else cursor;
            Passed(bs, n + 1, next, duration) && NoneFree(bs[..n + 1], start, next, duration)
  {
    var head, longer := bs[..n], bs[..n + 1];
    var next := if cursor < bs[n].e then bs[n].e else cursor;
    assert longer == head + [bs[n]];
    forall t | start <= t < next ensures !IsFree(t, duration, longer) {
      if t < cursor {
        assert !IsFree(t, duration, head);
      } else {
        assert bs[n] in longer && Meets(t, duration, bs[n]);
      }
    }
  }

  /** More blockers free no start. */
  lemma StaysBusy(bs: seq<Blocker>, n: nat, start: int, cursor: int, duration: int)
    requires n <= |bs| && NoneFree(bs[..n], start, cursor, duration)
    ensures NoneFree(bs, start, cursor, duration)
  {
    forall t | start <= t < cursor ensures !IsFree(t, duration, bs) {
      var head := bs[..n];
      assert !IsFree(t, duration, head);
      assert forall b :: b in head ==> b in bs;
    }
  }

  /** A gap before the next blocker is the earliest free slot. */
  lemma GapIsEarliest(bs: seq<Blocker>, n: nat, start: int, cursor: int, duration: int)
    requires SortedByStart(bs) && n <= |bs| && start <= cursor
    requires Passed(bs, n, cursor, duration) && NoneFree(bs[..n], start, cursor, duration)
    requires n < |bs| ==> cursor + duration <= bs[n].s
    ensures IsEarliest(cursor, start, duration, bs)
  {
    StaysBusy(bs, n, start, cursor, duration);
    forall b | b in bs ensures !Meets(cursor, duration, b) {
      var k :| 0 <= k < |bs| && bs[k] == b;
    }
  }

  /** The slot is the earliest free one, or there is none: then the earliest free one lies behind
      every blocker and ends more than an hour after the day. */
  ghost predicate IsAnswer(slot: Option<int>, start: int, duration: int, bs: seq<Blocker>, dayEnd: int) {
    match slot
    case Some(t) =>
      && IsEarliest(t, start, duration, bs)
      && (t + duration <= dayEnd + 60 || exists b :: b in bs && t + duration <= b.s)
    case None =>
      exists t ::
        IsEarliest(t, start, duration, bs) && t + duration > dayEnd + 60 && forall b :: b in bs ==> b.s < t + duration
  }

  /** An answer speaks of the blockers, not of their order. */
  lemma SameAnswer(slot: Option<int>, start: int, duration: int, bs: seq<Blocker>, cs: seq<Blocker>, dayEnd: int)
    requires forall b :: b in bs <==> b in cs
    requires IsAnswer(slot, start, duration, bs, dayEnd)
    ensures IsAnswer(slot, start, duration, cs, dayEnd)
  {
    assert forall t :: IsFree(t, duration, bs) <==> IsFree(t, duration, cs);
    assert forall t :: IsEarliest(t, start, duration, bs) <==> IsEarliest(t, start, duration, cs);
  }

  method WalkBlockers(bs: seq<Blocker>, start: int, duration: int, dayEnd: int) returns (slot: Option<int>)
    requires SortedByStart(bs)
    ensures IsAnswer(slot, start, duration, bs, dayEnd)
  {
    var cursor := start;
    for n := 0 to |bs|
      invariant start <= cursor && Passed(bs, n, cursor, duration) && NoneFree(bs[..n], start, cursor, duration)
    {
      var b := bs[n];
      if cursor + duration <= b.s {
        GapIsEarliest(bs, n, start, cursor, duration);
        return Some(cursor);
      }
      StepOver(bs, n, start, cursor, duration);
      if cursor < b.e {
        cursor := b.e;
      }
    }
    GapIsEarliest(bs, |bs|, start, cursor, duration);
    return if cursor + duration <= dayEnd + 60 then Some(cursor) else None;
  }

  /** A task to place: its length, the current minute, and whether it already has an open task. */
  datatype Request = Request(duration: nat, nowMin: int, hasOpenTask: bool, force: bool)

  datatype Placement = Placement(start: int, duration: nat, fellBack: bool)

  predicate Overlap(p: Placement, q: Placement) {
    p.start < q.start + q.duration && q.start < p.start + p.duration
  }

  /** The requests that are placed: those without an open task, and the forced ones. */
  function Wanted(requests: seq<Request>): seq<Request> {
    if requests == [] then []
    else
      var last := requests[|requests| - 1];
      Wanted(requests[..|requests| - 1]) + (if !last.hasOpenTask || last.force then [last] else [])
  }

  /** One placement for each wanted request, in their order, not before its minute. */
  ghost predicate AreServed(placed: seq<Placement>, wanted: seq<Request>) {
    && |placed| == |wanted|
    && forall k :: 0 <= k < |placed| ==> placed[k].duration == wanted[k].duration && placed[k].start >= wanted[k].nowMin
  }

  lemma OneMoreWanted(requests: seq<Request>, n: nat)
    requires n < |requests|
    ensures Wanted(requests[..n + 1])
         == Wanted(requests[..n]) + (if !requests[n].hasOpenTask || requests[n].force then [requests[n]] else [])
  {
    assert requests[..n + 1][..n] == requests[..n];
  }

  function Interval(p: Placement): Blocker {
    Blocker(p.start, p.start + p.duration)
  }

  /** Every placement blocks its interval; while nothing fell back, no two of them overlap and none
      meets a blocker that was loaded with the day. */
  ghost predicate IsBatch(loaded: seq<Blocker>, blockers: seq<Blocker>, placed: seq<Placement>) {
    && (forall b :: b in loaded ==> b in blockers)
    && (forall k :: 0 <= k < |placed| ==> Interval(placed[k]) in blockers)
    && ((forall k :: 0 <= k < |placed| ==> !placed[k].fellBack) ==>
          && (forall i, j :: 0 <= i < j < |placed| ==> !Overlap(placed[i], placed[j]))
          && (forall k :: 0 <= k < |placed| ==> IsFree(placed[k].start, placed[k].duration, loaded)))
  }

  lemma BatchGrows(loaded: seq<Blocker>, busy: seq<Blocker>, blockers: seq<Blocker>, before: seq<Placement>, p: Placement)
    requires IsBatch(loaded, busy, before)
    requires forall b :: b in blockers <==> b in busy || b == Interval(p)
    requires !p.fellBack ==> IsFree(p.start, p.duration, busy)
    ensures IsBatch(loaded, blockers, before + [p])
  {
    var placed := before + [p];
    assert forall k :: 0 <= k < |before| ==> placed[k] == before[k];
    if !p.fellBack {
      forall k | 0 <= k < |before| ensures !Overlap(before[k], p) {
        assert Interval(before[k]) in busy && !Meets(p.start, p.duration, Interval(before[k]));
      }
      assert IsFree(p.start, p.duration, loaded);
    }
  }

  /** One loaded day.  Every placed task is added to the blockers. */
  class DayContext {
    const dayStart: int
    const dayEnd: int
    var blockers: seq<Blocker>
    var placed: seq<Placement>

    /** The user's own start of day is a floor; the day ends at five unless it starts later. */
    constructor (floorMin: Option<int>, loaded: seq<Blocker>)
      ensures blockers == loaded && placed == []
      ensures 540 <= dayStart <= dayEnd && 1020 <= dayEnd
    {
      var start := if floorMin.None? || floorMin.value < 540 then 540 else floorMin.value;
      dayStart := start;
      dayEnd := if start < 1020 then 1020 else start;
      blockers, placed := loaded, [];
    }

    /** Sorts the blockers in place and walks a cursor over them. */
    method FirstFreeSlot(start: int, duration: int) returns (slot: Option<int>)
      modifies this`blockers
      ensures IsStableSort(blockers, old(blockers))
      ensures forall b :: b in blockers <==> b in old(blockers)
      ensures IsAnswer(slot, start, duration, blockers, dayEnd)
    {
      SortIsStable(blockers);
      blockers := Sort(blockers);
      slot := WalkBlockers(blockers, start, duration, dayEnd);
    }

    /** Places one task: the free slot, or the start of the window when there is none. */
    method Schedule(r: Request) returns (placement: Option<Placement>)
      requires 540 <= dayStart <= dayEnd
      modifies this
      ensures placement.None? <==> r.hasOpenTask && !r.force
      ensures placement.None? ==> placed == old(placed) && blockers == old(blockers)
      ensures placement.Some? ==>
                var p := placement.value;
                var from := if r.nowMin > dayStart then r.nowMin else dayStart;
                && p.duration == r.duration && p.start >= from
                && placed == old(placed) + [p]
                && (forall b :: b in blockers <==> b in old(blockers) || b == Blocker(p.start, p.start + p.duration))
                && IsAnswer(if p.fellBack then None else Some(p.start), from, r.duration, old(blockers), dayEnd)
                && (p.fellBack ==> p.start == from)
    {
      if r.hasOpenTask && !r.force {
        return None;
      }
      var from := if r.nowMin > dayStart then r.nowMin else dayStart;
      var found := FirstFreeSlot(from, r.duration);
      ghost var sorted := blockers;
      SameAnswer(found, from, r.duration, sorted, old(blockers), dayEnd);
      var p := Placement(if found.Some? then found.value else from, r.duration, found.None?);
      blockers := blockers + [Blocker(p.start, p.start + p.duration)];
      placed := placed + [p];
      return Some(p);
    }

    ghost predicate BatchIsSound(loaded: seq<Blocker>)
      reads this
    {
      IsBatch(loaded, blockers, placed)
    }

    method ScheduleAll(requests: seq<Request>)
      requires 540 <= dayStart <= dayEnd && placed == []
      modifies this
      ensures BatchIsSound(old(blockers)) && AreServed(placed, Wanted(requests))
    {
      ghost var loaded := blockers;
      for n := 0 to |requests|
        invariant BatchIsSound(loaded) && AreServed(placed, Wanted(requests[..n]))
      {
        OneMoreWanted(requests, n);
        ghost var before, busy := placed, blockers;
        var placement := Schedule(requests[n]);
        if placement.Some? {
          BatchGrows(loaded, busy, blockers, before, placement.value);
        }
      }
      assert requests[..|requests|] == requests;
    }
  }
}
