/** A sweep repeated with the same feed at the same clock (meeting-materializer.js): when it changes
    nothing, and when it does. */
module MeetingFixpoint {
  import opened Options
  import opened MeetingSweep
  import MeetingStore

  /** No open meeting is filed, however deep, under another open meeting. */
  ghost predicate OpenAreFree(rows: Rows) {
    forall m, c :: m in rows && c in rows && m != c && IsOpenMeeting(rows[m]) && IsOpenMeeting(rows[c]) ==>
      !Reached(rows, rows.Keys, m, c)
  }

  lemma OpenFreeStays(rows: Rows, after: Rows)
    requires OpenAreFree(rows) && NestsShrink(rows, after) && Grows(rows, after)
    requires forall id :: id in rows && IsOpenMeeting(after[id]) ==> IsOpenMeeting(rows[id])
    ensures OpenAreFree(after)
  {
    forall m, c | m in after && c in after && m != c && IsOpenMeeting(after[m]) && IsOpenMeeting(after[c])
      ensures !Reached(after, after.Keys, m, c)
    {
      if Reached(after, after.Keys, m, c) {
        ReachedShrinks(rows, after, m, c);
        ReachedIsNested(rows, rows.Keys, m, c);
      }
    }
  }

  // ===== The first pass settles every event =====

  /** The event of this item needs nothing more. */
  ghost predicate Settled(rows: Rows, m: Item) {
    HasMeeting(rows, m.identity) &&
    var r := rows[MeetingOf(rows, m.identity)]; r.deleted || r.completed || !Changed(r, m)
  }

  /** Live rows of events are claimed. */
  ghost predicate ClaimsRow(p: Pass, m: Item) {
    HasMeeting(p.rows, m.identity) && (p.rows[MeetingOf(p.rows, m.identity)].deleted || MeetingOf(p.rows, m.identity) in p.claimed)
  }

  ghost predicate SoundPass(p: Pass) {
    Sound(Store(p.rows, p.next)) && OpenAreFree(p.rows)
  }

  lemma MaterializingSettles(p: Pass, ctx: set<Key>, m: Item)
    requires Sound(Store(p.rows, p.next)) && m.identity != ""
    ensures Settled(Materialized(p, ctx, m).rows, m) && ClaimsRow(Materialized(p, ctx, m), m)
  {
    var after := Materialized(p, ctx, m);
    MaterializedKeeps(p, ctx, m);
    var id := if HasMeeting(p.rows, m.identity) then MeetingOf(p.rows, m.identity) else Uuid(p.next);
    MeetingIsUnique(after.rows, id, m.identity);
    if HasMeeting(p.rows, m.identity) {
      ReconcilingSettles(p.rows[id], m);
    } else {
      ReconcilingSettles(NewRow(m), m);
    }
  }

  lemma MaterializingStaysFree(p: Pass, ctx: set<Key>, m: Item)
    requires SoundPass(p) && m.identity != ""
    ensures SoundPass(Materialized(p, ctx, m))
  {
    MaterializedKeeps(p, ctx, m);
    if HasMeeting(p.rows, m.identity) {
      var id := MeetingOf(p.rows, m.identity);
      if IsOpenMeeting(p.rows[id]) {
        ReconciledShrinks(p.rows, ctx, id, m);
        OpenFreeStays(p.rows, Reconciled(p.rows, ctx, id, m));
      }
    } else {
      CreatedShrinks(Store(p.rows, p.next), m);
      OpenFreeStays(p.rows, p.rows[Uuid(p.next) := NewRow(m)]);
    }
  }

  lemma {:induction false} FirstPassStaysFree(p: Pass, ctx: set<Key>, items: seq<Item>)
    requires SoundPass(p) && NamesAreSet(items)
    ensures SoundPass(MaterializedAll(p, ctx, items))
  {
    if items != [] {
      FirstPassStaysFree(p, ctx, items[..|items| - 1]);
      MaterializingStaysFree(MaterializedAll(p, ctx, items[..|items| - 1]), ctx, items[|items| - 1]);
    }
  }

  /** An event of another identity leaves an open meeting alone. */
  lemma OtherMeetingsStay(p: Pass, ctx: set<Key>, m: Item, id: Key)
    requires SoundPass(p) && m.identity != ""
    requires id in p.rows && IsOpenMeeting(p.rows[id]) && p.rows[id].sourceId != Some(m.identity)
    ensures id in Materialized(p, ctx, m).rows && Materialized(p, ctx, m).rows[id] == p.rows[id]
    ensures id in Materialized(p, ctx, m).claimed ==> id in p.claimed
  {
    if HasMeeting(p.rows, m.identity) {
      var x := MeetingOf(p.rows, m.identity);
      if IsOpenMeeting(p.rows[x]) && Reached(p.rows, ctx, x, id) {
        LargerContextReaches(p.rows, ctx, x, id);
      }
    }
  }

  lemma OtherEventsKeepSettled(p: Pass, ctx: set<Key>, m: Item, other: Item)
    requires SoundPass(p) && other.identity != "" && other.identity != m.identity && m.identity != ""
    requires Settled(p.rows, m) && ClaimsRow(p, m)
    ensures Settled(Materialized(p, ctx, other).rows, m) && ClaimsRow(Materialized(p, ctx, other), m)
  {
    var id := MeetingOf(p.rows, m.identity);
    MaterializedKeeps(p, ctx, other);
    MeetingIsUnique(Materialized(p, ctx, other).rows, id, m.identity);
    assert p.claimed <= Materialized(p, ctx, other).claimed;
    if IsOpenMeeting(p.rows[id]) {
      OtherMeetingsStay(p, ctx, other, id);
    }
  }

  ghost predicate DistinctIdentities(items: seq<Item>) {
    forall j, k :: 0 <= j < k < |items| ==> items[j].identity != items[k].identity
  }

  lemma {:induction false} FirstPassSettles(p: Pass, ctx: set<Key>, items: seq<Item>, k: nat)
    requires SoundPass(p) && NamesAreSet(items) && DistinctIdentities(items) && k < |items|
    ensures Settled(MaterializedAll(p, ctx, items).rows, items[k]) && ClaimsRow(MaterializedAll(p, ctx, items), items[k])
  {
    var n := |items| - 1;
    var front, last := items[..n], items[n];
    var before := MaterializedAll(p, ctx, front);
    FirstPassStaysFree(p, ctx, front);
    assert MaterializedAll(p, ctx, items) == Materialized(before, ctx, last);
    if k == n {
      MaterializingSettles(before, ctx, last);
    } else {
      assert front[k] == items[k] && items[k].identity != last.identity;
      FirstPassSettles(p, ctx, front, k);
      OtherEventsKeepSettled(before, ctx, items[k], last);
    }
  }

  ghost predicate NamesEvent(items: seq<Item>, source: string) {
    exists k :: 0 <= k < |items| && items[k].identity == source
  }

  /** An open meeting after an event of another name was there before, the same. */
  lemma UnnamedWasThere(p: Pass, ctx: set<Key>, m: Item, id: Key)
    requires SoundPass(p) && m.identity != ""
    requires id in Materialized(p, ctx, m).rows && IsOpenMeeting(Materialized(p, ctx, m).rows[id])
    requires Materialized(p, ctx, m).rows[id].sourceId != Some(m.identity)
    ensures id in p.rows && Materialized(p, ctx, m).rows[id] == p.rows[id]
    ensures id in Materialized(p, ctx, m).claimed ==> id in p.claimed
  {
    MaterializedKeeps(p, ctx, m);
    assert id in p.rows;
    OtherMeetingsStay(p, ctx, m, id);
  }

  lemma {:induction false} UnnamedMeetingsStay(p: Pass, ctx: set<Key>, items: seq<Item>, id: Key)
    requires SoundPass(p) && NamesAreSet(items)
    requires var after := MaterializedAll(p, ctx, items);
             id in after.rows && IsOpenMeeting(after.rows[id]) && !NamesEvent(items, after.rows[id].sourceId.value)
    ensures id in p.rows && MaterializedAll(p, ctx, items).rows[id] == p.rows[id]
    ensures id in MaterializedAll(p, ctx, items).claimed ==> id in p.claimed
  {
    if items != [] {
      var n := |items| - 1;
      var before := MaterializedAll(p, ctx, items[..n]);
      FirstPassStaysFree(p, ctx, items[..n]);
      UnnamedWasThere(before, ctx, items[n], id);
      assert forall k :: 0 <= k < n ==> items[..n][k] == items[k];
      UnnamedMeetingsStay(p, ctx, items[..n], id);
    }
  }

  // ===== The cancellations clear the window =====

  /** The rows some cancellations after the first pass. */
  ghost predicate Clearing(base: Rows, rows: Rows, w: Window) {
    && rows.Keys == base.Keys && Evolves(base, rows)
    && (forall k :: k in base && rows[k].deleted && !base[k].deleted ==> IsOpenMeeting(base[k]))
    && (forall k :: k in base ==> RefOf(rows[k]).None? || RefOf(rows[k]) == RefOf(base[k]))
    && (forall k :: k in base && k in w.loaded ==> !base[k].deleted)
  }

  lemma NoOpenChild(base: Rows, b: Key, c: Key)
    requires OpenAreFree(base) && b in base && c in base && b != c && IsOpenMeeting(base[b]) && IsOpenMeeting(base[c])
    ensures !Nests(base, base.Keys, b, c)
  {
    if Nests(base, base.Keys, b, c) {
      ChildIsReached(base, b, c);
    }
  }

  /** No open meeting is a child of a stale one. */
  lemma StaleHasNoOpenChild(base: Rows, rows: Rows, w: Window, b: Key, c: Key)
    requires OpenAreFree(base) && Clearing(base, rows, w) && IsStale(rows, w, b) && c in base && IsOpenMeeting(base[c])
    ensures !Loses(rows, w.loaded, b, c)
  {
    if Loses(rows, w.loaded, b, c) {
      NoOpenChild(base, b, c);
    }
  }

  lemma CancelledRow(rows: Rows, w: Window, b: Key, k: Key)
    requires k in rows
    ensures var after := Cancelled(rows, w, b);
            && k in after
            && (after[k].deleted ==> rows[k].deleted || (k == b && IsStale(rows, w, b)))
            && (RefOf(after[k]).None? || RefOf(after[k]) == RefOf(rows[k]))
  {
  }

  /** A cancellation deletes an open meeting, and files rows under what they were filed or nothing. */
  lemma CancelStaysClear(base: Rows, rows: Rows, w: Window, b: Key)
    requires OneRowPerSource(rows) && Clearing(base, rows, w) && IsStale(rows, w, b)
    ensures Clearing(base, Cancelled(rows, w, b), w)
  {
    CancelledKeeps(rows, w, b);
    var after := Cancelled(rows, w, b);
    EvolvesOn(base, rows, after);
    forall k | k in base
      ensures after[k].deleted && !base[k].deleted ==> IsOpenMeeting(base[k])
      ensures RefOf(after[k]).None? || RefOf(after[k]) == RefOf(base[k])
    {
      CancelledRow(rows, w, b, k);
    }
  }

  /** No deleted row loses a stale parent: what was loaded was live, and no open meeting is a child. */
  lemma StaleIsCancelled(base: Rows, rows: Rows, w: Window, b: Key)
    requires OpenAreFree(base) && Clearing(base, rows, w) && IsStale(rows, w, b)
    ensures !BatchFails(rows, w.loaded, b)
  {
    forall c | c in base && IsOpenMeeting(base[c]) ensures !Loses(rows, w.loaded, b, c) {
      StaleHasNoOpenChild(base, rows, w, b, c);
    }
  }

  lemma CancelStep(base: Rows, rows: Rows, w: Window, b: Key)
    requires OneRowPerSource(rows) && OpenAreFree(base) && Clearing(base, rows, w)
    ensures Clearing(base, Cancelled(rows, w, b), w) && OneRowPerSource(Cancelled(rows, w, b))
    ensures IsStale(rows, w, b) ==> Cancelled(rows, w, b)[b].deleted
    ensures forall k :: k in base && IsOpenMeeting(base[k]) && (k != b || !IsStale(rows, w, b)) ==>
              Cancelled(rows, w, b)[k] == rows[k]
  {
    CancelledKeeps(rows, w, b);
    if IsStale(rows, w, b) {
      CancelStaysClear(base, rows, w, b);
      StaleIsCancelled(base, rows, w, b);
      forall k | k in base && IsOpenMeeting(base[k]) ensures !Loses(rows, w.loaded, b, k) {
        StaleHasNoOpenChild(base, rows, w, b, k);
      }
    }
  }

  lemma {:induction false} CancelSteps(base: Rows, w: Window, order: seq<Key>)
    requires OneRowPerSource(base) && OpenAreFree(base) && Clearing(base, base, w)
    ensures Clearing(base, CancelledAll(base, w, order), w) && OneRowPerSource(CancelledAll(base, w, order))
  {
    if order != [] {
      var n := |order| - 1;
      CancelSteps(base, w, order[..n]);
      CancelStep(base, CancelledAll(base, w, order[..n]), w, order[n]);
    }
  }

  /** Every stale meeting of the window is cancelled. */
  lemma {:induction false} StaleMeetingsAreCancelled(base: Rows, w: Window, order: seq<Key>, b: Key)
    requires OneRowPerSource(base) && OpenAreFree(base) && Clearing(base, base, w)
    requires IsStale(base, w, b) && b in order
    ensures b in CancelledAll(base, w, order) && CancelledAll(base, w, order)[b].deleted
  {
    var n := |order| - 1;
    var before := CancelledAll(base, w, order[..n]);
    CancelSteps(base, w, order[..n]);
    CancelStep(base, before, w, order[n]);
    if b == order[n] {
      CancelledKeeps(before, w, b);
    } else {
      assert order == order[..n] + [order[n]];
      StaleMeetingsAreCancelled(base, w, order[..n], b);
      CancelledKeeps(before, w, order[n]);
    }
  }

  /** An open meeting that is not stale is left alone. */
  lemma {:induction false} FreshMeetingsStay(base: Rows, w: Window, order: seq<Key>, k: Key)
    requires OneRowPerSource(base) && OpenAreFree(base) && Clearing(base, base, w)
    requires k in base && IsOpenMeeting(base[k]) && !IsStale(base, w, k)
    ensures k in CancelledAll(base, w, order) && CancelledAll(base, w, order)[k] == base[k]
  {
    if order != [] {
      var n := |order| - 1;
      FreshMeetingsStay(base, w, order[..n], k);
      CancelSteps(base, w, order[..n]);
      CancelStep(base, CancelledAll(base, w, order[..n]), w, order[n]);
    }
  }

  // ===== The second sweep =====

  lemma MaterializingDeletesNothing(p: Pass, ctx: set<Key>, m: Item, id: Key)
    requires IdsDrawn(p.rows, p.next) && id in p.rows
    ensures id in Materialized(p, ctx, m).rows && Materialized(p, ctx, m).rows[id].deleted == p.rows[id].deleted
  {
  }

  lemma {:induction false} FirstPassDeletesNothing(p: Pass, ctx: set<Key>, items: seq<Item>, id: Key)
    requires Sound(Store(p.rows, p.next)) && NamesAreSet(items) && id in p.rows
    ensures id in MaterializedAll(p, ctx, items).rows
    ensures MaterializedAll(p, ctx, items).rows[id].deleted == p.rows[id].deleted
  {
    if items != [] {
      var before := MaterializedAll(p, ctx, items[..|items| - 1]);
      FirstPassKeeps(p, ctx, items[..|items| - 1]);
      FirstPassDeletesNothing(p, ctx, items[..|items| - 1], id);
      MaterializingDeletesNothing(before, ctx, items[|items| - 1], id);
    }
  }

  /** The state between the two passes is ready to be cleared. */
  lemma ReadyToClear(s: Store, plan: Plan)
    requires Sound(s) && NamesItems(plan) && OpenAreFree(s.rows)
    ensures SoundPass(FirstPass(s, plan)) && Clearing(FirstPass(s, plan).rows, FirstPass(s, plan).rows, WindowOf(s, plan))
    ensures Evolves(s.rows, FirstPass(s, plan).rows)
  {
    var p, w, start := FirstPass(s, plan), WindowOf(s, plan), Pass(s.rows, s.next, {});
    FirstPassKeeps(start, Context(s.rows, plan), plan.items);
    FirstPassStaysFree(start, Context(s.rows, plan), plan.items);
    forall c | c in w.loaded && c in p.rows ensures !p.rows[c].deleted {
      FirstPassDeletesNothing(start, Context(s.rows, plan), plan.items, c);
    }
  }

  /** After a sweep every event of the feed is settled. */
  lemma SweepSettles(s: Store, plan: Plan, order: seq<Key>, k: nat)
    requires Sound(s) && NamesItems(plan) && OpenAreFree(s.rows) && DistinctIdentities(plan.items)
    requires k < |plan.items|
    ensures Settled(Swept(s, plan, order).rows, plan.items[k])
  {
    var m, p, w := plan.items[k], FirstPass(s, plan), WindowOf(s, plan);
    ReadyToClear(s, plan);
    FirstPassSettles(Pass(s.rows, s.next, {}), Context(s.rows, plan), plan.items, k);
    var id := MeetingOf(p.rows, m.identity);
    CancelSteps(p.rows, w, order);
    if IsOpenMeeting(p.rows[id]) {
      FreshMeetingsStay(p.rows, w, order, id);
    }
    MeetingIsUnique(Swept(s, plan, order).rows, id, m.identity);
  }

  /** After a first pass the live, uncompleted row of every event shows it. */
  lemma FirstPassShows(p: Pass, ctx: set<Key>, items: seq<Item>, k: nat)
    requires SoundPass(p) && NamesAreSet(items) && DistinctIdentities(items) && k < |items|
    ensures var rows, m := MaterializedAll(p, ctx, items).rows, items[k];
            && HasMeeting(rows, m.identity)
            && var r := rows[MeetingOf(rows, m.identity)]; r.deleted || r.completed || Shows(r, m)
  {
    FirstPassSettles(p, ctx, items, k);
    var rows := MaterializedAll(p, ctx, items).rows;
    UnchangedMeansShown(rows[MeetingOf(rows, items[k].identity)], items[k]);
  }

  /** ... and so it is after a whole sweep, for every eligible event of the feed. */
  lemma SweepShowsEvents(s: Store, feed: MeetingStore.Feed, plan: Plan, order: seq<Key>, k: nat) returns (m: Item)
    requires Sound(s) && OpenAreFree(s.rows) && MeetingStore.IsPlanOf(feed, plan) && DistinctIdentities(plan.items)
    requires k < |feed.events| && MeetingStore.IsEligible(feed.events[k])
    ensures MeetingStore.Repeats(m, feed.events[k])
    ensures var rows := Swept(s, plan, order).rows;
            && HasMeeting(rows, m.identity)
            && var r := rows[MeetingOf(rows, m.identity)]; r.deleted || r.completed || Shows(r, m)
  {
    var days :| plan == MeetingStore.PlanOf(feed, days);
    MeetingStore.PlanNamesItems(feed, days);
    var j := MeetingStore.EventIsPlanned(feed, plan, k);
    m := plan.items[j];
    SweepSettles(s, plan, order, j);
    var rows := Swept(s, plan, order).rows;
    UnchangedMeansShown(rows[MeetingOf(rows, m.identity)], m);
  }

  /** An open meeting on a day of the window that the feed does not name is cancelled. */
  lemma AbsentMeetingIsCancelled(s: Store, plan: Plan, order: seq<Key>, b: Key)
    requires Sound(s) && NamesItems(plan) && OpenAreFree(s.rows) && IsOrder(s.rows, plan, order)
    requires b in s.rows && IsOpenMeeting(s.rows[b]) && s.rows[b].date in plan.window
    requires forall d :: d in plan.incoming ==> s.rows[b].sourceId.value !in plan.incoming[d]
    ensures b in Swept(s, plan, order).rows && Swept(s, plan, order).rows[b].deleted
  {
    var p, w, start := FirstPass(s, plan), WindowOf(s, plan), Pass(s.rows, s.next, {});
    ReadyToClear(s, plan);
    FirstPassDeletesNothing(start, Context(s.rows, plan), plan.items, b);
    assert !NamesEvent(plan.items, p.rows[b].sourceId.value);
    UnnamedMeetingsStay(start, Context(s.rows, plan), plan.items, b);
    assert b in DaysOf(s.rows, plan);
    StaleMeetingsAreCancelled(p.rows, w, order, b);
  }

  /** A first pass over settled events claims their live rows and changes nothing. */
  lemma {:induction false} SettledPassChangesNothing(p: Pass, ctx: set<Key>, items: seq<Item>)
    requires forall k :: 0 <= k < |items| ==> Settled(p.rows, items[k])
    ensures MaterializedAll(p, ctx, items).rows == p.rows && MaterializedAll(p, ctx, items).next == p.next
    ensures forall k :: 0 <= k < |items| ==> ClaimsRow(MaterializedAll(p, ctx, items), items[k])
  {
    if items != [] {
      SettledPassChangesNothing(p, ctx, items[..|items| - 1]);
      var before, after := MaterializedAll(p, ctx, items[..|items| - 1]), MaterializedAll(p, ctx, items);
      assert before.claimed <= after.claimed;
      forall k | 0 <= k < |items| ensures ClaimsRow(after, items[k]) {
        if k < |items| - 1 {
          assert ClaimsRow(before, items[..|items| - 1][k]);
        }
      }
    }
  }

  /** An open meeting of the window that no event names did not survive the first sweep. */
  lemma StaleDidNotSurvive(s: Store, plan: Plan, order: seq<Key>, b: Key)
    requires Sound(s) && NamesItems(plan) && OpenAreFree(s.rows) && IsOrder(s.rows, plan, order)
    requires var after := Swept(s, plan, order).rows;
             && b in after && after[b].calendar && Truthy(after[b].sourceId) && !after[b].completed
             && !NamesEvent(plan.items, after[b].sourceId.value)
             && after[b].date in plan.window
             && !(after[b].date in plan.incoming && after[b].sourceId.value in plan.incoming[after[b].date])
    ensures Swept(s, plan, order).rows[b].deleted
  {
    var p, w, after := FirstPass(s, plan), WindowOf(s, plan), Swept(s, plan, order).rows;
    ReadyToClear(s, plan);
    CancelSteps(p.rows, w, order);
    if !after[b].deleted {
      assert IsOpenMeeting(p.rows[b]);
      UnnamedMeetingsStay(Pass(s.rows, s.next, {}), Context(s.rows, plan), plan.items, b);
      if IsStale(p.rows, w, b) {
        assert b in DaysOf(s.rows, plan);
        StaleMeetingsAreCancelled(p.rows, w, order, b);
      } else {
        FreshMeetingsStay(p.rows, w, order, b);
      }
    }
  }

  lemma NamedIsNotStale(t: Store, plan: Plan, b: Key, k: nat)
    requires Sound(t) && forall k :: 0 <= k < |plan.items| ==> Settled(t.rows, plan.items[k])
    requires k < |plan.items| && b in t.rows && IsMeeting(t.rows[b], plan.items[k].identity)
    ensures !IsStale(t.rows, WindowOf(t, plan), b)
  {
    SettledPassChangesNothing(Pass(t.rows, t.next, {}), Context(t.rows, plan), plan.items);
    MeetingIsUnique(t.rows, b, plan.items[k].identity);
    assert ClaimsRow(FirstPass(t, plan), plan.items[k]);
  }

  lemma NothingIsStaleAgain(s: Store, plan: Plan, order: seq<Key>, b: Key)
    requires Sound(s) && NamesItems(plan) && OpenAreFree(s.rows) && DistinctIdentities(plan.items)
    requires IsOrder(s.rows, plan, order)
    ensures !IsStale(Swept(s, plan, order).rows, WindowOf(Swept(s, plan, order), plan), b)
  {
    var t := Swept(s, plan, order);
    SweepKeepsMeetings(s, plan, order);
    forall k | 0 <= k < |plan.items| ensures Settled(t.rows, plan.items[k]) {
      SweepSettles(s, plan, order, k);
    }
    if IsStale(t.rows, WindowOf(t, plan), b) {
      if k :| 0 <= k < |plan.items| && plan.items[k].identity == t.rows[b].sourceId.value {
        NamedIsNotStale(t, plan, b, k);
      } else {
        StaleDidNotSurvive(s, plan, order, b);
      }
    }
  }

  /** Sweeping the same feed again at the same clock changes nothing. */
  lemma SecondSweepChangesNothing(s: Store, plan: Plan, order: seq<Key>, again: seq<Key>)
    requires Sound(s) && NamesItems(plan) && OpenAreFree(s.rows) && DistinctIdentities(plan.items)
    requires IsOrder(s.rows, plan, order) && IsOrder(Swept(s, plan, order).rows, plan, again)
    ensures Swept(Swept(s, plan, order), plan, again) == Swept(s, plan, order)
  {
    var t := Swept(s, plan, order);
    SweepKeepsMeetings(s, plan, order);
    forall k | 0 <= k < |plan.items| ensures Settled(t.rows, plan.items[k]) {
      SweepSettles(s, plan, order, k);
    }
    SettledPassChangesNothing(Pass(t.rows, t.next, {}), Context(t.rows, plan), plan.items);
    var w := WindowOf(t, plan);
    forall b | b in again ensures !IsStale(t.rows, w, b) {
      NothingIsStaleAgain(s, plan, order, b);
    }
    NothingStale(t.rows, w, again);
  }

  // ===== The other direction =====

  /** No two open meetings are filed under each other. */
  ghost predicate OpenNestOneWay(rows: Rows) {
    forall a, b ::
      (a in rows && b in rows && a != b && IsOpenMeeting(rows[a]) && IsOpenMeeting(rows[b])
       && Reached(rows, rows.Keys, a, b)) ==> !Reached(rows, rows.Keys, b, a)
  }

  /** Rows that are filed alike. */
  ghost predicate SameFiling(rows: Rows, after: Rows) {
    rows.Keys == after.Keys && forall k :: k in rows ==>
      rows[k].deleted == after[k].deleted && RefOf(rows[k]) == RefOf(after[k]) && rows[k].localId == after[k].localId
  }

  lemma SameFilingReaches(rows: Rows, after: Rows, ctx: set<Key>, a: Key, b: Key)
    requires SameFiling(rows, after) && Reached(rows, ctx, a, b)
    ensures Reached(after, ctx, a, b)
  {
    var chain :| IsChain(rows, ctx, chain) && chain[0] == a && chain[|chain| - 1] == b;
    forall k | 0 <= k < |chain| - 1 ensures Nests(after, ctx, chain[k], chain[k + 1]) {
      assert Nests(rows, ctx, chain[k], chain[k + 1]);
    }
    assert IsChain(after, ctx, chain);
  }

  /** One meeting stays on its day while the meeting above it goes to the next. */
  function Clash(rows: Rows, m: Key, c: Key): seq<Item>
    requires m in rows && c in rows && IsOpenMeeting(rows[m]) && IsOpenMeeting(rows[c])
  {
    [EventAt(rows[c], rows[c].date), EventAt(rows[m], rows[m].date + 1)]
  }

  /** Two open meetings. */
  ghost predicate IsPair(s: Store, m: Key, c: Key) {
    && Sound(s) && m in s.rows && c in s.rows && m != c
    && IsOpenMeeting(s.rows[m]) && IsOpenMeeting(s.rows[c])
  }

  predicate SameEvent(a: Row, b: Row) {
    a.calendar == b.calendar && a.sourceId == b.sourceId && a.deleted == b.deleted && a.completed == b.completed
  }

  /** Events that keep the lower meeting on its day and take the upper one to the next. */
  ghost predicate IsClash(s: Store, m: Key, c: Key, lower: Item, upper: Item) {
    && IsPair(s, m, c)
    && IsMeeting(s.rows[c], lower.identity) && lower.day == s.rows[c].date && lower.start.None?
    && IsMeeting(s.rows[m], upper.identity) && upper.day == s.rows[m].date + 1
  }

  /** After the first event at most the facts of the lower meeting changed. */
  lemma LowerMeetingStays(s: Store, ctx: set<Key>, m: Key, c: Key, lower: Item)
    requires IsPair(s, m, c) && IsMeeting(s.rows[c], lower.identity) && lower.day == s.rows[c].date && lower.start.None?
    ensures var p := Materialized(Pass(s.rows, s.next, {}), ctx, lower);
            && SameFiling(s.rows, p.rows) && p.rows[m] == s.rows[m]
            && SameEvent(p.rows[c], s.rows[c]) && p.rows[c].date == s.rows[c].date
  {
    MeetingIsUnique(s.rows, c, lower.identity);
    assert !Moves(s.rows[c], lower);
  }

  lemma UpperMeetingMoves(p: Pass, ctx: set<Key>, m: Key, c: Key, upper: Item)
    requires Sound(Store(p.rows, p.next)) && m in p.rows && c in p.rows && m != c
    requires IsOpenMeeting(p.rows[m]) && IsOpenMeeting(p.rows[c])
    requires Reached(p.rows, ctx, m, c)
    requires IsMeeting(p.rows[m], upper.identity) && upper.day == p.rows[m].date + 1
    ensures var q := Materialized(p, ctx, upper);
            && SameFiling(p.rows, q.rows) && SameEvent(q.rows[m], p.rows[m])
            && SameEvent(q.rows[c], p.rows[c]) && q.rows[c].date == p.rows[c].date + 1
  {
    MeetingIsUnique(p.rows, m, upper.identity);
  }

  lemma UpperMeetingSettles(p: Pass, ctx: set<Key>, m: Key, upper: Item)
    requires Sound(Store(p.rows, p.next)) && m in p.rows && IsOpenMeeting(p.rows[m])
    requires IsMeeting(p.rows[m], upper.identity)
    ensures m in Materialized(p, ctx, upper).rows && !Changed(Materialized(p, ctx, upper).rows[m], upper)
  {
    MeetingIsUnique(p.rows, m, upper.identity);
    ReconcilingSettles(p.rows[m], upper);
  }

  /** How the rows of a clash look after the first sweep. */
  ghost predicate IsTakenAlong(rows: Rows, after: Rows, m: Key, c: Key, upper: Item)
    requires m in rows && c in rows
  {
    && SameFiling(rows, after) && m in after && c in after
    && after[c].date == rows[c].date + 1 && SameEvent(after[c], rows[c])
    && SameEvent(after[m], rows[m]) && !Changed(after[m], upper)
  }

  lemma TwoSteps(s: Store, ctx: set<Key>, m: Key, c: Key, lower: Item, upper: Item)
    requires IsClash(s, m, c, lower, upper) && Reached(s.rows, ctx, m, c)
    ensures var q := Materialized(Materialized(Pass(s.rows, s.next, {}), ctx, lower), ctx, upper);
            IsTakenAlong(s.rows, q.rows, m, c, upper)
  {
    var p := Materialized(Pass(s.rows, s.next, {}), ctx, lower);
    LowerMeetingStays(s, ctx, m, c, lower);
    MaterializedKeeps(Pass(s.rows, s.next, {}), ctx, lower);
    SameFilingReaches(s.rows, p.rows, ctx, m, c);
    UpperMeetingMoves(p, ctx, m, c, upper);
    UpperMeetingSettles(p, ctx, m, upper);
  }

  lemma TwoItems(p: Pass, ctx: set<Key>, items: seq<Item>)
    requires |items| == 2
    ensures MaterializedAll(p, ctx, items) == Materialized(Materialized(p, ctx, items[0]), ctx, items[1])
  {
    assert items[..1][..0] == [];
    assert MaterializedAll(p, ctx, items[..1]) == Materialized(MaterializedAll(p, ctx, items[..1][..0]), ctx, items[0]);
  }

  /** The second event takes the lower meeting along to the next day. */
  lemma LowerMeetingIsTakenAlong(s: Store, m: Key, c: Key, plan: Plan)
    requires |plan.items| == 2 && IsClash(s, m, c, plan.items[0], plan.items[1])
    requires Reached(s.rows, Context(s.rows, plan), m, c)
    ensures IsTakenAlong(s.rows, FirstPass(s, plan).rows, m, c, plan.items[1])
  {
    TwoSteps(s, Context(s.rows, plan), m, c, plan.items[0], plan.items[1]);
    TwoItems(Pass(s.rows, s.next, {}), Context(s.rows, plan), plan.items);
  }

  /** An event that puts the lower meeting back, and leaves the upper one alone. */
  lemma LowerMeetingComesBack(q: Pass, ctx: set<Key>, m: Key, c: Key, lower: Item, upper: Item)
    requires Sound(Store(q.rows, q.next)) && m in q.rows && c in q.rows && m != c && IsOpenMeeting(q.rows[c])
    requires IsMeeting(q.rows[c], lower.identity) && IsMeeting(q.rows[m], upper.identity)
    requires lower.day != q.rows[c].date && !Changed(q.rows[m], upper) && !Reached(q.rows, ctx, c, m)
    ensures var back := Materialized(Materialized(q, ctx, lower), ctx, upper);
            c in back.rows && back.rows[c].date == lower.day
  {
    MeetingIsUnique(q.rows, c, lower.identity);
    var back := Materialized(q, ctx, lower);
    MaterializedKeeps(q, ctx, lower);
    MeetingIsUnique(back.rows, m, upper.identity);
  }

  lemma ClashComesBack(s: Store, t: Store, m: Key, c: Key, plan: Plan)
    requires |plan.items| == 2 && IsClash(s, m, c, plan.items[0], plan.items[1])
    requires Sound(t) && !Reached(s.rows, s.rows.Keys, c, m)
    requires IsTakenAlong(s.rows, t.rows, m, c, plan.items[1])
    ensures c in FirstPass(t, plan).rows && FirstPass(t, plan).rows[c].date != t.rows[c].date
  {
    ghost var ctx := Context(t.rows, plan);
    if Reached(t.rows, ctx, c, m) {
      SameFilingReaches(t.rows, s.rows, ctx, c, m);
      LargerContextReaches(s.rows, ctx, c, m);
    }
    LowerMeetingComesBack(Pass(t.rows, t.next, {}), ctx, m, c, plan.items[0], plan.items[1]);
    TwoItems(Pass(t.rows, t.next, {}), ctx, plan.items);
  }

  ghost predicate SweepsSettle(s: Store) {
    forall plan, order, again ::
      (NamesItems(plan) && DistinctIdentities(plan.items) && IsOrder(s.rows, plan, order)
       && IsOrder(Swept(s, plan, order).rows, plan, again)) ==>
        Swept(Swept(s, plan, order), plan, again) == Swept(s, plan, order)
  }

  lemma ClashIsFeed(s: Store, m: Key, c: Key)
    requires IsPair(s, m, c)
    ensures var items := Clash(s.rows, m, c);
            && NamesItems(FullFeed(s.rows, items)) && DistinctIdentities(items) && |items| == 2
            && IsClash(s, m, c, items[0], items[1])
  {
    var items := Clash(s.rows, m, c);
    MeetingIsUnique(s.rows, m, s.rows[m].sourceId.value);
    MeetingIsUnique(s.rows, c, s.rows[c].sourceId.value);
    assert items[0].identity != items[1].identity;
    assert s.rows[m].sourceId.value in SourcesOf(s.rows) && s.rows[c].sourceId.value in SourcesOf(s.rows);
    FullFeedNamesItems(s.rows, items);
  }

  /** A pass by events of stored meetings creates no row. */
  lemma {:induction false} KnownEventsCreateNothing(p: Pass, ctx: set<Key>, items: seq<Item>)
    requires Sound(Store(p.rows, p.next)) && NamesAreSet(items)
    requires forall k :: 0 <= k < |items| ==> HasMeeting(p.rows, items[k].identity)
    ensures MaterializedAll(p, ctx, items).rows.Keys == p.rows.Keys
  {
    if items != [] {
      var n := |items| - 1;
      KnownEventsCreateNothing(p, ctx, items[..n]);
      FirstPassKeeps(p, ctx, items[..n]);
      MeetingStays(p.rows, MaterializedAll(p, ctx, items[..n]).rows, items[n].identity);
    }
  }

  lemma MeetingStays(rows: Rows, after: Rows, source: string)
    requires HasMeeting(rows, source) && Grows(rows, after)
    ensures HasMeeting(after, source)
  {
    assert IsMeeting(after[MeetingOf(rows, source)], source);
  }

  /** With a full feed of stored meetings a sweep is its first pass, also when it is repeated. */
  lemma FullSweep(rows: Rows, t: Store, items: seq<Item>, order: seq<Key>)
    requires Sound(t) && NamesAreSet(items) && Grows(rows, t.rows) && t.rows.Keys == rows.Keys
    requires forall k :: 0 <= k < |items| ==> HasMeeting(t.rows, items[k].identity)
    ensures Swept(t, FullFeed(rows, items), order).rows == FirstPass(t, FullFeed(rows, items)).rows
    ensures FirstPass(t, FullFeed(rows, items)).rows.Keys == rows.Keys
    ensures Grows(rows, FirstPass(t, FullFeed(rows, items)).rows)
  {
    var plan, p := FullFeed(rows, items), Pass(t.rows, t.next, {});
    KnownEventsCreateNothing(p, Context(t.rows, plan), items);
    FirstPassKeeps(p, Context(t.rows, plan), items);
    FullFeedCancelsNothing(rows, items, t, order);
  }

  lemma PairIsKnown(t: Store, m: Key, c: Key, lower: Item, upper: Item)
    requires m in t.rows && c in t.rows && IsMeeting(t.rows[c], lower.identity) && IsMeeting(t.rows[m], upper.identity)
    ensures forall k :: 0 <= k < 2 ==> HasMeeting(t.rows, [lower, upper][k].identity)
    ensures NamesAreSet([lower, upper])
  {
    assert HasMeeting(t.rows, lower.identity) && HasMeeting(t.rows, upper.identity);
  }

  lemma ClashDoesNotSettle(s: Store, m: Key, c: Key, lower: Item, upper: Item)
    requires IsClash(s, m, c, lower, upper) && Reached(s.rows, s.rows.Keys, m, c) && !Reached(s.rows, s.rows.Keys, c, m)
    requires NamesItems(FullFeed(s.rows, [lower, upper])) && DistinctIdentities([lower, upper])
    ensures !SweepsSettle(s)
  {
    var items := [lower, upper];
    var plan := FullFeed(s.rows, items);
    var order := SomeSweepOrder(s.rows, plan);
    var t := Swept(s, plan, order);
    var again := SomeSweepOrder(t.rows, plan);
    SweepKeepsMeetings(s, plan, order);
    PairIsKnown(s, m, c, lower, upper);
    FullSweep(s.rows, s, items, order);
    FullFeedLoadsAll(s.rows, items);
    LowerMeetingIsTakenAlong(s, m, c, plan);
    PairIsKnown(t, m, c, lower, upper);
    FullSweep(s.rows, t, items, again);
    ClashComesBack(s, t, m, c, plan);
  }

  /** Repeating a sweep changes nothing, for every feed of distinct events, exactly when no open
      meeting is filed under another open one. */
  lemma SweepsSettleExactlyWhenOpenAreFree(s: Store)
    requires Sound(s) && OpenNestOneWay(s.rows)
    ensures SweepsSettle(s) <==> OpenAreFree(s.rows)
  {
    if OpenAreFree(s.rows) {
      forall plan, order, again |
        NamesItems(plan) && DistinctIdentities(plan.items) && IsOrder(s.rows, plan, order)
        && IsOrder(Swept(s, plan, order).rows, plan, again)
        ensures Swept(Swept(s, plan, order), plan, again) == Swept(s, plan, order)
      {
        SecondSweepChangesNothing(s, plan, order, again);
      }
    } else {
      var m, c :| m in s.rows && c in s.rows && m != c && IsOpenMeeting(s.rows[m]) && IsOpenMeeting(s.rows[c])
        && Reached(s.rows, s.rows.Keys, m, c);
      ClashIsFeed(s, m, c);
      var items := Clash(s.rows, m, c);
      assert items == [items[0], items[1]];
      ClashDoesNotSettle(s, m, c, items[0], items[1]);
    }
  }
}
