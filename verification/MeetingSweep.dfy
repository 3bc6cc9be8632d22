/** The calendar sweep (meeting-materializer.js): a feed is reconciled with the stored rows.  Days
    are integers, times of day are minutes.  This file says what one sweep does to the rows and what
    every run of sweeps keeps; `MeetingStore` has the loops. */
module MeetingSweep {
  import opened Options

  /** Row ids and references: drawn ids and any other text. */
  datatype Key = Uuid(n: nat) | Text(s: string)

  datatype Stamp = Minute(m: int) | Day(d: int)

  datatype Info = Info(calUrl: Option<string>, calendarId: Option<string>, calendarName: Option<string>,
                       calendarColor: Option<string>, accountKey: Option<string>, accountEmail: Option<string>)

  datatype Soft = Soft(location: Option<string>, hangout: Option<string>, rsvp: Option<string>)

  /** What the calendar says about a meeting, and the same properties of other rows. */
  datatype Facts = Facts(title: string, allDay: bool, start: Option<int>, end: Option<int>,
                         dayStart: Option<int>, dayEnd: Option<int>, minutes: int, duration: Option<int>,
                         syncedStart: Option<Stamp>, syncedEnd: Option<Stamp>, syncedTitle: string,
                         info: Info, soft: Soft, tagged: bool, prep: Option<string>)

  /** A row of a day; `calendar` marks an imported meeting. */
  datatype Row = Row(date: int, calendar: bool, sourceId: Option<string>, deleted: bool, completed: bool,
                     localId: Option<Key>, wrapId: Option<Key>, subtaskOf: Option<Key>, parentId: Option<Key>, facts: Facts)

  type Rows = map<Key, Row>

  /** An eligible event of the feed, on its day; `near` says that it starts within the prep horizon. */
  datatype Item = Item(day: int, identity: string, allDay: bool, start: Option<int>, end: Option<int>, dayEnd: Option<int>,
                       minutes: int, title: string, info: Info, soft: Soft, near: bool)

  predicate Truthy(s: Option<string>) {
    s.Some? && s.value != ""
  }

  /** `a || b || ""` */
  function Pick(a: Option<string>, b: Option<string>): Option<string> {
    if Truthy(a) then a else if Truthy(b) then b else Some("")
  }

  // ===== Reconciling one meeting =====

  function PickInfo(a: Info, b: Info): Info {
    Info(Pick(a.calUrl, b.calUrl), Pick(a.calendarId, b.calendarId), Pick(a.calendarName, b.calendarName),
         Pick(a.calendarColor, b.calendarColor), Pick(a.accountKey, b.accountKey), Pick(a.accountEmail, b.accountEmail))
  }

  function PickSoft(a: Soft, b: Soft): Soft {
    Soft(Pick(a.location, b.location), Pick(a.hangout, b.hangout), Pick(a.rsvp, b.rsvp))
  }

  function NextTitle(title: string, before: string): string {
    if title != "" then title else if before != "" then before else "(No title)"
  }

  function SyncedStart(m: Item): Option<Stamp> {
    if m.allDay then Some(Day(m.day)) else if m.start.Some? then Some(Minute(m.start.value)) else None
  }

  function SyncedEnd(m: Item): Option<Stamp> {
    if m.allDay then (if m.dayEnd.Some? then Some(Day(m.dayEnd.value)) else None)
    else if m.end.Some? then Some(Minute(m.end.value)) else None
  }

  predicate WantsPending(f: Facts, m: Item) {
    !m.allDay && !Truthy(f.prep) && m.near
  }

  predicate Changed(r: Row, m: Item) {
    var f := r.facts;
    || r.date != m.day || f.title != NextTitle(m.title, f.title)
    || f.allDay != m.allDay
    || (if m.allDay then f.dayStart != Some(m.day) || f.dayEnd != m.dayEnd else f.start != m.start || f.end != m.end)
    || f.syncedStart != SyncedStart(m) || f.syncedEnd != SyncedEnd(m)
    || f.info != PickInfo(m.info, f.info)
    || !f.tagged || WantsPending(f, m)
  }

  function NextFacts(f: Facts, m: Item): Facts {
    var title := NextTitle(m.title, f.title);
    Facts(title, m.allDay, if m.allDay then None else m.start, if m.allDay then None else m.end,
          if m.allDay then Some(m.day) else None, if m.allDay then m.dayEnd else None, m.minutes, f.duration,
          SyncedStart(m), SyncedEnd(m), title, PickInfo(m.info, f.info), PickSoft(m.soft, f.soft),
          true, if WantsPending(f, m) then Some("pending") else f.prep)
  }

  const NO_INFO := Info(None, None, None, None, None, None)
  const NO_SOFT := Soft(None, None, None)

  function NewRow(m: Item): Row {
    var f := Facts("", m.allDay, None, None, None, None, 0, None, None, None, "", NO_INFO, NO_SOFT, false, None);
    Row(m.day, true, Some(m.identity), false, false, None, None, None, None, NextFacts(f, m))
  }

  /** A reconciled row needs nothing when the same event comes again. */
  lemma ReconcilingSettles(r: Row, m: Item)
    ensures !Changed(r.(date := m.day, facts := NextFacts(r.facts, m)), m)
    ensures !Changed(NewRow(m), m)
  {
  }

  // ----- What a reconciled row shows -----

  /** A property of the calendar that is sent is stored as sent. */
  predicate Takes(stored: Option<string>, sent: Option<string>) {
    stored.Some? && (Truthy(sent) ==> stored == sent)
  }

  predicate TakesInfo(stored: Info, sent: Info) {
    && Takes(stored.calUrl, sent.calUrl) && Takes(stored.calendarId, sent.calendarId)
    && Takes(stored.calendarName, sent.calendarName) && Takes(stored.calendarColor, sent.calendarColor)
    && Takes(stored.accountKey, sent.accountKey) && Takes(stored.accountEmail, sent.accountEmail)
  }

  /** The row stands where the event stands, and repeats what the calendar says about it. */
  predicate Shows(r: Row, m: Item) {
    var f := r.facts;
    && r.date == m.day && f.allDay == m.allDay && f.tagged
    && f.title != "" && (m.title != "" ==> f.title == m.title)
    && TakesInfo(f.info, m.info)
    && if m.allDay then
         && f.dayStart == Some(m.day) && f.dayEnd == m.dayEnd
         && f.syncedStart == Some(Day(m.day))
         && f.syncedEnd == if m.dayEnd.Some? then Some(Day(m.dayEnd.value)) else None
       else
         && f.start == m.start && f.end == m.end
         && f.syncedStart == (if m.start.Some? then Some(Minute(m.start.value)) else None)
         && f.syncedEnd == (if m.end.Some? then Some(Minute(m.end.value)) else None)
         && (m.near ==> Truthy(f.prep))
  }

  /** A row is left alone exactly when it shows the event. */
  lemma UnchangedMeansShown(r: Row, m: Item)
    ensures !Changed(r, m) <==> Shows(r, m)
  {
  }

  /** What a write stores besides: the length, the soft properties, the title last heard of, and only
      the times or the days that the event has; the own length and a prep state stay. */
  lemma WritingTakesTheRest(r: Row, m: Item)
    ensures var f, g := r.facts, NextFacts(r.facts, m);
            && g.minutes == m.minutes && g.duration == f.duration && g.syncedTitle == g.title
            && Takes(g.soft.location, m.soft.location) && Takes(g.soft.hangout, m.soft.hangout) && Takes(g.soft.rsvp, m.soft.rsvp)
            && (if m.allDay then g.start.None? && g.end.None? else g.dayStart.None? && g.dayEnd.None?)
            && (Truthy(f.prep) ==> g.prep == f.prep)
            && (g.prep == f.prep || (g.prep == Some("pending") && m.near && !m.allDay && !Truthy(f.prep)))
  {
  }

  /** A meeting that is created is a live, open meeting of the event's identity that shows it, under
      no other row. */
  lemma CreatedMeetingIsOpen(m: Item)
    ensures var r := NewRow(m);
            && r.calendar && r.sourceId == Some(m.identity) && !r.deleted && !r.completed
            && r.wrapId == None && r.subtaskOf == None && r.parentId == None && r.localId == None
            && Shows(r, m) && r.facts.minutes == m.minutes && r.facts.duration == None
            && r.facts.title == (if m.title != "" then m.title else "(No title)") && r.facts.syncedTitle == r.facts.title
  {
  }

  // ===== Nested work =====

  predicate IsRef(k: Option<Key>) {
    k.Some? && k.value != Text("")
  }

  function RefOf(r: Row): Option<Key> {
    if IsRef(r.wrapId) then r.wrapId else if IsRef(r.subtaskOf) then r.subtaskOf else None
  }

  predicate IsAlias(id: Key, r: Row, ref: Key) {
    ref != Text("") && (ref == id || Some(ref) == r.localId)
  }

  /** Row `c` of the loaded rows is live and names row `x` as its parent. */
  predicate Nests(rows: Rows, ctx: set<Key>, x: Key, c: Key) {
    && x in rows && c in rows && c in ctx && !rows[c].deleted
    && RefOf(rows[c]).Some? && IsAlias(x, rows[x], RefOf(rows[c]).value)
  }

  ghost predicate IsChain(rows: Rows, ctx: set<Key>, chain: seq<Key>) {
    && chain != []
    && (forall k :: 0 <= k < |chain| - 1 ==> Nests(rows, ctx, chain[k], chain[k + 1]))
  }

  /** The closure of a row under nesting. */
  ghost predicate Reached(rows: Rows, ctx: set<Key>, start: Key, id: Key) {
    exists chain :: IsChain(rows, ctx, chain) && chain[0] == start && chain[|chain| - 1] == id
  }

  lemma ReachedIsNested(rows: Rows, ctx: set<Key>, start: Key, id: Key)
    requires Reached(rows, ctx, start, id) && id != start
    ensures id in rows && id in ctx && !rows[id].deleted && RefOf(rows[id]).Some?
  {
    var chain :| IsChain(rows, ctx, chain) && chain[0] == start && chain[|chain| - 1] == id;
    assert Nests(rows, ctx, chain[|chain| - 2], chain[|chain| - 2 + 1]);
  }

  function ShiftMinutes(t: Option<int>, delta: int): Option<int> {
    if t.Some? then Some((t.value + delta) % 1440) else None
  }

  function ShiftDays(d: Option<int>, days: int): Option<int> {
    if d.Some? then Some(d.value + days) else None
  }

  function Shifted(f: Facts, delta: int, days: int): Facts {
    var timed := if delta != 0 then f.(start := ShiftMinutes(f.start, delta), end := ShiftMinutes(f.end, delta)) else f;
    if days != 0 && f.allDay then timed.(dayStart := ShiftDays(f.dayStart, days), dayEnd := ShiftDays(f.dayEnd, days))
    else timed
  }

  function Delta(r: Row, m: Item): int {
    if r.facts.start.Some? && m.start.Some? then m.start.value - r.facts.start.value else 0
  }

  predicate Moves(r: Row, m: Item) {
    Delta(r, m) != 0 || r.date != m.day
  }

  /** The rows after meeting `id` took over the event: its facts, and its nested work moved along. */
  ghost function Reconciled(rows: Rows, ctx: set<Key>, id: Key, m: Item): Rows
    requires id in rows
  {
    map k | k in rows ::
      if k == id then rows[k].(date := m.day, facts := NextFacts(rows[k].facts, m))
      else if Moves(rows[id], m) && Reached(rows, ctx, id, k)
      then rows[k].(date := rows[k].date + (m.day - rows[id].date),
                    facts := Shifted(rows[k].facts, Delta(rows[id], m), m.day - rows[id].date))
      else rows[k]
  }

  // ===== One pass over the feed =====

  predicate IsMeeting(r: Row, source: string) {
    r.calendar && r.sourceId == Some(source) && source != ""
  }

  /** The row of a source id, tombstones included. */
  ghost predicate HasMeeting(rows: Rows, source: string) {
    exists id :: id in rows && IsMeeting(rows[id], source)
  }

  ghost function MeetingOf(rows: Rows, source: string): Key
    requires HasMeeting(rows, source)
    ensures MeetingOf(rows, source) in rows && IsMeeting(rows[MeetingOf(rows, source)], source)
  {
    var id :| id in rows && IsMeeting(rows[id], source);
    id
  }

  /** Rows, the next id to be drawn, and the rows the feed laid claim to. */
  datatype Pass = Pass(rows: Rows, next: nat, claimed: set<Key>)

  ghost function Materialized(p: Pass, ctx: set<Key>, m: Item): Pass {
    if HasMeeting(p.rows, m.identity) then
      var id := MeetingOf(p.rows, m.identity);
      var r := p.rows[id];
      if r.deleted then p
      else if r.completed || !Changed(r, m) then p.(claimed := p.claimed + {id})
      else p.(rows := Reconciled(p.rows, ctx, id, m), claimed := p.claimed + {id})
    else Pass(p.rows[Uuid(p.next) := NewRow(m)], p.next + 1, p.claimed + {Uuid(p.next)})
  }

  ghost function MaterializedAll(p: Pass, ctx: set<Key>, items: seq<Item>): Pass {
    if items == [] then p else Materialized(MaterializedAll(p, ctx, items[..|items| - 1]), ctx, items[|items| - 1])
  }

  // ===== Cancelling =====

  function Detached(r: Row): Row {
    var f := r.facts;
    var squeezed := IsRef(r.subtaskOf) && f.start.Some? && f.end.Some? && f.end.value <= f.start.value;
    var end := if squeezed then (if f.start.value + 30 < 1439 then f.start.value + 30 else 1439) else 0;
    r.(wrapId := None, subtaskOf := None, parentId := None,
       facts := if squeezed then f.(end := Some(end), duration := Some(if end - f.start.value > 0 then end - f.start.value else 0))
                else f)
  }

  /** A child of a cancelled meeting, as the loaded rows show it. */
  predicate Loses(rows: Rows, loaded: set<Key>, b: Key, c: Key) {
    && b in rows && c in rows && c in loaded && c != b
    && RefOf(rows[c]).Some? && IsAlias(b, rows[b], RefOf(rows[c]).value)
  }

  /** The batch fails when it would write a row that is deleted by now. */
  predicate BatchFails(rows: Rows, loaded: set<Key>, b: Key) {
    exists c :: c in rows && Loses(rows, loaded, b, c) && rows[c].deleted
  }

  /** What the loaded rows and the feed say before the cancellations. */
  datatype Window = Window(day: map<Key, int>, loaded: set<Key>, incoming: map<int, set<string>>, claimed: set<Key>)

  predicate IsStale(rows: Rows, w: Window, b: Key) {
    && b in rows && b in w.day && !rows[b].deleted
    && rows[b].calendar && Truthy(rows[b].sourceId)
    && !(w.day[b] in w.incoming && rows[b].sourceId.value in w.incoming[w.day[b]])
    && b !in w.claimed && !rows[b].completed
  }

  function Cancelled(rows: Rows, w: Window, b: Key): Rows {
    if !IsStale(rows, w, b) || BatchFails(rows, w.loaded, b) then rows
    else
      map k | k in rows ::
        if k == b then rows[k].(deleted := true)
        else if Loses(rows, w.loaded, b, k) then Detached(rows[k])
        else rows[k]
  }

  function CancelledAll(rows: Rows, w: Window, order: seq<Key>): Rows {
    if order == [] then rows else Cancelled(CancelledAll(rows, w, order[..|order| - 1]), w, order[|order| - 1])
  }

  // ===== One sweep =====

  /** A feed after grouping: the eligible events in processing order, the identities named on each
      day (eligible or not), and the days open to cancellation. */
  datatype Plan = Plan(items: seq<Item>, incoming: map<int, set<string>>, window: set<int>)

  function NamedIds(plan: Plan): set<string> {
    set d, s | d in plan.incoming && s in plan.incoming[d] :: s
  }

  /** The days that are loaded: those of the feed, of the window, and of the rows of named events. */
  predicate IsLoadedDay(rows: Rows, plan: Plan, d: int) {
    || d in plan.window
    || (exists k :: 0 <= k < |plan.items| && plan.items[k].day == d)
    || (exists id :: id in rows && rows[id].calendar && rows[id].sourceId.Some? && rows[id].sourceId.value in NamedIds(plan)
          && rows[id].date == d)
  }

  ghost function Context(rows: Rows, plan: Plan): set<Key> {
    set id | id in rows && IsLoadedDay(rows, plan, rows[id].date)
  }

  /** The rows of the window's days, as loaded. */
  function DaysOf(rows: Rows, plan: Plan): map<Key, int> {
    map id | id in rows && rows[id].date in plan.window :: rows[id].date
  }

  ghost function LoadedLive(rows: Rows, plan: Plan): set<Key> {
    set id | id in Context(rows, plan) && !rows[id].deleted
  }

  datatype Store = Store(rows: Rows, next: nat)

  ghost function FirstPass(s: Store, plan: Plan): Pass {
    MaterializedAll(Pass(s.rows, s.next, {}), Context(s.rows, plan), plan.items)
  }

  ghost function WindowOf(s: Store, plan: Plan): Window {
    Window(DaysOf(s.rows, plan), LoadedLive(s.rows, plan), plan.incoming, FirstPass(s, plan).claimed)
  }

  /** The rows of the window's days in processing order. */
  ghost predicate IsOrder(rows: Rows, plan: Plan, order: seq<Key>) {
    forall id :: id in order <==> id in DaysOf(rows, plan)
  }

  ghost function Swept(s: Store, plan: Plan, order: seq<Key>): Store {
    Store(CancelledAll(FirstPass(s, plan).rows, WindowOf(s, plan), order), FirstPass(s, plan).next)
  }

  // ----- What a cancellation leaves -----

  /** A detached row hangs under nothing; a step that would end before it starts gets half an hour,
      within its day. */
  lemma DetachingFrees(r: Row)
    ensures var d := Detached(r);
            && d == r.(wrapId := None, subtaskOf := None, parentId := None, facts := d.facts)
            && var step := IsRef(r.subtaskOf) && r.facts.start.Some? && r.facts.end.Some? && r.facts.end.value <= r.facts.start.value;
               && (!step ==> d.facts == r.facts)
               && (step ==> && d.facts == r.facts.(end := d.facts.end, duration := d.facts.duration)
                            && d.facts.end.Some? && d.facts.end.value <= 1439
                            && (d.facts.end.value == r.facts.start.value + 30 || d.facts.end.value == 1439)
                            && (r.facts.start.value <= 1409 ==> d.facts.end.value == r.facts.start.value + 30)
                            && (r.facts.start.value <= 1439 ==> d.facts.duration == Some(d.facts.end.value - r.facts.start.value)))
  {
  }

  // ===== What every sweep keeps =====

  ghost predicate OneRowPerSource(rows: Rows) {
    forall a, b, source :: a in rows && b in rows && IsMeeting(rows[a], source) && IsMeeting(rows[b], source) ==> a == b
  }

  ghost predicate IdsDrawn(rows: Rows, next: nat) {
    forall id :: id in rows && id.Uuid? ==> id.n < next
  }

  ghost predicate RefsDrawn(rows: Rows, next: nat) {
    forall id :: id in rows && RefOf(rows[id]).Some? && RefOf(rows[id]).value.Uuid? ==> RefOf(rows[id]).value.n < next
  }

  ghost predicate Sound(s: Store) {
    OneRowPerSource(s.rows) && IdsDrawn(s.rows, s.next) && RefsDrawn(s.rows, s.next)
  }

  /** The rows of before are there, and still the same events. */
  ghost predicate Grows(rows: Rows, after: Rows) {
    forall id :: id in rows ==>
      && id in after && after[id].calendar == rows[id].calendar && after[id].sourceId == rows[id].sourceId
      && after[id].completed == rows[id].completed && after[id].localId == rows[id].localId
  }

  ghost predicate TombstonesStay(rows: Rows, after: Rows) {
    forall id :: id in rows && rows[id].deleted ==> id in after && after[id] == rows[id]
  }

  ghost predicate CompletedStay(rows: Rows, after: Rows) {
    forall id :: id in rows && rows[id].calendar && rows[id].completed ==> id in after && after[id] == rows[id]
  }

  lemma MeetingIsUnique(rows: Rows, id: Key, source: string)
    requires OneRowPerSource(rows) && id in rows && IsMeeting(rows[id], source)
    ensures HasMeeting(rows, source) && MeetingOf(rows, source) == id
  {
  }

  lemma ReconciledKeeps(rows: Rows, ctx: set<Key>, id: Key, m: Item)
    requires id in rows && !rows[id].deleted && !rows[id].completed
    ensures var after := Reconciled(rows, ctx, id, m);
            after.Keys == rows.Keys && Grows(rows, after) && TombstonesStay(rows, after)
  {
    forall k | k in rows && k != id && Reached(rows, ctx, id, k) ensures !rows[k].deleted && RefOf(rows[k]).Some? {
      ReachedIsNested(rows, ctx, id, k);
    }
  }

  /** A well-formed feed names the events it materializes. */
  ghost predicate NamesItems(plan: Plan) {
    forall k :: 0 <= k < |plan.items| ==>
      && plan.items[k].identity != ""
      && plan.items[k].day in plan.incoming && plan.items[k].identity in plan.incoming[plan.items[k].day]
  }

  ghost predicate NamesAreSet(items: seq<Item>) {
    forall k :: 0 <= k < |items| ==> items[k].identity != ""
  }

  /** What one step of a sweep keeps. */
  ghost predicate Evolves(rows: Rows, after: Rows) {
    Grows(rows, after) && TombstonesStay(rows, after)
  }

  lemma CreatedKeeps(s: Store, m: Item)
    requires Sound(s) && m.identity != "" && !HasMeeting(s.rows, m.identity)
    ensures var after := Store(s.rows[Uuid(s.next) := NewRow(m)], s.next + 1);
            Sound(after) && Evolves(s.rows, after.rows)
  {
  }

  lemma SameEventsStayUnique(rows: Rows, after: Rows)
    requires OneRowPerSource(rows) && Grows(rows, after) && after.Keys == rows.Keys
    ensures OneRowPerSource(after)
  {
    forall a, b, source | a in after && b in after && IsMeeting(after[a], source) && IsMeeting(after[b], source)
      ensures a == b
    {
      assert IsMeeting(rows[a], source) && IsMeeting(rows[b], source);
    }
  }

  lemma ReconciledStaysDrawn(rows: Rows, ctx: set<Key>, id: Key, m: Item, next: nat)
    requires id in rows && IdsDrawn(rows, next) && RefsDrawn(rows, next)
    ensures IdsDrawn(Reconciled(rows, ctx, id, m), next) && RefsDrawn(Reconciled(rows, ctx, id, m), next)
  {
    var after := Reconciled(rows, ctx, id, m);
    assert forall k :: k in after ==> k in rows && RefOf(after[k]) == RefOf(rows[k]);
  }

  lemma ReconciledIsSound(s: Store, ctx: set<Key>, id: Key, m: Item)
    requires Sound(s) && id in s.rows && !s.rows[id].deleted && !s.rows[id].completed
    ensures Sound(Store(Reconciled(s.rows, ctx, id, m), s.next)) && Evolves(s.rows, Reconciled(s.rows, ctx, id, m))
  {
    ReconciledKeeps(s.rows, ctx, id, m);
    ReconciledStaysDrawn(s.rows, ctx, id, m, s.next);
    SameEventsStayUnique(s.rows, Reconciled(s.rows, ctx, id, m));
  }

  lemma MaterializedKeeps(p: Pass, ctx: set<Key>, m: Item)
    requires Sound(Store(p.rows, p.next)) && m.identity != ""
    ensures var after := Materialized(p, ctx, m);
            Sound(Store(after.rows, after.next)) && Evolves(p.rows, after.rows) && after.next >= p.next
  {
    if HasMeeting(p.rows, m.identity) {
      var id := MeetingOf(p.rows, m.identity);
      if !p.rows[id].deleted && !p.rows[id].completed {
        ReconciledIsSound(Store(p.rows, p.next), ctx, id, m);
      }
    } else {
      CreatedKeeps(Store(p.rows, p.next), m);
    }
  }

  lemma EvolvesOn(a: Rows, b: Rows, c: Rows)
    requires Evolves(a, b) && Evolves(b, c)
    ensures Evolves(a, c)
  {
  }

  lemma {:induction false} FirstPassKeeps(p: Pass, ctx: set<Key>, items: seq<Item>)
    requires Sound(Store(p.rows, p.next)) && NamesAreSet(items)
    ensures var after := MaterializedAll(p, ctx, items);
            Sound(Store(after.rows, after.next)) && Evolves(p.rows, after.rows) && after.next >= p.next
  {
    if items != [] {
      var front := items[..|items| - 1];
      FirstPassKeeps(p, ctx, front);
      var before := MaterializedAll(p, ctx, front);
      MaterializedKeeps(before, ctx, items[|items| - 1]);
      EvolvesOn(p.rows, before.rows, MaterializedAll(p, ctx, items).rows);
    }
  }

  lemma CancelledKeeps(rows: Rows, w: Window, b: Key)
    requires OneRowPerSource(rows)
    ensures var after := Cancelled(rows, w, b);
            after.Keys == rows.Keys && OneRowPerSource(after) && Evolves(rows, after)
    ensures forall next :: RefsDrawn(rows, next) ==> RefsDrawn(Cancelled(rows, w, b), next)
  {
    var after := Cancelled(rows, w, b);
    if after != rows {
      forall k | k in rows && rows[k].deleted ensures after[k] == rows[k] {
        if k != b && Loses(rows, w.loaded, b, k) {
          assert BatchFails(rows, w.loaded, b);
        }
      }
    }
  }

  lemma {:induction false} CancellationsKeep(rows: Rows, w: Window, order: seq<Key>)
    requires OneRowPerSource(rows)
    ensures var after := CancelledAll(rows, w, order);
            after.Keys == rows.Keys && OneRowPerSource(after) && Evolves(rows, after)
    ensures forall next :: RefsDrawn(rows, next) ==> RefsDrawn(CancelledAll(rows, w, order), next)
  {
    if order != [] {
      var front := order[..|order| - 1];
      CancellationsKeep(rows, w, front);
      var before := CancelledAll(rows, w, front);
      CancelledKeeps(before, w, order[|order| - 1]);
      EvolvesOn(rows, before, CancelledAll(rows, w, order));
    }
  }

  /** One sweep: there is still at most one row per source id, and no tombstone changes or comes
      back. */
  lemma SweepKeepsMeetings(s: Store, plan: Plan, order: seq<Key>)
    requires Sound(s) && NamesItems(plan)
    ensures Sound(Swept(s, plan, order)) && Evolves(s.rows, Swept(s, plan, order).rows)
  {
    var p := FirstPass(s, plan);
    FirstPassKeeps(Pass(s.rows, s.next, {}), Context(s.rows, plan), plan.items);
    CancellationsKeep(p.rows, WindowOf(s, plan), order);
    EvolvesOn(s.rows, p.rows, Swept(s, plan, order).rows);
  }

  // ===== Runs of sweeps =====

  datatype Round = Round(plan: Plan, order: seq<Key>)

  ghost function Run(s: Store, rounds: seq<Round>): Store {
    if rounds == [] then s
    else
      var before, last := Run(s, rounds[..|rounds| - 1]), rounds[|rounds| - 1];
      Swept(before, last.plan, last.order)
  }

  lemma {:induction false} EveryRunKeepsMeetings(s: Store, rounds: seq<Round>)
    requires Sound(s) && forall k :: 0 <= k < |rounds| ==> NamesItems(rounds[k].plan)
    ensures Sound(Run(s, rounds)) && Evolves(s.rows, Run(s, rounds).rows)
  {
    if rounds != [] {
      var front, last := rounds[..|rounds| - 1], rounds[|rounds| - 1];
      EveryRunKeepsMeetings(s, front);
      SweepKeepsMeetings(Run(s, front), last.plan, last.order);
      EvolvesOn(s.rows, Run(s, front).rows, Run(s, rounds).rows);
    }
  }

  // ===== Completed meetings =====

  /** A meeting that a sweep may still move or cancel. */
  predicate IsOpenMeeting(r: Row) {
    r.calendar && Truthy(r.sourceId) && !r.deleted && !r.completed
  }

  /** No completed meeting is filed, however deep, under an open one. */
  ghost predicate CompletedAreFree(rows: Rows) {
    forall m, c :: m in rows && c in rows && IsOpenMeeting(rows[m]) && rows[c].calendar && rows[c].completed ==>
      !Reached(rows, rows.Keys, m, c)
  }

  /** No nesting between old rows appears, and nothing is nested under a new row. */
  ghost predicate NestsShrink(rows: Rows, after: Rows) {
    forall x, c :: Nests(after, after.Keys, x, c) ==> Nests(rows, rows.Keys, x, c)
  }

  lemma {:induction false} ChainShrinks(rows: Rows, after: Rows, chain: seq<Key>)
    requires NestsShrink(rows, after) && IsChain(after, after.Keys, chain)
    ensures IsChain(rows, rows.Keys, chain)
  {
    forall k | 0 <= k < |chain| - 1 ensures Nests(rows, rows.Keys, chain[k], chain[k + 1]) {
      assert Nests(after, after.Keys, chain[k], chain[k + 1]);
    }
  }

  lemma LargerContextReaches(rows: Rows, ctx: set<Key>, start: Key, id: Key)
    requires Reached(rows, ctx, start, id)
    ensures Reached(rows, rows.Keys, start, id)
  {
    var chain :| IsChain(rows, ctx, chain) && chain[0] == start && chain[|chain| - 1] == id;
    forall k | 0 <= k < |chain| - 1 ensures Nests(rows, rows.Keys, chain[k], chain[k + 1]) {
      assert Nests(rows, ctx, chain[k], chain[k + 1]);
    }
    assert IsChain(rows, rows.Keys, chain);
  }

  /** Rows of after that are open meetings were open meetings, or are new and have nothing nested. */
  lemma FreeStays(rows: Rows, after: Rows)
    requires CompletedAreFree(rows) && NestsShrink(rows, after) && Grows(rows, after)
    requires forall id :: id in rows && IsOpenMeeting(after[id]) ==> IsOpenMeeting(rows[id])
    requires forall id :: id in after && id !in rows ==> !after[id].completed
    ensures CompletedAreFree(after)
  {
    forall m, c | m in after && c in after && IsOpenMeeting(after[m]) && after[c].calendar && after[c].completed
      ensures !Reached(after, after.Keys, m, c)
    {
      if Reached(after, after.Keys, m, c) {
        ReachedShrinks(rows, after, m, c);
      }
    }
  }

  lemma ReachedShrinks(rows: Rows, after: Rows, m: Key, c: Key)
    requires NestsShrink(rows, after) && Reached(after, after.Keys, m, c) && m != c
    ensures m in rows && Reached(rows, rows.Keys, m, c)
  {
    var chain :| IsChain(after, after.Keys, chain) && chain[0] == m && chain[|chain| - 1] == c;
    ChainShrinks(rows, after, chain);
    assert Nests(rows, rows.Keys, chain[0], chain[0 + 1]);
  }

  lemma ChildIsReached(rows: Rows, b: Key, c: Key)
    requires Nests(rows, rows.Keys, b, c)
    ensures Reached(rows, rows.Keys, b, c)
  {
    assert IsChain(rows, rows.Keys, [b, c]);
  }

  lemma ReconciledShrinks(rows: Rows, ctx: set<Key>, id: Key, m: Item)
    requires id in rows
    ensures NestsShrink(rows, Reconciled(rows, ctx, id, m))
  {
  }

  lemma CreatedShrinks(s: Store, m: Item)
    requires Sound(s)
    ensures NestsShrink(s.rows, s.rows[Uuid(s.next) := NewRow(m)])
  {
  }

  lemma ReconciledFree(rows: Rows, ctx: set<Key>, id: Key, m: Item)
    requires CompletedAreFree(rows) && id in rows && IsOpenMeeting(rows[id])
    ensures CompletedAreFree(Reconciled(rows, ctx, id, m)) && CompletedStay(rows, Reconciled(rows, ctx, id, m))
  {
    var after := Reconciled(rows, ctx, id, m);
    ReconciledKeeps(rows, ctx, id, m);
    forall c | c in rows && rows[c].calendar && rows[c].completed ensures after[c] == rows[c] {
      if Reached(rows, ctx, id, c) {
        LargerContextReaches(rows, ctx, id, c);
      }
    }
    ReconciledShrinks(rows, ctx, id, m);
    FreeStays(rows, after);
  }

  lemma CreatedFree(s: Store, m: Item)
    requires Sound(s) && CompletedAreFree(s.rows)
    ensures CompletedAreFree(s.rows[Uuid(s.next) := NewRow(m)])
    ensures CompletedStay(s.rows, s.rows[Uuid(s.next) := NewRow(m)])
  {
    CreatedShrinks(s, m);
    FreeStays(s.rows, s.rows[Uuid(s.next) := NewRow(m)]);
  }

  lemma CancelledFree(rows: Rows, w: Window, b: Key)
    requires CompletedAreFree(rows) && OneRowPerSource(rows)
    ensures CompletedAreFree(Cancelled(rows, w, b)) && CompletedStay(rows, Cancelled(rows, w, b))
  {
    var after := Cancelled(rows, w, b);
    if after != rows {
      CancelledKeeps(rows, w, b);
      forall c | c in rows && rows[c].calendar && rows[c].completed ensures after[c] == rows[c] {
        if Loses(rows, w.loaded, b, c) {
          ChildIsReached(rows, b, c);
        }
      }
      FreeStays(rows, after);
    }
  }

  lemma {:induction false} FirstPassFree(p: Pass, ctx: set<Key>, items: seq<Item>)
    requires Sound(Store(p.rows, p.next)) && NamesAreSet(items) && CompletedAreFree(p.rows)
    ensures var after := MaterializedAll(p, ctx, items).rows; CompletedAreFree(after) && CompletedStay(p.rows, after)
  {
    if items != [] {
      var n := |items| - 1;
      FirstPassKeeps(p, ctx, items[..n]);
      FirstPassFree(p, ctx, items[..n]);
      var before, m := MaterializedAll(p, ctx, items[..n]), items[n];
      if HasMeeting(before.rows, m.identity) {
        var id := MeetingOf(before.rows, m.identity);
        if IsOpenMeeting(before.rows[id]) {
          ReconciledFree(before.rows, ctx, id, m);
        }
      } else {
        CreatedFree(Store(before.rows, before.next), m);
      }
    }
  }

  lemma {:induction false} CancellationsFree(rows: Rows, w: Window, order: seq<Key>)
    requires CompletedAreFree(rows) && OneRowPerSource(rows)
    ensures var after := CancelledAll(rows, w, order); CompletedAreFree(after) && CompletedStay(rows, after)
  {
    if order != [] {
      var n := |order| - 1;
      CancellationsKeep(rows, w, order[..n]);
      CancellationsFree(rows, w, order[..n]);
      CancelledFree(CancelledAll(rows, w, order[..n]), w, order[n]);
    }
  }

  /** While no completed meeting is filed under an open one, no sweep changes or cancels a completed
      meeting. */
  lemma SweepLeavesCompleted(s: Store, plan: Plan, order: seq<Key>)
    requires Sound(s) && NamesItems(plan) && CompletedAreFree(s.rows)
    ensures CompletedAreFree(Swept(s, plan, order).rows) && CompletedStay(s.rows, Swept(s, plan, order).rows)
  {
    var p := Pass(s.rows, s.next, {});
    FirstPassKeeps(p, Context(s.rows, plan), plan.items);
    FirstPassFree(p, Context(s.rows, plan), plan.items);
    CancellationsFree(FirstPass(s, plan).rows, WindowOf(s, plan), order);
  }

  /** ... nor does any run of sweeps. */
  lemma {:induction false} EveryRunLeavesCompleted(s: Store, rounds: seq<Round>)
    requires Sound(s) && CompletedAreFree(s.rows) && forall k :: 0 <= k < |rounds| ==> NamesItems(rounds[k].plan)
    ensures CompletedAreFree(Run(s, rounds).rows) && CompletedStay(s.rows, Run(s, rounds).rows)
  {
    if rounds != [] {
      var front, last := rounds[..|rounds| - 1], rounds[|rounds| - 1];
      EveryRunLeavesCompleted(s, front);
      EveryRunKeepsMeetings(s, front);
      SweepLeavesCompleted(Run(s, front), last.plan, last.order);
    }
  }

  // ----- The other direction -----

  /** This meeting as an all-day event of a day. */
  function EventAt(r: Row, d: int): Item
    requires r.sourceId.Some?
  {
    Item(d, r.sourceId.value, true, None, None, Some(d + 1), 0, "", NO_INFO, NO_SOFT, false)
  }

  function SourcesOf(rows: Rows): set<string> {
    set id | id in rows && rows[id].sourceId.Some? :: rows[id].sourceId.value
  }

  function RowDays(rows: Rows): set<int> {
    set id | id in rows :: rows[id].date
  }

  function ItemDays(items: seq<Item>): set<int> {
    set k | 0 <= k < |items| :: items[k].day
  }

  /** A feed whose window covers every day of the rows and which names all their meetings, so that all
      rows are loaded and nothing is cancelled. */
  function FullFeed(rows: Rows, items: seq<Item>): Plan {
    Plan(items, map d | d in RowDays(rows) + ItemDays(items) :: SourcesOf(rows), RowDays(rows))
  }

  /** The event is that of an open meeting. */
  predicate IsEventOf(rows: Rows, id: Key, m: Item) {
    id in rows && IsOpenMeeting(rows[id]) && rows[id].sourceId == Some(m.identity)
  }

  lemma FullFeedLoadsAll(rows: Rows, items: seq<Item>)
    ensures Context(rows, FullFeed(rows, items)) == rows.Keys
  {
  }

  lemma FullFeedNamesItems(rows: Rows, items: seq<Item>)
    requires forall k :: 0 <= k < |items| ==> items[k].identity != "" && items[k].identity in SourcesOf(rows)
    ensures NamesItems(FullFeed(rows, items))
  {
    forall k | 0 <= k < |items| ensures items[k].day in ItemDays(items) {
    }
  }

  /** Every meeting of these rows is named, wherever it has moved to. */
  lemma NamedMeetingsAreNotStale(rows: Rows, items: seq<Item>, t: Store, after: Rows, b: Key)
    requires Grows(rows, after) && after.Keys == rows.Keys
    ensures !IsStale(after, WindowOf(t, FullFeed(rows, items)), b)
  {
  }

  lemma {:induction false} NothingStale(rows: Rows, w: Window, order: seq<Key>)
    requires forall b :: b in order ==> !IsStale(rows, w, b)
    ensures CancelledAll(rows, w, order) == rows
  {
    if order != [] {
      NothingStale(rows, w, order[..|order| - 1]);
      assert order[|order| - 1] in order;
    }
  }

  /** With such a feed a sweep is its first pass. */
  lemma FullFeedCancelsNothing(rows: Rows, items: seq<Item>, t: Store, order: seq<Key>)
    requires Grows(rows, FirstPass(t, FullFeed(rows, items)).rows)
    requires FirstPass(t, FullFeed(rows, items)).rows.Keys == rows.Keys
    ensures Swept(t, FullFeed(rows, items), order).rows == FirstPass(t, FullFeed(rows, items)).rows
  {
    var plan := FullFeed(rows, items);
    forall b | b in order ensures !IsStale(FirstPass(t, plan).rows, WindowOf(t, plan), b) {
      NamedMeetingsAreNotStale(rows, items, t, FirstPass(t, plan).rows, b);
    }
    NothingStale(FirstPass(t, plan).rows, WindowOf(t, plan), order);
  }

  lemma {:induction false} SomeList(keys: set<Key>) returns (order: seq<Key>)
    ensures forall id :: id in order <==> id in keys
    decreases keys
  {
    if keys == {} {
      return [];
    }
    var k :| k in keys;
    order := SomeList(keys - {k});
    order := order + [k];
  }

  lemma SomeSweepOrder(rows: Rows, plan: Plan) returns (order: seq<Key>)
    ensures IsOrder(rows, plan, order)
  {
    order := SomeList(DaysOf(rows, plan).Keys);
  }

  /** What a sweep by one event does: it reconciles the meeting. */
  lemma SweepByOneEvent(s: Store, id: Key, m: Item, order: seq<Key>)
    requires Sound(s) && IsEventOf(s.rows, id, m) && Changed(s.rows[id], m)
    ensures Swept(s, FullFeed(s.rows, [m]), order).rows == Reconciled(s.rows, s.rows.Keys, id, m)
  {
    var plan := FullFeed(s.rows, [m]);
    MeetingIsUnique(s.rows, id, m.identity);
    FullFeedLoadsAll(s.rows, [m]);
    assert [m][..0] == [];
    assert MaterializedAll(Pass(s.rows, s.next, {}), s.rows.Keys, [m][..0]) == Pass(s.rows, s.next, {});
    ReconciledKeeps(s.rows, s.rows.Keys, id, m);
    FullFeedCancelsNothing(s.rows, [m], s, order);
  }

  lemma EventIsNamed(rows: Rows, id: Key, m: Item)
    requires IsEventOf(rows, id, m)
    ensures NamesItems(FullFeed(rows, [m]))
  {
    assert rows[id].sourceId.value in SourcesOf(rows);
    FullFeedNamesItems(rows, [m]);
  }

  /** A clock time moved along by some minutes. */
  predicate IsMovedBy(after: Option<int>, before: Option<int>, delta: int) {
    after.Some? == before.Some?
    && (before.Some? ==> after.value == if delta == 0 then before.value else (before.value + delta) % 1440)
  }

  predicate IsDaysLater(after: Option<int>, before: Option<int>, days: int) {
    after.Some? == before.Some? && (before.Some? ==> after.value == before.value + days)
  }

  /** A row of the same content, some days and minutes on; an all-day range moves with its days. */
  predicate IsAlong(after: Row, before: Row, delta: int, days: int) {
    && after == before.(date := before.date + days, facts := after.facts)
    && after.facts == before.facts.(start := after.facts.start, end := after.facts.end,
                                    dayStart := after.facts.dayStart, dayEnd := after.facts.dayEnd)
    && IsMovedBy(after.facts.start, before.facts.start, delta) && IsMovedBy(after.facts.end, before.facts.end, delta)
    && IsDaysLater(after.facts.dayStart, before.facts.dayStart, if before.facts.allDay then days else 0)
    && IsDaysLater(after.facts.dayEnd, before.facts.dayEnd, if before.facts.allDay then days else 0)
  }

  lemma ShiftedIsAlong(r: Row, delta: int, days: int)
    ensures IsAlong(r.(date := r.date + days, facts := Shifted(r.facts, delta, days)), r, delta, days)
  {
  }

  lemma NestIsShifted(rows: Rows, ctx: set<Key>, id: Key, m: Item, k: Key)
    requires id in rows && k in rows && k != id && Reached(rows, ctx, id, k)
    ensures k in Reconciled(rows, ctx, id, m)
    ensures Reconciled(rows, ctx, id, m)[k]
         == rows[k].(date := rows[k].date + (m.day - rows[id].date),
                     facts := Shifted(rows[k].facts, Delta(rows[id], m), m.day - rows[id].date))
  {
  }

  lemma NestIsAlong(rows: Rows, after: Rows, id: Key, m: Item, k: Key)
    requires id in rows && k in rows && k != id && Reached(rows, rows.Keys, id, k)
    requires after == Reconciled(rows, rows.Keys, id, m)
    ensures k in after
    ensures IsAlong(after[k], rows[k],
                    if rows[id].facts.start.Some? && m.start.Some? then m.start.value - rows[id].facts.start.value else 0,
                    m.day - rows[id].date)
  {
    NestIsShifted(rows, rows.Keys, id, m, k);
    ShiftedIsAlong(rows[k], Delta(rows[id], m), m.day - rows[id].date);
  }

  /** Work filed under a meeting that moves within its day or to another keeps its distance: its times
      move by the minutes that the meeting's start moved, its days by the meeting's days. */
  lemma NestMovesAlong(s: Store, id: Key, m: Item, order: seq<Key>, k: Key)
    requires Sound(s) && IsEventOf(s.rows, id, m) && !Shows(s.rows[id], m)
    requires k in s.rows && k != id && Reached(s.rows, s.rows.Keys, id, k)
    ensures var r, after := s.rows[id], Swept(s, FullFeed(s.rows, [m]), order).rows;
            && k in after
            && IsAlong(after[k], s.rows[k],
                       if r.facts.start.Some? && m.start.Some? then m.start.value - r.facts.start.value else 0,
                       m.day - r.date)
  {
    UnchangedMeansShown(s.rows[id], m);
    SweepByOneEvent(s, id, m, order);
    NestIsAlong(s.rows, Swept(s, FullFeed(s.rows, [m]), order).rows, id, m, k);
  }

  /** A sweep in which an open meeting has gone to another day settles the meeting there, and moves
      exactly the work filed under it, completed rows included and whatever days it stands on, by the
      same number of days. */
  lemma SweepMovesExactlyTheNest(s: Store, id: Key, m: Item, order: seq<Key>, k: Key)
    requires Sound(s) && IsEventOf(s.rows, id, m) && m.day != s.rows[id].date && k in s.rows
    ensures NamesItems(FullFeed(s.rows, [m]))
    ensures var after := Swept(s, FullFeed(s.rows, [m]), order).rows;
            && after.Keys == s.rows.Keys
            && Shows(after[id], m)
            && (after[k] != s.rows[k] <==> k == id || Reached(s.rows, s.rows.Keys, id, k))
            && after[k].date - s.rows[k].date
               == if k == id || Reached(s.rows, s.rows.Keys, id, k) then m.day - s.rows[id].date else 0
  {
    EventIsNamed(s.rows, id, m);
    SweepByOneEvent(s, id, m, order);
    ReconcilingSettles(s.rows[id], m);
    UnchangedMeansShown(Swept(s, FullFeed(s.rows, [m]), order).rows[id], m);
  }

  /** When an open meeting goes to the next day, a completed meeting filed under it moves too. */
  lemma NestedCompletedMoves(s: Store, id: Key, c: Key) returns (plan: Plan, order: seq<Key>)
    requires Sound(s) && id in s.rows && c in s.rows
    requires IsOpenMeeting(s.rows[id]) && s.rows[c].calendar && s.rows[c].completed
    requires Reached(s.rows, s.rows.Keys, id, c)
    ensures NamesItems(plan) && IsOrder(s.rows, plan, order)
    ensures !CompletedStay(s.rows, Swept(s, plan, order).rows)
  {
    var m := EventAt(s.rows[id], s.rows[id].date + 1);
    plan := FullFeed(s.rows, [m]);
    order := SomeSweepOrder(s.rows, plan);
    SweepMovesExactlyTheNest(s, id, m, order, c);
  }

  ghost predicate SweepsLeaveCompleted(s: Store) {
    forall plan, order :: NamesItems(plan) && IsOrder(s.rows, plan, order) ==>
      CompletedStay(s.rows, Swept(s, plan, order).rows)
  }

  /** Every sweep leaves the completed meetings of a store alone exactly when none of them is filed
      under an open meeting. */
  lemma CompletedStayExactlyWhenFree(s: Store)
    requires Sound(s)
    ensures SweepsLeaveCompleted(s) <==> CompletedAreFree(s.rows)
  {
    if CompletedAreFree(s.rows) {
      forall plan, order | NamesItems(plan) && IsOrder(s.rows, plan, order)
        ensures CompletedStay(s.rows, Swept(s, plan, order).rows)
      {
        SweepLeavesCompleted(s, plan, order);
      }
    } else {
      var m, c :| m in s.rows && c in s.rows && IsOpenMeeting(s.rows[m]) && s.rows[c].calendar && s.rows[c].completed
        && Reached(s.rows, s.rows.Keys, m, c);
      var plan, order := NestedCompletedMoves(s, m, c);
    }
  }
}
