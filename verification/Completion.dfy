/** The completion state of task rows (db.js): a compare-and-set on a revision, with mutation ids
    for replays, next to plain writes that replace the whole property bag.  Every transaction runs
    under row locks, so it is one step.  Instants and dates are integers. */
module Completion {
  import opened Options
  import opened CompletionSubtree

  /** A drawn revision: unique to its transaction and row. */
  datatype Revision = Revision(step: nat, row: string)

  /** A mutation id comes from the caller or is drawn. */
  datatype Mutation = Given(id: string) | Drawn(step: nat, row: string)

  datatype Kind = TaskKind | BacklogKind | NotATask | OtherKind

  /** The property bag; `text` stands for everything completion does not read. */
  datatype Props = Props(status: Option<string>, done: Option<bool>, completed: Option<bool>,
                         completedAt: Option<int>, doneAt: Option<int>, recordedAt: Option<int>, completedBy: Option<int>,
                         revision: Option<Revision>, mutation: Option<Mutation>,
                         kind: Kind, wasBacklog: bool, stamped: Option<int>, plannedEnd: Option<int>,
                         localId: Option<string>, wrapId: Option<string>, subtaskOf: Option<string>, text: string)

  datatype BlockType = Block | OtherTaskType | Container

  datatype Row = Row(blockType: BlockType, date: Option<int>, parentId: Option<string>, deleted: bool, props: Props)

  predicate IsTask(r: Row) {
    r.blockType != Container && r.props.kind != NotATask
  }

  predicate IsCompleted(p: Props) {
    p.status == Some("done") || p.done == Some(true) || p.completed == Some(true) || p.completedAt.Some? || p.doneAt.Some?
  }

  function Or<T>(a: Option<T>, b: Option<T>): Option<T> {
    if a.Some? then a else b
  }

  // ===== The property helpers =====

  function CompletedProps(props: Props, prior: Props, now: int, mutation: Option<Mutation>, drawn: Revision): Props {
    var transition := !IsCompleted(prior);
    var at := Or(prior.completedAt, props.completedAt);
    var doneAt := Or(prior.doneAt, props.doneAt);
    props.(status := Some("done"), done := Some(true),
           completed := Or(prior.completed, props.completed),
           completedAt := if at.None? && doneAt.None? then Some(now) else at,
           doneAt := doneAt,
           recordedAt := Or(prior.recordedAt, props.recordedAt),
           completedBy := Or(prior.completedBy, props.completedBy),
           revision := if transition then Some(drawn) else Or(prior.revision, Some(drawn)),
           mutation := NextMutation(transition, prior, mutation, drawn))
  }

  function NextMutation(transition: bool, prior: Props, mutation: Option<Mutation>, drawn: Revision): Option<Mutation> {
    var offered := Or(mutation, Some(Drawn(drawn.step, drawn.row)));
    if transition then offered else Or(prior.mutation, offered)
  }

  function ReopenedProps(props: Props, prior: Props, mutation: Option<Mutation>, drawn: Revision): Props {
    var transition := IsCompleted(prior);
    props.(status := if Truthy(props.status) && props.status != Some("done") then props.status else Some("open"),
           done := None, completed := None, completedAt := None, doneAt := None, recordedAt := None, completedBy := None,
           revision := if transition then Some(drawn) else Or(prior.revision, Some(drawn)),
           mutation := NextMutation(transition, prior, mutation, drawn))
  }

  /** Completion fields belong to the stored row, in either direction. */
  function PreserveCompletionProps(props: Props, existing: Props): Props {
    if !IsCompleted(props) && !IsCompleted(existing) then
      props.(revision := existing.revision, mutation := existing.mutation)
    else
      props.(status := existing.status, done := existing.done, completed := existing.completed,
             completedAt := existing.completedAt, doneAt := existing.doneAt, recordedAt := existing.recordedAt,
             completedBy := existing.completedBy, revision := existing.revision, mutation := existing.mutation)
  }

  datatype Intent = NoIntent | Complete | Reopen

  function ApplyCompletionIntent(existing: Props, proposed: Props, intent: Intent, now: int, taskRow: bool,
                                 mutation: Option<Mutation>, drawn: Revision): Props {
    if !taskRow then proposed
    else match intent
      case Reopen => ReopenedProps(proposed, existing, mutation, drawn)
      case Complete => CompletedProps(proposed, existing, now, mutation, drawn)
      case NoIntent => PreserveCompletionProps(proposed, existing)
  }

  // ===== The two transactions =====

  /** `step` numbers the transactions; revisions drawn in one carry its number. */
  datatype State = State(rows: map<string, Row>, step: nat)

  datatype Base = NoBase | Base(revision: Option<Revision>)

  /** A write of a whole property bag (or of columns only, when there is no bag).  The parent and the
      day are kept when they are not sent.  `refused` stands for the checks on other fields. */
  datatype Write = Write(id: string, bag: Option<Props>, intent: Intent, mutation: Option<string>, base: Base, now: int,
                         parentId: Option<Option<string>>, date: Option<Option<int>>, refused: bool)

  function GivenMutation(m: Option<string>): Option<Mutation> {
    if m.Some? && m.value != "" then Some(Given(m.value)) else None
  }

  predicate SameMutation(p: Props, mutation: Option<Mutation>, done: bool) {
    mutation.Some? && p.mutation == mutation && IsCompleted(p) == done
  }

  /** The guard of the compare-and-set. */
  predicate BasePasses(p: Props, mutation: Option<Mutation>, done: bool, expected: Option<Revision>) {
    SameMutation(p, mutation, done) || p.revision == expected
  }

  predicate WriteCommits(s: State, w: Write) {
    && w.id in s.rows && !s.rows[w.id].deleted && !w.refused
    && (w.intent != NoIntent && w.base.Base? ==>
          BasePasses(s.rows[w.id].props, GivenMutation(w.mutation), w.intent == Complete, w.base.revision))
  }

  function Written(s: State, w: Write): Row
    requires w.id in s.rows
  {
    var r := s.rows[w.id];
    r.(props := if w.bag.None? then r.props
                else ApplyCompletionIntent(r.props, w.bag.value, w.intent, w.now, IsTask(r), GivenMutation(w.mutation),
                                           Revision(s.step, w.id)),
       parentId := if w.parentId.Some? then w.parentId.value else r.parentId,
       date := if w.date.Some? then w.date.value else r.date)
  }

  function AfterUpdate(s: State, w: Write): State {
    State(if WriteCommits(s, w) then s.rows[w.id := Written(s, w)] else s.rows, s.step + 1)
  }

  /** A request to complete or reopen one task.  The two flags stand for the checks on waiting
      dependencies and guided tasks, before and after the replay test, and on work started since. */
  datatype Request = Request(id: string, completed: bool, at: int, mutation: string, expected: Option<Revision>,
                             user: Option<int>, taskDate: Option<int>, includeDescendants: bool,
                             refusedBefore: bool, refusedAfter: bool)

  predicate Walkable(r: Row) {
    r.blockType == Block && !r.deleted && (Truthy(r.props.localId) || r.props.kind == TaskKind)
  }

  function LinkOf(r: Row): Link {
    Link(r.props.localId, r.props.wrapId, r.props.subtaskOf, r.parentId)
  }

  function LinksOf(rows: map<string, Row>): map<string, Link> {
    map id | id in rows :: LinkOf(rows[id])
  }

  /** The walkable rows of the target's day. */
  function Pool(rows: map<string, Row>, date: Option<int>): set<string> {
    set id | id in rows && Walkable(rows[id]) && rows[id].date == date
  }

  /** The target and, when it is completed with its steps, everything reached from it. */
  ghost function Writes(rows: map<string, Row>, q: Request): set<string>
    requires q.id in rows
  {
    if q.completed && q.includeDescendants then
      set id | id in rows && Reached(LinksOf(rows), Pool(rows, rows[q.id].date), q.id, id)
    else {q.id}
  }

  /** One row of a completion. */
  function CompletedRow(r: Row, q: Request, drawn: Revision): Row {
    var before := r.props;
    var planned := before.plannedEnd;
    var at := if planned.Some? then planned.value else q.at;
    var p := CompletedProps(before, before, at, Some(Given(q.mutation)), drawn).(mutation := Some(Given(q.mutation)));
    var timed := if planned.Some? then p.(completedAt := planned, doneAt := planned, recordedAt := Some(q.at)) else p;
    var signed := if q.user.Some? then timed.(completedBy := q.user) else timed;
    if r.date.None? && q.taskDate.Some? then
      r.(date := q.taskDate,
         props := signed.(stamped := q.taskDate,
                          kind := if signed.kind == BacklogKind then OtherKind else signed.kind,
                          wasBacklog := signed.wasBacklog || signed.kind == BacklogKind))
    else r.(props := signed)
  }

  /** One row of a reopening; a date that completion had stamped is taken back. */
  function ReopenedRow(r: Row, q: Request, drawn: Revision): Row {
    var p := ReopenedProps(r.props, r.props, Some(Given(q.mutation)), drawn).(mutation := Some(Given(q.mutation)));
    if r.date.Some? && p.stamped == r.date then
      r.(date := None,
         props := p.(stamped := None, kind := if p.wasBacklog then BacklogKind else p.kind, wasBacklog := false))
    else r.(props := p)
  }

  function Set(r: Row, q: Request, drawn: Revision): Row {
    if q.completed then CompletedRow(r, q, drawn) else ReopenedRow(r, q, drawn)
  }

  /** The request is stored, and not answered as a replay or refused. */
  predicate Accepts(s: State, q: Request) {
    && q.id in s.rows && !s.rows[q.id].deleted && IsTask(s.rows[q.id]) && !q.refusedBefore && !q.refusedAfter
    && !SameMutation(s.rows[q.id].props, Some(Given(q.mutation)), q.completed)
    && s.rows[q.id].props.revision == q.expected
  }

  ghost function AfterCompletion(s: State, q: Request): State {
    State(if Accepts(s, q)
          then map id | id in s.rows ::
            if id in Writes(s.rows, q) then Set(s.rows[id], q, Revision(s.step, id)) else s.rows[id]
          else s.rows,
          s.step + 1)
  }

  // ===== Single rows =====

  /** A plain write of a bag, whatever the bag says, keeps the completion state of a task row. */
  lemma PlainWriteNeverFlips(s: State, w: Write)
    requires w.id in s.rows && IsTask(s.rows[w.id]) && w.intent == NoIntent
    ensures var before, after := s.rows[w.id].props, AfterUpdate(s, w).rows[w.id].props;
            && IsCompleted(after) == IsCompleted(before)
            && after.revision == before.revision && after.mutation == before.mutation
            && (IsCompleted(before) ==> after.completedAt == before.completedAt && after.completedBy == before.completedBy)
  {
  }

  function Blank(): Props {
    Props(None, None, None, None, None, None, None, None, None, OtherKind, false, None, None, None, None, None, "")
  }

  /** Exactly the task rows are protected: any other live row is flipped by some plain write. */
  lemma OnlyTaskRowsAreProtected(s: State, id: string)
    requires id in s.rows && !s.rows[id].deleted
    ensures IsTask(s.rows[id]) <==>
            forall w: Write :: w.id == id && w.intent == NoIntent ==>
              IsCompleted(AfterUpdate(s, w).rows[id].props) == IsCompleted(s.rows[id].props)
  {
    var r := s.rows[id];
    if IsTask(r) {
      forall w: Write | w.id == id && w.intent == NoIntent
        ensures IsCompleted(AfterUpdate(s, w).rows[id].props) == IsCompleted(r.props)
      {
        PlainWriteNeverFlips(s, w);
      }
    } else {
      var bag := if IsCompleted(r.props) then Blank() else Blank().(status := Some("done"));
      var w := Write(id, Some(bag), NoIntent, None, NoBase, 0, None, None, false);
      assert AfterUpdate(s, w).rows[id].props == bag;
    }
  }

  /** A completion marks exactly the target and the rows reached from it, and leaves every other row
      as it was; a reopening touches the target alone. */
  lemma CompletionMarksExactlyTheSubtree(s: State, q: Request, id: string)
    requires Accepts(s, q) && id in s.rows
    ensures var before, after := s.rows[id], AfterCompletion(s, q).rows[id];
            && (q.completed ==> (IsCompleted(after.props) <==> IsCompleted(before.props) || id in Writes(s.rows, q)))
            && (!q.completed ==> (IsCompleted(after.props) <==> IsCompleted(before.props) && id != q.id))
            && (id !in Writes(s.rows, q) ==> after == before)
            && (id in Writes(s.rows, q) ==> after.props.mutation == Some(Given(q.mutation)))
  {
  }

  /** What was reached is the target or a live block of its day that has a local id or is a task. */
  lemma ReachedIsWalkable(rows: map<string, Row>, q: Request, id: string)
    requires q.id in rows && id in Writes(rows, q)
    ensures id == q.id || id in Pool(rows, rows[q.id].date)
    ensures id == q.id ||
            (&& id in rows && rows[id].blockType == Block && !rows[id].deleted && rows[id].date == rows[q.id].date
             && (rows[id].props.kind == TaskKind || (rows[id].props.localId.Some? && rows[id].props.localId.value != "")))
  {
    if q.completed && q.includeDescendants {
      var links, pool := LinksOf(rows), Pool(rows, rows[q.id].date);
      var chain :| IsChain(links, pool, chain) && chain[0] == q.id && chain[|chain| - 1] == id;
      if |chain| > 1 {
        assert Step(links, pool, chain[|chain| - 2], chain[|chain| - 2 + 1]);
      }
    }
  }

  /** A row that is no blank text. */
  predicate IsText(s: Option<string>) {
    s.Some? && s.value != ""
  }

  /** The row is a live block of the day that has a local id or is a task, does not merely ride along,
      and names the other row, by id or local id, as the task it is a step of, or else as its parent. */
  predicate IsStepOf(rows: map<string, Row>, date: Option<int>, c: string, x: string) {
    && c in rows && x in rows && rows[c].blockType == Block && !rows[c].deleted && rows[c].date == date
    && (rows[c].props.kind == TaskKind || IsText(rows[c].props.localId))
    && !IsText(rows[c].props.wrapId)
    && var named := if IsText(rows[c].props.subtaskOf) then rows[c].props.subtaskOf else rows[c].parentId;
       IsText(named) && (named.value == x || named == rows[x].props.localId)
  }

  lemma StepOfMeansStep(rows: map<string, Row>, date: Option<int>, x: string, c: string)
    ensures IsStepOf(rows, date, c, x) <==> Step(LinksOf(rows), Pool(rows, date), x, c)
  {
  }

  /** Every step of a reached row is reached as well ... */
  lemma StepsAreTaken(rows: map<string, Row>, q: Request, x: string, c: string)
    requires q.id in rows && q.completed && q.includeDescendants
    requires x in Writes(rows, q) && IsStepOf(rows, rows[q.id].date, c, x)
    ensures c in Writes(rows, q)
  {
    StepOfMeansStep(rows, rows[q.id].date, x, c);
    NextIsReached(LinksOf(rows), Pool(rows, rows[q.id].date), q.id, x, c);
  }

  /** ... and nothing else: any set with the target that holds the steps of its rows holds every row
      that is written. */
  lemma NothingElseIsTaken(rows: map<string, Row>, q: Request, ids: set<string>, id: string)
    requires q.id in rows && q.id in ids && id in Writes(rows, q)
    requires forall x, c :: x in ids && IsStepOf(rows, rows[q.id].date, c, x) ==> c in ids
    ensures id in ids
  {
    if q.completed && q.includeDescendants {
      var links, pool := LinksOf(rows), Pool(rows, rows[q.id].date);
      forall x, c | x in ids && Step(links, pool, x, c) ensures c in ids {
        StepOfMeansStep(rows, rows[q.id].date, x, c);
      }
      var chain :| IsChain(links, pool, chain) && chain[0] == q.id && chain[|chain| - 1] == id;
      ClosedHoldsChain(links, pool, ids, chain);
    }
  }

  /** Reopening takes back what completing did to the day and the kind of a task. */
  lemma ReopeningRestoresTheDay(r: Row, done: Request, undone: Request, a: Revision, b: Revision)
    requires !IsCompleted(r.props) && r.props.stamped.None? && !r.props.wasBacklog
    ensures var after := ReopenedRow(CompletedRow(r, done, a), undone, b);
            && !IsCompleted(after.props) && after.date == r.date && after.props.kind == r.props.kind
            && after.props.stamped.None? && !after.props.wasBacklog
            && after.props.text == r.props.text && after.parentId == r.parentId
  {
  }

  // ===== What is stored, field by field =====

  /** Done in one of the ways that old rows show it. */
  predicate ShowsDone(p: Props) {
    || p.status == Some("done") || p.done == Some(true) || p.completed == Some(true)
    || p.completedAt != None || p.doneAt != None
  }

  /** A stored completion or reopening: a live task, no refusal, the revision that the caller saw, and
      not the last mutation over again. */
  predicate MaySettle(r: Row, q: Request) {
    && !r.deleted && r.blockType != Container && r.props.kind != NotATask && !q.refusedBefore && !q.refusedAfter
    && r.props.revision == q.expected
    && !(r.props.mutation == Some(Given(q.mutation)) && ShowsDone(r.props) == q.completed)
  }

  /** The properties that completion does not own. */
  function Plain(p: Props): Props {
    p.(status := None, done := None, completed := None, completedAt := None, doneAt := None, recordedAt := None,
       completedBy := None, revision := None, mutation := None)
  }

  /** A completed row: done, with the planned end or the first time it was completed, signed, and on
      the day of the request when it had none. */
  predicate IsCompletionOf(after: Row, r: Row, q: Request) {
    var p, old' := after.props, r.props;
    && p.status == Some("done") && p.done == Some(true) && p.mutation == Some(Given(q.mutation))
    && p.completedAt == (if old'.plannedEnd.Some? then old'.plannedEnd else if old'.completedAt.Some? then old'.completedAt
                         else if old'.doneAt.Some? then None else Some(q.at))
    && p.doneAt == (if old'.plannedEnd.Some? then old'.plannedEnd else old'.doneAt)
    && p.recordedAt == (if old'.plannedEnd.Some? then Some(q.at) else old'.recordedAt)
    && p.completedBy == (if q.user.Some? then q.user else old'.completedBy)
    && after.date == (if r.date.Some? then r.date else q.taskDate)
    && after == r.(date := after.date, props := p)
    && Plain(p) == Plain(old').(stamped := p.stamped, kind := p.kind, wasBacklog := p.wasBacklog)
    && (r.date.Some? || q.taskDate.None? ==> Plain(p) == Plain(old'))
    && (r.date.None? && q.taskDate.Some? ==> p.stamped == q.taskDate && p.kind != BacklogKind)
  }

  /** A reopened row: nothing of its completion is left, nor the day that completing gave it. */
  predicate IsReopeningOf(after: Row, r: Row, q: Request) {
    var p, old' := after.props, r.props;
    && p.status == (if old'.status.Some? && old'.status.value != "" && old'.status.value != "done" then old'.status else Some("open"))
    && p.done.None? && p.completed.None? && p.completedAt.None? && p.doneAt.None? && p.recordedAt.None? && p.completedBy.None?
    && p.mutation == Some(Given(q.mutation))
    && after == r.(date := after.date, props := p)
    && (if r.date.Some? && old'.stamped == r.date then
          && after.date.None? && p.stamped.None? && !p.wasBacklog && (old'.wasBacklog ==> p.kind == BacklogKind)
        else after.date == r.date && Plain(p) == Plain(old'))
  }

  /** A request is stored exactly when it may be, and each of its rows then shows it; otherwise no row
      changes. */
  lemma RequestIsStoredExactly(s: State, q: Request, id: string)
    requires q.id in s.rows && id in s.rows
    ensures Accepts(s, q) <==> MaySettle(s.rows[q.id], q)
    ensures id in AfterCompletion(s, q).rows
    ensures var after := AfterCompletion(s, q).rows[id];
            if MaySettle(s.rows[q.id], q) && id in Writes(s.rows, q) then
              if q.completed then IsCompletionOf(after, s.rows[id], q) else IsReopeningOf(after, s.rows[id], q)
            else after == s.rows[id]
  {
    CompletedRowShows(s.rows[id], q, Revision(s.step, id));
    ReopenedRowShows(s.rows[id], q, Revision(s.step, id));
  }

  lemma CompletedRowShows(r: Row, q: Request, drawn: Revision)
    ensures IsCompletionOf(CompletedRow(r, q, drawn), r, q)
  {
  }

  lemma ReopenedRowShows(r: Row, q: Request, drawn: Revision)
    ensures IsReopeningOf(ReopenedRow(r, q, drawn), r, q)
  {
  }

  /** A write is stored exactly when its row is live, nothing else refuses it, and a base that it names
      is the stored revision or the mutation is the stored one, in the state it asks for. */
  lemma WriteIsStoredExactly(s: State, w: Write)
    ensures WriteCommits(s, w) <==>
            && w.id in s.rows && !s.rows[w.id].deleted && !w.refused
            && (w.intent == NoIntent || w.base == NoBase || w.base == Base(s.rows[w.id].props.revision)
                || (w.mutation.Some? && w.mutation.value != "" && s.rows[w.id].props.mutation == Some(Given(w.mutation.value))
                    && ShowsDone(s.rows[w.id].props) == (w.intent == Complete)))
  {
  }

  /** What a write stores: the parent and the day that are sent, and the bag, of which a task row takes
      everything but its completion fields. */
  lemma WriteStoresItsBag(s: State, w: Write)
    requires WriteCommits(s, w)
    ensures var r, after := s.rows[w.id], AfterUpdate(s, w).rows[w.id];
            && after == r.(parentId := after.parentId, date := after.date, props := after.props)
            && after.parentId == (if w.parentId.Some? then w.parentId.value else r.parentId)
            && after.date == (if w.date.Some? then w.date.value else r.date)
            && (w.bag.None? ==> after.props == r.props)
            && (w.bag.Some? && !IsTask(r) ==> after.props == w.bag.value)
            && (w.bag.Some? && IsTask(r) ==> Plain(after.props) == Plain(w.bag.value))
            && (w.bag.Some? && IsTask(r) && w.intent != NoIntent ==> ShowsDone(after.props) == (w.intent == Complete))
            && (w.bag.Some? && IsTask(r) && w.intent == NoIntent && !ShowsDone(r.props) && !ShowsDone(w.bag.value) ==>
                  after.props.status == w.bag.value.status && after.props.done == w.bag.value.done)
            && (forall id :: id in s.rows && id != w.id ==> AfterUpdate(s, w).rows[id] == s.rows[id])
  {
  }

  // ===== Runs =====

  datatype Op = Update(write: Write) | Settle(request: Request)

  ghost function Do(s: State, op: Op): State {
    match op
    case Update(w) => AfterUpdate(s, w)
    case Settle(q) => AfterCompletion(s, q)
  }

  ghost function Run(s: State, ops: seq<Op>): State {
    if ops == [] then s else Do(Run(s, ops[..|ops| - 1]), ops[|ops| - 1])
  }

  /** The revision in the row was drawn before now. */
  predicate DrawnBefore(s: State, id: string) {
    id in s.rows && (s.rows[id].props.revision.Some? ==> s.rows[id].props.revision.value.step < s.step)
  }

  predicate HasTask(s: State, id: string) {
    id in s.rows && IsTask(s.rows[id])
  }

  /** The row is a task row whenever a transaction comes. */
  ghost predicate TaskThroughout(s: State, ops: seq<Op>, id: string) {
    forall n :: 0 <= n <= |ops| ==> HasTask(Run(s, ops[..n]), id)
  }

  function RevisionOf(s: State, id: string): Option<Revision>
    requires id in s.rows
  {
    s.rows[id].props.revision
  }

  predicate DoneIn(s: State, id: string)
    requires id in s.rows
  {
    IsCompleted(s.rows[id].props)
  }

  ghost predicate KeepsOrDraws(before: Props, after: Props, drawn: Revision) {
    (after.revision == before.revision && IsCompleted(after) == IsCompleted(before)) || after.revision == Some(drawn)
  }

  lemma IntentKeepsOrDraws(existing: Props, proposed: Props, intent: Intent, now: int, mutation: Option<Mutation>, drawn: Revision)
    ensures KeepsOrDraws(existing, ApplyCompletionIntent(existing, proposed, intent, now, true, mutation, drawn), drawn)
  {
  }

  lemma RowKeepsOrDraws(r: Row, q: Request, drawn: Revision)
    ensures KeepsOrDraws(r.props, Set(r, q, drawn).props, drawn)
  {
  }

  /** A transaction leaves revision and done bit of a task row alone, or draws a new revision. */
  lemma StepKeepsOrDraws(s: State, op: Op, id: string)
    requires HasTask(s, id)
    ensures id in Do(s, op).rows && Do(s, op).step == s.step + 1
    ensures KeepsOrDraws(s.rows[id].props, Do(s, op).rows[id].props, Revision(s.step, id))
  {
    if op.Update? {
      var w := op.write;
      if WriteCommits(s, w) && w.id == id && w.bag.Some? {
        IntentKeepsOrDraws(s.rows[id].props, w.bag.value, w.intent, w.now, GivenMutation(w.mutation), Revision(s.step, id));
      }
    } else {
      RowKeepsOrDraws(s.rows[id], op.request, Revision(s.step, id));
    }
  }

  lemma {:induction false} RunKeepsOrDraws(s: State, ops: seq<Op>, id: string)
    requires TaskThroughout(s, ops, id)
    ensures id in s.rows && id in Run(s, ops).rows && Run(s, ops).step == s.step + |ops|
    ensures (RevisionOf(Run(s, ops), id) == RevisionOf(s, id) && DoneIn(Run(s, ops), id) == DoneIn(s, id))
         || (RevisionOf(Run(s, ops), id).Some? && RevisionOf(Run(s, ops), id).value.step >= s.step)
  {
    assert ops[..0] == [] && ops[..|ops|] == ops;
    assert HasTask(Run(s, ops[..0]), id) && HasTask(Run(s, ops[..|ops|]), id);
    if ops != [] {
      var front := ops[..|ops| - 1];
      TaskWasThroughout(s, ops, |ops| - 1, id);
      RunKeepsOrDraws(s, front, id);
      assert HasTask(Run(s, ops[..|ops| - 1]), id);
      StepKeepsOrDraws(Run(s, front), ops[|ops| - 1], id);
    }
  }

  lemma TaskWasThroughout(s: State, ops: seq<Op>, i: nat, id: string)
    requires TaskThroughout(s, ops, id) && i <= |ops|
    ensures TaskThroughout(s, ops[..i], id)
  {
    forall n | 0 <= n <= i ensures HasTask(Run(s, ops[..i][..n]), id) {
      assert ops[..i][..n] == ops[..n];
    }
  }

  lemma {:induction false} RunInTwoParts(s: State, ops: seq<Op>, i: nat)
    requires i <= |ops|
    ensures Run(s, ops) == Run(Run(s, ops[..i]), ops[i..])
  {
    if i == |ops| {
      assert ops[..i] == ops;
    } else {
      var m := |ops| - 1;
      assert ops[i..][..m - i] == ops[i..m] && ops[i..][m - i] == ops[m];
      RunInTwoParts(s, ops[..m], i);
      assert ops[..m][..i] == ops[..i] && ops[..m][i..] == ops[i..m];
    }
  }

  lemma {:induction false} RunDrawsBefore(s: State, ops: seq<Op>, id: string)
    requires DrawnBefore(s, id) && TaskThroughout(s, ops, id)
    ensures DrawnBefore(Run(s, ops), id)
  {
    if ops != [] {
      var m := |ops| - 1;
      TaskWasThroughout(s, ops, m, id);
      RunDrawsBefore(s, ops[..m], id);
      assert HasTask(Run(s, ops[..m]), id);
      StepKeepsOrDraws(Run(s, ops[..m]), ops[m], id);
    }
  }

  lemma TaskStaysThroughout(s: State, ops: seq<Op>, i: nat, id: string)
    requires TaskThroughout(s, ops, id) && i <= |ops|
    ensures TaskThroughout(Run(s, ops[..i]), ops[i..], id)
  {
    forall n | 0 <= n <= |ops| - i ensures HasTask(Run(Run(s, ops[..i]), ops[i..][..n]), id) {
      RunInTwoParts(s, ops[..i + n], i);
      assert ops[..i + n][..i] == ops[..i] && ops[..i + n][i..] == ops[i..][..n];
      assert HasTask(Run(s, ops[..i + n]), id);
    }
  }

  /** What a later state has of a row: the same revision and done bit, or a revision drawn since. */
  lemma LaterKeepsOrDraws(s: State, ops: seq<Op>, i: nat, id: string)
    requires DrawnBefore(s, id) && TaskThroughout(s, ops, id) && i <= |ops|
    ensures DrawnBefore(Run(s, ops[..i]), id) && id in Run(s, ops).rows
    ensures var now, later := Run(s, ops[..i]), Run(s, ops);
            || (RevisionOf(later, id) == RevisionOf(now, id) && DoneIn(later, id) == DoneIn(now, id))
            || (RevisionOf(later, id).Some? && RevisionOf(later, id).value.step >= now.step)
  {
    TaskWasThroughout(s, ops, i, id);
    RunDrawsBefore(s, ops[..i], id);
    TaskStaysThroughout(s, ops, i, id);
    RunInTwoParts(s, ops, i);
    RunKeepsOrDraws(Run(s, ops[..i]), ops[i..], id);
  }

  /** No ABA: two states of a run that show the same revision of a task show the same done bit. */
  lemma EqualRevisionsMeanEqualState(s: State, ops: seq<Op>, i: nat, j: nat, id: string)
    requires DrawnBefore(s, id) && TaskThroughout(s, ops, id) && i <= j <= |ops|
    ensures HasTask(Run(s, ops[..i]), id) && HasTask(Run(s, ops[..j]), id)
    ensures RevisionOf(Run(s, ops[..i]), id) == RevisionOf(Run(s, ops[..j]), id) ==>
              DoneIn(Run(s, ops[..i]), id) == DoneIn(Run(s, ops[..j]), id)
  {
    TaskWasThroughout(s, ops, j, id);
    assert ops[..j][..i] == ops[..i];
    LaterKeepsOrDraws(s, ops[..j], i, id);
  }

  predicate BasedOn(op: Op, id: string, expected: Option<Revision>) {
    match op
    case Update(w) => w.id == id && w.intent != NoIntent && w.base == Base(expected)
    case Settle(q) => q.id == id && q.expected == expected
  }

  ghost predicate Flips(s: State, op: Op, id: string) {
    id in s.rows && id in Do(s, op).rows && DoneIn(Do(s, op), id) != DoneIn(s, id)
  }

  /** A flip that names an expected revision finds it and replaces it. */
  lemma FlipSpendsRevision(s: State, op: Op, id: string, expected: Option<Revision>)
    requires HasTask(s, id) && BasedOn(op, id, expected) && Flips(s, op, id)
    ensures RevisionOf(s, id) == expected && RevisionOf(Do(s, op), id) == Some(Revision(s.step, id))
  {
    StepKeepsOrDraws(s, op, id);
  }

  /** Once a new revision was drawn, the one before never comes back. */
  lemma SpentRevisionNeverReturns(s: State, ops: seq<Op>, i: nat, id: string)
    requires DrawnBefore(s, id) && TaskThroughout(s, ops, id) && i < |ops|
    requires HasTask(Run(s, ops[..i]), id) && HasTask(Run(s, ops[..i + 1]), id)
    requires RevisionOf(Run(s, ops[..i + 1]), id) == Some(Revision(Run(s, ops[..i]).step, id))
    ensures id in Run(s, ops).rows && RevisionOf(Run(s, ops), id) != RevisionOf(Run(s, ops[..i]), id)
  {
    LaterKeepsOrDraws(s, ops, i, id);
    LaterKeepsOrDraws(s, ops, i + 1, id);
    assert ops[..i + 1][..i] == ops[..i];
  }

  /** Of two flips based on the same expected revision at most one commits. */
  lemma AtMostOneFlipPerRevision(s: State, ops: seq<Op>, i: nat, j: nat, id: string, expected: Option<Revision>)
    requires DrawnBefore(s, id) && TaskThroughout(s, ops, id) && i < j < |ops|
    requires BasedOn(ops[i], id, expected) && BasedOn(ops[j], id, expected)
    requires Flips(Run(s, ops[..i]), ops[i], id)
    ensures !Flips(Run(s, ops[..j]), ops[j], id)
  {
    var before := ops[..j];
    assert HasTask(Run(s, ops[..i]), id) && HasTask(Run(s, ops[..i + 1]), id) && HasTask(Run(s, ops[..j]), id);
    assert before[..i] == ops[..i] && before[..i + 1] == ops[..i + 1];
    FlipSpendsRevision(Run(s, ops[..i]), ops[i], id, expected);
    RunByOne(s, ops, i);
    TaskWasThroughout(s, ops, j, id);
    SpentRevisionNeverReturns(s, before, i, id);
    if Flips(Run(s, ops[..j]), ops[j], id) {
      FlipSpendsRevision(Run(s, ops[..j]), ops[j], id, expected);
    }
  }

  lemma RunByOne(s: State, ops: seq<Op>, i: nat)
    requires i < |ops|
    ensures Run(s, ops[..i + 1]) == Do(Run(s, ops[..i]), ops[i])
  {
    assert ops[..i + 1][..i] == ops[..i];
  }

  // ===== Replays =====

  /** An accepted request draws a revision exactly when it flips the task or finds none. */
  predicate DrawsRevision(s: State, q: Request)
    requires q.id in s.rows
  {
    IsCompleted(s.rows[q.id].props) != q.completed || s.rows[q.id].props.revision.None?
  }

  /** Whenever it comes again, the request writes no row. */
  ghost predicate ReplayIsSilent(s: State, q: Request) {
    forall ops :: TaskThroughout(s, ops, q.id) ==> AfterCompletion(Run(s, ops), q).rows == Run(s, ops).rows
  }

  /** What an accepted request leaves in its target. */
  lemma AcceptedTarget(s: State, q: Request)
    requires Accepts(s, q)
    ensures q.id in AfterCompletion(s, q).rows
    ensures var before, after := s.rows[q.id].props, AfterCompletion(s, q).rows[q.id].props;
            && IsCompleted(after) == q.completed && after.mutation == Some(Given(q.mutation))
            && after.revision == if DrawsRevision(s, q) then Some(Revision(s.step, q.id)) else before.revision
  {
    StartIsReached(LinksOf(s.rows), Pool(s.rows, s.rows[q.id].date), q.id);
    assert q.id in Writes(s.rows, q);
  }

  lemma DrawnRevisionSilencesReplay(s: State, q: Request, ops: seq<Op>)
    requires Accepts(s, q) && DrawnBefore(s, q.id) && DrawsRevision(s, q)
    requires TaskThroughout(AfterCompletion(s, q), ops, q.id)
    ensures !Accepts(Run(AfterCompletion(s, q), ops), q)
  {
    AcceptedTarget(s, q);
    RunKeepsOrDraws(AfterCompletion(s, q), ops, q.id);
  }

  /** Another mutation id of the same length. */
  function OtherId(id: string): (other: string)
    ensures other != id && (id != "" ==> |other| == |id| && (other[0] == 'a' || other[0] == 'b'))
  {
    if id == "" then "a"
    else
      var other := (if id[0] == 'a' then "b" else "a") + id[1..];
      assert other[0] != id[0];
      other
  }

  /** Another mutation in between, on the same revision. */
  function Intruder(q: Request): Request {
    q.(mutation := OtherId(q.mutation))
  }

  lemma IntruderIsAccepted(s: State, q: Request)
    requires Accepts(s, q) && !DrawsRevision(s, q)
    ensures var after := AfterCompletion(s, q);
            && HasTask(after, q.id) && Accepts(after, Intruder(q)) && !DrawsRevision(after, Intruder(q))
  {
    AcceptedTarget(s, q);
    StepKeepsTask(s, q);
  }

  lemma StepKeepsTask(s: State, q: Request)
    requires HasTask(s, q.id)
    ensures HasTask(AfterCompletion(s, q), q.id)
    ensures AfterCompletion(s, q).rows[q.id].deleted == s.rows[q.id].deleted
  {
  }

  lemma IntruderRevivesReplay(s: State, q: Request)
    requires Accepts(s, q) && !DrawsRevision(s, q)
    ensures var after := AfterCompletion(s, q);
            && TaskThroughout(after, [Settle(Intruder(q))], q.id)
            && Accepts(Run(after, [Settle(Intruder(q))]), q)
            && MutationOf(Run(after, [Settle(Intruder(q))]), q.id) == Some(Given(OtherId(q.mutation)))
  {
    var after, ops := AfterCompletion(s, q), [Settle(Intruder(q))];
    IntruderIsAccepted(s, q);
    AcceptedTarget(s, q);
    AcceptedTarget(after, Intruder(q));
    StepKeepsTask(after, Intruder(q));
    assert ops[..0] == [] && ops[..1] == ops;
    assert Run(after, ops) == AfterCompletion(after, Intruder(q)) by {
      RunByOne(after, ops, 0);
    }
    forall n | 0 <= n <= |ops| ensures HasTask(Run(after, ops[..n]), q.id) {
      assert n == 0 || n == 1;
    }
  }

  function MutationOf(s: State, id: string): Option<Mutation> {
    if id in s.rows then s.rows[id].props.mutation else None
  }

  /** The replay of an accepted request is silent at any later time exactly when the request drew a
      revision. */
  lemma ReplayIsSilentExactlyAfterADraw(s: State, q: Request)
    requires Accepts(s, q) && DrawnBefore(s, q.id)
    ensures ReplayIsSilent(AfterCompletion(s, q), q) <==> DrawsRevision(s, q)
  {
    if DrawsRevision(s, q) {
      forall ops | TaskThroughout(AfterCompletion(s, q), ops, q.id)
        ensures AfterCompletion(Run(AfterCompletion(s, q), ops), q).rows == Run(AfterCompletion(s, q), ops).rows
      {
        DrawnRevisionSilencesReplay(s, q, ops);
      }
    } else {
      IntruderRevivesReplay(s, q);
      var later := Run(AfterCompletion(s, q), [Settle(Intruder(q))]);
      AcceptedTarget(later, q);
      assert AfterCompletion(later, q).rows[q.id].props.mutation != later.rows[q.id].props.mutation;
    }
  }

  // ===== Replayed updates =====

  /** A write with an intent, based on a revision that its caller has seen. */
  predicate Asks(s: State, w: Write) {
    w.intent != NoIntent && w.base.Base? && (w.base.revision.Some? ==> w.base.revision.value.step < s.step)
  }

  /** What every write with an intent leaves behind, and every later transaction keeps. */
  predicate Settled(p: Props) {
    && p.revision.Some? && p.mutation.Some?
    && (IsCompleted(p) ==> p.status == Some("done") && p.done == Some(true) && (p.completedAt.Some? || p.doneAt.Some?))
  }

  lemma IntentSettles(existing: Props, proposed: Props, intent: Intent, now: int, mutation: Option<Mutation>, drawn: Revision)
    requires intent != NoIntent || Settled(existing)
    ensures var after := ApplyCompletionIntent(existing, proposed, intent, now, true, mutation, drawn);
            Settled(after) && (intent != NoIntent ==> IsCompleted(after) == (intent == Complete))
  {
  }

  lemma CompletedRowSettles(r: Row, q: Request, drawn: Revision)
    ensures Settled(CompletedRow(r, q, drawn).props)
  {
  }

  lemma ReopenedRowSettles(r: Row, q: Request, drawn: Revision)
    ensures Settled(ReopenedRow(r, q, drawn).props)
  {
  }

  lemma StepKeepsSettled(s: State, op: Op, id: string)
    requires HasTask(s, id) && Settled(s.rows[id].props)
    ensures id in Do(s, op).rows && Settled(Do(s, op).rows[id].props)
  {
    if op.Update? {
      var w := op.write;
      if WriteCommits(s, w) && w.id == id && w.bag.Some? {
        IntentSettles(s.rows[id].props, w.bag.value, w.intent, w.now, GivenMutation(w.mutation), Revision(s.step, id));
      }
    } else {
      CompletedRowSettles(s.rows[id], op.request, Revision(s.step, id));
      ReopenedRowSettles(s.rows[id], op.request, Revision(s.step, id));
    }
  }

  lemma {:induction false} RunKeepsSettled(s: State, ops: seq<Op>, id: string)
    requires TaskThroughout(s, ops, id) && HasTask(s, id) && Settled(s.rows[id].props)
    ensures id in Run(s, ops).rows && Settled(Run(s, ops).rows[id].props)
  {
    if ops != [] {
      var m := |ops| - 1;
      TaskWasThroughout(s, ops, m, id);
      RunKeepsSettled(s, ops[..m], id);
      assert HasTask(Run(s, ops[..m]), id);
      StepKeepsSettled(Run(s, ops[..m]), ops[m], id);
    }
  }

  /** Whenever an accepted update comes again and passes, the task is in the state it asks for. */
  lemma PassingReplayMeetsItsTarget(s: State, w: Write, ops: seq<Op>)
    requires HasTask(s, w.id) && DrawnBefore(s, w.id) && Asks(s, w) && WriteCommits(s, w) && w.bag.Some?
    requires TaskThroughout(AfterUpdate(s, w), ops, w.id)
    ensures w.id in Run(AfterUpdate(s, w), ops).rows
    ensures var later := Run(AfterUpdate(s, w), ops);
            && Settled(later.rows[w.id].props)
            && (WriteCommits(later, w) ==> DoneIn(later, w.id) == (w.intent == Complete))
  {
    var after := AfterUpdate(s, w);
    IntentSettles(s.rows[w.id].props, w.bag.value, w.intent, w.now, GivenMutation(w.mutation), Revision(s.step, w.id));
    assert ops[..0] == [];
    assert HasTask(Run(after, ops[..0]), w.id);
    RunKeepsSettled(after, ops, w.id);
    RunKeepsOrDraws(after, ops, w.id);
  }

  /** In every run, an accepted update that comes again changes neither the done bit nor the revision
      nor the mutation id of its task. */
  lemma ReplayedUpdateNeverFlips(s: State, w: Write, ops: seq<Op>)
    requires HasTask(s, w.id) && DrawnBefore(s, w.id) && Asks(s, w) && WriteCommits(s, w)
    requires TaskThroughout(AfterUpdate(s, w), ops, w.id)
    ensures w.id in Run(AfterUpdate(s, w), ops).rows
    ensures var later := Run(AfterUpdate(s, w), ops);
            var before, after := later.rows[w.id].props, AfterUpdate(later, w).rows[w.id].props;
            && IsCompleted(after) == IsCompleted(before)
            && after.revision == before.revision && after.mutation == before.mutation
  {
    assert ops[..|ops|] == ops;
    assert HasTask(Run(AfterUpdate(s, w), ops[..|ops|]), w.id);
    if w.bag.Some? {
      PassingReplayMeetsItsTarget(s, w, ops);
    }
  }

  predicate Filled<T>(stored: Option<T>, offered: Option<T>) {
    offered.None? || stored.Some?
  }

  /** The row already holds what the update carries: the parent and the day if they are sent, the other
      properties, and of the completion fields those that the intent would write. */
  predicate StoredAsWritten(r: Row, w: Write) {
    && (w.parentId.Some? ==> r.parentId == w.parentId.value) && (w.date.Some? ==> r.date == w.date.value)
    && (w.bag.Some? ==> Plain(r.props) == Plain(w.bag.value) && FieldsAsWritten(r.props, w.bag.value, w.intent))
  }

  predicate FieldsAsWritten(p: Props, bag: Props, intent: Intent) {
    if intent == Complete then
      && Filled(p.completed, bag.completed) && Filled(p.completedAt, bag.completedAt) && Filled(p.doneAt, bag.doneAt)
      && Filled(p.recordedAt, bag.recordedAt) && Filled(p.completedBy, bag.completedBy)
    else
      && p.status == (if Truthy(bag.status) && bag.status != Some("done") then bag.status else Some("open"))
      && p.done.None? && p.completed.None? && p.recordedAt.None? && p.completedBy.None?
  }

  /** In every run, an accepted update that comes again leaves its row as it is if and only if it is
      refused or the row holds already what it carries. */
  lemma ReplayedUpdateIsSilentExactlyWhenStored(s: State, w: Write, ops: seq<Op>)
    requires HasTask(s, w.id) && DrawnBefore(s, w.id) && Asks(s, w) && WriteCommits(s, w)
    requires TaskThroughout(AfterUpdate(s, w), ops, w.id)
    ensures w.id in Run(AfterUpdate(s, w), ops).rows
    ensures var later := Run(AfterUpdate(s, w), ops);
            (AfterUpdate(later, w).rows[w.id] == later.rows[w.id])
            <==> (!WriteCommits(later, w) || StoredAsWritten(later.rows[w.id], w))
  {
    var later := Run(AfterUpdate(s, w), ops);
    assert ops[..|ops|] == ops;
    assert HasTask(Run(AfterUpdate(s, w), ops[..|ops|]), w.id);
    if w.bag.Some? {
      PassingReplayMeetsItsTarget(s, w, ops);
      if WriteCommits(later, w) {
        AppliedAgain(later.rows[w.id].props, w.bag.value, w.intent, w.now, GivenMutation(w.mutation), Revision(later.step, w.id));
      }
    }
  }

  lemma AppliedAgain(p: Props, bag: Props, intent: Intent, now: int, mutation: Option<Mutation>, drawn: Revision)
    requires Settled(p) && intent != NoIntent && IsCompleted(p) == (intent == Complete)
    ensures (ApplyCompletionIntent(p, bag, intent, now, true, mutation, drawn) == p)
            <==> (Plain(p) == Plain(bag) && FieldsAsWritten(p, bag, intent))
  {
  }

  /** A plain write of the bag of an update with another text. */
  function Retouch(w: Write): Write
    requires w.bag.Some?
  {
    w.(bag := Some(w.bag.value.(text := OtherId(w.bag.value.text))), intent := NoIntent, base := NoBase)
  }

  /** Every accepted flip is undone in part by its own replay: after a plain write of another text the
      replay still passes as the same mutation, and puts its own text back. */
  lemma ReplayedUpdatePutsItsBagBack(s: State, w: Write)
    requires HasTask(s, w.id) && DrawnBefore(s, w.id) && Asks(s, w) && WriteCommits(s, w)
    requires Truthy(w.mutation) && w.bag.Some? && w.bag.value.kind != NotATask
    requires DoneIn(s, w.id) != (w.intent == Complete)
    ensures var after, ops := AfterUpdate(s, w), [Update(Retouch(w))];
            && TaskThroughout(after, ops, w.id) && WriteCommits(Run(after, ops), w)
            && w.id in Run(after, ops).rows && w.id in AfterUpdate(Run(after, ops), w).rows
            && Run(after, ops).rows[w.id].props.text != w.bag.value.text
            && AfterUpdate(Run(after, ops), w).rows[w.id].props.text == w.bag.value.text
  {
    var after, ops := AfterUpdate(s, w), [Update(Retouch(w))];
    IntentSettles(s.rows[w.id].props, w.bag.value, w.intent, w.now, GivenMutation(w.mutation), Revision(s.step, w.id));
    assert ops[..0] == [] && ops[..1] == ops;
    RunByOne(after, ops, 0);
    PlainWriteNeverFlips(after, Retouch(w));
    forall n | 0 <= n <= |ops| ensures HasTask(Run(after, ops[..n]), w.id) {
      assert n == 0 || n == 1;
    }
  }

  // ===== The store =====

  /** `Legacy` says that no task row goes by the reference, and the list of old tasks of the day is
      asked instead. */
  datatype Outcome = Stored | Duplicate | Refused | Legacy

  // ----- Which row a reference means -----

  datatype Target = Found(id: string) | Missing | Ambiguous

  predicate IsNamed(r: Row, ref: string, day: Option<int>) {
    !r.deleted && r.props.localId == Some(ref) && (day.Some? ==> r.date == day)
  }

  /** The live rows with this local id, of one day when a day is given. */
  function Named(rows: map<string, Row>, ref: string, day: Option<int>): set<string> {
    set id | id in rows && IsNamed(rows[id], ref, day)
  }

  /** A live row with this id, else the only row with this local id. */
  ghost function FindTarget(rows: map<string, Row>, ref: string, day: Option<int>): (t: Target)
    ensures t.Found? ==> t.id in rows && !rows[t.id].deleted && (t.id == ref || IsNamed(rows[t.id], ref, day))
    ensures t.Found? && t.id != ref ==> Named(rows, ref, day) == {t.id}
    ensures t.Missing? ==> !(ref in rows && !rows[ref].deleted) && Named(rows, ref, day) == {}
    ensures t.Ambiguous? ==>
              !(ref in rows && !rows[ref].deleted)
              && exists a, b :: a in Named(rows, ref, day) && b in Named(rows, ref, day) && a != b
  {
    var named := Named(rows, ref, day);
    if ref in rows && !rows[ref].deleted then Found(ref)
    else if named == {} then Missing
    else
      var id :| id in named;
      if named == {id} then Found(id)
      else
        assert exists b :: b in named && b != id;
        Ambiguous
  }

  lemma ListedTarget(rows: map<string, Row>, ref: string, day: Option<int>, listed: seq<string>)
    requires forall id :: id in listed <==> id in Named(rows, ref, day)
    requires forall j, k :: 0 <= j < k < |listed| ==> listed[j] != listed[k]
    requires !(ref in rows && !rows[ref].deleted)
    ensures FindTarget(rows, ref, day)
         == if |listed| > 1 then Ambiguous else if |listed| == 1 then Found(listed[0]) else Missing
  {
    var named := Named(rows, ref, day);
    if |listed| > 1 {
      assert listed[0] in named && listed[1] in named;
    } else if |listed| == 1 {
      assert named == {listed[0]};
    } else {
      assert named == {};
    }
  }

  /** Rows of which the listed ones were set. */
  ghost function SetAll(rows: map<string, Row>, written: seq<string>, q: Request, step: nat): map<string, Row> {
    map id | id in rows :: if id in written then Set(rows[id], q, Revision(step, id)) else rows[id]
  }

  /** The rows of a pool that the walk met, target first. */
  method RowsToWrite(order: seq<string>, ids: set<string>, target: string) returns (written: seq<string>)
    requires forall j, k :: 0 <= j < k < |order| ==> order[j] != order[k]
    ensures forall id :: id in written <==> id == target || (id in order && id in ids)
    ensures forall j, k :: 0 <= j < k < |written| ==> written[j] != written[k]
    ensures written != [] && written[0] == target
  {
    written := [target];
    for n := 0 to |order|
      invariant written != [] && written[0] == target
      invariant forall id :: id in written <==> id == target || (id in order[..n] && id in ids)
      invariant forall j, k :: 0 <= j < k < |written| ==> written[j] != written[k]
    {
      assert order[..n + 1] == order[..n] + [order[n]];
      if order[n] != target && order[n] in ids {
        written := written + [order[n]];
      }
    }
    assert order[..|order|] == order;
  }

  class TaskRows {
    var rows: map<string, Row>
    var step: nat

    ghost function View(): State
      reads this
    {
      State(rows, step)
    }

    constructor (rows: map<string, Row>, step: nat)
      ensures View() == State(rows, step)
    {
      this.rows, this.step := rows, step;
    }

    method UpdateBlock(w: Write) returns (stored: bool)
      modifies this
      ensures View() == AfterUpdate(old(View()), w)
      ensures stored <==> WriteCommits(old(View()), w)
    {
      var drawn := Revision(step, w.id);
      step := step + 1;
      if w.id !in rows || rows[w.id].deleted {
        return false;
      }
      var existing := rows[w.id].props;
      var mutation := GivenMutation(w.mutation);
      if w.intent != NoIntent && w.base.Base? {
        var sameMutation := SameMutation(existing, mutation, w.intent == Complete);
        if !sameMutation && w.base.revision != existing.revision {
          return false;
        }
      }
      var props := existing;
      if w.bag.Some? {
        props := ApplyCompletionIntent(existing, w.bag.value, w.intent, w.now, IsTask(rows[w.id]), mutation, drawn);
      }
      if w.refused {
        return false;
      }
      var parentId := if w.parentId.Some? then w.parentId.value else rows[w.id].parentId;
      var date := if w.date.Some? then w.date.value else rows[w.id].date;
      rows := rows[w.id := rows[w.id].(props := props, parentId := parentId, date := date)];
      return true;
    }

    /** Which rows a completion writes: the target, and with its steps what the queue collects. */
    method SelectRows(q: Request, order: seq<string>) returns (written: seq<string>)
      requires q.id in rows
      requires forall id :: id in order <==> id in Pool(rows, rows[q.id].date)
      requires forall j, k :: 0 <= j < k < |order| ==> order[j] != order[k]
      ensures forall id :: id in written <==> id in Writes(rows, q)
      ensures forall j, k :: 0 <= j < k < |written| ==> written[j] != written[k]
      ensures forall k :: 0 <= k < |written| ==> written[k] in rows
      ensures written != [] && written[0] == q.id
    {
      written := [q.id];
      if q.completed && q.includeDescendants {
        ghost var pool := Pool(rows, rows[q.id].date);
        assert forall k :: 0 <= k < |order| ==> order[k] in pool;
        var ids := CollectCompletionSubtreeIds(LinksOf(rows), order, q.id);
        assert IdSet(order) == pool;
        written := RowsToWrite(order, ids, q.id);
        forall id ensures id in written <==> id in Writes(rows, q) {
          StartIsReached(LinksOf(rows), pool, q.id);
          if id in Writes(rows, q) {
            ReachedIsWalkable(rows, q, id);
          }
        }
      }
      assert forall k :: 0 <= k < |written| ==> written[k] in Writes(rows, q);
    }

    /** Sets the rows one by one. */
    method WriteRows(q: Request, written: seq<string>, drawnIn: nat)
      requires forall j, k :: 0 <= j < k < |written| ==> written[j] != written[k]
      requires forall k :: 0 <= k < |written| ==> written[k] in rows
      modifies this`rows
      ensures rows == SetAll(old(rows), written, q, drawnIn)
    {
      ghost var before := rows;
      for n := 0 to |written|
        invariant rows == SetAll(before, written[..n], q, drawnIn)
      {
        var id := written[n];
        assert written[..n + 1] == written[..n] + [id];
        rows := rows[id := Set(rows[id], q, Revision(drawnIn, id))];
      }
      assert written[..|written|] == written;
    }

    /** Finds the row that a reference means; `listed` is the answer of the query by local id. */
    method LookUp(ref: string, day: Option<int>, listed: seq<string>) returns (target: Target)
      requires forall id :: id in listed <==> id in Named(rows, ref, day)
      requires forall j, k :: 0 <= j < k < |listed| ==> listed[j] != listed[k]
      ensures target == FindTarget(rows, ref, day)
    {
      if ref in rows && !rows[ref].deleted {
        return Found(ref);
      }
      ListedTarget(rows, ref, day, listed);
      return if |listed| > 1 then Ambiguous else if |listed| == 1 then Found(listed[0]) else Missing;
    }

    /** Completes or reopens the task that the reference means; `order` is the order in which the rows
        of its day were read. */
    method SetTaskCompletion(ref: string, q: Request, listed: seq<string>, order: seq<string>) returns (outcome: Outcome)
      requires forall id :: id in listed <==> id in Named(rows, ref, q.taskDate)
      requires forall j, k :: 0 <= j < k < |listed| ==> listed[j] != listed[k]
      requires var target := FindTarget(rows, ref, q.taskDate);
               target.Found? ==> forall id :: id in order <==> id in Pool(rows, rows[target.id].date)
      requires forall j, k :: 0 <= j < k < |order| ==> order[j] != order[k]
      modifies this
      ensures var target := FindTarget(old(rows), ref, q.taskDate);
              if target.Found? then
                && View() == AfterCompletion(old(View()), q.(id := target.id))
                && (outcome == Stored <==> Accepts(old(View()), q.(id := target.id)))
                && outcome != Legacy
              else
                && View() == State(old(rows), old(step) + 1)
                && outcome == if target.Missing? && q.taskDate.Some? then Legacy else Refused
    {
      var target := LookUp(ref, q.taskDate, listed);
      if !target.Found? {
        step := step + 1;
        return if target.Missing? && q.taskDate.Some? then Legacy else Refused;
      }
      outcome := CompleteRow(q.(id := target.id), order);
    }

    /** The rest of the transaction, once the row is known and locked. */
    method CompleteRow(q: Request, order: seq<string>) returns (outcome: Outcome)
      requires q.id in rows && !rows[q.id].deleted
      requires forall id :: id in order <==> id in Pool(rows, rows[q.id].date)
      requires forall j, k :: 0 <= j < k < |order| ==> order[j] != order[k]
      modifies this
      ensures View() == AfterCompletion(old(View()), q)
      ensures outcome == Stored <==> Accepts(old(View()), q)
      ensures outcome != Legacy
    {
      var drawnIn := step;
      step := step + 1;
      if !IsTask(rows[q.id]) || q.refusedBefore {
        return Refused;
      }
      var current := rows[q.id].props;
      var sameMutation := current.mutation == Some(Given(q.mutation)) && IsCompleted(current) == q.completed;
      if !sameMutation && q.expected != current.revision {
        return Refused;
      }
      if sameMutation {
        return Duplicate;
      }
      if q.refusedAfter {
        return Refused;
      }
      ghost var before := rows;
      var written := SelectRows(q, order);
      WriteRows(q, written, drawnIn);
      assert forall id :: id in before ==> (id in written <==> id in Writes(before, q));
      return Stored;
    }
  }
}
