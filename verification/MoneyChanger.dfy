/** Turning points into bank money (budget-store.js, convertPointsToBank) as a protocol of
    interleaved transactions on one workspace, together with claims and period rollovers.

    Tables hold committed rows only.  A conversion reads the committed table before it holds any
    lock, then locks the account row, and its own writes stay private until it commits.  Claims
    and rollovers need the same account lock, so each of them is one step taken while the lock is
    free.  A run is any sequence of steps; a step that is not possible changes nothing. */
module MoneyChanger {
  import opened Options

  datatype Conversion = Conversion(key: string, points: int, cents: int)
  datatype Entry = Entry(key: string, delta: int)
  datatype Stamped = Stamped(period: string, cents: int)

  /** The account row, and the rows of the tables in insertion order. */
  datatype Tables = Tables(points: int, bank: int, conversions: seq<Conversion>, ledger: seq<Entry>,
                           investments: seq<Stamped>, carryovers: seq<Stamped>, claims: seq<int>)

  /** How far a conversion has come. */
  datatype Phase =
    | Begun
    | PreChecked
    | Locked
    | Funded(cents: int)
    | LedgerWritten(cents: int)
    | AccountWritten(cents: int)
    | Recorded(cents: int)
    | Converted
    | Duplicate(found: Option<Conversion>)
    | RolledBack

  datatype Conversation = Conversation(key: string, points: int, phase: Phase)

  datatype State = State(tables: Tables, lock: Option<nat>, clients: map<nat, Conversation>)

  datatype Step =
    | Begin(client: nat, key: string, points: int)
    | PreCheck(client: nat)
    | LockAccount(client: nat)
    | CheckBalance(client: nat, rate: nat)
    | InsertLedger(client: nat)
    | UpdateAccount(client: nat)
    | InsertConversion(client: nat)
    | Commit(client: nat)
    | Crash(client: nat)
    | Claim(price: int)
    | Rollover(closing: string, leftover: nat, carry: bool)

  // ----- Tables -----

  predicate HasConversion(t: Tables, key: string) {
    exists k :: 0 <= k < |t.conversions| && t.conversions[k].key == key
  }

  predicate HasEntry(t: Tables, key: string) {
    exists k :: 0 <= k < |t.ledger| && t.ledger[k].key == key
  }

  predicate HasPeriod(rows: seq<Stamped>, period: string) {
    exists k :: 0 <= k < |rows| && rows[k].period == period
  }

  function Find(rows: seq<Conversion>, key: string): (r: Option<Conversion>)
    ensures r.Some? ==> r.value in rows && r.value.key == key
    ensures r.None? ==> forall c :: c in rows ==> c.key != key
  {
    if rows == [] then None else if rows[0].key == key then Some(rows[0]) else Find(rows[1..], key)
  }

  function CarryKey(period: string): string {
    "carryover:" + period
  }

  // ----- Steps -----

  predicate HoldsLock(phase: Phase) {
    phase.Locked? || phase.Funded? || phase.LedgerWritten? || phase.AccountWritten? || phase.Recorded?
  }

  function Floor0(x: int): int {
    if x < 0 then 0 else x
  }

  /** What a committed conversion leaves behind. */
  function WithConversion(t: Tables, key: string, points: int, cents: int): Tables {
    t.(points := t.points - points, bank := t.bank + cents,
       ledger := t.ledger + [Entry(key, -points)],
       conversions := t.conversions + [Conversion(key, points, cents)])
  }

  function ClaimTables(t: Tables, price: int): Tables {
    if price < 0 || t.bank < price then t
    else t.(bank := Floor0(t.bank - price), claims := t.claims + [price])
  }

  function Sweep(t: Tables, leftover: nat): int {
    if leftover < t.bank then leftover else t.bank
  }

  function RolloverTables(t: Tables, closing: string, leftover: nat, carry: bool): Tables {
    var sweep := Sweep(t, leftover);
    if sweep <= 0 then t
    else if !carry then
      if HasPeriod(t.investments, closing) then t
      else t.(investments := t.investments + [Stamped(closing, sweep)], bank := Floor0(t.bank - sweep))
    else
      if HasPeriod(t.carryovers, closing) then t
      else
        t.(carryovers := t.carryovers + [Stamped(closing, sweep)],
           conversions := if HasConversion(t, CarryKey(closing)) then t.conversions
                          else t.conversions + [Conversion(CarryKey(closing), 0, sweep)])
  }

  /** Where a client goes from its phase by a step of its own that commits nothing; the phase it
      is in already when the step is not possible. */
  function NextPhase(t: Tables, lockIsFree: bool, me: Conversation, step: Step): Phase {
    match me.phase
    case Begun =>
      if step.PreCheck? then
        if HasConversion(t, me.key) then Duplicate(Find(t.conversions, me.key)) else PreChecked
      else if step.Crash? then RolledBack else me.phase
    case PreChecked =>
      if step.LockAccount? && lockIsFree then Locked else if step.Crash? then RolledBack else me.phase
    case Locked =>
      if step.CheckBalance? && step.rate >= 1 then
        if t.points < me.points then RolledBack else Funded(me.points * step.rate)
      else if step.Crash? then RolledBack else me.phase
    case Funded(cents) =>
      if step.InsertLedger? then
        if HasEntry(t, me.key) then Duplicate(Find(t.conversions, me.key)) else LedgerWritten(cents)
      else if step.Crash? then RolledBack else me.phase
    case LedgerWritten(cents) =>
      if step.UpdateAccount? then AccountWritten(cents) else if step.Crash? then RolledBack else me.phase
    case AccountWritten(cents) =>
      if step.InsertConversion? then
        if HasConversion(t, me.key) then RolledBack else Recorded(cents)
      else if step.Crash? then RolledBack else me.phase
    case Recorded(_) => if step.Crash? then RolledBack else me.phase
    case _ => me.phase
  }

  /** Puts a client into a phase; the lock is with it exactly in the phases that hold the lock. */
  function Enter(s: State, client: nat, phase: Phase): State
    requires client in s.clients
  {
    s.(clients := s.clients[client := s.clients[client].(phase := phase)],
       lock := if HoldsLock(phase) then Some(client) else if s.lock == Some(client) then None else s.lock)
  }

  function Apply(s: State, step: Step): State {
    match step
    case Begin(c, key, points) =>
      if c in s.clients || key == "" || points < 1 || points > 1000000 then s
      else s.(clients := s.clients[c := Conversation(key, points, Begun)])
    case Commit(c) =>
      if c !in s.clients || !s.clients[c].phase.Recorded? then s
      else
        var me := s.clients[c];
        Enter(s, c, Converted).(tables := WithConversion(s.tables, me.key, me.points, me.phase.cents))
    case Claim(price) =>
      if s.lock.Some? then s else s.(tables := ClaimTables(s.tables, price))
    case Rollover(closing, leftover, carry) =>
      if s.lock.Some? then s else s.(tables := RolloverTables(s.tables, closing, leftover, carry))
    case _ =>
      if step.client !in s.clients then s
      else Enter(s, step.client, NextPhase(s.tables, s.lock.None?, s.clients[step.client], step))
  }

  function Run(s: State, steps: seq<Step>): State
    decreases |steps|
  {
    if steps == [] then s else Run(Apply(s, steps[0]), steps[1..])
  }

  function Start(points: int, bank: int): State {
    State(Tables(points, bank, [], [], [], [], []), None, map[])
  }

  // ----- Sums -----

  function Deltas(rows: seq<Entry>): int {
    if rows == [] then 0 else Deltas(rows[..|rows| - 1]) + rows[|rows| - 1].delta
  }

  /** Cents credited by conversions of points; a carried-over row credits nothing. */
  function Credited(rows: seq<Conversion>): int {
    if rows == [] then 0
    else Credited(rows[..|rows| - 1]) + (if rows[|rows| - 1].points > 0 then rows[|rows| - 1].cents else 0)
  }

  function PointsConverted(rows: seq<Conversion>): int {
    if rows == [] then 0 else PointsConverted(rows[..|rows| - 1]) + rows[|rows| - 1].points
  }

  function Total(rows: seq<Stamped>): int {
    if rows == [] then 0 else Total(rows[..|rows| - 1]) + rows[|rows| - 1].cents
  }

  function Sum(xs: seq<int>): int {
    if xs == [] then 0 else Sum(xs[..|xs| - 1]) + xs[|xs| - 1]
  }

  /** The conversions of points, without the carried-over rows. */
  function Paid(rows: seq<Conversion>): seq<Conversion> {
    if rows == [] then []
    else Paid(rows[..|rows| - 1]) + (if rows[|rows| - 1].points > 0 then [rows[|rows| - 1]] else [])
  }

  // ----- The invariant -----

  /** The books balance against the balances the run began with. */
  ghost predicate BooksBalance(t: Tables, points0: int, bank0: int) {
    && t.points == points0 - PointsConverted(t.conversions)
    && t.points == points0 + Deltas(t.ledger)
    && t.bank == bank0 + Credited(t.conversions) - Sum(t.claims) - Total(t.investments)
    && t.points >= 0 && t.bank >= 0
  }

  ghost predicate DistinctConversions(rows: seq<Conversion>) {
    forall i, j :: 0 <= i < j < |rows| ==> rows[i].key != rows[j].key
  }

  ghost predicate DistinctEntries(rows: seq<Entry>) {
    forall i, j :: 0 <= i < j < |rows| ==> rows[i].key != rows[j].key
  }

  ghost predicate DistinctPeriods(rows: seq<Stamped>) {
    forall i, j :: 0 <= i < j < |rows| ==> rows[i].period != rows[j].period
  }

  ghost predicate KeysAreUnique(t: Tables) {
    && DistinctConversions(t.conversions) && DistinctEntries(t.ledger)
    && DistinctPeriods(t.investments) && DistinctPeriods(t.carryovers)
  }

  /** Ledger entries and conversions of points are the same list. */
  ghost predicate Matches(conversions: seq<Conversion>, ledger: seq<Entry>) {
    && |Paid(conversions)| == |ledger|
    && (forall k :: 0 <= k < |ledger| ==> ledger[k] == Entry(Paid(conversions)[k].key, -Paid(conversions)[k].points))
    && (forall k :: 0 <= k < |conversions| ==> conversions[k].points >= 0)
  }

  ghost predicate LedgerMatches(t: Tables) {
    Matches(t.conversions, t.ledger)
  }

  /** What a client may rely on in its phase. */
  ghost predicate Relies(t: Tables, me: Conversation) {
    && me.points >= 1
    && match me.phase
       case Funded(cents) => t.points >= me.points && cents >= 0
       case LedgerWritten(cents) => t.points >= me.points && cents >= 0 && !HasEntry(t, me.key)
       case AccountWritten(cents) => t.points >= me.points && cents >= 0 && !HasEntry(t, me.key)
       case Recorded(cents) => t.points >= me.points && cents >= 0 && !HasEntry(t, me.key) && !HasConversion(t, me.key)
       case Converted => HasEntry(t, me.key)
       case Duplicate(found) => found.Some? && found.value in t.conversions && found.value.key == me.key
       case _ => true
  }

  ghost predicate PhaseIsTrue(s: State, client: nat)
    requires client in s.clients
  {
    && Relies(s.tables, s.clients[client])
    && (HoldsLock(s.clients[client].phase) <==> s.lock == Some(client))
  }

  ghost predicate OneWinnerPerKey(s: State) {
    forall c, d :: c in s.clients && d in s.clients && c != d
                   && s.clients[c].phase.Converted? && s.clients[d].phase.Converted?
                   ==> s.clients[c].key != s.clients[d].key
  }

  ghost predicate Sound(s: State, points0: int, bank0: int) {
    && BooksBalance(s.tables, points0, bank0)
    && KeysAreUnique(s.tables)
    && LedgerMatches(s.tables)
    && (s.lock.Some? ==> s.lock.value in s.clients)
    && (forall c :: c in s.clients ==> PhaseIsTrue(s, c))
    && OneWinnerPerKey(s)
  }

  // ----- Committed writes keep the tables sound -----

  lemma {:induction false} PaidIsFromTable(rows: seq<Conversion>, k: nat)
    requires k < |Paid(rows)|
    ensures Paid(rows)[k] in rows
  {
    var front := Paid(rows[..|rows| - 1]);
    if k < |front| {
      PaidIsFromTable(rows[..|rows| - 1], k);
    }
  }

  /** An entry in the ledger comes with a conversion of the same key. */
  lemma EntryHasConversion(t: Tables, key: string)
    requires LedgerMatches(t) && HasEntry(t, key)
    ensures HasConversion(t, key)
  {
    var k :| 0 <= k < |t.ledger| && t.ledger[k].key == key;
    PaidIsFromTable(t.conversions, k);
  }

  lemma ConversionSums(rows: seq<Conversion>, c: Conversion)
    ensures PointsConverted(rows + [c]) == PointsConverted(rows) + c.points
    ensures Credited(rows + [c]) == Credited(rows) + (if c.points > 0 then c.cents else 0)
    ensures Paid(rows + [c]) == Paid(rows) + (if c.points > 0 then [c] else [])
  {
    assert (rows + [c])[..|rows|] == rows;
  }

  lemma ConvertedKeepsTables(t: Tables, key: string, points: int, cents: int, points0: int, bank0: int)
    requires BooksBalance(t, points0, bank0) && KeysAreUnique(t) && LedgerMatches(t)
    requires 1 <= points <= t.points && cents >= 0 && !HasEntry(t, key) && !HasConversion(t, key)
    ensures var after := WithConversion(t, key, points, cents);
            BooksBalance(after, points0, bank0) && KeysAreUnique(after) && LedgerMatches(after)
  {
    ConversionSums(t.conversions, Conversion(key, points, cents));
    assert (t.ledger + [Entry(key, -points)])[..|t.ledger|] == t.ledger;
  }

  lemma ClaimKeepsTables(t: Tables, price: int, points0: int, bank0: int)
    requires BooksBalance(t, points0, bank0) && KeysAreUnique(t) && LedgerMatches(t)
    ensures var after := ClaimTables(t, price);
            BooksBalance(after, points0, bank0) && KeysAreUnique(after) && LedgerMatches(after)
  {
    assert (t.claims + [price])[..|t.claims|] == t.claims;
  }

  lemma InvestKeepsTables(t: Tables, closing: string, leftover: nat, points0: int, bank0: int)
    requires BooksBalance(t, points0, bank0) && KeysAreUnique(t) && LedgerMatches(t)
    ensures var after := RolloverTables(t, closing, leftover, false);
            BooksBalance(after, points0, bank0) && KeysAreUnique(after) && LedgerMatches(after)
  {
    assert (t.investments + [Stamped(closing, Sweep(t, leftover))])[..|t.investments|] == t.investments;
  }

  /** A row without points changes no sum but its own. */
  lemma SeededKeepsTables(t: Tables, c: Conversion, points0: int, bank0: int)
    requires BooksBalance(t, points0, bank0) && KeysAreUnique(t) && LedgerMatches(t)
    requires c.points == 0 && !HasConversion(t, c.key)
    ensures var after := t.(conversions := t.conversions + [c]);
            BooksBalance(after, points0, bank0) && KeysAreUnique(after) && LedgerMatches(after)
  {
    ConversionSums(t.conversions, c);
  }

  lemma CarriedKeepsTables(t: Tables, row: Stamped, points0: int, bank0: int)
    requires BooksBalance(t, points0, bank0) && KeysAreUnique(t) && LedgerMatches(t) && !HasPeriod(t.carryovers, row.period)
    ensures var after := t.(carryovers := t.carryovers + [row]);
            BooksBalance(after, points0, bank0) && KeysAreUnique(after) && LedgerMatches(after)
  {
  }

  lemma CarryKeepsTables(t: Tables, closing: string, leftover: nat, points0: int, bank0: int)
    requires BooksBalance(t, points0, bank0) && KeysAreUnique(t) && LedgerMatches(t)
    ensures var after := RolloverTables(t, closing, leftover, true);
            BooksBalance(after, points0, bank0) && KeysAreUnique(after) && LedgerMatches(after)
  {
    var sweep := Sweep(t, leftover);
    if sweep > 0 && !HasPeriod(t.carryovers, closing) {
      var row, c := Stamped(closing, sweep), Conversion(CarryKey(closing), 0, sweep);
      CarriedKeepsTables(t, row, points0, bank0);
      if !HasConversion(t, CarryKey(closing)) {
        var carried := t.(carryovers := t.carryovers + [row]);
        SeededKeepsTables(carried, c, points0, bank0);
      }
    }
  }

  lemma RolloverKeepsTables(t: Tables, closing: string, leftover: nat, carry: bool, points0: int, bank0: int)
    requires BooksBalance(t, points0, bank0) && KeysAreUnique(t) && LedgerMatches(t)
    ensures var after := RolloverTables(t, closing, leftover, carry);
            BooksBalance(after, points0, bank0) && KeysAreUnique(after) && LedgerMatches(after)
  {
    if carry {
      CarryKeepsTables(t, closing, leftover, points0, bank0);
    } else {
      InvestKeepsTables(t, closing, leftover, points0, bank0);
    }
  }

  // ----- Steps keep every client's reliance true -----

  /** The next phase is one the client may rely on; it takes the lock only when the lock is free,
      and it never reports a conversion. */
  lemma NextPhaseIsReliable(t: Tables, lockIsFree: bool, me: Conversation, step: Step)
    requires LedgerMatches(t) && Relies(t, me)
    ensures var next := NextPhase(t, lockIsFree, me, step);
            && Relies(t, me.(phase := next))
            && (HoldsLock(next) ==> HoldsLock(me.phase) || lockIsFree)
            && (next.Converted? <==> me.phase.Converted?)
  {
    if me.phase.Funded? && HasEntry(t, me.key) {
      EntryHasConversion(t, me.key);
    }
    if me.phase.Locked? && step.CheckBalance? {
      assert me.points * step.rate >= 0;
    }
  }

  /** A client that enters a reliable phase leaves everything else sound. */
  lemma EnterIsSound(s: State, client: nat, phase: Phase, points0: int, bank0: int)
    requires Sound(s, points0, bank0) && client in s.clients
    requires Relies(s.tables, s.clients[client].(phase := phase))
    requires HoldsLock(phase) ==> s.lock == Some(client) || s.lock.None?
    requires phase.Converted? <==> s.clients[client].phase.Converted?
    ensures Sound(Enter(s, client, phase), points0, bank0)
  {
    var after := Enter(s, client, phase);
    forall c | c in after.clients ensures PhaseIsTrue(after, c) {
      assert PhaseIsTrue(s, c);
    }
  }

  lemma CommitIsSound(s: State, client: nat, points0: int, bank0: int)
    requires Sound(s, points0, bank0) && client in s.clients && s.clients[client].phase.Recorded?
    ensures Sound(Apply(s, Commit(client)), points0, bank0)
  {
    var after := Apply(s, Commit(client));
    var me := s.clients[client];
    assert PhaseIsTrue(s, client);
    ConvertedKeepsTables(s.tables, me.key, me.points, me.phase.cents, points0, bank0);
    assert after.tables.ledger[|s.tables.ledger|].key == me.key;
    forall c | c in after.clients ensures PhaseIsTrue(after, c) {
      assert PhaseIsTrue(s, c);
      if s.clients[c].phase.Converted? {
        var k :| 0 <= k < |s.tables.ledger| && s.tables.ledger[k].key == s.clients[c].key;
        assert after.tables.ledger[k].key == s.clients[c].key;
      }
    }
  }

  lemma OutsideStepIsSound(s: State, tables: Tables, points0: int, bank0: int)
    requires Sound(s, points0, bank0) && s.lock.None?
    requires BooksBalance(tables, points0, bank0) && KeysAreUnique(tables) && LedgerMatches(tables)
    requires s.tables.ledger <= tables.ledger && s.tables.conversions <= tables.conversions
    ensures Sound(s.(tables := tables), points0, bank0)
  {
    var after := s.(tables := tables);
    forall c | c in after.clients ensures PhaseIsTrue(after, c) {
      assert PhaseIsTrue(s, c);
      if s.clients[c].phase.Converted? {
        var k :| 0 <= k < |s.tables.ledger| && s.tables.ledger[k].key == s.clients[c].key;
        assert tables.ledger[k].key == s.clients[c].key;
      }
    }
  }

  lemma BeginIsSound(s: State, client: nat, key: string, points: int, points0: int, bank0: int)
    requires Sound(s, points0, bank0)
    ensures Sound(Apply(s, Begin(client, key, points)), points0, bank0)
  {
    var after := Apply(s, Begin(client, key, points));
    forall c | c in after.clients ensures PhaseIsTrue(after, c) {
      if c in s.clients {
        assert PhaseIsTrue(s, c);
      }
    }
  }

  lemma ClientStepIsSound(s: State, step: Step, points0: int, bank0: int)
    requires Sound(s, points0, bank0)
    requires !step.Begin? && !step.Commit? && !step.Claim? && !step.Rollover? && step.client in s.clients
    ensures Sound(Apply(s, step), points0, bank0)
  {
    var me := s.clients[step.client];
    assert PhaseIsTrue(s, step.client);
    NextPhaseIsReliable(s.tables, s.lock.None?, me, step);
    EnterIsSound(s, step.client, NextPhase(s.tables, s.lock.None?, me, step), points0, bank0);
  }

  lemma ClaimStepIsSound(s: State, price: int, points0: int, bank0: int)
    requires Sound(s, points0, bank0) && s.lock.None?
    ensures Sound(s.(tables := ClaimTables(s.tables, price)), points0, bank0)
  {
    ClaimKeepsTables(s.tables, price, points0, bank0);
    OutsideStepIsSound(s, ClaimTables(s.tables, price), points0, bank0);
  }

  lemma RolloverStepIsSound(s: State, closing: string, leftover: nat, carry: bool, points0: int, bank0: int)
    requires Sound(s, points0, bank0) && s.lock.None?
    ensures Sound(s.(tables := RolloverTables(s.tables, closing, leftover, carry)), points0, bank0)
  {
    RolloverKeepsTables(s.tables, closing, leftover, carry, points0, bank0);
    OutsideStepIsSound(s, RolloverTables(s.tables, closing, leftover, carry), points0, bank0);
  }

  lemma StepIsSound(s: State, step: Step, points0: int, bank0: int)
    requires Sound(s, points0, bank0)
    ensures Sound(Apply(s, step), points0, bank0)
  {
    if Apply(s, step) != s {
      if step.Begin? {
        BeginIsSound(s, step.client, step.key, step.points, points0, bank0);
      } else if step.Commit? {
        CommitIsSound(s, step.client, points0, bank0);
      } else if step.Claim? {
        ClaimStepIsSound(s, step.price, points0, bank0);
      } else if step.Rollover? {
        RolloverStepIsSound(s, step.closing, step.leftover, step.carry, points0, bank0);
      } else {
        ClientStepIsSound(s, step, points0, bank0);
      }
    }
  }

  /** Every interleaving of conversions, claims and rollovers keeps the books: points equal the
      initial points minus those converted, the bank equals the initial bank plus what was
      credited minus what was claimed and invested, neither goes below zero, every source key has
      at most one conversion, and at most one of the clients sending a key is told it converted. */
  lemma {:induction false} EveryInterleavingIsSound(s: State, steps: seq<Step>, points0: int, bank0: int)
    requires Sound(s, points0, bank0)
    ensures Sound(Run(s, steps), points0, bank0)
    decreases |steps|
  {
    if steps != [] {
      StepIsSound(s, steps[0], points0, bank0);
      EveryInterleavingIsSound(Apply(s, steps[0]), steps[1..], points0, bank0);
    }
  }

  lemma StartIsSound(points: nat, bank: nat)
    ensures Sound(Start(points, bank), points, bank)
  {
  }

  /** What that means for an account that starts with empty tables: wherever the run stops, points and
      bank are the first amounts plus and minus what the rows record, no key is converted or entered
      twice, no two clients are told that they converted the same key, and whoever is told of a
      duplicate is shown the stored conversion. */
  lemma EveryRunFromStartKeepsTheBooks(points: nat, bank: nat, steps: seq<Step>, a: nat, b: nat)
    ensures var s := Run(Start(points, bank), steps);
            var t := s.tables;
            && t.points == points - PointsConverted(t.conversions) == points + Deltas(t.ledger)
            && t.bank == bank + Credited(t.conversions) - Sum(t.claims) - Total(t.investments)
            && t.points >= 0 && t.bank >= 0
            && DistinctConversions(t.conversions) && DistinctEntries(t.ledger)
            && (a in s.clients && b in s.clients && a != b && s.clients[a].phase.Converted? && s.clients[b].phase.Converted?
                ==> s.clients[a].key != s.clients[b].key)
            && (a in s.clients && s.clients[a].phase.Duplicate? ==>
                  s.clients[a].phase.found.Some? && s.clients[a].phase.found.value in t.conversions)
  {
    StartIsSound(points, bank);
    EveryInterleavingIsSound(Start(points, bank), steps, points, bank);
    var s := Run(Start(points, bank), steps);
    assert a in s.clients ==> PhaseIsTrue(s, a);
  }

  // ----- A retried key, to the end of the protocol -----

  lemma ClientsKeepTheirKeys(s: State, step: Step, client: nat)
    requires client in s.clients
    ensures var after := Apply(s, step);
            && client in after.clients && after.clients[client].key == s.clients[client].key
            && (s.clients[client].phase.Converted? ==> after.clients[client].phase.Converted?)
  {
  }

  /** Once a key has been converted, a client that sends it again can only end as a duplicate
      that is shown the stored conversion, or roll back; it never converts. */
  lemma {:induction false} RetryNeverConvertsAgain(s: State, steps: seq<Step>, points0: int, bank0: int,
                                                   winner: nat, retry: nat)
    requires Sound(s, points0, bank0)
    requires winner in s.clients && s.clients[winner].phase.Converted?
    requires retry in s.clients && retry != winner && s.clients[retry].key == s.clients[winner].key
    ensures var after := Run(s, steps);
            && retry in after.clients
            && !after.clients[retry].phase.Converted?
            && (after.clients[retry].phase.Duplicate? ==>
                  after.clients[retry].phase.found.Some? && after.clients[retry].phase.found.value in after.tables.conversions)
    decreases |steps|
  {
    if steps != [] {
      StepIsSound(s, steps[0], points0, bank0);
      ClientsKeepTheirKeys(s, steps[0], winner);
      ClientsKeepTheirKeys(s, steps[0], retry);
      RetryNeverConvertsAgain(Apply(s, steps[0]), steps[1..], points0, bank0, winner, retry);
    } else {
      assert PhaseIsTrue(s, retry);
    }
  }

  // ----- Carried-over money and client keys share one table -----

  /** Carrying over seeds the new period exactly when no conversion has taken its key. */
  lemma CarryIsSeededUnlessKeyIsTaken(t: Tables, closing: string, leftover: nat)
    requires Sweep(t, leftover) > 0 && !HasPeriod(t.carryovers, closing)
    ensures var after := RolloverTables(t, closing, leftover, true);
            && HasPeriod(after.carryovers, closing)
            && ((after.conversions == t.conversions + [Conversion(CarryKey(closing), 0, Sweep(t, leftover))])
                <==> !HasConversion(t, CarryKey(closing)))
  {
    var after := RolloverTables(t, closing, leftover, true);
    assert after.carryovers[|t.carryovers|].period == closing;
    assert |t.conversions + [Conversion(CarryKey(closing), 0, Sweep(t, leftover))]| == |t.conversions| + 1;
  }

  /** A client that chose the key of a later carry-over makes that carry-over vanish: the period is
      stamped as carried, but the waterline of the next period is not seeded. */
  lemma ClientKeyCanSwallowCarryOver(period: string)
    ensures var t := RolloverTables(Run(Start(10, 100), ConversionSteps(0, CarryKey(period), 5, 1)).tables, period, 40, true);
            && HasPeriod(t.carryovers, period)
            && t.conversions == [Conversion(CarryKey(period), 5, 5)]
  {
    var key := CarryKey(period);
    ConversionAlone(Start(10, 100), 0, key, 5, 1);
    var t := WithConversion(Start(10, 100).tables, key, 5, 5);
    assert t.conversions == [Conversion(key, 5, 5)] && t.conversions[0].key == key;
    CarryIsSeededUnlessKeyIsTaken(t, period, 40);
  }

  function ConversionSteps(client: nat, key: string, points: int, rate: nat): seq<Step> {
    [Begin(client, key, points), PreCheck(client), LockAccount(client), CheckBalance(client, rate),
     InsertLedger(client), UpdateAccount(client), InsertConversion(client), Commit(client)]
  }

  lemma RunOne(s: State, steps: seq<Step>)
    requires steps != []
    ensures Run(s, steps) == Run(Apply(s, steps[0]), steps[1..])
  {
  }

  /** A conversion that nobody interrupts commits: the points leave the account, the bank gains them
      at the quoted rate, one ledger entry and one conversion say so, and nothing else changes. */
  lemma ConversionAlone(s: State, client: nat, key: string, points: int, rate: nat)
    requires client !in s.clients && s.lock.None? && key != "" && rate >= 1
    requires 1 <= points <= 1000000 && points <= s.tables.points
    requires !HasConversion(s.tables, key) && !HasEntry(s.tables, key)
    ensures var after := Run(s, ConversionSteps(client, key, points, rate));
            && after.tables == WithConversion(s.tables, key, points, points * rate)
            && after.tables.points == s.tables.points - points && after.tables.bank == s.tables.bank + points * rate
            && after.tables.ledger == s.tables.ledger + [Entry(key, -points)]
            && after.tables.conversions == s.tables.conversions + [Conversion(key, points, points * rate)]
            && after.tables.investments == s.tables.investments && after.tables.carryovers == s.tables.carryovers
            && after.tables.claims == s.tables.claims
            && after.lock.None? && client in after.clients && after.clients[client].phase.Converted?
  {
    var steps := ConversionSteps(client, key, points, rate);
    var s1 := Apply(s, steps[0]);
    var s2 := Apply(s1, steps[1]);
    var s3 := Apply(s2, steps[2]);
    var s4 := Apply(s3, steps[3]);
    var s5 := Apply(s4, steps[4]);
    var s6 := Apply(s5, steps[5]);
    var s7 := Apply(s6, steps[6]);
    var s8 := Apply(s7, steps[7]);
    assert s7.clients[client] == Conversation(key, points, Recorded(points * rate)) && s7.tables == s.tables;
    RunOne(s, steps);
    RunOne(s1, steps[1..]);
    RunOne(s2, steps[1..][1..]);
    RunOne(s3, steps[1..][1..][1..]);
    RunOne(s4, steps[1..][1..][1..][1..]);
    RunOne(s5, steps[1..][1..][1..][1..][1..]);
    RunOne(s6, steps[1..][1..][1..][1..][1..][1..]);
    RunOne(s7, steps[1..][1..][1..][1..][1..][1..][1..]);
    assert Run(s8, []) == s8;
  }

  /** Sent alone, a key that was converted before is answered with the stored conversion, and more
      points than the account holds are refused; neither changes a table. */
  lemma RefusedAlone(s: State, client: nat, key: string, points: int, rate: nat)
    requires client !in s.clients && s.lock.None? && key != "" && rate >= 1 && 1 <= points <= 1000000
    requires HasConversion(s.tables, key) || points > s.tables.points
    ensures var after := Run(s, ConversionSteps(client, key, points, rate)[..4]);
            && after.tables == s.tables && after.lock.None? && client in after.clients
            && if HasConversion(s.tables, key)
               then after.clients[client].phase.Duplicate? && IsShown(s.tables, key, after.clients[client].phase.found)
               else after.clients[client].phase == RolledBack
  {
    var steps := ConversionSteps(client, key, points, rate)[..4];
    var s1 := Apply(s, steps[0]);
    var s2 := Apply(s1, steps[1]);
    var s3 := Apply(s2, steps[2]);
    var s4 := Apply(s3, steps[3]);
    RunOne(s, steps);
    RunOne(s1, steps[1..]);
    RunOne(s2, steps[1..][1..]);
    RunOne(s3, steps[1..][1..][1..]);
    assert Run(s4, []) == s4;
  }

  ghost predicate IsShown(t: Tables, key: string, found: Option<Conversion>) {
    found.Some? && found.value in t.conversions && found.value.key == key
  }

  // ----- Amounts -----

  /** The cents are the points at a rate that was quoted. */
  ghost predicate IsQuoted(steps: seq<Step>, points: int, cents: int) {
    exists k :: 0 <= k < |steps| && steps[k].CheckBalance? && steps[k].rate >= 1 && cents == points * steps[k].rate
  }

  /** What a client has in hand was quoted for its points. */
  ghost predicate HandIsQuoted(steps: seq<Step>, me: Conversation) {
    match me.phase
    case Funded(cents) => IsQuoted(steps, me.points, cents)
    case LedgerWritten(cents) => IsQuoted(steps, me.points, cents)
    case AccountWritten(cents) => IsQuoted(steps, me.points, cents)
    case Recorded(cents) => IsQuoted(steps, me.points, cents)
    case _ => true
  }

  ghost predicate AllQuoted(steps: seq<Step>, s: State) {
    && (forall c :: c in s.clients ==> HandIsQuoted(steps, s.clients[c]))
    && (forall k :: 0 <= k < |s.tables.conversions| && s.tables.conversions[k].points > 0 ==>
          IsQuoted(steps, s.tables.conversions[k].points, s.tables.conversions[k].cents))
  }

  lemma QuotesStay(steps: seq<Step>, step: Step, points: int, cents: int)
    requires IsQuoted(steps, points, cents)
    ensures IsQuoted(steps + [step], points, cents)
  {
    var k :| 0 <= k < |steps| && steps[k].CheckBalance? && steps[k].rate >= 1 && cents == points * steps[k].rate;
    assert (steps + [step])[k] == steps[k];
  }

  lemma HandStaysQuoted(steps: seq<Step>, step: Step, me: Conversation)
    requires HandIsQuoted(steps, me)
    ensures HandIsQuoted(steps + [step], me)
  {
    if me.phase.Funded? || me.phase.LedgerWritten? || me.phase.AccountWritten? || me.phase.Recorded? {
      QuotesStay(steps, step, me.points, me.phase.cents);
    }
  }

  lemma NextHandIsQuoted(steps: seq<Step>, t: Tables, lockIsFree: bool, me: Conversation, step: Step)
    requires HandIsQuoted(steps, me)
    ensures HandIsQuoted(steps + [step], me.(phase := NextPhase(t, lockIsFree, me, step)))
  {
    HandStaysQuoted(steps, step, me);
    if me.phase.Locked? && step.CheckBalance? {
      assert (steps + [step])[|steps|] == step;
    }
  }

  lemma TablesStayQuoted(steps: seq<Step>, s: State, step: Step, k: nat)
    requires AllQuoted(steps, s) && k < |Apply(s, step).tables.conversions|
    requires Apply(s, step).tables.conversions[k].points > 0
    ensures var c := Apply(s, step).tables.conversions[k]; IsQuoted(steps + [step], c.points, c.cents)
  {
    var c := Apply(s, step).tables.conversions[k];
    if k < |s.tables.conversions| {
      assert c == s.tables.conversions[k];
      QuotesStay(steps, step, c.points, c.cents);
    } else {
      assert step.Commit? && HandIsQuoted(steps, s.clients[step.client]);
      QuotesStay(steps, step, c.points, c.cents);
    }
  }

  lemma ClientsStayQuoted(steps: seq<Step>, s: State, step: Step, c: nat)
    requires AllQuoted(steps, s) && c in Apply(s, step).clients
    ensures HandIsQuoted(steps + [step], Apply(s, step).clients[c])
  {
    if c in s.clients {
      HandStaysQuoted(steps, step, s.clients[c]);
      NextHandIsQuoted(steps, s.tables, s.lock.None?, s.clients[c], step);
    }
  }

  lemma StepStaysQuoted(steps: seq<Step>, s: State, step: Step)
    requires AllQuoted(steps, s)
    ensures AllQuoted(steps + [step], Apply(s, step))
  {
    forall c | c in Apply(s, step).clients ensures HandIsQuoted(steps + [step], Apply(s, step).clients[c]) {
      ClientsStayQuoted(steps, s, step, c);
    }
    forall k | 0 <= k < |Apply(s, step).tables.conversions| && Apply(s, step).tables.conversions[k].points > 0
      ensures IsQuoted(steps + [step], Apply(s, step).tables.conversions[k].points, Apply(s, step).tables.conversions[k].cents)
    {
      TablesStayQuoted(steps, s, step, k);
    }
  }

  lemma {:induction false} RunStaysQuoted(done: seq<Step>, s: State, steps: seq<Step>)
    requires AllQuoted(done, s)
    ensures AllQuoted(done + steps, Run(s, steps))
    decreases |steps|
  {
    if steps == [] {
      assert done + steps == done;
    } else {
      StepStaysQuoted(done, s, steps[0]);
      RunStaysQuoted(done + [steps[0]], Apply(s, steps[0]), steps[1..]);
      assert done + [steps[0]] + steps[1..] == done + steps;
    }
  }

  /** However a run interleaves, every conversion of points credits the points at a rate that the run
      quoted. */
  lemma EveryConversionIsQuoted(points: int, bank: int, steps: seq<Step>, k: nat)
    requires k < |Run(Start(points, bank), steps).tables.conversions|
    requires Run(Start(points, bank), steps).tables.conversions[k].points > 0
    ensures var c := Run(Start(points, bank), steps).tables.conversions[k];
            exists i :: 0 <= i < |steps| && steps[i].CheckBalance? && steps[i].rate >= 1 && c.cents == c.points * steps[i].rate
  {
    RunStaysQuoted([], Start(points, bank), steps);
    assert [] + steps == steps;
  }

  /** A claim takes its price out of the bank exactly when the bank holds it. */
  lemma ClaimTakesExactly(t: Tables, price: nat)
    ensures var after := ClaimTables(t, price);
            && (price <= t.bank ==> after == t.(bank := t.bank - price, claims := t.claims + [price]))
            && (price > t.bank ==> after == t)
  {
  }

  /** A rollover sweeps what is left over, at most what the bank holds, once a period.  Investing takes
      it out of the bank; carrying leaves the balances alone. */
  lemma RolloverSweepsExactly(t: Tables, closing: string, leftover: nat, carry: bool)
    ensures var after, sweep := RolloverTables(t, closing, leftover, carry), if leftover <= t.bank then leftover else t.bank;
            var stamped := exists r :: r in (if carry then t.carryovers else t.investments) && r.period == closing;
            && after.points == t.points && after.ledger == t.ledger && after.claims == t.claims
            && (sweep <= 0 || stamped ==> after == t)
            && (sweep > 0 && !stamped && !carry ==>
                  && after.bank == t.bank - sweep && after.investments == t.investments + [Stamped(closing, sweep)]
                  && after.carryovers == t.carryovers && after.conversions == t.conversions)
            && (sweep > 0 && !stamped && carry ==>
                  && after.bank == t.bank && after.investments == t.investments
                  && after.carryovers == t.carryovers + [Stamped(closing, sweep)])
  {
    var rows := if carry then t.carryovers else t.investments;
    if HasPeriod(rows, closing) {
      var k :| 0 <= k < |rows| && rows[k].period == closing;
      assert rows[k] in rows;
    }
    if r :| r in rows && r.period == closing {
      var k :| 0 <= k < |rows| && rows[k] == r;
    }
  }
}
