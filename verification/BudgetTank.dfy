/** The operations on the budget tank (budget-store.js and reward-vault-store.js): adding,
    editing, splitting, removing, reordering, claiming, rolling over to a new period, and cloning
    rewards of the vault into the tank.  Amounts are cents. */
module BudgetTank {
  import opened Options
  import opened TankOrder

  const POSITION_STEP := 1000.0
  const MAX_BLOCK_CENTS := 100000000

  /** The rows of one workspace, the next row id, and the spendable reserve. */
  datatype State = State(rows: seq<Row>, nextId: int, bank: int)

  /** A recurring purchase has no limit of uses. */
  ghost predicate RecurringIsUnlimited(rows: seq<Row>) {
    forall k :: 0 <= k < |rows| && rows[k].recurring ==> rows[k].uses.None?
  }

  ghost predicate Sound(s: State) {
    && DistinctIds(s.rows)
    && (forall k :: 0 <= k < |s.rows| ==> s.rows[k].id < s.nextId)
    && GatesAreRight(s.rows)
    && ValuesArePositive(s.rows)
    && RecurringIsUnlimited(s.rows)
    && s.bank >= 0
  }

  // ===== Positions =====

  function Ids(rows: seq<Row>): (ids: seq<int>)
    ensures |ids| == |rows| && forall k :: 0 <= k < |rows| ==> ids[k] == rows[k].id
  {
    seq(|rows|, k requires 0 <= k < |rows| => rows[k].id)
  }

  function IndexOf(ids: seq<int>, id: int): (k: nat)
    ensures k <= |ids|
    ensures k < |ids| <==> id in ids
    ensures k < |ids| ==> ids[k] == id
    ensures forall j :: 0 <= j < k ==> ids[j] != id
  {
    if ids == [] || ids[0] == id then 0 else 1 + IndexOf(ids[1..], id)
  }

  ghost predicate Distinct(ids: seq<int>) {
    forall i, j :: 0 <= i < j < |ids| ==> ids[i] != ids[j]
  }

  /** Where the n-th row of a renumbered tank stands: 1000, 2000, ... */
  function Slot(n: nat): real {
    (n + 1) as real * POSITION_STEP
  }

  /** Gives the listed rows the slots of the list. */
  function Renumbered(rows: seq<Row>, ids: seq<int>): (after: seq<Row>)
    ensures |after| == |rows|
    ensures forall k :: 0 <= k < |rows| ==>
              after[k] == if rows[k].id in ids
                          then rows[k].(position := Some(Slot(IndexOf(ids, rows[k].id))))
                          else rows[k]
  {
    seq(|rows|, k requires 0 <= k < |rows| =>
      if rows[k].id in ids
      then rows[k].(position := Some(Slot(IndexOf(ids, rows[k].id))))
      else rows[k])
  }

  /** The tank of these rows, by id, is exactly this list. */
  ghost predicate TankIs(rows: seq<Row>, ids: seq<int>)
    requires DistinctIds(rows)
  {
    Ids(Tank(rows)) == ids
  }

  /** The list of the rows with these ids. */
  function Pick(rows: seq<Row>, ids: seq<int>): (picked: seq<Row>)
    requires forall k :: 0 <= k < |ids| ==> ids[k] in Ids(rows)
    ensures |picked| == |ids|
    ensures forall k :: 0 <= k < |ids| ==> picked[k] in rows && picked[k].id == ids[k]
  {
    seq(|ids|, k requires 0 <= k < |ids| => rows[IndexOf(Ids(rows), ids[k])])
  }

  lemma RowOfId(rows: seq<Row>, r: Row, q: Row)
    requires DistinctIds(rows) && r in rows && q in rows && r.id == q.id
    ensures r == q
  {
  }

  /** Rows whose tank members are listed in ascending order are ordered as listed. */
  lemma ListedOrderIsTankOrder(rows: seq<Row>, ids: seq<int>)
    requires DistinctIds(rows)
    requires forall k :: 0 <= k < |ids| ==> ids[k] in Ids(rows)
    requires forall r :: r in rows ==> (InTank(r) <==> r.id in ids)
    requires Ordered(Pick(rows, ids))
    ensures TankIs(rows, ids)
  {
    var picked, tank := Pick(rows, ids), Tank(rows);
    forall q ensures q in picked <==> q in tank {
      if q in picked {
        var k :| 0 <= k < |picked| && picked[k] == q;
        assert q.id == ids[k] && q.id in ids;
      }
      if q in tank {
        var k := IndexOf(ids, q.id);
        RowOfId(rows, q, picked[k]);
      }
    }
    assert forall k :: 0 <= k < |picked| ==> picked[k] in tank;
    OrderIsUnique(picked, tank);
    assert Ids(tank) == ids;
  }

  /** A row of a renumbered tank, after its gates were recomputed. */
  lemma RenumberedRow(rows: seq<Row>, ids: seq<int>, r: Row)
    requires r in Recompute(Renumbered(rows, ids))
    ensures exists q :: q in rows && q.id == r.id && q.deleted == r.deleted
              && r.position == if r.id in ids then Some(Slot(IndexOf(ids, r.id))) else q.position
  {
    var after := Recompute(Renumbered(rows, ids));
    var k :| 0 <= k < |after| && after[k] == r;
    assert rows[k] in rows;
  }

  lemma SlotsAreOrdered(rows: seq<Row>)
    requires forall k :: 0 <= k < |rows| ==> rows[k].position == Some(Slot(k))
    ensures Ordered(rows)
  {
  }

  /** Renumbering puts the tank into the order of the given ids. */
  lemma RenumberedOrder(rows: seq<Row>, ids: seq<int>)
    requires DistinctIds(rows) && Distinct(ids)
    requires forall k :: 0 <= k < |ids| ==> ids[k] in Ids(rows)
    requires forall r :: r in rows && r.id in ids ==> !r.deleted
    requires forall r :: r in rows && InTank(r) ==> r.id in ids
    ensures var after := Recompute(Renumbered(rows, ids)); DistinctIds(after) && TankIs(after, ids)
  {
    var after := Recompute(Renumbered(rows, ids));
    assert Ids(after) == Ids(rows);
    assert DistinctIds(after) by {
      assert forall k :: 0 <= k < |rows| ==> after[k].id == rows[k].id;
    }
    forall r | r in after ensures InTank(r) <==> r.id in ids {
      RenumberedRow(rows, ids, r);
    }
    var picked := Pick(after, ids);
    forall k | 0 <= k < |ids| ensures picked[k].position == Some(Slot(k)) {
      RenumberedRow(rows, ids, picked[k]);
      assert IndexOf(ids, ids[k]) == k;
    }
    SlotsAreOrdered(picked);
    ListedOrderIsTankOrder(after, ids);
  }

  // ===== Adding and cloning =====

  function MaxPosition(rows: seq<Row>): Option<real> {
    if rows == [] then None
    else
      var front, last := MaxPosition(rows[..|rows| - 1]), rows[|rows| - 1];
      if InTank(last) && (front.None? || front.value < last.position.value) then last.position else front
  }

  /** `Number(MAX + step) || step`, where an empty tank counts from zero. */
  function NextPosition(rows: seq<Row>): real {
    var max := MaxPosition(rows);
    var next := if max.None? then POSITION_STEP else max.value + POSITION_STEP;
    if next == 0.0 then POSITION_STEP else next
  }

  lemma {:induction false} MaxPositionIsMax(rows: seq<Row>)
    ensures forall r :: r in rows && InTank(r) ==> MaxPosition(rows).Some? && r.position.value <= MaxPosition(rows).value
  {
    if rows != [] {
      MaxPositionIsMax(rows[..|rows| - 1]);
      assert forall r :: r in rows <==> r in rows[..|rows| - 1] || r == rows[|rows| - 1];
    }
  }

  function NewRow(s: State, value: int, category: string, recurring: bool, claimed: Option<string>): Row {
    Row(s.nextId, value, category, Some(NextPosition(s.rows)), 0, recurring, claimed,
        if recurring then None else Some(1), true, false)
  }

  /** A new row at the end of the tank. */
  function Appended(s: State, value: int, category: string, recurring: bool, claimed: Option<string>): State {
    s.(rows := Recompute(s.rows + [NewRow(s, value, category, recurring, claimed)]), nextId := s.nextId + 1)
  }

  /** What is kept of an amount that a caller sends. */
  function Clamped(value: int): (cents: int)
    ensures 0 <= cents <= MAX_BLOCK_CENTS && (cents > 0 <==> value > 0)
  {
    Max0(Min(value, MAX_BLOCK_CENTS))
  }

  function Add(s: State, value: int, category: string, recurring: bool): State {
    if Clamped(value) <= 0 then s else Appended(s, Clamped(value), category, recurring, None)
  }

  /** Quick-add of a vault reward that costs something; its price is taken as it stands. */
  function Clone(s: State, value: int, category: string): State {
    if value <= 0 then s else Appended(s, value, category, false, None)
  }

  function Overflow(s: State, waterline: nat): nat {
    Max0(Min(waterline - Planned(s.rows), s.bank))
  }

  /** A spin buys a reward out of the overflow: its clone is claimed at once and paid for. */
  function Spin(s: State, value: int, category: string, period: string, waterline: nat): State {
    if value <= 0 || value > Overflow(s, waterline) then s
    else Appended(s, value, category, false, Some(period)).(bank := s.bank - value)
  }

  // ===== Editing, removing, reordering =====

  function Edited(r: Row, value: int, category: string, recurring: bool): Row {
    r.(value := value, category := category, recurring := recurring,
       uses := if recurring then None else if r.uses.Some? then r.uses else Some(1))
  }

  function Update(s: State, id: int, value: int, category: string, recurring: bool): State {
    var k := IndexOf(Ids(s.rows), id);
    if Clamped(value) <= 0 || k == |s.rows| || !InTank(s.rows[k]) then s
    else s.(rows := Recompute(s.rows[k := Edited(s.rows[k], Clamped(value), category, recurring)]))
  }

  function Leaving(r: Row): Row {
    r.(position := None, gate := 0)
  }

  function Remove(s: State, id: int, keepReward: bool): State {
    var k := IndexOf(Ids(s.rows), id);
    if k == |s.rows| || !InTank(s.rows[k]) then s
    else
      var left := if keepReward then Leaving(s.rows[k]) else Leaving(s.rows[k]).(active := false, deleted := true);
      s.(rows := Recompute(s.rows[k := left]))
  }

  function Moved(rows: seq<Row>, id: int, position: real): seq<Row> {
    var k := IndexOf(Ids(rows), id);
    if k == |rows| || !InTank(rows[k]) then rows else rows[k := rows[k].(position := Some(position))]
  }

  datatype Item = Item(id: int, position: real)

  function MovedAll(rows: seq<Row>, items: seq<Item>): seq<Row> {
    if items == [] then rows
    else Moved(MovedAll(rows, items[..|items| - 1]), items[|items| - 1].id, items[|items| - 1].position)
  }

  function SortedInsert(xs: seq<real>, x: real): seq<real> {
    if xs == [] || xs[|xs| - 1] <= x then xs + [x] else SortedInsert(xs[..|xs| - 1], x) + [xs[|xs| - 1]]
  }

  function SortedPositions(items: seq<Item>): seq<real> {
    if items == [] then [] else SortedInsert(SortedPositions(items[..|items| - 1]), items[|items| - 1].position)
  }

  /** Two of the given positions nearly collide. */
  predicate NeedsRebalance(items: seq<Item>) {
    var sorted := SortedPositions(items);
    exists k :: 1 <= k < |sorted| && sorted[k] - sorted[k - 1] < 0.001
  }

  function Reorder(s: State, items: seq<Item>): State
    requires DistinctIds(s.rows)
  {
    if items == [] then s
    else
      var moved := MovedAll(s.rows, items);
      MovedKeepsIds(s.rows, items);
      s.(rows := Recompute(if NeedsRebalance(items) then Renumbered(moved, Ids(Tank(moved))) else moved))
  }

  lemma {:induction false} MovedKeepsIds(rows: seq<Row>, items: seq<Item>)
    requires DistinctIds(rows)
    ensures var moved := MovedAll(rows, items);
            && |moved| == |rows| && DistinctIds(moved)
            && forall k :: 0 <= k < |rows| ==>
                 moved[k] == rows[k].(position := moved[k].position) && moved[k].position.Some? == rows[k].position.Some?
  {
    if items != [] {
      MovedKeepsIds(rows, items[..|items| - 1]);
    }
  }

  // ===== Splitting =====

  /** `Number(null)` is 0, so a row with unlimited uses counts as used up here. */
  predicate UsedUp(r: Row) {
    r.uses.None? || r.uses.value == 0
  }

  predicate MayBeSplit(r: Row) {
    r.value >= 2 && r.claimed.None? && !UsedUp(r)
  }

  function HalfCopy(r: Row, newId: int): Row {
    Row(newId, r.value / 2, r.category, r.position, 0, r.recurring, None,
        if r.recurring then None else Some(1), r.active, false)
  }

  function SplitOrder(tank: seq<Row>, i: nat, newId: int): seq<int>
    requires i < |tank|
  {
    Ids(tank)[..i + 1] + [newId] + Ids(tank)[i + 1..]
  }

  function Halved(s: State, r: Row): seq<Row> {
    var k := IndexOf(Ids(s.rows), r.id);
    (if k == |s.rows| then s.rows else s.rows[k := s.rows[k].(value := r.value - r.value / 2)]) + [HalfCopy(r, s.nextId)]
  }

  function Split(s: State, id: int): State
    requires DistinctIds(s.rows)
  {
    var tank := Tank(s.rows);
    var i := IndexOf(Ids(tank), id);
    if i == |tank| || !MayBeSplit(tank[i]) then s
    else s.(rows := Recompute(Renumbered(Halved(s, tank[i]), SplitOrder(tank, i, s.nextId))), nextId := s.nextId + 1)
  }

  // ===== Claiming =====

  predicate MayClaim(s: State, k: nat, period: string, waterline: nat)
    requires k < |s.rows|
  {
    var r := s.rows[k];
    InTank(r) && r.active && r.claimed != Some(period) && r.gate <= waterline && r.value <= s.bank
  }

  function Claimed(r: Row, period: string): Row {
    r.(claimed := Some(period),
       uses := if r.uses.None? then None else Some(Max0(r.uses.value - 1)))
  }

  function Claim(s: State, id: int, period: string, waterline: nat): State {
    var k := IndexOf(Ids(s.rows), id);
    if k == |s.rows| || !MayClaim(s, k, period, waterline) then s
    else s.(rows := s.rows[k := Claimed(s.rows[k], period)], bank := Max0(s.bank - s.rows[k].value))
  }

  // ===== Rolling over =====

  predicate Leaves(r: Row, carry: bool) {
    !r.recurring && (r.claimed.Some? || !carry)
  }

  /** The ids of the rows of a list that are kept (or not) by a test on recurring. */
  function Staying(tank: seq<Row>, carry: bool, recurring: bool): seq<int> {
    if tank == [] then []
    else
      var last := tank[|tank| - 1];
      Staying(tank[..|tank| - 1], carry, recurring)
      + (if !Leaves(last, carry) && last.recurring == recurring then [last.id] else [])
  }

  /** Unclaimed one-off purchases come first, then the recurring ones. */
  function NewOrder(tank: seq<Row>, carry: bool): seq<int> {
    Staying(tank, carry, false) + Staying(tank, carry, true)
  }

  function WithoutLeavers(rows: seq<Row>, carry: bool): (after: seq<Row>)
    ensures |after| == |rows|
    ensures forall k :: 0 <= k < |rows| ==>
              after[k] == if InTank(rows[k]) && Leaves(rows[k], carry) then Leaving(rows[k]) else rows[k]
  {
    seq(|rows|, k requires 0 <= k < |rows| =>
      if InTank(rows[k]) && Leaves(rows[k], carry) then Leaving(rows[k]) else rows[k])
  }

  function Rollover(s: State, carry: bool): State
    requires DistinctIds(s.rows)
  {
    s.(rows := Recompute(Renumbered(WithoutLeavers(s.rows, carry), NewOrder(Tank(s.rows), carry))))
  }
}
