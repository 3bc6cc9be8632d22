/** The reward rows of one workspace, the order of its tank and the cumulative gates
    (budget-store.js).  A row is in the tank while it has a position and is not deleted.  The tank
    is ordered by position, then id; the gate of a row is the total value up to and including it. */
module TankOrder {
  import opened Options

  datatype Row = Row(id: int, value: int, category: string, position: Option<real>, gate: int,
                     recurring: bool, claimed: Option<string>, uses: Option<int>, active: bool, deleted: bool)

  predicate InTank(r: Row) {
    r.position.Some? && !r.deleted
  }

  /** Strictly earlier in tank order. */
  predicate Precedes(r: Row, q: Row)
    requires r.position.Some? && q.position.Some?
  {
    r.position.value < q.position.value || (r.position.value == q.position.value && r.id < q.id)
  }

  // ===== Gates =====

  /** The value of one row when it counts towards the gate of `r`. */
  function Counted(q: Row, r: Row): int
    requires InTank(r)
  {
    if InTank(q) && !Precedes(r, q) then q.value else 0
  }

  /** The window sum of the gate query: values at or before `r`. */
  function SumUpTo(rows: seq<Row>, r: Row): int
    requires InTank(r)
  {
    if rows == [] then 0 else SumUpTo(rows[..|rows| - 1], r) + Counted(rows[|rows| - 1], r)
  }

  function Gated(rows: seq<Row>, r: Row): Row {
    if InTank(r) then r.(gate := SumUpTo(rows, r)) else r
  }

  /** Recomputes the gate of every row in the tank. */
  function Recompute(rows: seq<Row>): (after: seq<Row>)
    ensures |after| == |rows|
    ensures forall k :: 0 <= k < |rows| ==> after[k] == Gated(rows, rows[k])
  {
    seq(|rows|, k requires 0 <= k < |rows| => Gated(rows, rows[k]))
  }

  /** Every gate is the inclusive prefix sum, and rows outside the tank have gate 0. */
  ghost predicate GatesAreRight(rows: seq<Row>) {
    forall k :: 0 <= k < |rows| ==> rows[k].gate == if InTank(rows[k]) then SumUpTo(rows, rows[k]) else 0
  }

  ghost predicate OutsidersHaveNoGate(rows: seq<Row>) {
    forall k :: 0 <= k < |rows| && !InTank(rows[k]) ==> rows[k].gate == 0
  }

  ghost predicate DistinctIds(rows: seq<Row>) {
    forall i, j :: 0 <= i < j < |rows| ==> rows[i].id != rows[j].id
  }

  /** Two versions of a row with the same place in the tank and the same value. */
  predicate SamePlace(r: Row, q: Row) {
    r.id == q.id && r.value == q.value && r.position == q.position && r.deleted == q.deleted
  }

  /** Sums depend on places and values only. */
  lemma {:induction false} SumsDependOnPlaces(rows: seq<Row>, after: seq<Row>, r: Row, q: Row)
    requires InTank(r) && InTank(q) && SamePlace(r, q)
    requires |rows| == |after| && forall k :: 0 <= k < |rows| ==> SamePlace(rows[k], after[k])
    ensures SumUpTo(after, q) == SumUpTo(rows, r)
  {
    if rows != [] {
      SumsDependOnPlaces(rows[..|rows| - 1], after[..|rows| - 1], r, q);
    }
  }

  lemma {:induction false} PlansDependOnPlaces(rows: seq<Row>, after: seq<Row>)
    requires |rows| == |after| && forall k :: 0 <= k < |rows| ==> SamePlace(rows[k], after[k])
    ensures Planned(after) == Planned(rows)
  {
    if rows != [] {
      PlansDependOnPlaces(rows[..|rows| - 1], after[..|rows| - 1]);
    }
  }

  lemma RecomputedGatesAreRight(rows: seq<Row>)
    requires OutsidersHaveNoGate(rows)
    ensures GatesAreRight(Recompute(rows))
  {
    var after := Recompute(rows);
    forall k | 0 <= k < |after| && InTank(after[k]) ensures after[k].gate == SumUpTo(after, after[k]) {
      SumsDependOnPlaces(rows, after, rows[k], after[k]);
    }
  }

  // ===== The ordered tank =====

  predicate Ordered(rows: seq<Row>) {
    forall i, j :: 0 <= i < j < |rows| ==>
      rows[i].position.Some? && rows[j].position.Some? && Precedes(rows[i], rows[j])
  }

  predicate AllInTank(rows: seq<Row>) {
    forall k :: 0 <= k < |rows| ==> InTank(rows[k])
  }

  function Insert(rows: seq<Row>, r: Row): (after: seq<Row>)
    requires InTank(r) && AllInTank(rows) && Ordered(rows)
    requires forall k :: 0 <= k < |rows| ==> rows[k].id != r.id
    ensures AllInTank(after) && Ordered(after) && |after| == |rows| + 1
    ensures forall q :: q in after <==> q in rows || q == r
  {
    if rows == [] || Precedes(rows[|rows| - 1], r) then rows + [r]
    else
      var front, last := rows[..|rows| - 1], rows[|rows| - 1];
      var head := Insert(front, r);
      assert forall q :: q in rows <==> q in front || q == last;
      assert forall k :: 0 <= k < |head| ==> head[k] in head;
      head + [last]
  }

  /** The rows of the tank in order. */
  function Tank(rows: seq<Row>): (tank: seq<Row>)
    requires DistinctIds(rows)
    ensures AllInTank(tank) && Ordered(tank)
    ensures forall q :: q in tank <==> q in rows && InTank(q)
  {
    if rows == [] then []
    else
      var front, last := rows[..|rows| - 1], rows[|rows| - 1];
      var tank := Tank(front);
      assert forall q :: q in rows <==> q in front || q == last;
      if InTank(last) then
        assert forall k :: 0 <= k < |tank| ==> tank[k] in front;
        Insert(tank, last)
      else tank
  }

  /** Two ordered lists of the same rows are the same list. */
  lemma {:induction false} OrderIsUnique(a: seq<Row>, b: seq<Row>)
    requires Ordered(a) && Ordered(b) && AllInTank(a) && AllInTank(b)
    requires forall q :: q in a <==> q in b
    ensures a == b
    decreases |a|
  {
    if b != [] {
      assert b[0] in b;
    }
    if a != [] {
      assert a[0] in a;
      var m, n := |a| - 1, |b| - 1;
      LastIsLast(a, b);
      LastIsLast(b, a);
      assert a[m] == b[n];
      forall q ensures q in a[..m] <==> q in b[..n] {
        assert q in a <==> q in a[..m] || q == a[m];
        assert q in b <==> q in b[..n] || q == b[n];
        NotBeforeLast(a, q);
        NotBeforeLast(b, q);
      }
      OrderIsUnique(a[..m], b[..n]);
      assert a == a[..m] + [a[m]] && b == b[..n] + [b[n]];
    }
  }

  lemma LastIsLast(a: seq<Row>, b: seq<Row>)
    requires Ordered(a) && Ordered(b) && AllInTank(a) && AllInTank(b) && a != [] && b != []
    requires a[|a| - 1] in b && b[|b| - 1] in a
    ensures a[|a| - 1] == b[|b| - 1]
  {
  }

  lemma NotBeforeLast(a: seq<Row>, q: Row)
    requires Ordered(a) && AllInTank(a) && a != []
    ensures q in a[..|a| - 1] ==> q != a[|a| - 1]
  {
  }

  // ===== Sums over the ordered tank =====

  function Values(rows: seq<Row>): int {
    if rows == [] then 0 else Values(rows[..|rows| - 1]) + rows[|rows| - 1].value
  }

  /** What is planned: the total value of the tank. */
  function Planned(rows: seq<Row>): int {
    if rows == [] then 0
    else Planned(rows[..|rows| - 1]) + (if InTank(rows[|rows| - 1]) then rows[|rows| - 1].value else 0)
  }

  lemma {:induction false} InsertKeepsSums(rows: seq<Row>, r: Row, q: Row)
    requires InTank(q) && InTank(r) && AllInTank(rows) && Ordered(rows)
    requires forall k :: 0 <= k < |rows| ==> rows[k].id != r.id
    ensures SumUpTo(Insert(rows, r), q) == SumUpTo(rows, q) + Counted(r, q)
    ensures Values(Insert(rows, r)) == Values(rows) + r.value
  {
    if rows == [] || Precedes(rows[|rows| - 1], r) {
      assert (rows + [r])[..|rows|] == rows;
    } else {
      var front, last := rows[..|rows| - 1], rows[|rows| - 1];
      InsertKeepsSums(front, r, q);
      assert (Insert(front, r) + [last])[..|rows|] == Insert(front, r);
    }
  }

  lemma {:induction false} TankKeepsSums(rows: seq<Row>, q: Row)
    requires DistinctIds(rows) && InTank(q)
    ensures SumUpTo(Tank(rows), q) == SumUpTo(rows, q)
    ensures Values(Tank(rows)) == Planned(rows)
  {
    if rows != [] {
      var front, last := rows[..|rows| - 1], rows[|rows| - 1];
      TankKeepsSums(front, q);
      if InTank(last) {
        assert forall k :: 0 <= k < |Tank(front)| ==> Tank(front)[k] in front;
        InsertKeepsSums(Tank(front), last, q);
      }
    }
  }

  /** In an ordered list the window sum is the sum of the prefix. */
  lemma {:induction false} WindowIsPrefix(tank: seq<Row>, k: nat, n: nat)
    requires AllInTank(tank) && Ordered(tank) && k < |tank| && n <= |tank|
    ensures SumUpTo(tank[..n], tank[k]) == Values(tank[..if n <= k then n else k + 1])
    decreases n
  {
    if n > 0 {
      WindowIsPrefix(tank, k, n - 1);
      assert tank[..n][..n - 1] == tank[..n - 1];
      if n <= k + 1 {
        assert n - 1 < k ==> Precedes(tank[n - 1], tank[k]);
      } else {
        assert Precedes(tank[k], tank[n - 1]);
      }
    }
  }

  /** The gate of the k-th row of the tank is the sum of the first k + 1 values. */
  lemma GateIsPrefixSum(rows: seq<Row>, k: nat)
    requires DistinctIds(rows) && GatesAreRight(rows) && k < |Tank(rows)|
    ensures Tank(rows)[k].gate == Values(Tank(rows)[..k + 1])
  {
    var tank := Tank(rows);
    assert tank[k] in tank;
    var i :| 0 <= i < |rows| && rows[i] == tank[k];
    TankKeepsSums(rows, tank[k]);
    WindowIsPrefix(tank, k, |tank|);
    assert tank[..|tank|] == tank;
  }

  // ===== Funding =====

  function Max0(x: int): nat {
    if x > 0 then x else 0
  }

  function Min(a: int, b: int): int {
    if a < b then a else b
  }

  /** How much of a row the water covers. */
  function Funded(waterline: int, r: Row): int {
    Max0(Min(waterline - (r.gate - r.value), r.value))
  }

  function FundedAll(waterline: int, rows: seq<Row>): int {
    if rows == [] then 0 else FundedAll(waterline, rows[..|rows| - 1]) + Funded(waterline, rows[|rows| - 1])
  }

  ghost predicate ValuesArePositive(rows: seq<Row>) {
    forall k :: 0 <= k < |rows| && InTank(rows[k]) ==> rows[k].value > 0
  }

  lemma {:induction false} PrefixIsFundedInOrder(rows: seq<Row>, waterline: nat, n: nat)
    requires DistinctIds(rows) && GatesAreRight(rows) && ValuesArePositive(rows) && n <= |Tank(rows)|
    ensures FundedAll(waterline, Tank(rows)[..n]) == Min(waterline, Values(Tank(rows)[..n]))
    ensures Values(Tank(rows)[..n]) >= 0
  {
    if n > 0 {
      var tank := Tank(rows);
      PrefixIsFundedInOrder(rows, waterline, n - 1);
      assert tank[..n][..n - 1] == tank[..n - 1];
      GateIsPrefixSum(rows, n - 1);
      assert tank[n - 1] in tank;
    }
  }

  /** However the tank is ordered, the funded amounts add up to the waterline, or to everything
      planned when the water stands higher. */
  lemma FundingIsExact(rows: seq<Row>, waterline: nat)
    requires DistinctIds(rows) && GatesAreRight(rows) && ValuesArePositive(rows)
    ensures FundedAll(waterline, Tank(rows)) == Min(waterline, Planned(rows))
  {
    var tank := Tank(rows);
    PrefixIsFundedInOrder(rows, waterline, |tank|);
    assert tank[..|tank|] == tank;
    if tank != [] {
      TankKeepsSums(rows, tank[0]);
    } else {
      NoTankPlansNothing(rows);
    }
  }

  lemma {:induction false} NoTankPlansNothing(rows: seq<Row>)
    requires forall k :: 0 <= k < |rows| ==> !InTank(rows[k])
    ensures Planned(rows) == 0
  {
    if rows != [] {
      NoTankPlansNothing(rows[..|rows| - 1]);
    }
  }
}
