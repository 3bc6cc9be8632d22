/** What the operations on the tank do to the fields of the rows (budget-store.js,
    reward-vault-store.js): which calls are taken, what the touched row holds afterwards, and that
    nothing else changes but gates. */
module TankEffects {
  import opened Options
  import opened TankOrder
  import opened BudgetTank
  import opened TankRuns

  /** The row is unchanged, its gate aside. */
  predicate SameButGate(before: Row, after: Row) {
    && after.id == before.id && after.value == before.value && after.category == before.category
    && after.position == before.position && after.recurring == before.recurring && after.claimed == before.claimed
    && after.uses == before.uses && after.active == before.active && after.deleted == before.deleted
  }

  /** The k-th row has this id and stands in the tank. */
  predicate Stands(rows: seq<Row>, k: int, id: int) {
    0 <= k < |rows| && rows[k].id == id && rows[k].position.Some? && !rows[k].deleted
  }

  ghost predicate IsStanding(rows: seq<Row>, id: int) {
    exists k :: Stands(rows, k, id)
  }

  /** Nothing but the k-th row and the gates of the others differs. */
  ghost predicate OnlyRowChanges(s: State, after: State, k: int) {
    && |after.rows| == |s.rows| && after.nextId == s.nextId
    && forall j :: 0 <= j < |s.rows| && j != k ==> SameButGate(s.rows[j], after.rows[j])
  }

  lemma StandingIsFound(s: State, id: int)
    requires DistinctIds(s.rows)
    ensures var k := IndexOf(Ids(s.rows), id);
            && (forall j :: Stands(s.rows, j, id) ==> j == k)
            && (IsStanding(s.rows, id) <==> k < |s.rows| && InTank(s.rows[k]))
  {
    var k := IndexOf(Ids(s.rows), id);
    forall j | Stands(s.rows, j, id) ensures j == k {
      assert Ids(s.rows)[j] == id;
    }
    if k < |s.rows| && InTank(s.rows[k]) {
      assert Stands(s.rows, k, id);
    }
  }

  // ===== Adding =====

  /** A thousand behind the last row of the tank; a thousand in an empty tank, and where that
      would be 0. */
  ghost predicate IsBehind(rows: seq<Row>, position: Option<real>) {
    if forall k :: 0 <= k < |rows| ==> !Stands(rows, k, rows[k].id) then position == Some(1000.0)
    else exists k :: 0 <= k < |rows| && Stands(rows, k, rows[k].id) && IsHighest(rows, rows[k].position.value)
           && position == Some(if rows[k].position.value == -1000.0 then 1000.0 else rows[k].position.value + 1000.0)
  }

  predicate IsHighest(rows: seq<Row>, position: real) {
    forall k :: 0 <= k < |rows| && Stands(rows, k, rows[k].id) ==> rows[k].position.value <= position
  }

  lemma {:induction false} MaxPositionIsFound(rows: seq<Row>)
    ensures MaxPosition(rows).Some? <==> exists k :: 0 <= k < |rows| && Stands(rows, k, rows[k].id)
    ensures MaxPosition(rows).Some? ==> exists k :: 0 <= k < |rows| && Stands(rows, k, rows[k].id) && rows[k].position == MaxPosition(rows)
  {
    if rows != [] {
      var n := |rows| - 1;
      MaxPositionIsFound(rows[..n]);
      if MaxPosition(rows[..n]).Some? {
        var k :| 0 <= k < n && Stands(rows[..n], k, rows[..n][k].id) && rows[..n][k].position == MaxPosition(rows[..n]);
        assert Stands(rows, k, rows[k].id);
      }
      if InTank(rows[n]) {
        assert Stands(rows, n, rows[n].id);
      }
      if k :| 0 <= k < |rows| && Stands(rows, k, rows[k].id) {
        assert k < n ==> Stands(rows[..n], k, rows[..n][k].id);
      }
    }
  }

  lemma NextPositionIsBehind(rows: seq<Row>)
    ensures IsBehind(rows, Some(NextPosition(rows)))
  {
    MaxPositionIsFound(rows);
    MaxPositionIsMax(rows);
    if MaxPosition(rows).Some? {
      var k :| 0 <= k < |rows| && Stands(rows, k, rows[k].id) && rows[k].position == MaxPosition(rows);
      assert IsHighest(rows, rows[k].position.value);
    }
  }

  /** One row is new; all others keep every field, their gates included. */
  ghost predicate IsAppended(s: State, after: State, value: int, category: string, recurring: bool, claimed: Option<string>) {
    && |after.rows| == |s.rows| + 1 && after.rows[..|s.rows|] == s.rows && after.nextId == s.nextId + 1
    && var r := after.rows[|s.rows|];
       && r.id == s.nextId && r.value == value && r.category == category && IsBehind(s.rows, r.position)
       && r.recurring == recurring && r.claimed == claimed && r.uses == (if recurring then None else Some(1))
       && r.active && !r.deleted && r.gate == Planned(s.rows) + value
  }

  /** A row behind all others leaves the gate of each of them alone. */
  lemma GateStaysBefore(s: State, r: Row, k: nat)
    requires GatesAreRight(s.rows) && k < |s.rows|
    requires InTank(s.rows[k]) ==> r.position.Some? && Precedes(s.rows[k], r)
    ensures Gated(s.rows + [r], s.rows[k]) == s.rows[k]
  {
    assert (s.rows + [r])[..|s.rows|] == s.rows;
  }

  lemma AppendedKeepsRows(s: State, r: Row)
    requires Sound(s) && r.position == Some(NextPosition(s.rows))
    ensures Recompute(s.rows + [r])[..|s.rows|] == s.rows
  {
    NewRowIsLast(s, r);
    forall k | 0 <= k < |s.rows| ensures Gated(s.rows + [r], s.rows[k]) == s.rows[k] {
      assert s.rows[k] in s.rows;
      GateStaysBefore(s, r, k);
    }
  }

  lemma AppendedIsOnlyNew(s: State, value: int, category: string, recurring: bool, claimed: Option<string>)
    requires Sound(s) && value > 0
    ensures IsAppended(s, Appended(s, value, category, recurring, claimed), value, category, recurring, claimed)
  {
    NextPositionIsBehind(s.rows);
    AppendedKeepsRows(s, NewRow(s, value, category, recurring, claimed));
    AppendedGate(s, value, category, recurring, claimed);
  }

  lemma AppendedGate(s: State, value: int, category: string, recurring: bool, claimed: Option<string>)
    requires Sound(s) && value > 0
    ensures Appended(s, value, category, recurring, claimed).rows[|s.rows|].gate == Planned(s.rows) + value
  {
    AppendedGoesLast(s, value, category, recurring, claimed);
  }

  /** A block is added exactly when its amount is positive: one row at the end, worth the amount up
      to a million dollars, unclaimed, with one use unless it recurs. */
  lemma AddsExactly(s: State, value: int, category: string, recurring: bool)
    requires Sound(s)
    ensures var after := Add(s, value, category, recurring);
            && after.bank == s.bank
            && (value > 0 ==> IsAppended(s, after, if value < 100000000 then value else 100000000, category, recurring, None))
            && (value <= 0 ==> after == s)
  {
    if value > 0 {
      AppendedIsOnlyNew(s, Clamped(value), category, recurring, None);
    }
  }

  /** A cloned reward is taken at its price, however high. */
  lemma ClonesExactly(s: State, value: int, category: string)
    requires Sound(s)
    ensures var after := Clone(s, value, category);
            && after.bank == s.bank
            && (value > 0 ==> IsAppended(s, after, value, category, false, None))
            && (value <= 0 ==> after == s)
  {
    if value > 0 {
      AppendedIsOnlyNew(s, value, category, false, None);
    }
  }

  /** A spin buys its reward if and only if the price is positive and neither what the water leaves
      unplanned nor the reserve falls short of it; then the reward is claimed and paid at once. */
  lemma SpinPaysExactly(s: State, value: int, category: string, period: string, waterline: nat)
    requires Sound(s)
    ensures var after := Spin(s, value, category, period, waterline);
            var affordable := value > 0 && Planned(s.rows) + value <= waterline && value <= s.bank;
            && (affordable ==> IsAppended(s, after, value, category, false, Some(period)) && after.bank == s.bank - value)
            && (!affordable ==> after == s)
  {
    if value > 0 {
      AppendedIsOnlyNew(s, value, category, false, Some(period));
    }
  }

  // ===== Editing, removing, claiming =====

  /** An edit is taken exactly when its amount is positive and the block stands in the tank.  It sets
      amount, category and recurrence; a recurring block loses its limit of uses, another keeps the
      uses it has left or gets one. */
  lemma UpdatesExactly(s: State, id: int, value: int, category: string, recurring: bool)
    requires Sound(s)
    ensures var after := Update(s, id, value, category, recurring);
            && after.bank == s.bank
            && (value > 0 && IsStanding(s.rows, id) ==>
                  forall k :: Stands(s.rows, k, id) ==> OnlyRowChanges(s, after, k) && IsEdited(s.rows[k], after.rows[k], value, category, recurring))
            && (!(value > 0 && IsStanding(s.rows, id)) ==> after == s)
  {
    StandingIsFound(s, id);
  }

  predicate IsEdited(before: Row, after: Row, value: int, category: string, recurring: bool) {
    && after.value == (if value < 100000000 then value else 100000000)
    && after.category == category && after.recurring == recurring
    && (recurring ==> after.uses == None)
    && (!recurring && before.uses.Some? ==> after.uses == before.uses)
    && (!recurring && before.uses.None? ==> after.uses == Some(1))
    && after.id == before.id && after.position == before.position && after.claimed == before.claimed
    && after.active == before.active && after.deleted == before.deleted
  }

  /** Removing takes exactly the block of that id out of the tank.  A kept reward stays as it is; any
      other is deactivated and deleted. */
  lemma RemovesExactly(s: State, id: int, keepReward: bool)
    requires Sound(s)
    ensures var after := Remove(s, id, keepReward);
            && after.bank == s.bank
            && (forall k :: Stands(s.rows, k, id) ==>
                  OnlyRowChanges(s, after, k) && IsRemoved(s.rows[k], after.rows[k], keepReward))
            && (!IsStanding(s.rows, id) ==> after == s)
  {
    StandingIsFound(s, id);
  }

  predicate IsRemoved(before: Row, after: Row, keepReward: bool) {
    && after.position == None && after.gate == 0
    && (keepReward ==> after.active == before.active && !after.deleted)
    && (!keepReward ==> !after.active && after.deleted)
    && after.id == before.id && after.value == before.value && after.category == before.category
    && after.recurring == before.recurring && after.claimed == before.claimed && after.uses == before.uses
  }

  /** What a claim asks of the block: in the tank, active, not claimed this period, under water, and
      within the reserve. */
  predicate IsClaimable(s: State, k: int, id: int, period: string, waterline: nat) {
    && Stands(s.rows, k, id) && s.rows[k].active && s.rows[k].claimed != Some(period)
    && s.rows[k].gate <= waterline && s.rows[k].value <= s.bank
  }

  lemma ClaimWrites(s: State, id: int, period: string, waterline: nat, k: nat)
    requires Sound(s) && IsClaimable(s, k, id, period, waterline)
    ensures Claim(s, id, period, waterline) == s.(rows := s.rows[k := Claimed(s.rows[k], period)], bank := s.bank - s.rows[k].value)
  {
    StandingIsFound(s, id);
    assert s.rows[k].value > 0;
  }

  /** A claim is taken exactly when the block is claimable.  It debits the price of the block, not
      its gate, marks it claimed for the period and takes one of its uses; no other row and no gate
      changes. */
  lemma ClaimsExactly(s: State, id: int, period: string, waterline: nat)
    requires Sound(s)
    ensures var after := Claim(s, id, period, waterline);
            && (forall k :: IsClaimable(s, k, id, period, waterline) ==>
                  && after.bank == s.bank - s.rows[k].value && after.nextId == s.nextId && |after.rows| == |s.rows|
                  && (forall j :: 0 <= j < |s.rows| && j != k ==> after.rows[j] == s.rows[j])
                  && IsClaimed(s.rows[k], after.rows[k], period))
            && ((forall k :: !IsClaimable(s, k, id, period, waterline)) ==> after == s)
  {
    forall k | IsClaimable(s, k, id, period, waterline)
      ensures Claim(s, id, period, waterline) == s.(rows := s.rows[k := Claimed(s.rows[k], period)], bank := s.bank - s.rows[k].value)
    {
      ClaimWrites(s, id, period, waterline, k);
    }
    var k := IndexOf(Ids(s.rows), id);
    if k < |s.rows| && MayClaim(s, k, period, waterline) {
      assert IsClaimable(s, k, id, period, waterline);
    }
  }

  predicate IsClaimed(before: Row, after: Row, period: string) {
    && after.claimed == Some(period)
    && (before.uses.None? ==> after.uses.None?)
    && (before.uses.Some? ==> after.uses == Some(if before.uses.value >= 1 then before.uses.value - 1 else 0))
    && after.id == before.id && after.value == before.value && after.category == before.category
    && after.position == before.position && after.recurring == before.recurring && after.gate == before.gate
    && after.active == before.active && after.deleted == before.deleted
  }

  // ===== Splitting =====

  lemma RenumberedKeepsFields(rows: seq<Row>, ids: seq<int>, k: nat)
    requires k < |rows|
    ensures SameButPlace(rows[k], Recompute(Renumbered(rows, ids))[k])
  {
  }

  lemma SplitRows(s: State, id: int, k: nat)
    requires Sound(s) && Split(s, id) != s && Stands(s.rows, k, id)
    ensures exists ids :: Split(s, id) == s.(rows := Recompute(Renumbered(Halved(s, s.rows[k]), ids)), nextId := s.nextId + 1)
  {
    var tank := Tank(s.rows);
    FoundInTank(s.rows, s.rows[k]);
    assert Split(s, id) == s.(rows := Recompute(Renumbered(Halved(s, s.rows[k]), SplitOrder(tank, IndexOf(Ids(tank), id), s.nextId))),
                              nextId := s.nextId + 1);
  }

  /** A split leaves every field of the source but its amount, place and gate, and makes an unclaimed
      copy with the source's category, recurrence and activity; the other rows keep all but place
      and gate. */
  lemma SplitCopiesFields(s: State, id: int, k: nat)
    requires Sound(s) && Split(s, id) != s && Stands(s.rows, k, id)
    ensures var after := Split(s, id);
            && |after.rows| == |s.rows| + 1 && after.nextId == s.nextId + 1 && after.bank == s.bank
            && (forall j :: 0 <= j < |s.rows| && j != k ==> SameButPlace(s.rows[j], after.rows[j]))
            && SameButPlace(s.rows[k].(value := s.rows[k].value - s.rows[k].value / 2), after.rows[k])
            && IsCopy(s.rows[k], after.rows[|s.rows|], s.nextId)
  {
    SplitRows(s, id, k);
    var ids :| Split(s, id) == s.(rows := Recompute(Renumbered(Halved(s, s.rows[k]), ids)), nextId := s.nextId + 1);
    StandingIsFound(s, id);
    HalvedFields(s, k, ids);
  }

  lemma HalvedFields(s: State, k: nat, ids: seq<int>)
    requires DistinctIds(s.rows) && k < |s.rows| && IndexOf(Ids(s.rows), s.rows[k].id) == k
    ensures var after := Recompute(Renumbered(Halved(s, s.rows[k]), ids));
            && |after| == |s.rows| + 1
            && (forall j :: 0 <= j < |s.rows| && j != k ==> SameButPlace(s.rows[j], after[j]))
            && SameButPlace(s.rows[k].(value := s.rows[k].value - s.rows[k].value / 2), after[k])
            && IsCopy(s.rows[k], after[|s.rows|], s.nextId)
  {
    var rows := Halved(s, s.rows[k]);
    forall j | 0 <= j < |rows| ensures SameButPlace(rows[j], Recompute(Renumbered(rows, ids))[j]) {
      RenumberedKeepsFields(rows, ids, j);
    }
  }

  predicate SameButPlace(before: Row, after: Row) {
    && after.id == before.id && after.value == before.value && after.category == before.category
    && after.recurring == before.recurring && after.claimed == before.claimed && after.uses == before.uses
    && after.active == before.active && after.deleted == before.deleted
  }

  predicate IsCopy(source: Row, copy: Row, newId: int) {
    && copy.id == newId && copy.category == source.category && copy.recurring == source.recurring
    && copy.claimed == None && copy.active == source.active && !copy.deleted
    && copy.uses == (if source.recurring then None else Some(1))
  }

  // ===== Reordering =====

  /** The last item for this id gives this position. */
  ghost predicate IsGiven(items: seq<Item>, id: int, position: real) {
    exists k :: 0 <= k < |items| && items[k].id == id && items[k].position == position && IsLastFor(items, k)
  }

  predicate IsLastFor(items: seq<Item>, k: nat)
    requires k < |items|
  {
    forall j :: k < j < |items| ==> items[j].id != items[k].id
  }

  predicate IsNamed(items: seq<Item>, id: int) {
    exists k :: 0 <= k < |items| && items[k].id == id
  }

  /** Where the row is to stand: at the last position given for it, or where it stood. */
  ghost predicate IsMovedTo(items: seq<Item>, r: Row, position: real) {
    r.position.Some? && if IsNamed(items, r.id) then IsGiven(items, r.id, position) else r.position.value == position
  }

  lemma OneMoreItem(items: seq<Item>, item: Item, id: int, position: real)
    ensures IsNamed(items + [item], id) <==> IsNamed(items, id) || item.id == id
    ensures item.id == id ==> IsGiven(items + [item], id, item.position)
    ensures item.id != id && IsGiven(items, id, position) ==> IsGiven(items + [item], id, position)
  {
    var longer, n := items + [item], |items|;
    assert longer[n] == item;
    if IsNamed(items, id) {
      var k :| 0 <= k < n && items[k].id == id;
      assert longer[k].id == id;
    }
    if item.id != id && IsGiven(items, id, position) {
      var k :| 0 <= k < n && items[k].id == id && items[k].position == position && IsLastFor(items, k);
      assert longer[k] == items[k] && IsLastFor(longer, k);
    }
  }

  lemma MovedRow(rows: seq<Row>, id: int, position: real, k: nat)
    requires DistinctIds(rows) && k < |rows|
    ensures |Moved(rows, id, position)| == |rows|
    ensures Moved(rows, id, position)[k]
         == if InTank(rows[k]) && rows[k].id == id then rows[k].(position := Some(position)) else rows[k]
  {
    assert Ids(rows)[k] == rows[k].id;
  }

  lemma {:induction false} MovedAllRow(rows: seq<Row>, items: seq<Item>, k: nat)
    requires DistinctIds(rows) && k < |rows|
    ensures |MovedAll(rows, items)| == |rows|
    ensures var r := MovedAll(rows, items)[k];
            && r == rows[k].(position := r.position)
            && (InTank(rows[k]) ==> r.position.Some? && IsMovedTo(items, rows[k], r.position.value))
            && (!InTank(rows[k]) ==> r == rows[k])
  {
    if items != [] {
      var front, last := items[..|items| - 1], items[|items| - 1];
      assert items == front + [last];
      MovedAllRow(rows, front, k);
      MovedKeepsIds(rows, front);
      MovedRow(MovedAll(rows, front), last.id, last.position, k);
      var r := MovedAll(rows, front)[k];
      if r.position.Some? {
        OneMoreItem(front, last, r.id, r.position.value);
      }
    }
  }

  /** Two of the positions lie less than a thousandth apart. */
  ghost predicate IsClose(xs: seq<real>) {
    exists i, j :: 0 <= i < j < |xs| && Near(xs[i], xs[j])
  }

  predicate Near(x: real, y: real) {
    -0.001 < x - y < 0.001
  }

  predicate IsSorted(xs: seq<real>) {
    forall i, j :: 0 <= i < j < |xs| ==> xs[i] <= xs[j]
  }

  function Positions(items: seq<Item>): (xs: seq<real>)
    ensures |xs| == |items| && forall k :: 0 <= k < |items| ==> xs[k] == items[k].position
  {
    seq(|items|, k requires 0 <= k < |items| => items[k].position)
  }

  /** One list is the other with `x` put in at `m`. */
  ghost predicate IsPutIn(xs: seq<real>, x: real, m: nat, ys: seq<real>) {
    && m <= |xs| && |ys| == |xs| + 1 && ys[m] == x
    && (forall k :: 0 <= k < m ==> ys[k] == xs[k])
    && (forall k :: m < k < |ys| ==> ys[k] == xs[k - 1])
  }

  lemma {:induction false} SortedIn(xs: seq<real>, x: real) returns (m: nat)
    requires IsSorted(xs)
    ensures IsPutIn(xs, x, m, SortedInsert(xs, x)) && IsSorted(SortedInsert(xs, x))
  {
    if xs == [] || xs[|xs| - 1] <= x {
      m := |xs|;
    } else {
      var n := |xs| - 1;
      m := SortedIn(xs[..n], x);
      LastIsPutBack(xs, x, m, SortedInsert(xs[..n], x));
    }
  }

  lemma LastIsPutBack(xs: seq<real>, x: real, m: nat, ys: seq<real>)
    requires xs != [] && IsSorted(xs) && x <= xs[|xs| - 1] && IsSorted(ys) && IsPutIn(xs[..|xs| - 1], x, m, ys)
    ensures IsPutIn(xs, x, m, ys + [xs[|xs| - 1]]) && IsSorted(ys + [xs[|xs| - 1]])
  {
    var zs, last := ys + [xs[|xs| - 1]], xs[|xs| - 1];
    forall k | 0 <= k < |ys| ensures ys[k] <= last {
      assert k < m ==> ys[k] == xs[k];
      assert k > m ==> ys[k] == xs[k - 1];
    }
  }

  ghost predicate IsNearOne(xs: seq<real>, x: real) {
    exists k :: 0 <= k < |xs| && Near(xs[k], x)
  }

  lemma PutInKeepsClose(xs: seq<real>, x: real, m: nat, ys: seq<real>)
    requires IsPutIn(xs, x, m, ys)
    ensures IsClose(xs) || IsNearOne(xs, x) ==> IsClose(ys)
  {
    if IsClose(xs) {
      var i, j :| 0 <= i < j < |xs| && Near(xs[i], xs[j]);
      assert ys[if i < m then i else i + 1] == xs[i] && ys[if j < m then j else j + 1] == xs[j];
    }
    if IsNearOne(xs, x) {
      var k :| 0 <= k < |xs| && Near(xs[k], x);
      assert ys[m] == x && ys[if k < m then k else k + 1] == xs[k];
    }
  }

  lemma PutInIsClose(xs: seq<real>, x: real, m: nat, ys: seq<real>)
    requires IsPutIn(xs, x, m, ys) && IsClose(ys)
    ensures IsClose(xs) || IsNearOne(xs, x)
  {
    var i, j :| 0 <= i < j < |ys| && Near(ys[i], ys[j]);
    if i != m && j != m {
      assert xs[if i < m then i else i - 1] == ys[i] && xs[if j < m then j else j - 1] == ys[j];
    } else if i == m {
      assert xs[j - 1] == ys[j] && Near(xs[j - 1], x);
    } else {
      assert xs[i] == ys[i] && Near(xs[i], x);
    }
  }

  lemma PutInMembers(xs: seq<real>, x: real, m: nat, ys: seq<real>, y: real)
    requires IsPutIn(xs, x, m, ys)
    ensures y in ys <==> y in xs || y == x
  {
    if y in xs {
      var k :| 0 <= k < |xs| && xs[k] == y;
      assert ys[if k < m then k else k + 1] == y;
    }
  }

  lemma SameMembersNear(xs: seq<real>, ys: seq<real>, x: real)
    requires forall y :: y in xs <==> y in ys
    ensures IsNearOne(xs, x) <==> IsNearOne(ys, x)
  {
    if IsNearOne(xs, x) {
      var k :| 0 <= k < |xs| && Near(xs[k], x);
      assert xs[k] in ys;
    }
    if IsNearOne(ys, x) {
      var k :| 0 <= k < |ys| && Near(ys[k], x);
      assert ys[k] in xs;
    }
  }

  /** Sorting keeps the members and whether two of them lie close. */
  lemma {:induction false} SortingKeepsClose(items: seq<Item>)
    ensures var xs, ys := SortedPositions(items), Positions(items);
            IsSorted(xs) && (forall y :: y in xs <==> y in ys) && (IsClose(xs) <==> IsClose(ys))
  {
    if items != [] {
      var n := |items| - 1;
      var x, front := items[n].position, Positions(items[..n]);
      SortingKeepsClose(items[..n]);
      var sorted := SortedPositions(items[..n]);
      var m := SortedIn(sorted, x);
      var all := Positions(items);
      assert IsPutIn(front, x, n, all);
      SameMembersNear(sorted, front, x);
      PutInKeepsClose(front, x, n, all);
      PutInKeepsClose(sorted, x, m, SortedPositions(items));
      if IsClose(all) {
        PutInIsClose(front, x, n, all);
      }
      if IsClose(SortedPositions(items)) {
        PutInIsClose(sorted, x, m, SortedPositions(items));
      }
      forall y ensures y in SortedPositions(items) <==> y in all {
        PutInMembers(sorted, x, m, SortedPositions(items), y);
        PutInMembers(front, x, n, all, y);
      }
    }
  }

  /** In a sorted list two positions are close exactly when two neighbours are. */
  lemma RebalancesExactly(items: seq<Item>)
    ensures NeedsRebalance(items) <==> IsClose(Positions(items))
  {
    SortingKeepsClose(items);
    var xs := SortedPositions(items);
    if k :| 1 <= k < |xs| && xs[k] - xs[k - 1] < 0.001 {
      assert Near(xs[k - 1], xs[k]);
    }
    if i, j :| 0 <= i < j < |xs| && Near(xs[i], xs[j]) {
      assert xs[i + 1] - xs[i + 1 - 1] < 0.001;
    }
  }

  /** A reordering without close positions puts every listed block of the tank where its last item
      says and leaves all else, gates aside. */
  lemma ReorderPlacesExactly(s: State, items: seq<Item>, k: nat)
    requires Sound(s) && k < |s.rows|
    ensures var after := Reorder(s, items);
            && |after.rows| == |s.rows| && after.bank == s.bank && after.nextId == s.nextId
            && SameButPlace(s.rows[k], after.rows[k])
            && (!Stands(s.rows, k, s.rows[k].id) ==> after.rows[k] == s.rows[k])
            && (Stands(s.rows, k, s.rows[k].id) && !IsClose(Positions(items)) ==>
                  after.rows[k].position.Some? && IsMovedTo(items, s.rows[k], after.rows[k].position.value))
  {
    RebalancesExactly(items);
    MovedAllRow(s.rows, items, k);
    MovedKeepsIds(s.rows, items);
    if items != [] {
      ListedIsInTank(MovedAll(s.rows, items), k);
    } else {
      assert MovedAll(s.rows, items) == s.rows;
    }
  }

  lemma GivenOnce(items: seq<Item>, r: Row, p: real, q: real)
    requires IsMovedTo(items, r, p) && IsMovedTo(items, r, q)
    ensures p == q
  {
    if IsNamed(items, r.id) {
      var i :| 0 <= i < |items| && items[i].id == r.id && items[i].position == p && IsLastFor(items, i);
      var j :| 0 <= j < |items| && items[j].id == r.id && items[j].position == q && IsLastFor(items, j);
      assert i == j;
    }
  }

  /** The rank of a row in the tank and its slot in a renumbered tank. */
  lemma RenumberedPlace(moved: seq<Row>, k: nat) returns (i: nat)
    requires DistinctIds(moved) && k < |moved| && InTank(moved[k])
    ensures i < |Tank(moved)| && Tank(moved)[i] == moved[k]
    ensures Recompute(Renumbered(moved, Ids(Tank(moved))))[k].position == Some(Slot(i))
  {
    FoundInTank(moved, moved[k]);
    i := IndexOf(Ids(Tank(moved)), moved[k].id);
  }

  lemma RenumberedRank(moved: seq<Row>, k: nat, l: nat)
    requires DistinctIds(moved) && k < |moved| && l < |moved| && InTank(moved[k]) && InTank(moved[l])
    ensures var after := Recompute(Renumbered(moved, Ids(Tank(moved))));
            && after[k].position.Some? && after[l].position.Some?
            && (after[k].position.value < after[l].position.value <==> Precedes(moved[k], moved[l]))
  {
    var i := RenumberedPlace(moved, k);
    var j := RenumberedPlace(moved, l);
    var tank := Tank(moved);
    assert i < j ==> Precedes(tank[i], tank[j]);
    assert j < i ==> Precedes(tank[j], tank[i]);
  }

  /** When two given positions lie close, the blocks are ranked by where they were to stand, equals by
      id, and stand at 1000, 2000, ... in that rank. */
  lemma ReorderRanksExactly(s: State, items: seq<Item>, k: nat, l: nat, p: real, q: real)
    requires Sound(s) && IsClose(Positions(items))
    requires k < |s.rows| && l < |s.rows| && Stands(s.rows, k, s.rows[k].id) && Stands(s.rows, l, s.rows[l].id)
    requires IsMovedTo(items, s.rows[k], p) && IsMovedTo(items, s.rows[l], q)
    ensures var after := Reorder(s, items).rows;
            && |after| == |s.rows| && after[k].position.Some? && after[l].position.Some?
            && (after[k].position.value < after[l].position.value <==>
                  p < q || (p == q && s.rows[k].id < s.rows[l].id))
  {
    var moved := MovedAll(s.rows, items);
    RebalancesExactly(items);
    MovedKeepsIds(s.rows, items);
    MovedAllRow(s.rows, items, k);
    MovedAllRow(s.rows, items, l);
    GivenOnce(items, s.rows[k], p, moved[k].position.value);
    GivenOnce(items, s.rows[l], q, moved[l].position.value);
    RenumberedRank(moved, k, l);
  }

  lemma RenumberedKeepsOrder(moved: seq<Row>, ids: seq<int>, after: seq<Row>)
    requires DistinctIds(moved) && ids == Ids(Tank(moved)) && after == Recompute(Renumbered(moved, ids))
    ensures DistinctIds(after) && TankIs(after, ids)
  {
    TankIdsAreDistinct(moved);
    forall r | r in moved ensures InTank(r) <==> r.id in ids {
      var k :| 0 <= k < |moved| && moved[k] == r;
      ListedIsInTank(moved, k);
    }
    forall k | 0 <= k < |ids| ensures ids[k] in Ids(moved) {
      TankIdIsListed(moved, k);
    }
    RenumberedOrder(moved, ids);
  }

  lemma RenumberedSlots(moved: seq<Row>, ids: seq<int>, after: seq<Row>, i: nat)
    requires Distinct(ids) && after == Recompute(Renumbered(moved, ids)) && DistinctIds(after)
    requires TankIs(after, ids) && i < |Tank(after)|
    ensures Tank(after)[i].position == Some(Slot(i))
  {
    var r := Tank(after)[i];
    assert r in Tank(after);
    var k :| 0 <= k < |after| && after[k] == r;
    assert Ids(Tank(after))[i] == moved[k].id;
    assert IndexOf(ids, moved[k].id) == i;
  }

  /** The slots are 1000, 2000, ... */
  lemma SlotIsThousands(i: nat)
    ensures Slot(0) == 1000.0 && Slot(i + 1) == Slot(i) + 1000.0
  {
  }

  lemma RenumberedNumbersTank(moved: seq<Row>, ids: seq<int>, after: seq<Row>, i: nat)
    requires DistinctIds(moved) && ids == Ids(Tank(moved)) && after == Recompute(Renumbered(moved, ids))
    requires DistinctIds(after) && i < |Tank(after)|
    ensures Tank(after)[i].position == Some(Slot(i))
  {
    RenumberedKeepsOrder(moved, ids, after);
    TankIdsAreDistinct(moved);
    RenumberedSlots(moved, ids, after, i);
  }

  /** The moved rows, renumbered. */
  lemma RebalancedRows(s: State, items: seq<Item>)
    requires DistinctIds(s.rows) && IsClose(Positions(items))
    ensures var moved := MovedAll(s.rows, items);
            DistinctIds(moved) && Reorder(s, items).rows == Recompute(Renumbered(moved, Ids(Tank(moved))))
  {
    RebalancesExactly(items);
    MovedKeepsIds(s.rows, items);
  }

  /** When two given positions lie close, the i-th block of the tank stands in the i-th slot. */
  lemma ReorderNumbersTank(s: State, items: seq<Item>, after: seq<Row>, i: nat)
    requires Sound(s) && IsClose(Positions(items)) && after == Reorder(s, items).rows
    requires DistinctIds(after) && i < |Tank(after)|
    ensures Tank(after)[i].position == Some(Slot(i))
  {
    RebalancedRows(s, items);
    RenumberedNumbersTank(MovedAll(s.rows, items), Ids(Tank(MovedAll(s.rows, items))), after, i);
  }

  // ===== Funding =====

  /** The water fills a block from the amount planned before it up to its gate. */
  lemma WaterFillsBlock(waterline: nat, r: Row)
    requires r.value > 0
    ensures Funded(waterline, r) == r.value <==> r.gate <= waterline
    ensures Funded(waterline, r) == 0 <==> waterline <= r.gate - r.value
    ensures r.gate - r.value <= waterline <= r.gate ==> Funded(waterline, r) == waterline - (r.gate - r.value)
  {
  }
}
