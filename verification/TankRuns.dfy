/** What every run of tank operations keeps, and what single operations do to the order, the gates
    and the money of the tank (budget-store.js, reward-vault-store.js). */
module TankRuns {
  import opened Options
  import opened TankOrder
  import opened BudgetTank

  // ===== Every operation keeps the tank sound =====

  lemma RecomputedIsSound(s: State)
    requires DistinctIds(s.rows) && OutsidersHaveNoGate(s.rows) && ValuesArePositive(s.rows)
    requires RecurringIsUnlimited(s.rows) && s.bank >= 0
    requires forall k :: 0 <= k < |s.rows| ==> s.rows[k].id < s.nextId
    ensures Sound(s.(rows := Recompute(s.rows)))
  {
    RecomputedGatesAreRight(s.rows);
    var after := Recompute(s.rows);
    assert forall k :: 0 <= k < |after| ==>
        after[k].id == s.rows[k].id && after[k].value == s.rows[k].value
        && after[k].recurring == s.rows[k].recurring && after[k].uses == s.rows[k].uses;
  }

  lemma AppendedIsSound(s: State, value: int, category: string, recurring: bool, claimed: Option<string>)
    requires Sound(s) && value > 0
    ensures Sound(Appended(s, value, category, recurring, claimed))
  {
    RecomputedIsSound(s.(rows := s.rows + [NewRow(s, value, category, recurring, claimed)], nextId := s.nextId + 1));
  }

  lemma UpdateIsSound(s: State, id: int, value: int, category: string, recurring: bool)
    requires Sound(s)
    ensures Sound(Update(s, id, value, category, recurring))
  {
    var k := IndexOf(Ids(s.rows), id);
    if Update(s, id, value, category, recurring) != s {
      RecomputedIsSound(s.(rows := s.rows[k := Edited(s.rows[k], Clamped(value), category, recurring)]));
    }
  }

  lemma RemoveIsSound(s: State, id: int, keepReward: bool)
    requires Sound(s)
    ensures Sound(Remove(s, id, keepReward))
  {
    var k := IndexOf(Ids(s.rows), id);
    if Remove(s, id, keepReward) != s {
      var left := if keepReward then Leaving(s.rows[k]) else Leaving(s.rows[k]).(active := false, deleted := true);
      RecomputedIsSound(s.(rows := s.rows[k := left]));
    }
  }

  lemma RenumberedIsSound(s: State, ids: seq<int>)
    requires DistinctIds(s.rows) && OutsidersHaveNoGate(s.rows) && ValuesArePositive(s.rows)
    requires RecurringIsUnlimited(s.rows) && s.bank >= 0
    requires forall k :: 0 <= k < |s.rows| ==> s.rows[k].id < s.nextId
    requires forall k :: 0 <= k < |s.rows| && s.rows[k].id in ids ==> InTank(s.rows[k])
    ensures Sound(s.(rows := Recompute(Renumbered(s.rows, ids))))
  {
    var after := Renumbered(s.rows, ids);
    assert forall k :: 0 <= k < |after| ==>
        after[k].id == s.rows[k].id && after[k].value == s.rows[k].value && after[k].gate == s.rows[k].gate
        && InTank(after[k]) == InTank(s.rows[k])
        && after[k].recurring == s.rows[k].recurring && after[k].uses == s.rows[k].uses;
    RecomputedIsSound(s.(rows := after));
  }

  lemma ListedIsInTank(rows: seq<Row>, k: nat)
    requires DistinctIds(rows) && k < |rows|
    ensures rows[k].id in Ids(Tank(rows)) <==> InTank(rows[k])
  {
    var tank := Tank(rows);
    assert rows[k] in rows;
    if rows[k].id in Ids(tank) {
      var i := IndexOf(Ids(tank), rows[k].id);
      assert tank[i] in tank;
      RowOfId(rows, rows[k], tank[i]);
    }
    if InTank(rows[k]) {
      assert rows[k] in tank;
      var i :| 0 <= i < |tank| && tank[i] == rows[k];
      assert Ids(tank)[i] == rows[k].id;
    }
  }

  lemma ReorderIsSound(s: State, items: seq<Item>)
    requires Sound(s)
    ensures Sound(Reorder(s, items))
  {
    if items != [] {
      var moved := MovedAll(s.rows, items);
      MovedKeepsIds(s.rows, items);
      assert forall k :: 0 <= k < |moved| ==>
          moved[k].id == s.rows[k].id && moved[k].value == s.rows[k].value && moved[k].gate == s.rows[k].gate
          && InTank(moved[k]) == InTank(s.rows[k])
          && moved[k].recurring == s.rows[k].recurring && moved[k].uses == s.rows[k].uses;
      if NeedsRebalance(items) {
        forall k | 0 <= k < |moved| && moved[k].id in Ids(Tank(moved)) ensures InTank(moved[k]) {
          ListedIsInTank(moved, k);
        }
        RenumberedIsSound(s.(rows := moved), Ids(Tank(moved)));
      } else {
        RecomputedIsSound(s.(rows := moved));
      }
    }
  }

  lemma ClaimIsSound(s: State, id: int, period: string, waterline: nat)
    requires Sound(s)
    ensures Sound(Claim(s, id, period, waterline))
  {
    var after := Claim(s, id, period, waterline);
    forall k | 0 <= k < |after.rows|
      ensures after.rows[k].gate == if InTank(after.rows[k]) then SumUpTo(after.rows, after.rows[k]) else 0
    {
      if InTank(after.rows[k]) {
        SumsDependOnPlaces(s.rows, after.rows, s.rows[k], after.rows[k]);
      }
    }
  }

  // ===== Splitting =====

  /** The rows right before renumbering: the source halved in place and its copy appended. */
  lemma HalvedRows(s: State, r: Row)
    requires Sound(s) && r in s.rows && InTank(r) && MayBeSplit(r)
    ensures var rows := Halved(s, r);
            && |rows| == |s.rows| + 1 && DistinctIds(rows)
            && rows[|s.rows|] == HalfCopy(r, s.nextId)
            && forall k :: 0 <= k < |s.rows| ==>
                 rows[k] == if s.rows[k].id == r.id then r.(value := r.value - r.value / 2) else s.rows[k]
  {
    var k := IndexOf(Ids(s.rows), r.id);
    var i :| 0 <= i < |s.rows| && s.rows[i] == r;
    assert Ids(s.rows)[i] == r.id && i == k;
  }

  lemma TankIdsAreDistinct(rows: seq<Row>)
    requires DistinctIds(rows)
    ensures Distinct(Ids(Tank(rows)))
  {
    var tank := Tank(rows);
    forall a, b | 0 <= a < b < |tank| ensures tank[a].id != tank[b].id {
      assert tank[a] in tank && tank[b] in tank;
      if tank[a].id == tank[b].id {
        RowOfId(rows, tank[a], tank[b]);
      }
    }
  }

  lemma SplitOrderIsDistinct(s: State, i: nat)
    requires Sound(s) && i < |Tank(s.rows)|
    ensures Distinct(SplitOrder(Tank(s.rows), i, s.nextId))
  {
    var tank := Tank(s.rows);
    TankIdsAreDistinct(s.rows);
    forall k | 0 <= k < |tank| ensures Ids(tank)[k] != s.nextId {
      assert tank[k] in tank;
    }
    InsertedIsDistinct(Ids(tank), i + 1, s.nextId);
  }

  lemma InsertedIsDistinct(ids: seq<int>, i: nat, x: int)
    requires Distinct(ids) && i <= |ids| && forall k :: 0 <= k < |ids| ==> ids[k] != x
    ensures Distinct(ids[..i] + [x] + ids[i..])
  {
    var longer := ids[..i] + [x] + ids[i..];
    assert forall k :: 0 <= k < |longer| ==> longer[k] == if k < i then ids[k] else if k == i then x else ids[k - 1];
  }

  lemma InSplitOrder(tank: seq<Row>, i: nat, newId: int, id: int)
    requires i < |tank|
    ensures id in SplitOrder(tank, i, newId) <==> id in Ids(tank) || id == newId
  {
    var ids := Ids(tank);
    assert ids == ids[..i + 1] + ids[i + 1..];
  }

  /** The halved rows meet everything a sound tank needs except right gates. */
  lemma HalvedIsReady(s: State, r: Row)
    requires Sound(s) && r in s.rows && InTank(r) && MayBeSplit(r)
    ensures var rows := Halved(s, r);
            && DistinctIds(rows) && OutsidersHaveNoGate(rows) && ValuesArePositive(rows) && RecurringIsUnlimited(rows)
            && forall k :: 0 <= k < |rows| ==> rows[k].id < s.nextId + 1
  {
    HalvedRows(s, r);
    var rows := Halved(s, r);
    forall k | 0 <= k < |s.rows|
      ensures rows[k].gate == s.rows[k].gate || s.rows[k].id == r.id
      ensures !InTank(rows[k]) ==> rows[k].gate == 0
      ensures InTank(rows[k]) ==> rows[k].value > 0
      ensures rows[k].recurring ==> rows[k].uses.None?
    {
    }
  }

  lemma SplitIsSound(s: State, id: int)
    requires Sound(s)
    ensures Sound(Split(s, id))
  {
    var tank := Tank(s.rows);
    var i := IndexOf(Ids(tank), id);
    if i < |tank| && MayBeSplit(tank[i]) {
      assert tank[i] in tank;
      HalvedIsReady(s, tank[i]);
      var rows := Halved(s, tank[i]);
      ListedHalves(s, i, rows);
      RenumberedIsSound(s.(rows := rows, nextId := s.nextId + 1), SplitOrder(tank, i, s.nextId));
    }
  }

  lemma ListedHalves(s: State, i: nat, rows: seq<Row>)
    requires Sound(s) && i < |Tank(s.rows)| && MayBeSplit(Tank(s.rows)[i]) && rows == Halved(s, Tank(s.rows)[i])
    ensures forall k :: 0 <= k < |rows| && rows[k].id in SplitOrder(Tank(s.rows), i, s.nextId) ==> InTank(rows[k])
  {
    var tank := Tank(s.rows);
    assert tank[i] in tank;
    HalvedRows(s, tank[i]);
    forall k | 0 <= k < |rows| && rows[k].id in SplitOrder(tank, i, s.nextId) ensures InTank(rows[k]) {
      InSplitOrder(tank, i, s.nextId, rows[k].id);
      if k < |s.rows| {
        ListedIsInTank(s.rows, k);
      }
    }
  }

  /** The tank after a split lists the old ids with the copy right behind its source. */
  lemma SplitPlacesCopyBehindSource(s: State, i: nat)
    requires Sound(s) && i < |Tank(s.rows)| && MayBeSplit(Tank(s.rows)[i])
    ensures var after := Split(s, Tank(s.rows)[i].id);
            DistinctIds(after.rows) && TankIs(after.rows, SplitOrder(Tank(s.rows), i, s.nextId))
  {
    var tank := Tank(s.rows);
    assert tank[i] in tank;
    SplitOrderIsDistinct(s, i);
    TankIdsAreDistinct(s.rows);
    assert IndexOf(Ids(tank), Ids(tank)[i]) == i;
    HalvedRows(s, tank[i]);
    var rows, order := Halved(s, tank[i]), SplitOrder(tank, i, s.nextId);
    forall k | 0 <= k < |order| ensures order[k] in Ids(rows) {
      InSplitOrder(tank, i, s.nextId, order[k]);
      if order[k] == s.nextId {
        assert Ids(rows)[|s.rows|] == s.nextId;
      } else {
        var j := IndexOf(Ids(tank), order[k]);
        assert tank[j] in tank;
        var m :| 0 <= m < |s.rows| && s.rows[m] == tank[j];
        assert Ids(rows)[m] == order[k];
      }
    }
    forall r | r in rows ensures (r.id in order ==> !r.deleted) && (InTank(r) ==> r.id in order) {
      var k :| 0 <= k < |rows| && rows[k] == r;
      InSplitOrder(tank, i, s.nextId, r.id);
      if k < |s.rows| {
        ListedIsInTank(s.rows, k);
      }
    }
    RenumberedOrder(rows, order);
  }

  /** The values after a split, by id: the source keeps the larger half, the copy has the rest. */
  ghost predicate ValuesAreSplit(rows: seq<Row>, after: seq<Row>, source: Row, newId: int) {
    forall r :: r in after ==>
      if r.id == newId then r.value == source.value / 2
      else if r.id == source.id then r.value == source.value - source.value / 2
      else exists q :: q in rows && q.id == r.id && q.value == r.value
  }

  lemma SplitValueById(s: State, source: Row, order: seq<int>, r: Row)
    requires Sound(s) && source in s.rows && InTank(source) && MayBeSplit(source)
    requires r in Recompute(Renumbered(Halved(s, source), order))
    ensures if r.id == s.nextId then r.value == source.value / 2
            else if r.id == source.id then r.value == source.value - source.value / 2
            else exists q :: q in s.rows && q.id == r.id && q.value == r.value
  {
    RenumberedKeepsValues(Halved(s, source), order, r);
    var h :| h in Halved(s, source) && h.id == r.id && h.value == r.value;
    HalvedRows(s, source);
    var k :| 0 <= k < |s.rows| + 1 && Halved(s, source)[k] == h;
    assert k < |s.rows| ==> s.rows[k] in s.rows;
  }

  lemma RenumberedKeepsValues(rows: seq<Row>, order: seq<int>, r: Row)
    requires r in Recompute(Renumbered(rows, order))
    ensures exists h :: h in rows && h.id == r.id && h.value == r.value
  {
    var after := Recompute(Renumbered(rows, order));
    var k :| 0 <= k < |after| && after[k] == r;
    assert rows[k] in rows;
  }

  lemma SplitValuesById(s: State, source: Row, order: seq<int>)
    requires Sound(s) && source in s.rows && InTank(source) && MayBeSplit(source)
    ensures ValuesAreSplit(s.rows, Recompute(Renumbered(Halved(s, source), order)), source, s.nextId)
  {
    var after := Recompute(Renumbered(Halved(s, source), order));
    forall r | r in after
      ensures if r.id == s.nextId then r.value == source.value / 2
              else if r.id == source.id then r.value == source.value - source.value / 2
              else exists q :: q in s.rows && q.id == r.id && q.value == r.value
    {
      SplitValueById(s, source, order, r);
    }
  }

  /** One ordered tank is the other with its i-th row split in two. */
  ghost predicate IsSplitOf(after: seq<Row>, tank: seq<Row>, i: nat)
    requires i < |tank|
  {
    && |after| == |tank| + 1
    && (forall k :: 0 <= k < i ==> after[k].id == tank[k].id && after[k].value == tank[k].value)
    && after[i].id == tank[i].id
    && after[i].value == tank[i].value - tank[i].value / 2
    && after[i + 1].value == tank[i].value / 2
    && (forall k :: i < k < |tank| ==> after[k + 1].id == tank[k].id && after[k + 1].value == tank[k].value)
  }

  /** The order after a split, position by position. */
  lemma SplitOrderAt(tank: seq<Row>, i: nat, newId: int, k: nat)
    requires i < |tank| && k <= |tank|
    ensures SplitOrder(tank, i, newId)[k]
         == if k <= i then tank[k].id else if k == i + 1 then newId else tank[k - 1].id
  {
  }

  lemma SplitTankRow(rows: seq<Row>, after: seq<Row>, i: nat, newId: int, k: nat)
    requires DistinctIds(rows) && DistinctIds(after) && i < |Tank(rows)| && k < |Tank(rows)|
    requires forall k :: 0 <= k < |rows| ==> rows[k].id != newId
    requires TankIs(after, SplitOrder(Tank(rows), i, newId))
    requires ValuesAreSplit(rows, after, Tank(rows)[i], newId)
    ensures |Tank(after)| == |Tank(rows)| + 1
    ensures var q, r := Tank(rows)[k], Tank(after)[if k <= i then k else k + 1];
            r.id == q.id && r.value == if k == i then q.value - q.value / 2 else q.value
  {
    var j := if k <= i then k else k + 1;
    var tank, tank' := Tank(rows), Tank(after);
    SplitOrderAt(tank, i, newId, j);
    assert |Ids(tank')| == |tank| + 1 && Ids(tank')[j] == tank'[j].id;
    assert tank[k] in tank && tank'[j] in tank';
    if k != i {
      TankIdsAreDistinct(rows);
      assert Ids(tank)[k] == tank[k].id && Ids(tank)[i] == tank[i].id;
      OtherValueStays(rows, after, tank[i], newId, tank[k], tank'[j]);
    }
  }

  lemma OtherValueStays(rows: seq<Row>, after: seq<Row>, source: Row, newId: int, q: Row, r: Row)
    requires DistinctIds(rows) && ValuesAreSplit(rows, after, source, newId)
    requires q in rows && r in after && r.id == q.id && q.id != source.id && q.id != newId
    ensures r.value == q.value
  {
    var o :| o in rows && o.id == r.id && o.value == r.value;
    RowOfId(rows, o, q);
  }

  lemma SplitTanks(rows: seq<Row>, after: seq<Row>, i: nat, newId: int)
    requires DistinctIds(rows) && DistinctIds(after) && i < |Tank(rows)|
    requires forall k :: 0 <= k < |rows| ==> rows[k].id != newId
    requires TankIs(after, SplitOrder(Tank(rows), i, newId))
    requires ValuesAreSplit(rows, after, Tank(rows)[i], newId)
    ensures IsSplitOf(Tank(after), Tank(rows), i)
  {
    SplitTankRow(rows, after, i, newId, i);
    SplitOrderAt(Tank(rows), i, newId, i + 1);
    assert Ids(Tank(after))[i + 1] == newId && Tank(after)[i + 1] in Tank(after);
    forall k | 0 <= k < |Tank(rows)| && k != i
      ensures var j := if k < i then k else k + 1;
              Tank(after)[j].id == Tank(rows)[k].id && Tank(after)[j].value == Tank(rows)[k].value
    {
      SplitTankRow(rows, after, i, newId, k);
    }
  }

  lemma SplitValueAt(tank: seq<Row>, after: seq<Row>, i: nat, k: nat)
    requires i < |tank| && IsSplitOf(after, tank, i) && k < |after|
    ensures k < i ==> after[k].value == tank[k].value
    ensures k == i ==> after[k].value == tank[i].value - tank[i].value / 2
    ensures k == i + 1 ==> after[k].value == tank[i].value / 2
    ensures k > i + 1 ==> after[k].value == tank[k - 1].value
  {
    if k > i + 1 {
      assert after[k - 1 + 1].value == tank[k - 1].value;
    }
  }

  lemma {:induction false} SplitPrefix(tank: seq<Row>, after: seq<Row>, i: nat, n: nat)
    requires i < |tank| && IsSplitOf(after, tank, i) && n <= |after|
    ensures n <= i ==> Values(after[..n]) == Values(tank[..n])
    ensures n == i + 1 ==> Values(after[..n]) == Values(tank[..i]) + tank[i].value - tank[i].value / 2
    ensures n > i + 1 ==> Values(after[..n]) == Values(tank[..n - 1])
  {
    if n > 0 {
      SplitPrefix(tank, after, i, n - 1);
      SplitPrefixStep(tank, after, i, n - 1);
    }
  }

  lemma SplitPrefixStep(tank: seq<Row>, after: seq<Row>, i: nat, k: nat)
    requires i < |tank| && IsSplitOf(after, tank, i) && k < |after|
    ensures k < i ==> Values(after[..k + 1]) - Values(after[..k]) == Values(tank[..k + 1]) - Values(tank[..k])
    ensures k == i ==> Values(after[..k + 1]) - Values(after[..k]) == tank[i].value - tank[i].value / 2
    ensures k == i + 1 ==> Values(after[..k + 1]) - Values(after[..k]) == Values(tank[..i + 1]) - Values(tank[..i]) - (tank[i].value - tank[i].value / 2)
    ensures k > i + 1 ==> Values(after[..k + 1]) - Values(after[..k]) == Values(tank[..k]) - Values(tank[..k - 1])
  {
    PrefixStep(after, k);
    SplitValueAt(tank, after, i, k);
    if k < i {
      PrefixStep(tank, k);
    } else if k > i {
      PrefixStep(tank, k - 1);
    }
  }

  lemma PrefixStep(rows: seq<Row>, n: nat)
    requires n < |rows|
    ensures Values(rows[..n + 1]) == Values(rows[..n]) + rows[n].value
  {
    assert rows[..n + 1][..n] == rows[..n];
  }

  /** The copy takes the old gate of its source and no other gate moves. */
  ghost predicate GatesStay(after: seq<Row>, tank: seq<Row>, i: nat)
    requires i < |tank| && |after| == |tank| + 1
  {
    && after[i + 1].gate == tank[i].gate
    && (forall k :: 0 <= k < i ==> after[k].gate == tank[k].gate)
    && (forall k :: i < k < |tank| ==> after[k + 1].gate == tank[k].gate)
  }

  lemma SplitGateAt(tank: seq<Row>, after: seq<Row>, i: nat, k: nat, j: nat)
    requires i < |tank| && IsSplitOf(after, tank, i) && k < |tank| && j == if k < i then k else k + 1
    requires tank[k].gate == Values(tank[..k + 1]) && after[j].gate == Values(after[..j + 1])
    ensures after[j].gate == tank[k].gate
  {
    SplitPrefix(tank, after, i, j + 1);
  }

  lemma SplitKeepsGate(rows: seq<Row>, after: seq<Row>, i: nat, k: nat)
    requires DistinctIds(rows) && GatesAreRight(rows) && DistinctIds(after) && GatesAreRight(after)
    requires i < |Tank(rows)| && IsSplitOf(Tank(after), Tank(rows), i) && k < |Tank(rows)|
    ensures Tank(after)[if k < i then k else k + 1].gate == Tank(rows)[k].gate
  {
    var j := if k < i then k else k + 1;
    GateIsPrefixSum(rows, k);
    GateIsPrefixSum(after, j);
    SplitGateAt(Tank(rows), Tank(after), i, k, j);
  }

  lemma SplitKeepsPlans(rows: seq<Row>, after: seq<Row>, i: nat)
    requires DistinctIds(rows) && DistinctIds(after) && i < |Tank(rows)| && IsSplitOf(Tank(after), Tank(rows), i)
    ensures Planned(after) == Planned(rows)
  {
    var old', new' := Tank(rows), Tank(after);
    SplitPrefix(old', new', i, |new'|);
    assert old'[..|old'|] == old' && new'[..|new'|] == new';
    TankKeepsSums(rows, old'[0]);
    TankKeepsSums(after, new'[0]);
  }

  lemma SplitKeepsGates(rows: seq<Row>, after: seq<Row>, i: nat)
    requires DistinctIds(rows) && GatesAreRight(rows) && DistinctIds(after) && GatesAreRight(after)
    requires i < |Tank(rows)| && IsSplitOf(Tank(after), Tank(rows), i)
    ensures GatesStay(Tank(after), Tank(rows), i)
  {
    forall k | 0 <= k < |Tank(rows)|
      ensures Tank(after)[if k < i then k else k + 1].gate == Tank(rows)[k].gate
    {
      SplitKeepsGate(rows, after, i, k);
    }
  }

  /** A split conserves what is planned, leaves two positive parts that add up to the source, puts
      the copy right behind the source with the source's old gate, and changes no other gate and
      no order, although every position is renumbered. */
  lemma SplitConserves(s: State, i: nat)
    requires Sound(s) && i < |Tank(s.rows)| && MayBeSplit(Tank(s.rows)[i])
    ensures var tank, after := Tank(s.rows), Split(s, Tank(s.rows)[i].id).rows;
            && DistinctIds(after) && TankIs(after, SplitOrder(tank, i, s.nextId))
            && Planned(after) == Planned(s.rows)
            && IsSplitOf(Tank(after), tank, i)
            && Tank(after)[i].value > 0 && Tank(after)[i + 1].value > 0
            && GatesStay(Tank(after), tank, i)
  {
    var tank, after := Tank(s.rows), Split(s, Tank(s.rows)[i].id).rows;
    assert tank[i] in tank;
    TankIdsAreDistinct(s.rows);
    assert IndexOf(Ids(tank), Ids(tank)[i]) == i;
    SplitIsSound(s, tank[i].id);
    SplitPlacesCopyBehindSource(s, i);
    SplitValuesById(s, tank[i], SplitOrder(tank, i, s.nextId));
    SplitTanks(s.rows, after, i, s.nextId);
    SplitKeepsGates(s.rows, after, i);
    SplitKeepsPlans(s.rows, after, i);
  }

  /** Exactly the rows of the tank of at least two cents that are not claimed and have a number of
      uses left can be split. */
  lemma SplitsExactlyTheUnclaimed(s: State, id: int)
    requires Sound(s)
    ensures Split(s, id) != s <==>
            exists r :: r in s.rows && r.id == id && InTank(r) && r.value >= 2 && r.claimed.None?
              && r.uses.Some? && r.uses.value != 0
  {
    var tank := Tank(s.rows);
    var i := IndexOf(Ids(tank), id);
    if r :| r in s.rows && r.id == id && InTank(r) && r.value >= 2 && r.claimed.None? && r.uses.Some? && r.uses.value != 0 {
      FoundInTank(s.rows, r);
    }
    if i < |tank| {
      assert tank[i] in tank;
    }
  }

  lemma FoundInTank(rows: seq<Row>, r: Row)
    requires DistinctIds(rows) && r in rows && InTank(r)
    ensures var i := IndexOf(Ids(Tank(rows)), r.id); i < |Tank(rows)| && Tank(rows)[i] == r
  {
    var tank := Tank(rows);
    assert r in tank;
    var k :| 0 <= k < |tank| && tank[k] == r;
    assert Ids(tank)[k] == r.id;
    var i := IndexOf(Ids(tank), r.id);
    assert tank[i] in tank;
    RowOfId(rows, tank[i], r);
  }

  /** For that reason a recurring purchase is never split, although the copy of a recurring row is
      provided for. */
  lemma RecurringIsNeverSplit(s: State, r: Row)
    requires Sound(s) && r in s.rows && r.recurring
    ensures Split(s, r.id) == s
  {
    if Split(s, r.id) != s {
      SplitsExactlyTheUnclaimed(s, r.id);
      var q :| q in s.rows && q.id == r.id && q.uses.Some?;
      RowOfId(s.rows, r, q);
    }
  }

  // ===== Rolling over =====

  lemma {:induction false} StayingIsFromTank(tank: seq<Row>, carry: bool, recurring: bool, id: int)
    ensures id in Staying(tank, carry, recurring) <==>
              exists k :: 0 <= k < |tank| && tank[k].id == id && !Leaves(tank[k], carry) && tank[k].recurring == recurring
  {
    if tank != [] {
      var front, last := tank[..|tank| - 1], tank[|tank| - 1];
      StayingIsFromTank(front, carry, recurring, id);
      if id in Staying(front, carry, recurring) {
        var k :| 0 <= k < |front| && front[k].id == id && !Leaves(front[k], carry) && front[k].recurring == recurring;
        assert tank[k] == front[k];
      }
      if k :| 0 <= k < |tank| && tank[k].id == id && !Leaves(tank[k], carry) && tank[k].recurring == recurring {
        if k < |front| {
          assert front[k] == tank[k];
        }
      }
    }
  }

  lemma {:induction false} StayingIsDistinct(tank: seq<Row>, carry: bool, recurring: bool)
    requires Distinct(Ids(tank))
    ensures Distinct(Staying(tank, carry, recurring))
  {
    if tank != [] {
      var front, last := tank[..|tank| - 1], tank[|tank| - 1];
      assert forall k :: 0 <= k < |front| ==> Ids(front)[k] == Ids(tank)[k];
      StayingIsDistinct(front, carry, recurring);
      StayingIsFromTank(front, carry, recurring, last.id);
      assert forall k :: 0 <= k < |front| ==> Ids(tank)[k] != Ids(tank)[|front|];
      assert last.id !in Staying(front, carry, recurring);
      assert forall k :: 0 <= k < |Staying(front, carry, recurring)| ==>
          Staying(front, carry, recurring)[k] in Staying(front, carry, recurring);
    }
  }

  lemma InNewOrder(rows: seq<Row>, carry: bool, r: Row)
    requires DistinctIds(rows) && r in rows
    ensures r.id in NewOrder(Tank(rows), carry) <==> InTank(r) && !Leaves(r, carry)
  {
    var tank := Tank(rows);
    StayingIsFromTank(tank, carry, false, r.id);
    StayingIsFromTank(tank, carry, true, r.id);
    if r.id in NewOrder(tank, carry) {
      var recurring := r.id !in Staying(tank, carry, false);
      var k :| 0 <= k < |tank| && tank[k].id == r.id && !Leaves(tank[k], carry) && tank[k].recurring == recurring;
      assert tank[k] in tank;
      RowOfId(rows, r, tank[k]);
    }
    if InTank(r) && !Leaves(r, carry) {
      assert r in tank;
      var k :| 0 <= k < |tank| && tank[k] == r;
      assert tank[k].recurring == r.recurring;
    }
  }

  lemma NewOrderIsDistinct(rows: seq<Row>, carry: bool)
    requires DistinctIds(rows)
    ensures Distinct(NewOrder(Tank(rows), carry))
  {
    var tank := Tank(rows);
    TankIdsAreDistinct(rows);
    StayingIsDistinct(tank, carry, false);
    StayingIsDistinct(tank, carry, true);
    var once, again := Staying(tank, carry, false), Staying(tank, carry, true);
    forall a, b | 0 <= a < |once| && 0 <= b < |again| ensures once[a] != again[b] {
      StayingIsFromTank(tank, carry, false, once[a]);
      StayingIsFromTank(tank, carry, true, again[b]);
      var i :| 0 <= i < |tank| && tank[i].id == once[a] && !tank[i].recurring;
      var j :| 0 <= j < |tank| && tank[j].id == again[b] && tank[j].recurring;
      assert Ids(tank)[i] == tank[i].id && Ids(tank)[j] == tank[j].id;
    }
  }

  /** The ids of the new order belong to rows. */
  lemma NewOrderIsOfRows(s: State, carry: bool, k: nat)
    requires Sound(s) && k < |NewOrder(Tank(s.rows), carry)|
    ensures NewOrder(Tank(s.rows), carry)[k] in Ids(s.rows)
  {
    var tank, order := Tank(s.rows), NewOrder(Tank(s.rows), carry);
    var recurring := k >= |Staying(tank, carry, false)|;
    assert order[k] in Staying(tank, carry, recurring);
    StayingIsFromTank(tank, carry, recurring, order[k]);
    var j :| 0 <= j < |tank| && tank[j].id == order[k];
    TankIdIsListed(s.rows, j);
  }

  /** The rows that are left once the leavers are gone, and the new order of the rest. */
  lemma StayersAreListed(s: State, carry: bool)
    requires Sound(s)
    ensures var rows, order := WithoutLeavers(s.rows, carry), NewOrder(Tank(s.rows), carry);
            && Ids(rows) == Ids(s.rows)
            && (forall r :: r in rows ==> (r.id in order <==> InTank(r)))
            && (forall k :: 0 <= k < |order| ==> order[k] in Ids(rows))
  {
    var rows, order := WithoutLeavers(s.rows, carry), NewOrder(Tank(s.rows), carry);
    assert Ids(rows) == Ids(s.rows);
    forall r | r in rows ensures r.id in order <==> InTank(r) {
      var k :| 0 <= k < |rows| && rows[k] == r;
      assert s.rows[k] in s.rows;
      InNewOrder(s.rows, carry, s.rows[k]);
    }
    forall k | 0 <= k < |order| ensures order[k] in Ids(rows) {
      NewOrderIsOfRows(s, carry, k);
    }
  }

  lemma LeftRowsAreReady(s: State, carry: bool)
    requires Sound(s)
    ensures var rows := WithoutLeavers(s.rows, carry);
            && DistinctIds(rows) && OutsidersHaveNoGate(rows) && ValuesArePositive(rows) && RecurringIsUnlimited(rows)
            && forall k :: 0 <= k < |rows| ==> rows[k].id < s.nextId
  {
    var rows := WithoutLeavers(s.rows, carry);
    assert forall k :: 0 <= k < |rows| ==> rows[k].value == s.rows[k].value && rows[k].id == s.rows[k].id;
  }

  lemma RolloverIsSound(s: State, carry: bool)
    requires Sound(s)
    ensures Sound(Rollover(s, carry))
  {
    var rows, order := WithoutLeavers(s.rows, carry), NewOrder(Tank(s.rows), carry);
    LeftRowsAreReady(s, carry);
    StayersAreListed(s, carry);
    assert forall k :: 0 <= k < |rows| ==> rows[k] in rows;
    RenumberedIsSound(s.(rows := rows), order);
  }

  /** After a rollover the tank lists the unclaimed one-off purchases first and the recurring ones
      behind them, both in their old order; everything else has left the tank. */
  lemma RolloverReordersTank(s: State, carry: bool)
    requires Sound(s)
    ensures DistinctIds(Rollover(s, carry).rows)
    ensures TankIs(Rollover(s, carry).rows, NewOrder(Tank(s.rows), carry))
  {
    LeftRowsAreReady(s, carry);
    StayersAreListed(s, carry);
    NewOrderIsDistinct(s.rows, carry);
    RenumberedOrder(WithoutLeavers(s.rows, carry), NewOrder(Tank(s.rows), carry));
  }

  /** The tank after a rollover. */
  ghost function RolledOver(s: State, carry: bool): seq<Row>
    requires Sound(s)
  {
    RolloverIsSound(s, carry);
    Tank(Rollover(s, carry).rows)
  }

  lemma RolledOverIds(s: State, carry: bool)
    requires Sound(s)
    ensures Ids(RolledOver(s, carry)) == NewOrder(Tank(s.rows), carry)
  {
    RolloverReordersTank(s, carry);
  }

  lemma RenumberedMovesOnly(rows: seq<Row>, carry: bool, ids: seq<int>, k: nat)
    requires k < |rows|
    requires var left := WithoutLeavers(rows, carry)[k]; left.id in ids ==> InTank(left)
    ensures var after := Recompute(Renumbered(WithoutLeavers(rows, carry), ids))[k];
            after == rows[k].(position := after.position, gate := after.gate) && (InTank(after) ==> InTank(rows[k]))
  {
  }

  /** A rollover changes nothing of any row but its place and its gate. */
  lemma RolloverMovesOnly(s: State, carry: bool, k: nat)
    requires Sound(s) && k < |s.rows|
    ensures |Rollover(s, carry).rows| == |s.rows|
    ensures var after := Rollover(s, carry).rows[k];
            after == s.rows[k].(position := after.position, gate := after.gate)
    ensures InTank(Rollover(s, carry).rows[k]) ==> InTank(s.rows[k])
  {
    var left := WithoutLeavers(s.rows, carry);
    StayersAreListed(s, carry);
    assert left[k] in left;
    RenumberedMovesOnly(s.rows, carry, NewOrder(Tank(s.rows), carry), k);
  }

  /** A row of the tank after a rollover is a row of the tank before it, at another place. */
  lemma RolledOverRow(s: State, carry: bool, q: Row)
    requires Sound(s) && q in RolledOver(s, carry)
    ensures exists r :: r in Tank(s.rows) && r.id == q.id && r.recurring == q.recurring
  {
    var after := Rollover(s, carry).rows;
    RolloverIsSound(s, carry);
    assert q in after;
    var k :| 0 <= k < |after| && after[k] == q;
    RolloverMovesOnly(s, carry, 0);
    RolloverMovesOnly(s, carry, k);
    assert s.rows[k] in s.rows && s.rows[k] in Tank(s.rows);
  }

  /** One id stands before another in a tank. */
  ghost predicate StandsBefore(tank: seq<Row>, a: int, b: int) {
    exists k, l :: 0 <= k < l < |tank| && tank[k].id == a && tank[l].id == b
  }

  lemma StoodBefore(tank: seq<Row>, n: nat, a: int, b: int)
    requires n <= |tank| && StandsBefore(tank[..n], a, b)
    ensures StandsBefore(tank, a, b)
  {
    var k, l :| 0 <= k < l < n && tank[..n][k].id == a && tank[..n][l].id == b;
    assert tank[k].id == a && tank[l].id == b;
  }

  lemma LastStandsBehind(tank: seq<Row>, carry: bool, recurring: bool, a: int)
    requires tank != [] && a in Staying(tank[..|tank| - 1], carry, recurring)
    ensures StandsBefore(tank, a, tank[|tank| - 1].id)
  {
    var n := |tank| - 1;
    StayingIsFromTank(tank[..n], carry, recurring, a);
    var k :| 0 <= k < n && tank[..n][k].id == a;
    assert tank[k].id == a && tank[n].id == tank[n].id;
  }

  /** The lists keep the order of the tank. */
  lemma {:induction false} StayingKeepsOrder(tank: seq<Row>, carry: bool, recurring: bool, i: nat, j: nat)
    requires i < j < |Staying(tank, carry, recurring)|
    ensures StandsBefore(tank, Staying(tank, carry, recurring)[i], Staying(tank, carry, recurring)[j])
  {
    var n := |tank| - 1;
    var front := Staying(tank[..n], carry, recurring);
    if j < |front| {
      StayingKeepsOrder(tank[..n], carry, recurring, i, j);
      StoodBefore(tank, n, front[i], front[j]);
    } else {
      assert front[i] in front;
      LastStandsBehind(tank, carry, recurring, front[i]);
    }
  }

  lemma NewOrderKeepsOrder(tank: seq<Row>, carry: bool, i: nat, j: nat)
    requires i < j < |NewOrder(tank, carry)|
    requires j < |Staying(tank, carry, false)| || i >= |Staying(tank, carry, false)|
    ensures StandsBefore(tank, NewOrder(tank, carry)[i], NewOrder(tank, carry)[j])
  {
    var m := |Staying(tank, carry, false)|;
    if j < m {
      StayingKeepsOrder(tank, carry, false, i, j);
    } else {
      StayingKeepsOrder(tank, carry, true, i - m, j - m);
    }
  }

  /** The i-th row of the rolled-over tank comes from the list of its kind. */
  lemma RolledOverKind(s: State, carry: bool, after: seq<Row>, order: seq<int>, i: nat)
    requires Sound(s) && after == RolledOver(s, carry) && order == NewOrder(Tank(s.rows), carry) && i < |after|
    ensures Ids(after) == order
    ensures after[i].recurring <==> i >= |Staying(Tank(s.rows), carry, false)|
  {
    RolledOverIds(s, carry);
    var once := Staying(Tank(s.rows), carry, false);
    assert after[i].id == order[i] && after[i] in after;
    RolledOverRow(s, carry, after[i]);
    var r :| r in Tank(s.rows) && r.id == after[i].id && r.recurring == after[i].recurring;
    KindOfListed(s, carry, r, i >= |once|);
  }

  lemma KindOfListed(s: State, carry: bool, r: Row, recurring: bool)
    requires Sound(s) && r in Tank(s.rows) && r.id in Staying(Tank(s.rows), carry, recurring)
    ensures r.recurring == recurring
  {
    var tank := Tank(s.rows);
    StayingIsFromTank(tank, carry, recurring, r.id);
    var k :| 0 <= k < |tank| && tank[k].id == r.id && tank[k].recurring == recurring;
    assert tank[k] in tank;
    RowOfId(s.rows, r, tank[k]);
  }

  /** Exactly the recurring purchases stay in the tank, and with a carry-over the unclaimed ones. */
  lemma RolloverKeepsExactly(s: State, carry: bool, r: Row)
    requires Sound(s) && r in s.rows && InTank(r)
    ensures (exists q :: q in RolledOver(s, carry) && q.id == r.id)
            <==> r.recurring || (carry && r.claimed.None?)
  {
    RolledOverIds(s, carry);
    InNewOrder(s.rows, carry, r);
    ListedById(RolledOver(s, carry), NewOrder(Tank(s.rows), carry), r.id);
  }

  lemma ListedById(rows: seq<Row>, ids: seq<int>, id: int)
    requires Ids(rows) == ids
    ensures (exists q :: q in rows && q.id == id) <==> id in ids
  {
    if q :| q in rows && q.id == id {
      var k :| 0 <= k < |rows| && rows[k] == q;
      assert ids[k] == id;
    }
    if id in ids {
      var k :| 0 <= k < |ids| && ids[k] == id;
      assert rows[k] in rows && rows[k].id == id;
    }
  }

  /** What stays keeps everything but its place and gate; one-off purchases stand before recurring
      ones, and purchases of one kind stand in their old order. */
  lemma RolloverOrdersTank(s: State, carry: bool, i: nat, j: nat)
    requires Sound(s) && i < j < |RolledOver(s, carry)|
    ensures var tank, after := Tank(s.rows), RolledOver(s, carry);
            && (after[i].recurring ==> after[j].recurring)
            && (after[i].recurring == after[j].recurring ==> StandsBefore(tank, after[i].id, after[j].id))
  {
    var after, order := RolledOver(s, carry), NewOrder(Tank(s.rows), carry);
    RolledOverKind(s, carry, after, order, i);
    RolledOverKind(s, carry, after, order, j);
    assert order[i] == after[i].id && order[j] == after[j].id;
    if after[i].recurring == after[j].recurring {
      NewOrderKeepsOrder(Tank(s.rows), carry, i, j);
    }
  }

  // ===== Adding, and spinning the overflow =====

  /** A new row goes to the end of the tank, and its gate is everything planned. */
  lemma AppendedGoesLast(s: State, value: int, category: string, recurring: bool, claimed: Option<string>)
    requires Sound(s) && value > 0
    ensures var after := Appended(s, value, category, recurring, claimed);
            && Sound(after)
            && Planned(after.rows) == Planned(s.rows) + value
            && TankIs(after.rows, Ids(Tank(s.rows)) + [s.nextId])
            && after.rows[|s.rows|].gate == Planned(after.rows)
  {
    var r := NewRow(s, value, category, recurring, claimed);
    var rows := s.rows + [r];
    var after := Recompute(rows);
    AppendedIsSound(s, value, category, recurring, claimed);
    assert rows[..|s.rows|] == s.rows;
    PlansDependOnPlaces(rows, after);
    NewRowIsLast(s, r);
    AppendedOrder(s, r, after);
    var tank := Tank(after);
    var n := |tank| - 1;
    assert Ids(tank)[n] == s.nextId && tank[n] in tank;
    RowOfId(after, tank[n], after[|s.rows|]);
    GateIsPrefixSum(after, n);
    assert tank[..n + 1] == tank;
    TankKeepsSums(after, tank[0]);
  }

  lemma NewRowIsLast(s: State, r: Row)
    requires Sound(s) && r.position == Some(NextPosition(s.rows))
    ensures forall q :: q in s.rows && InTank(q) ==> Precedes(q, r)
  {
    MaxPositionIsMax(s.rows);
  }

  /** A row after an append is the new row or has kept its place. */
  lemma AppendedRow(s: State, r: Row, q: Row)
    requires DistinctIds(s.rows) && q in Recompute(s.rows + [r])
    ensures SamePlace(q, r) || exists old' :: old' in s.rows && SamePlace(q, old')
  {
    var after := Recompute(s.rows + [r]);
    var k :| 0 <= k < |after| && after[k] == q;
    if k < |s.rows| {
      assert s.rows[k] in s.rows && SamePlace(q, s.rows[k]);
    }
  }

  lemma AppendedIds(s: State, r: Row, id: int)
    requires id in Ids(s.rows) || id == r.id
    ensures id in Ids(Recompute(s.rows + [r]))
  {
    var after := Recompute(s.rows + [r]);
    if id == r.id {
      assert Ids(after)[|s.rows|] == id;
    } else {
      assert Ids(after)[IndexOf(Ids(s.rows), id)] == id;
    }
  }

  lemma TankIdIsListed(rows: seq<Row>, k: nat)
    requires DistinctIds(rows) && k < |Tank(rows)|
    ensures Tank(rows)[k].id in Ids(rows)
  {
    assert Tank(rows)[k] in Tank(rows);
    var m :| 0 <= m < |rows| && rows[m] == Tank(rows)[k];
    assert Ids(rows)[m] == Tank(rows)[k].id;
  }

  lemma AppendedPlace(s: State, r: Row, q: Row, k: nat)
    requires Sound(s) && r.id == s.nextId && q in Recompute(s.rows + [r]) && k <= |Tank(s.rows)|
    requires q.id == (Ids(Tank(s.rows)) + [s.nextId])[k]
    ensures SamePlace(q, if k < |Tank(s.rows)| then Tank(s.rows)[k] else r)
  {
    var tank := Tank(s.rows);
    AppendedRow(s, r, q);
    assert forall o :: o in s.rows ==> o.id < s.nextId;
    if k < |tank| {
      assert tank[k] in tank;
      var o :| o in s.rows && SamePlace(q, o);
      RowOfId(s.rows, o, tank[k]);
    }
  }

  lemma AppendedOrder(s: State, r: Row, after: seq<Row>)
    requires Sound(s) && r.id == s.nextId && InTank(r) && after == Recompute(s.rows + [r]) && DistinctIds(after)
    requires forall q :: q in s.rows && InTank(q) ==> Precedes(q, r)
    ensures TankIs(after, Ids(Tank(s.rows)) + [s.nextId])
  {
    var tank := Tank(s.rows);
    var ids := Ids(tank) + [s.nextId];
    forall k | 0 <= k < |ids| ensures ids[k] in Ids(after) {
      if k < |tank| {
        TankIdIsListed(s.rows, k);
      }
      AppendedIds(s, r, ids[k]);
    }
    forall q | q in after ensures InTank(q) <==> q.id in ids {
      AppendedRow(s, r, q);
      if !SamePlace(q, r) {
        var q' :| q' in s.rows && SamePlace(q, q');
        var k :| 0 <= k < |s.rows| && s.rows[k] == q';
        ListedIsInTank(s.rows, k);
      }
    }
    var picked := Pick(after, ids);
    forall i, j | 0 <= i < j < |picked|
      ensures picked[i].position.Some? && picked[j].position.Some? && Precedes(picked[i], picked[j])
    {
      AppendedPlace(s, r, picked[i], i);
      AppendedPlace(s, r, picked[j], j);
      assert tank[i] in tank;
    }
    ListedOrderIsTankOrder(after, ids);
  }

  /** A spin keeps planned spending within the waterline: its clone stands last, under water, and
      is paid for in full out of the reserve. */
  lemma SpinStaysUnderWater(s: State, value: int, category: string, period: string, waterline: nat)
    requires Sound(s) && Spin(s, value, category, period, waterline) != s
    ensures var after := Spin(s, value, category, period, waterline);
            && Sound(after)
            && Planned(after.rows) == Planned(s.rows) + value <= waterline
            && after.rows[|s.rows|].gate == Planned(after.rows)
            && after.rows[|s.rows|].claimed == Some(period)
            && after.bank == s.bank - value >= 0
  {
    AppendedGoesLast(s, value, category, false, Some(period));
  }

  // ===== Claims between two changes of the tank =====

  /** What happens between two tank or settings changes of one period: claims, and deposits that
      raise the reserve and the water. */
  datatype Event = ClaimOf(id: int) | Deposit(cents: nat, water: nat)

  datatype Flow = Flow(state: State, waterline: nat, debited: int)

  function After(f: Flow, period: string, e: Event): Flow {
    match e
    case ClaimOf(id) =>
      var next := Claim(f.state, id, period, f.waterline);
      Flow(next, f.waterline, f.debited + f.state.bank - next.bank)
    case Deposit(cents, water) => Flow(f.state.(bank := f.state.bank + cents), f.waterline + water, f.debited)
  }

  function AfterAll(f: Flow, period: string, events: seq<Event>): Flow
    decreases |events|
  {
    if events == [] then f else AfterAll(After(f, period, events[0]), period, events[1..])
  }

  /** The rows of the tank claimed for the period since `before`. */
  predicate ClaimedMeanwhile(before: Row, r: Row, period: string) {
    InTank(r) && before.claimed != Some(period) && r.claimed == Some(period)
  }

  function ClaimedSince(before: seq<Row>, rows: seq<Row>, period: string): int
    requires |before| == |rows|
  {
    if rows == [] then 0
    else
      var n := |rows| - 1;
      ClaimedSince(before[..n], rows[..n], period) + (if ClaimedMeanwhile(before[n], rows[n], period) then rows[n].value else 0)
  }

  ghost predicate OnlyClaims(before: seq<Row>, f: Flow, period: string) {
    && |before| == |f.state.rows|
    && Sound(f.state)
    && (forall k :: 0 <= k < |before| ==>
          f.state.rows[k].claimed == before[k].claimed || f.state.rows[k].claimed == Some(period))
    && (forall k :: 0 <= k < |before| && ClaimedMeanwhile(before[k], f.state.rows[k], period) ==>
          f.state.rows[k].gate <= f.waterline)
    && f.debited == ClaimedSince(before, f.state.rows, period)
  }

  lemma {:induction false} OneMoreClaimed(before: seq<Row>, rows: seq<Row>, period: string, k: nat)
    requires |before| == |rows| && k < |rows| && InTank(rows[k])
    requires before[k].claimed != Some(period) && rows[k].claimed != Some(period)
    ensures ClaimedSince(before, rows[k := Claimed(rows[k], period)], period)
         == ClaimedSince(before, rows, period) + rows[k].value
  {
    var n := |rows| - 1;
    var after := rows[k := Claimed(rows[k], period)];
    if k == n {
      assert after[..n] == rows[..n];
    } else {
      OneMoreClaimed(before[..n], rows[..n], period, k);
      assert after[..n] == rows[..n][k := Claimed(rows[k], period)];
    }
  }

  lemma EventKeepsClaims(before: seq<Row>, f: Flow, period: string, e: Event)
    requires OnlyClaims(before, f, period)
    ensures OnlyClaims(before, After(f, period, e), period)
  {
    if e.ClaimOf? && After(f, period, e) != f {
      ClaimIsSound(f.state, e.id, period, f.waterline);
      var k := IndexOf(Ids(f.state.rows), e.id);
      OneMoreClaimed(before, f.state.rows, period, k);
    }
  }

  lemma {:induction false} EventsKeepClaims(before: seq<Row>, f: Flow, period: string, events: seq<Event>)
    requires OnlyClaims(before, f, period)
    ensures OnlyClaims(before, AfterAll(f, period, events), period)
    decreases |events|
  {
    if events != [] {
      EventKeepsClaims(before, f, period, events[0]);
      EventsKeepClaims(before, After(f, period, events[0]), period, events[1..]);
    }
  }

  lemma {:induction false} NothingClaimedYet(rows: seq<Row>, period: string)
    ensures ClaimedSince(rows, rows, period) == 0
  {
    if rows != [] {
      NothingClaimedYet(rows[..|rows| - 1], period);
    }
  }

  /** The water that covers the rows of the tank, in whatever order they are summed. */
  function Covered(waterline: int, rows: seq<Row>): int {
    if rows == [] then 0
    else
      var last := rows[|rows| - 1];
      Covered(waterline, rows[..|rows| - 1]) + (if InTank(last) then Funded(waterline, last) else 0)
  }

  lemma {:induction false} InsertKeepsFunding(rows: seq<Row>, r: Row, waterline: int)
    requires InTank(r) && AllInTank(rows) && Ordered(rows) && forall k :: 0 <= k < |rows| ==> rows[k].id != r.id
    ensures FundedAll(waterline, Insert(rows, r)) == FundedAll(waterline, rows) + Funded(waterline, r)
  {
    if rows == [] || Precedes(rows[|rows| - 1], r) {
      assert (rows + [r])[..|rows|] == rows;
    } else {
      var front, last := rows[..|rows| - 1], rows[|rows| - 1];
      InsertKeepsFunding(front, r, waterline);
      assert (Insert(front, r) + [last])[..|rows|] == Insert(front, r);
    }
  }

  lemma {:induction false} CoveredIsFunded(rows: seq<Row>, waterline: int)
    requires DistinctIds(rows)
    ensures Covered(waterline, rows) == FundedAll(waterline, Tank(rows))
  {
    if rows != [] {
      var front, last := rows[..|rows| - 1], rows[|rows| - 1];
      CoveredIsFunded(front, waterline);
      if InTank(last) {
        assert forall k :: 0 <= k < |Tank(front)| ==> Tank(front)[k] in front;
        InsertKeepsFunding(Tank(front), last, waterline);
      }
    }
  }

  lemma {:induction false} ClaimsAreCovered(before: seq<Row>, rows: seq<Row>, period: string, waterline: nat)
    requires |before| == |rows|
    requires forall k :: 0 <= k < |rows| && ClaimedMeanwhile(before[k], rows[k], period) ==> rows[k].gate <= waterline
    ensures ClaimedSince(before, rows, period) <= Covered(waterline, rows)
  {
    if rows != [] {
      var n := |rows| - 1;
      ClaimsAreCovered(before[..n], rows[..n], period, waterline);
    }
  }

  /** Whatever is claimed and deposited within one period without a change of the tank, the claims
      debit at most the waterline. */
  lemma ClaimsStayUnderWater(s: State, waterline: nat, period: string, events: seq<Event>)
    requires Sound(s)
    ensures var f := AfterAll(Flow(s, waterline, 0), period, events);
            Sound(f.state) && 0 <= f.state.bank && f.debited <= f.waterline
  {
    NothingClaimedYet(s.rows, period);
    EventsKeepClaims(s.rows, Flow(s, waterline, 0), period, events);
    var f := AfterAll(Flow(s, waterline, 0), period, events);
    ClaimsAreCovered(s.rows, f.state.rows, period, f.waterline);
    CoveredIsFunded(f.state.rows, f.waterline);
    FundingIsExact(f.state.rows, f.waterline);
  }

  // ===== Runs =====

  datatype Op =
    | DoAdd(value: int, category: string, recurring: bool)
    | DoClone(value: int, category: string)
    | DoSpin(value: int, category: string, period: string, waterline: nat)
    | DoUpdate(id: int, value: int, category: string, recurring: bool)
    | DoRemove(id: int, keepReward: bool)
    | DoReorder(items: seq<Item>)
    | DoSplit(id: int)
    | DoClaim(id: int, period: string, waterline: nat)
    | DoRollover(carry: bool)
    | DoDeposit(cents: nat)

  function Do(s: State, op: Op): State
    requires Sound(s)
  {
    match op
    case DoAdd(value, category, recurring) => Add(s, value, category, recurring)
    case DoClone(value, category) => Clone(s, value, category)
    case DoSpin(value, category, period, waterline) => Spin(s, value, category, period, waterline)
    case DoUpdate(id, value, category, recurring) => Update(s, id, value, category, recurring)
    case DoRemove(id, keepReward) => Remove(s, id, keepReward)
    case DoReorder(items) => Reorder(s, items)
    case DoSplit(id) => Split(s, id)
    case DoClaim(id, period, waterline) => Claim(s, id, period, waterline)
    case DoRollover(carry) => Rollover(s, carry)
    case DoDeposit(cents) => s.(bank := s.bank + cents)
  }

  lemma OpIsSound(s: State, op: Op)
    requires Sound(s)
    ensures Sound(Do(s, op))
  {
    match op
    case DoAdd(value, category, recurring) =>
      if Clamped(value) > 0 {
        AppendedIsSound(s, Clamped(value), category, recurring, None);
      }
    case DoClone(value, category) => if value > 0 { AppendedIsSound(s, value, category, false, None); }
    case DoSpin(value, category, period, waterline) => if value > 0 { AppendedIsSound(s, value, category, false, Some(period)); }
    case DoUpdate(id, value, category, recurring) => UpdateIsSound(s, id, value, category, recurring);
    case DoRemove(id, keepReward) => RemoveIsSound(s, id, keepReward);
    case DoReorder(items) => ReorderIsSound(s, items);
    case DoSplit(id) => SplitIsSound(s, id);
    case DoClaim(id, period, waterline) => ClaimIsSound(s, id, period, waterline);
    case DoRollover(carry) => RolloverIsSound(s, carry);
    case DoDeposit(cents) =>
  }

  function Run(s: State, ops: seq<Op>): State
    requires Sound(s)
    decreases |ops|
  {
    if ops == [] then s
    else
      OpIsSound(s, ops[0]);
      Run(Do(s, ops[0]), ops[1..])
  }

  /** In every state of every run each gate in the tank is the inclusive prefix sum of the values in
      (position, id) order, rows outside the tank have gate 0, and the reserve is not overdrawn. */
  lemma {:induction false} EveryRunIsSound(s: State, ops: seq<Op>)
    requires Sound(s)
    ensures var t := Run(s, ops);
            && Sound(t)
            && forall k :: 0 <= k < |Tank(t.rows)| ==> Tank(t.rows)[k].gate == Values(Tank(t.rows)[..k + 1])
    decreases |ops|
  {
    if ops != [] {
      OpIsSound(s, ops[0]);
      EveryRunIsSound(Do(s, ops[0]), ops[1..]);
    } else {
      forall k | 0 <= k < |Tank(s.rows)| ensures Tank(s.rows)[k].gate == Values(Tank(s.rows)[..k + 1]) {
        GateIsPrefixSum(s.rows, k);
      }
    }
  }
}
