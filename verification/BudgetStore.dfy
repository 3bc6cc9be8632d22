/** The budget store as it runs (budget-store.js, reward-vault-store.js): statements and loops over
    the reward rows, proved against the functions of `BudgetTank`; the category rollup of the
    ledger; and the weighted draw of a spin. */
module BudgetStore {
  import opened Options
  import opened TankOrder
  import opened BudgetTank
  import opened TankRuns
  import opened OverflowSpins

  // ===== Loops over ids =====

  lemma IndexInPrefix(ids: seq<int>, n: nat, id: int)
    requires Distinct(ids) && n < |ids|
    ensures id in ids[..n] ==> IndexOf(ids[..n + 1], id) == IndexOf(ids[..n], id)
    ensures IndexOf(ids[..n + 1], ids[n]) == n && ids[n] !in ids[..n]
    ensures id in ids[..n + 1] <==> id in ids[..n] || id == ids[n]
  {
    var shorter, longer := ids[..n], ids[..n + 1];
    assert longer == shorter + [ids[n]];
    if id in shorter {
      var k := IndexOf(shorter, id);
      assert longer[k] == id;
      assert longer[IndexOf(longer, id)] == id;
    }
    assert longer[n] == ids[n];
    assert longer[IndexOf(longer, ids[n])] == ids[n];
  }

  lemma IndexOfOwnId(rows: seq<Row>, i: nat)
    requires DistinctIds(rows) && i < |rows|
    ensures IndexOf(Ids(rows), rows[i].id) == i
  {
    assert Ids(rows)[i] == rows[i].id;
  }

  /** One more id of the list gets its slot. */
  lemma RenumberStep(rows: seq<Row>, ids: seq<int>, n: nat)
    requires DistinctIds(rows) && Distinct(ids) && n < |ids|
    ensures var k := IndexOf(Ids(rows), ids[n]);
            var before := Renumbered(rows, ids[..n]);
            Renumbered(rows, ids[..n + 1])
            == if k == |rows| then before else before[k := before[k].(position := Some(Slot(n)))]
  {
    var k := IndexOf(Ids(rows), ids[n]);
    forall i | 0 <= i < |rows|
      ensures Renumbered(rows, ids[..n + 1])[i]
           == if i == k then Renumbered(rows, ids[..n])[i].(position := Some(Slot(n))) else Renumbered(rows, ids[..n])[i]
    {
      IndexInPrefix(ids, n, rows[i].id);
      IndexOfOwnId(rows, i);
    }
  }

  /** What writing the positions after a split needs. */
  lemma SplitIsReady(s: State, i: nat)
    requires Sound(s) && i < |Tank(s.rows)| && MayBeSplit(Tank(s.rows)[i])
    ensures DistinctIds(Halved(s, Tank(s.rows)[i])) && Distinct(SplitOrder(Tank(s.rows), i, s.nextId))
  {
    assert Tank(s.rows)[i] in Tank(s.rows);
    HalvedRows(s, Tank(s.rows)[i]);
    SplitOrderIsDistinct(s, i);
  }

  lemma IndexOfDistinct(ids: seq<int>, i: nat)
    requires Distinct(ids) && i < |ids|
    ensures IndexOf(ids, ids[i]) == i
  {
    assert ids[IndexOf(ids, ids[i])] == ids[i];
  }

  lemma SplitUnfolds(s: State, i: nat)
    requires Sound(s) && i < |Tank(s.rows)| && MayBeSplit(Tank(s.rows)[i])
    ensures var tank := Tank(s.rows);
            Split(s, tank[i].id)
            == s.(rows := Recompute(Renumbered(Halved(s, tank[i]), SplitOrder(tank, i, s.nextId))), nextId := s.nextId + 1)
  {
    TankIdsAreDistinct(s.rows);
    IndexOfDistinct(Ids(Tank(s.rows)), i);
  }

  lemma RolloverIsReady(s: State, carry: bool)
    requires Sound(s)
    ensures DistinctIds(WithoutLeavers(s.rows, carry)) && Distinct(NewOrder(Tank(s.rows), carry))
  {
    NewOrderIsDistinct(s.rows, carry);
  }

  /** The partition loop of a rollover: one-off purchases first, then the recurring ones. */
  method StayersOf(tank: seq<Row>, carry: bool) returns (order: seq<int>)
    ensures order == NewOrder(tank, carry)
  {
    var unhit, recurring := [], [];
    for n := 0 to |tank|
      invariant unhit == Staying(tank[..n], carry, false) && recurring == Staying(tank[..n], carry, true)
    {
      var b := tank[n];
      assert tank[..n + 1][..n] == tank[..n];
      if b.recurring {
        recurring := recurring + [b.id];
      } else if b.claimed.None? && carry {
        unhit := unhit + [b.id];
      }
    }
    assert tank[..|tank|] == tank;
    return unhit + recurring;
  }

  /** The drawn reward, if any has a share. */
  method Draws(choices: seq<Reward>, r: Chance) returns (d: Option<Reward>)
    ensures d.None? <==> Weight(SharesOf(choices)) == 0
    ensures d.Some? ==> d.value in choices && d.value == Drawn(choices, r)
  {
    var shares := SharesOf(choices);
    var choice := WeightedChoice(shares, r);
    if choice.None? {
      return None;
    }
    var goal := Scaled(r, Weight(shares));
    DrawnIndexIsDraw(shares, goal);
    DrawIsUnique(shares, goal, choice.value, DrawnIndex(shares, goal));
    return Some(choices[choice.value]);
  }

  datatype Answer = NoSpin | Repeated(spin: Spun) | New(spin: Spun)

  class TankStore {
    var rows: seq<Row>
    var nextId: int
    var bank: int
    var vault: seq<Reward>
    var spins: map<string, Spun>

    ghost function View(): State
      reads `rows, `nextId, `bank
    {
      State(rows, nextId, bank)
    }

    ghost function WithVault(): Store
      reads this
    {
      Store(View(), vault, spins)
    }

    constructor (bank: nat, vault: seq<Reward>)
      ensures WithVault() == Store(State([], 1, bank), vault, map[]) && Sound(View())
    {
      rows, nextId, this.bank, this.vault, spins := [], 1, bank, vault, map[];
    }

    method RecomputeTankThresholds()
      modifies this`rows
      ensures rows == Recompute(old(rows))
    {
      var snapshot := rows;
      for k := 0 to |snapshot|
        invariant |rows| == |snapshot|
        invariant forall i :: 0 <= i < |rows| ==> rows[i] == if i < k then Gated(snapshot, snapshot[i]) else snapshot[i]
      {
        rows := rows[k := Gated(snapshot, snapshot[k])];
      }
    }

    /** Writes the slots 1000, 2000, ... to the listed rows, one statement per id. */
    method WritePositions(ids: seq<int>)
      requires DistinctIds(rows) && Distinct(ids)
      modifies this`rows
      ensures rows == Renumbered(old(rows), ids)
    {
      ghost var before := rows;
      for n := 0 to |ids|
        invariant rows == Renumbered(before, ids[..n])
      {
        assert Ids(rows) == Ids(before);
        RenumberStep(before, ids, n);
        var k := IndexOf(Ids(rows), ids[n]);
        if k < |rows| {
          rows := rows[k := rows[k].(position := Some(Slot(n)))];
        }
      }
      assert ids[..|ids|] == ids;
    }

    method InsertLast(value: int, category: string, recurring: bool, claimed: Option<string>)
      requires Sound(View()) && value > 0
      modifies `rows, `nextId, `bank
      ensures View() == Appended(old(View()), value, category, recurring, claimed) && Sound(View())
    {
      AppendedIsSound(View(), value, category, recurring, claimed);
      var row := NewRow(State(rows, nextId, bank), value, category, recurring, claimed);
      rows := rows + [row];
      nextId := nextId + 1;
      RecomputeTankThresholds();
    }

    method AddTankBlock(value: int, category: string, recurring: bool) returns (added: bool)
      requires Sound(View())
      modifies `rows, `nextId, `bank
      ensures View() == Add(old(View()), value, category, recurring) && Sound(View())
      ensures added <==> value > 0
    {
      var cents := Clamped(value);
      if cents <= 0 {
        return false;
      }
      InsertLast(cents, category, recurring, None);
      return true;
    }

    method UpdateTankBlock(id: int, value: int, category: string, recurring: bool) returns (found: bool)
      requires Sound(View())
      modifies `rows, `nextId, `bank
      ensures View() == Update(old(View()), id, value, category, recurring) && Sound(View())
    {
      UpdateIsSound(View(), id, value, category, recurring);
      var cents := Clamped(value);
      if cents <= 0 {
        return false;
      }
      var k := IndexOf(Ids(rows), id);
      if k == |rows| || !InTank(rows[k]) {
        return false;
      }
      rows := rows[k := Edited(rows[k], cents, category, recurring)];
      RecomputeTankThresholds();
      return true;
    }

    method RemoveTankBlock(id: int, keepReward: bool) returns (found: bool)
      requires Sound(View())
      modifies `rows, `nextId, `bank
      ensures View() == Remove(old(View()), id, keepReward) && Sound(View())
    {
      RemoveIsSound(View(), id, keepReward);
      var k := IndexOf(Ids(rows), id);
      if k == |rows| || !InTank(rows[k]) {
        return false;
      }
      var left := Leaving(rows[k]);
      rows := rows[k := if keepReward then left else left.(active := false, deleted := true)];
      RecomputeTankThresholds();
      return true;
    }

    /** Writes the positions of a drag, one statement per item. */
    method MoveItems(items: seq<Item>)
      modifies `rows
      ensures rows == MovedAll(old(rows), items)
    {
      ghost var before := rows;
      for n := 0 to |items|
        invariant rows == MovedAll(before, items[..n])
      {
        assert items[..n + 1][..n] == items[..n];
        var k := IndexOf(Ids(rows), items[n].id);
        if k < |rows| && InTank(rows[k]) {
          rows := rows[k := rows[k].(position := Some(items[n].position))];
        }
      }
      assert items[..|items|] == items;
    }

    method ReorderTank(items: seq<Item>)
      requires Sound(View())
      modifies `rows, `nextId, `bank
      ensures View() == Reorder(old(View()), items) && Sound(View())
    {
      ReorderIsSound(View(), items);
      if items == [] {
        return;
      }
      MovedKeepsIds(rows, items);
      MoveItems(items);
      if NeedsRebalance(items) {
        TankIdsAreDistinct(rows);
        WritePositions(Ids(Tank(rows)));
      }
      RecomputeTankThresholds();
    }

    /** The two statements of a split: the source keeps the larger half, the copy is inserted. */
    method HalveRow(source: Row)
      modifies `rows, `nextId, `bank
      ensures View() == old(View()).(rows := Halved(old(View()), source), nextId := old(nextId) + 1)
    {
      var k := IndexOf(Ids(rows), source.id);
      var copy := HalfCopy(source, nextId);
      if k < |rows| {
        rows := rows[k := rows[k].(value := source.value - source.value / 2)];
      }
      rows := rows + [copy];
      nextId := nextId + 1;
    }

    /** Writes the halves of a block of the tank and renumbers behind it. */
    method SplitAt(tank: seq<Row>, i: nat)
      requires Sound(View()) && tank == Tank(rows) && i < |tank| && MayBeSplit(tank[i])
      modifies `rows, `nextId, `bank
      ensures View() == Split(old(View()), tank[i].id)
    {
      ghost var s := View();
      SplitIsReady(s, i);
      SplitUnfolds(s, i);
      var order := SplitOrder(tank, i, nextId);
      HalveRow(tank[i]);
      WritePositions(order);
      RecomputeTankThresholds();
    }

    /** Halves a purchase; the copy goes right behind it. */
    method SplitTankBlock(id: int) returns (split: bool)
      requires Sound(View())
      modifies `rows, `nextId, `bank
      ensures View() == Split(old(View()), id) && Sound(View())
      ensures split <==> nextId > old(nextId)
    {
      SplitIsSound(View(), id);
      var tank := Tank(rows);
      var i := IndexOf(Ids(tank), id);
      if i == |tank| || tank[i].value < 2 || tank[i].claimed.Some? || UsedUp(tank[i]) {
        return false;
      }
      SplitAt(tank, i);
      return true;
    }

    method ClaimTankBlock(id: int, period: string, waterline: nat) returns (claimed: bool)
      requires Sound(View())
      modifies `rows, `nextId, `bank
      ensures View() == Claim(old(View()), id, period, waterline) && Sound(View())
      ensures claimed <==> View() != old(View())
    {
      ClaimIsSound(View(), id, period, waterline);
      var k := IndexOf(Ids(rows), id);
      if k == |rows| || !InTank(rows[k]) || !rows[k].active {
        return false;
      }
      var row := rows[k];
      if row.claimed == Some(period) || waterline < row.gate || bank < row.value {
        return false;
      }
      bank := if bank - row.value > 0 then bank - row.value else 0;
      rows := rows[k := Claimed(row, period)];
      assert rows[k].claimed != row.claimed;
      return true;
    }

    /** Takes the leavers out of the tank, one statement per row. */
    method ClearLeavers(carry: bool)
      modifies this`rows
      ensures rows == WithoutLeavers(old(rows), carry)
    {
      ghost var before := rows;
      for k := 0 to |rows|
        invariant |rows| == |before|
        invariant forall i :: 0 <= i < |rows| ==> rows[i] == if i < k then WithoutLeavers(before, carry)[i] else before[i]
      {
        if InTank(rows[k]) && Leaves(rows[k], carry) {
          rows := rows[k := Leaving(rows[k])];
        }
      }
    }

    /** The tank part of a rollover: the leavers go, the rest is renumbered. */
    method RolloverTank(carry: bool)
      requires Sound(View())
      modifies `rows, `nextId, `bank
      ensures View() == Rollover(old(View()), carry) && Sound(View())
    {
      ghost var s := View();
      RolloverIsSound(s, carry);
      RolloverIsReady(s, carry);
      var order := StayersOf(Tank(rows), carry);
      ClearLeavers(carry);
      WritePositions(order);
      RecomputeTankThresholds();
    }

    /** Spins the overflow once per source key: a repeated key is answered from the stored spin; else
        a reward is drawn by shares from those the overflow pays, cloned into the tank as claimed,
        and paid for. */
    method OverflowSpin(key: string, r: Chance, period: string, waterline: nat) returns (answer: Answer)
      requires Sound(View())
      modifies this
      ensures WithVault() == AfterSpin(old(WithVault()), key, r, period, waterline) && Sound(View())
      ensures answer.Repeated? <==> key != "" && key in old(spins)
      ensures answer.New? <==> WithVault() != old(WithVault())
      ensures !answer.NoSpin? ==> key in spins && spins[key] == answer.spin
    {
      if key == "" {
        return NoSpin;
      }
      if key in spins {
        return Repeated(spins[key]);
      }
      var overflow := Overflow(State(rows, nextId, bank), waterline);
      if overflow <= 0 {
        return NoSpin;
      }
      var definition := Draws(Choices(vault, overflow), r);
      if definition.None? {
        return NoSpin;
      }
      var spin := Buy(key, definition.value, period, waterline);
      return New(spin);
    }

    /** Clones the drawn reward into the tank, pays for it and stores the spin. */
    method Buy(key: string, d: Reward, period: string, waterline: nat) returns (spin: Spun)
      requires Sound(View()) && 0 < d.value <= Overflow(View(), waterline)
      modifies this
      ensures WithVault() == Bought(old(WithVault()), key, d, period, waterline) && Sound(View())
      ensures spin == spins[key]
    {
      spin := Spun(d.id, nextId, d.value);
      InsertLast(d.value, d.category, false, Some(period));
      bank := bank - d.value;
      if d.oneOff {
        vault := Archived(vault, d.id);
      }
      spins := spins[key := spin];
    }
  }

  // ===== The category rollup =====

  datatype Category = Category(key: string, items: seq<Row>, budget: int, funded: int)

  function OfCategory(blocks: seq<Row>, key: string): seq<Row> {
    if blocks == [] then []
    else
      OfCategory(blocks[..|blocks| - 1], key)
      + (if blocks[|blocks| - 1].category == key then [blocks[|blocks| - 1]] else [])
  }

  function TotalBudget(cats: seq<Category>): int {
    if cats == [] then 0 else TotalBudget(cats[..|cats| - 1]) + cats[|cats| - 1].budget
  }

  function TotalFunded(cats: seq<Category>): int {
    if cats == [] then 0 else TotalFunded(cats[..|cats| - 1]) + cats[|cats| - 1].funded
  }

  /** A group holds exactly the blocks of its category, with their sums. */
  ghost predicate IsRollup(c: Category, blocks: seq<Row>, waterline: int) {
    && c.items == OfCategory(blocks, c.key) && c.items != []
    && c.budget == Values(c.items) && c.funded == FundedAll(waterline, c.items)
    && 0 <= c.funded <= c.budget
  }

  lemma {:induction false} TotalsOfUpdate(cats: seq<Category>, i: nat, c: Category)
    requires i < |cats|
    ensures TotalBudget(cats[i := c]) == TotalBudget(cats) - cats[i].budget + c.budget
    ensures TotalFunded(cats[i := c]) == TotalFunded(cats) - cats[i].funded + c.funded
  {
    var n := |cats| - 1;
    if i == n {
      assert cats[i := c][..n] == cats[..n];
    } else {
      TotalsOfUpdate(cats[..n], i, c);
      assert cats[i := c][..n] == cats[..n][i := c];
    }
  }

  lemma OneMoreItem(items: seq<Row>, b: Row, waterline: int)
    ensures Values(items + [b]) == Values(items) + b.value
    ensures FundedAll(waterline, items + [b]) == FundedAll(waterline, items) + Funded(waterline, b)
  {
    assert (items + [b])[..|items|] == items;
  }

  /** The index knows every group by its key. */
  ghost predicate IsIndex(cats: seq<Category>, byKey: map<string, nat>) {
    && (forall key :: key in byKey ==> byKey[key] < |cats| && cats[byKey[key]].key == key)
    && (forall i :: 0 <= i < |cats| ==> cats[i].key in byKey && byKey[cats[i].key] == i)
  }

  ghost predicate AllRollups(cats: seq<Category>, blocks: seq<Row>, waterline: int) {
    forall i :: 0 <= i < |cats| ==> IsRollup(cats[i], blocks, waterline)
  }

  ghost predicate NoStrays(byKey: map<string, nat>, blocks: seq<Row>) {
    forall key :: key !in byKey ==> OfCategory(blocks, key) == []
  }

  ghost predicate TotalsAre(cats: seq<Category>, blocks: seq<Row>, waterline: int) {
    TotalBudget(cats) == Values(blocks) && TotalFunded(cats) == FundedAll(waterline, blocks)
  }

  /** Adding a block to its own group leaves every other group as it was. */
  lemma OtherGroupsStay(c: Category, blocks: seq<Row>, b: Row, waterline: int)
    requires IsRollup(c, blocks, waterline) && c.key != b.category
    ensures IsRollup(c, blocks + [b], waterline)
  {
    assert (blocks + [b])[..|blocks|] == blocks;
  }

  lemma GroupGrows(c: Category, blocks: seq<Row>, b: Row, waterline: int)
    requires b.category == c.key && b.value > 0
    requires IsRollup(c, blocks, waterline) || (c == Category(c.key, [], 0, 0) && OfCategory(blocks, c.key) == [])
    ensures IsRollup(Category(c.key, c.items + [b], c.budget + b.value, c.funded + Funded(waterline, b)), blocks + [b], waterline)
  {
    assert (blocks + [b])[..|blocks|] == blocks;
    OneMoreItem(c.items, b, waterline);
  }

  /** The groups after one more block, which goes to the i-th group or to a new one. */
  function Grown(cats: seq<Category>, i: nat, b: Row, waterline: int): seq<Category>
    requires i <= |cats|
  {
    if i == |cats| then cats + [Category(b.category, [b], b.value, Funded(waterline, b))]
    else
      cats[i := Category(cats[i].key, cats[i].items + [b], cats[i].budget + b.value, cats[i].funded + Funded(waterline, b))]
  }

  lemma GrownTotals(cats: seq<Category>, i: nat, b: Row, waterline: int)
    requires i <= |cats|
    ensures TotalBudget(Grown(cats, i, b, waterline)) == TotalBudget(cats) + b.value
    ensures TotalFunded(Grown(cats, i, b, waterline)) == TotalFunded(cats) + Funded(waterline, b)
  {
    if i == |cats| {
      assert Grown(cats, i, b, waterline)[..|cats|] == cats;
    } else {
      TotalsOfUpdate(cats, i, Grown(cats, i, b, waterline)[i]);
    }
  }

  /** The block goes to the group of its category, or to a new group when there is none. */
  ghost predicate IsGroupOf(cats: seq<Category>, byKey: map<string, nat>, b: Row, i: nat) {
    if b.category in byKey then i == byKey[b.category] else i == |cats|
  }

  lemma GrownGroup(cats: seq<Category>, byKey: map<string, nat>, blocks: seq<Row>, b: Row, waterline: int, i: nat, j: nat)
    requires IsIndex(cats, byKey) && IsGroupOf(cats, byKey, b, i) && b.value > 0
    requires j < |cats| ==> IsRollup(cats[j], blocks, waterline)
    requires b.category !in byKey ==> OfCategory(blocks, b.category) == []
    requires i <= |cats| && j < |Grown(cats, i, b, waterline)|
    ensures IsRollup(Grown(cats, i, b, waterline)[j], blocks + [b], waterline)
  {
    if j == |cats| {
      GroupGrows(Category(b.category, [], 0, 0), blocks, b, waterline);
      assert [] + [b] == [b];
    } else if j == i {
      GroupGrows(cats[j], blocks, b, waterline);
    } else {
      assert cats[j].key != b.category;
      OtherGroupsStay(cats[j], blocks, b, waterline);
    }
  }

  lemma RollupsGrow(cats: seq<Category>, byKey: map<string, nat>, blocks: seq<Row>, b: Row, waterline: int, i: nat)
    requires IsIndex(cats, byKey) && IsGroupOf(cats, byKey, b, i) && b.value > 0 && i <= |cats|
    requires AllRollups(cats, blocks, waterline) && NoStrays(byKey, blocks)
    ensures AllRollups(Grown(cats, i, b, waterline), blocks + [b], waterline)
  {
    var after := Grown(cats, i, b, waterline);
    forall j | 0 <= j < |after| ensures IsRollup(after[j], blocks + [b], waterline) {
      GrownGroup(cats, byKey, blocks, b, waterline, i, j);
    }
  }

  lemma IndexGrows(cats: seq<Category>, byKey: map<string, nat>, b: Row, waterline: int, i: nat)
    requires IsIndex(cats, byKey) && IsGroupOf(cats, byKey, b, i) && i <= |cats|
    ensures IsIndex(Grown(cats, i, b, waterline), byKey[b.category := i])
  {
  }

  lemma NoStrayBlock(blocks: seq<Row>, b: Row, key: string)
    requires key != b.category && OfCategory(blocks, key) == []
    ensures OfCategory(blocks + [b], key) == []
  {
    assert (blocks + [b])[..|blocks|] == blocks;
  }

  lemma NoStraysGrow(byKey: map<string, nat>, blocks: seq<Row>, b: Row, i: nat)
    requires NoStrays(byKey, blocks)
    ensures NoStrays(byKey[b.category := i], blocks + [b])
  {
    forall key | key !in byKey[b.category := i] ensures OfCategory(blocks + [b], key) == [] {
      NoStrayBlock(blocks, b, key);
    }
  }

  lemma TotalsGrow(cats: seq<Category>, blocks: seq<Row>, b: Row, waterline: int, i: nat)
    requires TotalsAre(cats, blocks, waterline) && i <= |cats|
    ensures TotalsAre(Grown(cats, i, b, waterline), blocks + [b], waterline)
  {
    GrownTotals(cats, i, b, waterline);
    OneMoreItem(blocks, b, waterline);
  }

  /** The groups after a walk over some blocks. */
  ghost predicate Walked(cats: seq<Category>, byKey: map<string, nat>, blocks: seq<Row>, waterline: int) {
    IsIndex(cats, byKey) && AllRollups(cats, blocks, waterline) && NoStrays(byKey, blocks) && TotalsAre(cats, blocks, waterline)
  }

  lemma WalkGrows(cats: seq<Category>, byKey: map<string, nat>, blocks: seq<Row>, b: Row, waterline: int, i: nat)
    requires Walked(cats, byKey, blocks, waterline) && IsGroupOf(cats, byKey, b, i) && b.value > 0 && i <= |cats|
    ensures Walked(Grown(cats, i, b, waterline), byKey[b.category := i], blocks + [b], waterline)
  {
    RollupsGrow(cats, byKey, blocks, b, waterline, i);
    IndexGrows(cats, byKey, b, waterline, i);
    NoStraysGrow(byKey, blocks, b, i);
    TotalsGrow(cats, blocks, b, waterline, i);
  }

  /** One block of the walk. */
  method AddToGroup(cats: seq<Category>, byKey: map<string, nat>, b: Row, waterline: int)
    returns (after: seq<Category>, index: map<string, nat>, ghost i: nat)
    requires IsIndex(cats, byKey)
    ensures i <= |cats| && IsGroupOf(cats, byKey, b, i)
    ensures after == Grown(cats, i, b, waterline) && index == byKey[b.category := i]
  {
    if b.category !in byKey {
      i := |cats|;
      return cats + [Category(b.category, [b], b.value, Funded(waterline, b))], byKey[b.category := |cats|], |cats|;
    }
    var k := byKey[b.category];
    var c := cats[k];
    assert byKey[b.category := k] == byKey;
    return cats[k := Category(c.key, c.items + [b], c.budget + b.value, c.funded + Funded(waterline, b))], byKey, k;
  }

  /** Groups the tank by category while walking it in order, as the ledger does. */
  method BuildCategories(blocks: seq<Row>, waterline: int) returns (cats: seq<Category>, byKey: map<string, nat>)
    requires forall k :: 0 <= k < |blocks| ==> blocks[k].value > 0
    ensures AllRollups(cats, blocks, waterline) && IsIndex(cats, byKey)
    ensures forall key :: key !in byKey ==> OfCategory(blocks, key) == []
    ensures TotalBudget(cats) == Values(blocks)
    ensures TotalFunded(cats) == FundedAll(waterline, blocks)
  {
    cats, byKey := [], map[];
    for n := 0 to |blocks|
      invariant Walked(cats, byKey, blocks[..n], waterline)
    {
      assert blocks[..n + 1] == blocks[..n] + [blocks[n]];
      var after, index, i := AddToGroup(cats, byKey, blocks[n], waterline);
      WalkGrows(cats, byKey, blocks[..n], blocks[n], waterline, i);
      cats, byKey := after, index;
    }
    assert blocks[..|blocks|] == blocks;
  }

  /** However the purchases are spread over categories, the groups of the ledger are funded with
      exactly the waterline, or with everything planned when the water stands higher. */
  method LedgerOf(rows: seq<Row>, waterline: nat) returns (cats: seq<Category>, byKey: map<string, nat>)
    requires DistinctIds(rows) && GatesAreRight(rows) && ValuesArePositive(rows)
    ensures TotalFunded(cats) == Min(waterline, Planned(rows))
    ensures TotalBudget(cats) == Planned(rows)
    ensures IsIndex(cats, byKey) && AllRollups(cats, Tank(rows), waterline)
  {
    var tank := Tank(rows);
    assert forall k :: 0 <= k < |tank| ==> tank[k] in tank;
    FundingIsExact(rows, waterline);
    if tank != [] {
      TankKeepsSums(rows, tank[0]);
    } else {
      NoTankPlansNothing(rows);
    }
    cats, byKey := BuildCategories(tank, waterline);
  }

  // ===== The weighted draw =====

  /** The loop of the draw: walks the needle down through the shares. */
  method Draw(shares: seq<nat>, goal: real) returns (choice: nat)
    requires 0.0 <= goal < Weight(shares) as real && shares != []
    ensures IsDraw(shares, goal, choice)
  {
    assert shares[..|shares|] == shares;
    var needle := goal;
    choice := |shares| - 1;
    for k := 0 to |shares|
      invariant needle == goal - Weight(shares[..k]) as real && needle >= 0.0
    {
      OneMoreShare(shares, k);
      needle := needle - shares[k] as real;
      if needle < 0.0 {
        return k;
      }
    }
    assert false;
  }

  /** Draws an index with the chance of its shares. */
  method WeightedChoice(shares: seq<nat>, r: Chance) returns (choice: Option<nat>)
    ensures choice.None? <==> Weight(shares) == 0
    ensures choice.Some? ==> IsDraw(shares, Scaled(r, Weight(shares)), choice.value)
  {
    var total := Weight(shares);
    if total <= 0 {
      return None;
    }
    var k := Draw(shares, Scaled(r, total));
    return Some(k);
  }
}
