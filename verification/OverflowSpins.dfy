/** Spinning the overflow of the tank (reward-vault-store.js): the choices that the overflow can
    pay, the weighted draw among them, and the source key under which a spin is stored, so that a
    repeated request is answered from the stored spin. */
module OverflowSpins {
  import opened Options
  import opened TankOrder
  import opened BudgetTank
  import opened TankRuns
  import opened TankEffects

  /** A definition of the vault.  `drawable` stands for the flags that the query asks for. */
  datatype Reward = Reward(id: int, value: int, category: string, chanceShares: int, weight: int, drawable: bool,
                           oneOff: bool)

  datatype Spun = Spun(reward: int, block: int, cents: int)

  /** The tank, the vault in the order it is read, and the stored spins by source key. */
  datatype Store = Store(tank: State, vault: seq<Reward>, spins: map<string, Spun>)

  /** A random number as the program draws it. */
  type Chance = r: real | 0.0 <= r < 1.0 witness 0.0

  // ===== The weighted draw =====

  function Weight(shares: seq<nat>): nat {
    if shares == [] then 0 else Weight(shares[..|shares| - 1]) + shares[|shares| - 1]
  }

  lemma OneMoreShare(shares: seq<nat>, k: nat)
    requires k < |shares|
    ensures Weight(shares[..k + 1]) == Weight(shares[..k]) + shares[k]
  {
    assert shares[..k + 1][..k] == shares[..k];
  }

  /** The goal falls into the k-th share. */
  ghost predicate IsDraw(shares: seq<nat>, goal: real, k: nat) {
    && k < |shares|
    && Weight(shares[..k]) as real <= goal < Weight(shares[..k + 1]) as real
  }

  lemma ProperPart(r: real, t: real)
    requires 0.0 <= r < 1.0 && t > 0.0
    ensures 0.0 <= r * t < t
  {
    var rest := 1.0 - r;
    assert rest > 0.0;
    assert rest * t > 0.0;
    assert r * t + rest * t == t;
  }

  /** The random number, scaled to the shares. */
  function Scaled(r: Chance, total: nat): (goal: real)
    ensures total > 0 ==> 0.0 <= goal < total as real
  {
    if total > 0 then
      ProperPart(r, total as real);
      r * total as real
    else 0.0
  }

  /** The last share that starts at or below the goal. */
  function DrawnIndex(shares: seq<nat>, goal: real): (k: nat)
    requires 0.0 <= goal < Weight(shares) as real
    ensures k < |shares|
  {
    var n := |shares| - 1;
    if goal < Weight(shares[..n]) as real then DrawnIndex(shares[..n], goal) else n
  }

  lemma {:induction false} DrawnIndexIsDraw(shares: seq<nat>, goal: real)
    requires 0.0 <= goal < Weight(shares) as real
    ensures IsDraw(shares, goal, DrawnIndex(shares, goal))
  {
    var n := |shares| - 1;
    if goal < Weight(shares[..n]) as real {
      var k := DrawnIndex(shares[..n], goal);
      DrawnIndexIsDraw(shares[..n], goal);
      assert shares[..n][..k] == shares[..k] && shares[..n][..k + 1] == shares[..k + 1];
    } else {
      assert shares[..n + 1] == shares;
    }
  }

  lemma {:induction false} WeightsGrow(shares: seq<nat>, i: nat, j: nat)
    requires i <= j <= |shares|
    ensures Weight(shares[..i]) <= Weight(shares[..j])
    decreases j
  {
    if i < j {
      WeightsGrow(shares, i, j - 1);
      OneMoreShare(shares, j - 1);
    }
  }

  /** A goal falls into one share only. */
  lemma DrawIsUnique(shares: seq<nat>, goal: real, i: nat, j: nat)
    requires IsDraw(shares, goal, i) && IsDraw(shares, goal, j)
    ensures i == j
  {
    if i < j {
      WeightsGrow(shares, i + 1, j);
    } else if j < i {
      WeightsGrow(shares, j + 1, i);
    }
  }

  // ===== The choices =====

  /** `chance_shares || weight || 0`, not below zero. */
  function Shares(d: Reward): nat {
    Max0(if d.chanceShares != 0 then d.chanceShares else d.weight)
  }

  predicate IsChoice(d: Reward, overflow: int) {
    d.drawable && 0 < d.value <= overflow
  }

  function Choices(vault: seq<Reward>, overflow: int): (choices: seq<Reward>)
    ensures forall d :: d in choices <==> d in vault && IsChoice(d, overflow)
  {
    if vault == [] then []
    else
      var n := |vault| - 1;
      assert forall d :: d in vault <==> d in vault[..n] || d == vault[n];
      Choices(vault[..n], overflow) + (if IsChoice(vault[n], overflow) then [vault[n]] else [])
  }

  function SharesOf(choices: seq<Reward>): (shares: seq<nat>)
    ensures |shares| == |choices| && forall k :: 0 <= k < |shares| ==> shares[k] == Shares(choices[k])
  {
    seq(|choices|, k requires 0 <= k < |choices| => Shares(choices[k]))
  }

  /** A one-off reward leaves the vault when it is drawn. */
  function Archived(vault: seq<Reward>, id: int): (after: seq<Reward>)
    ensures |after| == |vault|
    ensures forall k :: 0 <= k < |vault| ==>
              after[k] == if vault[k].id == id then vault[k].(drawable := false) else vault[k]
  {
    seq(|vault|, k requires 0 <= k < |vault| => if vault[k].id == id then vault[k].(drawable := false) else vault[k])
  }

  // ===== The spin =====

  function Bought(s: Store, key: string, d: Reward, period: string, waterline: nat): Store {
    Store(Spin(s.tank, d.value, d.category, period, waterline),
          if d.oneOff then Archived(s.vault, d.id) else s.vault,
          s.spins[key := Spun(d.id, s.tank.nextId, d.value)])
  }

  function Drawn(choices: seq<Reward>, r: Chance): (d: Reward)
    requires Weight(SharesOf(choices)) > 0
    ensures d in choices
  {
    choices[DrawnIndex(SharesOf(choices), Scaled(r, Weight(SharesOf(choices))))]
  }

  function AfterSpin(s: Store, key: string, r: Chance, period: string, waterline: nat): Store {
    var overflow := Overflow(s.tank, waterline);
    var choices := Choices(s.vault, overflow);
    if key == "" || key in s.spins || overflow <= 0 || Weight(SharesOf(choices)) == 0 then s
    else Bought(s, key, Drawn(choices, r), period, waterline)
  }

  lemma DrawnHasShares(choices: seq<Reward>, r: Chance)
    requires Weight(SharesOf(choices)) > 0
    ensures Shares(Drawn(choices, r)) > 0
  {
    var shares := SharesOf(choices);
    var goal := Scaled(r, Weight(shares));
    DrawnIndexIsDraw(shares, goal);
    OneMoreShare(shares, DrawnIndex(shares, goal));
  }

  /** A spin can draw the reward: it is offered, has a price that neither the unplanned water nor the
      reserve falls short of, and a positive number of shares, or of weight where it has none. */
  predicate IsWithinReach(d: Reward, tank: State, waterline: nat) {
    && d.drawable && d.value > 0 && Planned(tank.rows) + d.value <= waterline && d.value <= tank.bank
    && (d.chanceShares > 0 || (d.chanceShares == 0 && d.weight > 0))
  }

  lemma ReachIsChoice(d: Reward, tank: State, waterline: nat)
    ensures IsWithinReach(d, tank, waterline) <==> IsChoice(d, Overflow(tank, waterline)) && Shares(d) > 0
  {
  }

  /** What a spin buys: a reward of the vault within reach.  It is paid once, its block stands claimed
      at the end of the tank and under water, and exactly the one-off reward cannot be drawn again. */
  lemma SpinBuysAChoice(s: Store, key: string, r: Chance, period: string, waterline: nat) returns (d: Reward)
    requires Sound(s.tank) && AfterSpin(s, key, r, period, waterline) != s
    ensures d in s.vault && IsWithinReach(d, s.tank, waterline)
    ensures d == Drawn(Choices(s.vault, Overflow(s.tank, waterline)), r)
    ensures var after := AfterSpin(s, key, r, period, waterline);
            && Sound(after.tank)
            && after.spins == s.spins[key := Spun(d.id, s.tank.nextId, d.value)] && key !in s.spins
            && after.tank.bank == s.tank.bank - d.value >= 0
            && Planned(after.tank.rows) == Planned(s.tank.rows) + d.value <= waterline
            && IsAppended(s.tank, after.tank, d.value, d.category, false, Some(period))
    ensures var vault := AfterSpin(s, key, r, period, waterline).vault;
            |vault| == |s.vault| && forall k :: 0 <= k < |vault| ==>
              vault[k] == s.vault[k].(drawable := s.vault[k].drawable && !(d.oneOff && s.vault[k].id == d.id))
  {
    var choices := Choices(s.vault, Overflow(s.tank, waterline));
    d := Drawn(choices, r);
    DrawnHasShares(choices, r);
    ReachIsChoice(d, s.tank, waterline);
    SpinStaysUnderWater(s.tank, d.value, d.category, period, waterline);
    SpinPaysExactly(s.tank, d.value, d.category, period, waterline);
  }

  lemma {:induction false} WeightIsPositive(shares: seq<nat>, k: nat)
    requires k < |shares| && shares[k] > 0
    ensures Weight(shares) > 0
  {
    if k < |shares| - 1 {
      WeightIsPositive(shares[..|shares| - 1], k);
    }
  }

  /** Whatever the random number, a spin buys something if and only if its key is new and the vault
      holds a reward with a positive share that the overflow pays. */
  lemma SpinsExactlyWhenAffordable(s: Store, key: string, r: Chance, period: string, waterline: nat)
    requires Sound(s.tank)
    ensures AfterSpin(s, key, r, period, waterline) != s <==>
            && key != "" && key !in s.spins
            && exists d :: d in s.vault && IsWithinReach(d, s.tank, waterline)
  {
    var choices := Choices(s.vault, Overflow(s.tank, waterline));
    if d :| d in s.vault && IsWithinReach(d, s.tank, waterline) {
      ReachIsChoice(d, s.tank, waterline);
      var k :| 0 <= k < |choices| && choices[k] == d;
      WeightIsPositive(SharesOf(choices), k);
      if key !in s.spins && key != "" {
        assert key in Bought(s, key, Drawn(choices, r), period, waterline).spins;
      }
    }
    if AfterSpin(s, key, r, period, waterline) != s {
      var d := SpinBuysAChoice(s, key, r, period, waterline);
    }
  }

  // ===== The chances =====

  /** The shares of a reward within reach; any other has none. */
  function ReachedShares(d: Reward, tank: State, waterline: nat): nat {
    if !IsWithinReach(d, tank, waterline) then 0 else if d.chanceShares > 0 then d.chanceShares else d.weight
  }

  /** The shares of the first `k` rewards of the vault. */
  function SharesBefore(vault: seq<Reward>, tank: State, waterline: nat, k: nat): nat
    requires k <= |vault|
  {
    if k == 0 then 0 else SharesBefore(vault, tank, waterline, k - 1) + ReachedShares(vault[k - 1], tank, waterline)
  }

  /** The choices among the first `n` rewards. */
  ghost function Found(vault: seq<Reward>, overflow: int, n: nat): seq<Reward>
    requires n <= |vault|
  {
    if n == 0 then [] else Found(vault, overflow, n - 1) + (if IsChoice(vault[n - 1], overflow) then [vault[n - 1]] else [])
  }

  lemma {:induction false} ChoicesAreFound(vault: seq<Reward>, overflow: int, n: nat)
    requires n <= |vault|
    ensures Choices(vault[..n], overflow) == Found(vault, overflow, n)
  {
    if n > 0 {
      ChoicesAreFound(vault, overflow, n - 1);
      assert vault[..n][..n - 1] == vault[..n - 1] && vault[..n][n - 1] == vault[n - 1];
    }
  }

  lemma {:induction false} SharesBeforeIsWeight(vault: seq<Reward>, tank: State, waterline: nat, k: nat)
    requires k <= |vault|
    ensures SharesBefore(vault, tank, waterline, k) == Weight(SharesOf(Found(vault, Overflow(tank, waterline), k)))
  {
    if k > 0 {
      var overflow := Overflow(tank, waterline);
      SharesBeforeIsWeight(vault, tank, waterline, k - 1);
      ReachIsChoice(vault[k - 1], tank, waterline);
      if IsChoice(vault[k - 1], overflow) {
        OneMoreWeight(Found(vault, overflow, k - 1), vault[k - 1]);
        assert ReachedShares(vault[k - 1], tank, waterline) == Shares(vault[k - 1]);
      } else {
        assert Found(vault, overflow, k) == Found(vault, overflow, k - 1);
      }
    }
  }

  lemma OneMoreWeight(choices: seq<Reward>, d: Reward)
    ensures Weight(SharesOf(choices + [d])) == Weight(SharesOf(choices)) + Shares(d)
  {
    assert SharesOf(choices + [d])[..|choices|] == SharesOf(choices);
  }

  /** The choices found in the first `k` rewards are the first `j` of all, and the next is the k-th reward. */
  ghost predicate IsPlace(vault: seq<Reward>, overflow: int, all: seq<Reward>, j: nat, k: nat) {
    && j < |all| && k < |vault| && vault[k] == all[j]
    && Found(vault, overflow, k) == all[..j] && Found(vault, overflow, k + 1) == all[..j + 1]
  }

  lemma PlaceStays(vault: seq<Reward>, overflow: int, before: seq<Reward>, all: seq<Reward>, j: nat, k: nat)
    requires IsPlace(vault, overflow, before, j, k) && before <= all
    ensures IsPlace(vault, overflow, all, j, k)
  {
    assert all[..j] == before[..j] && all[..j + 1] == before[..j + 1];
  }

  lemma LastPlace(vault: seq<Reward>, overflow: int, before: seq<Reward>, all: seq<Reward>, k: nat)
    requires k < |vault| && before == Found(vault, overflow, k) && all == Found(vault, overflow, k + 1)
    requires all == before + [vault[k]]
    ensures IsPlace(vault, overflow, all, |before|, k)
  {
    assert all[..|before|] == before && all[..|before| + 1] == all;
  }

  /** Where the j-th choice stands in the vault. */
  lemma {:induction false} ChoiceInVault(vault: seq<Reward>, overflow: int, n: nat, all: seq<Reward>, j: nat) returns (k: nat)
    requires n <= |vault| && all == Found(vault, overflow, n) && j < |all|
    ensures IsPlace(vault, overflow, all, j, k)
    decreases n
  {
    var before := Found(vault, overflow, n - 1);
    if j < |before| {
      k := ChoiceInVault(vault, overflow, n - 1, before, j);
      PlaceStays(vault, overflow, before, all, j, k);
    } else {
      k := n - 1;
      LastPlace(vault, overflow, before, all, k);
    }
  }

  /** The weights of the choices before and up to a place. */
  lemma PlaceWeights(vault: seq<Reward>, tank: State, waterline: nat, all: seq<Reward>, j: nat, k: nat)
    requires IsPlace(vault, Overflow(tank, waterline), all, j, k)
    ensures SharesBefore(vault, tank, waterline, k) == Weight(SharesOf(all)[..j])
    ensures SharesBefore(vault, tank, waterline, k + 1) == Weight(SharesOf(all)[..j + 1])
  {
    SharesBeforeIsWeight(vault, tank, waterline, k);
    SharesBeforeIsWeight(vault, tank, waterline, k + 1);
    assert SharesOf(all[..j]) == SharesOf(all)[..j] && SharesOf(all[..j + 1]) == SharesOf(all)[..j + 1];
  }

  predicate FallsInto(goal: real, low: nat, high: nat) {
    low as real <= goal < high as real
  }

  lemma ScaledIsProduct(r: Chance, total: nat)
    ensures Scaled(r, total) == r * total as real
  {
  }

  lemma DrawnPlace(vault: seq<Reward>, tank: State, waterline: nat, all: seq<Reward>, r: Chance) returns (k: nat)
    requires all == Choices(vault, Overflow(tank, waterline)) && Weight(SharesOf(all)) > 0
    ensures k < |vault| && vault[k] == Drawn(all, r)
    ensures FallsInto(Scaled(r, SharesBefore(vault, tank, waterline, |vault|)),
                      SharesBefore(vault, tank, waterline, k), SharesBefore(vault, tank, waterline, k + 1))
  {
    var goal := Scaled(r, Weight(SharesOf(all)));
    DrawnIndexIsDraw(SharesOf(all), goal);
    ChoicesAreFound(vault, Overflow(tank, waterline), |vault|);
    assert vault[..|vault|] == vault;
    k := ChoiceInVault(vault, Overflow(tank, waterline), |vault|, all, DrawnIndex(SharesOf(all), goal));
    SharesBeforeIsWeight(vault, tank, waterline, |vault|);
    PlaceWeights(vault, tank, waterline, all, DrawnIndex(SharesOf(all), goal), k);
  }

  /** A spin draws the reward into whose shares the random number, scaled to all shares, falls when the
      shares within reach are laid out in the order of the vault. */
  lemma SpinDrawsByShares(s: Store, key: string, r: Chance, period: string, waterline: nat) returns (k: nat)
    requires Sound(s.tank) && AfterSpin(s, key, r, period, waterline) != s
    ensures k < |s.vault| && key in AfterSpin(s, key, r, period, waterline).spins
    ensures AfterSpin(s, key, r, period, waterline).spins[key] == Spun(s.vault[k].id, s.tank.nextId, s.vault[k].value)
    ensures FallsInto(Scaled(r, SharesBefore(s.vault, s.tank, waterline, |s.vault|)),
                      SharesBefore(s.vault, s.tank, waterline, k), SharesBefore(s.vault, s.tank, waterline, k + 1))
  {
    var d := SpinBuysAChoice(s, key, r, period, waterline);
    k := DrawnPlace(s.vault, s.tank, waterline, Choices(s.vault, Overflow(s.tank, waterline)), r);
  }

  // ===== Runs =====

  /** Spins next to every other operation on the tank. */
  datatype Act = SpinWith(key: string, r: Chance, period: string, waterline: nat) | OnTank(op: Op)

  function Perform(s: Store, act: Act): Store
    requires Sound(s.tank)
  {
    match act
    case SpinWith(key, r, period, waterline) => AfterSpin(s, key, r, period, waterline)
    case OnTank(op) => s.(tank := Do(s.tank, op))
  }

  lemma ActIsSound(s: Store, act: Act)
    requires Sound(s.tank)
    ensures Sound(Perform(s, act).tank)
  {
    match act
    case SpinWith(key, r, period, waterline) =>
      if AfterSpin(s, key, r, period, waterline) != s {
        var d := SpinBuysAChoice(s, key, r, period, waterline);
      }
    case OnTank(op) => OpIsSound(s.tank, op);
  }

  function PerformAll(s: Store, acts: seq<Act>): (after: Store)
    requires Sound(s.tank)
    ensures Sound(after.tank)
    decreases |acts|
  {
    if acts == [] then s
    else
      ActIsSound(s, acts[0]);
      PerformAll(Perform(s, acts[0]), acts[1..])
  }

  /** What the spins of one key take out of the reserve over a run. */
  function Charged(s: Store, acts: seq<Act>, key: string): int
    requires Sound(s.tank)
    decreases |acts|
  {
    if acts == [] then 0
    else
      ActIsSound(s, acts[0]);
      var next := Perform(s, acts[0]);
      (if acts[0].SpinWith? && acts[0].key == key then s.tank.bank - next.tank.bank else 0) + Charged(next, acts[1..], key)
  }

  lemma ActCharges(s: Store, act: Act, key: string)
    requires Sound(s.tank)
    ensures key in s.spins ==> key in Perform(s, act).spins && Perform(s, act).spins[key] == s.spins[key]
    ensures key !in s.spins && key in Perform(s, act).spins ==>
              && act.SpinWith? && act.key == key
              && s.tank.bank - Perform(s, act).tank.bank == Perform(s, act).spins[key].cents
    ensures act.SpinWith? && act.key == key && (key in s.spins || key !in Perform(s, act).spins) ==> Perform(s, act) == s
  {
    if act.SpinWith? && Perform(s, act) != s {
      var d := SpinBuysAChoice(s, act.key, act.r, act.period, act.waterline);
    }
  }

  /** However often a spin is repeated, and whatever else happens to the tank, its key is charged
      once, with the amount of the stored spin, and the stored spin never changes. */
  lemma {:induction false} EachKeyIsChargedOnce(s: Store, acts: seq<Act>, key: string)
    requires Sound(s.tank)
    ensures var after := PerformAll(s, acts);
            && (key in s.spins ==> key in after.spins && after.spins[key] == s.spins[key] && Charged(s, acts, key) == 0)
            && (key !in s.spins ==> Charged(s, acts, key) == if key in after.spins then after.spins[key].cents else 0)
    decreases |acts|
  {
    if acts != [] {
      ActIsSound(s, acts[0]);
      ActCharges(s, acts[0], key);
      EachKeyIsChargedOnce(Perform(s, acts[0]), acts[1..], key);
    }
  }
}
