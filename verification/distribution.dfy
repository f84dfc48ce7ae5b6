/** Contract `distribution`: the ideal stakes and the changes that move towards them. */
module Distribution {
  import opened Results
  import opened FixedPoint

  datatype Delegation = Delegation(valoper: string, stake: nat, weight: nat)

  datatype IdealDelegation = IdealDelegation(
    valoper: string, idealStake: nat, currentStake: nat, stakeChange: nat, weight: nat)

  datatype Direction = Deposit | Withdraw

  // ---------------------------------------------------------------- sums

  function TotalStake(ds: seq<Delegation>): nat {
    if ds == [] then 0 else ds[0].stake + TotalStake(ds[1..])
  }

  function TotalWeight(ds: seq<Delegation>): nat {
    if ds == [] then 0 else ds[0].weight + TotalWeight(ds[1..])
  }

  function TotalIdeal(xs: seq<IdealDelegation>): nat {
    if xs == [] then 0 else xs[0].idealStake + TotalIdeal(xs[1..])
  }

  function TotalCurrent(xs: seq<IdealDelegation>): nat {
    if xs == [] then 0 else xs[0].currentStake + TotalCurrent(xs[1..])
  }

  function TotalChange(xs: seq<IdealDelegation>): nat {
    if xs == [] then 0 else xs[0].stakeChange + TotalChange(xs[1..])
  }

  /** How far a validator is from its ideal stake in the given direction. */
  function Gap(dir: Direction, d: IdealDelegation): nat {
    if dir.Deposit?
    then if d.idealStake > d.currentStake then d.idealStake - d.currentStake else 0
    else if d.currentStake > d.idealStake then d.currentStake - d.idealStake else 0
  }

  /** What a validator would get if the amount never ran out: its gap, or the reserved token. */
  function Demand(dir: Direction, xs: seq<IdealDelegation>): nat {
    if xs == [] then 0 else Max(1, Gap(dir, xs[0])) + Demand(dir, xs[1..])
  }

  // ---------------------------------------------------------------- calc_ideal_stake

  /** The entry of one validator: its weighted share rounded up, clamped to what is left. */
  function IdealHead(d: Delegation, stakePerWeight: nat, left: nat): Result<IdealDelegation> {
    if stakePerWeight * d.weight > U128_MAX then Err(Overflow)
    else Ok(IdealDelegation(d.valoper, Min(Ceil(stakePerWeight * d.weight), left), d.stake, 1, d.weight))
  }

  function IdealStakes(ds: seq<Delegation>, stakePerWeight: nat, left: nat): Result<seq<IdealDelegation>> {
    if ds == [] then Ok([])
    else
      var head :- IdealHead(ds[0], stakePerWeight, left);
      if head.idealStake >= left then Ok([head])
      else
        var tail :- IdealStakes(ds[1..], stakePerWeight, left - head.idealStake);
        Ok([head] + tail)
  }

  function CalcIdealStake(total: nat, ds: seq<Delegation>): Result<seq<IdealDelegation>> {
    var weight := TotalWeight(ds);
    if weight > U64_MAX then Err(Overflow)
    else if weight == 0 then Err(DivideByZero)
    else if Ratio(total, weight) > U128_MAX then Err(Overflow)
    else IdealStakes(ds, Ratio(total, weight), total)
  }

  /** Each entry describes the validator at the same position of the input. */
  ghost predicate DescribesPrefix(xs: seq<IdealDelegation>, ds: seq<Delegation>) {
    && |xs| <= |ds|
    && forall i :: 0 <= i < |xs| ==>
         && xs[i].valoper == ds[i].valoper
         && xs[i].currentStake == ds[i].stake
         && xs[i].weight == ds[i].weight
         && xs[i].stakeChange == 1
  }

  lemma {:induction false} IdealStakesShape(ds: seq<Delegation>, spw: nat, left: nat)
    requires IdealStakes(ds, spw, left).Ok?
    ensures var xs := IdealStakes(ds, spw, left).value;
            && DescribesPrefix(xs, ds)
            && TotalIdeal(xs) <= left
            && (|xs| < |ds| ==> TotalIdeal(xs) == left)
  {
    if ds != [] {
      var head := IdealHead(ds[0], spw, left).value;
      if head.idealStake != left {
        IdealStakesShape(ds[1..], spw, left - head.idealStake);
        var tail := IdealStakes(ds[1..], spw, left - head.idealStake).value;
        var xs := IdealStakes(ds, spw, left).value;
        assert xs[0] == head && xs[1..] == tail;
      } else {
        assert IdealStakes(ds, spw, left).value[1..] == [];
      }
    }
  }

  /** The walk uses everything up or covers the share of every weight. */
  lemma {:induction false} IdealStakesCover(ds: seq<Delegation>, spw: nat, left: nat)
    requires IdealStakes(ds, spw, left).Ok?
    ensures var ideal := TotalIdeal(IdealStakes(ds, spw, left).value);
            ideal == left || ideal * ONE >= spw * TotalWeight(ds)
  {
    if ds != [] {
      var head := IdealHead(ds[0], spw, left).value;
      if head.idealStake != left {
        IdealStakesCover(ds[1..], spw, left - head.idealStake);
        var tail := IdealStakes(ds[1..], spw, left - head.idealStake).value;
        var xs := IdealStakes(ds, spw, left).value;
        assert xs[0] == head && xs[1..] == tail;
        HeadCoversShare(spw, ds[0].weight, TotalWeight(ds[1..]), head.idealStake);
      } else {
        assert IdealStakes(ds, spw, left).value[1..] == [];
      }
    }
  }

  /** A share rounded up covers its weight. */
  lemma HeadCoversShare(spw: nat, weight: nat, others: nat, ideal: nat)
    requires ideal == Ceil(spw * weight)
    ensures ideal * ONE + spw * others >= spw * (weight + others)
  {
    CeilBounds(spw * weight);
  }

  lemma {:induction false} IdealStakesCapped(ds: seq<Delegation>, spw: nat, left: nat, i: nat)
    requires IdealStakes(ds, spw, left).Ok? && i < |IdealStakes(ds, spw, left).value|
    ensures i < |ds| && IdealStakes(ds, spw, left).value[i].idealStake <= Ceil(spw * ds[i].weight)
  {
    var head := IdealHead(ds[0], spw, left).value;
    if head.idealStake != left && i > 0 {
      IdealStakesCapped(ds[1..], spw, left - head.idealStake, i - 1);
    }
  }

  /** The most that rounding the stake per weight down can leave undistributed. */
  function Dust(totalWeight: nat): nat { if totalWeight == 0 then 0 else (totalWeight - 1) / ONE }

  /** `calc_ideal_stake` hands out at most the total and all but (total weight - 1) / 10^18
      of it; so everything when the total weight is at most 10^18. */
  lemma IdealStakesConserve(total: nat, ds: seq<Delegation>)
    requires CalcIdealStake(total, ds).Ok?
    ensures var xs := CalcIdealStake(total, ds).value;
            && DescribesPrefix(xs, ds)
            && TotalIdeal(xs) <= total <= TotalIdeal(xs) + Dust(TotalWeight(ds))
            && (TotalWeight(ds) <= ONE ==> TotalIdeal(xs) == total)
            && (|xs| < |ds| ==> TotalIdeal(xs) == total)
  {
    var w := TotalWeight(ds);
    var spw := Ratio(total, w);
    IdealStakesShape(ds, spw, total);
    IdealStakesCover(ds, spw, total);
    var xs := CalcIdealStake(total, ds).value;
    FloorBounds(total * ONE, w);
    if TotalIdeal(xs) != total {
      assert (total - TotalIdeal(xs)) * ONE <= w - 1;
      QuotientAtLeast(w - 1, ONE, total - TotalIdeal(xs));
    }
  }

  /** No ideal stake exceeds the exact proportional share rounded up:
      ideal - 1 < total * weight / total weight. */
  lemma IdealStakesProportional(total: nat, ds: seq<Delegation>, i: nat)
    requires CalcIdealStake(total, ds).Ok? && i < |CalcIdealStake(total, ds).value|
    ensures i < |ds|
    ensures var ideal := CalcIdealStake(total, ds).value[i].idealStake;
            ideal * TotalWeight(ds) < total * ds[i].weight + TotalWeight(ds)
  {
    IdealStakesCapped(ds, Ratio(total, TotalWeight(ds)), total, i);
    ShareBound(total, TotalWeight(ds), ds[i].weight, CalcIdealStake(total, ds).value[i].idealStake);
  }

  /** Every validator but the last one reached gets at least its exact share, up to what rounding
      the stake per weight down costs: total * weight / total weight - weight / 10^18. */
  lemma IdealStakesCoverShares(total: nat, ds: seq<Delegation>, i: nat)
    requires CalcIdealStake(total, ds).Ok? && i + 1 < |CalcIdealStake(total, ds).value|
    ensures i < |ds|
    ensures var ideal, w := CalcIdealStake(total, ds).value[i].idealStake, TotalWeight(ds);
            total * ds[i].weight * ONE <= ideal * w * ONE + w * ds[i].weight
  {
    var w, spw := TotalWeight(ds), Ratio(total, TotalWeight(ds));
    IdealStakesFull(ds, spw, total, i);
    var ideal := CalcIdealStake(total, ds).value[i].idealStake;
    FloorBounds(total * ONE, w);
    ShareCovered(total, w, spw, ds[i].weight, ideal);
  }

  lemma ShareCovered(total: nat, w: nat, spw: nat, wi: nat, ideal: nat)
    requires total * ONE <= spw * w + w && spw * wi <= ideal * ONE
    ensures total * wi * ONE <= ideal * w * ONE + w * wi
  {
    MulLe(total * ONE, spw * w + w, wi);
    MulLe(spw * wi, ideal * ONE, w);
    assert total * ONE * wi == total * wi * ONE;
    assert (spw * w + w) * wi == spw * wi * w + w * wi;
    assert ideal * ONE * w == ideal * w * ONE;
  }

  lemma {:induction false} IdealStakesFull(ds: seq<Delegation>, spw: nat, left: nat, i: nat)
    requires IdealStakes(ds, spw, left).Ok? && i + 1 < |IdealStakes(ds, spw, left).value|
    ensures i < |ds| && spw * ds[i].weight <= IdealStakes(ds, spw, left).value[i].idealStake * ONE
  {
    var head := IdealHead(ds[0], spw, left).value;
    if i == 0 { CeilBounds(spw * ds[0].weight); }
    else { IdealStakesFull(ds[1..], spw, left - head.idealStake, i - 1); }
  }

  lemma ShareBound(total: nat, w: nat, wi: nat, ideal: nat)
    requires w > 0 && ideal <= Ceil(Ratio(total, w) * wi)
    ensures ideal * w < total * wi + w
  {
    var spw := Ratio(total, w);
    assert spw * w <= total * ONE by { FloorBounds(total * ONE, w); }
    assert ideal * ONE < spw * wi + ONE by { CeilBounds(spw * wi); }
    StrictMul(ideal * ONE, spw * wi + ONE, w);
    MulLe(spw * w, total * ONE, wi);
    Regroup(ideal, spw, w, wi, total);
  }

  lemma Regroup(ideal: nat, spw: nat, w: nat, wi: nat, total: nat)
    requires ideal * ONE * w < (spw * wi + ONE) * w
    requires spw * w * wi <= total * ONE * wi
    ensures ideal * w < total * wi + w
  {
    assert ideal * ONE * w == (ideal * w) * ONE;
    assert (spw * wi + ONE) * w == spw * w * wi + ONE * w;
    assert total * ONE * wi == (total * wi) * ONE;
  }

  lemma StrictMul(a: nat, b: nat, c: nat)
    requires a < b && c > 0
    ensures a * c < b * c
  {
  }

  ghost predicate AlwaysHandsOutAll(weight: nat) {
    forall total, ds :: TotalWeight(ds) == weight && CalcIdealStake(total, ds).Ok? ==>
      TotalIdeal(CalcIdealStake(total, ds).value) == total
  }

  /** The limit of 10^18 on the total weight is exact: at or below it every total is handed
      out, and for each larger weight some total is not (a single token is handed to nobody). */
  lemma WeightLimitIsExact(weight: nat)
    requires 0 < weight <= U64_MAX
    ensures AlwaysHandsOutAll(weight) <==> weight <= ONE
  {
    if weight <= ONE {
      forall total, ds | TotalWeight(ds) == weight && CalcIdealStake(total, ds).Ok?
        ensures TotalIdeal(CalcIdealStake(total, ds).value) == total
      {
        IdealStakesConserve(total, ds);
      }
    } else {
      HeavyWeightLosesStake(weight);
      var ds := [Delegation("v", 0, weight)];
      assert TotalIdeal(CalcIdealStake(1, ds).value) != 1;
    }
  }

  lemma HeavyWeightLosesStake(weight: nat)
    requires ONE < weight <= U64_MAX
    ensures var ds := [Delegation("v", 0, weight)];
            && TotalWeight(ds) == weight
            && CalcIdealStake(1, ds).Ok?
            && TotalIdeal(CalcIdealStake(1, ds).value) == 0
  {
    var ds := [Delegation("v", 0, weight)];
    assert ds[1..] == [];
    FloorBounds(ONE, weight);
    assert Ratio(1, weight) == 0;
    var head := IdealHead(ds[0], 0, 1).value;
    assert head.idealStake == 0;
    assert IdealStakes(ds[1..], 0, 1) == Ok([]);
    assert IdealStakes(ds, 0, 1) == Ok([head] + []);
    assert ([head] + [])[1..] == [];
  }

  // ---------------------------------------------------------------- distribute_stake_*

  /** One validator of the walk: its entry afterwards and what is left. The reserved token
      is part of the change, so it is added back before the gap is filled. */
  function SpreadOne(dir: Direction, d: IdealDelegation, left: nat): (IdealDelegation, nat) {
    if Gap(dir, d) == 0 || left == 0 then (d, left)
    else
      var change := Min(Gap(dir, d), left + 1);
      (d.(stakeChange := change), left + 1 - change)
  }

  function Spread(dir: Direction, xs: seq<IdealDelegation>, left: nat): seq<IdealDelegation> {
    if xs == [] then []
    else
      var (head, rest) := SpreadOne(dir, xs[0], left);
      [head] + Spread(dir, xs[1..], rest)
  }

  ghost predicate Reserved(xs: seq<IdealDelegation>) {
    forall i :: 0 <= i < |xs| ==> xs[i].stakeChange == 1
  }

  lemma SpreadOneConserves(dir: Direction, d: IdealDelegation, left: nat)
    requires d.stakeChange == 1
    ensures var (head, rest) := SpreadOne(dir, d, left);
            && head.stakeChange + rest == left + 1
            && 1 <= head.stakeChange <= Max(1, Gap(dir, d))
            && (rest > 0 ==> head.stakeChange == Max(1, Gap(dir, d)))
            && head == d.(stakeChange := head.stakeChange)
  {
  }

  /** The changes add up to the amount, or to the whole demand when that is smaller. */
  lemma {:induction false} SpreadConserves(dir: Direction, xs: seq<IdealDelegation>, left: nat)
    requires Reserved(xs)
    ensures TotalChange(Spread(dir, xs, left)) == Min(|xs| + left, Demand(dir, xs))
    ensures Demand(dir, xs) >= |xs|
  {
    if xs != [] {
      var rest := SpreadOne(dir, xs[0], left).1;
      SpreadOneConserves(dir, xs[0], left);
      SpreadConserves(dir, xs[1..], rest);
      assert Spread(dir, xs, left)[1..] == Spread(dir, xs[1..], rest);
    }
  }

  /** Every validator gets at least the reserved token and at most its gap, and nothing
      else about it changes. */
  lemma {:induction false} SpreadBounded(dir: Direction, xs: seq<IdealDelegation>, left: nat)
    requires Reserved(xs)
    ensures |Spread(dir, xs, left)| == |xs|
    ensures forall i :: 0 <= i < |xs| ==> Moved(dir, xs[i], Spread(dir, xs, left)[i])
  {
    if xs != [] {
      var (head, rest) := SpreadOne(dir, xs[0], left);
      SpreadOneConserves(dir, xs[0], left);
      SpreadBounded(dir, xs[1..], rest);
      var ys := Spread(dir, xs, left);
      assert ys == [head] + Spread(dir, xs[1..], rest);
      forall i | 0 <= i < |xs| ensures Moved(dir, xs[i], ys[i]) {
        if i > 0 { assert Moved(dir, xs[1..][i - 1], Spread(dir, xs[1..], rest)[i - 1]); }
      }
    }
  }

  ghost predicate Moved(dir: Direction, x: IdealDelegation, y: IdealDelegation) {
    1 <= y.stakeChange <= Max(1, Gap(dir, x)) && y == x.(stakeChange := y.stakeChange)
  }

  // ---------------------------------------------------------------- calc_deposit, calc_withdraw

  function CalcDeposit(deposit: nat, ds: seq<Delegation>): Result<seq<IdealDelegation>> {
    var total := TotalStake(ds) + deposit;
    if total > U128_MAX then Err(Overflow)
    else
      var xs :- CalcIdealStake(total, ds);
      if deposit < |xs| then Err(Overflow)
      else Ok(Spread(Deposit, xs, deposit - |xs|))
  }

  function CalcWithdraw(withdraw: nat, ds: seq<Delegation>): Result<seq<IdealDelegation>> {
    if TotalStake(ds) > U128_MAX then Err(Overflow)
    else if TotalStake(ds) < withdraw then Err(TooBigWithdraw)
    else
      var xs :- CalcIdealStake(TotalStake(ds) - withdraw, ds);
      if withdraw < |xs| then Err(Overflow)
      else Ok(Spread(Withdraw, xs, withdraw - |xs|))
  }

  lemma {:induction false} PrefixStake(xs: seq<IdealDelegation>, ds: seq<Delegation>)
    requires DescribesPrefix(xs, ds)
    ensures TotalCurrent(xs) + TotalStake(ds[|xs|..]) == TotalStake(ds)
  {
    if xs != [] {
      PrefixStake(xs[1..], ds[1..]);
      assert ds[1..][|xs| - 1..] == ds[|xs|..];
    }
  }

  lemma {:induction false} DemandCoversGap(dir: Direction, xs: seq<IdealDelegation>)
    ensures dir.Deposit? ==> Demand(dir, xs) + TotalCurrent(xs) >= TotalIdeal(xs)
    ensures dir.Withdraw? ==> Demand(dir, xs) + TotalIdeal(xs) >= TotalCurrent(xs)
  {
    if xs != [] { DemandCoversGap(dir, xs[1..]); }
  }

  /** Each entry of a plan is the entry of `calc_ideal_stake` at the same position, for the
      validator at that position of the input, with a change between the reserved token and
      the gap to that ideal stake; nobody gets more than the reserved token before everyone
      in front has got the whole gap. */
  ghost predicate Follows(dir: Direction, ys: seq<IdealDelegation>, xs: seq<IdealDelegation>, ds: seq<Delegation>) {
    && |ys| == |xs| <= |ds|
    && (forall i :: 0 <= i < |ys| ==>
          && ys[i].valoper == ds[i].valoper
          && ys[i].currentStake == ds[i].stake
          && ys[i].weight == ds[i].weight
          && ys[i].idealStake == xs[i].idealStake
          && 1 <= ys[i].stakeChange <= Max(1, Gap(dir, ys[i])))
    && (forall i, j :: 0 <= i < j < |ys| && ys[j].stakeChange > 1 ==> ys[i].stakeChange == Max(1, Gap(dir, ys[i])))
  }

  lemma SpreadFollows(dir: Direction, xs: seq<IdealDelegation>, ds: seq<Delegation>, left: nat)
    requires DescribesPrefix(xs, ds)
    ensures Follows(dir, Spread(dir, xs, left), xs, ds)
  {
    SpreadBounded(dir, xs, left);
    forall i | 0 <= i < |xs| ensures Moved(dir, xs[i], Spread(dir, xs, left)[i]) {}
    SpreadIsGreedy(dir, xs, left);
  }

  lemma {:induction false} NothingLeft(dir: Direction, xs: seq<IdealDelegation>)
    ensures Spread(dir, xs, 0) == xs
  {
    if xs != [] { NothingLeft(dir, xs[1..]); }
  }

  /** Gaps are filled from the front. */
  lemma {:induction false} SpreadIsGreedy(dir: Direction, xs: seq<IdealDelegation>, left: nat)
    requires Reserved(xs)
    ensures |Spread(dir, xs, left)| == |xs|
    ensures forall i, j :: 0 <= i < j < |xs| && Spread(dir, xs, left)[j].stakeChange > 1 ==>
              Spread(dir, xs, left)[i].stakeChange == Max(1, Gap(dir, xs[i]))
  {
    if xs != [] {
      var (head, rest) := SpreadOne(dir, xs[0], left);
      SpreadOneConserves(dir, xs[0], left);
      SpreadIsGreedy(dir, xs[1..], rest);
      if rest == 0 { NothingLeft(dir, xs[1..]); }
      assert Spread(dir, xs, left) == [head] + Spread(dir, xs[1..], rest);
    }
  }

  /** A successful deposit plan spends the deposit exactly, up to the share lost to an
      extreme total weight, and never sends a validator beyond its ideal stake. */
  lemma DepositConserves(deposit: nat, ds: seq<Delegation>)
    requires CalcDeposit(deposit, ds).Ok?
    ensures CalcIdealStake(TotalStake(ds) + deposit, ds).Ok?
    ensures var ys := CalcDeposit(deposit, ds).value;
            && TotalChange(ys) <= deposit <= TotalChange(ys) + Dust(TotalWeight(ds))
            && (TotalWeight(ds) <= ONE ==> TotalChange(ys) == deposit)
            && Follows(Deposit, ys, CalcIdealStake(TotalStake(ds) + deposit, ds).value, ds)
  {
    var total := TotalStake(ds) + deposit;
    IdealStakesConserve(total, ds);
    DepositIsSpread(deposit, ds);
    var xs := CalcIdealStake(total, ds).value;
    DepositPlan(deposit, ds, xs, total - TotalIdeal(xs));
  }

  lemma DepositIsSpread(deposit: nat, ds: seq<Delegation>)
    requires CalcDeposit(deposit, ds).Ok?
    ensures CalcIdealStake(TotalStake(ds) + deposit, ds).Ok?
    ensures var xs := CalcIdealStake(TotalStake(ds) + deposit, ds).value;
            |xs| <= deposit && CalcDeposit(deposit, ds) == Ok(Spread(Deposit, xs, deposit - |xs|))
  {
  }

  lemma DepositPlan(deposit: nat, ds: seq<Delegation>, xs: seq<IdealDelegation>, dust: nat)
    requires DescribesPrefix(xs, ds) && |xs| <= deposit
    requires TotalIdeal(xs) <= TotalStake(ds) + deposit <= TotalIdeal(xs) + dust
    ensures var ys := Spread(Deposit, xs, deposit - |xs|);
            TotalChange(ys) <= deposit <= TotalChange(ys) + dust && Follows(Deposit, ys, xs, ds)
  {
    SpreadConserves(Deposit, xs, deposit - |xs|);
    SpreadFollows(Deposit, xs, ds, deposit - |xs|);
    DemandCoversGap(Deposit, xs);
    PrefixStake(xs, ds);
  }

  /** A withdrawal plan never takes more than asked and falls short by at most the stake
      of the validators behind the early break. */
  lemma WithdrawBounded(withdraw: nat, ds: seq<Delegation>)
    requires CalcWithdraw(withdraw, ds).Ok?
    ensures withdraw <= TotalStake(ds) && CalcIdealStake(TotalStake(ds) - withdraw, ds).Ok?
    ensures var ys := CalcWithdraw(withdraw, ds).value;
            && Follows(Withdraw, ys, CalcIdealStake(TotalStake(ds) - withdraw, ds).value, ds)
            && TotalChange(ys) <= withdraw <= TotalChange(ys) + TotalStake(ds[|ys|..])
            && (TotalStake(ds[|ys|..]) == 0 ==> TotalChange(ys) == withdraw)
  {
    WithdrawIsSpread(withdraw, ds);
    var total := TotalStake(ds) - withdraw;
    IdealStakesWithin(total, ds);
    WithdrawPlan(withdraw, ds, CalcIdealStake(total, ds).value);
  }

  lemma IdealStakesWithin(total: nat, ds: seq<Delegation>)
    requires CalcIdealStake(total, ds).Ok?
    ensures DescribesPrefix(CalcIdealStake(total, ds).value, ds) && TotalIdeal(CalcIdealStake(total, ds).value) <= total
  {
    IdealStakesShape(ds, Ratio(total, TotalWeight(ds)), total);
  }

  lemma WithdrawIsSpread(withdraw: nat, ds: seq<Delegation>)
    requires CalcWithdraw(withdraw, ds).Ok?
    ensures withdraw <= TotalStake(ds) && CalcIdealStake(TotalStake(ds) - withdraw, ds).Ok?
    ensures var xs := CalcIdealStake(TotalStake(ds) - withdraw, ds).value;
            |xs| <= withdraw && CalcWithdraw(withdraw, ds) == Ok(Spread(Withdraw, xs, withdraw - |xs|))
  {
  }

  lemma WithdrawPlan(withdraw: nat, ds: seq<Delegation>, xs: seq<IdealDelegation>)
    requires DescribesPrefix(xs, ds) && |xs| <= withdraw <= TotalStake(ds)
    requires TotalIdeal(xs) <= TotalStake(ds) - withdraw
    ensures var ys := Spread(Withdraw, xs, withdraw - |xs|);
            && Follows(Withdraw, ys, xs, ds)
            && TotalChange(ys) <= withdraw <= TotalChange(ys) + TotalStake(ds[|ys|..])
  {
    SpreadConserves(Withdraw, xs, withdraw - |xs|);
    SpreadFollows(Withdraw, xs, ds, withdraw - |xs|);
    DemandCoversGap(Withdraw, xs);
    PrefixStake(xs, ds);
  }

  /** The token reserved for every validator makes a withdrawal plan undelegate stake that
      is not there exactly when one of the validators that `calc_ideal_stake` reaches before
      its break holds none. */
  lemma WithdrawFeasibleIff(withdraw: nat, ds: seq<Delegation>)
    requires CalcWithdraw(withdraw, ds).Ok?
    ensures withdraw <= TotalStake(ds) && CalcIdealStake(TotalStake(ds) - withdraw, ds).Ok?
    ensures var ys := CalcWithdraw(withdraw, ds).value;
            var reached := |CalcIdealStake(TotalStake(ds) - withdraw, ds).value|;
            && |ys| == reached <= |ds|
            && ((forall i :: 0 <= i < |ys| ==> ys[i].stakeChange <= ds[i].stake)
                <==> (forall i :: 0 <= i < reached ==> ds[i].stake != 0))
  {
    WithdrawBounded(withdraw, ds);
    var ys := CalcWithdraw(withdraw, ds).value;
    forall i | 0 <= i < |ys|
      ensures ys[i].stakeChange <= ds[i].stake <==> ds[i].stake != 0
    {
      assert Gap(Withdraw, ys[i]) <= ds[i].stake;
    }
  }

  /** Withdrawing four tokens from two equal validators, of which the first holds none, asks
      that one for a token. */
  lemma EmptyValidatorIsOverdrawn()
    ensures var ds := [Delegation("a", 0, 1), Delegation("b", 10, 1)];
            var plan := CalcWithdraw(4, ds);
            && plan.Ok? && |plan.value| == 2
            && plan.value[0].stakeChange == 1 && plan.value[1].stakeChange == 3
            && plan.value[0].stakeChange > ds[0].stake
  {
    var a, b := Delegation("a", 0, 1), Delegation("b", 10, 1);
    var ds := [a, b];
    assert ds[1..] == [b] && [b][1..] == [];
    assert TotalStake([b]) == 10 && TotalWeight([b]) == 1;
    assert TotalStake(ds) == 10 && TotalWeight(ds) == 2;
    assert Ratio(6, 2) == 3 * ONE && Ceil(3 * ONE) == 3;
    var x, y := IdealDelegation("a", 3, 0, 1, 1), IdealDelegation("b", 3, 10, 1, 1);
    assert IdealHead(a, 3 * ONE, 6) == Ok(x) && IdealHead(b, 3 * ONE, 3) == Ok(y);
    assert IdealStakes([b], 3 * ONE, 3) == Ok([y]);
    assert IdealStakes(ds, 3 * ONE, 6) == Ok([x] + [y]);
    assert CalcIdealStake(6, ds) == Ok([x, y]) by { assert [x] + [y] == [x, y]; }
    assert [x, y][1..] == [y] && [y][1..] == [];
    assert SpreadOne(Withdraw, x, 2) == (x, 2);
    assert SpreadOne(Withdraw, y, 2) == (y.(stakeChange := 3), 0);
    assert Spread(Withdraw, [y], 2) == [y.(stakeChange := 3)] + Spread(Withdraw, [], 0);
    assert Spread(Withdraw, [x, y], 2) == [x] + Spread(Withdraw, [y], 2);
  }
}
