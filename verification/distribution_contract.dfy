/** The loops of contract `distribution`, proved against the functions of `Distribution`. */
module DistributionContract {
  import opened Results
  import opened FixedPoint
  import D = Distribution

  /** `calc_ideal_stake`: pushes one entry a validator until the total is used up. */
  method CalcIdealStake(totalStake: nat, delegations: seq<D.Delegation>)
    returns (r: Result<seq<D.IdealDelegation>>)
    ensures r == D.CalcIdealStake(totalStake, delegations)
  {
    var totalWeight := D.TotalWeight(delegations);
    if totalWeight > U64_MAX { return Err(Overflow); }
    if totalWeight == 0 { return Err(DivideByZero); }
    var stakePerWeight := Ratio(totalStake, totalWeight);
    if stakePerWeight > U128_MAX { return Err(Overflow); }
    r := PushIdealStakes(stakePerWeight, totalStake, delegations);
  }

  /** The loop of `calc_ideal_stake`. */
  method PushIdealStakes(stakePerWeight: nat, totalStake: nat, delegations: seq<D.Delegation>)
    returns (r: Result<seq<D.IdealDelegation>>)
    ensures r == D.IdealStakes(delegations, stakePerWeight, totalStake)
  {
    var left: nat, i := totalStake, 0;
    var distribution: seq<D.IdealDelegation> := [];
    ghost var all := D.IdealStakes(delegations, stakePerWeight, totalStake);
    assert delegations[0..] == delegations && Prepend(distribution, all) == all by {
      if all.Ok? { assert [] + all.value == all.value; }
    }
    while i < |delegations|
      invariant 0 <= i <= |delegations|
      invariant all == Prepend(distribution, D.IdealStakes(delegations[i..], stakePerWeight, left))
    {
      Unroll(delegations, i, stakePerWeight, left);
      var head :- IdealEntry(delegations[i], stakePerWeight, left);
      PrependTwice(distribution, [head], D.IdealStakes(delegations[i + 1..], stakePerWeight, left - head.idealStake));
      distribution := distribution + [head];
      left := left - head.idealStake;
      if left == 0 { return Ok(distribution); }
      i := i + 1;
    }
    assert delegations[i..] == [] && distribution + [] == distribution;
    return Ok(distribution);
  }

  method IdealEntry(d: D.Delegation, stakePerWeight: nat, left: nat) returns (r: Result<D.IdealDelegation>)
    ensures r == D.IdealHead(d, stakePerWeight, left)
    ensures r.Ok? ==> r.value.idealStake <= left
  {
    if stakePerWeight * d.weight > U128_MAX { return Err(Overflow); }
    var idealStake := Ceil(stakePerWeight * d.weight);
    if left < idealStake { idealStake := left; }
    return Ok(D.IdealDelegation(d.valoper, idealStake, d.stake, 1, d.weight));
  }

  ghost function Prepend(xs: seq<D.IdealDelegation>, r: Result<seq<D.IdealDelegation>>)
    : Result<seq<D.IdealDelegation>>
  {
    if r.Ok? then Ok(xs + r.value) else r
  }

  lemma PrependTwice(xs: seq<D.IdealDelegation>, ys: seq<D.IdealDelegation>, r: Result<seq<D.IdealDelegation>>)
    ensures Prepend(xs, Prepend(ys, r)) == Prepend(xs + ys, r)
  {
    if r.Ok? { assert xs + ys + r.value == xs + (ys + r.value); }
  }

  lemma Unroll(ds: seq<D.Delegation>, i: nat, spw: nat, left: nat)
    requires i < |ds|
    ensures D.IdealStakes(ds[i..], spw, left)
         == var h := D.IdealHead(ds[i], spw, left);
            if h.Err? then Err(h.error)
            else if h.value.idealStake >= left then Ok([h.value])
            else Prepend([h.value], D.IdealStakes(ds[i + 1..], spw, left - h.value.idealStake))
  {
    assert ds[i..][0] == ds[i] && ds[i..][1..] == ds[i + 1..];
  }

  lemma {:induction false} SpreadLength(dir: D.Direction, xs: seq<D.IdealDelegation>, left: nat)
    ensures |D.Spread(dir, xs, left)| == |xs|
  {
    if xs != [] { SpreadLength(dir, xs[1..], D.SpreadOne(dir, xs[0], left).1); }
  }

  lemma UnrollSpread(dir: D.Direction, xs: seq<D.IdealDelegation>, ys: seq<D.IdealDelegation>, i: nat, left: nat)
    requires i < |xs| == |ys| && D.Spread(dir, xs[i..], left) == ys[i..]
    ensures var (head, rest) := D.SpreadOne(dir, xs[i], left);
            ys[i] == head && D.Spread(dir, xs[i + 1..], rest) == ys[i + 1..]
  {
    assert xs[i..][0] == xs[i] && xs[i..][1..] == xs[i + 1..];
    assert ys[i..][0] == ys[i] && ys[i..][1..] == ys[i + 1..];
  }

  /** `distribute_stake_deposit`: raises the changes in place, in list order. */
  method DistributeStakeDeposit(amount: nat, a: array<D.IdealDelegation>)
    requires a.Length <= amount
    modifies a
    ensures a[..] == D.Spread(D.Deposit, old(a[..]), amount - a.Length)
  {
    ghost var xs := a[..];
    ghost var ys := D.Spread(D.Deposit, xs, amount - a.Length);
    var stakeLeft := amount - a.Length;
    SpreadLength(D.Deposit, xs, stakeLeft);
    for i := 0 to a.Length
      invariant 0 <= stakeLeft
      invariant forall j :: i <= j < a.Length ==> a[j] == xs[j]
      invariant forall j :: 0 <= j < i ==> a[j] == ys[j]
      invariant D.Spread(D.Deposit, xs[i..], stakeLeft) == ys[i..]
    {
      UnrollSpread(D.Deposit, xs, ys, i, stakeLeft);
      var d := a[i];
      if !(d.idealStake <= d.currentStake || stakeLeft == 0) {
        stakeLeft := stakeLeft + 1;
        var stakeDiff := d.idealStake - d.currentStake;
        if stakeLeft < stakeDiff { stakeDiff := stakeLeft; }
        stakeLeft := stakeLeft - stakeDiff;
        a[i] := d.(stakeChange := stakeDiff);
      }
    }
  }

  /** `distribute_stake_withdraw`: the same walk over the validators above their ideal stake. */
  method DistributeStakeWithdraw(amount: nat, a: array<D.IdealDelegation>)
    requires a.Length <= amount
    modifies a
    ensures a[..] == D.Spread(D.Withdraw, old(a[..]), amount - a.Length)
  {
    ghost var xs := a[..];
    ghost var ys := D.Spread(D.Withdraw, xs, amount - a.Length);
    var stakeLeft := amount - a.Length;
    SpreadLength(D.Withdraw, xs, stakeLeft);
    for i := 0 to a.Length
      invariant 0 <= stakeLeft
      invariant forall j :: i <= j < a.Length ==> a[j] == xs[j]
      invariant forall j :: 0 <= j < i ==> a[j] == ys[j]
      invariant D.Spread(D.Withdraw, xs[i..], stakeLeft) == ys[i..]
    {
      UnrollSpread(D.Withdraw, xs, ys, i, stakeLeft);
      var d := a[i];
      if !(d.idealStake >= d.currentStake || stakeLeft == 0) {
        stakeLeft := stakeLeft + 1;
        var stakeDiff := d.currentStake - d.idealStake;
        if stakeLeft < stakeDiff { stakeDiff := stakeLeft; }
        stakeLeft := stakeLeft - stakeDiff;
        a[i] := d.(stakeChange := stakeDiff);
      }
    }
  }

  method CalcDeposit(deposit: nat, delegations: seq<D.Delegation>)
    returns (r: Result<seq<D.IdealDelegation>>)
    ensures r == D.CalcDeposit(deposit, delegations)
  {
    var total := D.TotalStake(delegations) + deposit;
    if total > U128_MAX { return Err(Overflow); }
    var ideal :- CalcIdealStake(total, delegations);
    if deposit < |ideal| { return Err(Overflow); }
    var a := new D.IdealDelegation[|ideal|](i requires 0 <= i < |ideal| => ideal[i]);
    assert a[..] == ideal;
    DistributeStakeDeposit(deposit, a);
    return Ok(a[..]);
  }

  method CalcWithdraw(withdraw: nat, delegations: seq<D.Delegation>)
    returns (r: Result<seq<D.IdealDelegation>>)
    ensures r == D.CalcWithdraw(withdraw, delegations)
  {
    if D.TotalStake(delegations) > U128_MAX { return Err(Overflow); }
    if D.TotalStake(delegations) < withdraw { return Err(TooBigWithdraw); }
    var ideal :- CalcIdealStake(D.TotalStake(delegations) - withdraw, delegations);
    if withdraw < |ideal| { return Err(Overflow); }
    var a := new D.IdealDelegation[|ideal|](i requires 0 <= i < |ideal| => ideal[i]);
    assert a[..] == ideal;
    DistributeStakeWithdraw(withdraw, a);
    return Ok(a[..]);
  }
}
