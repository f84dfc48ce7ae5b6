/** Contract `strategy`: joins the validator set with the reported delegations and asks
    `distribution` for a plan. */
module Strategy {
  import opened Results
  import D = Distribution

  datatype Validator = Validator(valoper: string, weight: nat)

  /** One reported delegation of the interchain account. */
  datatype DelegationEntry = DelegationEntry(validator: string, denom: string, amount: nat)

  /** The amount the map built from the reports holds for a validator: a later report of the
      same validator replaces an earlier one, other denoms are ignored. */
  function Delegated(entries: seq<DelegationEntry>, denom: string, valoper: string): nat {
    if entries == [] then 0
    else
      var last := entries[|entries| - 1];
      if last.denom == denom && last.validator == valoper then last.amount
      else Delegated(entries[..|entries| - 1], denom, valoper)
  }

  /** What a validator's last report in the denom says, whatever was reported before it. */
  predicate IsLastReport(entries: seq<DelegationEntry>, denom: string, valoper: string, i: int) {
    && 0 <= i < |entries| && entries[i].denom == denom && entries[i].validator == valoper
    && forall j :: i < j < |entries| ==> !(entries[j].denom == denom && entries[j].validator == valoper)
  }

  lemma {:induction false} LastReportCounts(entries: seq<DelegationEntry>, denom: string, valoper: string)
    ensures forall i | IsLastReport(entries, denom, valoper, i) ::
              Delegated(entries, denom, valoper) == entries[i].amount
    ensures (forall i :: !IsLastReport(entries, denom, valoper, i)) ==> Delegated(entries, denom, valoper) == 0
  {
    if entries != [] {
      var n := |entries| - 1;
      LastReportCounts(entries[..n], denom, valoper);
      if entries[n].denom == denom && entries[n].validator == valoper {
        assert IsLastReport(entries, denom, valoper, n);
      } else {
        assert forall i | 0 <= i < n ::
          IsLastReport(entries[..n], denom, valoper, i) <==> IsLastReport(entries, denom, valoper, i);
      }
    }
  }

  function Join(validators: seq<Validator>, entries: seq<DelegationEntry>, denom: string): seq<D.Delegation> {
    if validators == [] then []
    else
      [D.Delegation(validators[0].valoper, Delegated(entries, denom, validators[0].valoper), validators[0].weight)]
      + Join(validators[1..], entries, denom)
  }

  function CalcDeposit(validators: seq<Validator>, entries: seq<DelegationEntry>, denom: string, deposit: nat)
    : Result<seq<D.IdealDelegation>>
  {
    D.CalcDeposit(deposit, Join(validators, entries, denom))
  }

  function CalcWithdraw(validators: seq<Validator>, entries: seq<DelegationEntry>, denom: string, withdraw: nat)
    : Result<seq<D.IdealDelegation>>
  {
    D.CalcWithdraw(withdraw, Join(validators, entries, denom))
  }

  function TotalWeight(validators: seq<Validator>): nat {
    if validators == [] then 0 else validators[0].weight + TotalWeight(validators[1..])
  }

  lemma {:induction false} JoinKeepsWeight(validators: seq<Validator>, entries: seq<DelegationEntry>, denom: string)
    ensures D.TotalWeight(Join(validators, entries, denom)) == TotalWeight(validators)
    ensures |Join(validators, entries, denom)| == |validators|
  {
    if validators != [] {
      JoinKeepsWeight(validators[1..], entries, denom);
      assert Join(validators, entries, denom)[1..] == Join(validators[1..], entries, denom);
    }
  }

  lemma {:induction false} JoinAt(validators: seq<Validator>, entries: seq<DelegationEntry>, denom: string, i: nat)
    requires i < |validators|
    ensures i < |Join(validators, entries, denom)|
    ensures Join(validators, entries, denom)[i]
         == D.Delegation(validators[i].valoper, Delegated(entries, denom, validators[i].valoper), validators[i].weight)
  {
    if i > 0 {
      JoinAt(validators[1..], entries, denom, i - 1);
      assert Join(validators, entries, denom)[1..] == Join(validators[1..], entries, denom);
    }
  }

  ghost predicate DistinctValidators(vs: seq<Validator>) {
    forall i, j :: 0 <= i < j < |vs| ==> vs[i].valoper != vs[j].valoper
  }

  /** No validator is reported twice in the denom; other denoms are free. */
  ghost predicate DistinctEntries(es: seq<DelegationEntry>, denom: string) {
    forall i, j :: 0 <= i < j < |es| && es[i].denom == denom && es[j].denom == denom ==>
      es[i].validator != es[j].validator
  }

  ghost predicate Member(vs: seq<Validator>, valoper: string) {
    exists i :: 0 <= i < |vs| && vs[i].valoper == valoper
  }

  /** The plan sees the whole stake, except what is delegated outside the validator set. */
  lemma {:induction false} JoinConservesStake(vs: seq<Validator>, es: seq<DelegationEntry>, denom: string)
    requires DistinctValidators(vs) && DistinctEntries(es, denom)
    ensures D.TotalStake(Join(vs, es, denom)) == StakeInside(vs, es, denom)
  {
    if es == [] {
      NothingDelegated(vs, denom);
    } else {
      var n := |es| - 1;
      JoinConservesStake(vs, es[..n], denom);
      AddEntry(vs, es, denom);
    }
  }

  /** The reported stake with validators of the set. */
  ghost function StakeInside(vs: seq<Validator>, es: seq<DelegationEntry>, denom: string): nat {
    if es == [] then 0
    else
      var last := es[|es| - 1];
      StakeInside(vs, es[..|es| - 1], denom)
      + if last.denom == denom && Member(vs, last.validator) then last.amount else 0
  }

  lemma {:induction false} NothingDelegated(vs: seq<Validator>, denom: string)
    ensures D.TotalStake(Join(vs, [], denom)) == 0
  {
    if vs != [] {
      NothingDelegated(vs[1..], denom);
      assert Join(vs, [], denom)[1..] == Join(vs[1..], [], denom);
    }
  }

  lemma {:induction false} AddEntry(vs: seq<Validator>, es: seq<DelegationEntry>, denom: string)
    requires es != [] && DistinctValidators(vs) && DistinctEntries(es, denom)
    ensures var last := es[|es| - 1];
            var added := if last.denom == denom && Member(vs, last.validator) then last.amount else 0;
            D.TotalStake(Join(vs, es, denom)) == D.TotalStake(Join(vs, es[..|es| - 1], denom)) + added
  {
    var last, before := es[|es| - 1], es[..|es| - 1];
    if vs != [] {
      AddEntry(vs[1..], es, denom);
      assert Join(vs, es, denom)[1..] == Join(vs[1..], es, denom);
      assert Join(vs, before, denom)[1..] == Join(vs[1..], before, denom);
      if vs[0].valoper == last.validator {
        if last.denom == denom { NotReported(before, denom, last.validator); }
        assert !Member(vs[1..], last.validator);
      } else {
        assert Member(vs, last.validator) <==> Member(vs[1..], last.validator) by {
          if Member(vs[1..], last.validator) {
            var i :| 0 <= i < |vs[1..]| && vs[1..][i].valoper == last.validator;
            assert vs[i + 1].valoper == last.validator;
          }
          if Member(vs, last.validator) {
            var i :| 0 <= i < |vs| && vs[i].valoper == last.validator;
            assert vs[1..][i - 1].valoper == last.validator;
          }
        }
      }
    }
  }

  lemma {:induction false} NotReported(es: seq<DelegationEntry>, denom: string, valoper: string)
    requires forall i :: 0 <= i < |es| && es[i].denom == denom ==> es[i].validator != valoper
    ensures Delegated(es, denom, valoper) == 0
  {
    if es != [] { NotReported(es[..|es| - 1], denom, valoper); }
  }

  /** `prepare_delegation_data`: collects the reports into a map, then pushes one delegation
      a validator. */
  method PrepareDelegationData(validators: seq<Validator>, entries: seq<DelegationEntry>, denom: string)
    returns (delegations: seq<D.Delegation>)
    ensures delegations == Join(validators, entries, denom)
  {
    var amounts: map<string, nat> := map[];
    for i := 0 to |entries|
      invariant forall v :: (if v in amounts then amounts[v] else 0) == Delegated(entries[..i], denom, v)
    {
      assert entries[..i + 1][..i] == entries[..i];
      if entries[i].denom == denom {
        amounts := amounts[entries[i].validator := entries[i].amount];
      }
    }
    assert entries[..|entries|] == entries;
    delegations := [];
    for i := 0 to |validators|
      invariant Join(validators, entries, denom) == delegations + Join(validators[i..], entries, denom)
    {
      var v := validators[i];
      assert validators[i..][1..] == validators[i + 1..];
      var stake := if v.valoper in amounts then amounts[v.valoper] else 0;
      delegations := delegations + [D.Delegation(v.valoper, stake, v.weight)];
    }
  }
}
