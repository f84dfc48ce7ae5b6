/** The LSM share maps of contract `core`: local denom to (remote denom, amount). */
module ShareLedger {
  import opened KeyOrder

  datatype Share = Share(remoteDenom: string, amount: nat)

  type Shares = map<string, Share>

  datatype RedeemItem = RedeemItem(amount: nat, localDenom: string, remoteDenom: string)

  function Total(m: Shares): nat
    decreases |m|
  {
    if m == map[] then 0
    else
      var k := Least(m.Keys);
      m[k].amount + Total(m - {k})
  }

  /** The items of a redeem message: every entry, in key order. */
  function RedeemItems(m: Shares): seq<RedeemItem>
    decreases |m|
  {
    if m == map[] then []
    else
      var k := Least(m.Keys);
      [RedeemItem(m[k].amount, k, m[k].remoteDenom)] + RedeemItems(m - {k})
  }

  function SumItems(items: seq<RedeemItem>): nat {
    if items == [] then 0 else items[0].amount + SumItems(items[1..])
  }

  function RemoveItems(m: Shares, items: seq<RedeemItem>): Shares {
    if items == [] then m else RemoveItems(m - {items[0].localDenom}, items[1..])
  }

  /** `one.unwrap_or((remote, 0))` followed by `new.1 += amount`. */
  function Credit(m: Shares, denom: string, remote: string, amount: nat): Shares {
    if denom in m then m[denom := Share(m[denom].remoteDenom, m[denom].amount + amount)]
    else m[denom := Share(remote, amount)]
  }

  /** Removes the entry when all of it leaves, and lowers it otherwise. */
  function Debit(m: Shares, denom: string, amount: nat): Shares
    requires denom in m && amount <= m[denom].amount
  {
    if m[denom].amount == amount then m - {denom}
    else m[denom := Share(m[denom].remoteDenom, m[denom].amount - amount)]
  }

  lemma {:induction false} TotalWithout(m: Shares, k: string)
    requires k in m
    ensures Total(m) == m[k].amount + Total(m - {k})
    decreases |m|
  {
    var l := Least(m.Keys);
    if l != k {
      TotalWithout(m - {l}, k);
      var rest := m - {k};
      assert m - {l} - {k} == rest - {l};
      assert l in rest;
      LeastOfSubset(m.Keys, rest.Keys);
    }
  }

  lemma LeastOfSubset(s: set<string>, t: set<string>)
    requires t <= s && s != {} && Least(s) in t
    ensures Least(t) == Least(s)
  {
    if Least(t) != Least(s) { LessIsStrict(Least(s), Least(t)); }
  }

  lemma TotalOfCredit(m: Shares, denom: string, remote: string, amount: nat)
    ensures Total(Credit(m, denom, remote, amount)) == Total(m) + amount
  {
    var after := Credit(m, denom, remote, amount);
    TotalWithout(after, denom);
    assert after - {denom} == m - {denom};
    if denom in m { TotalWithout(m, denom); } else { assert m - {denom} == m; }
  }

  lemma TotalOfDebit(m: Shares, denom: string, amount: nat)
    requires denom in m && amount <= m[denom].amount
    ensures Total(Debit(m, denom, amount)) + amount == Total(m)
  {
    TotalWithout(m, denom);
    var after := Debit(m, denom, amount);
    if denom in after {
      TotalWithout(after, denom);
      assert after - {denom} == m - {denom};
    }
  }

  /** Redeeming every entry takes exactly the ledger's total and leaves it empty. */
  lemma {:induction false} RedeemItemsCoverLedger(m: Shares)
    ensures SumItems(RedeemItems(m)) == Total(m)
    ensures RemoveItems(m, RedeemItems(m)) == map[]
    decreases |m|
  {
    if m != map[] {
      var k := Least(m.Keys);
      RedeemItemsCoverLedger(m - {k});
      assert RedeemItems(m)[1..] == RedeemItems(m - {k});
    }
  }

  /** The items carry each entry once: same denoms, remote denoms and amounts. */
  lemma {:induction false} RedeemItemsListLedger(m: Shares)
    ensures forall k :: k in m <==> exists i :: 0 <= i < |RedeemItems(m)| && RedeemItems(m)[i].localDenom == k
    ensures forall i :: 0 <= i < |RedeemItems(m)| ==>
              var item := RedeemItems(m)[i];
              item.localDenom in m && m[item.localDenom] == Share(item.remoteDenom, item.amount)
    ensures |RedeemItems(m)| == |m|
    decreases |m|
  {
    if m != map[] {
      var k := Least(m.Keys);
      var rest := m - {k};
      RedeemItemsListLedger(rest);
      var items := RedeemItems(m);
      assert items[1..] == RedeemItems(rest);
      assert items[0].localDenom == k;
      forall x | x in m ensures exists i :: 0 <= i < |items| && items[i].localDenom == x {
        if x != k {
          assert x in rest;
          var j :| 0 <= j < |RedeemItems(rest)| && RedeemItems(rest)[j].localDenom == x;
          assert items[j + 1] == RedeemItems(rest)[j];
        }
      }
      forall i | 0 <= i < |items|
        ensures items[i].localDenom in m
        ensures m[items[i].localDenom] == Share(items[i].remoteDenom, items[i].amount)
      {
        if i > 0 {
          assert items[i] == RedeemItems(rest)[i - 1];
          assert items[i].localDenom in rest;
        }
      }
    }
  }
}
