/** Contract `auto-withdrawer` over its stored items. Every handler makes the change of the
    stored items that `AutoWithdrawerSpec` describes; the query walks the bondings in key order. */
module AutoWithdrawerContract {
  import opened Results
  import opened KeyOrder
  import opened AutoWithdrawerSpec
  import opened Pagination

  const PAGINATION_DEFAULT_LIMIT: nat := 100

  class AutoWithdrawer {
    const ldToken: string
    var bondings: map<string, Bonding>
    var coreUnbond: Option<Bonding>

    function State(): Storage
      reads this
    {
      Storage(bondings, coreUnbond)
    }

    constructor (ldToken: string)
      ensures State() == Init().storage && this.ldToken == ldToken
    {
      this.ldToken := ldToken;
      bondings, coreUnbond := map[], None;
    }

    method ExecuteBondWithLdAssets(sender: string, funds: seq<Coin>) returns (r: Result<seq<Message>>)
      modifies this
      ensures match BondWithLdAssets(old(State()), ldToken, sender, funds)
              case Ok(out) => r == Ok(out.1) && State() == out.0
              case Err(e) => r == Err(e) && State() == old(State())
    {
      var i := 0;
      while i < |funds| && funds[i].denom != ldToken
        invariant i <= |funds|
        invariant Position(funds, ldToken) == i + Position(funds[i..], ldToken)
      {
        i := i + 1;
      }
      if i == |funds| { return Err(LdTokenExpected); }
      var ldAsset := funds[i];
      var deposit := funds[i := funds[|funds| - 1]][..|funds| - 1];
      if deposit == [] { return Err(DepositExpected); }
      coreUnbond := Some(Bonding(sender, deposit));
      return Ok([CoreUnbond(ldAsset)]);
    }

    /** The reply to a successful unbond reads the slot, clears it and stores the bonding. */
    method Reply(token: string) returns (r: Result<()>)
      modifies this
      ensures match ReplyCoreUnbond(old(State()), token)
              case Ok(s) => r.Ok? && State() == s
              case Err(e) => r == Err(e) && State() == old(State())
    {
      if coreUnbond.None? { return Err(NotFound); }
      var pending := coreUnbond.value;
      coreUnbond := None;
      bondings := bondings[token := pending];
      return Ok(());
    }

    method ExecuteBondWithNft(sender: string, funds: seq<Coin>, token: string) returns (r: Result<seq<Message>>)
      modifies this
      ensures match BondWithNft(old(State()), sender, funds, token)
              case Ok(out) => r == Ok(out.1) && State() == out.0
              case Err(e) => r == Err(e) && State() == old(State())
    {
      if funds == [] { return Err(DepositExpected); }
      bondings := bondings[token := Bonding(sender, funds)];
      return Ok([TransferNft(SELF, token)]);
    }

    method ExecuteUnbond(sender: string, token: string) returns (r: Result<seq<Message>>)
      modifies this
      ensures match Unbond(old(State()), sender, token)
              case Ok(out) => r == Ok(out.1) && State() == out.0
              case Err(e) => r == Err(e) && State() == old(State())
    {
      if token !in bondings { return Err(NotFound); }
      var bonding := bondings[token];
      if sender != bonding.bonder { return Err(Unauthorized); }
      bondings := bondings - {token};
      return Ok([TransferNft(sender, token), BankSend(sender, bonding.deposit)]);
    }

    method ExecuteWithdraw(sender: string, token: string) returns (r: Result<seq<Message>>)
      modifies this
      ensures match Withdraw(old(State()), sender, token)
              case Ok(out) => r == Ok(out.1) && State() == out.0
              case Err(e) => r == Err(e) && State() == old(State())
    {
      if token !in bondings { return Err(NotFound); }
      var bonding := bondings[token];
      bondings := bondings - {token};
      return Ok([SendNft(token, bonding.bonder), BankSend(sender, bonding.deposit)]);
    }

    /** A query for all bondings, or those of one user, lists from its page key up to the next
        one exactly the vouchers asked for, each once, in key order, with its record. */
    method QueryAllBondings(user: Option<string>, limit: Option<nat>, pageKey: Option<string>)
      returns (page: seq<(string, Bonding)>, nextPageKey: Option<string>)
      ensures forall i :: 0 <= i < |page| ==>
                && page[i].0 in bondings && page[i].1 == bondings[page[i].0]
                && (user.None? || page[i].1.bonder == user.value)
                && InPage(page[i].0, pageKey, nextPageKey)
      ensures forall t | t in bondings && (user.None? || bondings[t].bonder == user.value)
                         && InPage(t, pageKey, nextPageKey) ::
                (t, bondings[t]) in page
      ensures forall i, j :: 0 <= i < j < |page| ==> Less(page[i].0, page[j].0)
      ensures var max := if limit.Some? then limit.value else 100;
              |page| <= max && (nextPageKey.Some? ==> |page| == max)
      ensures nextPageKey.Some? ==>
                && nextPageKey.value in bondings
                && (user.None? || bondings[nextPageKey.value].bonder == user.value)
                && (pageKey.Some? ==> !Less(nextPageKey.value, pageKey.value))
      ensures var (keys, next) := Page(SortedKeys(Selected(bondings, user)), pageKey,
                                       limit.GetOr(PAGINATION_DEFAULT_LIMIT));
              nextPageKey == next && |page| == |keys| && forall i :: 0 <= i < |page| ==> page[i].0 == keys[i]
    {
      var max := limit.GetOr(PAGINATION_DEFAULT_LIMIT);
      var selected := Selected(bondings, user);
      var iter := KeysFrom(selected, pageKey);
      page := [];
      while |page| < max && |page| < |iter|
        invariant |page| <= max && |page| <= |iter|
        invariant forall i :: 0 <= i < |page| ==> iter[i] in bondings && page[i] == (iter[i], bondings[iter[i]])
      {
        page := page + [(iter[|page|], bondings[iter[|page|]])];
      }
      nextPageKey := if |page| < |iter| then Some(iter[|page|]) else None;
      PageHolds(bondings, selected, page, pageKey, max);
    }
  }

  /** The vouchers a query ranges over. */
  function Selected(bondings: map<string, Bonding>, user: Option<string>): (selected: set<string>)
    ensures forall t :: t in selected <==> t in bondings && (user.None? || bondings[t].bonder == user.value)
  {
    set t | t in bondings && (user.None? || bondings[t].bonder == user.value)
  }

  /** From one page key, inclusive, up to the next. */
  predicate InPage(t: string, pageKey: Option<string>, nextPageKey: Option<string>) {
    (pageKey.Some? ==> !Less(t, pageKey.value)) && (nextPageKey.Some? ==> Less(t, nextPageKey.value))
  }

  lemma PageHolds(bondings: map<string, Bonding>, selected: set<string>, page: seq<(string, Bonding)>,
                  pageKey: Option<string>, max: nat)
    requires forall t | t in selected :: t in bondings
    requires var keys := Page(SortedKeys(selected), pageKey, max).0;
             && |page| == |keys|
             && forall i :: 0 <= i < |page| ==> keys[i] in bondings && page[i] == (keys[i], bondings[keys[i]])
    ensures var next := Page(SortedKeys(selected), pageKey, max).1;
            && (forall i :: 0 <= i < |page| ==> page[i].0 in selected && InPage(page[i].0, pageKey, next))
            && (forall t | t in selected && InPage(t, pageKey, next) :: (t, bondings[t]) in page)
            && (forall i, j :: 0 <= i < j < |page| ==> Less(page[i].0, page[j].0))
            && (next.Some? ==> next.value in selected && (pageKey.Some? ==> !Less(next.value, pageKey.value)))
  {
    KeysHold(selected, pageKey, max);
    var (keys, next) := Page(SortedKeys(selected), pageKey, max);
    forall i | 0 <= i < |page| ensures page[i].0 in selected && InPage(page[i].0, pageKey, next) {
      assert keys[i] in keys;
    }
    forall t | t in selected && InPage(t, pageKey, next) ensures (t, bondings[t]) in page {
      var i :| 0 <= i < |keys| && keys[i] == t;
      assert page[i] == (t, bondings[t]);
    }
  }

  lemma KeysHold(selected: set<string>, pageKey: Option<string>, max: nat)
    ensures var (keys, next) := Page(SortedKeys(selected), pageKey, max);
            && Ascending(keys)
            && (forall t :: t in keys <==> t in selected && InPage(t, pageKey, next))
            && (next.Some? ==> next.value in selected && (pageKey.Some? ==> !Less(next.value, pageKey.value)))
  {
    var ks := SortedKeys(selected);
    SortedKeysVisitAll(selected);
    PageIsInterval(ks, pageKey, max);
    FromIsSuffix(ks, pageKey);
    var next := Page(ks, pageKey, max).1;
    if next.Some? {
      assert next.value in From(ks, pageKey);
      assert next.value in ks;
    }
  }

  /** The storage iterator of a query. */
  function KeysFrom(selected: set<string>, start: Option<string>): (iter: seq<string>)
    ensures forall i :: 0 <= i < |iter| ==> iter[i] in selected
  {
    SortedKeysVisitAll(selected);
    FromIsSuffix(SortedKeys(selected), start);
    From(SortedKeys(selected), start)
  }

  /** Following the keys with enough requests lists all bondings, or all bondings of one user:
      every one of them, once, in key order, and no other. */
  lemma QueriedPagesCover(bondings: map<string, Bonding>, user: Option<string>, limit: nat, lists: seq<seq<string>>)
    requires Unchanged(lists, SortedKeys(Selected(bondings, user)))
    requires |lists| * limit >= |bondings|
    ensures var (listed, last) := Follow(lists, At(None), limit);
            && last.Done? && Ascending(listed)
            && forall t :: t in listed <==> t in bondings && (user.None? || bondings[t].bonder == user.value)
  {
    var selected := Selected(bondings, user);
    SortedKeysVisitAll(selected);
    SelectedAtMost(bondings, selected);
    PagesAfter(lists, SortedKeys(selected), limit);
  }

  lemma {:induction false} SelectedAtMost(bondings: map<string, Bonding>, selected: set<string>)
    requires forall t | t in selected :: t in bondings
    ensures |selected| <= |bondings|
    decreases |selected|
  {
    if selected != {} {
      var t :| t in selected;
      SelectedAtMost(bondings - {t}, selected - {t});
      assert |bondings - {t}| == |bondings| - 1 by { assert (bondings - {t}).Keys == bondings.Keys - {t}; }
    }
  }
}
