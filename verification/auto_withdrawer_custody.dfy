/** The auto-withdrawer can always return what it holds to the bonder on record: its balances
    cover the recorded deposits, and it owns every bonded voucher. Bonding a bonded voucher again
    changes who is on record. */
module AutoWithdrawerCustody {
  import opened Results
  import opened KeyOrder
  import opened AutoWithdrawerSpec

  /** What the records promise in one denom. */
  ghost function Recorded(bondings: map<string, Bonding>, denom: string): nat
    decreases |bondings|
  {
    if bondings == map[] then 0
    else
      var k := Least(bondings.Keys);
      AmountOf(bondings[k].deposit, denom) + Recorded(bondings - {k}, denom)
  }

  /** In every denom the contract holds at least what it recorded, it owns every bonded
      voucher, and no unbond is pending. */
  ghost predicate Held(w: World) {
    && (forall denom :: Recorded(w.storage.bondings, denom) <= Balance(w.bank, SELF, denom))
    && (forall t | t in w.storage.bondings ::
          t in w.owners && w.owners[t] == SELF && w.storage.bondings[t].bonder != SELF)
    && w.storage.coreUnbond.None?
  }

  // ---------------------------------------------------------------- sums

  lemma {:induction false} RecordedWithout(bondings: map<string, Bonding>, k: string, denom: string)
    requires k in bondings
    ensures Recorded(bondings, denom) == AmountOf(bondings[k].deposit, denom) + Recorded(bondings - {k}, denom)
    decreases |bondings|
  {
    var l := Least(bondings.Keys);
    if l != k {
      var rest := bondings - {k};
      RecordedWithout(bondings - {l}, k, denom);
      assert bondings - {l} - {k} == rest - {l};
      assert l in rest;
      if Least(rest.Keys) != l { LessIsStrict(l, Least(rest.Keys)); }
    }
  }

  /** Storing a record adds its deposit and forgets the one it replaces. */
  lemma RecordedWith(bondings: map<string, Bonding>, k: string, b: Bonding, denom: string)
    ensures var before := if k in bondings then AmountOf(bondings[k].deposit, denom) else 0;
            Recorded(bondings[k := b], denom) + before == Recorded(bondings, denom) + AmountOf(b.deposit, denom)
  {
    RecordedWithout(bondings[k := b], k, denom);
    assert bondings[k := b] - {k} == bondings - {k};
    if k in bondings { RecordedWithout(bondings, k, denom); } else { assert bondings - {k} == bondings; }
  }

  /** A payment moves exactly its coins, between those two accounts only. */
  lemma {:induction false} PayMoves(bank: Bank, payer: string, to: string, coins: seq<Coin>, account: string,
                                    denom: string)
    requires Pay(bank, payer, to, coins).Ok?
    ensures var after := Balance(Pay(bank, payer, to, coins).value, account, denom);
            after + (if account == payer then AmountOf(coins, denom) else 0)
            == Balance(bank, account, denom) + (if account == to then AmountOf(coins, denom) else 0)
    decreases |coins|
  {
    if coins != [] {
      var (d, amount) := (coins[0].denom, coins[0].amount);
      var taken := bank[(payer, d) := Balance(bank, payer, d) - amount];
      PayMoves(taken[(to, d) := Balance(taken, to, d) + amount], payer, to, coins[1..], account, denom);
    }
  }

  /** A payment succeeds when every denom is covered in total. */
  lemma {:induction false} CoveredPaymentSucceeds(bank: Bank, payer: string, to: string, coins: seq<Coin>)
    requires forall denom :: AmountOf(coins, denom) <= Balance(bank, payer, denom)
    ensures Pay(bank, payer, to, coins).Ok?
    decreases |coins|
  {
    if coins != [] {
      var (d, amount) := (coins[0].denom, coins[0].amount);
      assert AmountOf(coins, d) <= Balance(bank, payer, d);
      var taken := bank[(payer, d) := Balance(bank, payer, d) - amount];
      var paid := taken[(to, d) := Balance(taken, to, d) + amount];
      forall denom ensures AmountOf(coins[1..], denom) <= Balance(paid, payer, denom) {
        assert AmountOf(coins, denom) <= Balance(bank, payer, denom);
      }
      CoveredPaymentSucceeds(paid, payer, to, coins[1..]);
    }
  }

  lemma {:induction false} AmountOfConcat(a: seq<Coin>, b: seq<Coin>, denom: string)
    ensures AmountOf(a + b, denom) == AmountOf(a, denom) + AmountOf(b, denom)
  {
    if a == [] { assert a + b == b; }
    else {
      assert (a + b)[1..] == a[1..] + b;
      AmountOfConcat(a[1..], b, denom);
    }
  }

  /** `swap_remove` takes exactly one coin away, whatever the order of the rest. */
  lemma SwapRemoveAmount(coins: seq<Coin>, i: nat, denom: string)
    requires i < |coins|
    ensures AmountOf(SwapRemove(coins, i), denom) + AmountOf([coins[i]], denom) == AmountOf(coins, denom)
  {
    var n := |coins| - 1;
    var last := [coins[n]];
    assert coins == coins[..n] + last;
    AmountOfConcat(coins[..n], last, denom);
    if i < n {
      var a, b := coins[..i], coins[i + 1..n];
      assert coins[..n] == a + ([coins[i]] + b);
      assert SwapRemove(coins, i) == a + (last + b);
      AmountOfConcat(a, [coins[i]] + b, denom);
      AmountOfConcat([coins[i]], b, denom);
      AmountOfConcat(a, last + b, denom);
      AmountOfConcat(last, b, denom);
    } else {
      assert SwapRemove(coins, i) == coins[..n];
    }
  }

  // ---------------------------------------------------------------- calls

  lemma BondWithLdAssetsKeepsHeld(w: World, ldToken: string, sender: string, funds: seq<Coin>, answer: Answer)
    requires Held(w) && Try(w, ldToken, CallBondWithLdAssets(sender, funds, answer)).Ok?
    ensures Held(Try(w, ldToken, CallBondWithLdAssets(sender, funds, answer)).value)
  {
    var after := Try(w, ldToken, CallBondWithLdAssets(sender, funds, answer)).value;
    var i := Position(funds, ldToken);
    var deposit := SwapRemove(funds, i);
    var bank := Pay(w.bank, sender, SELF, funds).value;
    var asked := w.(storage := w.storage.(coreUnbond := Some(Bonding(sender, deposit))), bank := bank);
    var ms := [CoreUnbond(funds[i])];
    assert Perform(asked, ms, answer) == PerformOne(asked, ms[0], answer) by { assert ms[1..] == []; }
    assert after == PerformOne(asked, ms[0], answer).value;
    assert after.bank == Pay(bank, SELF, CORE, [funds[i]]).value;
    forall denom ensures Recorded(after.storage.bondings, denom) <= Balance(after.bank, SELF, denom) {
      PayMoves(w.bank, sender, SELF, funds, SELF, denom);
      PayMoves(bank, SELF, CORE, [funds[i]], SELF, denom);
      SwapRemoveAmount(funds, i, denom);
      RecordedWith(w.storage.bondings, answer.minted.value, Bonding(sender, deposit), denom);
    }
  }

  lemma BondWithNftKeepsHeld(w: World, ldToken: string, sender: string, funds: seq<Coin>, token: string, answer: Answer)
    requires Held(w) && Try(w, ldToken, CallBondWithNft(sender, funds, token, answer)).Ok?
    ensures Held(Try(w, ldToken, CallBondWithNft(sender, funds, token, answer)).value)
    ensures var after := Try(w, ldToken, CallBondWithNft(sender, funds, token, answer)).value;
            after.storage.bondings == w.storage.bondings[token := Bonding(sender, funds)]
  {
    var after := Try(w, ldToken, CallBondWithNft(sender, funds, token, answer)).value;
    var bank := Pay(w.bank, sender, SELF, funds).value;
    var storage := w.storage.(bondings := w.storage.bondings[token := Bonding(sender, funds)]);
    var stored := w.(storage := storage, bank := bank);
    var ms := [TransferNft(SELF, token)];
    assert Perform(stored, ms, answer) == PerformOne(stored, ms[0], answer) by { assert ms[1..] == []; }
    assert after == PerformOne(stored, ms[0], answer).value;
    forall denom ensures Recorded(after.storage.bondings, denom) <= Balance(after.bank, SELF, denom) {
      PayMoves(w.bank, sender, SELF, funds, SELF, denom);
      RecordedWith(w.storage.bondings, token, Bonding(sender, funds), denom);
    }
  }

  /** The common end of unbond and withdraw: a voucher message, then the deposit. */
  lemma PerformTwo(w: World, first: Message, second: Message, answer: Answer)
    ensures Perform(w, [first, second], answer)
            == var w1 := PerformOne(w, first, answer);
               if w1.Err? then w1 else PerformOne(w1.value, second, answer)
  {
    var ms := [first, second];
    var w1 := PerformOne(w, first, answer);
    if w1.Ok? {
      assert ms[1..] == [second];
      assert [second][1..] == [];
      assert Perform(w1.value, [second], answer) == PerformOne(w1.value, second, answer);
    }
  }

  /** Once the record is removed and the voucher has left, paying the deposit succeeds and
      the other bondings stay covered. */
  lemma DepositIsCovered(w: World, left: World, token: string, to: string)
    requires Held(w) && token in w.storage.bondings && to != SELF
    requires left.bank == w.bank && left.storage == w.storage.(bondings := w.storage.bondings - {token})
    requires token in left.owners && left.owners == w.owners[token := left.owners[token]]
    ensures var paid := Pay(left.bank, SELF, to, w.storage.bondings[token].deposit);
            paid.Ok? && Held(left.(bank := paid.value))
  {
    var deposit := w.storage.bondings[token].deposit;
    forall denom ensures AmountOf(deposit, denom) <= Balance(w.bank, SELF, denom) {
      RecordedWithout(w.storage.bondings, token, denom);
    }
    CoveredPaymentSucceeds(w.bank, SELF, to, deposit);
    var bank := Pay(w.bank, SELF, to, deposit).value;
    forall denom ensures Recorded(left.storage.bondings, denom) <= Balance(bank, SELF, denom) {
      RecordedWithout(w.storage.bondings, token, denom);
      PayMoves(w.bank, SELF, to, deposit, SELF, denom);
    }
  }

  /** An unbond succeeds exactly when the bonder asks, whatever the other contracts answer:
      the bonder gets the voucher and exactly the deposit, and nobody else is affected. */
  lemma UnbondReturnsAll(w: World, ldToken: string, sender: string, token: string, answer: Answer)
    requires Held(w)
    ensures var r := Try(w, ldToken, CallUnbond(sender, token, answer));
            && (r.Ok? <==> token in w.storage.bondings && w.storage.bondings[token].bonder == sender)
            && (r.Ok? ==>
                  && Held(r.value)
                  && r.value.storage.bondings == w.storage.bondings - {token}
                  && r.value.owners == w.owners[token := sender] && r.value.claims == w.claims
                  && PaidOut(w, r.value, token, sender))
  {
    if token in w.storage.bondings && w.storage.bondings[token].bonder == sender {
      var removed := w.(storage := w.storage.(bondings := w.storage.bondings - {token}));
      var deposit := w.storage.bondings[token].deposit;
      var left := removed.(owners := w.owners[token := sender]);
      PerformTwo(removed, TransferNft(sender, token), BankSend(sender, deposit), answer);
      DepositIsCovered(w, left, token, sender);
      PayoutMoves(w, token, sender);
    }
  }

  /** Between two states the deposit of a voucher went from the contract to one account, and
      no other balance changed. */
  ghost predicate PaidOut(w: World, after: World, token: string, to: string)
    requires token in w.storage.bondings
  {
    var deposit := w.storage.bondings[token].deposit;
    forall account, denom ::
      Balance(after.bank, account, denom) + (if account == SELF then AmountOf(deposit, denom) else 0)
      == Balance(w.bank, account, denom) + (if account == to then AmountOf(deposit, denom) else 0)
  }

  lemma PayoutMoves(w: World, token: string, to: string)
    requires token in w.storage.bondings && Pay(w.bank, SELF, to, w.storage.bondings[token].deposit).Ok?
    ensures PaidOut(w, w.(bank := Pay(w.bank, SELF, to, w.storage.bondings[token].deposit).value), token, to)
  {
    var deposit := w.storage.bondings[token].deposit;
    var after := w.(bank := Pay(w.bank, SELF, to, deposit).value);
    forall account, denom
      ensures Balance(after.bank, account, denom) + (if account == SELF then AmountOf(deposit, denom) else 0)
              == Balance(w.bank, account, denom) + (if account == to then AmountOf(deposit, denom) else 0)
    {
      PayMoves(w.bank, SELF, to, deposit, account, denom);
    }
  }

  /** A withdraw succeeds for anyone exactly when the voucher is bonded and the manager accepts
      it: the caller gets exactly the deposit, the manager is told to pay the bonder. */
  lemma WithdrawSplitsRewards(w: World, ldToken: string, sender: string, token: string, answer: Answer)
    requires Held(w) && sender != SELF
    ensures var r := Try(w, ldToken, CallWithdraw(sender, token, answer));
            && (r.Ok? <==> token in w.storage.bondings && answer.accepted)
            && (r.Ok? ==>
                  && Held(r.value)
                  && r.value.storage.bondings == w.storage.bondings - {token}
                  && r.value.owners == w.owners[token := MANAGER]
                  && r.value.claims == w.claims[token := w.storage.bondings[token].bonder]
                  && PaidOut(w, r.value, token, sender))
  {
    if token in w.storage.bondings {
      var bonder, deposit := w.storage.bondings[token].bonder, w.storage.bondings[token].deposit;
      var removed := w.(storage := w.storage.(bondings := w.storage.bondings - {token}));
      PerformTwo(removed, SendNft(token, bonder), BankSend(sender, deposit), answer);
      if answer.accepted {
        var left := removed.(owners := w.owners[token := MANAGER], claims := w.claims[token := bonder]);
        DepositIsCovered(w, left, token, sender);
        PayoutMoves(w, token, sender);
      }
    }
  }

  lemma CallKeepsHeld(w: World, ldToken: string, call: Call)
    requires Held(w)
    ensures Held(Next(w, ldToken, call))
  {
    if Try(w, ldToken, call).Ok? {
      match call
      case CallBondWithLdAssets(sender, funds, answer) => BondWithLdAssetsKeepsHeld(w, ldToken, sender, funds, answer);
      case CallBondWithNft(sender, funds, token, answer) =>
        BondWithNftKeepsHeld(w, ldToken, sender, funds, token, answer);
      case CallUnbond(sender, token, answer) => UnbondReturnsAll(w, ldToken, sender, token, answer);
      case CallWithdraw(sender, token, answer) => WithdrawSplitsRewards(w, ldToken, sender, token, answer);
      case OtherPayment(sender, to, coins) =>
        forall denom
          ensures Balance(Pay(w.bank, sender, to, coins).value, SELF, denom) >= Balance(w.bank, SELF, denom)
        {
          PayMoves(w.bank, sender, to, coins, SELF, denom);
        }
      case OtherMint(_, _) =>
      case OtherVoucherMove(_, _) =>
    }
  }

  lemma {:induction false} RunKeepsHeld(w: World, ldToken: string, calls: seq<Call>)
    requires Held(w)
    ensures Held(Run(w, ldToken, calls))
    decreases |calls|
  {
    if calls != [] {
      CallKeepsHeld(w, ldToken, calls[0]);
      RunKeepsHeld(Next(w, ldToken, calls[0]), ldToken, calls[1..]);
    }
  }

  /** Custody in every reachable state. */
  lemma CustodyHolds(ldToken: string, calls: seq<Call>)
    ensures Held(Run(Init(), ldToken, calls))
  {
    RunKeepsHeld(Init(), ldToken, calls);
  }

  /** Bonding a voucher keeps every record that was there exactly when the voucher is not
      bonded yet, or by chance with the very same bonder and deposit: the contract already
      owns a bonded voucher, so nothing refuses to bond it again. */
  lemma BondWithNftKeepsRecordsIff(w: World, ldToken: string, sender: string, funds: seq<Coin>, token: string,
                                   answer: Answer)
    requires Held(w) && Try(w, ldToken, CallBondWithNft(sender, funds, token, answer)).Ok?
    ensures var after := Try(w, ldToken, CallBondWithNft(sender, funds, token, answer)).value;
            (forall t | t in w.storage.bondings :: t in after.storage.bondings
                                                   && after.storage.bondings[t] == w.storage.bondings[t])
            <==> token !in w.storage.bondings || w.storage.bondings[token] == Bonding(sender, funds)
  {
    BondWithNftKeepsHeld(w, ldToken, sender, funds, token, answer);
  }

  /** What bonding a bonded voucher again does, whoever asks and whatever the other contracts
      answer: it succeeds, and from then on the voucher is returned to the new bonder, no longer
      to the former one. So the condition above does fail, for every bonded voucher. */
  lemma RebondReplacesBonder(w: World, ldToken: string, sender: string, funds: seq<Coin>, token: string,
                             answer: Answer, later: Answer)
    requires Held(w) && token in w.storage.bondings && sender != SELF && funds != []
    requires forall denom :: AmountOf(funds, denom) <= Balance(w.bank, sender, denom)
    ensures var r := Try(w, ldToken, CallBondWithNft(sender, funds, token, answer));
            && r.Ok? && Held(r.value)
            && r.value.storage.bondings == w.storage.bondings[token := Bonding(sender, funds)]
            && var back := Try(r.value, ldToken, CallUnbond(sender, token, later));
               && back.Ok? && token in back.value.owners && back.value.owners[token] == sender
               && forall former | former != sender :: Try(r.value, ldToken, CallUnbond(former, token, later)).Err?
  {
    CoveredPaymentSucceeds(w.bank, sender, SELF, funds);
    var bank := Pay(w.bank, sender, SELF, funds).value;
    var storage := w.storage.(bondings := w.storage.bondings[token := Bonding(sender, funds)]);
    var stored := w.(storage := storage, bank := bank);
    var ms := [TransferNft(SELF, token)];
    assert Perform(stored, ms, answer) == PerformOne(stored, ms[0], answer) by { assert ms[1..] == []; }
    BondWithNftKeepsHeld(w, ldToken, sender, funds, token, answer);
    var after := Try(w, ldToken, CallBondWithNft(sender, funds, token, answer)).value;
    forall s { UnbondReturnsAll(after, ldToken, s, token, later); }
  }

  // ---------------------------------------------------------------- a bond with ld assets

  /** The coin of a bond that goes to core: the first one of the ld denom. */
  predicate IsLdCoin(funds: seq<Coin>, ldToken: string, i: nat) {
    i < |funds| && funds[i].denom == ldToken && forall j :: 0 <= j < i ==> funds[j].denom != ldToken
  }

  lemma {:induction false} PositionOfLdCoin(funds: seq<Coin>, ldToken: string, i: nat)
    requires IsLdCoin(funds, ldToken, i)
    ensures Position(funds, ldToken) == i
  {
    if i > 0 {
      assert funds[0].denom != ldToken;
      assert IsLdCoin(funds[1..], ldToken, i - 1) by {
        forall j | 0 <= j < i - 1 ensures funds[1..][j].denom != ldToken { assert funds[1..][j] == funds[j + 1]; }
      }
      PositionOfLdCoin(funds[1..], ldToken, i - 1);
    }
  }

  /** What can be paid. */
  lemma PayableIff(bank: Bank, payer: string, to: string, coins: seq<Coin>)
    requires payer != to
    ensures Pay(bank, payer, to, coins).Ok? <==> forall denom :: AmountOf(coins, denom) <= Balance(bank, payer, denom)
  {
    if Pay(bank, payer, to, coins).Ok? {
      forall denom ensures AmountOf(coins, denom) <= Balance(bank, payer, denom) {
        PayMoves(bank, payer, to, coins, payer, denom);
      }
    } else if forall denom :: AmountOf(coins, denom) <= Balance(bank, payer, denom) {
      CoveredPaymentSucceeds(bank, payer, to, coins);
    }
  }

  /** A bond with ld assets needs an ld coin, a deposit beside it, coins that cover both, and a
      new voucher minted by core. */
  ghost predicate CanBond(w: World, ldToken: string, sender: string, funds: seq<Coin>, answer: Answer) {
    && sender != SELF && |funds| > 1 && (exists i :: 0 <= i < |funds| && funds[i].denom == ldToken)
    && (forall denom :: AmountOf(funds, denom) <= Balance(w.bank, sender, denom))
    && answer.minted.Some? && answer.minted.value !in w.owners
  }

  /** Then it records the sender with exactly the coins beside the ld coin; the contract owns the
      voucher and keeps those coins, the ld coin is with core. */
  ghost predicate BondedWith(w: World, after: World, sender: string, funds: seq<Coin>, i: nat, token: string)
    requires i < |funds|
  {
    && token in after.storage.bondings
    && after.storage.bondings == w.storage.bondings[token := after.storage.bondings[token]]
    && after.owners == w.owners[token := SELF] && after.claims == w.claims
    && after.storage.bondings[token].bonder == sender
    && |after.storage.bondings[token].deposit| == |funds| - 1
    && (forall denom :: AmountOf(after.storage.bondings[token].deposit, denom) + Of(funds[i], denom)
                        == AmountOf(funds, denom))
    && (forall account, denom ::
          Balance(after.bank, account, denom) + (if account == sender then AmountOf(funds, denom) else 0)
          == Balance(w.bank, account, denom) + (if account == CORE then Of(funds[i], denom) else 0)
             + (if account == SELF then AmountOf(funds, denom) - Of(funds[i], denom) else 0))
  }

  function Of(coin: Coin, denom: string): nat { if coin.denom == denom then coin.amount else 0 }

  lemma BondWithLdAssetsRecords(w: World, ldToken: string, sender: string, funds: seq<Coin>, answer: Answer)
    requires Held(w)
    ensures var r := Try(w, ldToken, CallBondWithLdAssets(sender, funds, answer));
            && (r.Ok? <==> CanBond(w, ldToken, sender, funds, answer))
            && forall i | r.Ok? && IsLdCoin(funds, ldToken, i) ::
                 Held(r.value) && BondedWith(w, r.value, sender, funds, i, answer.minted.value)
  {
    if sender != SELF {
      PayableIff(w.bank, sender, SELF, funds);
      var i := Position(funds, ldToken);
      if i < |funds| && |funds| > 1 && Pay(w.bank, sender, SELF, funds).Ok? {
        PassOnLdCoin(w, ldToken, sender, funds, i, answer);
        forall k | IsLdCoin(funds, ldToken, k) ensures k == i { PositionOfLdCoin(funds, ldToken, k); }
      }
    }
  }

  /** The handler, its message to core and the reply in one. */
  lemma PassOnLdCoin(w: World, ldToken: string, sender: string, funds: seq<Coin>, i: nat, answer: Answer)
    requires Held(w) && sender != SELF && |funds| > 1 && Pay(w.bank, sender, SELF, funds).Ok?
    requires i == Position(funds, ldToken) < |funds|
    ensures var r := Try(w, ldToken, CallBondWithLdAssets(sender, funds, answer));
            && (r.Ok? <==> answer.minted.Some? && answer.minted.value !in w.owners)
            && (r.Ok? ==> Held(r.value) && BondedWith(w, r.value, sender, funds, i, answer.minted.value))
  {
    var bank := Pay(w.bank, sender, SELF, funds).value;
    var deposit := SwapRemove(funds, i);
    var asked := w.(storage := w.storage.(coreUnbond := Some(Bonding(sender, deposit))), bank := bank);
    var ms := [CoreUnbond(funds[i])];
    assert Perform(asked, ms, answer) == PerformOne(asked, ms[0], answer) by { assert ms[1..] == []; }
    forall denom ensures AmountOf([funds[i]], denom) == Of(funds[i], denom) <= Balance(bank, SELF, denom) {
      PayMoves(w.bank, sender, SELF, funds, SELF, denom);
      SwapRemoveAmount(funds, i, denom);
    }
    CoveredPaymentSucceeds(bank, SELF, CORE, [funds[i]]);
    var r := Try(w, ldToken, CallBondWithLdAssets(sender, funds, answer));
    if r.Ok? {
      BondWithLdAssetsKeepsHeld(w, ldToken, sender, funds, answer);
      forall denom ensures AmountOf(deposit, denom) + Of(funds[i], denom) == AmountOf(funds, denom) {
        SwapRemoveAmount(funds, i, denom);
      }
      forall account, denom
        ensures Balance(r.value.bank, account, denom) + (if account == sender then AmountOf(funds, denom) else 0)
                == Balance(w.bank, account, denom) + (if account == CORE then Of(funds[i], denom) else 0)
                   + (if account == SELF then AmountOf(funds, denom) - Of(funds[i], denom) else 0)
      {
        PayMoves(w.bank, sender, SELF, funds, account, denom);
        PayMoves(bank, SELF, CORE, [funds[i]], account, denom);
      }
    }
  }

  /** The round trip: whoever bonded gets the voucher and every coin back except the ld coin,
      which stays with core; every other balance is as it was before. */
  lemma BondThenUnbond(w: World, ldToken: string, sender: string, funds: seq<Coin>, i: nat, answer: Answer,
                       later: Answer)
    requires Held(w) && CanBond(w, ldToken, sender, funds, answer) && IsLdCoin(funds, ldToken, i)
    ensures var bonded := Try(w, ldToken, CallBondWithLdAssets(sender, funds, answer));
            && bonded.Ok?
            && var back := Try(bonded.value, ldToken, CallUnbond(sender, answer.minted.value, later));
               && back.Ok? && answer.minted.value in back.value.owners
               && back.value.owners[answer.minted.value] == sender
               && forall account, denom ::
                    Balance(back.value.bank, account, denom) + (if account == sender then Of(funds[i], denom) else 0)
                    == Balance(w.bank, account, denom) + (if account == CORE then Of(funds[i], denom) else 0)
  {
    BondWithLdAssetsRecords(w, ldToken, sender, funds, answer);
    var bonded := Try(w, ldToken, CallBondWithLdAssets(sender, funds, answer)).value;
    var token := answer.minted.value;
    UnbondReturnsAll(bonded, ldToken, sender, token, later);
    var back := Try(bonded, ldToken, CallUnbond(sender, token, later)).value;
    assert BondedWith(w, bonded, sender, funds, i, token) && PaidOut(bonded, back, token, sender);
    forall account, denom
      ensures Balance(back.bank, account, denom) + (if account == sender then Of(funds[i], denom) else 0)
              == Balance(w.bank, account, denom) + (if account == CORE then Of(funds[i], denom) else 0)
    {
      assert Balance(bonded.bank, account, denom) + (if account == sender then AmountOf(funds, denom) else 0)
             == Balance(w.bank, account, denom) + (if account == CORE then Of(funds[i], denom) else 0)
                + (if account == SELF then AmountOf(funds, denom) - Of(funds[i], denom) else 0);
    }
  }

  // ---------------------------------------------------------------- one bonding over a run

  /** The calls that can end or replace the bonding of a voucher. */
  predicate Touches(call: Call, token: string, bonder: string) {
    match call
    case CallUnbond(sender, t, _) => t == token && sender == bonder
    case CallWithdraw(_, t, _) => t == token
    case CallBondWithNft(_, _, t, _) => t == token
    case _ => false
  }

  lemma UntouchedCallKeepsRecord(w: World, ldToken: string, call: Call, token: string)
    requires Held(w) && token in w.storage.bondings && !Touches(call, token, w.storage.bondings[token].bonder)
    ensures var w' := Next(w, ldToken, call);
            token in w'.storage.bondings && w'.storage.bondings[token] == w.storage.bondings[token]
  {
    if Try(w, ldToken, call).Ok? {
      match call
      case CallBondWithLdAssets(sender, funds, answer) => NewBondingKeepsRecords(w, ldToken, sender, funds, answer);
      case CallBondWithNft(sender, funds, t, answer) => BondWithNftKeepsHeld(w, ldToken, sender, funds, t, answer);
      case CallUnbond(sender, t, answer) => UnbondReturnsAll(w, ldToken, sender, t, answer);
      case CallWithdraw(sender, t, answer) => WithdrawSplitsRewards(w, ldToken, sender, t, answer);
      case _ =>
    }
  }

  /** A minted voucher is new, so it replaces no record. */
  lemma NewBondingKeepsRecords(w: World, ldToken: string, sender: string, funds: seq<Coin>, answer: Answer)
    requires Held(w) && Try(w, ldToken, CallBondWithLdAssets(sender, funds, answer)).Ok?
    ensures var after := Try(w, ldToken, CallBondWithLdAssets(sender, funds, answer)).value;
            forall t | t in w.storage.bondings ::
              t in after.storage.bondings && after.storage.bondings[t] == w.storage.bondings[t]
  {
    var i := Position(funds, ldToken);
    var bank := Pay(w.bank, sender, SELF, funds).value;
    var storage := w.storage.(coreUnbond := Some(Bonding(sender, SwapRemove(funds, i))));
    var ms := [CoreUnbond(funds[i])];
    var asked := w.(storage := storage, bank := bank);
    assert Perform(asked, ms, answer) == PerformOne(asked, ms[0], answer) by { assert ms[1..] == []; }
  }

  /** Whatever else is called, a bonding stays as it is until the bonder unbonds it or someone
      withdraws or bonds the voucher again; until then the bonder gets voucher and deposit back
      at any time. */
  lemma {:induction false} BonderCanAlwaysUnbond(w: World, ldToken: string, calls: seq<Call>, token: string,
                                                 answer: Answer)
    requires Held(w) && token in w.storage.bondings
    requires forall call | call in calls :: !Touches(call, token, w.storage.bondings[token].bonder)
    ensures var w', bonding := Run(w, ldToken, calls), w.storage.bondings[token];
            var r := Try(w', ldToken, CallUnbond(bonding.bonder, token, answer));
            && token in w'.storage.bondings && w'.storage.bondings[token] == bonding
            && r.Ok? && token in r.value.owners && r.value.owners[token] == bonding.bonder
            && PaidOut(w', r.value, token, bonding.bonder)
    decreases |calls|
  {
    if calls == [] {
      UnbondReturnsAll(w, ldToken, w.storage.bondings[token].bonder, token, answer);
    } else {
      assert calls[0] in calls;
      CallKeepsHeld(w, ldToken, calls[0]);
      UntouchedCallKeepsRecord(w, ldToken, calls[0], token);
      BonderCanAlwaysUnbond(Next(w, ldToken, calls[0]), ldToken, calls[1..], token, answer);
    }
  }
}
