/** Contract `auto-withdrawer` with the bank and the voucher contract around it. Handlers change
    the stored items and return messages; a call whose messages fail is undone as a whole. */
module AutoWithdrawerSpec {
  import opened Results
  import ProtocolTypes

  type Coin = ProtocolTypes.Coin

  datatype Bonding = Bonding(bonder: string, deposit: seq<Coin>)

  /** The stored items: the bondings by voucher, and the slot that waits for core's reply. */
  datatype Storage = Storage(bondings: map<string, Bonding>, coreUnbond: Option<Bonding>)

  datatype Message =
    | CoreUnbond(asset: Coin)
    | TransferNft(recipient: string, token: string)
    | SendNft(token: string, receiver: string)
    | BankSend(to: string, coins: seq<Coin>)

  const SELF: string := "auto-withdrawer"
  const CORE: string := "core"
  const MANAGER: string := "withdrawal-manager"

  // ---------------------------------------------------------------- handlers

  /** The position of the first coin of a denom, or the length. */
  function Position(coins: seq<Coin>, denom: string): (i: nat)
    ensures i <= |coins| && (i < |coins| ==> coins[i].denom == denom)
    ensures forall j :: 0 <= j < i ==> coins[j].denom != denom
  {
    if coins == [] || coins[0].denom == denom then 0 else 1 + Position(coins[1..], denom)
  }

  /** `Vec::swap_remove`: the last element takes the place of the removed one. */
  function SwapRemove(coins: seq<Coin>, i: nat): seq<Coin>
    requires i < |coins|
  {
    coins[i := coins[|coins| - 1]][..|coins| - 1]
  }

  function BondWithLdAssets(s: Storage, ldToken: string, sender: string, funds: seq<Coin>)
    : Result<(Storage, seq<Message>)>
  {
    var i := Position(funds, ldToken);
    if i == |funds| then Err(LdTokenExpected)
    else if |funds| == 1 then Err(DepositExpected)
    else Ok((s.(coreUnbond := Some(Bonding(sender, SwapRemove(funds, i)))), [CoreUnbond(funds[i])]))
  }

  /** The reply to a successful unbond, with the voucher core minted. */
  function ReplyCoreUnbond(s: Storage, token: string): Result<Storage> {
    if s.coreUnbond.None? then Err(NotFound)
    else Ok(Storage(s.bondings[token := s.coreUnbond.value], None))
  }

  function BondWithNft(s: Storage, sender: string, funds: seq<Coin>, token: string): Result<(Storage, seq<Message>)> {
    if funds == [] then Err(DepositExpected)
    else Ok((s.(bondings := s.bondings[token := Bonding(sender, funds)]), [TransferNft(SELF, token)]))
  }

  function Unbond(s: Storage, sender: string, token: string): Result<(Storage, seq<Message>)> {
    if token !in s.bondings then Err(NotFound)
    else if s.bondings[token].bonder != sender then Err(Unauthorized)
    else Ok((s.(bondings := s.bondings - {token}),
             [TransferNft(sender, token), BankSend(sender, s.bondings[token].deposit)]))
  }

  /** Anyone may withdraw: the payout goes to the bonder, the deposit to the caller. */
  function Withdraw(s: Storage, sender: string, token: string): Result<(Storage, seq<Message>)> {
    if token !in s.bondings then Err(NotFound)
    else Ok((s.(bondings := s.bondings - {token}),
             [SendNft(token, s.bondings[token].bonder), BankSend(sender, s.bondings[token].deposit)]))
  }

  // ---------------------------------------------------------------- chain

  /** Balances by account and denom. */
  type Bank = map<(string, string), nat>

  /** The contract on a chain: `owners` are the holders of all vouchers, `claims` says whom the
      manager was told to pay for a voucher sent to it. */
  datatype World = World(storage: Storage, bank: Bank, owners: map<string, string>, claims: map<string, string>)

  /** What other contracts answer: the voucher minted by core (None when it refuses), whether the
      contract was approved for a voucher of another owner, whether the manager accepts. */
  datatype Answer = Answer(minted: Option<string>, approved: bool, accepted: bool)

  /** A call of the contract, or something that happens around it. */
  datatype Call =
    | CallBondWithLdAssets(sender: string, funds: seq<Coin>, answer: Answer)
    | CallBondWithNft(sender: string, funds: seq<Coin>, token: string, answer: Answer)
    | CallUnbond(sender: string, token: string, answer: Answer)
    | CallWithdraw(sender: string, token: string, answer: Answer)
    | OtherPayment(sender: string, to: string, coins: seq<Coin>)
    | OtherMint(to: string, coin: Coin)
    | OtherVoucherMove(token: string, to: string)

  function AmountOf(coins: seq<Coin>, denom: string): nat {
    if coins == [] then 0 else (if coins[0].denom == denom then coins[0].amount else 0) + AmountOf(coins[1..], denom)
  }

  function Balance(bank: Bank, account: string, denom: string): nat {
    if (account, denom) in bank then bank[(account, denom)] else 0
  }

  /** A payment fails when a balance does not cover it. */
  function Pay(bank: Bank, payer: string, to: string, coins: seq<Coin>): Result<Bank>
    decreases |coins|
  {
    if coins == [] then Ok(bank)
    else
      var (denom, amount) := (coins[0].denom, coins[0].amount);
      if Balance(bank, payer, denom) < amount then Err(InsufficientFunds)
      else
        var taken := bank[(payer, denom) := Balance(bank, payer, denom) - amount];
        Pay(taken[(to, denom) := Balance(taken, to, denom) + amount], payer, to, coins[1..])
  }

  function PerformOne(w: World, m: Message, answer: Answer): Result<World> {
    match m
    case CoreUnbond(asset) =>
      var bank :- Pay(w.bank, SELF, CORE, [asset]);
      if answer.minted.None? || answer.minted.value in w.owners then Err(SubmitFailed)
      else
        var storage :- ReplyCoreUnbond(w.storage, answer.minted.value);
        Ok(w.(storage := storage, bank := bank, owners := w.owners[answer.minted.value := SELF]))
    case TransferNft(recipient, token) =>
      if token !in w.owners then Err(NotFound)
      else if w.owners[token] != SELF && !answer.approved then Err(VoucherNotOwned)
      else Ok(w.(owners := w.owners[token := recipient]))
    case SendNft(token, receiver) =>
      if token !in w.owners then Err(NotFound)
      else if w.owners[token] != SELF && !answer.approved then Err(VoucherNotOwned)
      else if !answer.accepted then Err(BatchIsNotWithdrawn)
      else Ok(w.(owners := w.owners[token := MANAGER], claims := w.claims[token := receiver]))
    case BankSend(to, coins) =>
      var bank :- Pay(w.bank, SELF, to, coins);
      Ok(w.(bank := bank))
  }

  function Perform(w: World, ms: seq<Message>, answer: Answer): Result<World>
    decreases |ms|
  {
    if ms == [] then Ok(w)
    else
      var w1 :- PerformOne(w, ms[0], answer);
      Perform(w1, ms[1..], answer)
  }

  function Handle(w: World, handled: Result<(Storage, seq<Message>)>, answer: Answer): Result<World> {
    var out :- handled;
    Perform(w.(storage := out.0), out.1, answer)
  }

  /** The contract itself never calls it: its messages go to core, vouchers and bank. */
  function Try(w: World, ldToken: string, call: Call): Result<World> {
    match call
    case CallBondWithLdAssets(sender, funds, answer) =>
      if sender == SELF then Err(Unauthorized)
      else
        var bank :- Pay(w.bank, sender, SELF, funds);
        Handle(w.(bank := bank), BondWithLdAssets(w.storage, ldToken, sender, funds), answer)
    case CallBondWithNft(sender, funds, token, answer) =>
      if sender == SELF then Err(Unauthorized)
      else
        var bank :- Pay(w.bank, sender, SELF, funds);
        Handle(w.(bank := bank), BondWithNft(w.storage, sender, funds, token), answer)
    case CallUnbond(sender, token, answer) =>
      if sender == SELF then Err(Unauthorized) else Handle(w, Unbond(w.storage, sender, token), answer)
    case CallWithdraw(sender, token, answer) =>
      if sender == SELF then Err(Unauthorized) else Handle(w, Withdraw(w.storage, sender, token), answer)
    case OtherPayment(sender, to, coins) =>
      if sender == SELF then Err(Unauthorized)
      else
        var bank :- Pay(w.bank, sender, to, coins);
        Ok(w.(bank := bank))
    case OtherMint(to, coin) =>
      Ok(w.(bank := w.bank[(to, coin.denom) := Balance(w.bank, to, coin.denom) + coin.amount]))
    case OtherVoucherMove(token, to) =>
      if token in w.owners && w.owners[token] == SELF then Err(Unauthorized)
      else Ok(w.(owners := w.owners[token := to]))
  }

  function Next(w: World, ldToken: string, call: Call): World {
    var r := Try(w, ldToken, call);
    if r.Ok? then r.value else w
  }

  function Run(w: World, ldToken: string, calls: seq<Call>): World
    decreases |calls|
  {
    if calls == [] then w else Run(Next(w, ldToken, calls[0]), ldToken, calls[1..])
  }

  function Init(): World { World(Storage(map[], None), map[], map[], map[]) }
}
