/** The shared token ledger: exact transfers that fail on shortage. */
module Chain {
  import opened Results
  import opened MulDiv

  datatype Address = Address(key: nat)

  datatype Pair = Pair(tokenIn: Address, tokenOut: Address)

  /** What an oracle read returns for a directed pair: token_out per token_in
      as num/den, and the ledger at which it was last updated. */
  datatype Price = Price(num: pos, den: pos, updatedAt: nat)

  const ORACLE_STALE_LEDGERS := 1000

  /** Everything the host supplies to a call besides balances. */
  datatype Env = Env(now: nat, prices: map<Pair, Price>)

  function FreshPrice(env: Env, pair: Pair): Result<Price> {
    if pair !in env.prices then Err(OraclePriceNotSet)
    else if env.prices[pair].updatedAt + ORACLE_STALE_LEDGERS < env.now then Err(OraclePriceStale)
    else Ok(env.prices[pair])
  }

  /** (token, holder) -> amount; a missing entry is a zero balance. */
  type Balances = map<(Address, Address), int>

  function Bal(b: Balances, token: Address, holder: Address): int {
    if (token, holder) in b then b[(token, holder)] else 0
  }

  function Credit(b: Balances, token: Address, holder: Address, amount: int): Balances {
    b[(token, holder) := Bal(b, token, holder) + amount]
  }

  function Transfer(b: Balances, token: Address, from: Address, to: Address, amount: int): Result<Balances> {
    if 0 <= amount <= Bal(b, token, from)
    then Ok(Credit(Credit(b, token, from, -amount), token, to, amount))
    else Err(Trap)
  }

  /** `amount` if the holding (token, holder) is (t, a), else nothing. */
  function At(token: Address, holder: Address, t: Address, a: Address, amount: int): int {
    if token == t && holder == a then amount else 0
  }

  /** A transfer moves its amount and touches no other holding, also when the
      two ends coincide. */
  lemma TransferMoves(b: Balances, token: Address, from: Address, to: Address, amount: int)
    requires Transfer(b, token, from, to, amount).Ok?
    ensures forall t, a ::
              Bal(Transfer(b, token, from, to, amount).value, t, a)
              == Bal(b, t, a) - At(token, from, t, a, amount) + At(token, to, t, a, amount)
  {
  }

  /** The settlement pattern of all four contracts: the payee gets `net`, and the
      vault gets `fee` from the same payer when there is one. */
  function PayWithFee(b: Balances, token: Address, payer: Address, payee: Address, vault: Address, net: int, fee: int)
    : Result<Balances>
  {
    var b1 :- Transfer(b, token, payer, payee, net);
    if 0 < fee then Transfer(b1, token, payer, vault, fee) else Ok(b1)
  }

  lemma PayWithFeeMoves(b: Balances, token: Address, payer: Address, payee: Address, vault: Address, net: int, fee: int)
    requires 0 <= fee
    requires PayWithFee(b, token, payer, payee, vault, net, fee).Ok?
    ensures forall t, a ::
              Bal(PayWithFee(b, token, payer, payee, vault, net, fee).value, t, a)
              == Bal(b, t, a) - At(token, payer, t, a, net + fee) + At(token, payee, t, a, net)
                + At(token, vault, t, a, fee)
  {
  }

  /** A payer who is neither payee nor vault needs exactly net + fee. */
  lemma PayWithFeeSucceeds(b: Balances, token: Address, payer: Address, payee: Address, vault: Address, net: int,
                           fee: int)
    requires payer != payee && payer != vault && 0 <= net && 0 <= fee
    ensures PayWithFee(b, token, payer, payee, vault, net, fee).Ok? <==> net + fee <= Bal(b, token, payer)
  {
  }
}
