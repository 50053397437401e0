/** The part of the chain the contracts share: the clock, the oracle and the token
    ledger. A token call that the ledger refuses changes nothing. */
module Host {
  import opened Results
  import opened Chain

  class Host {
    var env: Env
    var bal: Balances

    constructor (env: Env, bal: Balances)
      ensures this.env == env && this.bal == bal
    {
      this.env, this.bal := env, bal;
    }

    method MakeTransfer(token: Address, from: Address, to: Address, amount: int) returns (r: Result<()>)
      modifies this`bal
      ensures var was := Transfer(old(bal), token, from, to, amount);
              (r.Ok? <==> was.Ok?) && bal == (if was.Ok? then was.value else old(bal))
              && (r.Err? ==> was == Err(r.error))
    {
      if amount < 0 || Bal(bal, token, from) < amount {
        return Err(Trap);
      }
      bal := bal[(token, from) := Bal(bal, token, from) - amount];
      bal := bal[(token, to) := Bal(bal, token, to) + amount];
      r := Ok(());
    }
  }
}
