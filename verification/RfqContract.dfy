/** The RfqSettle contract as it runs: it writes replay records and moves both legs,
    and a failing call leaves everything as it was. */
module RfqContract {
  import opened Results
  import opened MulDiv
  import opened Chain
  import opened Host
  import opened SwapBook
  import opened Rfq

  class Contract {
    const vault: Address
    const host: Host
    var fee: FeeRate
    var used: map<(Address, nat), nat>

    constructor (vault: Address, host: Host)
      ensures this.host == host && State() == RfqState(vault, 5, map[])
    {
      this.vault, this.host, fee, used := vault, host, 5, map[];
    }

    ghost function State(): RfqState
      reads this
    {
      RfqState(vault, fee, used)
    }

    ghost function World(): RfqWorld
      reads this, host
    {
      RfqWorld(host.env, host.bal, State())
    }

    method RecordUse(maker: Address, nonce: nat) returns (res: Result<()>)
      modifies this`used
      ensures res.Ok? ==> MarkUsed(old(World()), maker, nonce) == Ok(State())
      ensures res.Err? ==> MarkUsed(old(World()), maker, nonce) == Err(res.error) && State() == old(State())
    {
      if (maker, nonce) in used && host.env.now <= used[(maker, nonce)] { return Err(AlreadyUsed); }
      used := used[(maker, nonce) := host.env.now + USED_TTL_LEDGERS];
      res := Ok(());
    }

    /** settle_quote; returns the fee charged. */
    method Settle(q: Quote) returns (res: Result<int>)
      modifies this`used, host`bal
      ensures res.Ok? ==> SettleQuote(old(World()), q) == Ok(World()) && res.value == Fee(fee, q.amountIn)
      ensures res.Err? ==> SettleQuote(old(World()), q) == Err(res.error) && World() == old(World())
    {
      var valid := ValidateQuote(host.env.now, q);
      if valid.Fail? { return Err(valid.error); }
      var before, records := host.bal, used;
      var marked := RecordUse(q.maker, q.nonce);
      if marked.Err? { return Err(marked.error); }
      hide MarkUsed, Transfer, NavCheck, Fee, ValidateQuote;
      assert 0 < q.amountIn by { Positive(host.env.now, q); }
      res := Pay(q);
      if res.Err? {
        host.bal, used := before, records;
      }
    }

    lemma Positive(now: nat, q: Quote)
      requires ValidateQuote(now, q).Pass?
      ensures 0 < q.amountIn
    {
    }

    /** The NAV check and the three transfers; undone by the caller on failure. */
    method Pay(q: Quote) returns (res: Result<int>)
      requires 0 < q.amountIn
      modifies host`bal
      ensures var charged := Fee(fee, q.amountIn);
              var nav := NavCheck(host.env, q);
              var paid := PayWithFee(old(host.bal), q.tokenIn, q.taker, q.maker, vault, q.amountIn - charged, charged);
              var all := if nav.Err? then Err(nav.error)
                         else if q.amountIn - charged <= 0 then Err(InvalidAmount)
                         else if paid.Err? then paid
                         else Transfer(paid.value, q.tokenOut, q.maker, q.taker, q.amountOut);
              && (res.Ok? ==> all == Ok(host.bal) && res.value == charged)
              && (res.Err? ==> all == Err(res.error))
    {
      hide Transfer, NavCheck, Fee;
      var nav := NavCheck(host.env, q);
      if nav.Err? { return Err(nav.error); }
      var charged := Fee(fee, q.amountIn);
      if q.amountIn - charged <= 0 { return Err(InvalidAmount); }
      var moved := host.MakeTransfer(q.tokenIn, q.taker, q.maker, q.amountIn - charged);
      if moved.Err? { return Err(moved.error); }
      if 0 < charged {
        moved := host.MakeTransfer(q.tokenIn, q.taker, vault, charged);
        if moved.Err? { return Err(moved.error); }
      }
      moved := host.MakeTransfer(q.tokenOut, q.maker, q.taker, q.amountOut);
      if moved.Err? { return Err(moved.error); }
      res := Ok(charged);
    }

    method Retire(maker: Address, nonce: nat) returns (res: Result<()>)
      modifies this`used
      ensures res.Ok? ==> CancelNonce(old(World()), maker, nonce) == Ok(World())
      ensures res.Err? ==> CancelNonce(old(World()), maker, nonce) == Err(res.error) && World() == old(World())
    {
      res := RecordUse(maker, nonce);
    }
  }
}
