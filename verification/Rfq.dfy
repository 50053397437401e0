/** RfqSettle: atomic settlement of firm quotes, with replay records in temporary
    storage that lapse. */
module Rfq {
  import opened Results
  import opened MulDiv
  import opened Chain
  import opened SwapBook
  import opened BookCalls

  const MAX_QUOTE_TTL_LEDGERS := 120_960
  const USED_TTL_LEDGERS := MAX_QUOTE_TTL_LEDGERS + 1
  const MAX_NAV_BAND_BPS := 1_000

  datatype Quote = Quote(
    maker: Address, taker: Address, tokenIn: Address, tokenOut: Address,
    amountIn: int, amountOut: int, expiryLedger: nat, nonce: nat, maxNavDevBps: nat)

  /** `used` maps a record to the last ledger at which the host still has it. */
  datatype RfqState = RfqState(vault: Address, fee: FeeRate, used: map<(Address, nat), nat>)

  datatype RfqWorld = RfqWorld(env: Env, bal: Balances, rfq: RfqState)

  /** A record that lasts at least until a ledger. */
  predicate Held(w: RfqWorld, maker: Address, nonce: nat, until: nat) {
    (maker, nonce) in w.rfq.used && until <= w.rfq.used[(maker, nonce)]
  }

  predicate IsUsed(w: RfqWorld, maker: Address, nonce: nat) {
    Held(w, maker, nonce, w.env.now)
  }

  /** Write the replay record, refusing if one is still live. */
  function MarkUsed(w: RfqWorld, maker: Address, nonce: nat): Result<RfqState> {
    if IsUsed(w, maker, nonce) then Err(AlreadyUsed)
    else Ok(w.rfq.(used := w.rfq.used[(maker, nonce) := w.env.now + USED_TTL_LEDGERS]))
  }

  function ValidateQuote(now: nat, q: Quote): Outcome {
    if q.amountIn <= 0 || q.amountOut <= 0 then Fail(InvalidAmount)
    else if q.tokenIn == q.tokenOut then Fail(SameToken)
    else if q.maker == q.taker then Fail(SameParty)
    else if q.expiryLedger < now then Fail(QuoteExpired)
    else if MAX_QUOTE_TTL_LEDGERS < q.expiryLedger - now then Fail(ExpiryTooFar)
    else if MAX_NAV_BAND_BPS < q.maxNavDevBps then Fail(NavBandTooWide)
    else Pass
  }

  /** The SwapBook's price for the pair; the SwapBook itself refuses a stale one. */
  function ReadNav(env: Env, pair: Pair): Result<Price> {
    match FreshPrice(env, pair)
    case Err(_) => Err(OracleUnavailable)
    case Ok(price) => if price.updatedAt + ORACLE_STALE_LEDGERS < env.now then Err(OracleStale) else Ok(price)
  }

  /** So the contract's own staleness check never fires. */
  lemma NavIsNeverStale(env: Env, pair: Pair)
    ensures ReadNav(env, pair) != Err(OracleStale)
    ensures ReadNav(env, pair).Ok? <==> FreshPrice(env, pair).Ok?
  {
  }

  /** Enforce the NAV band when the quote carries one: (fair value, signed deviation). */
  function NavCheck(env: Env, q: Quote): Result<(int, int)>
    requires 0 < q.amountIn
  {
    if q.maxNavDevBps == 0 then Ok((0, 0))
    else
      var price :- ReadNav(env, Pair(q.tokenIn, q.tokenOut));
      var fair := Floor(q.amountIn, price.num, price.den);
      :- Need(fair <= I128_MAX, Overflow);
      :- Need(0 < fair, OracleUnavailable);
      var gap := fair - q.amountOut;
      var deviation: int := Ceil(if gap < 0 then -gap else gap, BPS_DENOMINATOR, fair);
      :- Need(deviation <= I128_MAX, Overflow);
      :- Need(deviation <= q.maxNavDevBps, NavBandExceeded);
      Ok((fair, if gap < 0 then -deviation else deviation))
  }

  function SettleQuote(w: RfqWorld, q: Quote): Result<RfqWorld> {
    var rfq :- if ValidateQuote(w.env.now, q).Pass? then MarkUsed(w, q.maker, q.nonce)
               else Err(ValidateQuote(w.env.now, q).error);
    var _ :- NavCheck(w.env, q);
    var fee := Fee(w.rfq.fee, q.amountIn);
    :- Need(0 < q.amountIn - fee, InvalidAmount);
    var paid :- PayWithFee(w.bal, q.tokenIn, q.taker, q.maker, w.rfq.vault, q.amountIn - fee, fee);
    var bal :- Transfer(paid, q.tokenOut, q.maker, q.taker, q.amountOut);
    Ok(w.(bal := bal, rfq := rfq))
  }

  function CancelNonce(w: RfqWorld, maker: Address, nonce: nat): Result<RfqWorld> {
    var rfq :- MarkUsed(w, maker, nonce);
    Ok(w.(rfq := rfq))
  }

  datatype QuoteCheck = QuoteCheck(fairOut: int, deviationBps: int, fee: int, makerReceives: int)

  function CheckQuote(w: RfqWorld, q: Quote): Result<QuoteCheck> {
    var rfq :- if ValidateQuote(w.env.now, q).Pass? then MarkUsed(w, q.maker, q.nonce)
               else Err(ValidateQuote(w.env.now, q).error);
    var (fair, deviation) :- NavCheck(w.env, q);
    var fee := Fee(w.rfq.fee, q.amountIn);
    :- Need(0 < q.amountIn - fee, InvalidAmount);
    Ok(QuoteCheck(fair, deviation, fee, q.amountIn - fee))
  }

  // ─── One settlement ─────────────────────────────────

  /** The view predicts settlement: a quote settles exactly when it checks out and
      both parties have their leg, and a quote that does not check out fails with the
      same error. */
  lemma CheckPredictsSettle(w: RfqWorld, q: Quote)
    requires q.taker != w.rfq.vault
    ensures SettleQuote(w, q).Ok? <==>
            && CheckQuote(w, q).Ok?
            && q.amountIn <= Bal(w.bal, q.tokenIn, q.taker)
            && q.amountOut <= Bal(w.bal, q.tokenOut, q.maker)
    ensures CheckQuote(w, q).Err? ==> SettleQuote(w, q) == Err(CheckQuote(w, q).error)
  {
    hide NavCheck, MarkUsed, Bal, Transfer, PayWithFee, Fee;
    if CheckQuote(w, q).Ok? {
      var fee := Fee(w.rfq.fee, q.amountIn);
      LegsSettle(w.bal, w.rfq.vault, q, fee);
    }
  }

  lemma LegsSettle(b: Balances, vault: Address, q: Quote, fee: nat)
    requires q.taker != vault && q.taker != q.maker && q.tokenIn != q.tokenOut
    requires fee < q.amountIn && 0 < q.amountOut
    ensures var paid := PayWithFee(b, q.tokenIn, q.taker, q.maker, vault, q.amountIn - fee, fee);
            (paid.Ok? && Transfer(paid.value, q.tokenOut, q.maker, q.taker, q.amountOut).Ok?)
            <==> q.amountIn <= Bal(b, q.tokenIn, q.taker) && q.amountOut <= Bal(b, q.tokenOut, q.maker)
  {
    PayWithFeeSucceeds(b, q.tokenIn, q.taker, q.maker, vault, q.amountIn - fee, fee);
    if PayWithFee(b, q.tokenIn, q.taker, q.maker, vault, q.amountIn - fee, fee).Ok? {
      PayWithFeeMoves(b, q.tokenIn, q.taker, q.maker, vault, q.amountIn - fee, fee);
    }
  }

  /** Both legs move exactly, and nothing else: the taker pays the full amount, split
      between maker and vault, and receives the full delivery. */
  lemma SettleMoves(w: RfqWorld, q: Quote, t: Address, a: Address)
    requires SettleQuote(w, q).Ok?
    ensures var fee := Fee(w.rfq.fee, q.amountIn);
            && 0 <= fee < q.amountIn
            && Bal(SettleQuote(w, q).value.bal, t, a)
               == Bal(w.bal, t, a) - At(q.tokenIn, q.taker, t, a, q.amountIn)
                  + At(q.tokenIn, q.maker, t, a, q.amountIn - fee) + At(q.tokenIn, w.rfq.vault, t, a, fee)
                  - At(q.tokenOut, q.maker, t, a, q.amountOut) + At(q.tokenOut, q.taker, t, a, q.amountOut)
  {
    hide *;
    SettleLegs(w, q);
    var fee := Fee(w.rfq.fee, q.amountIn);
    PayWithFeeMoves(w.bal, q.tokenIn, q.taker, q.maker, w.rfq.vault, q.amountIn - fee, fee);
    var paid := PayWithFee(w.bal, q.tokenIn, q.taker, q.maker, w.rfq.vault, q.amountIn - fee, fee).value;
    TransferMoves(paid, q.tokenOut, q.maker, q.taker, q.amountOut);
  }

  lemma SettleLegs(w: RfqWorld, q: Quote)
    requires SettleQuote(w, q).Ok?
    ensures var fee := Fee(w.rfq.fee, q.amountIn);
            var paid := PayWithFee(w.bal, q.tokenIn, q.taker, q.maker, w.rfq.vault, q.amountIn - fee, fee);
            && 0 <= fee < q.amountIn && paid.Ok?
            && Transfer(paid.value, q.tokenOut, q.maker, q.taker, q.amountOut) == Ok(SettleQuote(w, q).value.bal)
  {
    hide Transfer, PayWithFee, NavCheck, MarkUsed, Fee;
  }

  /** The band holds in both directions: a quote with a band is within it exactly when
      its distance from fair value, in exact proportion, is. */
  lemma NavBandIff(env: Env, q: Quote)
    requires 0 < q.amountIn && 0 < q.maxNavDevBps <= MAX_NAV_BAND_BPS
             && FreshPrice(env, Pair(q.tokenIn, q.tokenOut)).Ok?
    ensures var price := FreshPrice(env, Pair(q.tokenIn, q.tokenOut)).value;
            var fair := Floor(q.amountIn, price.num, price.den);
            NavCheck(env, q).Ok? <==>
            && 0 < fair <= I128_MAX
            && (fair - q.amountOut) * BPS_DENOMINATOR <= q.maxNavDevBps * fair
            && (q.amountOut - fair) * BPS_DENOMINATOR <= q.maxNavDevBps * fair
  {
    var price := FreshPrice(env, Pair(q.tokenIn, q.tokenOut)).value;
    var fair := Floor(q.amountIn, price.num, price.den);
    if 0 < fair {
      var gap := fair - q.amountOut;
      var size: nat := if gap < 0 then -gap else gap;
      CeilGalois(size, BPS_DENOMINATOR, fair, q.maxNavDevBps);
    }
    hide Floor, Ceil;
  }

  /** A quote's own terms and dates, in explicit terms. */
  lemma ValidQuoteIff(now: nat, q: Quote)
    ensures ValidateQuote(now, q).Pass? <==>
            && 0 < q.amountIn && 0 < q.amountOut && q.tokenIn != q.tokenOut && q.maker != q.taker
            && now <= q.expiryLedger <= now + 120_960 && q.maxNavDevBps <= 1_000
  {
  }

  /** A quote without a band is held to no price; one with a band needs a fresh one. */
  lemma BandNeedsPrice(env: Env, q: Quote)
    requires 0 < q.amountIn
    ensures q.maxNavDevBps == 0 ==> NavCheck(env, q) == Ok((0, 0))
    ensures 0 < q.maxNavDevBps && FreshPrice(env, Pair(q.tokenIn, q.tokenOut)).Err? ==>
              NavCheck(env, q) == Err(OracleUnavailable)
  {
  }

  /** A nonce can be retired exactly while it is not taken. */
  lemma CancelAcceptedIff(w: RfqWorld, maker: Address, nonce: nat)
    ensures CancelNonce(w, maker, nonce).Ok? <==> !IsUsed(w, maker, nonce)
    ensures CancelNonce(w, maker, nonce).Err? ==> CancelNonce(w, maker, nonce).error == AlreadyUsed
  {
  }

  /** What the check reports: with a band, the floored fair value and the deviation from it
      in bps rounded away from zero, positive when the taker is short; without one, zeros. */
  lemma CheckReports(w: RfqWorld, q: Quote)
    requires CheckQuote(w, q).Ok?
    ensures var c := CheckQuote(w, q).value;
            && c.makerReceives == q.amountIn - c.fee && 0 < c.makerReceives
            && q.amountIn * w.rfq.fee <= c.fee * 100_000 < q.amountIn * w.rfq.fee + 100_000
            && (q.maxNavDevBps == 0 ==> c.fairOut == 0 && c.deviationBps == 0)
            && (0 < q.maxNavDevBps ==>
                  && FreshPrice(w.env, Pair(q.tokenIn, q.tokenOut)).Ok?
                  && var price := FreshPrice(w.env, Pair(q.tokenIn, q.tokenOut)).value;
                  && c.fairOut * price.den <= q.amountIn * price.num < (c.fairOut + 1) * price.den
                  && DeviationOf(c.fairOut - q.amountOut, c.fairOut, c.deviationBps))
  {
    CeilBounds(q.amountIn, w.rfq.fee, FEE_DENOMINATOR);
    hide Ceil, Floor, MarkUsed, ValidateQuote;
    if 0 < q.maxNavDevBps {
      NavReports(w.env, q);
    }
  }

  /** `bps` is the gap over the fair value in bps, rounded away from zero, with its sign. */
  predicate DeviationOf(gap: int, fair: int, bps: int) {
    if 0 <= gap then 0 <= bps && (bps - 1) * fair < gap * 10_000 <= bps * fair
    else bps <= 0 && (-bps - 1) * fair < -gap * 10_000 <= -bps * fair
  }

  lemma NavReports(env: Env, q: Quote)
    requires 0 < q.amountIn && 0 < q.maxNavDevBps && NavCheck(env, q).Ok?
    ensures FreshPrice(env, Pair(q.tokenIn, q.tokenOut)).Ok?
    ensures var (fair, deviation) := NavCheck(env, q).value;
            var price := FreshPrice(env, Pair(q.tokenIn, q.tokenOut)).value;
            && fair * price.den <= q.amountIn * price.num < (fair + 1) * price.den
            && DeviationOf(fair - q.amountOut, fair, deviation)
  {
    var price := FreshPrice(env, Pair(q.tokenIn, q.tokenOut)).value;
    var fair := Floor(q.amountIn, price.num, price.den);
    FloorBounds(q.amountIn, price.num, price.den);
    var gap := fair - q.amountOut;
    var size: nat := if gap < 0 then -gap else gap;
    if 0 < fair {
      CeilBounds(size, BPS_DENOMINATOR, fair);
      var bps := Ceil(size, BPS_DENOMINATOR, fair);
      assert (bps - 1) * fair == bps * fair - fair;
    }
    hide Floor, Ceil;
  }

  // ─── Runs ───────────────────────────────────────────

  datatype RfqCall =
    | Settle(q: Quote)
    | Cancel(maker: Address, nonce: nat)
    | SetRate(rate: FeeRate)
    | Elsewhere(env: Env, bal: Balances)

  function RfqNext(w: RfqWorld, call: RfqCall): RfqWorld {
    match call
    case Settle(q) => if SettleQuote(w, q).Ok? then SettleQuote(w, q).value else w
    case Cancel(maker, nonce) => if CancelNonce(w, maker, nonce).Ok? then CancelNonce(w, maker, nonce).value else w
    case SetRate(rate) => w.(rfq := w.rfq.(fee := rate))
    case Elsewhere(env, bal) => if w.env.now <= env.now then w.(env := env, bal := bal) else w
  }

  /** The quotes a run settles, in order. */
  function Settled(w: RfqWorld, calls: seq<RfqCall>): seq<Quote>
    decreases |calls|
  {
    if calls == [] then []
    else (if calls[0].Settle? && SettleQuote(w, calls[0].q).Ok? then [calls[0].q] else [])
         + Settled(RfqNext(w, calls[0]), calls[1..])
  }

  /** A record that outlives the quote. */
  predicate Blocked(w: RfqWorld, q: Quote) {
    Held(w, q.maker, q.nonce, q.expiryLedger)
  }

  /** Records never shorten: they are rewritten only after they have lapsed. */
  lemma BlockedStays(w: RfqWorld, call: RfqCall, q: Quote)
    requires Blocked(w, q)
    ensures Blocked(RfqNext(w, call), q)
    ensures call == Settle(q) ==> SettleQuote(w, q).Err?
  {
    hide NavCheck, PayWithFee, Transfer, Fee;
  }

  lemma {:induction false} BlockedNeverSettles(w: RfqWorld, calls: seq<RfqCall>, q: Quote)
    requires Blocked(w, q)
    ensures q !in Settled(w, calls)
    decreases |calls|
  {
    hide SettleQuote, RfqNext, Blocked;
    if calls != [] {
      BlockedStays(w, calls[0], q);
      BlockedNeverSettles(RfqNext(w, calls[0]), calls[1..], q);
    }
  }

  /** No quote settles twice in any run, though the records that prevent it lapse. */
  lemma {:induction false} NoQuoteSettlesTwice(w: RfqWorld, calls: seq<RfqCall>)
    ensures forall i, j :: 0 <= i < j < |Settled(w, calls)| ==> Settled(w, calls)[i] != Settled(w, calls)[j]
    decreases |calls|
  {
    if calls != [] {
      var w' := RfqNext(w, calls[0]);
      NoQuoteSettlesTwice(w', calls[1..]);
      if calls[0].Settle? && SettleQuote(w, calls[0].q).Ok? {
        SettlingBlocks(w, calls[0].q);
        hide SettleQuote, RfqNext, Blocked;
        BlockedNeverSettles(w', calls[1..], calls[0].q);
      }
    }
  }

  lemma SettlingBlocks(w: RfqWorld, q: Quote)
    requires SettleQuote(w, q).Ok?
    ensures Blocked(SettleQuote(w, q).value, q)
  {
    hide NavCheck, PayWithFee, Transfer, Fee;
  }

  /** After a maker retires a nonce, no quote carrying it that could already have been
      signed for settlement ever settles. */
  lemma RetiredNonceNeverSettles(w: RfqWorld, maker: Address, nonce: nat, calls: seq<RfqCall>, q: Quote)
    requires CancelNonce(w, maker, nonce).Ok?
    requires q.maker == maker && q.nonce == nonce && q.expiryLedger <= w.env.now + MAX_QUOTE_TTL_LEDGERS
    ensures q !in Settled(CancelNonce(w, maker, nonce).value, calls)
  {
    BlockedNeverSettles(CancelNonce(w, maker, nonce).value, calls, q);
  }

  // ─── How long a nonce is taken ──────────────────────

  /** A nonce is used by a settlement, which has a quote, or by its maker retiring it. */
  datatype Use = Use(maker: Address, nonce: nat, ledger: nat, quote: Option<Quote>)

  function UseOf(w: RfqWorld, call: RfqCall): Option<Use> {
    match call
    case Settle(q) => if SettleQuote(w, q).Ok? then Some(Use(q.maker, q.nonce, w.env.now, Some(q))) else None
    case Cancel(maker, nonce) =>
      if CancelNonce(w, maker, nonce).Ok? then Some(Use(maker, nonce, w.env.now, None)) else None
    case _ => None
  }

  /** Every use of a nonce in a run, in order. */
  function Uses(w: RfqWorld, calls: seq<RfqCall>): seq<Use>
    decreases |calls|
  {
    if calls == [] then []
    else
      var use := UseOf(w, calls[0]);
      (if use.Some? then [use.value] else []) + Uses(RfqNext(w, calls[0]), calls[1..])
  }

  function RfqRun(w: RfqWorld, calls: seq<RfqCall>): RfqWorld
    decreases |calls|
  {
    if calls == [] then w else RfqRun(RfqNext(w, calls[0]), calls[1..])
  }

  /** A use writes its record, and nothing else touches a record. */
  lemma OneUse(w: RfqWorld, call: RfqCall)
    ensures var use := UseOf(w, call);
            var w' := RfqNext(w, call);
            && w.env.now <= w'.env.now
            && match use
               case None => w'.rfq.used == w.rfq.used
               case Some(u) =>
                 && u.ledger == w.env.now && !IsUsed(w, u.maker, u.nonce)
                 && w'.rfq.used == w.rfq.used[(u.maker, u.nonce) := w.env.now + USED_TTL_LEDGERS]
  {
    hide NavCheck, PayWithFee, Transfer, Fee;
  }

  lemma {:induction false} HeldDelays(w: RfqWorld, calls: seq<RfqCall>, maker: Address, nonce: nat, until: nat)
    requires Held(w, maker, nonce, until)
    ensures forall u <- Uses(w, calls) :: u.maker == maker && u.nonce == nonce ==> until < u.ledger
    decreases |calls|
  {
    if calls != [] {
      OneUse(w, calls[0]);
      hide UseOf, RfqNext;
      HeldDelays(RfqNext(w, calls[0]), calls[1..], maker, nonce, until);
    }
  }

  /** In any run two uses of one nonce, settlements or not, are more than a record's
      lifetime apart. */
  lemma {:induction false} UsesFarApart(w: RfqWorld, calls: seq<RfqCall>)
    ensures forall i, j :: 0 <= i < j < |Uses(w, calls)|
                           && Uses(w, calls)[i].maker == Uses(w, calls)[j].maker
                           && Uses(w, calls)[i].nonce == Uses(w, calls)[j].nonce
                           ==> Uses(w, calls)[i].ledger + USED_TTL_LEDGERS < Uses(w, calls)[j].ledger
    decreases |calls|
  {
    if calls != [] {
      OneUse(w, calls[0]);
      hide UseOf, RfqNext;
      var w', use := RfqNext(w, calls[0]), UseOf(w, calls[0]);
      UsesFarApart(w', calls[1..]);
      if use.Some? {
        var u, rest := use.value, Uses(w', calls[1..]);
        HeldDelays(w', calls[1..], u.maker, u.nonce, u.ledger + USED_TTL_LEDGERS);
        assert Uses(w, calls) == [u] + rest;
        assert forall j :: 0 <= j < |rest| ==> rest[j] in rest;
      }
    }
  }

  ghost predicate RecentUse(uses: seq<Use>, maker: Address, nonce: nat, at: nat) {
    exists u <- uses :: u.maker == maker && u.nonce == nonce && at <= u.ledger + USED_TTL_LEDGERS
  }

  lemma {:induction false} TimeGoesOn(w: RfqWorld, calls: seq<RfqCall>)
    ensures w.env.now <= RfqRun(w, calls).env.now
    decreases |calls|
  {
    if calls != [] {
      OneUse(w, calls[0]);
      hide RfqNext, UseOf;
      TimeGoesOn(RfqNext(w, calls[0]), calls[1..]);
    }
  }

  lemma {:induction false} RecordHistory(w: RfqWorld, calls: seq<RfqCall>, maker: Address, nonce: nat)
    ensures var end := RfqRun(w, calls);
            IsUsed(end, maker, nonce)
            <==> Held(w, maker, nonce, end.env.now) || RecentUse(Uses(w, calls), maker, nonce, end.env.now)
    decreases |calls|
  {
    if calls != [] {
      var w', use, rest := RfqNext(w, calls[0]), UseOf(w, calls[0]), calls[1..];
      OneUse(w, calls[0]);
      TimeGoesOn(w', rest);
      RecordHistory(w', rest, maker, nonce);
      var end := RfqRun(w, calls);
      var uses := Uses(w', rest);
      hide UseOf, RfqNext, RfqRun, Uses;
      if use.Some? {
        RecentCons(use.value, uses, maker, nonce, end.env.now);
      } else {
        assert [] + uses == uses;
      }
    }
  }

  lemma RecentCons(u: Use, uses: seq<Use>, maker: Address, nonce: nat, at: nat)
    ensures RecentUse([u] + uses, maker, nonce, at)
            <==> (u.maker == maker && u.nonce == nonce && at <= u.ledger + USED_TTL_LEDGERS)
                 || RecentUse(uses, maker, nonce, at)
  {
    assert forall x :: x in [u] + uses <==> x == u || x in uses;
  }

  /** After any run from deployment a nonce is taken if and only if it was used within the
      last USED_TTL_LEDGERS: the guarantee is per quote, and a new quote may carry the
      nonce later. */
  lemma RecordLifetime(w: RfqWorld, calls: seq<RfqCall>, maker: Address, nonce: nat)
    requires w.rfq.used == map[]
    ensures var end := RfqRun(w, calls);
            IsUsed(end, maker, nonce) <==> RecentUse(Uses(w, calls), maker, nonce, end.env.now)
  {
    RecordHistory(w, calls, maker, nonce);
  }

  /** Once a record has lapsed only the ordinary checks can refuse: the quote's own terms
      and dates, the NAV band, a fee that leaves nothing, and the two legs' funds. */
  lemma SettlesIff(w: RfqWorld, q: Quote)
    requires q.taker != w.rfq.vault
    ensures SettleQuote(w, q).Ok? <==>
            && ValidateQuote(w.env.now, q).Pass? && !IsUsed(w, q.maker, q.nonce)
            && NavCheck(w.env, q).Ok? && Fee(w.rfq.fee, q.amountIn) < q.amountIn
            && q.amountIn <= Bal(w.bal, q.tokenIn, q.taker)
            && q.amountOut <= Bal(w.bal, q.tokenOut, q.maker)
  {
    CheckPredictsSettle(w, q);
    hide SettleQuote, NavCheck, Fee, Bal;
  }

  /** Two settlements under one nonce, a record's lifetime apart. */
  lemma NonceCanSettleAgain()
    ensures exists w: RfqWorld, calls: seq<RfqCall> ::
              |Settled(w, calls)| == 2
              && Settled(w, calls)[0].maker == Settled(w, calls)[1].maker
              && Settled(w, calls)[0].nonce == Settled(w, calls)[1].nonce
  {
    var maker, taker, x, y := Address(1), Address(2), Address(3), Address(4);
    var q1 := Quote(maker, taker, x, y, 10, 10, 1, 7, 0);
    var q2 := q1.(expiryLedger := 2 + USED_TTL_LEDGERS);
    var funds: Balances := map[(x, taker) := 100, (y, maker) := 100];
    var w := RfqWorld(Env(1, map[]), funds, RfqState(Address(5), 0, map[]));
    var later := Env(2 + USED_TTL_LEDGERS, map[]);
    var calls := [Settle(q1), Elsewhere(later, funds), Settle(q2)];
    assert Fee(0, 10) == 0;
    CheckPredictsSettle(w, q1);
    var w1 := RfqNext(w, Settle(q1));
    var w2 := RfqNext(w1, Elsewhere(later, funds));
    assert w2.env == later && w2.bal == funds && w2.rfq.fee == 0;
    assert !IsUsed(w2, maker, 7);
    CheckPredictsSettle(w2, q2);
    var w3 := RfqNext(w2, Settle(q2));
    hide SettleQuote, RfqNext;
    assert calls[1..] == [Elsewhere(later, funds), Settle(q2)] && calls[1..][1..] == [Settle(q2)];
    assert Settled(w3, []) == [];
    assert Settled(w2, [Settle(q2)]) == [q2] + Settled(w3, []);
    assert Settled(w1, calls[1..]) == Settled(w2, [Settle(q2)]);
    assert Settled(w, calls) == [q1] + Settled(w1, calls[1..]) == [q1, q2];
  }
}
