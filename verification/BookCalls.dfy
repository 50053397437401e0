/** What each SwapBook call does to the world, read off its result: exact
    movements of every balance, the effect on the order it names, and the
    invariant and escrow it keeps. */
module BookCalls {
  import opened Results
  import opened MulDiv
  import opened Chain
  import opened SwapBook
  import opened BookInvariant

  /** Two books that agree on everything a call must leave alone. */
  predicate SameContract(book: Book, book': Book) {
    && book'.self == book.self && book'.vault == book.vault && book'.router == book.router
    && book'.fee == book.fee && book'.minOrder == book.minOrder
  }

  /** Only order `id` and its history may differ. */
  predicate OnlyOrder(book: Book, book': Book, id: nat) {
    && SameContract(book, book')
    && book'.nextId == book.nextId
    && id in book.orders && id in book'.orders
    && book'.orders == book.orders[id := book'.orders[id]]
    && book'.receipts == book.receipts[id := book'.Paid(id)]
  }

  /** The price a fill is held to: a Fixed order's pro-rata price net of the fee,
      or the oracle's fair value less the order's slippage. */
  ghost predicate NetCoversFloor(o: Order, env: Env, fill: nat, net: int) {
    match o.terms
    case Fixed(minOut) => minOut * fill <= net * o.amountIn
    case Oracle(_, slippage) =>
      && FreshPrice(env, o.Market()).Ok?
      && (var price := FreshPrice(env, o.Market()).value;
          var fair := Floor(fill, price.num, price.den);
          fair <= I128_MAX && fair * (BPS_DENOMINATOR - slippage) <= net * BPS_DENOMINATOR)
  }

  lemma FloorMeansPrice(o: Order, env: Env, fill: nat, net: int)
    ensures RequiredPayment(o, env, fill).Ok? && RequiredPayment(o, env, fill).value <= net
            <==> NetCoversFloor(o, env, fill, net)
  {
    match o.terms
    case Fixed(minOut) => CeilGalois(minOut, fill, o.amountIn, net);
    case Oracle(_, slippage) =>
      if FreshPrice(env, o.Market()).Ok? {
        var price := FreshPrice(env, o.Market()).value;
        CeilGalois(Floor(fill, price.num, price.den), BPS_DENOMINATOR - slippage, BPS_DENOMINATOR, net);
      }
  }

  lemma FeeIsPart(rate: FeeRate, amount: nat)
    ensures 0 <= Fee(rate, amount) <= amount
    ensures 0 < rate && 0 < amount ==> 0 < Fee(rate, amount)
  {
    CeilGalois(amount, rate, FEE_DENOMINATOR, amount);
    CeilBounds(amount, rate, FEE_DENOMINATOR);
    assert amount * rate <= amount * FEE_DENOMINATOR;
    if 0 < rate && 0 < amount {
      assert 0 < amount * rate;
    }
  }

  /** Exactly when a fill is accepted, by a taker other than the vault and the book. */
  lemma FillAcceptedIff(w: World, taker: Address, id: nat, fill: int, gross: int)
    requires Inv(w.book) && taker != w.book.self && taker != w.book.vault
    requires 0 <= Surplus(w, if id in w.book.orders then w.book.orders[id].tokenIn else w.book.self)
    ensures Fill(w, taker, id, fill, gross).Ok? <==>
            && id in w.book.orders
            && var o := w.book.orders[id];
            && o.Live() && taker !in o.excluded && taker != o.maker && w.env.now <= o.expiry
            && 0 < fill <= o.remaining && 0 < gross
            && 0 < gross - Fee(w.book.fee, gross)
            && NetCoversFloor(o, w.env, fill, gross - Fee(w.book.fee, gross))
            && gross <= Bal(w.bal, o.tokenOut, taker)
  {
    hide Inv, Surplus, Escrow, NetCoversFloor, RequiredPayment, PayWithFee, Transfer, Bal, Fee, Consume;
    if id in w.book.orders && 0 < fill && 0 < gross && taker != w.book.orders[id].maker {
      var o := w.book.orders[id];
      var fee := Fee(w.book.fee, gross);
      FeeIsPart(w.book.fee, gross);
      FloorMeansPrice(o, w.env, fill, gross - fee);
      EscrowHeld(w, id);
      if o.Live() && fill <= o.remaining {
        FillFundedIff(w, o, taker, fill, gross - fee, fee);
      }
    }
  }

  lemma EscrowHeld(w: World, id: nat)
    requires Inv(w.book) && id in w.book.orders && 0 <= Surplus(w, w.book.orders[id].tokenIn)
    ensures var o := w.book.orders[id];
            o.tokenIn != o.tokenOut && (o.Live() ==> o.remaining <= Bal(w.bal, o.tokenIn, w.book.self))
  {
    EscrowCovers(w.book, id);
    hide Escrow, Indexed, Counted, Bal;
  }

  /** An escrowed fill's transfers succeed exactly when the taker holds the payment. */
  lemma FillFundedIff(w: World, o: Order, taker: Address, fill: nat, net: nat, fee: nat)
    requires taker != w.book.self && taker != w.book.vault && taker != o.maker && o.tokenIn != o.tokenOut
    requires 0 < fill <= Bal(w.bal, o.tokenIn, w.book.self)
    ensures var paid := PayWithFee(w.bal, o.tokenOut, taker, o.maker, w.book.vault, net, fee);
            (paid.Ok? && Transfer(paid.value, o.tokenIn, w.book.self, taker, fill).Ok?)
            <==> net + fee <= Bal(w.bal, o.tokenOut, taker)
  {
    hide PayWithFee;
    PayWithFeeSucceeds(w.bal, o.tokenOut, taker, o.maker, w.book.vault, net, fee);
    if PayWithFee(w.bal, o.tokenOut, taker, o.maker, w.book.vault, net, fee).Ok? {
      PayWithFeeMoves(w.bal, o.tokenOut, taker, o.maker, w.book.vault, net, fee);
    }
  }

  lemma EscrowCovers(book: Book, id: nat)
    requires Inv(book) && id in book.orders
    ensures book.orders[id].Live() ==> book.orders[id].remaining <= Escrow(book, book.orders[id].tokenIn)
  {
    Sums.TotalCovers(book.orders, EscrowWeight(book.orders[id].tokenIn), book.nextId, id);
  }

  /** How a fill changes one holding. */
  function FillMoves(book: Book, o: Order, taker: Address, fill: int, gross: nat, t: Address, a: Address): int {
    var fee := Fee(book.fee, gross);
    At(o.tokenOut, o.maker, t, a, gross - fee) + At(o.tokenOut, book.vault, t, a, fee)
    - At(o.tokenOut, taker, t, a, gross)
    - At(o.tokenIn, book.self, t, a, fill) + At(o.tokenIn, taker, t, a, fill)
  }

  lemma FillLegs(w: World, taker: Address, id: nat, fill: int, gross: int)
    requires Fill(w, taker, id, fill, gross).Ok?
    ensures id in w.book.orders && 0 < gross
    ensures var o := w.book.orders[id];
            var fee := Fee(w.book.fee, gross);
            var paid := PayWithFee(w.bal, o.tokenOut, taker, o.maker, w.book.vault, gross - fee, fee);
            && 0 <= fee && paid.Ok?
            && Transfer(paid.value, o.tokenIn, w.book.self, taker, fill)
               == Ok(Fill(w, taker, id, fill, gross).value.bal)
  {
    hide PayWithFee, Transfer, RequiredPayment, Consume, Fee;
  }

  lemma FillBalances(w: World, taker: Address, id: nat, fill: int, gross: int)
    requires Fill(w, taker, id, fill, gross).Ok?
    ensures var w' := Fill(w, taker, id, fill, gross).value;
            forall t, a :: Bal(w'.bal, t, a)
                           == Bal(w.bal, t, a) + FillMoves(w.book, w.book.orders[id], taker, fill, gross, t, a)
  {
    hide Fill, Fee, PayWithFee, Transfer, Bal, At;
    FillLegs(w, taker, id, fill, gross);
    var o := w.book.orders[id];
    var fee := Fee(w.book.fee, gross);
    PayWithFeeMoves(w.bal, o.tokenOut, taker, o.maker, w.book.vault, gross - fee, fee);
    var paid := PayWithFee(w.bal, o.tokenOut, taker, o.maker, w.book.vault, gross - fee, fee).value;
    TransferMoves(paid, o.tokenIn, w.book.self, taker, fill);
  }

  /** A fill shrinks the order by exactly what was taken and keeps the book right. */
  lemma FillBook(w: World, taker: Address, id: nat, fill: int, gross: int)
    requires Inv(w.book) && Fill(w, taker, id, fill, gross).Ok?
    ensures var book := Fill(w, taker, id, fill, gross).value.book;
            var o := w.book.orders[id];
            && Fill(w, taker, id, fill, gross).value.env == w.env
            && Inv(book) && OnlyOrder(w.book, book, id)
            && (forall t :: Escrow(book, t) == Escrow(w.book, t) - if t == o.tokenIn then fill else 0)
            && book.orders[id] == o.(remaining := o.remaining - fill,
                                     status := if o.remaining == fill then Filled else PartialFill)
            && book.Paid(id) == Receipt(w.book.Paid(id).net + gross - Fee(w.book.fee, gross), w.book.Paid(id).refunded)
  {
    hide Inv, Escrow, PayWithFee, Transfer, RequiredPayment, Without;
    ConsumeKeeps(w.book, id, fill, gross - Fee(w.book.fee, gross));
  }

  /** A fill pays the maker, the vault and the taker exactly and moves nothing else;
      the contract keeps exactly what its live orders escrow. */
  lemma FillSurplus(w: World, taker: Address, id: nat, fill: int, gross: int, t: Address)
    requires Inv(w.book) && Fill(w, taker, id, fill, gross).Ok? && taker != w.book.self
    ensures Surplus(Fill(w, taker, id, fill, gross).value, t) == Surplus(w, t)
  {
    FillBook(w, taker, id, fill, gross);
    FillBalances(w, taker, id, fill, gross);
  }

  /** Placing lists the order as asked, at the next number. */
  lemma PlaceLists(w: World, r: Request)
    requires Place(w, r).Ok?
    ensures var book := Place(w, r).value.book;
            var id := w.book.nextId;
            && Place(w, r).value.env == w.env && SameContract(w.book, book)
            && book.nextId == id + 1 && book.receipts == w.book.receipts
            && 0 < r.amountIn && id in book.orders
            && book.orders == w.book.orders[id := book.orders[id]]
            && var o := book.orders[id];
            && o.id == id && o.createdAt == w.env.now
            && o.maker == r.maker && o.Market() == r.Market() && o.expiry == r.expiry && o.excluded == r.excluded
            && o.amountIn == r.amountIn && o.remaining == r.amountIn && o.status == Open
            && o.autoRouteAfter == r.autoRouteAfter
            && (if r.oracleMode then o.terms == Oracle(r.minOut, r.slippageBps) else o.terms == Fixed(r.minOut))
  {
  }

  /** Placing escrows exactly the amount asked. */
  lemma PlaceMoves(w: World, r: Request, t: Address, a: Address)
    requires Place(w, r).Ok?
    ensures Bal(Place(w, r).value.bal, t, a)
            == Bal(w.bal, t, a) - At(r.tokenIn, r.maker, t, a, r.amountIn)
               + At(r.tokenIn, w.book.self, t, a, r.amountIn)
  {
    TransferMoves(w.bal, r.tokenIn, r.maker, w.book.self, r.amountIn);
  }

  lemma PlaceKeeps(w: World, r: Request)
    requires Inv(w.book) && Place(w, r).Ok? && r.maker != w.book.self
    ensures Inv(Place(w, r).value.book)
    ensures forall t :: Surplus(Place(w, r).value, t) == Surplus(w, t)
  {
    EnlistKeeps(w.book, Admit(w, r).value);
    forall t ensures Surplus(Place(w, r).value, t) == Surplus(w, t) {
      PlaceMoves(w, r, t, w.book.self);
    }
  }

  /** Leaving the book moves exactly the escrow to `to`. */
  predicate Emptied(w: World, w': World, id: nat, status: Status, refund: int)
  {
    && id in w.book.orders && OnlyOrder(w.book, w'.book, id)
    && w'.env == w.env
    && w.book.orders[id].Live() && !w'.book.orders[id].Live()
    && w'.book.orders[id] == w.book.orders[id].(remaining := 0, status := status)
    && w'.book.Paid(id) == Receipt(w.book.Paid(id).net, w.book.Paid(id).refunded + refund)
  }

  ghost predicate MovesEscrow(w: World, w': World, id: nat, to: Address)
    requires id in w.book.orders
  {
    var o := w.book.orders[id];
    forall t, a :: Bal(w'.bal, t, a) == Bal(w.bal, t, a) - At(o.tokenIn, w.book.self, t, a, o.remaining)
                                        + At(o.tokenIn, to, t, a, o.remaining)
  }

  lemma CancelEffects(w: World, id: nat)
    requires Inv(w.book) && Cancel(w, id).Ok?
    ensures var w' := Cancel(w, id).value;
            && Inv(w'.book) && (forall t :: Surplus(w', t) == Surplus(w, t))
            && Emptied(w, w', id, Cancelled, w.book.orders[id].remaining)
            && MovesEscrow(w, w', id, w.book.orders[id].maker)
  {
    var o := w.book.orders[id];
    TransferMoves(w.bal, o.tokenIn, w.book.self, o.maker, o.remaining);
    CloseKeeps(w.book, id, Cancelled, o.remaining);
  }

  lemma ExpireEffects(w: World, id: nat)
    requires Inv(w.book) && Expire(w, id).Ok?
    ensures var w' := Expire(w, id).value;
            && w.book.orders[id].expiry < w.env.now
            && Inv(w'.book) && (forall t :: Surplus(w', t) == Surplus(w, t))
            && Emptied(w, w', id, Expired, w.book.orders[id].remaining)
            && MovesEscrow(w, w', id, w.book.orders[id].maker)
  {
    var o := w.book.orders[id];
    TransferMoves(w.bal, o.tokenIn, w.book.self, o.maker, o.remaining);
    CloseKeeps(w.book, id, Expired, o.remaining);
  }

  /** A claim hands the router the whole escrow together with a floor at the
      order's own price, and only between its timer and its expiry. */
  lemma ClaimEffects(w: World, id: nat)
    requires Inv(w.book) && ClaimTimer(w, id).Ok?
    ensures var (w', c) := ClaimTimer(w, id).value;
            && id in w.book.orders
            && var o := w.book.orders[id];
            && 0 < o.autoRouteAfter < w.env.now <= o.expiry
            && c == Claim(id, o.maker, o.tokenIn, o.tokenOut, o.remaining, c.minOut)
            && (forall net :: c.minOut <= net <==> NetCoversFloor(o, w.env, o.remaining, net))
            && Inv(w'.book) && (forall t :: Surplus(w', t) == Surplus(w, t))
            && (forall t :: Escrow(w'.book, t) == Escrow(w.book, t) - if t == o.tokenIn then o.remaining else 0)
            && Emptied(w, w', id, Routed, 0)
            && MovesEscrow(w, w', id, w.book.router)
  {
    var o := w.book.orders[id];
    var c := ClaimTimer(w, id).value.1;
    TransferMoves(w.bal, o.tokenIn, w.book.self, w.book.router, o.remaining);
    CloseKeeps(w.book, id, Routed, 0);
    forall net ensures c.minOut <= net <==> NetCoversFloor(o, w.env, o.remaining, net) {
      FloorMeansPrice(o, w.env, o.remaining, net);
    }
  }

  // ─── Matching: sums over a plan ─────────────────────

  /** Total taken from the book by a plan. */
  function Taken(fills: seq<FillSpec>): int {
    if fills == [] then 0 else fills[0].fill + Taken(fills[1..])
  }

  /** Total paid for a plan, fees included. */
  function Spent(fills: seq<FillSpec>): int {
    if fills == [] then 0 else fills[0].gross + Spent(fills[1..])
  }

  lemma {:induction false} PlanAppend(fills: seq<FillSpec>, spec: FillSpec)
    ensures Taken(fills + [spec]) == Taken(fills) + spec.fill
    ensures Spent(fills + [spec]) == Spent(fills) + spec.gross
  {
    if fills == [] {
      assert [] + [spec] == [spec];
    } else {
      assert (fills + [spec])[1..] == fills[1..] + [spec];
      PlanAppend(fills[1..], spec);
    }
  }

  lemma EmptyPlan()
    ensures Taken([]) == 0 && Spent([]) == 0
  {
  }

  function Fees(rate: FeeRate, fills: seq<FillSpec>): int {
    if fills == [] then 0
    else (if 0 < fills[0].gross then Fee(rate, fills[0].gross) else 0) + Fees(rate, fills[1..])
  }

  /** What a plan pays, net of fees, to the orders of one maker. */
  function NetTo(book: Book, fills: seq<FillSpec>, maker: Address): int {
    if fills == [] then 0
    else (if fills[0].id in book.orders && book.orders[fills[0].id].maker == maker && 0 < fills[0].gross
          then fills[0].gross - Fee(book.fee, fills[0].gross) else 0)
         + NetTo(book, fills[1..], maker)
  }

  /** Makers and the fee rate do not change while a plan runs. */
  lemma {:induction false} NetToStable(book: Book, book': Book, fills: seq<FillSpec>, maker: Address)
    requires book'.fee == book.fee
    requires book'.orders.Keys == book.orders.Keys
    requires forall id <- book.orders :: book'.orders[id].maker == book.orders[id].maker
    ensures NetTo(book', fills, maker) == NetTo(book, fills, maker)
  {
    if fills != [] {
      NetToStable(book, book', fills[1..], maker);
    }
  }

  /** How a plan changes one holding. */
  function MatchMoves(book: Book, r: Request, fills: seq<FillSpec>, t: Address, a: Address): int {
    (if t == r.tokenIn then NetTo(book, fills, a) else 0)
    + At(r.tokenIn, book.vault, t, a, Fees(book.fee, fills))
    - At(r.tokenIn, r.maker, t, a, Spent(fills))
    - At(r.tokenOut, book.self, t, a, Taken(fills)) + At(r.tokenOut, r.maker, t, a, Taken(fills))
  }

  lemma MatchMovesStep(book: Book, book': Book, r: Request, fills: seq<FillSpec>, t: Address, a: Address)
    requires fills != [] && 0 < fills[0].gross && fills[0].id in book.orders
    requires book.orders[fills[0].id].Market() == Pair(r.tokenOut, r.tokenIn)
    requires OnlyOrder(book, book', fills[0].id)
    requires book'.orders[fills[0].id].maker == book.orders[fills[0].id].maker
    ensures MatchMoves(book, r, fills, t, a)
            == FillMoves(book, book.orders[fills[0].id], r.maker, fills[0].fill, fills[0].gross, t, a)
               + MatchMoves(book', r, fills[1..], t, a)
  {
    NetToStable(book, book', fills[1..], a);
  }

  /** A fill changes no order's expiry and numbers no order. */
  lemma FillKeepsTerms(w: World, taker: Address, id: nat, fill: int, gross: int)
    requires Fill(w, taker, id, fill, gross).Ok?
    ensures var w' := Fill(w, taker, id, fill, gross).value;
            && w'.env == w.env && w'.book.nextId == w.book.nextId && w'.book.orders.Keys == w.book.orders.Keys
            && id in w.book.orders && w.env.now <= w.book.orders[id].expiry
            && forall x <- w.book.orders :: w'.book.orders[x].expiry == w.book.orders[x].expiry
  {
    hide RequiredPayment, PayWithFee, Transfer, Without, Fee;
  }

  /** A plan reports exactly its gross total, and numbers no order. */
  lemma {:induction false} MatchReports(w: World, r: Request, fills: seq<FillSpec>, spent: int)
    requires MatchFrom(w, r, fills, spent).Ok?
    ensures var (w', total) := MatchFrom(w, r, fills, spent).value;
            total == spent + Spent(fills) && w'.book.nextId == w.book.nextId
    decreases |fills|
  {
    hide Fill;
    if fills != [] {
      var spec := fills[0];
      FillKeepsTerms(w, r.maker, spec.id, spec.fill, spec.gross);
      MatchReports(Fill(w, r.maker, spec.id, spec.fill, spec.gross).value, r, fills[1..], spent + spec.gross);
    }
  }

  /** A plan that runs to the end names no lapsed order. */
  lemma {:induction false} MatchNeedsUnlapsed(w: World, r: Request, fills: seq<FillSpec>, spent: int)
    requires MatchFrom(w, r, fills, spent).Ok?
    ensures forall spec <- fills :: spec.id in w.book.orders && w.env.now <= w.book.orders[spec.id].expiry
    decreases |fills|
  {
    hide Fill;
    if fills != [] {
      var spec := fills[0];
      FillKeepsTerms(w, r.maker, spec.id, spec.fill, spec.gross);
      MatchNeedsUnlapsed(Fill(w, r.maker, spec.id, spec.fill, spec.gross).value, r, fills[1..], spent + spec.gross);
      assert fills == [spec] + fills[1..];
    }
  }

  /** Matching keeps the book right and its holdings exact, and spends what the plan says. */
  lemma {:induction false} MatchFromKeeps(w: World, r: Request, fills: seq<FillSpec>, spent: int)
    requires Inv(w.book) && r.maker != w.book.self && spent <= r.amountIn
    requires MatchFrom(w, r, fills, spent).Ok?
    ensures var (w', total) := MatchFrom(w, r, fills, spent).value;
            && w'.env == w.env && Inv(w'.book) && SameContract(w.book, w'.book)
            && w'.book.nextId == w.book.nextId
            && (forall t :: Surplus(w', t) == Surplus(w, t))
            && total == spent + Spent(fills) <= r.amountIn
    decreases |fills|
  {
    hide Inv, Escrow, Fill;
    if fills != [] {
      var spec := fills[0];
      var w1 := Fill(w, r.maker, spec.id, spec.fill, spec.gross).value;
      FillBook(w, r.maker, spec.id, spec.fill, spec.gross);
      MatchFromKeeps(w1, r, fills[1..], spent + spec.gross);
      var w' := MatchFrom(w, r, fills, spent).value.0;
      forall t ensures Surplus(w', t) == Surplus(w, t) {
        FillSurplus(w, r.maker, spec.id, spec.fill, spec.gross, t);
      }
    }
  }

  /** A match moves exactly the sums over the plan, also when the plan names one
      order twice. */
  lemma {:induction false} MatchFromMoves(w: World, r: Request, fills: seq<FillSpec>, spent: int, t: Address,
                                          a: Address)
    requires Inv(w.book)
    requires MatchFrom(w, r, fills, spent).Ok?
    ensures Bal(MatchFrom(w, r, fills, spent).value.0.bal, t, a)
            == Bal(w.bal, t, a) + MatchMoves(w.book, r, fills, t, a)
    decreases |fills|
  {
    hide Inv, Bal, FillMoves;
    if fills == [] {
      assert MatchMoves(w.book, r, fills, t, a) == 0;
    } else {
      hide MatchMoves;
      var spec := fills[0];
      var w1 := Fill(w, r.maker, spec.id, spec.fill, spec.gross).value;
      FillBook(w, r.maker, spec.id, spec.fill, spec.gross);
      FillBalances(w, r.maker, spec.id, spec.fill, spec.gross);
      MatchMovesStep(w.book, w1.book, r, fills, t, a);
      MatchFromMoves(w1, r, fills[1..], spent + spec.gross, t, a);
    }
  }

  lemma MatchAndPlaceKeeps(w: World, r: Request, fills: seq<FillSpec>)
    requires Inv(w.book) && r.maker != w.book.self && MatchAndPlace(w, r, fills).Ok?
    ensures var w' := MatchAndPlace(w, r, fills).value;
            && w'.env == w.env && Inv(w'.book) && SameContract(w.book, w'.book)
            && (forall t :: Surplus(w', t) == Surplus(w, t))
  {
    hide Inv, Escrow, Place, MatchFrom;
    MatchFromKeeps(w, r, fills, 0);
    var (w1, spent) := MatchFrom(w, r, fills, 0).value;
    if spent < r.amountIn {
      PlaceKeeps(w1, r.(amountIn := r.amountIn - spent));
      PlaceLists(w1, r.(amountIn := r.amountIn - spent));
    }
  }

  /** match_and_place conserves: the maker is debited exactly the stated input
      (gross payments plus what is escrowed) and credited exactly what the fills
      take; each gross payment reaches the counter-makers and the vault in full. */
  lemma MatchAndPlaceConserves(w: World, r: Request, fills: seq<FillSpec>, t: Address, a: Address)
    requires Inv(w.book) && r.maker != w.book.self && MatchAndPlace(w, r, fills).Ok?
    ensures var rest := r.amountIn - Spent(fills);
            && 0 <= rest
            && Bal(MatchAndPlace(w, r, fills).value.bal, t, a)
               == Bal(w.bal, t, a) + MatchMoves(w.book, r, fills, t, a)
                  - At(r.tokenIn, r.maker, t, a, rest) + At(r.tokenIn, w.book.self, t, a, rest)
  {
    hide Inv, Bal, MatchMoves, Surplus, Place, MatchFrom, Fees, NetTo;
    MatchFromKeeps(w, r, fills, 0);
    MatchFromMoves(w, r, fills, 0, t, a);
    var (w1, spent) := MatchFrom(w, r, fills, 0).value;
    if spent < r.amountIn {
      PlaceMoves(w1, r.(amountIn := r.amountIn - spent), t, a);
    }
  }
}
