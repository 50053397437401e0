/** Exactly when the SwapBook accepts a placement, a cancel, an expiry and a claim, and
    what order a match leaves behind. */
module BookEntry {
  import opened Results
  import opened MulDiv
  import opened Chain
  import opened SwapBook
  import opened BookInvariant
  import opened BookCalls

  /** Terms a request may name: a positive minimum at a fixed price, or a slippage of 1 to
      1000 bps of a fresh oracle price with a minimum that is at least not negative. */
  predicate TermsOk(env: Env, r: Request) {
    if r.oracleMode then 0 <= r.minOut && 1 <= r.slippageBps <= 1000 && FreshPrice(env, r.Market()).Ok?
    else 0 < r.minOut
  }

  /** A placement is accepted exactly when it asks for something, within the book's limits
      on size, dates, exclusions and open orders, and the maker holds it. */
  lemma PlaceAcceptedIff(w: World, r: Request)
    ensures Place(w, r).Ok? <==>
            && 0 < r.amountIn <= Bal(w.bal, r.tokenIn, r.maker) && r.tokenIn != r.tokenOut
            && TermsOk(w.env, r)
            && w.env.now < r.expiry <= w.env.now + 1_555_200
            && (r.autoRouteAfter != 0 ==> w.env.now < r.autoRouteAfter < r.expiry)
            && (r.tokenIn in w.book.minOrder ==> w.book.minOrder[r.tokenIn] <= r.amountIn)
            && |r.excluded| <= 5 && |w.book.Ids(r.Market())| < 200
            && w.book.OpenCount(Slot(r.maker, r.Market())) < 10
  {
    hide Bal, FreshPrice, Enlist;
  }

  /** A maker's cancel is refused only if the order is unknown or closed. */
  lemma CancelAcceptedIff(w: World, id: nat)
    requires Inv(w.book) && (id in w.book.orders ==> 0 <= Surplus(w, w.book.orders[id].tokenIn))
    ensures Cancel(w, id).Ok? <==> id in w.book.orders && w.book.orders[id].Live()
  {
    hide Inv, Surplus, Bal, Close;
    if id in w.book.orders {
      EscrowHeld(w, id);
    }
  }

  /** Anyone may expire a live order, exactly once its expiry has passed. */
  lemma ExpireAcceptedIff(w: World, id: nat)
    requires Inv(w.book) && (id in w.book.orders ==> 0 <= Surplus(w, w.book.orders[id].tokenIn))
    ensures Expire(w, id).Ok? <==>
            id in w.book.orders && w.book.orders[id].Live() && w.book.orders[id].expiry < w.env.now
  {
    hide Inv, Surplus, Bal, Close;
    if id in w.book.orders {
      EscrowHeld(w, id);
    }
  }

  /** The router may claim a live order exactly after its timer and up to its expiry, as
      long as its price can be computed at all. */
  lemma ClaimAcceptedIff(w: World, id: nat)
    requires Inv(w.book) && (id in w.book.orders ==> 0 <= Surplus(w, w.book.orders[id].tokenIn))
    ensures ClaimTimer(w, id).Ok? <==>
            && id in w.book.orders
            && var o := w.book.orders[id];
            && o.Live() && 0 < o.autoRouteAfter < w.env.now <= o.expiry
            && exists net :: NetCoversFloor(o, w.env, o.remaining, net)
  {
    hide Inv, Surplus, Bal, Close, NetCoversFloor, RequiredPayment;
    if id in w.book.orders {
      EscrowHeld(w, id);
      var o := w.book.orders[id];
      var need := RequiredPayment(o, w.env, o.remaining);
      FloorMeansPrice(o, w.env, o.remaining, if need.Ok? then need.value else 0);
      if net :| NetCoversFloor(o, w.env, o.remaining, net) {
        FloorMeansPrice(o, w.env, o.remaining, net);
      }
    }
  }

  // ─── What a match leaves behind ─────────────────────

  predicate Named(fills: seq<FillSpec>, id: nat) {
    exists spec <- fills :: spec.id == id
  }

  lemma FillLeaves(w: World, taker: Address, id: nat, fill: int, gross: int)
    requires Fill(w, taker, id, fill, gross).Ok?
    ensures var w' := Fill(w, taker, id, fill, gross).value;
            && w'.env == w.env && w'.book.nextId == w.book.nextId && w'.book.orders.Keys == w.book.orders.Keys
            && forall x <- w.book.orders :: x != id ==> w'.book.orders[x] == w.book.orders[x]
  {
    hide RequiredPayment, PayWithFee, Transfer, Without, Fee;
  }

  /** A plan changes no order it does not name, and numbers none. */
  lemma {:induction false} MatchLeaves(w: World, r: Request, fills: seq<FillSpec>, spent: int)
    requires MatchFrom(w, r, fills, spent).Ok?
    ensures var w' := MatchFrom(w, r, fills, spent).value.0;
            && w'.env == w.env && w'.book.nextId == w.book.nextId && w'.book.orders.Keys == w.book.orders.Keys
            && forall x <- w.book.orders :: !Named(fills, x) ==> w'.book.orders[x] == w.book.orders[x]
    decreases |fills|
  {
    hide Fill;
    if fills != [] {
      var spec := fills[0];
      FillLeaves(w, r.maker, spec.id, spec.fill, spec.gross);
      MatchLeaves(Fill(w, r.maker, spec.id, spec.fill, spec.gross).value, r, fills[1..], spent + spec.gross);
      assert spec in fills && forall x <- fills[1..] :: x in fills;
    }
  }

  /** The order a request's unspent rest becomes: on the request's own terms and dates. */
  predicate RestOf(r: Request, rest: int, now: nat, id: nat, o: Order) {
    && o.id == id && o.createdAt == now && o.maker == r.maker && o.Market() == r.Market()
    && o.amountIn == rest && o.remaining == rest && o.status == Open
    && o.expiry == r.expiry && o.autoRouteAfter == r.autoRouteAfter && o.excluded == r.excluded
    && match o.terms
       case Fixed(minOut) => !r.oracleMode && minOut == r.minOut
       case Oracle(minOut, slippage) => r.oracleMode && minOut == r.minOut && slippage == r.slippageBps
  }

  ghost predicate LeavesOthers(book: Book, book': Book, fills: seq<FillSpec>) {
    forall x <- book.orders :: x in book'.orders && (!Named(fills, x) ==> book'.orders[x] == book.orders[x])
  }

  /** match_and_place leaves the unspent rest as one new order at the next number; with
      nothing left it numbers none. No order the plan does not name changes. */
  lemma MatchAndPlaceLists(w: World, r: Request, fills: seq<FillSpec>, w': World)
    requires Inv(w.book) && MatchAndPlace(w, r, fills) == Ok(w')
    ensures Spent(fills) <= r.amountIn && LeavesOthers(w.book, w'.book, fills)
    ensures Spent(fills) == r.amountIn ==> w'.book.nextId == w.book.nextId && w'.book.orders.Keys == w.book.orders.Keys
    ensures Spent(fills) < r.amountIn ==>
              && w'.book.nextId == w.book.nextId + 1
              && w'.book.orders.Keys == w.book.orders.Keys + {w.book.nextId}
              && RestOf(r, r.amountIn - Spent(fills), w.env.now, w.book.nextId, w'.book.orders[w.book.nextId])
  {
    hide MatchFrom, Place, Named, Spent;
    MatchLeaves(w, r, fills, 0);
    MatchReports(w, r, fills, 0);
    MatchWithin(w, r, fills, 0);
    var (w1, spent) := MatchFrom(w, r, fills, 0).value;
    assert w.book.nextId !in w.book.orders;
    hide Inv;
    if spent < r.amountIn {
      PlaceLists(w1, r.(amountIn := r.amountIn - spent));
    }
  }

  lemma {:induction false} MatchWithin(w: World, r: Request, fills: seq<FillSpec>, spent: int)
    requires MatchFrom(w, r, fills, spent).Ok? && spent <= r.amountIn
    ensures MatchFrom(w, r, fills, spent).value.1 <= r.amountIn
    decreases |fills|
  {
    hide Fill;
    if fills != [] {
      var spec := fills[0];
      MatchWithin(Fill(w, r.maker, spec.id, spec.fill, spec.gross).value, r, fills[1..], spent + spec.gross);
    }
  }

  /** match_and_place succeeds exactly when its plan runs and the book takes what is left. */
  lemma MatchAndPlaceAcceptedIff(w: World, r: Request, fills: seq<FillSpec>)
    ensures MatchAndPlace(w, r, fills).Ok? <==>
            && 0 < r.amountIn && MatchFrom(w, r, fills, 0).Ok?
            && (Spent(fills) < r.amountIn ==>
                  Place(MatchFrom(w, r, fills, 0).value.0, r.(amountIn := r.amountIn - Spent(fills))).Ok?)
  {
    hide MatchFrom, Place;
    if MatchFrom(w, r, fills, 0).Ok? {
      MatchReports(w, r, fills, 0);
    }
  }

  /** The fee moves only within its cap, a minimum only to what is not negative, and zero
      lifts it. */
  lemma SettingsAcceptedIff(w: World, rate: int, token: Address, amount: int)
    ensures SetFee(w, rate).Ok? <==> 0 <= rate <= 5
    ensures SetFee(w, rate).Ok? ==> SetFee(w, rate).value == w.(book := w.book.(fee := rate))
    ensures SetMinOrder(w, token, amount).Ok? <==> 0 <= amount
    ensures SetMinOrder(w, token, amount).Ok? ==>
              var book := SetMinOrder(w, token, amount).value.book;
              && book == w.book.(minOrder := book.minOrder)
              && (forall t :: t != token ==> (t in book.minOrder <==> t in w.book.minOrder))
              && (forall t <- w.book.minOrder :: t != token ==> book.minOrder[t] == w.book.minOrder[t])
              && (token in book.minOrder <==> amount != 0)
              && (amount != 0 ==> book.minOrder[token] == amount)
  {
  }
}
