/** Whole runs of SwapBook and Router together: any interleaving of orders, fills,
    matches, cancellations, expiries, timer settlements, fee changes, venue
    changes, and whatever the rest of the chain does in between. */
module Lifetime {
  import opened Results
  import opened MulDiv
  import opened Chain
  import opened Venues
  import Sums
  import opened SwapBook
  import opened BookInvariant
  import opened BookCalls
  import opened Routing
  import opened RouterCalls

  datatype System = System(w: World, rt: Router)

  /** One invocation. `Outside` is everything the two contracts take no part in: the
      ledger advances, prices move, other holdings change. `Gift` is an unsolicited
      transfer to the book. */
  datatype Call =
    | PlaceOrder(r: Request)
    | Match(r: Request, fills: seq<FillSpec>)
    | FillOrder(taker: Address, id: nat, fill: int, gross: int)
    | CancelOrder(id: nat)
    | ExpireOrder(id: nat)
    | SettleTimer(id: nat, segments: seq<Segment>, outs: seq<int>)
    | SetBookFee(rate: int)
    | SetMinimum(token: Address, amount: int)
    | SetRouterFee(routerRate: FeeRate)
    | RegisterVenue(venueId: nat, account: Address)
    | RemoveVenue(venueId: nat)
    | Outside(env: Env, bal: Balances)
    | Gift(token: Address, given: nat)

  function BookResult(s: System, call: Call): Result<World> {
    match call
    case PlaceOrder(r) => Place(s.w, r)
    case Match(r, fills) => MatchAndPlace(s.w, r, fills)
    case FillOrder(taker, id, fill, gross) => Fill(s.w, taker, id, fill, gross)
    case CancelOrder(id) => Cancel(s.w, id)
    case ExpireOrder(id) => Expire(s.w, id)
    case SettleTimer(id, segments, outs) => RouteExpired(s.rt, s.w, id, segments, outs)
    case SetBookFee(rate) => SetFee(s.w, rate)
    case SetMinimum(token, amount) => SetMinOrder(s.w, token, amount)
    case Outside(env, bal) => Ok(s.w.(env := env, bal := bal))
    case Gift(token, given) => Ok(s.w.(bal := Credit(s.w.bal, token, s.w.book.self, given)))
    case _ => Ok(s.w)
  }

  function RouterAfter(rt: Router, call: Call): Router {
    match call
    case SetRouterFee(routerRate) => rt.(fee := routerRate)
    case RegisterVenue(id, account) => if id in rt.venues then rt else rt.(venues := rt.venues[id := account])
    case RemoveVenue(id) => rt.(venues := rt.venues - {id})
    case _ => rt
  }

  /** Who may act: the book never signs a call, is no venue, and nobody else can
      move what it holds; ledgers only advance. */
  ghost predicate Possible(s: System, call: Call) {
    match call
    case PlaceOrder(r) => r.maker != s.w.book.self
    case Match(r, _) => r.maker != s.w.book.self
    case FillOrder(taker, _, _, _) => taker != s.w.book.self
    case RegisterVenue(_, account) => account != s.w.book.self
    case Outside(env, bal) =>
      s.w.env.now <= env.now && forall t :: Bal(bal, t, s.w.book.self) == Bal(s.w.bal, t, s.w.book.self)
    case _ => true
  }

  /** A call that fails leaves the whole state as it was. */
  ghost function Next(s: System, call: Call): System {
    if Possible(s, call) && BookResult(s, call).Ok?
    then System(BookResult(s, call).value, RouterAfter(s.rt, call))
    else s
  }

  ghost function Run(s: System, calls: seq<Call>): System
    decreases |calls|
  {
    if calls == [] then s else Run(Next(s, calls[0]), calls[1..])
  }

  // ─── The maker's floor over an order's whole life ───

  /** What was taken from a Fixed order has been paid for at its own price, net of
      every fee: net received x amount_in >= min_amount_out x consumed. */
  predicate PaidFor(o: Order, paid: Receipt) {
    && 0 <= paid.net && 0 <= paid.refunded
    && (o.terms.Fixed? ==> o.terms.minOut * (o.amountIn - o.remaining - paid.refunded) <= paid.net * o.amountIn)
  }

  ghost predicate AllPaidFor(book: Book) {
    forall id <- book.orders :: PaidFor(book.orders[id], book.Paid(id))
  }

  /** An order not yet numbered has no history. */
  ghost predicate NoFuture(book: Book) {
    forall id <- book.receipts :: id in book.orders
  }

  ghost predicate Healthy(s: System) {
    && Inv(s.w.book) && AllPaidFor(s.w.book) && NoFuture(s.w.book)
    && s.w.book.self !in s.rt.venues.Values && s.rt.vault != s.w.book.self
  }

  /** A freshly deployed pair of contracts. */
  predicate Deployed(s: System) {
    && s.w.book.self != s.w.book.vault && s.w.book.self != s.w.book.router
    && s.w.book.nextId == 1 && s.w.book.orders == map[] && s.w.book.index == map[]
    && s.w.book.counts == map[] && s.w.book.receipts == map[]
    && s.rt.venues == map[] && s.rt.vault != s.w.book.self
  }

  lemma DeployedIsHealthy(s: System)
    requires Deployed(s)
    ensures Healthy(s)
    ensures forall t :: Escrow(s.w.book, t) == 0
  {
    var book := s.w.book;
    forall t ensures Escrow(book, t) == 0 {
      assert Sums.Total(book.orders, EscrowWeight(t), 0) == 0;
    }
    forall slot ensures Counted(book, slot) {
      assert Sums.Total(book.orders, SlotWeight(slot), 0) == 0;
    }
    assert forall market :: Indexed(book, market);
  }

  /** Paying at the floor for one more part keeps the whole order paid for. */
  lemma PaidForGrows(o: Order, paid: Receipt, o': Order, more: int, env: Env)
    requires PaidFor(o, paid) && 0 <= more && o'.remaining <= o.remaining
    requires o' == o.(remaining := o'.remaining, status := o'.status)
    requires NetCoversFloor(o, env, o.remaining - o'.remaining, more)
    ensures PaidFor(o', Receipt(paid.net + more, paid.refunded))
  {
    if o.terms.Fixed? {
      var was, taken := o.amountIn - o.remaining - paid.refunded, o.remaining - o'.remaining;
      assert o.terms.minOut * (was + taken) == o.terms.minOut * was + o.terms.minOut * taken;
      assert (paid.net + more) * o.amountIn == paid.net * o.amountIn + more * o.amountIn;
    }
  }

  /** If one order stays paid for and nothing else changes, all orders do. */
  lemma OneOrderKeepsPaid(book: Book, book': Book, id: nat)
    requires AllPaidFor(book) && NoFuture(book) && OnlyOrder(book, book', id)
    requires PaidFor(book'.orders[id], book'.Paid(id))
    ensures AllPaidFor(book') && NoFuture(book')
  {
    hide PaidFor;
  }

  lemma FillNets(w: World, taker: Address, id: nat, fill: int, gross: int)
    requires Fill(w, taker, id, fill, gross).Ok?
    ensures id in w.book.orders && 0 < fill && 0 < gross
    ensures var net := gross - Fee(w.book.fee, gross);
            0 <= net && NetCoversFloor(w.book.orders[id], w.env, fill, net)
  {
    hide NetCoversFloor, RequiredPayment, PayWithFee, Transfer, Fee, Consume;
    FloorMeansPrice(w.book.orders[id], w.env, fill, gross - Fee(w.book.fee, gross));
  }

  lemma FillKeepsPaid(w: World, taker: Address, id: nat, fill: int, gross: int)
    requires Inv(w.book) && AllPaidFor(w.book) && NoFuture(w.book) && Fill(w, taker, id, fill, gross).Ok?
    ensures AllPaidFor(Fill(w, taker, id, fill, gross).value.book)
    ensures NoFuture(Fill(w, taker, id, fill, gross).value.book)
  {
    hide Fill, Inv, NetCoversFloor, PaidFor, Escrow, Fee;
    FillNets(w, taker, id, fill, gross);
    var o, net := w.book.orders[id], gross - Fee(w.book.fee, gross);
    FillBook(w, taker, id, fill, gross);
    var book := Fill(w, taker, id, fill, gross).value.book;
    OneIsPaidFor(w.book, id);
    PaidForGrows(o, w.book.Paid(id), book.orders[id], net, w.env);
    hide AllPaidFor, NoFuture;
    OneOrderKeepsPaid(w.book, book, id);
  }

  lemma {:induction false} MatchKeepsPaid(w: World, r: Request, fills: seq<FillSpec>, spent: int)
    requires Inv(w.book) && AllPaidFor(w.book) && NoFuture(w.book) && MatchFrom(w, r, fills, spent).Ok?
    ensures AllPaidFor(MatchFrom(w, r, fills, spent).value.0.book)
    ensures NoFuture(MatchFrom(w, r, fills, spent).value.0.book)
    decreases |fills|
  {
    hide Inv, AllPaidFor, NoFuture, Fill;
    if fills != [] {
      var spec := fills[0];
      FillKeepsPaid(w, r.maker, spec.id, spec.fill, spec.gross);
      FillBook(w, r.maker, spec.id, spec.fill, spec.gross);
      MatchKeepsPaid(Fill(w, r.maker, spec.id, spec.fill, spec.gross).value, r, fills[1..], spent + spec.gross);
    }
  }

  lemma PlaceKeepsPaid(w: World, r: Request)
    requires Inv(w.book) && AllPaidFor(w.book) && NoFuture(w.book) && Place(w, r).Ok?
    ensures AllPaidFor(Place(w, r).value.book)
    ensures NoFuture(Place(w, r).value.book)
  {
    PlaceLists(w, r);
    hide Place;
    assert w.book.nextId !in w.book.orders;
  }

  /** A refund is not consumption. */
  lemma RefundKeepsPaid(w: World, w': World, id: nat, status: Status)
    requires id in w.book.orders && AllPaidFor(w.book) && NoFuture(w.book)
    requires Emptied(w, w', id, status, w.book.orders[id].remaining)
    ensures AllPaidFor(w'.book) && NoFuture(w'.book)
  {
    assert PaidFor(w.book.orders[id], w.book.Paid(id));
  }

  lemma SettleKeepsPaid(rt: Router, w: World, id: nat, segments: seq<Segment>, outs: seq<int>)
    requires Inv(w.book) && AllPaidFor(w.book) && NoFuture(w.book) && RouteExpired(rt, w, id, segments, outs).Ok?
    ensures AllPaidFor(RouteExpired(rt, w, id, segments, outs).value.book)
    ensures NoFuture(RouteExpired(rt, w, id, segments, outs).value.book)
  {
    hide RouteExpired, SettledNet, Inv, PaidFor, NetCoversFloor, Escrow, AllPaidFor, NoFuture;
    RouteExpiredBook(rt, w, id, segments, outs);
    var o, net := w.book.orders[id], SettledNet(rt, segments, outs);
    var book := RouteExpired(rt, w, id, segments, outs).value.book;
    NetIsNonNegative(o, w.env, o.remaining, net);
    OneIsPaidFor(w.book, id);
    PaidForGrows(o, w.book.Paid(id), book.orders[id], net, w.env);
    OneOrderKeepsPaid(w.book, book, id);
  }

  lemma OneIsPaidFor(book: Book, id: nat)
    requires AllPaidFor(book) && id in book.orders
    ensures PaidFor(book.orders[id], book.Paid(id))
  {
  }

  lemma NetIsNonNegative(o: Order, env: Env, fill: nat, net: int)
    requires NetCoversFloor(o, env, fill, net)
    ensures 0 <= net
  {
    FloorMeansPrice(o, env, fill, net);
  }

  /** Every call keeps the system healthy. */
  lemma NextKeepsHealthy(s: System, call: Call)
    requires Healthy(s)
    ensures Healthy(Next(s, call))
    ensures Next(s, call).w.book.self == s.w.book.self
  {
    if Possible(s, call) && BookResult(s, call).Ok? {
      match call
      case PlaceOrder(r) =>
        PlaceKeeps(s.w, r);
        PlaceKeepsPaid(s.w, r);
        PlaceLists(s.w, r);
      case Match(r, fills) =>
        MatchIsHealthy(s.w, r, fills);
      case FillOrder(taker, id, fill, gross) =>
        FillBook(s.w, taker, id, fill, gross);
        FillKeepsPaid(s.w, taker, id, fill, gross);
      case CancelOrder(id) =>
        CancelEffects(s.w, id);
        RefundKeepsPaid(s.w, Cancel(s.w, id).value, id, Cancelled);
      case ExpireOrder(id) =>
        ExpireEffects(s.w, id);
        RefundKeepsPaid(s.w, Expire(s.w, id).value, id, Status.Expired);
      case SettleTimer(id, segments, outs) =>
        RouteExpiredBook(s.rt, s.w, id, segments, outs);
        SettleKeepsPaid(s.rt, s.w, id, segments, outs);
      case SetBookFee(rate) =>
        SameRecordsSameInvariant(s.w.book, SetFee(s.w, rate).value.book);
      case SetMinimum(token, amount) =>
        SameRecordsSameInvariant(s.w.book, SetMinOrder(s.w, token, amount).value.book);
      case RemoveVenue(id) =>
        assert forall x :: x in (s.rt.venues - {id}).Values ==> x in s.rt.venues.Values;
      case _ =>
    }
  }

  lemma MatchIsHealthy(w: World, r: Request, fills: seq<FillSpec>)
    requires Inv(w.book) && AllPaidFor(w.book) && NoFuture(w.book)
    requires r.maker != w.book.self && MatchAndPlace(w, r, fills).Ok?
    ensures var book := MatchAndPlace(w, r, fills).value.book;
            Inv(book) && AllPaidFor(book) && NoFuture(book) && SameContract(w.book, book)
  {
    hide Inv, AllPaidFor, NoFuture, MatchFrom, Place;
    MatchAndPlaceKeeps(w, r, fills);
    MatchKeepsPaid(w, r, fills, 0);
    MatchFromKeeps(w, r, fills, 0);
    var (w1, spent) := MatchFrom(w, r, fills, 0).value;
    if spent < r.amountIn {
      PlaceKeepsPaid(w1, r.(amountIn := r.amountIn - spent));
    }
  }

  lemma SameRecordsSameInvariant(book: Book, book': Book)
    requires Inv(book) && book' == book.(fee := book'.fee, minOrder := book'.minOrder)
    ensures Inv(book')
    ensures forall t :: Escrow(book', t) == Escrow(book, t)
  {
    assert forall market :: Indexed(book, market) ==> Indexed(book', market);
    assert forall slot :: Counted(book, slot) ==> Counted(book', slot);
  }

  /** Over every run, every order stays paid for, every index exact and bounded. */
  lemma {:induction false} RunKeepsHealthy(s: System, calls: seq<Call>)
    requires Healthy(s)
    ensures Healthy(Run(s, calls)) && Run(s, calls).w.book.self == s.w.book.self
    decreases |calls|
  {
    hide Healthy, Next;
    if calls != [] {
      NextKeepsHealthy(s, calls[0]);
      RunKeepsHealthy(Next(s, calls[0]), calls[1..]);
    }
  }

  lemma CancelFactor(x: int, y: int, factor: pos)
    requires x * factor <= y * factor
    ensures x <= y
  {
  }

  /** The maker's floor, over any run from deployment: at every moment what a Fixed
      order has netted covers, at its own price, what has been taken from it. */
  lemma MakerFloorHolds(s: System, calls: seq<Call>, id: nat)
    requires Deployed(s)
    ensures var book := Run(s, calls).w.book;
            id in book.orders && book.orders[id].terms.Fixed? ==>
              var o, paid := book.orders[id], book.Paid(id);
              o.terms.minOut * (o.amountIn - o.remaining - paid.refunded) <= paid.net * o.amountIn
  {
    DeployedIsHealthy(s);
    RunKeepsHealthy(s, calls);
    var book := Run(s, calls).w.book;
    assert id in book.orders ==> PaidFor(book.orders[id], book.Paid(id));
  }

  /** So after any run from deployment, a Fixed order consumed in full - by fills, by
      matches, by a timer settlement, or a mixture, under whatever fees - has netted
      its maker at least min_amount_out. */
  lemma ConsumedOrderIsPaidInFull(s: System, calls: seq<Call>, id: nat)
    requires Deployed(s)
    ensures var book := Run(s, calls).w.book;
            id in book.orders && book.orders[id].terms.Fixed?
            && book.orders[id].remaining == 0 && book.Paid(id).refunded == 0
            ==> book.orders[id].terms.minOut <= book.Paid(id).net
  {
    DeployedIsHealthy(s);
    RunKeepsHealthy(s, calls);
    var book := Run(s, calls).w.book;
    if id in book.orders && book.orders[id].terms.Fixed?
       && book.orders[id].remaining == 0 && book.Paid(id).refunded == 0
    {
      var o, net := book.orders[id], book.Paid(id).net;
      assert PaidFor(o, book.Paid(id));
      CancelFactor(o.terms.minOut, net, o.amountIn);
    }
  }

  // ─── Escrow over a run ──────────────────────────────

  function Gifts(calls: seq<Call>, t: Address): int {
    if calls == [] then 0
    else (if calls[0].Gift? && calls[0].token == t then calls[0].given else 0) + Gifts(calls[1..], t)
  }

  lemma NextKeepsSurplus(s: System, call: Call, t: Address)
    requires Healthy(s)
    ensures Surplus(Next(s, call).w, t)
            == Surplus(s.w, t) + if call.Gift? && call.token == t then call.given else 0
  {
    if Possible(s, call) && BookResult(s, call).Ok? {
      var self := s.w.book.self;
      match call
      case PlaceOrder(r) => PlaceKeeps(s.w, r);
      case Match(r, fills) => MatchAndPlaceKeeps(s.w, r, fills);
      case FillOrder(taker, id, fill, gross) => FillSurplus(s.w, taker, id, fill, gross, t);
      case CancelOrder(id) => CancelEffects(s.w, id);
      case ExpireOrder(id) => ExpireEffects(s.w, id);
      case SettleTimer(id, segments, outs) =>
        RouteExpiredBook(s.rt, s.w, id, segments, outs);
        RouteExpiredKeepsNothing(s.rt, s.w, id, segments, outs, t, self);
      case SetBookFee(rate) => SameRecordsSameInvariant(s.w.book, SetFee(s.w, rate).value.book);
      case SetMinimum(token, amount) => SameRecordsSameInvariant(s.w.book, SetMinOrder(s.w, token, amount).value.book);
      case _ =>
    }
  }

  lemma {:induction false} RunKeepsSurplus(s: System, calls: seq<Call>, t: Address)
    requires Healthy(s)
    ensures Surplus(Run(s, calls).w, t) == Surplus(s.w, t) + Gifts(calls, t)
    decreases |calls|
  {
    hide Healthy, Next, Surplus;
    if calls != [] {
      NextKeepsHealthy(s, calls[0]);
      NextKeepsSurplus(s, calls[0], t);
      RunKeepsSurplus(Next(s, calls[0]), calls[1..], t);
    }
  }

  /** The reachable states of the book: after any run from deployment it holds, per
      token, exactly what its live orders still escrow (plus what was given to it);
      each pair index lists exactly the live orders of its pair in ascending order,
      at most 200; each maker counter is that maker's live orders there, at most 10. */
  lemma ReachableBook(s: System, calls: seq<Call>, t: Address, market: Pair, slot: Slot)
    requires Deployed(s) && Bal(s.w.bal, t, s.w.book.self) == 0
    ensures var w := Run(s, calls).w;
            && Bal(w.bal, t, w.book.self) == Escrow(w.book, t) + Gifts(calls, t)
            && Indexed(w.book, market) && Counted(w.book, slot)
            && forall id <- w.book.orders :: OrderOk(w.book.self, w.book.orders[id])
  {
    DeployedIsHealthy(s);
    RunKeepsHealthy(s, calls);
    RunKeepsSurplus(s, calls, t);
  }

  // ─── The history is real money ──────────────────────

  /** What the history says the orders numbered below n brought one maker in one
      token: payments of the orders that ask for it, refunds of those that offer it. */
  function Earned(book: Book, n: nat, t: Address, a: Address): int {
    if n == 0 then 0
    else Earned(book, n - 1, t, a)
         + if n - 1 in book.orders && book.orders[n - 1].maker == a
           then (if book.orders[n - 1].tokenOut == t then book.Paid(n - 1).net else 0)
                + (if book.orders[n - 1].tokenIn == t then book.Paid(n - 1).refunded else 0)
           else 0
  }

  lemma {:induction false} EarnedStep(book: Book, book': Book, id: nat, n: nat, t: Address, a: Address)
    requires OnlyOrder(book, book', id)
    requires book'.orders[id] == book.orders[id].(remaining := book'.orders[id].remaining,
                                                  status := book'.orders[id].status)
    ensures var o := book.orders[id];
            Earned(book', n, t, a) == Earned(book, n, t, a)
              + if id < n && o.maker == a
                then (if o.tokenOut == t then book'.Paid(id).net - book.Paid(id).net else 0)
                     + (if o.tokenIn == t then book'.Paid(id).refunded - book.Paid(id).refunded else 0)
                else 0
  {
    if n != 0 {
      EarnedStep(book, book', id, n - 1, t, a);
    }
  }

  lemma {:induction false} EarnedUnchanged(book: Book, book': Book, n: nat, t: Address, a: Address)
    requires book'.receipts == book.receipts
    requires forall id: nat | id < n :: (id in book.orders <==> id in book'.orders)
                                        && (id in book.orders ==> book'.orders[id] == book.orders[id])
    ensures Earned(book', n, t, a) == Earned(book, n, t, a)
  {
    if n != 0 {
      EarnedUnchanged(book, book', n - 1, t, a);
    }
  }

  /** A holding less what the history explains of it. */
  function Unexplained(w: World, t: Address, a: Address): int {
    Bal(w.bal, t, a) - Earned(w.book, w.book.nextId, t, a)
  }

  /** Someone who only waits: no contract, no venue, signs no order or fill, and
      whose holdings nothing else moves. */
  ghost predicate Bystander(s: System, call: Call, a: Address) {
    && a != s.w.book.self && a != s.w.book.vault && a != s.rt.vault && a !in s.rt.venues.Values
    && match call
       case PlaceOrder(r) => r.maker != a
       case Match(r, _) => r.maker != a
       case FillOrder(taker, _, _, _) => taker != a
       case Outside(_, bal) => forall t :: Bal(bal, t, a) == Bal(s.w.bal, t, a)
       case _ => true
  }

  lemma FillExplained(w: World, taker: Address, id: nat, fill: int, gross: int, t: Address, a: Address)
    requires Inv(w.book) && Fill(w, taker, id, fill, gross).Ok?
    requires a != taker && a != w.book.self && a != w.book.vault
    ensures Unexplained(Fill(w, taker, id, fill, gross).value, t, a) == Unexplained(w, t, a)
  {
    FillBook(w, taker, id, fill, gross);
    FillBalances(w, taker, id, fill, gross);
    assert id < w.book.nextId;
    var w' := Fill(w, taker, id, fill, gross).value;
    hide Fill, Inv, Escrow, Bal;
    EarnedStep(w.book, w'.book, id, w.book.nextId, t, a);
    hide Earned;
  }

  lemma {:induction false} MatchExplained(w: World, r: Request, fills: seq<FillSpec>, spent: int, t: Address,
                                          a: Address)
    requires Inv(w.book) && MatchFrom(w, r, fills, spent).Ok?
    requires a != r.maker && a != w.book.self && a != w.book.vault
    ensures Unexplained(MatchFrom(w, r, fills, spent).value.0, t, a) == Unexplained(w, t, a)
    decreases |fills|
  {
    hide Fill, Inv, Unexplained;
    if fills != [] {
      var spec := fills[0];
      FillBook(w, r.maker, spec.id, spec.fill, spec.gross);
      FillExplained(w, r.maker, spec.id, spec.fill, spec.gross, t, a);
      MatchExplained(Fill(w, r.maker, spec.id, spec.fill, spec.gross).value, r, fills[1..], spent + spec.gross, t, a);
    }
  }

  lemma PlaceExplained(w: World, r: Request, t: Address, a: Address)
    requires Inv(w.book) && NoFuture(w.book) && Place(w, r).Ok? && a != r.maker && a != w.book.self
    ensures Unexplained(Place(w, r).value, t, a) == Unexplained(w, t, a)
  {
    PlaceLists(w, r);
    PlaceMoves(w, r, t, a);
    var book := Place(w, r).value.book;
    assert w.book.nextId !in w.book.orders;
    hide Place, Bal;
    EarnedUnchanged(w.book, book, w.book.nextId, t, a);
    assert book.orders[w.book.nextId].maker != a;
  }

  lemma MatchAndPlaceExplained(w: World, r: Request, fills: seq<FillSpec>, t: Address, a: Address)
    requires Inv(w.book) && AllPaidFor(w.book) && NoFuture(w.book) && MatchAndPlace(w, r, fills).Ok?
    requires r.maker != w.book.self
    requires a != r.maker && a != w.book.self && a != w.book.vault
    ensures Unexplained(MatchAndPlace(w, r, fills).value, t, a) == Unexplained(w, t, a)
  {
    hide Inv, AllPaidFor, NoFuture, MatchFrom, Place, Unexplained;
    MatchFromKeeps(w, r, fills, 0);
    MatchKeepsPaid(w, r, fills, 0);
    MatchExplained(w, r, fills, 0, t, a);
    var (w1, spent) := MatchFrom(w, r, fills, 0).value;
    if spent < r.amountIn {
      PlaceExplained(w1, r.(amountIn := r.amountIn - spent), t, a);
    }
  }

  lemma RefundExplained(w: World, w': World, id: nat, status: Status, t: Address, a: Address)
    requires Inv(w.book) && a != w.book.self
    requires id in w.book.orders && Emptied(w, w', id, status, w.book.orders[id].remaining)
    requires MovesEscrow(w, w', id, w.book.orders[id].maker)
    ensures Unexplained(w', t, a) == Unexplained(w, t, a)
  {
    EarnedStep(w.book, w'.book, id, w.book.nextId, t, a);
  }

  lemma SettleExplained(rt: Router, w: World, id: nat, segments: seq<Segment>, outs: seq<int>, t: Address, a: Address)
    requires Inv(w.book) && RouteExpired(rt, w, id, segments, outs).Ok?
    requires a != w.book.self && a != rt.vault && a !in rt.venues.Values
    ensures Unexplained(RouteExpired(rt, w, id, segments, outs).value, t, a) == Unexplained(w, t, a)
  {
    RouteExpiredBook(rt, w, id, segments, outs);
    RouteExpiredKeepsNothing(rt, w, id, segments, outs, t, a);
    assert id < w.book.nextId;
    hide RouteExpired, Inv, Escrow, Bal, SettledNet, NetCoversFloor;
    EarnedStep(w.book, RouteExpired(rt, w, id, segments, outs).value.book, id, w.book.nextId, t, a);
    hide Earned;
  }

  lemma NextExplained(s: System, call: Call, t: Address, a: Address)
    requires Healthy(s) && Bystander(s, call, a)
    ensures Unexplained(Next(s, call).w, t, a) == Unexplained(s.w, t, a)
  {
    if Possible(s, call) && BookResult(s, call).Ok? {
      match call
      case PlaceOrder(r) => PlaceExplained(s.w, r, t, a);
      case Match(r, fills) => MatchAndPlaceExplained(s.w, r, fills, t, a);
      case FillOrder(taker, id, fill, gross) => FillExplained(s.w, taker, id, fill, gross, t, a);
      case CancelOrder(id) =>
        CancelEffects(s.w, id);
        RefundExplained(s.w, Cancel(s.w, id).value, id, Cancelled, t, a);
      case ExpireOrder(id) =>
        ExpireEffects(s.w, id);
        RefundExplained(s.w, Expire(s.w, id).value, id, Status.Expired, t, a);
      case SettleTimer(id, segments, outs) => SettleExplained(s.rt, s.w, id, segments, outs, t, a);
      case SetBookFee(rate) => EarnedUnchanged(s.w.book, SetFee(s.w, rate).value.book, s.w.book.nextId, t, a);
      case SetMinimum(token, amount) =>
        EarnedUnchanged(s.w.book, SetMinOrder(s.w, token, amount).value.book, s.w.book.nextId, t, a);
      case _ =>
    }
  }

  ghost predicate Waits(s: System, calls: seq<Call>, a: Address)
    decreases |calls|
  {
    calls == [] || (Bystander(s, calls[0], a) && Waits(Next(s, calls[0]), calls[1..], a))
  }

  /** While a maker only waits, its holdings grow by exactly what the history of its
      orders records: the receipts the floor is stated on are money in its account. */
  lemma {:induction false} HistoryIsMoney(s: System, calls: seq<Call>, t: Address, a: Address)
    requires Healthy(s) && Waits(s, calls, a)
    ensures var w := Run(s, calls).w;
            Bal(w.bal, t, a) - Bal(s.w.bal, t, a)
            == Earned(w.book, w.book.nextId, t, a) - Earned(s.w.book, s.w.book.nextId, t, a)
    decreases |calls|
  {
    hide Healthy, Next, Bystander, Bal, Earned;
    if calls != [] {
      NextExplained(s, calls[0], t, a);
      NextKeepsHealthy(s, calls[0]);
      HistoryIsMoney(Next(s, calls[0]), calls[1..], t, a);
    }
  }
}
