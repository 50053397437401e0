/** Whole runs of the TwapBook: pace, cadence, price and solvency at every ledger. */
module TwapRuns {
  import opened Results
  import opened MulDiv
  import opened Chain
  import opened Venues
  import Sums
  import opened SwapBook
  import opened BookInvariant
  import opened TwapBook

  // ─── What one order keeps ───────────────────────────

  /** Pace: never past the schedule's level plus the tolerance band. */
  predicate OnPace(o: Twap, now: nat) {
    && o.startLedger <= now && o.startLedger < o.endLedger
    && o.filledIn <= o.totalIn
    && o.filledIn <= OnSchedule(o, now) + Headroom(o)
  }

  /** Cadence: n slices span at least n - 1 gaps of the order's own window. */
  predicate OnCadence(o: Twap, n: nat, now: nat) {
    && (n == 0 <==> o.lastSliceLedger == 0)
    && (0 < n ==> o.startLedger + (n - 1) * o.minSliceGap <= o.lastSliceLedger
                  && o.lastSliceLedger <= o.endLedger && o.lastSliceLedger <= now)
  }

  /** Price: at a fixed limit, what was received covers what was filled. */
  predicate OnPrice(o: Twap) {
    o.limit.FixedLimit? ==> o.filledIn * o.limit.num <= o.receivedOut * o.limit.den
  }

  predicate Kept(book: TwapState, id: nat, now: nat)
    requires id in book.orders
  {
    var o := book.orders[id];
    && o.id == id && o.maker != book.self && o.tokenIn != o.tokenOut
    && (o.status == Active ==> o.filledIn < o.totalIn)
    && OnPace(o, now) && OnCadence(o, book.Slices(id), now) && OnPrice(o)
  }

  function OpenWeight(token: Address): Twap -> int {
    (o: Twap) => if o.status == Active && o.tokenIn == token then o.totalIn - o.filledIn else 0
  }

  /** What the Active orders have left to sell of a token. */
  function Unfilled(book: TwapState, token: Address): int {
    Sums.Total(book.orders, OpenWeight(token), book.nextId)
  }

  function TwapSurplus(w: TwapWorld, token: Address): int {
    Bal(w.bal, token, w.book.self) - Unfilled(w.book, token)
  }

  ghost predicate ActiveExact(book: TwapState) {
    && Ascending(book.active) && |book.active| <= MAX_ACTIVE_ORDERS
    && forall id: nat :: id in book.active <==> id in book.orders && book.orders[id].status == Active
  }

  ghost predicate TwapInv(w: TwapWorld) {
    && 1 <= w.env.now && 1 <= w.book.nextId
    && w.book.self != w.book.vault && w.book.self !in w.book.venues.Values
    && (forall id: nat :: id in w.book.orders <==> 1 <= id < w.book.nextId)
    && (forall id <- w.book.slices :: id in w.book.orders)
    && ActiveExact(w.book)
    && (forall id <- w.book.orders :: Kept(w.book, id, w.env.now))
  }

  // ─── Time ───────────────────────────────────────────

  lemma ScheduleMonotone(o: Twap, now: nat, later: nat)
    requires o.startLedger <= now <= later && o.startLedger < o.endLedger
    ensures OnSchedule(o, now) <= OnSchedule(o, later)
  {
    var d: pos := o.endLedger - o.startLedger;
    FloorBounds(o.totalIn, now - o.startLedger, d);
    assert o.totalIn * (now - o.startLedger) <= o.totalIn * (later - o.startLedger);
    FloorGalois(o.totalIn, later - o.startLedger, d, OnSchedule(o, now));
  }

  lemma TimePasses(w: TwapWorld, w': TwapWorld)
    requires TwapInv(w) && w'.book == w.book && w.env.now <= w'.env.now
    ensures TwapInv(w')
  {
    forall id | id in w.book.orders ensures Kept(w'.book, id, w'.env.now) {
      assert Kept(w.book, id, w.env.now);
      ScheduleMonotone(w.book.orders[id], w.env.now, w'.env.now);
    }
  }

  // ─── Placing ────────────────────────────────────────

  lemma AdmitFacts(w: TwapWorld, r: TwapRequest)
    requires AdmitTwap(w, r).Ok?
    ensures var o := AdmitTwap(w, r).value;
            && o.id == w.book.nextId && o.maker == r.maker && o.tokenIn != o.tokenOut && o.status == Active
            && o.filledIn == 0 && o.receivedOut == 0 && o.lastSliceLedger == 0
            && o.startLedger == w.env.now < o.endLedger && |w.book.active| < MAX_ACTIVE_ORDERS
  {
    hide FreshPrice;
  }

  lemma PlaceTwapKeeps(w: TwapWorld, r: TwapRequest)
    requires TwapInv(w) && r.maker != w.book.self && PlaceTwap(w, r).Ok?
    ensures TwapInv(PlaceTwap(w, r).value)
  {
    hide Transfer, AdmitTwap, OnPace, OnCadence, OnPrice, ActiveExact;
    AdmitFacts(w, r);
    var o, w' := AdmitTwap(w, r).value, PlaceTwap(w, r).value;
    NewOrderKept(w.book, w'.book, o, w.env.now);
    ActiveGrows(w.book, o);
    forall id | id in w'.book.orders ensures Kept(w'.book, id, w.env.now) {
      if id != o.id {
        assert Kept(w.book, id, w.env.now);
      }
    }
  }

  lemma PlaceTwapKeepsSurplus(w: TwapWorld, r: TwapRequest, t: Address)
    requires TwapInv(w) && r.maker != w.book.self && PlaceTwap(w, r).Ok?
    ensures TwapSurplus(PlaceTwap(w, r).value, t) == TwapSurplus(w, t)
  {
    var o := AdmitTwap(w, r).value;
    hide Kept, ActiveExact, Bal;
    TransferMoves(w.bal, o.tokenIn, o.maker, w.book.self, o.totalIn);
    Sums.TotalAppend(w.book.orders, OpenWeight(t), w.book.nextId, o);
  }

  lemma NewOrderKept(book: TwapState, book': TwapState, o: Twap, now: nat)
    requires book' == EnlistTwap(book, o) && o.id !in book.slices
    requires o.maker != book.self && o.tokenIn != o.tokenOut && o.filledIn == 0 && o.receivedOut == 0
    requires o.startLedger == now < o.endLedger && o.lastSliceLedger == 0
    ensures Kept(book', o.id, now)
  {
  }

  lemma ActiveGrows(book: TwapState, o: Twap)
    requires ActiveExact(book) && o.id == book.nextId && o.status == Active
    requires forall id <- book.orders :: id < book.nextId
    requires |book.active| < MAX_ACTIVE_ORDERS
    ensures ActiveExact(EnlistTwap(book, o))
  {
    var ids := book.active;
    forall i | 0 <= i < |ids| ensures ids[i] < o.id {
      assert ids[i] in ids;
    }
  }

  // ─── Slices ─────────────────────────────────────────

  /** One more slice of an order keeps its pace, cadence and price. */
  lemma SliceKeepsOrder(o: Twap, n: nat, env: Env, amount: int, net: int, o': Twap)
    requires OnPace(o, env.now) && OnCadence(o, n, env.now) && OnPrice(o) && 1 <= env.now
    requires CheckSlice(o, env.now, amount).Pass?
    requires SliceFloor(o, env, amount).Ok? && SliceFloor(o, env, amount).value <= net
    requires o' == o.(filledIn := o.filledIn + amount, receivedOut := o.receivedOut + net,
                      lastSliceLedger := env.now, status := o'.status)
    ensures OnPace(o', env.now) && OnCadence(o', n + 1, env.now) && OnPrice(o')
  {
    if 0 < n {
      assert n * o.minSliceGap == (n - 1) * o.minSliceGap + o.minSliceGap;
    }
    if o.limit.FixedLimit? {
      CeilGalois(amount, o.limit.num, o.limit.den, net);
      assert (o.filledIn + amount) * o.limit.num == o.filledIn * o.limit.num + amount * o.limit.num;
      assert (o.receivedOut + net) * o.limit.den == o.receivedOut * o.limit.den + net * o.limit.den;
    }
  }

  /** A sold slice nets the maker what the venues returned less the fee, at or above
      the order's own floor. */
  lemma SellPays(w: TwapWorld, o: Twap, amount: nat, segments: seq<Segment>, outs: seq<int>)
    requires WellFormed(segments) && SellSlice(w, o, amount, segments, outs).Ok?
    ensures |segments| <= |outs| && 0 <= Sum(outs[..|segments|])
    ensures var out, net := Sum(outs[..|segments|]), SellSlice(w, o, amount, segments, outs).value.net;
            && net == out - SliceFee(w.book.fee, out)
            && SliceFloor(o, w.env, amount).Ok? && SliceFloor(o, w.env, amount).value <= net
  {
    hide SliceFee, SliceFloor, PayWithFee, Execute;
    ExecuteMoves(Flow(w.bal, outs, 0), w.book.self, w.book.venues, o.tokenIn, o.tokenOut, segments);
  }

  /** A sold slice spends exactly its amount and passes its whole output on, net to
      the maker and the fee to the vault. */
  lemma SellMoves(w: TwapWorld, o: Twap, segments: seq<Segment>, outs: seq<int>, t: Address, a: Address)
    requires WellFormed(segments) && 0 < Venues.Total(segments)
    requires SellSlice(w, o, Venues.Total(segments), segments, outs).Ok? && a !in w.book.venues.Values
    ensures |segments| <= |outs| && 0 <= Sum(outs[..|segments|])
    ensures var out := Sum(outs[..|segments|]);
            var fee := SliceFee(w.book.fee, out);
            Bal(SellSlice(w, o, Venues.Total(segments), segments, outs).value.bal, t, a)
            == Bal(w.bal, t, a) - At(o.tokenIn, w.book.self, t, a, Venues.Total(segments))
               + At(o.tokenOut, o.maker, t, a, out - fee) + At(o.tokenOut, w.book.vault, t, a, fee)
  {
    hide *;
    SellLegs(w, o, Venues.Total(segments), segments, outs);
    var start := Flow(w.bal, outs, 0);
    ExecuteMoves(start, w.book.self, w.book.venues, o.tokenIn, o.tokenOut, segments);
    var f := Execute(start, w.book.self, w.book.venues, o.tokenIn, o.tokenOut, segments).value;
    var fee := SliceFee(w.book.fee, f.out);
    PayWithFeeMoves(f.bal, o.tokenOut, w.book.self, o.maker, w.book.vault, f.out - fee, fee);
  }

  lemma SellLegs(w: TwapWorld, o: Twap, amount: nat, segments: seq<Segment>, outs: seq<int>)
    requires SellSlice(w, o, amount, segments, outs).Ok?
    ensures var run := Execute(Flow(w.bal, outs, 0), w.book.self, w.book.venues, o.tokenIn, o.tokenOut, segments);
            && run.Ok? && 0 <= run.value.out
            && var fee := SliceFee(w.book.fee, run.value.out);
            PayWithFee(run.value.bal, o.tokenOut, w.book.self, o.maker, w.book.vault, run.value.out - fee, fee)
            == Ok(SellSlice(w, o, amount, segments, outs).value.bal)
  {
    hide SliceFee, SliceFloor, PayWithFee, Execute;
  }

  lemma AdvanceUnfilled(book: TwapState, id: nat, amount: nat, net: int, now: nat, t: Address)
    requires id in book.orders && id < book.nextId && book.orders[id].status == Active
    requires amount <= book.orders[id].totalIn - book.orders[id].filledIn
    ensures Unfilled(Advance(book, id, amount, net, now), t)
            == Unfilled(book, t) - if t == book.orders[id].tokenIn then amount else 0
  {
    Sums.TotalUpdate(book.orders, OpenWeight(t), book.nextId, id, Advance(book, id, amount, net, now).orders[id]);
  }

  lemma ActiveShrinks(book: TwapState, book': TwapState, id: nat)
    requires ActiveExact(book) && id in book.orders && id in book'.orders && book'.orders[id].status != Active
    requires book'.orders == book.orders[id := book'.orders[id]] && book'.active == Without(book.active, id)
    ensures ActiveExact(book')
  {
    WithoutRemoves(book.active, id);
  }

  /** Replacing one kept order keeps the rest. */
  lemma OneOrderKept(book: TwapState, book': TwapState, id: nat, now: nat)
    requires id in book.orders && id in book'.orders && book'.self == book.self
    requires book'.orders == book.orders[id := book'.orders[id]]
    requires forall x :: x != id ==> book'.Slices(x) == book.Slices(x)
    requires forall x <- book.orders :: Kept(book, x, now)
    requires Kept(book', id, now)
    ensures forall x <- book'.orders :: Kept(book', x, now)
  {
    hide OnPace, OnCadence, OnPrice;
    forall x | x in book'.orders ensures Kept(book', x, now) {
      if x != id {
        assert Kept(book, x, now);
      }
    }
  }

  lemma SliceKeepsThis(w: TwapWorld, id: nat, amount: int, segments: seq<Segment>, outs: seq<int>)
    requires id in w.book.orders && Kept(w.book, id, w.env.now) && 1 <= w.env.now
    requires ExecuteSlice(w, id, amount, segments, outs).Ok?
    ensures Kept(ExecuteSlice(w, id, amount, segments, outs).value.book, id, w.env.now)
  {
    var o := w.book.orders[id];
    var sold := SellSlice(w, o, amount, segments, outs).value;
    SellPays(w, o, amount, segments, outs);
    hide SellSlice, SliceFloor, OnPace, OnCadence, OnPrice, SliceFee;
    var o' := Advance(w.book, id, amount, sold.net, w.env.now).orders[id];
    SliceKeepsOrder(o, w.book.Slices(id), w.env, amount, sold.net, o');
  }

  lemma SliceKeeps(w: TwapWorld, id: nat, amount: int, segments: seq<Segment>, outs: seq<int>)
    requires TwapInv(w) && ExecuteSlice(w, id, amount, segments, outs).Ok?
    ensures TwapInv(ExecuteSlice(w, id, amount, segments, outs).value)
  {
    hide SellSlice, Kept, ActiveExact, CheckSlice;
    var o, w' := w.book.orders[id], ExecuteSlice(w, id, amount, segments, outs).value;
    assert Kept(w.book, id, w.env.now);
    SliceKeepsThis(w, id, amount, segments, outs);
    OneOrderKept(w.book, w'.book, id, w.env.now);
    if o.filledIn + amount == o.totalIn {
      ActiveShrinks(w.book, w'.book, id);
    } else {
      SameActive(w.book, w'.book, id);
    }
  }

  lemma SameActive(book: TwapState, book': TwapState, id: nat)
    requires ActiveExact(book) && id in book.orders && id in book'.orders
    requires book'.orders == book.orders[id := book'.orders[id]] && book'.active == book.active
    requires book'.orders[id].status == book.orders[id].status
    ensures ActiveExact(book')
  {
  }

  lemma OrderFacts(w: TwapWorld, id: nat)
    requires TwapInv(w) && id in w.book.orders
    ensures id < w.book.nextId && w.book.orders[id].maker != w.book.self
            && w.book.orders[id].tokenIn != w.book.orders[id].tokenOut
    ensures w.book.self != w.book.vault && w.book.self !in w.book.venues.Values
  {
    assert Kept(w.book, id, w.env.now);
  }

  lemma SliceKeepsSurplus(w: TwapWorld, id: nat, amount: int, segments: seq<Segment>, outs: seq<int>, t: Address)
    requires TwapInv(w) && ExecuteSlice(w, id, amount, segments, outs).Ok?
    ensures TwapSurplus(ExecuteSlice(w, id, amount, segments, outs).value, t) == TwapSurplus(w, t)
  {
    hide TwapInv, SellSlice, Unfilled, Bal, SliceFee, OnSchedule, Headroom;
    OrderFacts(w, id);
    var o := w.book.orders[id];
    SellMoves(w, o, segments, outs, t, w.book.self);
    AdvanceUnfilled(w.book, id, amount, SellSlice(w, o, amount, segments, outs).value.net, w.env.now, t);
  }

  // ─── Closing ────────────────────────────────────────

  lemma RefundKeeps(w: TwapWorld, id: nat, status: TwapStatus)
    requires TwapInv(w) && id in w.book.orders && w.book.orders[id].status == Active && status != Active
    requires RefundTwap(w, w.book.orders[id], status).Ok?
    ensures TwapInv(RefundTwap(w, w.book.orders[id], status).value)
  {
    var o, w' := w.book.orders[id], RefundTwap(w, w.book.orders[id], status).value;
    assert Kept(w.book, id, w.env.now);
    assert w'.book.orders[id] == o.(status := status) && Kept(w'.book, id, w.env.now);
    hide Kept, ActiveExact, Transfer;
    ActiveShrinks(w.book, w'.book, id);
    OneOrderKept(w.book, w'.book, id, w.env.now);
  }

  /** Closing refunds exactly what was not filled. */
  lemma RefundMoves(w: TwapWorld, id: nat, status: TwapStatus, t: Address, a: Address)
    requires TwapInv(w) && id in w.book.orders && w.book.orders[id].status == Active && status != Active
    requires RefundTwap(w, w.book.orders[id], status).Ok?
    ensures var o, w' := w.book.orders[id], RefundTwap(w, w.book.orders[id], status).value;
            && TwapSurplus(w', t) == TwapSurplus(w, t)
            && Bal(w'.bal, t, a) == Bal(w.bal, t, a) - At(o.tokenIn, w.book.self, t, a, o.totalIn - o.filledIn)
                                    + At(o.tokenIn, o.maker, t, a, o.totalIn - o.filledIn)
  {
    var o, w' := w.book.orders[id], RefundTwap(w, w.book.orders[id], status).value;
    assert Kept(w.book, id, w.env.now);
    hide OnPace, OnCadence, OnPrice, ActiveExact, Bal;
    TransferMoves(w.bal, o.tokenIn, w.book.self, o.maker, o.totalIn - o.filledIn);
    Sums.TotalUpdate(w.book.orders, OpenWeight(t), w.book.nextId, id, o.(status := status));
  }

  // ─── Runs ───────────────────────────────────────────

  datatype TwapCall =
    | Place(r: TwapRequest)
    | Slice(id: nat, amount: int, segments: seq<Segment>, outs: seq<int>)
    | Cancel(id: nat)
    | Expire(id: nat)
    | SetTwapFee(rate: TwapFee)
    | AddVenue(venueId: nat, account: Address)
    | DropVenue(venueId: nat)
    | Elsewhere(env: Env, bal: Balances)
    | Gift(token: Address, given: nat)

  function TwapResult(w: TwapWorld, call: TwapCall): Result<TwapWorld> {
    match call
    case Place(r) => PlaceTwap(w, r)
    case Slice(id, amount, segments, outs) => ExecuteSlice(w, id, amount, segments, outs)
    case Cancel(id) => CancelTwap(w, id)
    case Expire(id) => ExpireTwap(w, id)
    case SetTwapFee(rate) => Ok(w.(book := w.book.(fee := rate)))
    case AddVenue(id, account) => Ok(w.(book := w.book.(venues := w.book.venues[id := account])))
    case DropVenue(id) => Ok(w.(book := w.book.(venues := w.book.venues - {id})))
    case Elsewhere(env, bal) => Ok(w.(env := env, bal := bal))
    case Gift(token, given) => Ok(w.(bal := Credit(w.bal, token, w.book.self, given)))
  }

  /** The contract signs nothing, is no venue, and alone moves what it holds; ledgers
      only advance. */
  ghost predicate TwapPossible(w: TwapWorld, call: TwapCall) {
    match call
    case Place(r) => r.maker != w.book.self
    case AddVenue(_, account) => account != w.book.self
    case Elsewhere(env, bal) =>
      w.env.now <= env.now && forall t :: Bal(bal, t, w.book.self) == Bal(w.bal, t, w.book.self)
    case _ => true
  }

  ghost function TwapNext(w: TwapWorld, call: TwapCall): TwapWorld {
    if TwapPossible(w, call) && TwapResult(w, call).Ok? then TwapResult(w, call).value else w
  }

  ghost function TwapRun(w: TwapWorld, calls: seq<TwapCall>): TwapWorld
    decreases |calls|
  {
    if calls == [] then w else TwapRun(TwapNext(w, calls[0]), calls[1..])
  }

  function TwapGifts(calls: seq<TwapCall>, t: Address): int {
    if calls == [] then 0
    else (if calls[0].Gift? && calls[0].token == t then calls[0].given else 0) + TwapGifts(calls[1..], t)
  }

  predicate TwapDeployed(w: TwapWorld) {
    && 1 <= w.env.now && w.book.nextId == 1 && w.book.self != w.book.vault && w.book.venues == map[]
    && w.book.orders == map[] && w.book.active == [] && w.book.slices == map[]
  }

  lemma TwapNextKeeps(w: TwapWorld, call: TwapCall, t: Address)
    requires TwapInv(w)
    ensures TwapInv(TwapNext(w, call)) && TwapNext(w, call).book.self == w.book.self
    ensures TwapSurplus(TwapNext(w, call), t)
            == TwapSurplus(w, t) + if call.Gift? && call.token == t then call.given else 0
  {
    hide Kept, ActiveExact, OpenWeight, Sums.Total, AdmitTwap, SellSlice, CheckSlice;
    if TwapPossible(w, call) && TwapResult(w, call).Ok? {
      var w' := TwapNext(w, call);
      match call
      case Place(r) =>
        PlaceTwapKeeps(w, r);
        PlaceTwapKeepsSurplus(w, r, t);
      case Slice(id, amount, segments, outs) =>
        SliceKeeps(w, id, amount, segments, outs);
        SliceKeepsSurplus(w, id, amount, segments, outs, t);
      case Cancel(id) =>
        RefundKeeps(w, id, Withdrawn);
        RefundMoves(w, id, Withdrawn, t, w.book.self);
        OrderFacts(w, id);
      case Expire(id) =>
        RefundKeeps(w, id, Lapsed);
        RefundMoves(w, id, Lapsed, t, w.book.self);
        OrderFacts(w, id);
      case Elsewhere(env, _) =>
        TimePasses(w, w');
      case SetTwapFee(_) => SameOrders(w, w');
      case AddVenue(_, _) => SameOrders(w, w');
      case DropVenue(id) =>
        assert forall x :: x in (w.book.venues - {id}).Values ==> x in w.book.venues.Values;
        SameOrders(w, w');
      case Gift(_, _) => SameOrders(w, w');
    }
  }

  lemma SameOrders(w: TwapWorld, w': TwapWorld)
    requires TwapInv(w) && w'.env == w.env && w'.book == w.book.(fee := w'.book.fee, venues := w'.book.venues)
    requires w'.book.self !in w'.book.venues.Values
    ensures TwapInv(w') && forall t :: Unfilled(w'.book, t) == Unfilled(w.book, t)
  {
    hide OnPace, OnCadence, OnPrice;
    forall id | id in w'.book.orders ensures Kept(w'.book, id, w'.env.now) {
      assert Kept(w.book, id, w.env.now);
    }
  }

  lemma {:induction false} TwapRunKeeps(w: TwapWorld, calls: seq<TwapCall>, t: Address)
    requires TwapInv(w)
    ensures TwapInv(TwapRun(w, calls)) && TwapRun(w, calls).book.self == w.book.self
    ensures TwapSurplus(TwapRun(w, calls), t) == TwapSurplus(w, t) + TwapGifts(calls, t)
    decreases |calls|
  {
    hide TwapInv, TwapNext, TwapSurplus;
    if calls != [] {
      TwapNextKeeps(w, calls[0], t);
      TwapRunKeeps(TwapNext(w, calls[0]), calls[1..], t);
    }
  }

  lemma TwapDeployedIsKept(w: TwapWorld, t: Address)
    requires TwapDeployed(w)
    ensures TwapInv(w) && Unfilled(w.book, t) == 0
  {
    assert Sums.Total(w.book.orders, OpenWeight(t), 0) == 0;
  }

  /** Pace, cadence and price at every ledger of every run: no order is ever filled
      past its total or past the schedule plus its tolerance; slices are no more than
      one plus the window over the gap; at a fixed limit the maker has received at
      least the limit price on everything filled. */
  lemma OrdersStayInBounds(w: TwapWorld, calls: seq<TwapCall>, id: nat)
    requires TwapDeployed(w) && id in TwapRun(w, calls).book.orders
    ensures var end := TwapRun(w, calls);
            var o := end.book.orders[id];
            && o.startLedger <= end.env.now && o.startLedger < o.endLedger
            && o.filledIn <= o.totalIn
            && o.filledIn <= OnSchedule(o, end.env.now) + Headroom(o)
            && end.book.Slices(id) <= 1 + (o.endLedger - o.startLedger) / o.minSliceGap
            && (o.limit.FixedLimit? ==> o.filledIn * o.limit.num <= o.receivedOut * o.limit.den)
  {
    TwapDeployedIsKept(w, w.book.self);
    TwapRunKeeps(w, calls, w.book.self);
    var end := TwapRun(w, calls);
    assert Kept(end.book, id, end.env.now);
    SlicesFitWindow(end.book.orders[id], end.book.Slices(id), end.env.now);
  }

  lemma SlicesFitWindow(o: Twap, n: nat, now: nat)
    requires OnCadence(o, n, now) && o.startLedger <= o.endLedger
    ensures n <= 1 + (o.endLedger - o.startLedger) / o.minSliceGap
  {
    if 0 < n {
      assert (n - 1) * o.minSliceGap <= (o.endLedger - o.startLedger) * 1;
      FloorGalois(o.endLedger - o.startLedger, 1, o.minSliceGap, n - 1);
    }
  }

  /** Solvency over every run: per token the contract holds exactly what its Active
      orders have left to sell (plus what was given to it), also when one order buys
      what another sells; and the index is exactly the Active ids, at most 500. */
  lemma ReachableTwapBook(w: TwapWorld, calls: seq<TwapCall>, t: Address)
    requires TwapDeployed(w) && Bal(w.bal, t, w.book.self) == 0
    ensures var end := TwapRun(w, calls);
            && Bal(end.bal, t, end.book.self) == Unfilled(end.book, t) + TwapGifts(calls, t)
            && ActiveExact(end.book)
  {
    TwapDeployedIsKept(w, t);
    TwapRunKeeps(w, calls, t);
  }
}
