/** What a TWAP order's record says was paid is money in its maker's account. */
module TwapHistory {
  import opened Results
  import opened MulDiv
  import opened Chain
  import opened Venues
  import Sums
  import opened SwapBook
  import opened TwapBook
  import opened TwapRuns

  /** What an order's record says it brought one maker in one token: proceeds of the
      slices in the token it buys, and the refund of one closed early in the other. */
  function Brought(t: Address, a: Address): Twap -> int {
    (o: Twap) =>
      if o.maker != a then 0
      else (if o.tokenOut == t then o.receivedOut else 0)
           + (if o.tokenIn == t && (o.status == Withdrawn || o.status == Lapsed) then o.totalIn - o.filledIn else 0)
  }

  function Earned(book: TwapState, t: Address, a: Address): int {
    Sums.Total(book.orders, Brought(t, a), book.nextId)
  }

  /** A holding less what the records explain of it. */
  function Unexplained(w: TwapWorld, t: Address, a: Address): int {
    Bal(w.bal, t, a) - Earned(w.book, t, a)
  }

  /** Someone who only waits: no contract, no venue, places nothing, and whose holdings
      nothing else moves. */
  ghost predicate Bystander(w: TwapWorld, call: TwapCall, a: Address) {
    && a != w.book.self && a != w.book.vault && a !in w.book.venues.Values
    && (call.Place? ==> call.r.maker != a)
    && (call.Elsewhere? ==> forall t :: Bal(call.bal, t, a) == Bal(w.bal, t, a))
  }

  lemma PlaceExplained(w: TwapWorld, r: TwapRequest, t: Address, a: Address)
    requires TwapInv(w) && PlaceTwap(w, r).Ok? && a != r.maker && a != w.book.self
    ensures Unexplained(PlaceTwap(w, r).value, t, a) == Unexplained(w, t, a)
  {
    var o := AdmitTwap(w, r).value;
    hide Kept, ActiveExact, Bal;
    TransferMoves(w.bal, o.tokenIn, o.maker, w.book.self, o.totalIn);
    Sums.TotalAppend(w.book.orders, Brought(t, a), w.book.nextId, o);
  }

  lemma AdvanceBrings(book: TwapState, id: nat, amount: nat, net: int, now: nat, t: Address, a: Address)
    requires id in book.orders && id < book.nextId && book.orders[id].status == Active
    ensures Earned(Advance(book, id, amount, net, now), t, a)
            == Earned(book, t, a) + At(book.orders[id].tokenOut, book.orders[id].maker, t, a, net)
  {
    Sums.TotalUpdate(book.orders, Brought(t, a), book.nextId, id, Advance(book, id, amount, net, now).orders[id]);
  }

  lemma SliceExplained(w: TwapWorld, id: nat, amount: int, segments: seq<Segment>, outs: seq<int>,
                       t: Address, a: Address)
    requires TwapInv(w) && ExecuteSlice(w, id, amount, segments, outs).Ok?
    requires a != w.book.self && a != w.book.vault && a !in w.book.venues.Values
    ensures Unexplained(ExecuteSlice(w, id, amount, segments, outs).value, t, a) == Unexplained(w, t, a)
  {
    hide TwapInv, SellSlice, Bal, SliceFee, OnSchedule, Headroom, Earned;
    OrderFacts(w, id);
    var o := w.book.orders[id];
    SellMoves(w, o, segments, outs, t, a);
    SellPays(w, o, amount, segments, outs);
    AdvanceBrings(w.book, id, amount, SellSlice(w, o, amount, segments, outs).value.net, w.env.now, t, a);
  }

  lemma RefundExplained(w: TwapWorld, id: nat, status: TwapStatus, t: Address, a: Address)
    requires TwapInv(w) && id in w.book.orders && w.book.orders[id].status == Active
    requires (status == Withdrawn || status == Lapsed) && a != w.book.self
    requires RefundTwap(w, w.book.orders[id], status).Ok?
    ensures Unexplained(RefundTwap(w, w.book.orders[id], status).value, t, a) == Unexplained(w, t, a)
  {
    var o, w' := w.book.orders[id], RefundTwap(w, w.book.orders[id], status).value;
    RefundMoves(w, id, status, t, a);
    assert Kept(w.book, id, w.env.now);
    hide OnPace, OnCadence, OnPrice, ActiveExact, Bal;
    Sums.TotalUpdate(w.book.orders, Brought(t, a), w.book.nextId, id, o.(status := status));
  }

  lemma NextExplained(w: TwapWorld, call: TwapCall, t: Address, a: Address)
    requires TwapInv(w) && Bystander(w, call, a)
    ensures Unexplained(TwapNext(w, call), t, a) == Unexplained(w, t, a)
  {
    if TwapPossible(w, call) && TwapResult(w, call).Ok? {
      hide TwapInv, Sums.Total, Brought;
      match call
      case Place(r) => PlaceExplained(w, r, t, a);
      case Slice(id, amount, segments, outs) => SliceExplained(w, id, amount, segments, outs, t, a);
      case Cancel(id) => RefundExplained(w, id, Withdrawn, t, a);
      case Expire(id) => RefundExplained(w, id, Lapsed, t, a);
      case _ =>
    }
  }

  ghost predicate Waits(w: TwapWorld, calls: seq<TwapCall>, a: Address)
    decreases |calls|
  {
    calls == [] || (Bystander(w, calls[0], a) && Waits(TwapNext(w, calls[0]), calls[1..], a))
  }

  /** While a maker only waits, its holdings of every token grow by exactly what its
      orders' records gained: the proceeds the price bound is stated on, and refunds. */
  lemma {:induction false} RecordsAreMoney(w: TwapWorld, calls: seq<TwapCall>, t: Address, a: Address)
    requires TwapInv(w) && Waits(w, calls, a)
    ensures var end := TwapRun(w, calls);
            Bal(end.bal, t, a) - Bal(w.bal, t, a) == Earned(end.book, t, a) - Earned(w.book, t, a)
    decreases |calls|
  {
    hide TwapInv, TwapNext, Bystander, Bal, Earned;
    if calls != [] {
      NextExplained(w, calls[0], t, a);
      TwapNextKeeps(w, calls[0], t);
      RecordsAreMoney(TwapNext(w, calls[0]), calls[1..], t, a);
    }
  }
}
