/** What every reachable order book satisfies, and that each call keeps it. */
module BookInvariant {
  import opened Results
  import opened MulDiv
  import opened Chain
  import opened Sums
  import opened SwapBook

  function EscrowWeight(token: Address): Order -> int {
    (o: Order) => if o.Live() && o.tokenIn == token then o.remaining else 0
  }

  function SlotWeight(slot: Slot): Order -> int {
    (o: Order) => if o.Live() && o.maker == slot.maker && o.Market() == slot.market then 1 else 0
  }

  /** The total the live orders hold of a token. */
  function Escrow(book: Book, token: Address): int {
    Total(book.orders, EscrowWeight(token), book.nextId)
  }

  function LiveOrders(book: Book, slot: Slot): int {
    Total(book.orders, SlotWeight(slot), book.nextId)
  }

  /** What the contract holds of a token beyond what its live orders escrow. */
  function Surplus(w: World, token: Address): int {
    Bal(w.bal, token, w.book.self) - Escrow(w.book, token)
  }

  ghost predicate Ascending(ids: seq<nat>) {
    forall i, j :: 0 <= i < j < |ids| ==> ids[i] < ids[j]
  }

  predicate OrderOk(self: Address, o: Order) {
    && o.tokenIn != o.tokenOut
    && o.maker != self
    && o.remaining <= o.amountIn
    && (o.Live() <==> 0 < o.remaining)
  }

  ghost predicate Numbered(book: Book) {
    && 1 <= book.nextId
    && (forall id: nat :: id in book.orders <==> 1 <= id < book.nextId)
    && (forall id <- book.orders :: book.orders[id].id == id && OrderOk(book.self, book.orders[id]))
  }

  /** The index of a market lists exactly its live orders, oldest first. */
  ghost predicate Indexed(book: Book, market: Pair) {
    && Ascending(book.Ids(market))
    && |book.Ids(market)| <= MAX_ORDERS_PER_PAIR
    && (forall id: nat :: id in book.Ids(market) <==>
                          id in book.orders && book.orders[id].Live() && book.orders[id].Market() == market)
  }

  ghost predicate Counted(book: Book, slot: Slot) {
    book.OpenCount(slot) == LiveOrders(book, slot) <= MAX_OPEN_PER_MAKER_PAIR
  }

  ghost predicate Inv(book: Book) {
    && Numbered(book)
    && book.self != book.vault && book.self != book.router
    && (forall market :: Indexed(book, market))
    && (forall slot :: Counted(book, slot))
  }

  lemma {:induction false} WithoutRemoves(ids: seq<nat>, id: nat)
    requires Ascending(ids)
    ensures Ascending(Without(ids, id)) && |Without(ids, id)| <= |ids|
    ensures forall x :: x in Without(ids, id) <==> x in ids && x != id
  {
    if ids != [] {
      var tail := ids[1..];
      assert ids == [ids[0]] + tail;
      assert Ascending(tail) by {
        assert forall i :: 0 <= i < |tail| ==> tail[i] == ids[i + 1];
      }
      WithoutRemoves(tail, id);
      var rest := Without(tail, id);
      forall i | 0 <= i < |rest| ensures ids[0] < rest[i] {
        assert rest[i] in tail;
      }
    }
  }

  /** Rewriting an order without closing it leaves every index right. */
  lemma RewriteKeeps(book: Book, book': Book, id: nat, o': Order)
    requires Inv(book) && id in book.orders && book.orders[id].Live()
    requires book'.orders == book.orders[id := o']
    requires book'.index == book.index && book'.counts == book.counts
    requires (book'.self, book'.vault, book'.router, book'.nextId) == (book.self, book.vault, book.router, book.nextId)
    requires o' == book.orders[id].(remaining := o'.remaining, status := o'.status)
    requires o'.Live() && 0 < o'.remaining <= book.orders[id].remaining
    ensures Inv(book')
    ensures forall t :: Escrow(book', t) == Escrow(book, t)
                          - if t == o'.tokenIn then book.orders[id].remaining - o'.remaining else 0
  {
    forall t
      ensures Escrow(book', t) == Escrow(book, t)
                - if t == o'.tokenIn then book.orders[id].remaining - o'.remaining else 0
    {
      TotalUpdate(book.orders, EscrowWeight(t), book.nextId, id, o');
    }
    forall slot ensures Counted(book', slot) {
      assert Counted(book, slot);
      TotalUpdate(book.orders, SlotWeight(slot), book.nextId, id, o');
    }
    forall market ensures Indexed(book', market) {
      assert Indexed(book, market);
    }
  }

  /** Emptying an order under a closing status and dropping it from the indexes
      leaves every index right. */
  lemma RetireKeeps(book: Book, book': Book, id: nat, o': Order)
    requires Inv(book) && id in book.orders && book.orders[id].Live()
    requires book'.orders == book.orders[id := o']
    requires book'.index == CloseIndexes(book, o').index && book'.counts == CloseIndexes(book, o').counts
    requires (book'.self, book'.vault, book'.router, book'.nextId) == (book.self, book.vault, book.router, book.nextId)
    requires o' == book.orders[id].(remaining := 0, status := o'.status) && !o'.Live()
    ensures Inv(book')
    ensures forall t :: Escrow(book', t) == Escrow(book, t)
                          - if t == o'.tokenIn then book.orders[id].remaining else 0
  {
    var o := book.orders[id];
    forall t
      ensures Escrow(book', t) == Escrow(book, t) - if t == o'.tokenIn then o.remaining else 0
    {
      TotalUpdate(book.orders, EscrowWeight(t), book.nextId, id, o');
    }
    forall slot ensures Counted(book', slot) {
      assert Counted(book, slot);
      TotalUpdate(book.orders, SlotWeight(slot), book.nextId, id, o');
      TotalCovers(book.orders, SlotWeight(slot), book.nextId, id);
    }
    assert Indexed(book, o.Market());
    WithoutRemoves(book.Ids(o.Market()), id);
    forall market ensures Indexed(book', market) {
      assert Indexed(book, market);
    }
  }

  lemma ConsumeKeeps(book: Book, id: nat, fill: nat, net: int)
    requires Inv(book) && id in book.orders && book.orders[id].Live()
    requires 0 < fill <= book.orders[id].remaining
    ensures Inv(Consume(book, id, fill, net))
    ensures forall t :: Escrow(Consume(book, id, fill, net), t)
                        == Escrow(book, t) - if t == book.orders[id].tokenIn then fill else 0
  {
    var book' := Consume(book, id, fill, net);
    if fill == book.orders[id].remaining {
      RetireKeeps(book, book', id, book'.orders[id]);
    } else {
      RewriteKeeps(book, book', id, book'.orders[id]);
    }
  }

  lemma CloseKeeps(book: Book, id: nat, status: Status, refund: nat)
    requires Inv(book) && id in book.orders && book.orders[id].Live()
    requires status != Open && status != PartialFill
    ensures Inv(Close(book, id, status, refund))
    ensures forall t :: Escrow(Close(book, id, status, refund), t)
                        == Escrow(book, t) - if t == book.orders[id].tokenIn then book.orders[id].remaining else 0
  {
    var book' := Close(book, id, status, refund);
    RetireKeeps(book, book', id, book'.orders[id]);
  }

  lemma EnlistKeeps(book: Book, o: Order)
    requires Inv(book) && o.id == book.nextId && OrderOk(book.self, o) && o.Live()
    requires |book.Ids(o.Market())| < MAX_ORDERS_PER_PAIR
    requires book.OpenCount(Slot(o.maker, o.Market())) < MAX_OPEN_PER_MAKER_PAIR
    ensures Inv(Enlist(book, o))
    ensures forall t :: Escrow(Enlist(book, o), t)
                        == Escrow(book, t) + if t == o.tokenIn then o.remaining else 0
  {
    var book' := Enlist(book, o);
    forall t
      ensures Escrow(book', t) == Escrow(book, t) + if t == o.tokenIn then o.remaining else 0
    {
      TotalAppend(book.orders, EscrowWeight(t), book.nextId, o);
    }
    forall slot ensures Counted(book', slot) {
      assert Counted(book, slot);
      TotalAppend(book.orders, SlotWeight(slot), book.nextId, o);
    }
    forall market ensures Indexed(book', market) {
      assert Indexed(book, market);
      if market == o.Market() {
        var ids := book.Ids(market);
        assert book'.Ids(market) == ids + [o.id];
        assert Ascending(ids + [o.id]) by {
          forall i | 0 <= i < |ids| ensures ids[i] < o.id {
            assert ids[i] in ids && ids[i] in book.orders;
          }
        }
      }
    }
  }

  // ─── A freshly deployed book ────────────────────────

  function NewBook(self: Address, vault: Address, router: Address, fee: FeeRate): Book {
    Book(self, vault, router, fee, map[], 1, map[], map[], map[], map[])
  }

  lemma NewBookInv(self: Address, vault: Address, router: Address, fee: FeeRate)
    requires self != vault && self != router
    ensures Inv(NewBook(self, vault, router, fee))
    ensures forall t :: Escrow(NewBook(self, vault, router, fee), t) == 0
  {
    var book := NewBook(self, vault, router, fee);
    forall weight: Order -> int ensures Total(book.orders, weight, 1) == 0 {
      assert Total(book.orders, weight, 0) == 0;
    }
    assert forall market :: Indexed(book, market);
    assert forall slot :: Counted(book, slot);
  }
}
