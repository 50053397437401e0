/** The routing engine's greedy split across venues, and the conservation and
    minimum-output steps that turn it into on-chain segments. */
module Engine {
  import opened Results
  import opened MulDiv
  import opened Tranches
  import Venues

  /** What one venue is to swap, and is expected to return. */
  datatype Allotment = Allotment(venueId: nat, amountIn: int, expectedOut: int)

  // ─── The allocation map, in insertion order ─────────

  function Consumed(routes: seq<Allotment>, v: nat): int {
    if routes == [] then 0 else if routes[0].venueId == v then routes[0].amountIn else Consumed(routes[1..], v)
  }

  /** Accumulate into a venue's entry, appending one if it has none. */
  function Add(routes: seq<Allotment>, v: nat, amount: int, out: int): seq<Allotment> {
    if routes == [] then [Allotment(v, amount, out)]
    else if routes[0].venueId == v
    then [Allotment(v, routes[0].amountIn + amount, routes[0].expectedOut + out)] + routes[1..]
    else [routes[0]] + Add(routes[1..], v, amount, out)
  }

  function TotalIn(routes: seq<Allotment>): int {
    if routes == [] then 0 else routes[0].amountIn + TotalIn(routes[1..])
  }

  function TotalOut(routes: seq<Allotment>): int {
    if routes == [] then 0 else routes[0].expectedOut + TotalOut(routes[1..])
  }

  predicate Has(routes: seq<Allotment>, v: nat) {
    routes != [] && (routes[0].venueId == v || Has(routes[1..], v))
  }

  /** No entry's venue has another entry. */
  predicate DistinctVenues(routes: seq<Allotment>) {
    routes == [] || (!Has(routes[1..], routes[0].venueId) && DistinctVenues(routes[1..]))
  }

  /** A positive amount whose expected output does not beat its venue's spot rate. */
  predicate Fair(spots: map<nat, Spot>, r: Allotment) {
    && 0 < r.amountIn && r.venueId in spots
    && var spot := spots[r.venueId];
    0 < spot.input && 0 < spot.out && r.expectedOut * spot.input <= r.amountIn * spot.out
  }

  lemma {:induction false} AddEffects(routes: seq<Allotment>, v: nat, amount: int, out: int)
    ensures var routes' := Add(routes, v, amount, out);
            && TotalIn(routes') == TotalIn(routes) + amount
            && TotalOut(routes') == TotalOut(routes) + out
            && (forall u :: Consumed(routes', u) == Consumed(routes, u) + if u == v then amount else 0)
  {
    if routes != [] {
      var routes' := Add(routes, v, amount, out);
      if routes[0].venueId == v {
        assert routes'[1..] == routes[1..];
      } else {
        assert routes'[1..] == Add(routes[1..], v, amount, out);
        AddEffects(routes[1..], v, amount, out);
      }
    }
  }

  lemma {:induction false} AddHas(routes: seq<Allotment>, v: nat, amount: int, out: int, u: nat)
    ensures Has(Add(routes, v, amount, out), u) <==> u == v || Has(routes, u)
  {
    if routes != [] {
      var head, tail := routes[0], routes[1..];
      if head.venueId == v {
        assert Add(routes, v, amount, out)[1..] == tail;
      } else {
        assert Add(routes, v, amount, out)[1..] == Add(tail, v, amount, out);
        AddHas(tail, v, amount, out, u);
      }
    }
  }

  lemma {:induction false} AddKeepsDistinct(routes: seq<Allotment>, v: nat, amount: int, out: int)
    requires DistinctVenues(routes)
    ensures DistinctVenues(Add(routes, v, amount, out))
  {
    if routes != [] {
      var head, tail := routes[0], routes[1..];
      if head.venueId == v {
        assert Add(routes, v, amount, out)[1..] == tail;
      } else {
        assert Add(routes, v, amount, out)[1..] == Add(tail, v, amount, out);
        AddHas(tail, v, amount, out, head.venueId);
        AddKeepsDistinct(tail, v, amount, out);
      }
    }
  }

  lemma {:induction false} AddKeepsFair(routes: seq<Allotment>, spots: map<nat, Spot>, v: nat, amount: int, out: int)
    requires forall r <- routes :: Fair(spots, r)
    requires Fair(spots, Allotment(v, amount, out))
    ensures forall r <- Add(routes, v, amount, out) :: Fair(spots, r)
  {
    if routes != [] {
      assert forall r <- routes[1..] :: r in routes;
      assert routes[0] in routes;
      AddKeepsFair(routes[1..], spots, v, amount, out);
      if routes[0].venueId == v {
        SumIsFair(spots[v], routes[0].amountIn, routes[0].expectedOut, amount, out);
      }
    }
  }

  lemma SumIsFair(spot: Spot, a: int, o: int, a': int, o': int)
    requires o * spot.input <= a * spot.out && o' * spot.input <= a' * spot.out
    ensures (o + o') * spot.input <= (a + a') * spot.out
  {
  }

  // ─── Greedy allocation ──────────────────────────────

  datatype Allocation = Allocation(remaining: int, routes: seq<Allotment>)

  /** How much of a tranche the allocation takes: nothing of one without liquidity or
      one its venue is already past, else what is left of it or of the amount. */
  function FillOf(a: Allocation, t: Tranche): int {
    var consumed := Consumed(a.routes, t.venueId);
    if a.remaining <= 0 || t.key.Unbounded? || t.to <= consumed then 0
    else Min(a.remaining, t.to - if t.from < consumed then consumed else t.from)
  }

  /** The pro-rated expected output of part of a tranche. */
  function Share(t: Tranche, fill: int): int {
    if 0 < t.amount then Trunc(t.expectedOut * fill, t.amount) else 0
  }

  function Take(a: Allocation, t: Tranche): Allocation {
    var fill := FillOf(a, t);
    if fill <= 0 then a
    else Allocation(a.remaining - fill, Add(a.routes, t.venueId, fill, Share(t, fill)))
  }

  function Allocate(a: Allocation, s: seq<Tranche>): Allocation
    decreases |s|
  {
    if s == [] then a else Allocate(Take(a, s[0]), s[1..])
  }

  /** The fills behind an allocation, tranche by tranche. */
  function Fills(a: Allocation, s: seq<Tranche>): seq<int>
    decreases |s|
  {
    if s == [] then [] else [FillOf(a, s[0])] + Fills(Take(a, s[0]), s[1..])
  }

  /** What a list of fills is expected to return. */
  function Got(s: seq<Tranche>, fills: seq<int>): int
    requires |fills| == |s|
  {
    if s == [] then 0 else Share(s[0], fills[0]) + Got(s[1..], fills[1..])
  }

  lemma ShareIsFair(t: Tranche, spot: Spot, fill: int)
    requires t.key.Bps? && Sane(t) && WithinSpot(t, spot) && 0 <= fill
    ensures Share(t, fill) * spot.input <= fill * spot.out
  {
    var a, out := t.amount, t.expectedOut * fill;
    TruncBounds(out, a);
    var share := Trunc(out, a);
    hide Trunc, Sane;
    if 0 <= out {
      ScaleShare(share, a, t.expectedOut, fill, spot.input, spot.out);
    } else {
      assert share * spot.input <= 0;
      assert 0 <= fill * spot.out;
    }
  }

  /** share/fill <= e/a <= o/i, without division. */
  lemma ScaleShare(share: int, a: pos, e: int, fill: nat, i: pos, o: pos)
    requires share * a <= e * fill && e * i <= a * o
    ensures share * i <= fill * o
  {
    ScaleBy(share * a, e * fill, i);
    ScaleBy(e * i, a * o, fill);
    assert share * a * i == share * i * a;
    assert e * fill * i == e * i * fill;
    assert a * o * fill == fill * o * a;
    CancelFactor(share * i, fill * o, a);
  }

  lemma ScaleBy(x: int, y: int, d: nat)
    requires x <= y
    ensures x * d <= y * d
  {
  }

  lemma CancelFactor(x: int, y: int, d: pos)
    requires x * d <= y * d
    ensures x <= y
  {
  }

  /** On any ladders at all, the allocation conserves the amount, keeps one positive
      entry per venue, and beats no venue's spot rate. */
  lemma {:induction false} AllocateSound(a: Allocation, s: seq<Tranche>, spots: map<nat, Spot>)
    requires forall t <- s :: Sane(t) && t.venueId in spots && WithinSpot(t, spots[t.venueId])
    requires 0 <= a.remaining && DistinctVenues(a.routes) && forall r <- a.routes :: Fair(spots, r)
    ensures var a' := Allocate(a, s);
            && 0 <= a'.remaining && a'.remaining + TotalIn(a'.routes) == a.remaining + TotalIn(a.routes)
            && DistinctVenues(a'.routes) && (forall r <- a'.routes :: Fair(spots, r))
            && |Fills(a, s)| == |s| && TotalOut(a'.routes) == TotalOut(a.routes) + Got(s, Fills(a, s))
    decreases |s|
  {
    if s != [] {
      var t, a1, fill := s[0], Take(a, s[0]), FillOf(a, s[0]);
      assert t in s && forall x <- s[1..] :: x in s;
      if 0 < fill {
        ShareIsFair(t, spots[t.venueId], fill);
        AddEffects(a.routes, t.venueId, fill, Share(t, fill));
        AddKeepsDistinct(a.routes, t.venueId, fill, Share(t, fill));
        AddKeepsFair(a.routes, spots, t.venueId, fill, Share(t, fill));
      } else {
        NoFillNoShare(a, t);
      }
      hide Fair, Sane, WithinSpot, DistinctVenues, Take, FillOf, TotalIn, TotalOut;
      AllocateSound(a1, s[1..], spots);
      assert Fills(a, s)[1..] == Fills(a1, s[1..]);
    }
  }

  lemma NoFillNoShare(a: Allocation, t: Tranche)
    requires Sane(t) && 0 <= a.remaining && FillOf(a, t) <= 0
    ensures FillOf(a, t) == 0 && Share(t, 0) == 0
  {
  }

  lemma {:induction false} NothingLeft(a: Allocation, s: seq<Tranche>)
    requires a.remaining <= 0
    ensures Allocate(a, s) == a && Fills(a, s) == seq(|s|, _ => 0)
    decreases |s|
  {
    if s != [] {
      NothingLeft(a, s[1..]);
    }
  }
}
