/** Where the Router sends what it is given: every holding, the venues' included, and
    exactly when it accepts a route. */
module RouterLegs {
  import opened Results
  import opened MulDiv
  import opened Chain
  import opened Venues
  import opened Routing
  import opened RouterCalls
  import SwapBook

  // ─── Segments ───────────────────────────────────────

  /** What a registered venue is sent, as a change of one holding. */
  function Sent(venues: Registry, venueId: nat, token: Address, amount: int, t: Address, a: Address): int {
    if venueId in venues then At(token, venues[venueId], t, a, amount) else 0
  }

  /** Each segment's own amount goes to its own venue. */
  function SegmentsTo(venues: Registry, token: Address, segments: seq<Segment>, t: Address, a: Address): int {
    if segments == [] then 0
    else Sent(venues, segments[0].venueId, token, segments[0].amountIn, t, a)
         + SegmentsTo(venues, token, segments[1..], t, a)
  }

  lemma SwapPaysVenue(f: Flow, self: Address, venues: Registry, venueId: nat, tokenIn: Address, tokenOut: Address,
                      amountIn: int, minOut: int, t: Address, a: Address)
    requires Swap(f, self, venues, venueId, tokenIn, tokenOut, amountIn, minOut).Ok?
    ensures var f' := Swap(f, self, venues, venueId, tokenIn, tokenOut, amountIn, minOut).value;
            && venueId in venues && f.outs != [] && minOut <= f.outs[0]
            && f'.outs == f.outs[1..] && f'.out == f.out + f.outs[0]
            && Bal(f'.bal, t, a)
               == Bal(f.bal, t, a) - At(tokenIn, self, t, a, amountIn) + At(tokenOut, self, t, a, f.outs[0])
                  + Sent(venues, venueId, tokenIn, amountIn, t, a)
  {
    TransferMoves(f.bal, tokenIn, self, venues[venueId], amountIn);
  }

  /** Every holding after a run of segments, a venue's included. */
  lemma {:induction false} ExecutePaysVenues(f: Flow, self: Address, venues: Registry, tokenIn: Address,
                                             tokenOut: Address, segments: seq<Segment>, t: Address, a: Address)
    requires Execute(f, self, venues, tokenIn, tokenOut, segments).Ok?
    ensures var f' := Execute(f, self, venues, tokenIn, tokenOut, segments).value;
            Bal(f'.bal, t, a)
            == Bal(f.bal, t, a) - At(tokenIn, self, t, a, Total(segments)) + At(tokenOut, self, t, a, f'.out - f.out)
               + SegmentsTo(venues, tokenIn, segments, t, a)
    decreases |segments|
  {
    hide Swap, Bal, Sent;
    if segments != [] {
      var s := segments[0];
      SwapPaysVenue(f, self, venues, s.venueId, tokenIn, tokenOut, s.amountIn, s.minOut, t, a);
      var f1 := Swap(f, self, venues, s.venueId, tokenIn, tokenOut, s.amountIn, s.minOut).value;
      ExecutePaysVenues(f1, self, venues, tokenIn, tokenOut, segments[1..], t, a);
    }
  }

  /** Every holding after a route: the user's, the vault's, the partner's and each venue's. */
  lemma RoutePaysVenues(rt: Router, b: Balances, r: Route, outs: seq<int>, t: Address, a: Address)
    requires RouteInner(rt, b, r, outs).Ok?
    ensures var d := RouteInner(rt, b, r, outs).value;
            && Divide(rt, r.partner, d.out, r.estimate).Ok?
            && Bal(d.bal, t, a)
               == Bal(b, t, a) + RouteMoves(rt, r, Divide(rt, r.partner, d.out, r.estimate).value, t, a)
                  + SegmentsTo(rt.venues, r.tokenIn, r.segments, t, a)
  {
    var pulled := Transfer(b, r.tokenIn, r.user, rt.self, r.amountIn).value;
    TransferMoves(b, r.tokenIn, r.user, rt.self, r.amountIn);
    ExecutePaysVenues(Flow(pulled, outs, 0), rt.self, rt.venues, r.tokenIn, r.tokenOut, r.segments, t, a);
    var f := Execute(Flow(pulled, outs, 0), rt.self, rt.venues, r.tokenIn, r.tokenOut, r.segments).value;
    DivideExact(rt, r.partner, f.out, r.estimate);
    PayOutMoves(rt, f.bal, r.tokenOut, r.user, r.partner, Divide(rt, r.partner, f.out, r.estimate).value);
    hide Transfer, Execute, Divide, PayOut, Bal, SegmentsTo;
  }

  // ─── Legs ───────────────────────────────────────────

  function Portion(carry: int, leg: Leg): int {
    carry * leg.weightBps / 10_000
  }

  function Portions(carry: int, legs: seq<Leg>): int {
    if legs == [] then 0 else Portion(carry, legs[0]) + Portions(carry, legs[1..])
  }

  /** What leg j of a hop swaps: its weight of the carry, floored, and the last leg what
      the others leave. */
  function LegShare(carry: int, legs: seq<Leg>, j: nat): int
    requires j < |legs|
  {
    if j + 1 < |legs| then Portion(carry, legs[j]) else carry - Portions(carry, legs[..j])
  }

  /** Each leg's share goes to its own venue. */
  function LegsTo(venues: Registry, token: Address, carry: int, legs: seq<Leg>, j: nat, t: Address, a: Address): int
    requires j <= |legs|
    decreases |legs| - j
  {
    if j == |legs| then 0
    else Sent(venues, legs[j].venueId, token, LegShare(carry, legs, j), t, a)
         + LegsTo(venues, token, carry, legs, j + 1, t, a)
  }

  lemma PortionsAppend(carry: int, legs: seq<Leg>, j: nat)
    requires j < |legs|
    ensures Portions(carry, legs[..j + 1]) == Portions(carry, legs[..j]) + Portion(carry, legs[j])
    decreases j
  {
    hide Portion;
    if j == 0 {
      assert legs[..1] == [legs[0]] && legs[..0] == [] && [legs[0]][1..] == [];
    } else {
      assert legs[..j + 1][1..] == legs[1..][..j] && legs[..j][1..] == legs[1..][..j - 1];
      PortionsAppend(carry, legs[1..], j - 1);
    }
  }

  /** From leg j on, with the earlier legs' portions already swapped. */
  lemma {:induction false} LegsFrom(f: Flow, rt: Router, tokenIn: Address, tokenOut: Address, carry: int,
                                    legs: seq<Leg>, j: nat, t: Address, a: Address)
    requires j < |legs|
    requires ExecuteLegs(f, rt, tokenIn, tokenOut, carry, legs[j..], carry - Portions(carry, legs[..j])).Ok?
    ensures var f' := ExecuteLegs(f, rt, tokenIn, tokenOut, carry, legs[j..], carry - Portions(carry, legs[..j])).value;
            && |legs| - j <= |f.outs| && f'.outs == f.outs[|legs| - j..] && f'.out == f.out + Sum(f.outs[..|legs| - j])
            && Bal(f'.bal, t, a)
               == Bal(f.bal, t, a) - At(tokenIn, rt.self, t, a, carry - Portions(carry, legs[..j]))
                  + At(tokenOut, rt.self, t, a, f'.out - f.out) + LegsTo(rt.venues, tokenIn, carry, legs, j, t, a)
    decreases |legs| - j
  {
    hide Swap, Bal, Portions, Sent;
    var leg, share, left := legs[j], LegShare(carry, legs, j), carry - Portions(carry, legs[..j]);
    assert legs[j..][0] == leg && legs[j..][1..] == legs[j + 1..];
    SwapPaysVenue(f, rt.self, rt.venues, leg.venueId, tokenIn, tokenOut, share, leg.minOut, t, a);
    var f1 := Swap(f, rt.self, rt.venues, leg.venueId, tokenIn, tokenOut, share, leg.minOut).value;
    PortionsAppend(carry, legs, j);
    if j + 1 < |legs| {
      LegsFrom(f1, rt, tokenIn, tokenOut, carry, legs, j + 1, t, a);
      assert f.outs[..|legs| - j] == [f.outs[0]] + f1.outs[..|legs| - j - 1];
    } else {
      assert legs[j + 1..] == [];
      assert f.outs[..1] == [f.outs[0]] && [f.outs[0]][1..] == [];
    }
  }

  /** Every holding after a hop: the Router swaps the whole carry, and each leg's venue is
      sent exactly that leg's share. */
  lemma LegsPayVenues(f: Flow, rt: Router, tokenIn: Address, tokenOut: Address, carry: int, legs: seq<Leg>,
                      t: Address, a: Address)
    requires legs != [] && ExecuteLegs(f, rt, tokenIn, tokenOut, carry, legs, carry).Ok?
    ensures var f' := ExecuteLegs(f, rt, tokenIn, tokenOut, carry, legs, carry).value;
            && |legs| <= |f.outs| && f'.outs == f.outs[|legs|..] && f'.out == f.out + Sum(f.outs[..|legs|])
            && Bal(f'.bal, t, a)
               == Bal(f.bal, t, a) - At(tokenIn, rt.self, t, a, carry) + At(tokenOut, rt.self, t, a, f'.out - f.out)
                  + LegsTo(rt.venues, tokenIn, carry, legs, 0, t, a)
  {
    assert legs[0..] == legs && legs[..0] == [] && Portions(carry, []) == 0;
    LegsFrom(f, rt, tokenIn, tokenOut, carry, legs, 0, t, a);
  }

  // ─── Paths ──────────────────────────────────────────

  /** What a path sends its venues: each hop carries the first hop's input, then all that
      the venues of the hop before returned. */
  function PathTo(rt: Router, token: Address, hops: seq<Hop>, carry: int, outs: seq<int>, t: Address, a: Address): int
    decreases |hops|
  {
    if hops == [] || |outs| < |hops[0].legs| then 0
    else
      var n := |hops[0].legs|;
      LegsTo(rt.venues, token, carry, hops[0].legs, 0, t, a)
      + PathTo(rt, hops[0].tokenOut, hops[1..], Sum(outs[..n]), outs[n..], t, a)
  }

  lemma {:induction false} HopsPayVenues(f: Flow, rt: Router, token: Address, hops: seq<Hop>, t: Address, a: Address)
    requires ValidHops(token, hops) && ExecuteHops(f, rt, token, hops).Ok?
    ensures var f' := ExecuteHops(f, rt, token, hops).value;
            Bal(f'.bal, t, a)
            == Bal(f.bal, t, a) - At(token, rt.self, t, a, f.out) + At(EndToken(token, hops), rt.self, t, a, f'.out)
               + PathTo(rt, token, hops, f.out, f.outs, t, a)
    decreases |hops|
  {
    hide ExecuteLegs, Bal, LegsTo;
    if hops != [] {
      var hop, start := hops[0], f.(out := 0);
      LegsPayVenues(start, rt, token, hop.tokenOut, f.out, hop.legs, t, a);
      var f1 := ExecuteLegs(start, rt, token, hop.tokenOut, f.out, hop.legs, f.out).value;
      HopsPayVenues(f1, rt, hop.tokenOut, hops[1..], t, a);
    }
  }

  /** Every holding after a path. */
  lemma PathPaysVenues(rt: Router, b: Balances, p: Path, outs: seq<int>, t: Address, a: Address)
    requires ExecutePath(rt, b, p, outs).Ok?
    ensures var d := ExecutePath(rt, b, p, outs).value;
            var end := EndToken(p.tokenIn, p.hops);
            && Divide(rt, None, d.out, p.estimate).Ok?
            && var s := Divide(rt, None, d.out, p.estimate).value;
            Bal(d.bal, t, a)
            == Bal(b, t, a) - At(p.tokenIn, p.user, t, a, p.amountIn)
               + At(end, p.user, t, a, s.user) + At(end, rt.vault, t, a, s.vault)
               + PathTo(rt, p.tokenIn, p.hops, p.amountIn, outs, t, a)
  {
    var pulled := Transfer(b, p.tokenIn, p.user, rt.self, p.amountIn).value;
    TransferMoves(b, p.tokenIn, p.user, rt.self, p.amountIn);
    HopsPayVenues(Flow(pulled, outs, p.amountIn), rt, p.tokenIn, p.hops, t, a);
    var f := ExecuteHops(Flow(pulled, outs, p.amountIn), rt, p.tokenIn, p.hops).value;
    DivideExact(rt, None, f.out, p.estimate);
    PayOutMoves(rt, f.bal, EndToken(p.tokenIn, p.hops), p.user, None, Divide(rt, None, f.out, p.estimate).value);
    hide Transfer, ExecuteHops, ValidHops, Divide, PayOut, Bal, PathTo;
  }

  // ─── What is accepted ───────────────────────────────

  /** Hop i swaps the token the hop before it ends on into another, over legs with positive
      weights that make up the whole. */
  predicate HopOk(from: Address, hops: seq<Hop>, i: nat)
    requires i < |hops|
  {
    var hop := hops[i];
    && hop.tokenOut != (if i == 0 then from else hops[i - 1].tokenOut)
    && hop.legs != [] && Weights(hop.legs) == 10_000
    && forall leg <- hop.legs :: 0 < leg.weightBps && 0 <= leg.minOut
  }

  lemma {:induction false} ValidHopsIff(from: Address, hops: seq<Hop>)
    ensures ValidHops(from, hops) <==> forall i: nat :: i < |hops| ==> HopOk(from, hops, i)
    decreases |hops|
  {
    if hops != [] {
      var tail, next := hops[1..], hops[0].tokenOut;
      ValidHopsIff(next, tail);
      hide ValidHops;
      assert ValidHop(from, hops[0]) <==> HopOk(from, hops, 0);
      forall i: nat | i < |tail| ensures HopOk(next, tail, i) <==> HopOk(from, hops, i + 1) {
        assert tail[i] == hops[i + 1];
      }
      assert (forall i: nat :: i < |hops| ==> HopOk(from, hops, i))
             ==> HopOk(from, hops, 0) && forall i: nat :: i < |tail| ==> HopOk(next, tail, i);
      forall i: nat | i < |hops| && HopOk(from, hops, 0) && (forall k: nat :: k < |tail| ==> HopOk(next, tail, k))
        ensures HopOk(from, hops, i)
      {
        if 0 < i {
          assert HopOk(next, tail, i - 1);
        }
      }
      UnfoldHops(from, hops);
    }
  }

  lemma UnfoldHops(from: Address, hops: seq<Hop>)
    requires hops != []
    ensures ValidHops(from, hops) <==> ValidHop(from, hops[0]) && ValidHops(hops[0].tokenOut, hops[1..])
  {
  }

  /** A path runs only if it asks for something, is one to five valid hops, and its floor
      is within its estimate. */
  lemma PathChecks(rt: Router, b: Balances, p: Path, outs: seq<int>)
    requires ExecutePath(rt, b, p, outs).Ok?
    ensures 0 < p.amountIn <= Bal(b, p.tokenIn, p.user) && 0 < p.minOut && (0 < p.estimate ==> p.minOut <= p.estimate)
    ensures 1 <= |p.hops| <= 5 && forall i: nat :: i < |p.hops| ==> HopOk(p.tokenIn, p.hops, i)
  {
    hide ExecuteHops, Divide, PayOut, Bal, EndToken;
    ValidHopsIff(p.tokenIn, p.hops);
  }

  /** Every venue of a route is registered and answers at or above its segment's minimum. */
  predicate Delivered(venues: Registry, segments: seq<Segment>, outs: seq<int>) {
    |segments| <= |outs|
    && forall i :: 0 <= i < |segments| ==> segments[i].venueId in venues && segments[i].minOut <= outs[i]
  }

  lemma {:induction false} ExecuteRunsIff(f: Flow, self: Address, venues: Registry, tokenIn: Address, tokenOut: Address,
                                          segments: seq<Segment>)
    requires self !in venues.Values && WellFormed(segments) && Total(segments) <= Bal(f.bal, tokenIn, self)
    ensures Execute(f, self, venues, tokenIn, tokenOut, segments).Ok? <==> Delivered(venues, segments, f.outs)
    decreases |segments|
  {
    hide Bal;
    if segments != [] {
      var s, rest := segments[0], segments[1..];
      assert s in segments && forall x <- rest :: x in segments;
      TotalNonNegative(rest);
      OneSwapIff(f, self, venues, s, tokenIn, tokenOut);
      var step := Swap(f, self, venues, s.venueId, tokenIn, tokenOut, s.amountIn, s.minOut);
      if step.Ok? {
        SwapPaysVenue(f, self, venues, s.venueId, tokenIn, tokenOut, s.amountIn, s.minOut, tokenIn, self);
        hide Swap;
        ExecuteRunsIff(step.value, self, venues, tokenIn, tokenOut, rest);
        DeliveredCons(venues, segments, f.outs);
      }
    }
  }

  lemma {:induction false} TotalNonNegative(segments: seq<Segment>)
    requires WellFormed(segments)
    ensures 0 <= Total(segments)
  {
    if segments != [] {
      assert segments[0] in segments && forall x <- segments[1..] :: x in segments;
      TotalNonNegative(segments[1..]);
    }
  }

  lemma OneSwapIff(f: Flow, self: Address, venues: Registry, s: Segment, tokenIn: Address, tokenOut: Address)
    requires 0 < s.amountIn <= Bal(f.bal, tokenIn, self)
    ensures Swap(f, self, venues, s.venueId, tokenIn, tokenOut, s.amountIn, s.minOut).Ok?
            <==> s.venueId in venues && f.outs != [] && s.minOut <= f.outs[0]
  {
    hide Bal;
  }

  lemma DeliveredCons(venues: Registry, segments: seq<Segment>, outs: seq<int>)
    requires segments != [] && outs != []
    ensures Delivered(venues, segments, outs)
            <==> segments[0].venueId in venues && segments[0].minOut <= outs[0]
                 && Delivered(venues, segments[1..], outs[1..])
  {
    if Delivered(venues, segments[1..], outs[1..]) && segments[0].venueId in venues && segments[0].minOut <= outs[0] {
      forall i | 0 <= i < |segments| ensures segments[i].venueId in venues && segments[i].minOut <= outs[i] {
        if 0 < i {
          assert segments[i] == segments[1..][i - 1] && outs[i] == outs[1..][i - 1];
        }
      }
    }
    if Delivered(venues, segments, outs) {
      assert forall i :: 0 <= i < |segments| - 1 ==> segments[1..][i] == segments[i + 1] && outs[1..][i] == outs[i + 1];
    }
  }

  lemma PayOutSucceeds(rt: Router, b: Balances, token: Address, user: Address, partner: Option<Partner>, s: Split)
    requires 0 <= s.user && s.user + s.vault + s.partner <= Bal(b, token, rt.self)
    ensures PayOut(rt, b, token, user, partner, s).Ok?
  {
    var b1 := Transfer(b, token, rt.self, user, s.user).value;
    TransferMoves(b, token, rt.self, user, s.user);
    assert s.vault + s.partner <= Bal(b1, token, rt.self);
    if 0 < s.vault {
      TransferMoves(b1, token, rt.self, rt.vault, s.vault);
    }
    hide Bal;
  }

  /** The part a user can be quoted of an output, if the surplus can be computed at all. */
  predicate UserGets(rt: Router, partner: Option<Partner>, out: int, estimate: int, floor: int) {
    var split := Divide(rt, partner, out, estimate);
    split.Ok? && floor <= split.value.user
  }

  /** A route is accepted exactly when its request is well formed, the user holds the input,
      every venue delivers at or above its segment's minimum, and the user's part of what
      they deliver meets the floor. */
  lemma RouteAcceptedIff(rt: Router, b: Balances, r: Route, outs: seq<int>)
    requires r.user != rt.self && rt.self !in rt.venues.Values
    requires 0 <= Bal(b, r.tokenIn, rt.self) && 0 <= Bal(b, r.tokenOut, rt.self)
    ensures RouteInner(rt, b, r, outs).Ok? <==>
            && 0 < r.minOut && (0 < r.estimate ==> r.minOut <= r.estimate) && r.tokenIn != r.tokenOut
            && r.segments != [] && (forall s <- r.segments :: 0 < s.amountIn && 0 <= s.minOut)
            && 0 < r.amountIn == Total(r.segments) && r.amountIn <= Bal(b, r.tokenIn, r.user)
            && Delivered(rt.venues, r.segments, outs)
            && UserGets(rt, r.partner, Sum(outs[..|r.segments|]), r.estimate, r.minOut)
  {
    hide Bal, Transfer, Execute, Divide, PayOut, Delivered, Sum;
    if WellFormed(r.segments) && 0 < r.amountIn == Total(r.segments) && r.amountIn <= Bal(b, r.tokenIn, r.user) {
      TransferRuns(b, r.tokenIn, r.user, rt.self, r.amountIn);
      var start := Flow(Transfer(b, r.tokenIn, r.user, rt.self, r.amountIn).value, outs, 0);
      TransferMoves(b, r.tokenIn, r.user, rt.self, r.amountIn);
      ExecuteRunsIff(start, rt.self, rt.venues, r.tokenIn, r.tokenOut, r.segments);
      if Execute(start, rt.self, rt.venues, r.tokenIn, r.tokenOut, r.segments).Ok? && r.tokenIn != r.tokenOut {
        RoutePays(rt, b, r, outs);
      }
    }
    TransferNeeds(b, r.tokenIn, r.user, rt.self, r.amountIn);
  }

  lemma TransferRuns(b: Balances, token: Address, from: Address, to: Address, amount: nat)
    requires amount <= Bal(b, token, from)
    ensures Transfer(b, token, from, to, amount).Ok?
  {
  }

  lemma TransferNeeds(b: Balances, token: Address, from: Address, to: Address, amount: int)
    ensures Transfer(b, token, from, to, amount).Ok? ==> amount <= Bal(b, token, from)
  {
  }

  lemma RoutePays(rt: Router, b: Balances, r: Route, outs: seq<int>)
    requires rt.self !in rt.venues.Values && WellFormed(r.segments) && r.tokenIn != r.tokenOut
    requires 0 <= Bal(b, r.tokenOut, rt.self) && Transfer(b, r.tokenIn, r.user, rt.self, r.amountIn).Ok?
    requires var start := Flow(Transfer(b, r.tokenIn, r.user, rt.self, r.amountIn).value, outs, 0);
             Execute(start, rt.self, rt.venues, r.tokenIn, r.tokenOut, r.segments).Ok?
    ensures var start := Flow(Transfer(b, r.tokenIn, r.user, rt.self, r.amountIn).value, outs, 0);
            var f := Execute(start, rt.self, rt.venues, r.tokenIn, r.tokenOut, r.segments).value;
            && |r.segments| <= |outs| && f.out == Sum(outs[..|r.segments|])
            && (UserGets(rt, r.partner, f.out, r.estimate, 0) ==>
                  PayOut(rt, f.bal, r.tokenOut, r.user, r.partner, Divide(rt, r.partner, f.out, r.estimate).value).Ok?)
  {
    hide Bal, Transfer, Execute, Divide, PayOut, Sum;
    var start := Flow(Transfer(b, r.tokenIn, r.user, rt.self, r.amountIn).value, outs, 0);
    TransferMoves(b, r.tokenIn, r.user, rt.self, r.amountIn);
    ExecuteMoves(start, rt.self, rt.venues, r.tokenIn, r.tokenOut, r.segments);
    var f := Execute(start, rt.self, rt.venues, r.tokenIn, r.tokenOut, r.segments).value;
    if UserGets(rt, r.partner, f.out, r.estimate, 0) {
      DivideExact(rt, r.partner, f.out, r.estimate);
      PayOutSucceeds(rt, f.bal, r.tokenOut, r.user, r.partner, Divide(rt, r.partner, f.out, r.estimate).value);
    }
  }
}
