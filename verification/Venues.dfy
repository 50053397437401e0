/** Pushing funds through venue adapters, as the Router and the TwapBook do it. A
    venue is outside the contracts: what its calls return is the parameter `outs`,
    read in call order (a missing answer is a venue that fails). It credits the
    caller exactly what it returns and touches no other holding. */
module Venues {
  import opened Results
  import opened MulDiv
  import opened Chain

  datatype Segment = Segment(venueId: nat, amountIn: int, minOut: int)

  type Registry = map<nat, Address>

  function Total(segments: seq<Segment>): int {
    if segments == [] then 0 else segments[0].amountIn + Total(segments[1..])
  }

  predicate WellFormed(segments: seq<Segment>) {
    forall s <- segments :: 0 < s.amountIn && 0 <= s.minOut
  }

  /** validate_segments: positive amounts that sum exactly to the total. */
  function Validate(segments: seq<Segment>, total: int): Outcome {
    if segments == [] then Fail(InvalidRoute)
    else if !WellFormed(segments) then Fail(InvalidAmount)
    else if Total(segments) != total then Fail(RouteMismatch)
    else Pass
  }

  /** Balances, the venue answers not yet used, and the output so far. */
  datatype Flow = Flow(bal: Balances, outs: seq<int>, out: int)

  /** One adapter call: push `amountIn` to the venue, take what it sends back. */
  function Swap(f: Flow, self: Address, venues: Registry, venueId: nat, tokenIn: Address, tokenOut: Address,
                amountIn: int, minOut: int)
    : Result<Flow>
  {
    var venue :- if venueId in venues then Ok(venues[venueId]) else Err(VenueNotFound);
    var pushed :- Transfer(f.bal, tokenIn, self, venue, amountIn);
    :- Need(f.outs != [], Trap);
    var received := f.outs[0];
    :- Need(minOut <= received, InsufficientOutput);
    Ok(Flow(Credit(pushed, tokenOut, self, received), f.outs[1..], f.out + received))
  }

  /** execute_segments, from the given flow on. */
  function Execute(f: Flow, self: Address, venues: Registry, tokenIn: Address, tokenOut: Address,
                   segments: seq<Segment>)
    : Result<Flow>
    decreases |segments|
  {
    if segments == [] then Ok(f)
    else
      var s := segments[0];
      var f' :- Swap(f, self, venues, s.venueId, tokenIn, tokenOut, s.amountIn, s.minOut);
      Execute(f', self, venues, tokenIn, tokenOut, segments[1..])
  }

  function Sum(xs: seq<int>): int {
    if xs == [] then 0 else xs[0] + Sum(xs[1..])
  }

  lemma SwapMoves(f: Flow, self: Address, venues: Registry, venueId: nat, tokenIn: Address, tokenOut: Address,
                  amountIn: int, minOut: int)
    requires Swap(f, self, venues, venueId, tokenIn, tokenOut, amountIn, minOut).Ok?
    ensures var f' := Swap(f, self, venues, venueId, tokenIn, tokenOut, amountIn, minOut).value;
            && f.outs != [] && f'.outs == f.outs[1..] && f'.out == f.out + f.outs[0] && minOut <= f.outs[0]
            && (forall t, a :: a !in venues.Values ==>
                  Bal(f'.bal, t, a) == Bal(f.bal, t, a) - At(tokenIn, self, t, a, amountIn)
                                       + At(tokenOut, self, t, a, f'.out - f.out))
  {
    TransferMoves(f.bal, tokenIn, self, venues[venueId], amountIn);
  }

  /** Executing segments turns exactly their total into exactly what the venues
      returned, at or above each leg's minimum; nobody else but a venue is touched. */
  lemma {:induction false} ExecuteMoves(f: Flow, self: Address, venues: Registry, tokenIn: Address,
                                        tokenOut: Address, segments: seq<Segment>)
    requires Execute(f, self, venues, tokenIn, tokenOut, segments).Ok? && WellFormed(segments)
    ensures var f' := Execute(f, self, venues, tokenIn, tokenOut, segments).value;
            && |segments| <= |f.outs| && f'.outs == f.outs[|segments|..]
            && f'.out == f.out + Sum(f.outs[..|segments|]) && f.out <= f'.out
            && (forall i :: 0 <= i < |segments| ==> segments[i].minOut <= f.outs[i])
            && (forall t, a :: a !in venues.Values ==>
                  Bal(f'.bal, t, a) == Bal(f.bal, t, a) - At(tokenIn, self, t, a, Total(segments))
                                       + At(tokenOut, self, t, a, f'.out - f.out))
    decreases |segments|
  {
    hide Swap;
    if segments != [] {
      var s := segments[0];
      SwapMoves(f, self, venues, s.venueId, tokenIn, tokenOut, s.amountIn, s.minOut);
      var f1 := Swap(f, self, venues, s.venueId, tokenIn, tokenOut, s.amountIn, s.minOut).value;
      assert s in segments && forall x <- segments[1..] :: x in segments;
      ExecuteMoves(f1, self, venues, tokenIn, tokenOut, segments[1..]);
      assert f.outs[..|segments|] == [f.outs[0]] + f1.outs[..|segments| - 1];
      assert forall i :: 1 <= i < |segments| ==> segments[i] == segments[1..][i - 1] && f.outs[i] == f1.outs[i - 1];
    }
  }
}
