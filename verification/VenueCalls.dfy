/** The segment code the Router and the TwapBook share, over the live token ledger. */
module VenueCalls {
  import opened Results
  import opened Chain
  import opened Host
  import opened Venues

  method ValidateSegments(segments: seq<Segment>, total: int) returns (o: Outcome)
    ensures o == Validate(segments, total)
  {
    if segments == [] { return Fail(InvalidRoute); }
    var sum := 0;
    assert segments[0..] == segments;
    for i := 0 to |segments|
      invariant forall j :: 0 <= j < i ==> 0 < segments[j].amountIn && 0 <= segments[j].minOut
      invariant Venues.Total(segments) == sum + Venues.Total(segments[i..])
    {
      assert segments[i..][0] == segments[i] && segments[i..][1..] == segments[i + 1..];
      if segments[i].amountIn <= 0 || segments[i].minOut < 0 {
        assert segments[i] in segments;
        return Fail(InvalidAmount);
      }
      sum := sum + segments[i].amountIn;
    }
    assert segments[|segments|..] == [];
    if sum != total { return Fail(RouteMismatch); }
    o := Pass;
  }

  /** One adapter call. A failure midway is undone by the entry point. */
  method SwapOnce(host: Host, self: Address, venues: Registry, venueId: nat, tokenIn: Address, tokenOut: Address,
                  amountIn: int, minOut: int, outs: seq<int>, out: int)
    returns (res: Result<int>)
    modifies host`bal
    ensures res.Ok? ==>
              outs != []
              && Swap(Flow(old(host.bal), outs, out), self, venues, venueId, tokenIn, tokenOut, amountIn, minOut)
                 == Ok(Flow(host.bal, outs[1..], out + res.value))
    ensures res.Err? ==>
              Swap(Flow(old(host.bal), outs, out), self, venues, venueId, tokenIn, tokenOut, amountIn, minOut)
              == Err(res.error)
  {
    if venueId !in venues { return Err(VenueNotFound); }
    var moved := host.MakeTransfer(tokenIn, self, venues[venueId], amountIn);
    if moved.Err? { return Err(moved.error); }
    if outs == [] { return Err(Trap); }
    var received := outs[0];
    if received < minOut { return Err(InsufficientOutput); }
    host.bal := Credit(host.bal, tokenOut, self, received);
    res := Ok(received);
  }

  method ExecuteSegments(host: Host, self: Address, venues: Registry, tokenIn: Address, tokenOut: Address,
                         segments: seq<Segment>, outs: seq<int>)
    returns (res: Result<int>)
    modifies host`bal
    ensures var run := Execute(Flow(old(host.bal), outs, 0), self, venues, tokenIn, tokenOut, segments);
            && (res.Ok? ==> run.Ok? && run.value.bal == host.bal && run.value.out == res.value)
            && (res.Err? ==> run == Err(res.error))
  {
    hide Swap;
    var total, left := 0, outs;
    assert segments[0..] == segments;
    for i := 0 to |segments|
      invariant Execute(Flow(old(host.bal), outs, 0), self, venues, tokenIn, tokenOut, segments)
                == Execute(Flow(host.bal, left, total), self, venues, tokenIn, tokenOut, segments[i..])
    {
      assert segments[i..][0] == segments[i] && segments[i..][1..] == segments[i + 1..];
      var s := segments[i];
      var received := SwapOnce(host, self, venues, s.venueId, tokenIn, tokenOut, s.amountIn, s.minOut, left, total);
      if received.Err? { return Err(received.error); }
      left := left[1..];
      total := total + received.value;
    }
    assert segments[|segments|..] == [];
    res := Ok(total);
  }
}
