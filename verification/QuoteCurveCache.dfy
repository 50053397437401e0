/** The quote cache as the backend holds it: two maps rewritten in place. */
module QuoteCurveCache {
  import opened Results
  import opened QuoteCurve
  import opened QuoteCache

  class Store {
    var points: seq<Entry>
    var inFlight: set<(string, int)>
    const ttlMs: nat

    function State(): Cache
      reads this
    {
      Cache(points, inFlight)
    }

    constructor (ttlMs: nat)
      ensures State() == Cache([], {}) && this.ttlMs == ttlMs
    {
      points, inFlight := [], {};
      this.ttlMs := ttlMs;
    }

    method FreshPoints(key: string, now: int) returns (recent: seq<Point>)
      modifies this`points
      ensures recent == Fresh(Lookup(old(points), key), now - ttlMs)
      ensures points == Freshened(old(points), key, now - ttlMs)
    {
      var all := Lookup(points, key);
      recent := Fresh(all, now - ttlMs);
      if |recent| != |all| {
        points := if recent == [] then Delete(points, key) else Put(points, key, recent);
      }
    }

    method Insert(key: string, p: Point, now: int)
      modifies this`points
      ensures points == Inserted(old(points), key, p, now - ttlMs)
    {
      var kept := Except(Lookup(points, key), p.amountIn);
      points := Put(points, key, Sort(kept, p));
      EvictIfNeeded(now);
    }

    method EvictIfNeeded(now: int)
      modifies this`points
      ensures points == Evicted(old(points), now - ttlMs)
    {
      var cutoff := now - ttlMs;
      if |points| <= MAX_KEYS {
        return;
      }
      DropAllStale(cutoff);
      while MAX_KEYS < |points|
        invariant Newest(points) == Newest(DropStale(old(points), |old(points)| - MAX_KEYS, cutoff))
        modifies this`points
      {
        points := points[1..];
      }
    }

    /** The first pass of eviction, oldest key first, until enough are gone. */
    method DropAllStale(cutoff: int)
      modifies this`points
      ensures points == DropStale(old(points), |old(points)| - MAX_KEYS, cutoff)
    {
      var i := 0;
      while i < |points| && MAX_KEYS < |points|
        invariant i <= |points|
        invariant points[..i] + DropStale(points[i..], |points| - MAX_KEYS, cutoff)
                  == DropStale(old(points), |old(points)| - MAX_KEYS, cutoff)
        decreases |points| - i
        modifies this`points
      {
        assert points[i..][1..] == points[i + 1..];
        if AllStale(points[i].points, cutoff) {
          ghost var rest := points[i + 1..];
          points := points[..i] + points[i + 1..];
          assert points[i..] == rest;
        } else {
          i := i + 1;
        }
      }
    }

    /** quote, up to awaiting the simulation. */
    method Quote(key: string, amountIn: int, now: int) returns (reply: Reply)
      requires Sorted(Lookup(points, key), 0)
      modifies this
      ensures (State(), reply) == Ask(old(State()), key, amountIn, now - ttlMs)
    {
      if amountIn <= 0 { return Answered(0); }
      FreshKeeps(Lookup(points, key), now - ttlMs, 0);
      var recent := FreshPoints(key, now);
      var known := ReadOff(recent, amountIn);
      if known.Some? { return Answered(known.value); }
      if (key, amountIn) in inFlight { return Joined; }
      inFlight := inFlight + {(key, amountIn)};
      reply := Simulating;
    }

    /** What follows the simulation: its answer is kept unless it failed. */
    method Settle(key: string, amountIn: int, answer: Option<nat>, now: int)
      modifies this
      ensures State() == Land(old(State()), key, amountIn, answer, now, ttlMs)
    {
      if answer.Some? {
        Insert(key, Point(amountIn, answer.value, now), now);
      }
      inFlight := inFlight - {(key, amountIn)};
    }
  }
}
