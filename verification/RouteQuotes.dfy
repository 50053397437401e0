/** A computed route against the allocation behind it and the venues' own quotes. */
module RouteQuotes {
  import opened Results
  import opened MulDiv
  import opened Tranches
  import opened Engine
  import opened LadderQuotes
  import opened VenueFills
  import opened ComputedRoute

  /** The greedy allocation of an amount over some ladders. */
  function Greedy(all: seq<Tranche>, amountIn: int): seq<Allotment> {
    Allocate(Allocation(amountIn, []), Rank(all)).routes
  }

  // ─── The route follows the allocation ───────────────

  /** Each entry expects what `base` gives its venue, for at least as much. */
  ghost predicate Follows(routes: seq<Allotment>, base: seq<Allotment>) {
    forall r <- routes :: Has(base, r.venueId) && r.expectedOut == Expected(base, r.venueId)
                          && Consumed(base, r.venueId) <= r.amountIn
  }

  /** An entry that takes more than `base` gives it exceeds every other venue's. */
  ghost predicate TopOnly(routes: seq<Allotment>, base: seq<Allotment>) {
    forall r, r' | r in routes && r' in routes ::
      r.venueId != r'.venueId && Consumed(base, r.venueId) < r.amountIn ==> r'.amountIn < r.amountIn
  }

  lemma {:induction false} OwnEntry(routes: seq<Allotment>, r: Allotment)
    requires DistinctVenues(routes) && r in routes
    ensures Has(routes, r.venueId) && Expected(routes, r.venueId) == r.expectedOut
    ensures Consumed(routes, r.venueId) == r.amountIn
  {
    if routes[0] != r {
      assert r in routes[1..];
      OwnEntry(routes[1..], r);
    }
  }

  lemma {:induction false} EntryOf(routes: seq<Allotment>, v: nat) returns (r: Allotment)
    requires Has(routes, v)
    ensures r in routes && r.venueId == v && Expected(routes, v) == r.expectedOut
  {
    if routes[0].venueId == v {
      r := routes[0];
    } else {
      r := EntryOf(routes[1..], v);
    }
  }

  lemma FollowsItself(routes: seq<Allotment>)
    requires DistinctVenues(routes)
    ensures Follows(routes, routes) && TopOnly(routes, routes)
  {
    forall r | r in routes
      ensures Has(routes, r.venueId) && Expected(routes, r.venueId) == r.expectedOut
              && Consumed(routes, r.venueId) == r.amountIn
    {
      OwnEntry(routes, r);
    }
  }

  lemma {:induction false} HasMember(routes: seq<Allotment>, r: Allotment)
    requires r in routes
    ensures Has(routes, r.venueId)
  {
    if routes[0] != r {
      assert r in routes[1..];
      HasMember(routes[1..], r);
    }
  }

  lemma {:induction false} OneEntry(routes: seq<Allotment>, i: nat, j: nat)
    requires DistinctVenues(routes) && i < j < |routes|
    ensures routes[i].venueId != routes[j].venueId
  {
    if i == 0 {
      HasMember(routes[1..], routes[1..][j - 1]);
    } else {
      OneEntry(routes[1..], i - 1, j - 1);
    }
  }

  lemma BumpOthers(routes: seq<Allotment>, k: nat, extra: nat)
    requires DistinctVenues(routes) && k < |routes|
    ensures var bumped := Bump(routes, k, extra);
            && bumped[k] in bumped && bumped[k] == routes[k].(amountIn := routes[k].amountIn + extra)
            && forall r <- bumped :: r == bumped[k] || (r in routes && r.venueId != routes[k].venueId)
  {
    var bumped := Bump(routes, k, extra);
    forall i | 0 <= i < |bumped| && i != k ensures bumped[i] == routes[i] && routes[i].venueId != routes[k].venueId {
      if i < k {
        OneEntry(routes, i, k);
      } else {
        OneEntry(routes, k, i);
      }
    }
    hide DistinctVenues;
  }

  /** Giving a largest entry more keeps both. */
  lemma BumpFollows(routes: seq<Allotment>, base: seq<Allotment>, k: nat, extra: nat)
    requires Follows(routes, base) && TopOnly(routes, base)
    requires Largest(routes, k) && 0 < extra && DistinctVenues(routes)
    ensures Follows(Bump(routes, k, extra), base) && TopOnly(Bump(routes, k, extra), base)
  {
    BumpOthers(routes, k, extra);
    assert routes[k] in routes;
    hide Bump, Has, Consumed, Expected, DistinctVenues;
  }

  lemma {:induction false} PayingMembers(routes: seq<Allotment>)
    ensures forall r :: r in Paying(routes) <==> r in routes && 0 < r.expectedOut
  {
    if routes != [] {
      PayingMembers(routes[1..]);
      assert routes == [routes[0]] + routes[1..];
    }
  }

  lemma {:induction false} BumpExpected(routes: seq<Allotment>, k: nat, extra: int, v: nat)
    requires k < |routes|
    ensures Expected(Bump(routes, k, extra), v) == Expected(routes, v)
  {
    var bumped := Bump(routes, k, extra);
    if k == 0 {
      assert bumped[1..] == routes[1..];
    } else {
      assert bumped[1..] == Bump(routes[1..], k - 1, extra);
      BumpExpected(routes[1..], k - 1, extra, v);
    }
  }

  /** Every venue expected to pay has an entry. */
  ghost predicate KeepsPayers(routes: seq<Allotment>, base: seq<Allotment>) {
    forall v: nat :: Has(base, v) && 0 < Expected(base, v) ==> Has(routes, v)
  }

  lemma SettledFollows(a: Allocation, routes: seq<Allotment>)
    requires Settled(a, routes) && DistinctVenues(a.routes)
    ensures DistinctVenues(routes) && Follows(routes, a.routes) && TopOnly(routes, a.routes)
    ensures KeepsPayers(routes, a.routes) && forall r <- routes :: 0 < r.expectedOut
  {
    FollowsItself(a.routes);
    var full := a.routes;
    if 0 < a.remaining && a.routes != [] {
      var k: nat :| Largest(a.routes, k) && routes == Paying(Bump(a.routes, k, a.remaining));
      full := Bump(a.routes, k, a.remaining);
      BumpFollows(a.routes, a.routes, k, a.remaining);
      BumpKeepsDistinct(a.routes, k, a.remaining);
      forall v: nat ensures Has(full, v) == Has(a.routes, v) && Expected(full, v) == Expected(a.routes, v) {
        BumpHas(a.routes, k, a.remaining, v);
        BumpExpected(a.routes, k, a.remaining, v);
      }
    }
    PayingMembers(full);
    PayingKeepsDistinct(full);
    hide Bump, Paying, DistinctVenues, Largest, Settled, Consumed;
    forall v: nat | Has(full, v) && 0 < Expected(full, v) ensures Has(routes, v) {
      var r := EntryOf(full, v);
      HasMember(routes, r);
    }
  }

  /** A computed route has exactly the venues its greedy allocation expects to pay, each at
      that expectation and for at least that amount; and only one larger than all others
      takes more than was allocated. */
  lemma RouteFollowsAllocation(all: seq<Tranche>, amountIn: nat, segments: seq<Allotment>, spots: map<nat, Spot>)
    requires Computed(all, amountIn, segments)
    requires forall t <- all :: Sane(t) && t.venueId in spots && WithinSpot(t, spots[t.venueId])
    ensures var base := Greedy(all, amountIn);
            && Follows(segments, base) && TopOnly(segments, base) && KeepsPayers(segments, base)
            && forall r <- segments :: 0 < r.expectedOut
  {
    var start := Allocation(amountIn, []);
    var a := Allocate(start, Rank(all));
    var routes :| Settled(a, routes) && Conserved(routes, amountIn, segments);
    RankMembers(all);
    hide Rank, Allocate, Sane, WithinSpot, Fair, Settled, Fills, Got;
    NothingIn();
    AllocateSound(start, Rank(all), spots);
    SettledSound(a, amountIn, routes, spots);
    SettledFollows(a, routes);
    hide DistinctVenues, TotalIn, TotalOut, Follows, TopOnly, Bump, Largest, Has, Expected;
    if routes != [] && TotalIn(routes) != amountIn {
      var k: nat :| FirstLargest(routes, k) && segments == Bump(routes, k, amountIn - TotalIn(routes));
      BumpFollows(routes, a.routes, k, amountIn - TotalIn(routes));
      forall v: nat ensures Has(segments, v) == Has(routes, v) {
        BumpHas(routes, k, amountIn - TotalIn(routes), v);
      }
      BumpPays(routes, k, amountIn - TotalIn(routes));
    }
  }

  lemma BumpPays(routes: seq<Allotment>, k: nat, extra: nat)
    requires k < |routes| && forall r <- routes :: 0 < r.expectedOut
    ensures forall r <- Bump(routes, k, extra) :: 0 < r.expectedOut
  {
    assert routes[k] in routes;
    BumpMembers(routes, k, extra);
  }

  // ─── Against the venues' own quotes ─────────────────

  /** A venue's keys ascend along its ladder, so ranking does not reorder it. */
  ghost predicate KeysAscendFor(all: seq<Tranche>, v: nat) {
    Ranked(Of(v, all))
  }

  lemma {:induction false} FlattenOf(probes: seq<Probe>, levels: seq<int>, p: Probe)
    requires Probed(probes, levels) && OnePerVenue(probes) && p in probes && Positive(levels)
    ensures Of(p.venueId, Flatten(probes, levels)) == Of(p.venueId, Ladder(p.venueId, p.quotes, levels))
  {
    var head, tail, v := probes[0], probes[1..], p.venueId;
    assert head in probes && forall q <- tail :: q in probes;
    var ladder := Ladder(head.venueId, head.quotes, levels);
    hide Ladder, Of, Ascending, SpotOf, Sane, WithinSpot;
    OfAppend(v, ladder, Flatten(tail, levels));
    LadderSound(head.venueId, head.quotes, levels);
    if head == p {
      FlattenVenues(tail, levels);
      OfStranger(v, Flatten(tail, levels));
      assert Of(v, ladder) + [] == Of(v, ladder);
    } else {
      OfStranger(v, ladder);
      FlattenOf(tail, levels, p);
      assert [] + Of(v, Flatten(tail, levels)) == Of(v, Flatten(tail, levels));
    }
  }

  /** A ladder's tranches up to a good level end there, and expect at most its quote. */
  lemma LadderAtLevel(p: Probe, levels: seq<int>, j: nat) returns (n: nat)
    requires j < |p.quotes| <= |levels| && Positive(levels) && 0 < p.quotes[j]
    ensures var l := Of(p.venueId, Ladder(p.venueId, p.quotes, levels));
            && n <= |l| && End(l[..n], 0) == levels[j] && SumOut(l[..n]) <= p.quotes[j]
            && (GainsWithinFirst(p.quotes, levels, j + 1) ==> SumOut(l[..n]) == p.quotes[j])
  {
    var v, ladder := p.venueId, Ladder(p.venueId, p.quotes, levels);
    var pre := Of(v, ladder[..j + 1]);
    assert ladder == ladder[..j + 1] + ladder[j + 1..];
    OfAppend(v, ladder[..j + 1], ladder[j + 1..]);
    n := |pre|;
    assert Of(v, ladder)[..n] == pre;
    LadderChained(v, p.quotes, levels, j + 1);
    LadderPaysQuotes(v, p.quotes, levels, j + 1);
    assert LastGood(p.quotes, j + 1) == j;
  }

  lemma UsableAmounts(v: nat, s: seq<Tranche>)
    requires forall t <- s :: Sane(t)
    ensures forall t <- Of(v, s) :: t.from < t.to
  {
    OfUsable(v, s);
  }

  /** Where a venue's keys ascend, filling it exactly to a probed level that answered never
      expects more than the venue's own quote there; and exactly that quote if no gain on
      the way beats its first good rate. */
  lemma VenueWithinQuote(probes: seq<Probe>, levels: seq<int>, amountIn: nat, p: Probe, j: nat)
    requires Probed(probes, levels) && OnePerVenue(probes) && Positive(levels) && p in probes
    requires KeysAscendFor(Flatten(probes, levels), p.venueId)
    requires j < |p.quotes| && 0 < p.quotes[j]
    requires Consumed(Greedy(Flatten(probes, levels), amountIn), p.venueId) == levels[j]
    ensures var gained := Expected(Greedy(Flatten(probes, levels), amountIn), p.venueId);
            && gained <= p.quotes[j]
            && (GainsWithinFirst(p.quotes, levels, j + 1) ==> gained == p.quotes[j])
  {
    assert |p.quotes| <= |levels|;
    hide *;
    var all, v := Flatten(probes, levels), p.venueId;
    SaneLadders(probes, levels);
    FlattenChained(probes, levels, v);
    FlattenOf(probes, levels, p);
    UsableAmounts(v, all);
    var k := GreedyFills(all, amountIn, v);
    var n := LadderAtLevel(p, levels, j);
    FilledToEnd(Of(v, all), 0, k, levels[j], Expected(Greedy(all, amountIn), v), n);
  }

  lemma SaneLadders(probes: seq<Probe>, levels: seq<int>)
    requires Probed(probes, levels) && OnePerVenue(probes) && Positive(levels)
    ensures forall t <- Flatten(probes, levels) :: Sane(t)
  {
    hide Flatten, Sane, WithinSpot;
    FlattenSound(probes, levels);
  }

  /** Where its keys ascend, the greedy loop fills a venue along its own ladder. */
  lemma GreedyFills(all: seq<Tranche>, amountIn: nat, v: nat) returns (k: nat)
    requires (forall t <- all :: Sane(t)) && KeysAscendFor(all, v) && Chained(Of(v, all), 0)
    ensures k <= |Of(v, all)|
    ensures FilledTo(Of(v, all), 0, k, Consumed(Greedy(all, amountIn), v), Expected(Greedy(all, amountIn), v))
  {
    hide Sane, Of, Chained, Rank, Allocate, FilledTo, Consumed, Expected, Ranked;
    RankMembers(all);
    RankFixed(Of(v, all));
    RankOf(v, all);
    NothingConsumed(v);
    k := VenueFilled(Allocation(amountIn, []), Rank(all), v);
  }

  lemma NothingConsumed(v: nat)
    ensures Consumed([], v) == 0 && Expected([], v) == 0
  {
  }

  /** So a segment the greedy loop filled to a probed level, on a venue whose keys ascend,
      is expected to pay at most what the venue itself answered there. */
  lemma SegmentWithinQuote(probes: seq<Probe>, scale: pos, amountIn: pos, segments: seq<Allotment>, r: Allotment,
                           p: Probe, j: nat)
    requires Probed(probes, DepthLevels(scale, amountIn)) && OnePerVenue(probes) && p in probes
    requires Computed(Flatten(probes, DepthLevels(scale, amountIn)), amountIn, segments)
    requires r in segments && r.venueId == p.venueId && j < |p.quotes| && 0 < p.quotes[j]
    requires var all := Flatten(probes, DepthLevels(scale, amountIn));
             && KeysAscendFor(all, p.venueId)
             && Consumed(Greedy(all, amountIn), p.venueId) == DepthLevels(scale, amountIn)[j]
    ensures r.expectedOut <= p.quotes[j]
    ensures GainsWithinFirst(p.quotes, DepthLevels(scale, amountIn), j + 1) ==> r.expectedOut == p.quotes[j]
  {
    var levels := DepthLevels(scale, amountIn);
    LevelsSound(scale, amountIn);
    hide DepthLevels, Flatten, Spots, Sane, WithinSpot, Computed, Greedy, Consumed, Expected, TopOnly, KeepsPayers;
    FlattenSound(probes, levels);
    RouteFollowsAllocation(Flatten(probes, levels), amountIn, segments, Spots(probes, levels));
    VenueWithinQuote(probes, levels, amountIn, p, j);
  }

  const UnorderedQuotes: seq<int> := [100, 300, 750]
  const UnorderedLevels: seq<int> := [100, 500, 1000]
  const First: Tranche := Tranche(7, 0, 100, 100, Bps(0), 100)
  const Second: Tranche := Tranche(7, 100, 500, 400, Bps(5000), 200)
  const Third: Tranche := Tranche(7, 500, 1000, 500, Bps(1000), 450)

  lemma UnorderedLadder()
    ensures Ladder(7, UnorderedQuotes, UnorderedLevels) == [First, Second, Third]
  {
    var quotes, levels := UnorderedQuotes, UnorderedLevels;
    assert FirstGood(quotes) == 0 && SpotOf(quotes, levels) == Spot(100, 100);
    assert LastGood(quotes, 0) == -1 && LastGood(quotes, 1) == 0 && LastGood(quotes, 2) == 1;
    hide FirstGood, LastGood, SpotOf;
    assert TrancheAt(7, quotes, levels, 0) == First;
    assert TrancheAt(7, quotes, levels, 1) == Second;
    assert TrancheAt(7, quotes, levels, 2) == Third;
  }

  lemma UnorderedGreedy()
    ensures Greedy([First, Second, Third], 500) == [Allotment(7, 500, 460)]
  {
    var a0 := Allocation(500, []);
    var a1 := Allocation(400, [Allotment(7, 100, 100)]);
    var a2 := Allocation(0, [Allotment(7, 500, 460)]);
    RankThree(First, Second, Third);
    assert Take(a0, First) == a1;
    assert Share(Third, 400) == 360;
    assert Take(a1, Third) == a2 && Take(a2, Second) == a2;
    hide Take, Rank;
    assert [First, Third, Second][1..] == [Third, Second] && [Third, Second][1..] == [Second] && [Second][1..] == [];
    assert Allocate(a2, [Second]) == a2;
    assert Allocate(a1, [Third, Second]) == a2;
    assert Allocate(a0, [First, Third, Second]) == a2;
  }

  /** Where keys do not ascend this fails: the loop takes a deep cheap tranche before the
      dearer one below it, and expects a rate the venue does not pay at that size. */
  lemma UnorderedLadderCanOverExpect()
    ensures exists quotes: seq<int>, levels: seq<int> ::
              && Positive(levels) && |quotes| == |levels| == 3 && (forall q <- quotes :: 0 < q)
              && Consumed(Greedy(Ladder(7, quotes, levels), levels[1]), 7) == levels[1]
              && quotes[1] < Expected(Greedy(Ladder(7, quotes, levels), levels[1]), 7)
  {
    hide Ladder, Greedy;
    UnorderedLadder();
    UnorderedGreedy();
    assert Positive(UnorderedLevels) && forall q <- UnorderedQuotes :: 0 < q;
    assert Consumed(Greedy(Ladder(7, UnorderedQuotes, UnorderedLevels), UnorderedLevels[1]), 7) == 500;
  }

  lemma RankThree(x: Tranche, y: Tranche, z: Tranche)
    requires x.key.Bps? && y.key.Bps? && z.key.Bps? && x.key.n < z.key.n < y.key.n
    ensures Rank([x, y, z]) == [x, z, y]
  {
    assert [x, y, z][1..] == [y, z] && [y, z][1..] == [z] && [z][1..] == [];
    assert Rank([]) == [] && Rank([z]) == [z];
    assert Insert(y, [z]) == [z] + Insert(y, []) == [z, y];
    assert Rank([y, z]) == [z, y];
    assert Insert(x, [z, y]) == [x, z, y];
  }
}
