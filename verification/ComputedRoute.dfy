/** A whole route computation: depth levels, ladders from arbitrary venue answers, the
    greedy loop, and the conservation step. Routes are always executable, and near
    optimal when venues are concave. */
module ComputedRoute {
  import opened Results
  import opened MulDiv
  import opened Tranches
  import opened Engine
  import opened NearOptimal
  import Venues
  import TwapBook
  import Keeper

  // ─── Depth levels ───────────────────────────────────

  const DEPTH_LEVELS: seq<int> := [
    100_0000000, 1_000_0000000, 5_000_0000000, 10_000_0000000,
    25_000_0000000, 50_000_0000000, 100_000_0000000, 500_000_0000000
  ]

  /** Levels rescaled to the input token, up to twice the amount. */
  function Within(levels: seq<int>, scale: pos, amountIn: int): seq<int> {
    if levels == [] then []
    else (if levels[0] * scale <= amountIn * 2 then [levels[0] * scale] else []) + Within(levels[1..], scale, amountIn)
  }

  function InsertLevel(level: int, levels: seq<int>): seq<int> {
    if levels == [] || level < levels[0] then [level] + levels else [levels[0]] + InsertLevel(level, levels[1..])
  }

  function DepthLevels(scale: pos, amountIn: int): seq<int> {
    var levels := Within(DEPTH_LEVELS, scale, amountIn);
    if amountIn in levels then levels else InsertLevel(amountIn, levels)
  }

  predicate Positive(levels: seq<int>) {
    Ascending(levels) && (levels != [] ==> 0 < levels[0])
  }

  /** Levels from `low` up, strictly ascending. */
  predicate Climbs(levels: seq<int>, low: int) {
    levels == [] || (low < levels[0] && Climbs(levels[1..], levels[0]))
  }

  lemma {:induction false} ClimbsAscending(levels: seq<int>, low: int)
    requires Climbs(levels, low)
    ensures Ascending(levels) && forall l <- levels :: low < l
  {
    if levels != [] {
      ClimbsAscending(levels[1..], levels[0]);
      assert levels == [levels[0]] + levels[1..];
    }
  }

  lemma {:induction false} ClimbsLower(levels: seq<int>, low: int, lower: int)
    requires Climbs(levels, low) && lower <= low
    ensures Climbs(levels, lower)
  {
  }

  lemma {:induction false} WithinClimbs(levels: seq<int>, low: int, scale: pos, amountIn: int)
    requires Climbs(levels, low)
    ensures Climbs(Within(levels, scale, amountIn), low * scale)
    ensures forall l <- Within(levels, scale, amountIn) :: l <= amountIn * 2
  {
    if levels != [] {
      WithinClimbs(levels[1..], levels[0], scale, amountIn);
      var tail := Within(levels[1..], scale, amountIn);
      assert low * scale < levels[0] * scale;
      ClimbsLower(tail, levels[0] * scale, low * scale);
      assert ([levels[0] * scale] + tail)[1..] == tail;
      assert [] + tail == tail;
    }
  }

  lemma {:induction false} InsertClimbs(level: int, levels: seq<int>, low: int)
    requires Climbs(levels, low) && low < level && level !in levels
    ensures Climbs(InsertLevel(level, levels), low) && level in InsertLevel(level, levels)
    ensures forall l <- InsertLevel(level, levels) :: l == level || l in levels
  {
    if levels == [] || level < levels[0] {
      assert ([level] + levels)[1..] == levels;
    } else {
      InsertClimbs(level, levels[1..], levels[0]);
      assert ([levels[0]] + InsertLevel(level, levels[1..]))[1..] == InsertLevel(level, levels[1..]);
    }
  }

  /** The probed levels are positive, strictly ascending, at most twice the amount, and
      include the amount itself. */
  lemma LevelsSound(scale: pos, amountIn: pos)
    ensures var levels := DepthLevels(scale, amountIn);
            && Positive(levels) && amountIn in levels && forall l <- levels :: 0 < l <= amountIn * 2
  {
    var levels := Within(DEPTH_LEVELS, scale, amountIn);
    WithinClimbs(DEPTH_LEVELS, 0, scale, amountIn);
    ClimbsAscending(levels, 0);
    if amountIn !in levels {
      InsertClimbs(amountIn, levels, 0);
      ClimbsAscending(InsertLevel(amountIn, levels), 0);
    }
  }

  /** A standard depth, rescaled, up to twice the amount. */
  predicate Standard(levels: seq<int>, scale: pos, amountIn: int, l: int) {
    exists d <- levels :: l == d * scale && l <= amountIn * 2
  }

  lemma {:induction false} WithinMember(levels: seq<int>, scale: pos, amountIn: int, l: int)
    ensures l in Within(levels, scale, amountIn) <==> Standard(levels, scale, amountIn, l)
  {
    if levels != [] {
      WithinMember(levels[1..], scale, amountIn, l);
      assert levels == [levels[0]] + levels[1..];
      assert levels[0] in levels && forall d <- levels[1..] :: d in levels;
      if Standard(levels, scale, amountIn, l) {
        var d :| d in levels && l == d * scale && l <= amountIn * 2;
        assert d == levels[0] || d in levels[1..];
      }
    }
  }

  lemma {:induction false} InsertLevelMembers(level: int, levels: seq<int>)
    ensures forall l :: l in InsertLevel(level, levels) <==> l == level || l in levels
  {
    if !(levels == [] || level < levels[0]) {
      InsertLevelMembers(level, levels[1..]);
      assert levels == [levels[0]] + levels[1..];
    }
  }

  /** They are the amount and every standard depth within twice it. */
  lemma LevelsExact(scale: pos, amountIn: pos)
    ensures forall l :: l in DepthLevels(scale, amountIn)
                        <==> l == amountIn || Standard(DEPTH_LEVELS, scale, amountIn, l)
  {
    forall l ensures l in Within(DEPTH_LEVELS, scale, amountIn) <==> Standard(DEPTH_LEVELS, scale, amountIn, l) {
      WithinMember(DEPTH_LEVELS, scale, amountIn, l);
    }
    InsertLevelMembers(amountIn, Within(DEPTH_LEVELS, scale, amountIn));
    hide Within, Standard, InsertLevel;
  }

  // ─── All venues' ladders ────────────────────────────

  /** One venue's answers, level by level; zero where the quote failed. */
  datatype Probe = Probe(venueId: nat, quotes: seq<int>)

  predicate Probed(probes: seq<Probe>, levels: seq<int>) {
    forall p <- probes :: |p.quotes| <= |levels|
  }

  predicate Unlisted(v: nat, probes: seq<Probe>) {
    forall p <- probes :: p.venueId != v
  }

  /** The registry holds one adapter per venue id. */
  predicate OnePerVenue(probes: seq<Probe>) {
    probes == [] || (Unlisted(probes[0].venueId, probes[1..]) && OnePerVenue(probes[1..]))
  }

  function Flatten(probes: seq<Probe>, levels: seq<int>): seq<Tranche>
    requires Probed(probes, levels)
  {
    if probes == [] then []
    else Ladder(probes[0].venueId, probes[0].quotes, levels) + Flatten(probes[1..], levels)
  }

  /** Each venue's smallest-probe rate. */
  function Spots(probes: seq<Probe>, levels: seq<int>): map<nat, Spot>
    requires Probed(probes, levels)
  {
    if probes == [] then map[]
    else Spots(probes[1..], levels)[probes[0].venueId := SpotOf(probes[0].quotes, levels)]
  }

  lemma {:induction false} SpotsListed(probes: seq<Probe>, levels: seq<int>)
    requires Probed(probes, levels)
    ensures forall v <- Spots(probes, levels) :: !Unlisted(v, probes)
  {
    if probes != [] {
      SpotsListed(probes[1..], levels);
      assert probes[0] in probes && forall p <- probes[1..] :: p in probes;
    }
  }

  lemma {:induction false} FlattenSound(probes: seq<Probe>, levels: seq<int>)
    requires Probed(probes, levels) && Positive(levels) && OnePerVenue(probes)
    ensures var spots := Spots(probes, levels);
            forall t <- Flatten(probes, levels) :: Sane(t) && t.venueId in spots && WithinSpot(t, spots[t.venueId])
  {
    hide SpotOf, Ladder, Sane, WithinSpot;
    if probes != [] {
      var p, tail := probes[0], probes[1..];
      assert p in probes && forall q <- tail :: q in probes;
      LadderSound(p.venueId, p.quotes, levels);
      FlattenSound(tail, levels);
      SpotsListed(tail, levels);
    }
  }

  lemma {:induction false} OfStranger(v: nat, s: seq<Tranche>)
    requires forall t <- s :: t.venueId != v
    ensures Of(v, s) == []
  {
    if s != [] {
      assert s[0] in s && forall t <- s[1..] :: t in s;
      OfStranger(v, s[1..]);
    }
  }

  lemma {:induction false} FlattenVenues(probes: seq<Probe>, levels: seq<int>)
    requires Probed(probes, levels)
    ensures forall t <- Flatten(probes, levels) :: !Unlisted(t.venueId, probes)
  {
    if probes != [] {
      FlattenVenues(probes[1..], levels);
      assert probes[0] in probes && forall p <- probes[1..] :: p in probes;
      forall t | t in Ladder(probes[0].venueId, probes[0].quotes, levels) ensures t.venueId == probes[0].venueId {
      }
    }
  }

  /** Each venue's usable tranches are laid end to end from zero. */
  lemma {:induction false} FlattenChained(probes: seq<Probe>, levels: seq<int>, v: nat)
    requires Probed(probes, levels) && Positive(levels) && OnePerVenue(probes)
    ensures Chained(Of(v, Flatten(probes, levels)), 0)
  {
    if probes != [] {
      hide Chained, Ladder, Of, SpotOf, LastGood, End, Sane, WithinSpot, Ascending;
      var p, tail := probes[0], probes[1..];
      assert p in probes && forall q <- tail :: q in probes;
      var ladder := Ladder(p.venueId, p.quotes, levels);
      OfAppend(v, ladder, Flatten(tail, levels));
      LadderSound(p.venueId, p.quotes, levels);
      if p.venueId == v {
        LadderChained(v, p.quotes, levels, |p.quotes|);
        assert ladder[..|p.quotes|] == ladder && Of(v, ladder) + [] == Of(v, ladder);
        FlattenVenues(tail, levels);
        OfStranger(v, Flatten(tail, levels));
      } else {
        OfStranger(v, ladder);
        FlattenChained(tail, levels, v);
        assert [] + Of(v, Flatten(tail, levels)) == Of(v, Flatten(tail, levels));
      }
    }
  }

  // ─── The greedy loop ────────────────────────────────

  predicate Largest(routes: seq<Allotment>, k: nat) {
    k < |routes| && forall r <- routes :: r.amountIn <= routes[k].amountIn
  }

  /** Give one entry a further amount, its expected output unchanged. */
  function Bump(routes: seq<Allotment>, k: nat, extra: int): seq<Allotment>
    requires k < |routes|
  {
    routes[k := routes[k].(amountIn := routes[k].amountIn + extra)]
  }

  /** Entries that pay nothing are dropped. */
  function Paying(routes: seq<Allotment>): seq<Allotment> {
    if routes == [] then []
    else if 0 < routes[0].expectedOut then [routes[0]] + Paying(routes[1..])
    else Paying(routes[1..])
  }

  /** How an allocation becomes a route: what could not be allocated goes to one of the
      venues allocated most (which of several equals is up to the sort), then the
      venues that pay nothing are dropped. */
  ghost predicate Settled(a: Allocation, routes: seq<Allotment>) {
    if 0 < a.remaining && a.routes != []
    then exists k: nat :: Largest(a.routes, k) && routes == Paying(Bump(a.routes, k, a.remaining))
    else routes == Paying(a.routes)
  }

  lemma {:induction false} LargestExists(routes: seq<Allotment>)
    requires routes != []
    ensures exists k: nat :: Largest(routes, k)
  {
    if |routes| == 1 {
      assert Largest(routes, 0);
    } else {
      var front := routes[..|routes| - 1];
      assert routes == front + [routes[|front|]];
      LargestExists(front);
      var k: nat :| Largest(front, k);
      assert Largest(routes, if routes[k].amountIn < routes[|front|].amountIn then |front| else k);
    }
  }

  /** greedyAllocate. */
  method GreedyAllocate(all: seq<Tranche>, total: int) returns (routes: seq<Allotment>)
    ensures Settled(Allocate(Allocation(total, []), Rank(all)), routes)
  {
    hide Rank, Paying, Bump;
    var order := Rank(all);
    var a := Loop(order, total);
    routes := a.routes;
    if 0 < a.remaining && routes != [] {
      LargestExists(routes);
      var k: nat :| k < |routes| && Largest(routes, k);
      routes := Bump(routes, k, a.remaining);
    }
    routes := KeepPaying(routes);
  }

  method Loop(order: seq<Tranche>, total: int) returns (a: Allocation)
    ensures a == Allocate(Allocation(total, []), order)
  {
    hide Add, Share;
    var remaining := total;
    var routes: seq<Allotment> := [];
    var consumed: map<nat, int> := map[];
    var i := 0;
    while i < |order| && 0 < remaining
      invariant i <= |order|
      invariant Books(consumed, routes)
      invariant Allocate(Allocation(remaining, routes), order[i..]) == Allocate(Allocation(total, []), order)
    {
      var t := order[i];
      ghost var before := Allocation(remaining, routes);
      assert order[i..][1..] == order[i + 1..];
      i := i + 1;
      if t.key.Unbounded? { continue; }
      var used := if t.venueId in consumed then consumed[t.venueId] else 0;
      if t.to <= used { continue; }
      var available := t.to - if t.from < used then used else t.from;
      var fill := if remaining < available then remaining else available;
      if fill <= 0 { continue; }
      AddEffects(routes, t.venueId, fill, Share(t, fill));
      routes := Add(routes, t.venueId, fill, Share(t, fill));
      consumed := consumed[t.venueId := used + fill];
      remaining := remaining - fill;
      assert Take(before, t) == Allocation(remaining, routes);
    }
    a := Allocation(remaining, routes);
    if i < |order| {
      NothingLeft(a, order[i..]);
    } else {
      assert order[i..] == [];
    }
  }

  /** The consumed map agrees with the allocation. */
  ghost predicate Books(consumed: map<nat, int>, routes: seq<Allotment>) {
    forall v: nat :: Consumed(routes, v) == if v in consumed then consumed[v] else 0
  }

  method KeepPaying(routes: seq<Allotment>) returns (kept: seq<Allotment>)
    ensures kept == Paying(routes)
  {
    kept := [];
    for i := 0 to |routes|
      invariant kept + Paying(routes[i..]) == Paying(routes)
    {
      assert routes[i..][1..] == routes[i + 1..];
      if 0 < routes[i].expectedOut {
        kept := kept + [routes[i]];
      }
    }
  }

  // ─── Conservation and minimums ──────────────────────

  /** The first of the largest entries. */
  predicate FirstLargest(routes: seq<Allotment>, k: nat) {
    Largest(routes, k) && forall j :: 0 <= j < k ==> routes[j].amountIn < routes[k].amountIn
  }

  /** Whatever the route is short of the amount goes to its first largest entry. */
  ghost predicate Conserved(routes: seq<Allotment>, amountIn: int, segments: seq<Allotment>) {
    if routes == [] || TotalIn(routes) == amountIn then segments == routes
    else exists k: nat :: FirstLargest(routes, k) && segments == Bump(routes, k, amountIn - TotalIn(routes))
  }

  /** computeRoute's segments for some ladders. */
  ghost predicate Computed(all: seq<Tranche>, amountIn: int, segments: seq<Allotment>) {
    exists routes ::
      Settled(Allocate(Allocation(amountIn, []), Rank(all)), routes) && Conserved(routes, amountIn, segments)
  }

  method ComputeSegments(all: seq<Tranche>, amountIn: int) returns (segments: seq<Allotment>)
    ensures Computed(all, amountIn, segments)
  {
    var routes := GreedyAllocate(all, amountIn);
    segments := routes;
    if routes != [] {
      var placed := 0;
      for i := 0 to |routes|
        invariant placed + TotalIn(routes[i..]) == TotalIn(routes)
      {
        assert routes[i..][1..] == routes[i + 1..];
        placed := placed + routes[i].amountIn;
      }
      if placed != amountIn {
        var k := 0;
        for i := 1 to |routes|
          invariant k < |routes| && forall j :: 0 <= j < i ==> routes[j].amountIn <= routes[k].amountIn
          invariant forall j :: 0 <= j < k ==> routes[j].amountIn < routes[k].amountIn
        {
          if routes[k].amountIn < routes[i].amountIn {
            k := i;
          }
        }
        assert FirstLargest(routes, k);
        segments := Bump(routes, k, amountIn - placed);
      }
    }
  }

  /** The on-chain instructions: each leg's minimum is its expected output less the
      slippage. */
  function Instructions(segments: seq<Allotment>, slippageBps: int): seq<Venues.Segment> {
    if segments == [] then []
    else [Venues.Segment(segments[0].venueId, segments[0].amountIn,
                         Trunc(segments[0].expectedOut * (BPS - slippageBps), BPS))]
         + Instructions(segments[1..], slippageBps)
  }

  // ─── Every route is executable ──────────────────────

  lemma {:induction false} PayingKeeps(routes: seq<Allotment>)
    requires forall r <- routes :: 0 < r.amountIn
    ensures forall r <- Paying(routes) :: r in routes && 0 < r.expectedOut
    ensures TotalIn(Paying(routes)) <= TotalIn(routes) && TotalOut(routes) <= TotalOut(Paying(routes))
  {
    if routes != [] {
      var head, tail := routes[0], routes[1..];
      assert head in routes && forall r <- tail :: r in routes;
      PayingKeeps(tail);
      assert ([head] + Paying(tail))[1..] == Paying(tail);
    }
  }

  lemma {:induction false} PayingHas(routes: seq<Allotment>, u: nat)
    ensures Has(Paying(routes), u) ==> Has(routes, u)
  {
    if routes != [] {
      PayingHas(routes[1..], u);
      assert ([routes[0]] + Paying(routes[1..]))[1..] == Paying(routes[1..]);
    }
  }

  lemma {:induction false} PayingKeepsDistinct(routes: seq<Allotment>)
    requires DistinctVenues(routes)
    ensures DistinctVenues(Paying(routes))
  {
    if routes != [] {
      PayingKeepsDistinct(routes[1..]);
      PayingHas(routes[1..], routes[0].venueId);
      assert ([routes[0]] + Paying(routes[1..]))[1..] == Paying(routes[1..]);
    }
  }

  lemma {:induction false} BumpHas(routes: seq<Allotment>, k: nat, extra: int, u: nat)
    requires k < |routes|
    ensures Has(Bump(routes, k, extra), u) <==> Has(routes, u)
  {
    var bumped := Bump(routes, k, extra);
    if k == 0 {
      assert bumped[1..] == routes[1..];
    } else {
      assert bumped[1..] == Bump(routes[1..], k - 1, extra);
      BumpHas(routes[1..], k - 1, extra, u);
    }
  }

  lemma {:induction false} BumpKeepsDistinct(routes: seq<Allotment>, k: nat, extra: int)
    requires k < |routes| && DistinctVenues(routes)
    ensures DistinctVenues(Bump(routes, k, extra))
  {
    var bumped := Bump(routes, k, extra);
    if k == 0 {
      assert bumped[1..] == routes[1..];
    } else {
      assert bumped[1..] == Bump(routes[1..], k - 1, extra);
      BumpKeepsDistinct(routes[1..], k - 1, extra);
      BumpHas(routes[1..], k - 1, extra, routes[0].venueId);
    }
  }

  lemma {:induction false} BumpTotals(routes: seq<Allotment>, k: nat, extra: int)
    requires k < |routes|
    ensures TotalIn(Bump(routes, k, extra)) == TotalIn(routes) + extra
    ensures TotalOut(Bump(routes, k, extra)) == TotalOut(routes)
  {
    var bumped := Bump(routes, k, extra);
    if k == 0 {
      assert bumped[1..] == routes[1..];
    } else {
      assert bumped[1..] == Bump(routes[1..], k - 1, extra);
      BumpTotals(routes[1..], k - 1, extra);
    }
  }

  lemma BumpMembers(routes: seq<Allotment>, k: nat, extra: int)
    requires k < |routes|
    ensures forall x <- Bump(routes, k, extra) :: x == Bump(routes, k, extra)[k] || x in routes
  {
    var bumped := Bump(routes, k, extra);
    forall i | 0 <= i < |bumped| ensures bumped[i] == bumped[k] || bumped[i] in routes {
      assert i != k ==> bumped[i] == routes[i];
    }
  }

  lemma BumpIsFair(r: Allotment, extra: nat, spots: map<nat, Spot>)
    requires Fair(spots, r)
    ensures Fair(spots, r.(amountIn := r.amountIn + extra))
  {
    SumIsFair(spots[r.venueId], r.amountIn, r.expectedOut, extra, 0);
  }

  lemma BumpKeeps(routes: seq<Allotment>, k: nat, extra: nat, spots: map<nat, Spot>)
    requires k < |routes| && DistinctVenues(routes) && forall r <- routes :: Fair(spots, r)
    ensures var bumped := Bump(routes, k, extra);
            DistinctVenues(bumped) && (forall r <- bumped :: Fair(spots, r))
            && ((forall r <- routes :: 0 < r.expectedOut) ==> forall r <- bumped :: 0 < r.expectedOut)
  {
    hide DistinctVenues, Fair;
    assert routes[k] in routes;
    assert Bump(routes, k, extra)[k] == routes[k].(amountIn := routes[k].amountIn + extra);
    BumpKeepsDistinct(routes, k, extra);
    BumpMembers(routes, k, extra);
    BumpIsFair(routes[k], extra, spots);
    hide Bump;
  }

  lemma {:induction false} RouteIsSound(all: seq<Tranche>, amountIn: int, segments: seq<Allotment>,
                                        spots: map<nat, Spot>)
    requires Computed(all, amountIn, segments)
    requires forall t <- all :: Sane(t) && t.venueId in spots && WithinSpot(t, spots[t.venueId])
    ensures segments != [] ==> TotalIn(segments) == amountIn
    ensures DistinctVenues(segments) && forall r <- segments :: Fair(spots, r) && 0 < r.expectedOut
    ensures 0 <= amountIn ==> TotalOut(Allocate(Allocation(amountIn, []), Rank(all)).routes) <= TotalOut(segments)
  {
    var a := Allocate(Allocation(amountIn, []), Rank(all));
    var routes :| Settled(a, routes) && Conserved(routes, amountIn, segments);
    if amountIn < 0 {
      NothingLeft(Allocation(amountIn, []), Rank(all));
    } else {
      RankMembers(all);
      hide Rank, Fair, Sane, WithinSpot, DistinctVenues, TotalIn, TotalOut, Allocate, Largest, Bump, Paying, Fills,
           Got, Consumed, Add;
      NothingIn();
      AllocateSound(Allocation(amountIn, []), Rank(all), spots);
      SettledSound(a, amountIn, routes, spots);
      ConservedSound(routes, amountIn, segments, spots);
    }
  }

  lemma NothingIn()
    ensures TotalIn([]) == 0 && TotalOut([]) == 0 && DistinctVenues([])
  {
  }

  lemma FairIsPositive(routes: seq<Allotment>, spots: map<nat, Spot>)
    requires forall r <- routes :: Fair(spots, r)
    ensures forall r <- routes :: 0 < r.amountIn
  {
  }

  lemma SettledSound(a: Allocation, amountIn: int, routes: seq<Allotment>, spots: map<nat, Spot>)
    requires Settled(a, routes) && 0 <= a.remaining && a.remaining + TotalIn(a.routes) == amountIn
    requires DistinctVenues(a.routes) && forall r <- a.routes :: Fair(spots, r)
    ensures DistinctVenues(routes) && forall r <- routes :: Fair(spots, r) && 0 < r.expectedOut
    ensures TotalIn(routes) <= amountIn && TotalOut(a.routes) <= TotalOut(routes)
  {
    hide Fair, DistinctVenues, TotalIn, TotalOut, Bump, Paying;
    if 0 < a.remaining && a.routes != [] {
      var k: nat :| Largest(a.routes, k) && routes == Paying(Bump(a.routes, k, a.remaining));
      BumpTotals(a.routes, k, a.remaining);
      BumpKeeps(a.routes, k, a.remaining, spots);
      FairIsPositive(Bump(a.routes, k, a.remaining), spots);
      PayingKeeps(Bump(a.routes, k, a.remaining));
      PayingKeepsDistinct(Bump(a.routes, k, a.remaining));
    } else {
      FairIsPositive(a.routes, spots);
      PayingKeeps(a.routes);
      PayingKeepsDistinct(a.routes);
    }
  }

  lemma ConservedSound(routes: seq<Allotment>, amountIn: int, segments: seq<Allotment>, spots: map<nat, Spot>)
    requires Conserved(routes, amountIn, segments) && TotalIn(routes) <= amountIn
    requires DistinctVenues(routes) && forall r <- routes :: Fair(spots, r) && 0 < r.expectedOut
    ensures segments != [] ==> TotalIn(segments) == amountIn
    ensures DistinctVenues(segments) && forall r <- segments :: Fair(spots, r) && 0 < r.expectedOut
    ensures TotalOut(segments) == TotalOut(routes)
  {
    hide Fair, DistinctVenues, TotalIn, TotalOut, Bump;
    if routes != [] && TotalIn(routes) != amountIn {
      var k: nat :| FirstLargest(routes, k) && segments == Bump(routes, k, amountIn - TotalIn(routes));
      BumpTotals(routes, k, amountIn - TotalIn(routes));
      BumpKeeps(routes, k, amountIn - TotalIn(routes), spots);
    }
  }

  lemma MinimumBounds(out: nat, slippageBps: int)
    requires 0 <= slippageBps <= BPS
    ensures 0 <= Trunc(out * (BPS - slippageBps), BPS) <= out
    ensures var least := Trunc(out * (BPS - slippageBps), BPS);
            least * 10_000 <= out * (10_000 - slippageBps) < (least + 1) * 10_000
  {
    var p, less := out * (BPS - slippageBps), out * slippageBps;
    assert p == out * BPS - less && 0 <= less;
    assert 0 <= p;
  }

  /** A leg for a segment: its venue and amount, and its expectation less the slippage,
      rounded down. */
  predicate LegOf(leg: Venues.Segment, r: Allotment, slippageBps: int) {
    && leg.venueId == r.venueId && leg.amountIn == r.amountIn && 0 <= leg.minOut <= r.expectedOut
    && leg.minOut * 10_000 <= r.expectedOut * (10_000 - slippageBps) < (leg.minOut + 1) * 10_000
  }

  lemma {:induction false} InstructionsValid(segments: seq<Allotment>, slippageBps: int)
    requires 0 <= slippageBps <= BPS && forall r <- segments :: 0 < r.amountIn && 0 < r.expectedOut
    ensures var legs := Instructions(segments, slippageBps);
            && |legs| == |segments| && Venues.WellFormed(legs) && Venues.Total(legs) == TotalIn(segments)
            && forall i :: 0 <= i < |legs| ==> LegOf(legs[i], segments[i], slippageBps)
  {
    hide Trunc, LegOf;
    if segments != [] {
      var head, tail := segments[0], segments[1..];
      assert head in segments && forall r <- tail :: r in segments;
      InstructionsValid(tail, slippageBps);
      HeadLeg(head, slippageBps);
      assert segments == [head] + tail;
      assert Instructions(segments, slippageBps)[1..] == Instructions(tail, slippageBps);
    }
  }

  lemma HeadLeg(r: Allotment, slippageBps: int)
    requires 0 <= slippageBps <= BPS && 0 < r.expectedOut
    ensures var leg := Venues.Segment(r.venueId, r.amountIn, Trunc(r.expectedOut * (BPS - slippageBps), BPS));
            LegOf(leg, r, slippageBps) && 0 <= leg.minOut
  {
    hide Trunc;
    MinimumBounds(r.expectedOut, slippageBps);
  }

  /** Whatever the venues answered: a route that is not empty has distinct venues,
      positive amounts that sum exactly to the input, no expectation above its venue's
      first good probe, and instructions both contracts' validate_segments accept. */
  lemma RouteIsExecutable(probes: seq<Probe>, scale: pos, amountIn: int, segments: seq<Allotment>, slippageBps: int)
    requires Probed(probes, DepthLevels(scale, amountIn)) && OnePerVenue(probes) && 0 <= slippageBps <= BPS
    requires Computed(Flatten(probes, DepthLevels(scale, amountIn)), amountIn, segments) && segments != []
    ensures 0 < amountIn && TotalIn(segments) == amountIn && DistinctVenues(segments)
    ensures forall r <- segments :: Fair(Spots(probes, DepthLevels(scale, amountIn)), r) && 0 < r.expectedOut
    ensures Venues.Validate(Instructions(segments, slippageBps), amountIn).Pass?
  {
    var levels := DepthLevels(scale, amountIn);
    var all := Flatten(probes, levels);
    if amountIn <= 0 {
      NothingLeft(Allocation(amountIn, []), Rank(all));
      assert false;
    }
    LevelsSound(scale, amountIn);
    hide DepthLevels, Flatten, Spots, Sane, WithinSpot, Computed, Fair;
    FlattenSound(probes, levels);
    RouteIsSound(all, amountIn, segments, Spots(probes, levels));
    FairIsPositive(segments, Spots(probes, levels));
    InstructionsValid(segments, slippageBps);
  }

  /** So a slice the keeper sizes and routes is refused neither for its size or timing
      nor for its route. */
  lemma KeeperRouteAccepted(o: TwapBook.Twap, tick: nat, fair: bool, landing: nat, probes: seq<Probe>,
                            segments: seq<Allotment>)
    requires o.startLedger < o.endLedger && o.filledIn <= o.totalIn
    requires Keeper.KeeperSlice(o, tick, fair).Some?
    requires tick <= landing <= o.endLedger && o.startLedger <= landing
    requires var slice := Keeper.KeeperSlice(o, tick, fair).value;
             && Probed(probes, DepthLevels(1, slice)) && OnePerVenue(probes)
             && Computed(Flatten(probes, DepthLevels(1, slice)), slice, segments) && segments != []
    ensures var slice := Keeper.KeeperSlice(o, tick, fair).value;
            && TwapBook.CheckSlice(o, landing, slice).Pass?
            && Venues.Validate(Instructions(segments, 50), slice).Pass?
  {
    Keeper.SubmittedSliceAccepted(o, tick, fair, landing);
    RouteIsExecutable(probes, 1, Keeper.KeeperSlice(o, tick, fair).value, segments, 50);
  }

  // ─── Every route is near optimal on concave venues ──

  /** Each venue's tranches pay no better as they go deeper. */
  ghost predicate Concave(all: seq<Tranche>) {
    forall v: nat :: NonIncreasing(Of(v, all))
  }

  lemma {:induction false} OfUsable(v: nat, s: seq<Tranche>)
    ensures forall t <- Of(v, s) :: t in s && t.key.Bps?
  {
    if s != [] {
      OfUsable(v, s[1..]);
      assert s[0] in s && forall t <- s[1..] :: t in s;
    }
  }

  /** Ranking does not disturb a concave venue's own order. */
  lemma RankKeepsOrder(all: seq<Tranche>, v: nat)
    requires NonIncreasing(Of(v, all)) && forall t <- all :: Sane(t)
    ensures Of(v, Rank(all)) == Of(v, all)
  {
    OfUsable(v, all);
    NonIncreasingIsRanked(Of(v, all));
    RankFixed(Of(v, all));
    RankOf(v, all);
  }

  /** A spread over tranches is a spread over the ranked tranches. */
  lemma {:induction false} InsertSpread(t: Tranche, s: seq<Tranche>, x0: real, x: seq<real>) returns (y: seq<real>)
    requires Fits(t, x0) && Spread(s, x)
    ensures Spread(Insert(t, s), y)
    ensures Pay(Insert(t, s), y) == Gain(t, x0) + Pay(s, x) && SumOf(y) == x0 + SumOf(x)
    ensures Capacity(Insert(t, s)) == Capacity([t] + s)
  {
    hide Gain, Fits, Leq;
    assert ([t] + s)[1..] == s;
    if s == [] || Leq(t.key, s[0].key) {
      y := [x0] + x;
      PayCons(t, s, x0, x);
      assert y[1..] == x;
    } else {
      var rest := InsertSpread(t, s[1..], x0, x[1..]);
      y := [x[0]] + rest;
      assert ([t] + s[1..])[1..] == s[1..];
      PayCons(s[0], Insert(t, s[1..]), x[0], rest);
      assert y[1..] == rest && Insert(t, s)[1..] == Insert(t, s[1..]);
    }
  }

  lemma {:induction false} RankSpread(s: seq<Tranche>, x: seq<real>) returns (y: seq<real>)
    requires Spread(s, x)
    ensures Spread(Rank(s), y)
    ensures Pay(Rank(s), y) == Pay(s, x) && SumOf(y) == SumOf(x) && Capacity(Rank(s)) == Capacity(s)
  {
    if s == [] {
      y := x;
    } else {
      hide Gain, Fits, Leq, Insert;
      var rest := RankSpread(s[1..], x[1..]);
      y := InsertSpread(s[0], Rank(s[1..]), x[0], rest);
      assert ([s[0]] + Rank(s[1..]))[1..] == Rank(s[1..]);
    }
  }

  /** On chained concave ladders the whole greedy allocation expects what pouring gets. */
  lemma AllocationPours(all: seq<Tranche>, total: nat, spots: map<nat, Spot>)
    requires forall t <- all :: Sane(t) && t.venueId in spots && WithinSpot(t, spots[t.venueId])
    requires Concave(all) && forall v: nat :: Chained(Of(v, all), 0)
    ensures (forall t <- Rank(all) :: Sane(t))
    ensures TotalOut(Allocate(Allocation(total, []), Rank(all)).routes) == Got(Rank(all), Pour(total, Rank(all)))
  {
    var s, start := Rank(all), Allocation(total, []);
    RankMembers(all);
    hide Rank, Sane, WithinSpot, Fair, Chained, Of, NonIncreasing, Allocate, Fills, Got, Pour;
    forall v: nat ensures Chained(Of(v, s), 0) {
      RankKeepsOrder(all, v);
    }
    NothingIn();
    AllocateSound(start, s, spots);
    GreedyPours(start, s);
  }

  lemma {:induction false} SplitIsNearOptimal(all: seq<Tranche>, amountIn: nat, spots: map<nat, Spot>,
                                              segments: seq<Allotment>, x: seq<real>)
    requires forall t <- all :: Sane(t) && t.venueId in spots && WithinSpot(t, spots[t.venueId])
    requires Concave(all) && forall v: nat :: Chained(Of(v, all), 0)
    requires Computed(all, amountIn, segments)
    requires Spread(all, x) && SumOf(x) == Min(amountIn, Capacity(all)) as real
    ensures Pay(all, x) <= TotalOut(segments) as real + 1.0 + 2.0 * SumOf(x) / 10_000.0
  {
    hide *;
    RankMembers(all);
    AllocationPours(all, amountIn, spots);
    RouteIsSound(all, amountIn, segments, spots);
    RankSorts(all);
    var y := RankSpread(all, x);
    PourUses(amountIn, Rank(all));
    PouringIsNearOptimal(Rank(all), amountIn, y);
  }

  /** On concave venues no other spread of the same input over their tranches, even a
      fractional one, pays more than the computed route expects, plus one unit and
      2 x input / 10000. The same input is all of it, or all the venues can take. */
  lemma RouteIsNearOptimal(probes: seq<Probe>, scale: pos, amountIn: pos, segments: seq<Allotment>, x: seq<real>)
    requires Probed(probes, DepthLevels(scale, amountIn)) && OnePerVenue(probes)
    requires Concave(Flatten(probes, DepthLevels(scale, amountIn)))
    requires Computed(Flatten(probes, DepthLevels(scale, amountIn)), amountIn, segments)
    requires var all := Flatten(probes, DepthLevels(scale, amountIn));
             Spread(all, x) && SumOf(x) == Min(amountIn, Capacity(all)) as real
    ensures Pay(Flatten(probes, DepthLevels(scale, amountIn)), x)
            <= TotalOut(segments) as real + 1.0 + 2.0 * SumOf(x) / 10_000.0
  {
    var levels := DepthLevels(scale, amountIn);
    var all := Flatten(probes, levels);
    LevelsSound(scale, amountIn);
    hide DepthLevels, Flatten, Spots, Sane, WithinSpot, Pay, Spread, SumOf, Chained, Of, NonIncreasing, Computed,
         Capacity;
    FlattenSound(probes, levels);
    forall v: nat ensures Chained(Of(v, all), 0) {
      FlattenChained(probes, levels, v);
    }
    SplitIsNearOptimal(all, amountIn, Spots(probes, levels), segments, x);
  }
}
