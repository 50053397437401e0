/** The depth-point quote cache: an insertion-ordered map from a pool direction to its
    sampled points, with simulations in flight. Awaiting a simulation splits a quote in
    two steps, asking and landing; anything may happen between them. */
module QuoteCache {
  import opened Results
  import opened MulDiv
  import opened QuoteCurve

  const MAX_KEYS: pos := 500

  datatype Entry = Entry(key: string, points: seq<Point>)

  datatype Cache = Cache(entries: seq<Entry>, inFlight: set<(string, int)>)

  // ─── The map ────────────────────────────────────────

  predicate HasKey(entries: seq<Entry>, key: string) {
    entries != [] && (entries[0].key == key || HasKey(entries[1..], key))
  }

  function Lookup(entries: seq<Entry>, key: string): seq<Point> {
    if entries == [] then [] else if entries[0].key == key then entries[0].points else Lookup(entries[1..], key)
  }

  function Put(entries: seq<Entry>, key: string, points: seq<Point>): seq<Entry> {
    if entries == [] then [Entry(key, points)]
    else if entries[0].key == key then [Entry(key, points)] + entries[1..]
    else [entries[0]] + Put(entries[1..], key, points)
  }

  function Delete(entries: seq<Entry>, key: string): seq<Entry> {
    if entries == [] then []
    else if entries[0].key == key then entries[1..]
    else [entries[0]] + Delete(entries[1..], key)
  }

  // ─── Operations ─────────────────────────────────────

  function Fresh(points: seq<Point>, cutoff: int): seq<Point> {
    if points == [] then []
    else if cutoff <= points[0].ts then [points[0]] + Fresh(points[1..], cutoff)
    else Fresh(points[1..], cutoff)
  }

  function Except(points: seq<Point>, amountIn: int): seq<Point> {
    if points == [] then []
    else if points[0].amountIn == amountIn then Except(points[1..], amountIn)
    else [points[0]] + Except(points[1..], amountIn)
  }

  function Sort(points: seq<Point>, p: Point): seq<Point> {
    if points == [] || p.amountIn < points[0].amountIn then [p] + points else [points[0]] + Sort(points[1..], p)
  }

  /** Lapsed points are dropped, and a key with none left with them. */
  function Freshened(entries: seq<Entry>, key: string, cutoff: int): seq<Entry> {
    var all := Lookup(entries, key);
    var recent := Fresh(all, cutoff);
    if |recent| == |all| then entries else if recent == [] then Delete(entries, key) else Put(entries, key, recent)
  }

  predicate AllStale(points: seq<Point>, cutoff: int) {
    forall p <- points :: p.ts < cutoff
  }

  /** Drop up to `excess` keys whose every point has lapsed, oldest first. */
  function DropStale(entries: seq<Entry>, excess: int, cutoff: int): seq<Entry>
    decreases |entries|
  {
    if entries == [] || excess <= 0 then entries
    else if AllStale(entries[0].points, cutoff) then DropStale(entries[1..], excess - 1, cutoff)
    else [entries[0]] + DropStale(entries[1..], excess, cutoff)
  }

  function Newest(entries: seq<Entry>): seq<Entry> {
    if MAX_KEYS < |entries| then entries[|entries| - MAX_KEYS..] else entries
  }

  /** Lapsed keys go first, then the oldest. */
  function Evicted(entries: seq<Entry>, cutoff: int): seq<Entry> {
    Newest(DropStale(entries, |entries| - MAX_KEYS, cutoff))
  }

  function Inserted(entries: seq<Entry>, key: string, p: Point, cutoff: int): seq<Entry> {
    Evicted(Put(entries, key, Sort(Except(Lookup(entries, key), p.amountIn), p)), cutoff)
  }

  // ─── What is kept ───────────────────────────────────

  /** Everything the sampler has ever answered. */
  type Log = set<(string, Point)>

  ghost predicate Sampled(log: Log, key: string, points: seq<Point>) {
    forall p <- points :: (key, p) in log
  }

  ghost predicate SoundEntry(log: Log, e: Entry) {
    e.points != [] && Sorted(e.points, 0) && Sampled(log, e.key, e.points)
  }

  ghost predicate Sound(log: Log, entries: seq<Entry>) {
    entries == []
    || (SoundEntry(log, entries[0]) && !HasKey(entries[1..], entries[0].key) && Sound(log, entries[1..]))
  }

  /** Sorted, distinct, sampler-produced and bounded. */
  ghost predicate Healthy(log: Log, entries: seq<Entry>) {
    Sound(log, entries) && |entries| <= MAX_KEYS
  }

  lemma {:induction false} SortedFrom(points: seq<Point>, low: int, lower: int)
    requires Sorted(points, low) && lower <= low
    ensures Sorted(points, lower)
  {
  }

  lemma {:induction false} FreshKeeps(points: seq<Point>, cutoff: int, low: int)
    requires Sorted(points, low)
    ensures Sorted(Fresh(points, cutoff), low)
    ensures forall p :: p in Fresh(points, cutoff) <==> p in points && cutoff <= p.ts
    ensures |Fresh(points, cutoff)| <= |points|
  {
    if points != [] {
      FreshKeeps(points[1..], cutoff, points[0].amountIn);
      var recent := Fresh(points[1..], cutoff);
      SortedFrom(recent, points[0].amountIn, low);
      assert points == [points[0]] + points[1..];
      assert ([points[0]] + recent)[1..] == recent;
    }
  }

  lemma {:induction false} ExceptKeeps(points: seq<Point>, amountIn: int, low: int)
    requires Sorted(points, low)
    ensures Sorted(Except(points, amountIn), low)
    ensures forall p :: p in Except(points, amountIn) <==> p in points && p.amountIn != amountIn
  {
    if points != [] {
      ExceptKeeps(points[1..], amountIn, points[0].amountIn);
      var kept := Except(points[1..], amountIn);
      SortedFrom(kept, points[0].amountIn, low);
      assert points == [points[0]] + points[1..];
      assert ([points[0]] + kept)[1..] == kept;
    }
  }

  lemma {:induction false} SortKeeps(points: seq<Point>, p: Point, low: int)
    requires Sorted(points, low) && low < p.amountIn && 0 <= p.amountOut
    requires forall q <- points :: q.amountIn != p.amountIn
    ensures Sorted(Sort(points, p), low)
    ensures forall q :: q in Sort(points, p) <==> q == p || q in points
  {
    if points == [] || p.amountIn < points[0].amountIn {
      assert ([p] + points)[1..] == points;
    } else {
      assert points[0] in points && forall q <- points[1..] :: q in points;
      SortKeeps(points[1..], p, points[0].amountIn);
      assert points == [points[0]] + points[1..];
      assert ([points[0]] + Sort(points[1..], p))[1..] == Sort(points[1..], p);
    }
  }

  lemma {:induction false} LookupSound(log: Log, entries: seq<Entry>, key: string)
    requires Sound(log, entries)
    ensures Sorted(Lookup(entries, key), 0) && Sampled(log, key, Lookup(entries, key))
    ensures Lookup(entries, key) != [] <==> HasKey(entries, key)
  {
    if entries != [] {
      hide Sorted, Sampled;
      assert entries == [entries[0]] + entries[1..];
      LookupSound(log, entries[1..], key);
    } else {
      assert Sampled(log, key, []);
    }
  }

  lemma {:induction false} PutKeeps(log: Log, entries: seq<Entry>, key: string, points: seq<Point>)
    requires Sound(log, entries) && SoundEntry(log, Entry(key, points))
    ensures var entries' := Put(entries, key, points);
            && Sound(log, entries') && Lookup(entries', key) == points
            && (forall k :: k != key ==> Lookup(entries', k) == Lookup(entries, k))
            && (forall k :: HasKey(entries', k) <==> k == key || HasKey(entries, k))
            && |entries'| == |entries| + if HasKey(entries, key) then 0 else 1
  {
    hide SoundEntry;
    var entries' := Put(entries, key, points);
    assert Entry(key, points).key == key;
    if entries == [] {
      assert entries' == [Entry(key, points)] && entries'[1..] == [];
    } else {
      var head, tail := entries[0], entries[1..];
      assert entries == [head] + tail;
      if head.key == key {
        assert entries'[1..] == tail;
        assert entries' == [Entry(key, points)] + tail;
      } else {
        PutKeeps(log, tail, key, points);
        assert entries' == [head] + Put(tail, key, points) && entries'[1..] == Put(tail, key, points);
      }
    }
  }

  lemma {:induction false} DeleteKeeps(log: Log, entries: seq<Entry>, key: string)
    requires Sound(log, entries)
    ensures var entries' := Delete(entries, key);
            && Sound(log, entries') && |entries'| <= |entries|
            && (forall k :: HasKey(entries', k) ==> HasKey(entries, k))
            && (forall k :: k != key ==> Lookup(entries', k) == Lookup(entries, k)) && Lookup(entries', key) == []
  {
    hide SoundEntry;
    if entries != [] {
      var head, tail := entries[0], entries[1..];
      assert entries == [head] + tail;
      if head.key == key {
        LookupSound(log, tail, key);
      } else {
        DeleteKeeps(log, tail, key);
        var rest := Delete(tail, key);
        assert Delete(entries, key) == [head] + rest && ([head] + rest)[1..] == rest;
      }
    }
  }

  /** Reading what is fresh forgets only what has lapsed. */
  lemma FreshenedKeeps(log: Log, entries: seq<Entry>, key: string, cutoff: int)
    requires Healthy(log, entries)
    ensures Healthy(log, Freshened(entries, key, cutoff))
    ensures Lookup(Freshened(entries, key, cutoff), key) == Fresh(Lookup(entries, key), cutoff)
    ensures forall k :: k != key ==> Lookup(Freshened(entries, key, cutoff), k) == Lookup(entries, k)
  {
    hide SoundEntry, Sound;
    var all := Lookup(entries, key);
    var recent := Fresh(all, cutoff);
    LookupSound(log, entries, key);
    FreshKeeps(all, cutoff, 0);
    if |recent| == |all| {
      FreshAll(all, cutoff);
    } else if recent == [] {
      DeleteKeeps(log, entries, key);
    } else {
      EntrySound(log, key, recent);
      PutKeeps(log, entries, key, recent);
    }
  }

  lemma EntrySound(log: Log, key: string, points: seq<Point>)
    requires points != [] && Sorted(points, 0) && Sampled(log, key, points)
    ensures SoundEntry(log, Entry(key, points))
  {
  }

  lemma {:induction false} FreshAll(points: seq<Point>, cutoff: int)
    ensures |Fresh(points, cutoff)| <= |points|
    ensures |Fresh(points, cutoff)| == |points| ==> Fresh(points, cutoff) == points
  {
    if points != [] {
      FreshAll(points[1..], cutoff);
    }
  }

  lemma {:induction false} DropStaleKeeps(log: Log, entries: seq<Entry>, excess: int, cutoff: int)
    requires Sound(log, entries)
    ensures var kept := DropStale(entries, excess, cutoff);
            && Sound(log, kept) && |kept| <= |entries|
            && (forall k :: HasKey(kept, k) ==> HasKey(entries, k))
            && (forall k :: !AllStale(Lookup(entries, k), cutoff) ==> Lookup(kept, k) == Lookup(entries, k))
    decreases |entries|
  {
    hide SoundEntry, AllStale;
    if entries != [] && 0 < excess {
      var head, tail := entries[0], entries[1..];
      assert entries == [head] + tail;
      if AllStale(head.points, cutoff) {
        DropStaleKeeps(log, tail, excess - 1, cutoff);
      } else {
        DropStaleKeeps(log, tail, excess, cutoff);
        var rest := DropStale(tail, excess, cutoff);
        assert ([head] + rest)[1..] == rest;
      }
    }
  }

  lemma {:induction false} SuffixKeeps(log: Log, entries: seq<Entry>, n: nat)
    requires Sound(log, entries) && n <= |entries|
    ensures Sound(log, entries[n..])
  {
    if n != 0 {
      SuffixKeeps(log, entries[1..], n - 1);
      assert entries[1..][n - 1..] == entries[n..];
    } else {
      assert entries[0..] == entries;
    }
  }

  /** Eviction leaves at most MAX_KEYS keys. */
  lemma EvictedKeeps(log: Log, entries: seq<Entry>, cutoff: int)
    requires Sound(log, entries)
    ensures Healthy(log, Evicted(entries, cutoff))
  {
    hide SoundEntry, Sound, HasKey, AllStale, Lookup, DropStale;
    var kept := DropStale(entries, |entries| - MAX_KEYS, cutoff);
    DropStaleKeeps(log, entries, |entries| - MAX_KEYS, cutoff);
    if MAX_KEYS < |kept| {
      SuffixKeeps(log, kept, |kept| - MAX_KEYS);
    }
  }

  function StaleCount(entries: seq<Entry>, cutoff: int): nat {
    if entries == [] then 0
    else (if AllStale(entries[0].points, cutoff) then 1 else 0) + StaleCount(entries[1..], cutoff)
  }

  /** How many keys have a point still fresh. */
  function FreshCount(entries: seq<Entry>, cutoff: int): nat {
    if entries == [] then 0
    else (if AllStale(entries[0].points, cutoff) then 0 else 1) + FreshCount(entries[1..], cutoff)
  }

  lemma {:induction false} DropStaleCounts(entries: seq<Entry>, excess: nat, cutoff: int)
    ensures var kept := DropStale(entries, excess, cutoff);
            && |entries| == StaleCount(entries, cutoff) + FreshCount(entries, cutoff)
            && StaleCount(kept, cutoff) == StaleCount(entries, cutoff) - Min(excess, StaleCount(entries, cutoff))
            && FreshCount(kept, cutoff) == FreshCount(entries, cutoff)
            && |kept| == |entries| - Min(excess, StaleCount(entries, cutoff))
    decreases |entries|
  {
    hide AllStale;
    if entries != [] {
      var head, tail := entries[0], entries[1..];
      DropStaleCounts(tail, excess, cutoff);
      if excess != 0 {
        DropStaleCounts(tail, excess - 1, cutoff);
        assert ([head] + DropStale(tail, excess, cutoff))[1..] == DropStale(tail, excess, cutoff);
      }
    }
  }

  lemma {:induction false} NoneStale(entries: seq<Entry>, n: nat, cutoff: int)
    requires n <= |entries| && StaleCount(entries, cutoff) == 0
    ensures FreshCount(entries, cutoff) == |entries| && FreshCount(entries[n..], cutoff) == |entries| - n
  {
    hide AllStale;
    if entries != [] {
      if n == 0 {
        NoneStale(entries[1..], 0, cutoff);
        assert entries[0..] == entries && entries[1..][0..] == entries[1..];
      } else {
        NoneStale(entries[1..], n - 1, cutoff);
        assert entries[1..][n - 1..] == entries[n..];
      }
    }
  }

  /** Eviction drops no more keys than it must, and one with a fresh point only when none
      without is left. */
  lemma EvictionIsMinimal(entries: seq<Entry>, cutoff: int)
    ensures |Evicted(entries, cutoff)| == Min(|entries|, MAX_KEYS)
    ensures |entries| <= MAX_KEYS ==> Evicted(entries, cutoff) == entries
    ensures FreshCount(Evicted(entries, cutoff), cutoff) == Min(FreshCount(entries, cutoff), MAX_KEYS)
  {
    hide AllStale, DropStale, FreshCount, StaleCount;
    SameDrop(entries, cutoff);
    var excess := if MAX_KEYS < |entries| then |entries| - MAX_KEYS else 0;
    DropStaleCounts(entries, excess, cutoff);
    var kept := DropStale(entries, excess, cutoff);
    if MAX_KEYS < |kept| {
      NoneStale(kept, |kept| - MAX_KEYS, cutoff);
    }
  }

  /** Among keys that all have a fresh point it drops the oldest. */
  lemma EvictionDropsOldest(entries: seq<Entry>, cutoff: int)
    requires StaleCount(entries, cutoff) == 0 && MAX_KEYS < |entries|
    ensures Evicted(entries, cutoff) == entries[|entries| - MAX_KEYS..]
  {
    hide DropStale, StaleCount;
    NothingStaleDropped(entries, |entries| - MAX_KEYS, cutoff);
  }

  lemma SameDrop(entries: seq<Entry>, cutoff: int)
    ensures var excess := if MAX_KEYS < |entries| then |entries| - MAX_KEYS else 0;
            DropStale(entries, |entries| - MAX_KEYS, cutoff) == DropStale(entries, excess, cutoff)
    ensures |entries| <= MAX_KEYS ==> DropStale(entries, |entries| - MAX_KEYS, cutoff) == entries
  {
  }

  lemma {:induction false} NothingStaleDropped(entries: seq<Entry>, excess: nat, cutoff: int)
    requires StaleCount(entries, cutoff) == 0
    ensures DropStale(entries, excess, cutoff) == entries
    decreases |entries|
  {
    hide AllStale;
    if entries != [] {
      NothingStaleDropped(entries[1..], excess, cutoff);
    }
  }

  /** And it takes a key's points all or not at all. */
  lemma {:induction false} DropIsWhole(log: Log, entries: seq<Entry>, excess: int, cutoff: int, k: string)
    requires Sound(log, entries)
    ensures var kept := DropStale(entries, excess, cutoff);
            Lookup(kept, k) == Lookup(entries, k) || Lookup(kept, k) == []
    decreases |entries|
  {
    hide SoundEntry, AllStale;
    if entries != [] && 0 < excess {
      var head, tail := entries[0], entries[1..];
      if AllStale(head.points, cutoff) {
        DropStaleKeeps(log, tail, excess - 1, cutoff);
        LookupSound(log, DropStale(tail, excess - 1, cutoff), k);
        DropIsWhole(log, tail, excess - 1, cutoff, k);
      } else {
        DropIsWhole(log, tail, excess, cutoff, k);
        assert ([head] + DropStale(tail, excess, cutoff))[1..] == DropStale(tail, excess, cutoff);
      }
    }
  }

  lemma {:induction false} SuffixIsWhole(log: Log, entries: seq<Entry>, n: nat, k: string)
    requires Sound(log, entries) && n <= |entries|
    ensures Lookup(entries[n..], k) == Lookup(entries, k) || Lookup(entries[n..], k) == []
  {
    hide SoundEntry;
    if n != 0 {
      SuffixIsWhole(log, entries[1..], n - 1, k);
      assert entries[1..][n - 1..] == entries[n..];
      if entries[0].key == k {
        LookupSound(log, entries[1..], k);
      }
    } else {
      assert entries[0..] == entries;
    }
  }

  lemma EvictionIsWhole(log: Log, entries: seq<Entry>, cutoff: int, k: string)
    requires Sound(log, entries)
    ensures Lookup(Evicted(entries, cutoff), k) == Lookup(entries, k) || Lookup(Evicted(entries, cutoff), k) == []
  {
    hide Sound, Lookup, DropStale;
    var kept := DropStale(entries, |entries| - MAX_KEYS, cutoff);
    DropStaleKeeps(log, entries, |entries| - MAX_KEYS, cutoff);
    DropIsWhole(log, entries, |entries| - MAX_KEYS, cutoff, k);
    if MAX_KEYS < |kept| {
      SuffixIsWhole(log, kept, |kept| - MAX_KEYS, k);
    }
  }

  /** A sampled point goes in once, in order, replacing any other at its amount; the
      cache stays healthy. */
  lemma InsertedKeeps(log: Log, entries: seq<Entry>, key: string, p: Point, cutoff: int)
    requires Healthy(log, entries) && (key, p) in log && 0 < p.amountIn && 0 <= p.amountOut
    ensures Healthy(log, Inserted(entries, key, p, cutoff))
  {
    hide SoundEntry, Sound;
    var kept := Except(Lookup(entries, key), p.amountIn);
    LookupSound(log, entries, key);
    ExceptKeeps(Lookup(entries, key), p.amountIn, 0);
    SortKeeps(kept, p, 0);
    EntrySound(log, key, Sort(kept, p));
    PutKeeps(log, entries, key, Sort(kept, p));
    EvictedKeeps(log, Put(entries, key, Sort(kept, p)), cutoff);
  }

  // ─── Runs ───────────────────────────────────────────

  datatype Reply = Answered(out: int) | Joined | Simulating

  /** quote, up to the simulation: answer from fresh points, join a simulation of the
      same amount, or start one. */
  function Ask(c: Cache, key: string, x: int, cutoff: int): (r: (Cache, Reply))
    requires Sorted(Lookup(c.entries, key), 0)
  {
    if x <= 0 then (c, Answered(0))
    else
      FreshKeeps(Lookup(c.entries, key), cutoff, 0);
      var c' := c.(entries := Freshened(c.entries, key, cutoff));
      var known := Read(Fresh(Lookup(c.entries, key), cutoff), x);
      if known.Some? then (c', Answered(known.value))
      else if (key, x) in c.inFlight then (c', Joined)
      else (c'.(inFlight := c.inFlight + {(key, x)}), Simulating)
  }

  /** The rest of quote, once the simulation answers or fails. */
  function Land(c: Cache, key: string, x: int, answer: Option<nat>, now: int, ttl: nat): Cache {
    Cache(if answer.Some? then Inserted(c.entries, key, Point(x, answer.value, now), now - ttl) else c.entries,
          c.inFlight - {(key, x)})
  }

  /** Asking simulates exactly when the points say nothing and no simulation of that amount
      is in flight, which then is; landing ends that one. */
  lemma AskOnce(c: Cache, key: string, x: int, cutoff: int)
    requires Sorted(Lookup(c.entries, key), 0)
    ensures Sorted(Fresh(Lookup(c.entries, key), cutoff), 0)
    ensures var (c', reply) := Ask(c, key, x, cutoff);
            var known := 0 < x && Read(Fresh(Lookup(c.entries, key), cutoff), x).Some?;
            && (reply.Answered? <==> x <= 0 || known)
            && (known ==> reply.out == Read(Fresh(Lookup(c.entries, key), cutoff), x).value)
            && (x <= 0 ==> reply == Answered(0) && c' == c)
            && (reply.Joined? <==> 0 < x && !known && (key, x) in c.inFlight)
            && c'.inFlight == c.inFlight + (if reply.Simulating? then {(key, x)} else {})
  {
    FreshKeeps(Lookup(c.entries, key), cutoff, 0);
    hide Fresh, Read, Freshened;
  }

  datatype Event = Asked(key: string, x: int, now: int) | Landed(key: string, x: int, answer: Option<nat>, now: int)

  /** The sample an event adds: a failed simulation is not one. */
  function SampleOf(e: Event): Log {
    if e.Landed? && e.answer.Some? then {(e.key, Point(e.x, e.answer.value, e.now))} else {}
  }

  /** The samples of a run, its newest event first. */
  function Logged(events: seq<Event>): Log {
    if events == [] then {} else Logged(events[1..]) + SampleOf(events[0])
  }

  ghost predicate GoodFlights(c: Cache) {
    forall f <- c.inFlight :: 0 < f.1
  }

  /** One event; a landing happens only for a simulation in flight. */
  ghost predicate Follows(c: Cache, e: Event, ttl: nat, c': Cache) {
    && Sorted(Lookup(c.entries, e.key), 0)
    && match e
       case Asked(key, x, now) => c' == Ask(c, key, x, now - ttl).0
       case Landed(key, x, answer, now) => (key, x) in c.inFlight && c' == Land(c, key, x, answer, now, ttl)
  }

  ghost predicate Run(events: seq<Event>, ttl: nat, c: Cache) {
    if events == [] then c == Cache([], {})
    else exists before :: Run(events[1..], ttl, before) && Follows(before, events[0], ttl, c)
  }

  lemma {:induction false} SoundGrows(log: Log, log': Log, entries: seq<Entry>)
    requires Sound(log, entries) && log <= log'
    ensures Sound(log', entries)
  {
    if entries != [] {
      SoundGrows(log, log', entries[1..]);
    }
  }

  lemma FollowsKeeps(log: Log, c: Cache, e: Event, ttl: nat, c': Cache)
    requires Healthy(log, c.entries) && GoodFlights(c) && Follows(c, e, ttl, c')
    ensures Healthy(log + SampleOf(e), c'.entries) && GoodFlights(c')
  {
    hide Sound, Inserted, Freshened, Lookup, Fresh, Read;
    SoundGrows(log, log + SampleOf(e), c.entries);
    match e
    case Asked(key, x, now) =>
      FreshenedKeeps(log + SampleOf(e), c.entries, key, now - ttl);
    case Landed(key, x, answer, now) =>
      assert 0 < (key, x).1;
      if answer.Some? {
        InsertedKeeps(log + SampleOf(e), c.entries, key, Point(x, answer.value, now), now - ttl);
      }
  }

  /** Over any interleaving of asking and landing, failures included, the cache stays
      sorted, distinct, sampler-produced and within its bound. */
  lemma {:induction false} RunKeepsHealthy(events: seq<Event>, ttl: nat, c: Cache)
    requires Run(events, ttl, c)
    ensures Healthy(Logged(events), c.entries) && GoodFlights(c)
  {
    if events != [] {
      var before :| Run(events[1..], ttl, before) && Follows(before, events[0], ttl, c);
      hide Follows, Healthy, SampleOf;
      RunKeepsHealthy(events[1..], ttl, before);
      FollowsKeeps(Logged(events[1..]), before, events[0], ttl, c);
    }
  }

  /** Just below the first fresh sample an amount is answered exactly if the two are close,
      and then with the sample's average rate less one unit-rate, within one unit. */
  predicate BelowFirst(recent: seq<Point>, x: int, reply: Reply) {
    recent != [] && x < recent[0].amountIn ==>
      var first := recent[0];
      && (reply.Answered? <==> Close(x, first.amountIn))
      && (reply.Answered? && 0 < first.amountOut ==>
            0 <= reply.out && reply.out * first.amountIn <= x * first.amountOut
            && x * first.amountOut < (reply.out + 1) * first.amountIn + first.amountOut + first.amountIn - 1)
  }

  /** As long as the samples still fresh are floors of one concave curve, no answer is
      above what the venue would pay, and none between two points is far below it. */
  lemma AskNeverOverQuotes(log: Log, c: Cache, key: string, x: int, cutoff: int, f: int -> real)
    requires Healthy(log, c.entries) && 0 < x && ConcaveCurve(f)
    requires forall p :: (key, p) in log && cutoff <= p.ts ==> p.amountOut == f(p.amountIn).Floor
    ensures Sorted(Lookup(c.entries, key), 0)
    ensures var reply := Ask(c, key, x, cutoff).1;
            var recent := Fresh(Lookup(c.entries, key), cutoff);
            && (reply.Answered? ==>
                  reply.out <= f(x).Floor
                  && (recent[0].amountIn <= x ==> f(x) < 1.6 * (reply.out as real + 1.0)))
            && BelowFirst(recent, x, reply)
  {
    LookupSound(log, c.entries, key);
    hide Sound, Lookup, Freshened, ConcaveCurve;
    var points := Lookup(c.entries, key);
    FreshKeeps(points, cutoff, 0);
    var recent := Fresh(points, cutoff);
    assert SampledFrom(recent, f);
    if recent != [] && x < recent[0].amountIn {
      ReadBelowFirst(recent, x);
    }
    hide Fresh, Read, Close;
    if Read(recent, x).Some? {
      ReadNeverOverQuotes(f, recent, x);
      if recent[0].amountIn <= x {
        ReadIsTight(f, recent, x);
      }
    }
  }

  /** So over any run from an empty cache: whatever failed, lapsed or was evicted on the
      way, an answer is at most what the venue would pay as long as the simulations still
      fresh answered from one concave curve. */
  lemma RunNeverOverQuotes(events: seq<Event>, ttl: nat, c: Cache, key: string, x: int, now: int, f: int -> real)
    requires Run(events, ttl, c) && 0 < x && ConcaveCurve(f)
    requires forall p :: (key, p) in Logged(events) && now - ttl <= p.ts ==> p.amountOut == f(p.amountIn).Floor
    ensures Sorted(Lookup(c.entries, key), 0)
    ensures var reply := Ask(c, key, x, now - ttl).1;
            var recent := Fresh(Lookup(c.entries, key), now - ttl);
            && (reply.Answered? ==>
                  reply.out <= f(x).Floor
                  && (recent[0].amountIn <= x ==> f(x) < 1.6 * (reply.out as real + 1.0)))
            && BelowFirst(recent, x, reply)
  {
    hide *;
    RunKeepsHealthy(events, ttl, c);
    AskNeverOverQuotes(Logged(events), c, key, x, now - ttl, f);
  }

  // ─── A sample serves until it lapses ────────────────

  lemma {:induction false} DropStaleLast(entries: seq<Entry>, e: Entry, excess: int, cutoff: int)
    requires !AllStale(e.points, cutoff)
    ensures DropStale(entries + [e], excess, cutoff) == DropStale(entries, excess, cutoff) + [e]
    decreases |entries|
  {
    hide AllStale;
    if entries == [] {
      assert [] + [e] == [e] && [e][1..] == [];
    } else {
      assert (entries + [e])[1..] == entries[1..] + [e];
      DropStaleLast(entries[1..], e, excess - 1, cutoff);
      DropStaleLast(entries[1..], e, excess, cutoff);
    }
  }

  lemma {:induction false} PutNew(entries: seq<Entry>, key: string, points: seq<Point>)
    requires !HasKey(entries, key)
    ensures Put(entries, key, points) == entries + [Entry(key, points)]
  {
    if entries != [] {
      var head, tail := entries[0], entries[1..];
      PutNew(tail, key, points);
      assert entries == [head] + tail;
      assert [head] + (tail + [Entry(key, points)]) == entries + [Entry(key, points)];
    }
  }

  lemma {:induction false} LookupLast(log: Log, entries: seq<Entry>, e: Entry)
    requires Sound(log, entries + [e])
    ensures Lookup(entries + [e], e.key) == e.points
  {
    hide SoundEntry;
    if entries == [] {
      assert [] + [e] == [e];
    } else {
      var tail := entries[1..];
      assert (entries + [e])[1..] == tail + [e];
      LookupLast(log, tail, e);
      HasLast(tail, e);
    }
  }

  lemma {:induction false} HasLast(entries: seq<Entry>, e: Entry)
    ensures HasKey(entries + [e], e.key)
  {
    if entries != [] {
      assert (entries + [e])[1..] == entries[1..] + [e];
      HasLast(entries[1..], e);
    }
  }

  /** Eviction never takes the point just inserted. */
  lemma InsertedSurvives(log: Log, entries: seq<Entry>, key: string, p: Point, cutoff: int)
    requires Healthy(log, entries) && (key, p) in log && 0 < p.amountIn && 0 <= p.amountOut && cutoff <= p.ts
    ensures Lookup(Inserted(entries, key, p, cutoff), key) == Sort(Except(Lookup(entries, key), p.amountIn), p)
  {
    hide SoundEntry, Sound, Lookup, Put, DropStale;
    var kept := Except(Lookup(entries, key), p.amountIn);
    LookupSound(log, entries, key);
    ExceptKeeps(Lookup(entries, key), p.amountIn, 0);
    SortKeeps(kept, p, 0);
    var points := Sort(kept, p);
    EntrySound(log, key, points);
    PutKeeps(log, entries, key, points);
    hide Sort, Except;
    SurvivesEviction(log, entries, key, points, cutoff);
  }

  lemma SurvivesEviction(log: Log, entries: seq<Entry>, key: string, points: seq<Point>, cutoff: int)
    requires Healthy(log, entries) && SoundEntry(log, Entry(key, points)) && !AllStale(points, cutoff)
    ensures Lookup(Evicted(Put(entries, key, points), cutoff), key) == points
  {
    hide SoundEntry, Sound, Lookup, Put, AllStale, HasKey;
    PutKeeps(log, entries, key, points);
    if |Put(entries, key, points)| <= MAX_KEYS {
    } else {
      var e := Entry(key, points);
      PutNew(entries, key, points);
      EvictedKeeps(log, entries + [e], cutoff);
      DropStaleLast(entries, e, |entries + [e]| - MAX_KEYS, cutoff);
      var kept := DropStale(entries, |entries + [e]| - MAX_KEYS, cutoff);
      var n := if MAX_KEYS < |kept| + 1 then |kept| + 1 - MAX_KEYS else 0;
      assert n <= |kept| && (kept + [e])[n..] == kept[n..] + [e];
      LookupLast(log, kept[n..], e);
    }
  }

  lemma {:induction false} ExactHit(points: seq<Point>, p: Point, low: int)
    requires Sorted(points, low) && p in points
    ensures Exact(points, p.amountIn) == Some(p.amountOut)
  {
    if points[0] != p {
      SortedMembers(points[1..], points[0].amountIn);
      ExactHit(points[1..], p, points[0].amountIn);
    }
  }

  /** Asking again for a simulated amount within the lifetime is answered exactly, and
      without a simulation. */
  lemma RequoteIsFree(log: Log, c: Cache, key: string, x: int, out: nat, now: int, ttl: nat, later: int)
    requires Healthy(log, c.entries) && 0 < x && later <= now + ttl && (key, Point(x, out, now)) in log
    ensures var c' := Land(c, key, x, Some(out), now, ttl);
            Sorted(Lookup(c'.entries, key), 0) && Ask(c', key, x, later - ttl).1 == Answered(out)
  {
    var p := Point(x, out, now);
    hide Sound, Freshened, Lookup, Inserted, Evicted;
    InsertedSurvives(log, c.entries, key, p, now - ttl);
    LookupSound(log, c.entries, key);
    ExceptKeeps(Lookup(c.entries, key), x, 0);
    SortKeeps(Except(Lookup(c.entries, key), x), p, 0);
    var points := Sort(Except(Lookup(c.entries, key), x), p);
    FreshKeeps(points, later - ttl, 0);
    hide Sort, Except, Fresh;
    ExactHit(Fresh(points, later - ttl), p, 0);
  }
}
