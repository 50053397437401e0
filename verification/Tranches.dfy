/** The routing engine's price ladders: marginal tranches cut from depth quotes, the
    integer key they are ranked by, and the stable ranking itself. */
module Tranches {
  import opened Results
  import opened MulDiv

  const BPS: pos := 10_000

  /** Division as the engine's integers do it, toward zero. */
  function Trunc(a: int, d: pos): int {
    if 0 <= a then a / d else -((-a) / d)
  }

  lemma TruncBounds(a: int, d: pos)
    ensures (Trunc(a, d) - 1) * d < a < (Trunc(a, d) + 1) * d
    ensures 0 <= a ==> Trunc(a, d) * d <= a
    ensures a <= 0 ==> a <= Trunc(a, d) * d && Trunc(a, d) <= 0
  {
    var size: nat := if 0 <= a then a else -a;
    assert size / d * d <= size < size / d * d + d;
  }

  lemma DivScale(a: nat, d: pos, k: pos)
    ensures a * k / (d * k) == a / d
  {
    var q := a / d;
    assert q * d <= a < (q + 1) * d;
    assert q * d * k <= a * k < (q + 1) * d * k;
    DivUnique(a * k, d * k, q);
  }

  lemma SignOfProduct(x: int, d: pos)
    ensures 0 <= x <==> 0 <= x * d
    ensures -(x * d) == (-x) * d
  {
  }

  /** Truncation keeps the order of quotients. */
  lemma TruncMonotone(a: int, d: pos, a': int, d': pos)
    requires a * d' <= a' * d
    ensures Trunc(a, d) <= Trunc(a', d')
  {
    if 0 <= a {
      assert 0 <= a' by {
        SignOfProduct(a, d');
        SignOfProduct(a', d);
      }
      DivGrows(a, d, a', d');
    } else if a' < 0 {
      assert (-a') * d <= (-a) * d' by {
        SignOfProduct(a, d');
        SignOfProduct(a', d);
      }
      DivGrows(-a', d', -a, d);
    } else {
      TruncSign(a, d);
      TruncSign(a', d');
    }
  }

  lemma TruncSign(a: int, d: pos)
    ensures 0 <= a ==> 0 <= Trunc(a, d)
    ensures a <= 0 ==> Trunc(a, d) <= 0
  {
    assert 0 <= a ==> 0 <= a / d;
    assert a <= 0 ==> 0 <= (-a) / d;
  }

  lemma DivGrows(a: nat, d: pos, a': nat, d': pos)
    requires a * d' <= a' * d
    ensures a / d <= a' / d'
  {
    DivScale(a, d, d');
    DivScale(a', d', d);
    FloorMonotone(a * d', a' * d, 1, d * d');
  }

  // ─── Ladders ────────────────────────────────────────

  /** A tranche's rank: its marginal cost in bps, or no liquidity at all. */
  datatype Key = Bps(n: int) | Unbounded

  datatype Tranche = Tranche(venueId: nat, from: int, to: int, amount: int, key: Key, expectedOut: int)

  predicate Ascending(levels: seq<int>) {
    forall i, j :: 0 <= i < j < |levels| ==> levels[i] < levels[j]
  }

  /** The last level below i whose quote succeeded, or -1. */
  function LastGood(quotes: seq<int>, i: nat): (j: int)
    requires i <= |quotes|
    ensures -1 <= j < i && (0 <= j ==> 0 < quotes[j])
    ensures forall k :: j < k < i ==> quotes[k] <= 0
  {
    if i == 0 then -1 else if 0 < quotes[i - 1] then i - 1 else LastGood(quotes, i - 1)
  }

  /** The first level whose quote succeeded, or the number of quotes. */
  function FirstGood(quotes: seq<int>): (j: nat)
    ensures j <= |quotes| && (j < |quotes| ==> 0 < quotes[j])
    ensures forall k :: 0 <= k < j ==> quotes[k] <= 0
  {
    if quotes == [] then 0 else if 0 < quotes[0] then 0 else 1 + FirstGood(quotes[1..])
  }

  /** The smallest-probe rate of a venue, as output over input; none if no quote
      succeeded. */
  datatype Spot = Spot(out: int, input: int)

  function SpotOf(quotes: seq<int>, levels: seq<int>): Spot
    requires |quotes| <= |levels|
  {
    var first := FirstGood(quotes);
    if first < |quotes| then Spot(quotes[first], levels[first]) else Spot(0, 0)
  }

  function MarginalOut(spot: Spot, amount: int, gained: int): int {
    if 0 < spot.out && 0 < spot.input && Trunc(amount * spot.out, spot.input) < gained
    then Trunc(amount * spot.out, spot.input) else gained
  }

  /** The tranche cut at level i, against the last good level before it. */
  function TrancheAt(venueId: nat, quotes: seq<int>, levels: seq<int>, i: nat): Tranche
    requires i < |quotes| <= |levels|
  {
    var to := levels[i];
    if quotes[i] <= 0 then
      var from := if i == 0 then 0 else levels[i - 1];
      Tranche(venueId, from, to, to - from, Unbounded, 0)
    else
      var last := LastGood(quotes, i);
      var from := if last < 0 then 0 else levels[last];
      var amount := to - from;
      var out := MarginalOut(SpotOf(quotes, levels), amount, quotes[i] - if last < 0 then 0 else quotes[last]);
      var key := if 0 < amount then Bps(Trunc((amount - out) * BPS, amount)) else Unbounded;
      Tranche(venueId, from, to, amount, key, out)
  }

  function Ladder(venueId: nat, quotes: seq<int>, levels: seq<int>): seq<Tranche>
    requires |quotes| <= |levels|
  {
    seq(|quotes|, i requires 0 <= i < |quotes| => TrancheAt(venueId, quotes, levels, i))
  }

  /** One pass of buildTranches' loop. */
  method CutTranche(venueId: nat, quotes: seq<int>, levels: seq<int>, i: nat, lastGood: int, spot: Spot)
    returns (t: Tranche)
    requires i < |quotes| <= |levels| && lastGood == LastGood(quotes, i) && spot == SpotOf(quotes, levels)
    ensures t == TrancheAt(venueId, quotes, levels, i)
  {
    hide Trunc, LastGood, SpotOf;
    var to := levels[i];
    if quotes[i] <= 0 {
      var from := if i == 0 then 0 else levels[i - 1];
      return Tranche(venueId, from, to, to - from, Unbounded, 0);
    }
    var from := if lastGood < 0 then 0 else levels[lastGood];
    var amount := to - from;
    var prevOut := if lastGood < 0 then 0 else quotes[lastGood];
    var marginalOut := quotes[i] - prevOut;
    if 0 < spot.out && 0 < spot.input {
      var cap := Trunc(amount * spot.out, spot.input);
      if cap < marginalOut { marginalOut := cap; }
    }
    var key := if 0 < amount then Bps(Trunc((amount - marginalOut) * BPS, amount)) else Unbounded;
    t := Tranche(venueId, from, to, amount, key, marginalOut);
  }

  /** buildTranches. */
  method BuildTranches(venueId: nat, quotes: seq<int>, levels: seq<int>) returns (tranches: seq<Tranche>)
    requires |quotes| <= |levels|
    ensures tranches == Ladder(venueId, quotes, levels)
  {
    tranches := [];
    var lastGood := -1;
    var first := FirstGood(quotes);
    var spot := if first < |quotes| then Spot(quotes[first], levels[first]) else Spot(0, 0);
    for i := 0 to |quotes|
      invariant lastGood == LastGood(quotes, i)
      invariant |tranches| == i && forall k :: 0 <= k < i ==> tranches[k] == TrancheAt(venueId, quotes, levels, k)
    {
      var t := CutTranche(venueId, quotes, levels, i, lastGood, spot);
      tranches := tranches + [t];
      if 0 < quotes[i] {
        lastGood := i;
      }
    }
  }

  // ─── What a ladder guarantees ───────────────────────

  /** A tranche that can be allocated from. */
  predicate Sane(t: Tranche) {
    t.key.Bps? ==>
      0 < t.amount == t.to - t.from && t.key.n == Trunc((t.amount - t.expectedOut) * BPS, t.amount)
  }

  /** No marginal rate beats the venue's smallest-probe rate. */
  predicate WithinSpot(t: Tranche, spot: Spot) {
    t.key.Bps? ==> 0 < spot.input && 0 < spot.out && t.expectedOut * spot.input <= t.amount * spot.out
  }

  /** The usable tranches of one venue, in list order. */
  function Of(v: nat, s: seq<Tranche>): seq<Tranche> {
    if s == [] then []
    else (if s[0].venueId == v && s[0].key.Bps? then [s[0]] else []) + Of(v, s[1..])
  }

  /** Where a ladder ends. */
  function End(l: seq<Tranche>, start: int): int {
    if l == [] then start else l[|l| - 1].to
  }

  /** Tranches laid end to end from `start`. */
  predicate Chained(l: seq<Tranche>, start: int) {
    l == [] || (l[0].from == start && Chained(l[1..], l[0].to))
  }

  lemma {:induction false} OfAppend(v: nat, a: seq<Tranche>, b: seq<Tranche>)
    ensures Of(v, a + b) == Of(v, a) + Of(v, b)
  {
    if a == [] {
      assert a + b == b;
    } else {
      assert (a + b)[1..] == a[1..] + b;
      OfAppend(v, a[1..], b);
    }
  }

  lemma {:induction false} ChainedAppend(l: seq<Tranche>, start: int, t: Tranche)
    requires Chained(l, start) && t.from == End(l, start)
    ensures Chained(l + [t], start)
  {
    if l == [] {
      assert [] + [t] == [t];
    } else {
      assert (l + [t])[1..] == l[1..] + [t];
      ChainedAppend(l[1..], l[0].to, t);
    }
  }

  lemma EndAppend(l: seq<Tranche>, t: Tranche)
    ensures End(l + [t], 0) == t.to
  {
  }

  /** However quotes fail along the way, the usable tranches of a ladder are laid end
      to end up to the last good level. */
  lemma {:induction false} LadderChained(venueId: nat, quotes: seq<int>, levels: seq<int>, n: nat)
    requires n <= |quotes| <= |levels| && Ascending(levels) && (levels != [] ==> 0 < levels[0])
    ensures var l := Of(venueId, Ladder(venueId, quotes, levels)[..n]);
            Chained(l, 0) && End(l, 0) == if LastGood(quotes, n) < 0 then 0 else levels[LastGood(quotes, n)]
  {
    var all := Ladder(venueId, quotes, levels);
    if n == 0 {
      assert all[..0] == [];
    } else {
      var front, t := all[..n - 1], TrancheAt(venueId, quotes, levels, n - 1);
      assert all[..n] == front + [t];
      assert LastGood(quotes, n) == if 0 < quotes[n - 1] then n - 1 else LastGood(quotes, n - 1);
      TrancheSound(venueId, quotes, levels, n - 1);
      OfOne(venueId, t);
      assert t.venueId == venueId;
      hide Ladder, TrancheAt, LastGood, SpotOf, Sane, WithinSpot, Chained, End, Of, Ascending;
      LadderChained(venueId, quotes, levels, n - 1);
      OfAppend(venueId, front, [t]);
      if t.key.Bps? {
        ChainedAppend(Of(venueId, front), 0, t);
        EndAppend(Of(venueId, front), t);
      } else {
        assert Of(venueId, front) + [] == Of(venueId, front);
      }
    }
  }

  lemma OfOne(v: nat, t: Tranche)
    ensures Of(v, [t]) == if t.venueId == v && t.key.Bps? then [t] else []
  {
    assert [t][1..] == [];
  }

  /** And every one of them keeps within the smallest-probe rate. */
  lemma LadderSound(venueId: nat, quotes: seq<int>, levels: seq<int>)
    requires |quotes| <= |levels| && Ascending(levels) && (levels != [] ==> 0 < levels[0])
    ensures forall t <- Ladder(venueId, quotes, levels) ::
              t.venueId == venueId && Sane(t) && WithinSpot(t, SpotOf(quotes, levels))
  {
    forall t | t in Ladder(venueId, quotes, levels)
      ensures t.venueId == venueId && Sane(t) && WithinSpot(t, SpotOf(quotes, levels))
    {
      var i :| 0 <= i < |quotes| && t == TrancheAt(venueId, quotes, levels, i);
      TrancheSound(venueId, quotes, levels, i);
    }
  }

  lemma MarginalWithinSpot(spot: Spot, amount: pos, gained: int)
    requires 0 < spot.out && 0 < spot.input
    ensures MarginalOut(spot, amount, gained) * spot.input <= amount * spot.out
  {
    TruncBounds(amount * spot.out, spot.input);
    var out := MarginalOut(spot, amount, gained);
    assert out <= Trunc(amount * spot.out, spot.input);
    assert 0 <= amount * spot.out;
    assert out * spot.input <= Trunc(amount * spot.out, spot.input) * spot.input;
  }

  lemma TrancheSound(venueId: nat, quotes: seq<int>, levels: seq<int>, i: nat)
    requires i < |quotes| <= |levels| && Ascending(levels) && 0 < levels[0]
    ensures var t := TrancheAt(venueId, quotes, levels, i);
            && (t.key.Bps? <==> 0 < quotes[i])
            && Sane(t) && WithinSpot(t, SpotOf(quotes, levels))
            && (0 < quotes[i] ==> t.to == levels[i]
                                  && t.from == if LastGood(quotes, i) < 0 then 0 else levels[LastGood(quotes, i)])
  {
    if 0 < quotes[i] {
      var t, spot, last := TrancheAt(venueId, quotes, levels, i), SpotOf(quotes, levels), LastGood(quotes, i);
      assert FirstGood(quotes) <= i;
      assert 0 < spot.out && 0 < spot.input && 0 < t.amount;
      MarginalWithinSpot(spot, t.amount, quotes[i] - if last < 0 then 0 else quotes[last]);
      hide Trunc, MarginalOut, SpotOf, LastGood, FirstGood;
    }
  }

  // ─── Ranking ────────────────────────────────────────

  predicate Leq(a: Key, b: Key) {
    b.Unbounded? || (a.Bps? && a.n <= b.n)
  }

  predicate Ranked(s: seq<Tranche>) {
    forall i, j :: 0 <= i < j < |s| ==> Leq(s[i].key, s[j].key)
  }

  /** A stable insertion before the first tranche that ranks no lower. */
  function Insert(t: Tranche, s: seq<Tranche>): seq<Tranche> {
    if s == [] || Leq(t.key, s[0].key) then [t] + s else [s[0]] + Insert(t, s[1..])
  }

  /** The stable sort by marginal bps. */
  function Rank(s: seq<Tranche>): seq<Tranche> {
    if s == [] then [] else Insert(s[0], Rank(s[1..]))
  }

  lemma {:induction false} InsertKeeps(t: Tranche, s: seq<Tranche>)
    ensures multiset(Insert(t, s)) == multiset([t]) + multiset(s)
    ensures forall x <- Insert(t, s) :: x == t || x in s
  {
    if !(s == [] || Leq(t.key, s[0].key)) {
      hide Leq;
      InsertKeeps(t, s[1..]);
      assert s == [s[0]] + s[1..];
    }
  }

  lemma {:induction false} InsertRanked(t: Tranche, s: seq<Tranche>)
    requires Ranked(s)
    ensures Ranked(Insert(t, s))
  {
    if !(s == [] || Leq(t.key, s[0].key)) {
      var head, tail, r := s[0], s[1..], Insert(t, s[1..]);
      assert forall i :: 0 <= i < |tail| ==> tail[i] == s[i + 1];
      InsertRanked(t, tail);
      InsertKeeps(t, tail);
      forall j | 0 <= j < |r| ensures Leq(head.key, r[j].key) {
        assert r[j] in r;
        if r[j] != t {
          var i :| 0 <= i < |tail| && tail[i] == r[j];
          assert Leq(s[0].key, s[i + 1].key);
        }
      }
    }
  }

  /** The ranking is sorted, loses nothing, and keeps each venue's own order wherever
      its keys already ascend. */
  lemma {:induction false} RankSorts(s: seq<Tranche>)
    ensures Ranked(Rank(s)) && multiset(Rank(s)) == multiset(s)
  {
    if s != [] {
      RankSorts(s[1..]);
      InsertRanked(s[0], Rank(s[1..]));
      InsertKeeps(s[0], Rank(s[1..]));
      hide Insert, Ranked;
      assert s == [s[0]] + s[1..];
    }
  }

  lemma RankMembers(s: seq<Tranche>)
    ensures |Rank(s)| == |s| && forall t <- Rank(s) :: t in s
  {
    RankSorts(s);
    assert |s| == |multiset(s)|;
    hide Rank;
    forall t | t in Rank(s) ensures t in s {
      assert t in multiset(Rank(s));
    }
  }

  lemma OfCons(v: nat, t: Tranche, s: seq<Tranche>)
    ensures Of(v, [t] + s) == if t.venueId == v && t.key.Bps? then [t] + Of(v, s) else Of(v, s)
  {
    assert ([t] + s)[1..] == s;
  }

  lemma {:induction false} InsertOf(v: nat, t: Tranche, s: seq<Tranche>)
    requires Ranked(s)
    ensures Of(v, Insert(t, s)) == if t.venueId == v && t.key.Bps? then Insert(t, Of(v, s)) else Of(v, s)
  {
    OfCons(v, t, s);
    if s == [] {
    } else if Leq(t.key, s[0].key) {
      OfRanked(v, s, t.key);
      assert Of(v, s) != [] ==> Of(v, s)[0] in Of(v, s);
    } else {
      var head, tail := s[0], s[1..];
      assert s == [head] + tail;
      assert forall i :: 0 <= i < |tail| ==> tail[i] == s[i + 1];
      InsertOf(v, t, tail);
      OfCons(v, head, tail);
      OfCons(v, head, Insert(t, tail));
      assert ([head] + Of(v, tail))[1..] == Of(v, tail);
    }
  }

  lemma {:induction false} OfRanked(v: nat, s: seq<Tranche>, key: Key)
    requires Ranked(s) && (s != [] ==> Leq(key, s[0].key))
    ensures forall t <- Of(v, s) :: Leq(key, t.key)
  {
    if s != [] {
      var tail := s[1..];
      assert forall i :: 0 <= i < |tail| ==> tail[i] == s[i + 1];
      OfRanked(v, tail, key);
    }
  }

  lemma {:induction false} RankOf(v: nat, s: seq<Tranche>)
    ensures Of(v, Rank(s)) == Rank(Of(v, s))
  {
    if s != [] {
      var head, tail := s[0], s[1..];
      assert s == [head] + tail;
      RankOf(v, tail);
      RankSorts(tail);
      InsertOf(v, head, Rank(tail));
      OfCons(v, head, tail);
      assert ([head] + Of(v, tail))[1..] == Of(v, tail);
    }
  }

  lemma {:induction false} RankFixed(l: seq<Tranche>)
    requires Ranked(l)
    ensures Rank(l) == l
  {
    if l != [] {
      var tail := l[1..];
      assert l == [l[0]] + tail;
      assert forall i :: 0 <= i < |tail| ==> tail[i] == l[i + 1];
      RankFixed(tail);
    }
  }

  // ─── Concave venues ─────────────────────────────────

  /** Each tranche of a ladder pays no better than the one before it. */
  predicate NonIncreasing(l: seq<Tranche>) {
    forall k :: 0 < k < |l| ==> l[k].expectedOut * l[k - 1].amount <= l[k - 1].expectedOut * l[k].amount
  }

  /** Then its integer keys ascend, truncation notwithstanding. */
  lemma {:induction false} NonIncreasingIsRanked(l: seq<Tranche>)
    requires NonIncreasing(l) && forall t <- l :: t.key.Bps? && Sane(t)
    ensures Ranked(l)
  {
    if l != [] {
      var n := |l| - 1;
      var front := l[..n];
      assert l == front + [l[n]];
      NonIncreasingIsRanked(front);
      if 0 < n {
        KeysAscend(l[n - 1], l[n]);
      }
    }
  }

  lemma KeysAscend(a: Tranche, b: Tranche)
    requires a.key.Bps? && b.key.Bps? && Sane(a) && Sane(b)
    requires b.expectedOut * a.amount <= a.expectedOut * b.amount
    ensures a.key.n <= b.key.n
  {
    var x, y := (a.amount - a.expectedOut) * BPS, (b.amount - b.expectedOut) * BPS;
    assert (a.amount - a.expectedOut) * b.amount <= (b.amount - b.expectedOut) * a.amount;
    assert x * b.amount == (a.amount - a.expectedOut) * b.amount * BPS;
    assert y * a.amount == (b.amount - b.expectedOut) * a.amount * BPS;
    TruncMonotone(x, a.amount, y, b.amount);
  }
}
