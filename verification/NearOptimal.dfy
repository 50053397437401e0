/** The greedy split is nearly optimal when venues are concave: no spread of the same
    input, even a fractional one, pays more than the greedy total plus one unit and
    two basis points of the input. The slack is what integer bps keys and the single
    partial tranche can cost. */
module NearOptimal {
  import opened Results
  import opened MulDiv
  import opened Tranches
  import opened Engine

  // ─── Pouring in rank order ──────────────────────────

  /** Fill each usable tranche in turn until the amount runs out. */
  function Pour(remaining: nat, s: seq<Tranche>): (fills: seq<int>)
    requires forall t <- s :: Sane(t)
    ensures |fills| == |s|
    decreases |s|
  {
    if s == [] then []
    else
      var fill := if s[0].key.Bps? then Min(remaining, s[0].amount) else 0;
      [fill] + Pour(remaining - fill, s[1..])
  }

  /** While something remains, each venue has been consumed exactly up to its next
      usable tranche. */
  ghost predicate InStep(a: Allocation, s: seq<Tranche>) {
    0 < a.remaining ==> forall v: nat :: Chained(Of(v, s), Consumed(a.routes, v))
  }

  lemma OnePour(a: Allocation, t: Tranche, tail: seq<Tranche>)
    requires 0 <= a.remaining && InStep(a, [t] + tail) && Sane(t)
    ensures FillOf(a, t) == if t.key.Bps? then Min(a.remaining, t.amount) else 0
    ensures 0 <= Take(a, t).remaining == a.remaining - FillOf(a, t) && InStep(Take(a, t), tail)
  {
    var a1, s := Take(a, t), [t] + tail;
    hide Share, Add;
    OfCons(t.venueId, t, tail);
    if 0 < a.remaining {
      assert Chained(Of(t.venueId, s), Consumed(a.routes, t.venueId));
      if t.key.Bps? {
        assert Of(t.venueId, s)[1..] == Of(t.venueId, tail);
        AddEffects(a.routes, t.venueId, FillOf(a, t), Share(t, FillOf(a, t)));
      }
      if 0 < a1.remaining {
        forall v: nat ensures Chained(Of(v, tail), Consumed(a1.routes, v)) {
          assert Chained(Of(v, s), Consumed(a.routes, v));
          OfCons(v, t, tail);
        }
      }
    }
  }

  /** On chained ladders in rank order the greedy loop simply pours. */
  lemma {:induction false} GreedyPours(a: Allocation, s: seq<Tranche>)
    requires 0 <= a.remaining && InStep(a, s) && forall t <- s :: Sane(t)
    ensures Fills(a, s) == Pour(a.remaining, s)
    decreases |s|
  {
    if s != [] {
      var t, tail := s[0], s[1..];
      assert s == [t] + tail && t in s && forall x <- tail :: x in s;
      hide InStep, Sane, FillOf, Take;
      OnePour(a, t, tail);
      GreedyPours(Take(a, t), tail);
    }
  }

  // ─── Real payouts ───────────────────────────────────

  /** A tranche's output per unit of input. */
  ghost function Rate(t: Tranche): real {
    if t.key.Bps? && 0 < t.amount then t.expectedOut as real / t.amount as real else 0.0
  }

  ghost function Gain(t: Tranche, x: real): real {
    x * Rate(t)
  }

  ghost function Pay(s: seq<Tranche>, x: seq<real>): real
    requires |x| == |s|
  {
    if s == [] then 0.0 else Gain(s[0], x[0]) + Pay(s[1..], x[1..])
  }

  ghost function SumOf(x: seq<real>): real {
    if x == [] then 0.0 else x[0] + SumOf(x[1..])
  }

  /** A way to spread an input over tranches: nothing negative, nothing beyond a
      tranche's depth, nothing where there is no liquidity. */
  ghost predicate Spread(s: seq<Tranche>, x: seq<real>) {
    |x| == |s| && (s == [] || (Fits(s[0], x[0]) && Spread(s[1..], x[1..])))
  }

  ghost predicate Fits(t: Tranche, x: real) {
    0.0 <= x <= if t.key.Bps? then t.amount as real else 0.0
  }

  ghost function Reals(fills: seq<int>): seq<real> {
    if fills == [] then [] else [fills[0] as real] + Reals(fills[1..])
  }

  function SumInts(fills: seq<int>): int {
    if fills == [] then 0 else fills[0] + SumInts(fills[1..])
  }

  /** The integer key pins the rate to within one bps either way. */
  lemma KeyPinsRate(t: Tranche)
    requires t.key.Bps? && Sane(t)
    ensures (BPS - t.key.n - 1) as real <= BPS as real * Rate(t) <= (BPS - t.key.n + 1) as real
  {
    var a, o, n := t.amount, t.expectedOut, t.key.n;
    TruncBounds((a - o) * BPS, a);
    hide Trunc;
    assert (n - 1) * a < a * BPS - o * BPS < (n + 1) * a;
    RateOver(t);
    hide Rate;
    RatioBounds(o * BPS, a, BPS - n - 1, BPS - n + 1);
  }

  lemma RateOver(t: Tranche)
    requires t.key.Bps? && 0 < t.amount
    ensures BPS as real * Rate(t) == (t.expectedOut * BPS) as real / t.amount as real
  {
    assert (t.expectedOut * BPS) as real == t.expectedOut as real * BPS as real;
  }

  lemma RatioBounds(p: int, a: pos, lo: int, hi: int)
    requires lo * a <= p <= hi * a
    ensures lo as real <= p as real / a as real <= hi as real
  {
    assert (lo * a) as real == lo as real * a as real;
    assert (hi * a) as real == hi as real * a as real;
    RealQuotient(p as real, a as real, lo as real, hi as real);
  }

  lemma RealScale(x: real, y: real, a: real)
    requires 0.0 < a
    ensures x < y <==> x * a < y * a
  {
  }

  lemma RealQuotient(p: real, a: real, lo: real, hi: real)
    requires 0.0 < a && lo * a <= p <= hi * a
    ensures lo <= p / a <= hi
  {
    var q := p / a;
    assert q * a == p;
    RealScale(q, lo, a);
    RealScale(hi, q, a);
  }

  // ─── The exchange argument ──────────────────────────

  /** The key at which pouring stops. */
  function Threshold(remaining: nat, s: seq<Tranche>, seen: int): int
    requires forall t <- s :: Sane(t)
    decreases |s|
  {
    if s == [] then seen
    else if s[0].key.Unbounded? then Threshold(remaining, s[1..], seen)
    else if remaining <= s[0].amount then s[0].key.n
    else Threshold(remaining - s[0].amount, s[1..], s[0].key.n)
  }

  /** Whatever is poured into ranks at or below the threshold; whatever is left
      unfilled ranks at or above it. */
  predicate Split(t: Tranche, fill: int, key: int) {
    && (t.key.Bps? ==> 0 <= fill <= t.amount)
    && (t.key.Unbounded? ==> fill == 0)
    && (t.key.Bps? && 0 < fill ==> t.key.n <= key)
    && (t.key.Bps? && fill < t.amount ==> key <= t.key.n)
  }

  predicate AllSplit(s: seq<Tranche>, fills: seq<int>, key: int) {
    |fills| == |s| && (s == [] || (Split(s[0], fills[0], key) && AllSplit(s[1..], fills[1..], key)))
  }

  lemma RankedTail(s: seq<Tranche>)
    requires Ranked(s) && s != []
    ensures Ranked(s[1..]) && forall t <- s[1..] :: t in s && Leq(s[0].key, t.key)
  {
    var tail := s[1..];
    assert forall i :: 0 <= i < |tail| ==> tail[i] == s[i + 1];
  }

  lemma {:induction false} PourSplits(remaining: nat, s: seq<Tranche>, seen: int)
    requires Ranked(s) && forall t <- s :: Sane(t) && (t.key.Bps? ==> seen <= t.key.n)
    ensures seen <= Threshold(remaining, s, seen)
    ensures AllSplit(s, Pour(remaining, s), Threshold(remaining, s, seen))
    decreases |s|
  {
    if s != [] {
      RankedTail(s);
      hide Ranked;
      var t, tail := s[0], s[1..];
      assert t in s;
      if t.key.Unbounded? {
        PourSplits(remaining, tail, seen);
      } else if remaining <= t.amount {
        PourNothing(tail);
        NothingSplits(tail, t.key.n);
      } else {
        PourSplits(remaining - t.amount, tail, t.key.n);
      }
    }
  }

  lemma {:induction false} NothingSplits(s: seq<Tranche>, key: int)
    requires forall t <- s :: Sane(t) && (t.key.Bps? ==> key <= t.key.n)
    ensures AllSplit(s, Pour(0, s), key)
  {
    if s != [] {
      assert s[0] in s && forall x <- s[1..] :: x in s;
      NothingSplits(s[1..], key);
      assert Pour(0, s)[1..] == Pour(0, s[1..]);
    }
  }

  lemma {:induction false} PourNothing(s: seq<Tranche>)
    requires forall t <- s :: Sane(t)
    ensures forall j :: 0 <= j < |s| ==> Pour(0, s)[j] == 0
  {
    if s != [] {
      assert s[0] in s && forall x <- s[1..] :: x in s;
      PourNothing(s[1..]);
    }
  }

  /** What one payout has over another, in bps, once each unit of input is charged the
      threshold rate. */
  ghost function Excess(key: int, paid: real, got: real, sum: real, used: real): real {
    BPS as real * (paid - got) - (BPS - key) as real * (sum - used)
  }

  lemma ExcessAdds(key: int, a: real, b: real, x: real, y: real, a': real, b': real, x': real, y': real)
    ensures Excess(key, a + a', b + b', x + x', y + y') == Excess(key, a, b, x, y) + Excess(key, a', b', x', y')
  {
    var c := (BPS - key) as real;
    assert c * ((x + x') - (y + y')) == c * (x - y) + c * (x' - y');
  }

  lemma Regroup(b: real, c: real, x: real, g: real, r: real)
    ensures b * (x * r - g * r) - c * (x - g) == (x - g) * (b * r - c)
  {
  }

  lemma MovedGain(x: real, g: real, gap: real)
    requires 0.0 <= x && 0.0 <= g
    requires (g < x ==> gap <= 1.0) && (x < g ==> -1.0 <= gap)
    ensures (x - g) * gap <= x + g
  {
    if g < x {
      RealScale(1.0, gap, x - g);
    } else if x < g {
      RealScale(gap, -1.0, g - x);
      assert (x - g) * gap == -((g - x) * gap);
    } else {
      assert (x - g) * gap == 0.0 * gap;
    }
  }

  /** Moving one tranche's share from greedy's to another's gains at most two bps of
      what is moved, measured against the threshold rate. */
  lemma OneTranche(t: Tranche, x: real, fill: int, key: int)
    requires Sane(t) && Split(t, fill, key) && Fits(t, x)
    ensures Excess(key, Gain(t, x), Gain(t, fill as real), x, fill as real) <= x + fill as real
  {
    hide Rate, Sane;
    if t.key.Bps? {
      KeyPinsRate(t);
    }
    var r, c := Rate(t), (BPS - key) as real;
    MovedGain(x, fill as real, BPS as real * r - c);
    Regroup(BPS as real, c, x, fill as real, r);
  }

  lemma PayCons(t: Tranche, s: seq<Tranche>, x: real, xs: seq<real>)
    requires |xs| == |s|
    ensures Pay([t] + s, [x] + xs) == Gain(t, x) + Pay(s, xs)
    ensures SumOf([x] + xs) == x + SumOf(xs)
  {
    hide Gain;
    assert ([t] + s)[1..] == s && ([x] + xs)[1..] == xs;
  }

  lemma RealsCons(fill: int, fills: seq<int>)
    ensures Reals([fill] + fills) == [fill as real] + Reals(fills)
  {
    assert ([fill] + fills)[1..] == fills;
  }

  lemma {:induction false} SumOfTranches(s: seq<Tranche>, x: seq<real>, fills: seq<int>, key: int)
    requires Spread(s, x) && AllSplit(s, fills, key) && forall t <- s :: Sane(t)
    ensures |Reals(fills)| == |s|
    ensures Excess(key, Pay(s, x), Pay(s, Reals(fills)), SumOf(x), SumOf(Reals(fills)))
            <= SumOf(x) + SumOf(Reals(fills))
  {
    if s == [] {
      assert Reals(fills) == [];
    } else {
      hide Gain, Excess, Split, Fits, Sane, Pay, SumOf, Reals;
      var t, s', x0, x', f0, f' := s[0], s[1..], x[0], x[1..], fills[0], fills[1..];
      assert t in s && forall u <- s' :: u in s;
      assert s == [t] + s' && x == [x0] + x' && fills == [f0] + f';
      OneTranche(t, x0, f0, key);
      SumOfTranches(s', x', f', key);
      PayCons(t, s', x0, x');
      RealsCons(f0, f');
      PayCons(t, s', f0 as real, Reals(f'));
      ExcessAdds(key, Gain(t, x0), Gain(t, f0 as real), x0, f0 as real,
                 Pay(s', x'), Pay(s', Reals(f')), SumOf(x'), SumOf(Reals(f')));
    }
  }

  lemma GotCons(t: Tranche, s: seq<Tranche>, fill: int, fills: seq<int>)
    requires |fills| == |s|
    ensures Got([t] + s, [fill] + fills) == Share(t, fill) + Got(s, fills)
  {
    assert ([t] + s)[1..] == s && ([fill] + fills)[1..] == fills;
  }

  /** Rounding costs the greedy total less than one unit: every fill but one is a whole
      tranche or nothing. */
  lemma {:induction false} PourLosesLittle(remaining: nat, s: seq<Tranche>)
    requires forall t <- s :: Sane(t)
    ensures |Reals(Pour(remaining, s))| == |s|
    ensures Pay(s, Reals(Pour(remaining, s))) - 1.0 <= Got(s, Pour(remaining, s)) as real
    decreases |s|
  {
    if s != [] {
      var t, tail := s[0], s[1..];
      assert t in s && forall x <- tail :: x in s;
      assert s == [t] + tail;
      var fill := if t.key.Bps? then Min(remaining, t.amount) else 0;
      var g := Pour(remaining - fill, tail);
      assert Pour(remaining, s) == [fill] + g;
      hide Gain, Share, Sane, Pay, SumOf, Reals, Got, Pour;
      PourLosesLittle(remaining - fill, tail);
      RealsCons(fill, g);
      PayCons(t, tail, fill as real, Reals(g));
      GotCons(t, tail, fill, g);
      if t.key.Bps? && fill < t.amount {
        ShareNearRate(t, fill);
        PourNothing(tail);
        PayNothing(tail, g);
      } else {
        WholeShareExact(t, fill);
      }
    }
  }

  lemma ShareNearRate(t: Tranche, fill: int)
    requires Sane(t) && 0 <= fill && (t.key.Unbounded? ==> fill == 0)
    ensures Gain(t, fill as real) - 1.0 <= Share(t, fill) as real
  {
    if t.key.Bps? {
      var p, a := t.expectedOut * fill, t.amount;
      TruncBounds(p, a);
      var share := Trunc(p, a);
      RateTimes(t, fill);
      assert (share - 1) * a <= p <= (share + 1) * a;
      RatioBounds(p, a, share - 1, share + 1);
    } else {
      assert t.expectedOut * 0 == 0;
    }
  }

  lemma RateTimes(t: Tranche, fill: int)
    requires t.key.Bps? && 0 < t.amount
    ensures Gain(t, fill as real) == (t.expectedOut * fill) as real / t.amount as real
  {
    assert (t.expectedOut * fill) as real == t.expectedOut as real * fill as real;
  }

  lemma WholeShareExact(t: Tranche, fill: int)
    requires Sane(t) && fill == if t.key.Bps? then t.amount else 0
    ensures Gain(t, fill as real) == Share(t, fill) as real
  {
    if t.key.Bps? {
      RateTimes(t, fill);
      TruncExact(t.expectedOut, t.amount);
    } else {
      assert t.expectedOut * 0 == 0;
    }
  }

  lemma TruncExact(e: int, a: pos)
    ensures Trunc(e * a, a) == e && (e * a) as real / a as real == e as real
  {
    TruncBounds(e * a, a);
    var q := Trunc(e * a, a);
    IntScale(q - 1, e, a);
    IntScale(e, q + 1, a);
    assert (e * a) as real == e as real * a as real;
  }

  lemma IntScale(x: int, y: int, a: pos)
    ensures x < y <==> x * a < y * a
  {
  }

  lemma {:induction false} PayNothing(s: seq<Tranche>, fills: seq<int>)
    requires |fills| == |s| && forall j :: 0 <= j < |s| ==> fills[j] == 0
    ensures |Reals(fills)| == |s| && Pay(s, Reals(fills)) == 0.0 && Got(s, fills) == 0
  {
    if s != [] {
      PayNothing(s[1..], fills[1..]);
      assert Reals(fills)[1..] == Reals(fills[1..]);
      assert s[0].expectedOut * 0 == 0;
    }
  }

  lemma {:induction false} SumOfReals(fills: seq<int>)
    ensures SumOf(Reals(fills)) == SumInts(fills) as real
  {
    if fills != [] {
      SumOfReals(fills[1..]);
      assert Reals(fills)[1..] == Reals(fills[1..]);
    }
  }

  /** What pouring uses: the amount, or all the liquidity there is. */
  function Capacity(s: seq<Tranche>): int {
    if s == [] then 0 else (if s[0].key.Bps? then s[0].amount else 0) + Capacity(s[1..])
  }

  lemma {:induction false} PourUses(remaining: nat, s: seq<Tranche>)
    requires forall t <- s :: Sane(t)
    ensures 0 <= Capacity(s) && SumInts(Pour(remaining, s)) == Min(remaining, Capacity(s))
    decreases |s|
  {
    if s != [] {
      assert s[0] in s && forall x <- s[1..] :: x in s;
      var fill := if s[0].key.Bps? then Min(remaining, s[0].amount) else 0;
      PourUses(remaining - fill, s[1..]);
      assert Pour(remaining, s)[1..] == Pour(remaining - fill, s[1..]);
    }
  }

  lemma {:induction false} LowestKey(s: seq<Tranche>) returns (low: int)
    ensures forall t <- s :: t.key.Bps? ==> low <= t.key.n
  {
    if s == [] {
      low := 0;
    } else {
      low := LowestKey(s[1..]);
      if s[0].key.Bps? && s[0].key.n < low {
        low := s[0].key.n;
      }
    }
  }

  /** No spread of the same input over ranked tranches pays more than pouring, plus
      one unit and 2 x input / 10000. */
  lemma PouringIsNearOptimal(s: seq<Tranche>, total: nat, x: seq<real>)
    requires Ranked(s) && forall t <- s :: Sane(t)
    requires Spread(s, x) && SumOf(x) == SumInts(Pour(total, s)) as real
    ensures Pay(s, x) <= Got(s, Pour(total, s)) as real + 1.0 + 2.0 * SumInts(Pour(total, s)) as real / 10_000.0
  {
    var low := LowestKey(s);
    var fills := Pour(total, s);
    PourSplits(total, s, low);
    SumOfTranches(s, x, fills, Threshold(total, s, low));
    SumOfReals(fills);
    PourLosesLittle(total, s);
    hide Pay, SumOf, Reals, SumInts, Got, Pour, Threshold;
    var c := (BPS - Threshold(total, s, low)) as real;
    assert c * (SumOf(x) - SumOf(Reals(fills))) == c * 0.0;
    assert 10_000.0 * (Pay(s, x) - Pay(s, Reals(fills))) <= 2.0 * SumInts(fills) as real;
  }
}
