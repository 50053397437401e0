/** Reading a quote off sampled points of a concave curve: never above the curve, and
    never far below it. */
module QuoteCurve {
  import opened Results
  import opened MulDiv

  const RATIO_NUM: pos := 16
  const RATIO_DEN: pos := 10

  datatype Point = Point(amountIn: int, amountOut: int, ts: int)

  predicate WithinRatio(a: int, b: int) {
    a <= b * RATIO_NUM / RATIO_DEN && b <= a * RATIO_NUM / RATIO_DEN
  }

  /** Just below the smallest point: its average rate, less one unit-rate. */
  function Below(first: Point, x: int): Option<int>
    requires 0 < x < first.amountIn && 0 <= first.amountOut
  {
    if !WithinRatio(x, first.amountIn) then None
    else if first.amountOut == 0 then Some(0)
    else
      var scaled := x * first.amountOut / first.amountIn;
      var unitRate := (first.amountOut + first.amountIn - 1) / first.amountIn;
      Some(if unitRate < scaled then scaled - unitRate else 0)
  }

  /** Between two neighbours: their chord, if they are close and consistent. */
  function Between(lo: Point, hi: Point, x: int): Option<int>
    requires lo.amountIn < x < hi.amountIn
  {
    if !WithinRatio(lo.amountIn, hi.amountIn) then None
    else if lo.amountOut == 0 || hi.amountOut == 0 || hi.amountOut < lo.amountOut then None
    else Some(lo.amountOut + (x - lo.amountIn) * (hi.amountOut - lo.amountOut) / (hi.amountIn - lo.amountIn))
  }

  function Exact(points: seq<Point>, x: int): Option<int> {
    if points == [] then None
    else if points[0].amountIn == x then Some(points[0].amountOut)
    else Exact(points[1..], x)
  }

  function Bracketed(points: seq<Point>, x: int): Option<int> {
    if |points| < 2 then None
    else if points[0].amountIn < x < points[1].amountIn then Between(points[0], points[1], x)
    else Bracketed(points[1..], x)
  }

  /** Points in strictly ascending order of amount above `low`, none paying less than
      nothing. */
  predicate Sorted(points: seq<Point>, low: int) {
    points == [] || (low < points[0].amountIn && 0 <= points[0].amountOut && Sorted(points[1..], points[0].amountIn))
  }

  /** What the points alone say of an amount, if they say anything. */
  function Read(points: seq<Point>, x: int): Option<int>
    requires Sorted(points, 0)
  {
    if points == [] || x <= 0 then None
    else if Exact(points, x).Some? then Exact(points, x)
    else if x < points[0].amountIn then Below(points[0], x)
    else if points[|points| - 1].amountIn < x then None
    else Bracketed(points, x)
  }

  /** readOff. */
  method ReadOff(points: seq<Point>, x: int) returns (r: Option<int>)
    requires Sorted(points, 0)
    ensures r == Read(points, x)
  {
    if points == [] || x <= 0 { return None; }
    for i := 0 to |points|
      invariant Exact(points, x) == Exact(points[i..], x)
    {
      if points[i].amountIn == x {
        return Some(points[i].amountOut);
      }
      assert points[i..][1..] == points[i + 1..];
    }
    var first, last := points[0], points[|points| - 1];
    if x < first.amountIn {
      if !WithinRatio(x, first.amountIn) { return None; }
      if first.amountOut == 0 { return Some(0); }
      var scaled := x * first.amountOut / first.amountIn;
      var unitRate := (first.amountOut + first.amountIn - 1) / first.amountIn;
      return Some(if unitRate < scaled then scaled - unitRate else 0);
    }
    if last.amountIn < x { return None; }
    assert points[0..] == points;
    for i := 1 to |points|
      invariant Bracketed(points[i - 1..], x) == Bracketed(points, x)
    {
      var lo, hi := points[i - 1], points[i];
      assert points[i - 1..][1..] == points[i..];
      if lo.amountIn < x < hi.amountIn {
        r := Chord(lo, hi, x);
        return;
      }
    }
    r := None;
  }

  method Chord(lo: Point, hi: Point, x: int) returns (r: Option<int>)
    requires lo.amountIn < x < hi.amountIn
    ensures r == Between(lo, hi, x)
  {
    if !WithinRatio(lo.amountIn, hi.amountIn) { return None; }
    if lo.amountOut == 0 || hi.amountOut == 0 { return None; }
    var span := hi.amountIn - lo.amountIn;
    var rise := hi.amountOut - lo.amountOut;
    if rise < 0 { return None; }
    r := Some(lo.amountOut + (x - lo.amountIn) * rise / span);
  }

  // ─── Against the true curve ─────────────────────────

  /** A venue's true output, before flooring: concave, and nothing lost on nothing. */
  ghost predicate ConcaveCurve(f: int -> real) {
    && 0.0 <= f(0)
    && (forall a, b, c :: 0 <= a < b < c ==> f(a) * (c - b) as real + f(c) * (b - a) as real <= f(b) * (c - a) as real)
  }

  /** The points are floored samples of the curve. */
  ghost predicate SampledFrom(points: seq<Point>, f: int -> real) {
    forall p <- points :: p.amountOut == f(p.amountIn).Floor
  }

  lemma RealCancel(p: real, q: real, s: real)
    requires 0.0 < s && p * s <= q * s
    ensures p <= q
  {
  }

  lemma RealGrows(p: real, q: real, s: real)
    requires 0.0 <= s && p <= q
    ensures p * s <= q * s
  {
  }

  lemma AtMostFloor(n: int, y: real)
    requires n as real <= y
    ensures n <= y.Floor
  {
  }

  lemma ConcaveAt(f: int -> real, a: int, b: int, c: int)
    requires ConcaveCurve(f) && 0 <= a < b < c
    ensures f(a) * (c - b) as real + f(c) * (b - a) as real <= f(b) * (c - a) as real
  {
  }

  lemma ScaledReal(f0: real, fa: real, fx: real, a: real, out: real, x: real, q: real)
    requires 0.0 < x < a && 0.0 <= f0 && out <= fa && q * a <= out * x
    requires f0 * (a - x) + fa * x <= fx * a
    ensures q <= fx
  {
    RealGrows(0.0, f0, a - x);
    RealGrows(out, fa, x);
    RealCancel(q, fx, a);
  }

  lemma ScaledBelow(f0: real, fa: real, fx: real, a: int, out: int, x: int)
    requires 0 < x < a && 0.0 <= f0 && out as real <= fa
    requires f0 * (a - x) as real + fa * x as real <= fx * a as real
    ensures (x * out / a) as real <= fx
  {
    var q := x * out / a;
    FloorOfProduct(q, a, x * out);
    ProductAsReal(x, out);
    ScaledReal(f0, fa, fx, a as real, out as real, x as real, q as real);
  }

  lemma ProductAsReal(x: int, y: int)
    ensures (x * y) as real == x as real * y as real
  {
  }

  lemma ScaledSafe(f: int -> real, a: int, out: int, x: int)
    requires ConcaveCurve(f) && 0 < x < a && out == f(a).Floor && 0.0 <= f(0)
    ensures (x * out / a) as real <= f(x)
  {
    ConcaveAt(f, 0, x, a);
    hide ConcaveCurve;
    ScaledBelow(f(0), f(a), f(x), a, out, x);
  }

  lemma FloorOfProduct(q: int, a: int, p: int)
    requires 0 < a && q == p / a
    ensures q as real * a as real <= p as real
  {
    assert q * a <= p;
    assert (q * a) as real == q as real * a as real;
  }

  lemma BelowIsSafe(f: int -> real, first: Point, x: int)
    requires ConcaveCurve(f) && 0 < x < first.amountIn && 0 <= first.amountOut == f(first.amountIn).Floor
    ensures Below(first, x).Some? ==> Below(first, x).value <= f(x).Floor
  {
    assert 0.0 <= f(0);
    ScaledSafe(f, first.amountIn, first.amountOut, x);
    hide ConcaveCurve, Below;
    ScaledDown(first, x);
    AtMostFloor(x * first.amountOut / first.amountIn, f(x));
  }

  lemma ScaledDown(first: Point, x: int)
    requires 0 < x < first.amountIn && 0 <= first.amountOut
    ensures Below(first, x).Some? ==> Below(first, x).value <= x * first.amountOut / first.amountIn
  {
    ScaledSign(x, first.amountOut, first.amountIn);
    ScaledSign(1, first.amountOut + first.amountIn - 1, first.amountIn);
  }

  lemma ScaledSign(x: nat, out: nat, a: pos)
    ensures 0 <= x * out / a
  {
  }

  lemma ChordReal(fl: real, fh: real, fx: real, lo: real, hi: real, left: real, right: real, step: real)
    requires 0.0 < left && 0.0 < right && lo <= fl && hi <= fh
    requires step * (left + right) <= left * (hi - lo)
    requires fl * right + fh * left <= fx * (left + right)
    ensures lo + step <= fx
  {
    RealGrows(lo, fl, right);
    RealGrows(hi, fh, left);
    var s := left + right;
    assert left * (hi - lo) == hi * left - lo * left;
    assert lo * s == lo * right + lo * left;
    assert (lo + step) * s == lo * s + step * s;
    assert step * s <= hi * left - lo * left;
    assert (lo + step) * s <= lo * right + hi * left;
    var below, above := lo * right + hi * left, fl * right + fh * left;
    assert below <= above && above <= fx * s;
    assert (lo + step) * s <= fx * s;
    RealCancel(lo + step, fx, s);
  }

  lemma ChordBelow(fl: real, fh: real, fx: real, lo: int, hi: int, left: int, right: int)
    requires 0 < left && 0 < right && lo as real <= fl && hi as real <= fh
    requires fl * right as real + fh * left as real <= fx * (left + right) as real
    ensures (lo + left * (hi - lo) / (left + right)) as real <= fx
  {
    var step := left * (hi - lo) / (left + right);
    FloorOfProduct(step, left + right, left * (hi - lo));
    ProductAsReal(left, hi - lo);
    ChordReal(fl, fh, fx, lo as real, hi as real, left as real, right as real, step as real);
  }

  lemma BetweenIsChord(lo: Point, hi: Point, x: int)
    requires lo.amountIn < x < hi.amountIn
    ensures Between(lo, hi, x).Some? ==>
              var left, right := x - lo.amountIn, hi.amountIn - x;
              Between(lo, hi, x).value == lo.amountOut + left * (hi.amountOut - lo.amountOut) / (left + right)
  {
    assert hi.amountIn - lo.amountIn == (x - lo.amountIn) + (hi.amountIn - x);
  }

  lemma ChordIsSafe(f: int -> real, lo: Point, hi: Point, x: int)
    requires ConcaveCurve(f) && 0 < lo.amountIn < x < hi.amountIn
    requires lo.amountOut == f(lo.amountIn).Floor && hi.amountOut == f(hi.amountIn).Floor
    ensures Between(lo, hi, x).Some? ==> Between(lo, hi, x).value <= f(x).Floor
  {
    var l, h := lo.amountIn, hi.amountIn;
    ConcaveAt(f, l, x, h);
    hide ConcaveCurve, Between;
    ChordBelow(f(l), f(h), f(x), lo.amountOut, hi.amountOut, x - l, h - x);
    BetweenIsChord(lo, hi, x);
    if Between(lo, hi, x).Some? {
      AtMostFloor(Between(lo, hi, x).value, f(x));
    }
  }

  /** A chord across a tight bracket loses at most the ratio: the curve at x pays less
      than 1.6 times the answer and a unit. */
  lemma ChordIsTight(f: int -> real, lo: Point, hi: Point, x: int)
    requires ConcaveCurve(f) && 0 < lo.amountIn < x < hi.amountIn && 0 <= lo.amountOut == f(lo.amountIn).Floor
    requires Between(lo, hi, x).Some?
    ensures f(x) < 1.6 * (Between(lo, hi, x).value as real + 1.0)
  {
    var a, answer := lo.amountIn, Between(lo, hi, x).value;
    ConcaveAt(f, 0, a, x);
    hide ConcaveCurve;
    assert lo.amountOut <= answer by {
      RiseIsGain(x - a, hi.amountOut - lo.amountOut, hi.amountIn - a);
    }
    assert hi.amountIn * RATIO_DEN <= a * RATIO_NUM;
    hide Between;
    TightBound(f(0), f(x), f(a), answer as real + 1.0, x as real, a as real);
  }

  lemma RiseIsGain(left: nat, rise: nat, span: pos)
    ensures 0 <= left * rise / span
  {
  }

  lemma TightBound(f0: real, fx: real, fa: real, u: real, x: real, a: real)
    requires 0.0 < a < x && 10.0 * x < 16.0 * a && 0.0 <= f0 && 0.0 <= fa < u && f0 * (x - a) + fx * a <= fa * x
    ensures fx < 1.6 * u
  {
    RealGrows(0.0, f0, x - a);
    RealGrows(fa, u, x);
    assert fx * a <= u * x;
    var slack := 1.6 * a - x;
    assert 0.0 < slack * u;
    assert slack * u == (1.6 * u) * a - u * x;
    RealLess(fx, 1.6 * u, a);
  }

  lemma RealLess(p: real, q: real, s: real)
    requires 0.0 < s && p * s < q * s
    ensures p < q
  {
  }

  lemma {:induction false} ExactIsSample(points: seq<Point>, x: int)
    ensures Exact(points, x).Some? ==> exists p <- points :: p.amountIn == x && p.amountOut == Exact(points, x).value
  {
    if points != [] {
      ExactIsSample(points[1..], x);
      assert points[0] in points && forall p <- points[1..] :: p in points;
    }
  }

  lemma {:induction false} BracketedIsSafe(f: int -> real, points: seq<Point>, x: int, low: int)
    requires ConcaveCurve(f) && SampledFrom(points, f) && 0 <= low && Sorted(points, low)
    requires Bracketed(points, x).Some?
    ensures Bracketed(points, x).value <= f(x).Floor
    ensures f(x) < 1.6 * (Bracketed(points, x).value as real + 1.0)
  {
    hide ConcaveCurve, Between;
    var lo, hi := points[0], points[1];
    assert lo in points && hi in points;
    if lo.amountIn < x < hi.amountIn {
      ChordIsSafe(f, lo, hi, x);
      ChordIsTight(f, lo, hi, x);
    } else {
      BracketedIsSafe(f, points[1..], x, lo.amountIn);
    }
  }

  /** No answer is above what the venue itself would pay. */
  lemma ReadNeverOverQuotes(f: int -> real, points: seq<Point>, x: int)
    requires ConcaveCurve(f) && Sorted(points, 0) && SampledFrom(points, f)
    requires Read(points, x).Some?
    ensures Read(points, x).value <= f(x).Floor
  {
    hide ConcaveCurve, Below, Between;
    if Exact(points, x).Some? {
      ExactIsSample(points, x);
    } else if x < points[0].amountIn {
      assert points[0] in points;
      BelowIsSafe(f, points[0], x);
    } else {
      BracketedIsSafe(f, points, x, 0);
    }
  }

  /** And one between two points is within the ratio of it. */
  lemma ReadIsTight(f: int -> real, points: seq<Point>, x: int)
    requires ConcaveCurve(f) && Sorted(points, 0) && SampledFrom(points, f)
    requires Read(points, x).Some? && points[0].amountIn <= x
    ensures f(x) < 1.6 * (Read(points, x).value as real + 1.0)
  {
    hide ConcaveCurve, Between;
    if Exact(points, x).Some? {
      ExactIsSample(points, x);
      SortedMembers(points, 0);
    } else {
      BracketedIsSafe(f, points, x, 0);
    }
  }

  lemma {:induction false} SortedMembers(points: seq<Point>, low: int)
    requires Sorted(points, low)
    ensures forall p <- points :: low < p.amountIn && 0 <= p.amountOut
  {
    if points != [] {
      SortedMembers(points[1..], points[0].amountIn);
    }
  }

  // ─── What an answer is, sample by sample ────────────

  /** Two amounts within 16/10 of each other, both ways. */
  predicate Close(a: int, b: int) {
    a * 10 <= b * 16 && b * 10 <= a * 16
  }

  lemma WithinRatioIff(a: nat, b: nat)
    ensures WithinRatio(a, b) <==> Close(a, b)
  {
    QuotientGalois(b * RATIO_NUM, RATIO_DEN, a);
    QuotientGalois(a * RATIO_NUM, RATIO_DEN, b);
  }

  lemma {:induction false} NoExact(points: seq<Point>, x: int, low: int)
    requires Sorted(points, low) && x <= low
    ensures Exact(points, x) == None
  {
    if points != [] {
      NoExact(points[1..], x, points[0].amountIn);
    }
  }

  /** Just below the first sample an amount is answered exactly if the two are close; from
      a positive sample the answer is its average rate less one unit-rate, within one unit. */
  lemma ReadBelowFirst(points: seq<Point>, x: int)
    requires Sorted(points, 0) && points != [] && 0 < x < points[0].amountIn
    ensures var first, r := points[0], Read(points, x);
            && (r.Some? <==> Close(x, first.amountIn))
            && (r.Some? && first.amountOut == 0 ==> r.value == 0)
            && (r.Some? && 0 < first.amountOut ==>
                  0 <= r.value && r.value * first.amountIn <= x * first.amountOut
                  && x * first.amountOut < (r.value + 1) * first.amountIn + first.amountOut + first.amountIn - 1)
  {
    NoExact(points[1..], x, points[0].amountIn);
    WithinRatioIff(x, points[0].amountIn);
    BelowExact(points[0], x);
    hide WithinRatio, Below, Exact, Bracketed;
    assert Read(points, x) == Below(points[0], x) by {
      FirstIsNotExact(points, x);
    }
  }

  lemma FirstIsNotExact(points: seq<Point>, x: int)
    requires points != [] && points[0].amountIn != x && Exact(points[1..], x) == None
    ensures Exact(points, x) == None
  {
  }

  lemma BelowExact(first: Point, x: int)
    requires 0 < x < first.amountIn && 0 <= first.amountOut
    ensures var r := Below(first, x);
            && (r.Some? <==> WithinRatio(x, first.amountIn))
            && (r.Some? && first.amountOut == 0 ==> r.value == 0)
            && (r.Some? && 0 < first.amountOut ==>
                  0 <= r.value && r.value * first.amountIn <= x * first.amountOut
                  && x * first.amountOut < (r.value + 1) * first.amountIn + first.amountOut + first.amountIn - 1)
  {
    hide WithinRatio;
    if 0 < first.amountOut {
      ShavedScale(x, first.amountOut, first.amountIn);
    }
  }

  lemma ShavedScale(x: pos, out: pos, a: pos)
    ensures var scaled, unit := x * out / a, (out + a - 1) / a;
            var answer := if unit < scaled then scaled - unit else 0;
            && 0 <= answer && answer * a <= x * out && x * out < (answer + 1) * a + out + a - 1
  {
    var scaled, unit := x * out / a, (out + a - 1) / a;
    ProductPositive(x, out);
    QuotientGalois(x * out, a, scaled);
    QuotientGalois(x * out, a, scaled + 1);
    QuotientGalois(out + a - 1, a, unit);
    QuotientGalois(x * out, a, 0);
    var answer := if unit < scaled then scaled - unit else 0;
    assert answer <= scaled <= answer + unit;
    MultipleOrder(answer, scaled, a);
    MultipleOrder(scaled + 1, answer + unit + 1, a);
    assert (answer + unit + 1) * a == (answer + 1) * a + unit * a;
  }

  lemma ProductPositive(x: pos, y: pos)
    ensures 0 < x * y
  {
  }

  lemma {:induction false} ExactAt(points: seq<Point>, i: nat, low: int)
    requires Sorted(points, low) && i < |points|
    ensures low < points[i].amountIn && Exact(points, points[i].amountIn) == Some(points[i].amountOut)
  {
    if 0 < i {
      ExactAt(points[1..], i - 1, points[0].amountIn);
    }
  }

  /** A sampled amount is answered with its sample. */
  lemma ReadAtSample(points: seq<Point>, i: nat)
    requires Sorted(points, 0) && i < |points|
    ensures Read(points, points[i].amountIn) == Some(points[i].amountOut)
  {
    ExactAt(points, i, 0);
  }

  lemma {:induction false} Strict(points: seq<Point>, i: nat, j: nat, low: int)
    requires Sorted(points, low) && i < j < |points|
    ensures low < points[i].amountIn < points[j].amountIn && 0 <= points[i].amountOut && 0 <= points[j].amountOut
  {
    if 0 < i {
      Strict(points[1..], i - 1, j - 1, points[0].amountIn);
    } else {
      ExactAt(points[1..], j - 1, points[0].amountIn);
      SortedMembers(points, low);
      assert points[0] in points && points[j] in points;
    }
  }

  lemma {:induction false} BracketedAt(points: seq<Point>, x: int, i: nat, low: int)
    requires Sorted(points, low) && i + 1 < |points| && points[i].amountIn < x < points[i + 1].amountIn
    ensures Exact(points, x) == None && Bracketed(points, x) == Between(points[i], points[i + 1], x)
  {
    hide Between;
    if 0 < i {
      Strict(points, 0, i, low);
      if 1 < i {
        Strict(points, 1, i, low);
      }
      BracketedAt(points[1..], x, i - 1, points[0].amountIn);
    } else {
      assert points[1..][0] == points[1];
      NoExact(points[2..], x, points[1].amountIn);
      assert points[1..][1..] == points[2..];
    }
  }

  /** Between two neighbouring samples an amount is answered exactly if they are close,
      both positive and not falling; the answer is their chord, rounded down. */
  lemma ReadBetweenSamples(points: seq<Point>, x: int, i: nat)
    requires Sorted(points, 0) && i + 1 < |points| && points[i].amountIn < x < points[i + 1].amountIn
    ensures var lo, hi, r := points[i], points[i + 1], Read(points, x);
            && (r.Some? <==> Close(lo.amountIn, hi.amountIn) && 0 < lo.amountOut <= hi.amountOut)
            && (r.Some? ==>
                  var over := r.value - lo.amountOut;
                  over * (hi.amountIn - lo.amountIn) <= (x - lo.amountIn) * (hi.amountOut - lo.amountOut)
                  < (over + 1) * (hi.amountIn - lo.amountIn))
  {
    var lo, hi := points[i], points[i + 1];
    Strict(points, i, i + 1, 0);
    if 0 < i {
      Strict(points, 0, i, 0);
    }
    if i + 1 < |points| - 1 {
      Strict(points, i + 1, |points| - 1, 0);
    }
    BracketedAt(points, x, i, 0);
    WithinRatioIff(lo.amountIn, hi.amountIn);
    BetweenExact(lo, hi, x);
    hide Between, Bracketed, Exact, WithinRatio;
  }

  lemma BetweenExact(lo: Point, hi: Point, x: int)
    requires lo.amountIn < x < hi.amountIn && 0 <= lo.amountOut && 0 <= hi.amountOut
    ensures var r := Between(lo, hi, x);
            && (r.Some? <==> WithinRatio(lo.amountIn, hi.amountIn) && 0 < lo.amountOut <= hi.amountOut)
            && (r.Some? ==>
                  var over := r.value - lo.amountOut;
                  over * (hi.amountIn - lo.amountIn) <= (x - lo.amountIn) * (hi.amountOut - lo.amountOut)
                  < (over + 1) * (hi.amountIn - lo.amountIn))
  {
    hide WithinRatio;
    if lo.amountOut <= hi.amountOut {
      var p, d := (x - lo.amountIn) * (hi.amountOut - lo.amountOut), hi.amountIn - lo.amountIn;
      ProductNonNegative(x - lo.amountIn, hi.amountOut - lo.amountOut);
      QuotientGalois(p, d, p / d);
      QuotientGalois(p, d, p / d + 1);
    }
  }

  lemma ProductNonNegative(x: nat, y: nat)
    ensures 0 <= x * y
  {
  }

  /** Nothing is answered above the last sample, nor for nothing, nor without samples. */
  lemma ReadOutside(points: seq<Point>, x: int)
    requires Sorted(points, 0) && (points == [] || x <= 0 || points[|points| - 1].amountIn < x)
    ensures Read(points, x) == None
  {
    if points != [] && 0 < x {
      AboveAll(points, x, 0);
      if 1 < |points| {
        Strict(points, 0, |points| - 1, 0);
      }
    }
  }

  lemma {:induction false} AboveAll(points: seq<Point>, x: int, low: int)
    requires Sorted(points, low) && points != [] && points[|points| - 1].amountIn < x
    ensures Exact(points, x) == None
  {
    if 1 < |points| {
      Strict(points, 0, |points| - 1, low);
      AboveAll(points[1..], x, points[0].amountIn);
    }
  }
}
