/** How far the greedy allocation takes one venue: along its ladder, whole tranches first. */
module VenueFills {
  import opened Results
  import opened MulDiv
  import opened Tranches
  import opened Engine
  import opened LadderQuotes

  function Expected(routes: seq<Allotment>, v: nat): int {
    if routes == [] then 0 else if routes[0].venueId == v then routes[0].expectedOut else Expected(routes[1..], v)
  }

  lemma {:induction false} AddExpected(routes: seq<Allotment>, v: nat, amount: int, out: int, u: nat)
    ensures Expected(Add(routes, v, amount, out), u) == Expected(routes, u) + if u == v then out else 0
  {
    if routes != [] {
      var routes' := Add(routes, v, amount, out);
      if routes[0].venueId == v {
        assert routes'[1..] == routes[1..];
      } else {
        assert routes'[1..] == Add(routes[1..], v, amount, out);
        AddExpected(routes[1..], v, amount, out, u);
      }
    }
  }

  /** A venue filled from `start` along its ladder l: the first k tranches whole, and
      perhaps part of the next. */
  predicate FilledTo(l: seq<Tranche>, start: int, k: nat, consumed: int, gained: int)
    requires k <= |l|
  {
    || (consumed == End(l[..k], start) && gained == SumOut(l[..k]))
    || (k < |l| && End(l[..k], start) < consumed < l[k].to
        && gained == SumOut(l[..k]) + Share(l[k], consumed - l[k].from))
  }

  lemma SumOutCons(t: Tranche, l: seq<Tranche>)
    ensures SumOut([t] + l) == t.expectedOut + SumOut(l)
    decreases |l|
  {
    if l == [] {
      assert [t] + l == [] + [t];
      SumOutAppend([], t);
    } else {
      var front, last := l[..|l| - 1], l[|l| - 1];
      assert l == front + [last] && [t] + l == ([t] + front) + [last];
      SumOutAppend([t] + front, last);
      SumOutCons(t, front);
      SumOutAppend(front, last);
    }
  }

  lemma FilledCons(t: Tranche, l: seq<Tranche>, start: int, k: nat, consumed: int, gained: int)
    requires k <= |l| && FilledTo(l, t.to, k, consumed, gained)
    ensures FilledTo([t] + l, start, k + 1, consumed, t.expectedOut + gained)
  {
    assert ([t] + l)[..k + 1] == [t] + l[..k];
    SumOutCons(t, l[..k]);
    EndCons(t, l[..k], start);
  }

  lemma EndCons(t: Tranche, l: seq<Tranche>, start: int)
    ensures End([t] + l, start) == End(l, t.to)
  {
  }

  /** Whatever else it fills, the allocation takes a chained venue along its ladder. */
  lemma {:induction false} VenueFilled(a: Allocation, s: seq<Tranche>, v: nat) returns (k: nat)
    requires 0 <= a.remaining && forall t <- s :: Sane(t)
    requires Chained(Of(v, s), Consumed(a.routes, v))
    ensures k <= |Of(v, s)|
    ensures var a' := Allocate(a, s);
            FilledTo(Of(v, s), Consumed(a.routes, v), k, Consumed(a'.routes, v),
                     Expected(a'.routes, v) - Expected(a.routes, v))
    decreases |s|
  {
    hide Take, FilledTo, Sane, Of, Chained, Allocate, Consumed, Expected, Share;
    k := 0;
    if s == [] || a.remaining == 0 {
      NothingLeftOrHere(a, s, v);
    } else {
      var t, tail, a1 := s[0], s[1..], Take(a, s[0]);
      assert t in s && forall x <- tail :: x in s;
      assert s == [t] + tail;
      VenueStep(a, t, tail, v);
      if t.venueId == v && t.key.Bps? {
        var l := Of(v, tail);
        if t.amount <= a.remaining {
          var k' := VenueFilled(a1, tail, v);
          var a' := Allocate(a1, tail);
          FilledCons(t, l, Consumed(a.routes, v), k', Consumed(a'.routes, v),
                     Expected(a'.routes, v) - Expected(a1.routes, v));
          k := k' + 1;
        } else {
          NothingLeft(a1, tail);
          PartlyFilled(t, l, a.remaining);
        }
      } else {
        k := VenueFilled(a1, tail, v);
      }
    }
  }

  lemma VenueStep(a: Allocation, t: Tranche, tail: seq<Tranche>, v: nat)
    requires 0 < a.remaining && Sane(t) && Chained(Of(v, [t] + tail), Consumed(a.routes, v))
    ensures var a1 := Take(a, t);
            && Allocate(a, [t] + tail) == Allocate(a1, tail) && 0 <= a1.remaining
            && (t.venueId == v && t.key.Bps? ==>
                  var fill := Min(a.remaining, t.amount);
                  && Of(v, [t] + tail) == [t] + Of(v, tail) && Chained(Of(v, tail), t.to)
                  && t.from == Consumed(a.routes, v) && t.amount == t.to - t.from && 0 < t.amount
                  && a1.remaining == a.remaining - fill && Consumed(a1.routes, v) == t.from + fill
                  && Expected(a1.routes, v) == Expected(a.routes, v) + Share(t, fill)
                  && (fill == t.amount ==> Share(t, fill) == t.expectedOut))
            && (!(t.venueId == v && t.key.Bps?) ==>
                  && Of(v, [t] + tail) == Of(v, tail)
                  && Consumed(a1.routes, v) == Consumed(a.routes, v) && Expected(a1.routes, v) == Expected(a.routes, v))
  {
    OfCons(v, t, tail);
    assert ([t] + tail)[1..] == tail && ([t] + Of(v, tail))[1..] == Of(v, tail);
    hide Take, Of, Consumed, Expected, Share;
    OneTake(a, t, v);
  }

  lemma PartlyFilled(t: Tranche, l: seq<Tranche>, fill: int)
    requires 0 < fill < t.to - t.from
    ensures FilledTo([t] + l, t.from, 0, t.from + fill, Share(t, fill))
  {
    hide Share;
    assert ([t] + l)[..0] == [];
  }

  lemma NothingLeftOrHere(a: Allocation, s: seq<Tranche>, v: nat)
    requires s == [] || a.remaining == 0
    ensures Allocate(a, s) == a
    ensures FilledTo(Of(v, s), Consumed(a.routes, v), 0, Consumed(a.routes, v), 0)
  {
    if s != [] {
      NothingLeft(a, s);
    }
    assert Of(v, s)[..0] == [];
  }

  lemma OneTake(a: Allocation, t: Tranche, v: nat)
    requires 0 < a.remaining && Sane(t)
    requires t.venueId == v && t.key.Bps? ==> t.from == Consumed(a.routes, v)
    ensures var a1 := Take(a, t);
            && 0 <= a1.remaining
            && (t.venueId == v && t.key.Bps? ==>
                  var fill := Min(a.remaining, t.amount);
                  && a1.remaining == a.remaining - fill && Consumed(a1.routes, v) == t.from + fill
                  && Expected(a1.routes, v) == Expected(a.routes, v) + Share(t, fill)
                  && (fill == t.amount ==> Share(t, fill) == t.expectedOut))
            && (!(t.venueId == v && t.key.Bps?) ==>
                  Consumed(a1.routes, v) == Consumed(a.routes, v) && Expected(a1.routes, v) == Expected(a.routes, v))
  {
    var fill := FillOf(a, t);
    AddEffects(a.routes, t.venueId, fill, Share(t, fill));
    AddExpected(a.routes, t.venueId, fill, Share(t, fill), v);
    if t.key.Bps? {
      WholeShare(t);
    }
    hide Share, Add;
  }

  lemma WholeShare(t: Tranche)
    requires 0 < t.amount
    ensures Share(t, t.amount) == t.expectedOut
  {
    var e, a := t.expectedOut, t.amount;
    TruncBounds(e * a, a);
    var q := Trunc(e * a, a);
    hide Trunc;
    MultipleOrder(q + 1, e, a);
    MultipleOrder(e + 1, q, a);
  }

  // ─── Filled to a good level ─────────────────────────

  lemma {:induction false} EndsAscend(l: seq<Tranche>, start: int, i: nat, j: nat)
    requires Chained(l, start) && i <= j <= |l| && forall t <- l :: t.from < t.to
    ensures End(l[..i], start) <= End(l[..j], start) && (i < j ==> End(l[..i], start) < End(l[..j], start))
  {
    if 0 < j {
      var t, tail := l[0], l[1..];
      assert t in l && forall x <- tail :: x in l;
      assert l[..j] == [t] + tail[..j - 1];
      EndCons(t, tail[..j - 1], start);
      if 0 < i {
        assert l[..i] == [t] + tail[..i - 1];
        EndCons(t, tail[..i - 1], start);
        EndsAscend(tail, t.to, i - 1, j - 1);
      } else {
        EndsAscend(tail, t.to, 0, j - 1);
        assert tail[..0] == [] && l[..0] == [];
      }
    }
  }

  /** A venue filled exactly to the end of its first n tranches has those, whole. */
  lemma FilledToEnd(l: seq<Tranche>, start: int, k: nat, consumed: int, gained: int, n: nat)
    requires Chained(l, start) && k <= |l| && n <= |l| && forall t <- l :: t.from < t.to
    requires FilledTo(l, start, k, consumed, gained) && consumed == End(l[..n], start)
    ensures gained == SumOut(l[..n])
  {
    assert k < |l| ==> l[..k + 1][k] == l[k];
    if n <= k {
      EndsAscend(l, start, n, k);
    } else {
      EndsAscend(l, start, k, n);
      EndsAscend(l, start, k + 1, n);
    }
    hide SumOut, Share;
  }
}
