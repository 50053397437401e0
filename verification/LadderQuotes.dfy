/** What a ladder's tranches have to do with the venue's own quotes: each pays the gain
    between two good levels, capped at the venue's smallest-probe rate, so a venue
    filled in ladder order is never expected to pay more than it quoted. */
module LadderQuotes {
  import opened Results
  import opened MulDiv
  import opened Tranches
  import opened Engine

  // ─── One tranche ────────────────────────────────────

  /** What the venue quotes at its last good level below i: nothing at nothing. */
  function QuotedBelow(quotes: seq<int>, i: nat): int
    requires i <= |quotes|
  {
    if LastGood(quotes, i) < 0 then 0 else quotes[LastGood(quotes, i)]
  }

  function LevelBelow(quotes: seq<int>, levels: seq<int>, i: nat): int
    requires i <= |quotes| <= |levels|
  {
    if LastGood(quotes, i) < 0 then 0 else levels[LastGood(quotes, i)]
  }

  /** `out` for `amount` is within the rate of the first good level. */
  predicate WithinFirst(quotes: seq<int>, levels: seq<int>, out: int, amount: int)
    requires |quotes| <= |levels| && FirstGood(quotes) < |quotes|
  {
    out * levels[FirstGood(quotes)] <= amount * quotes[FirstGood(quotes)]
  }

  /** A good level's tranche pays the whole gain since the good level before it if that is
      within the first good level's rate, and otherwise the most that is. */
  lemma TranchePaysGain(venueId: nat, quotes: seq<int>, levels: seq<int>, i: nat)
    requires i < |quotes| <= |levels| && Ascending(levels) && 0 < levels[0] && 0 < quotes[i]
    ensures FirstGood(quotes) < |quotes|
    ensures var t := TrancheAt(venueId, quotes, levels, i);
            var gain, amount := quotes[i] - QuotedBelow(quotes, i), levels[i] - LevelBelow(quotes, levels, i);
            && t.key.Bps? && t.amount == amount
            && (WithinFirst(quotes, levels, gain, amount) ==> t.expectedOut == gain)
            && (!WithinFirst(quotes, levels, gain, amount) ==>
                  && WithinFirst(quotes, levels, t.expectedOut, amount)
                  && !WithinFirst(quotes, levels, t.expectedOut + 1, amount))
  {
    TrancheSound(venueId, quotes, levels, i);
    assert FirstGood(quotes) <= i;
    var f := FirstGood(quotes);
    var amount := levels[i] - LevelBelow(quotes, levels, i);
    var gain := quotes[i] - QuotedBelow(quotes, i);
    assert 0 < levels[f] && 0 < quotes[f] && 0 < amount;
    ScaledNonNegative(amount, quotes[f]);
    CappedGain(amount * quotes[f], levels[f], gain);
    hide LastGood, FirstGood;
  }

  lemma ScaledNonNegative(x: nat, y: nat)
    ensures 0 <= x * y
  {
  }

  lemma CappedGain(most: nat, d: pos, gain: int)
    ensures var cap := Trunc(most, d);
            var out := if cap < gain then cap else gain;
            && (gain * d <= most ==> out == gain)
            && (most < gain * d ==> out * d <= most < (out + 1) * d)
  {
    QuotientGalois(most, d, gain);
    QuotientGalois(most, d, most / d);
    QuotientGalois(most, d, most / d + 1);
  }

  // ─── A whole ladder ─────────────────────────────────

  function SumOut(l: seq<Tranche>): int {
    if l == [] then 0 else SumOut(l[..|l| - 1]) + l[|l| - 1].expectedOut
  }

  lemma SumOutAppend(l: seq<Tranche>, t: Tranche)
    ensures SumOut(l + [t]) == SumOut(l) + t.expectedOut
  {
    assert (l + [t])[..|l|] == l;
  }

  /** No gain between consecutive good levels beats the first good level's rate. */
  predicate GainsWithinFirst(quotes: seq<int>, levels: seq<int>, n: nat)
    requires n <= |quotes| <= |levels|
  {
    forall i :: 0 <= i < n && 0 < quotes[i] && FirstGood(quotes) < |quotes| ==>
      WithinFirst(quotes, levels, quotes[i] - QuotedBelow(quotes, i), levels[i] - LevelBelow(quotes, levels, i))
  }

  /** The usable tranches up to any level expect in all at most what the venue quotes at
      its last good level there, and exactly that unless the cap cuts a gain. */
  lemma {:induction false} LadderPaysQuotes(venueId: nat, quotes: seq<int>, levels: seq<int>, n: nat)
    requires n <= |quotes| <= |levels| && Ascending(levels) && (levels != [] ==> 0 < levels[0])
    ensures var l := Of(venueId, Ladder(venueId, quotes, levels)[..n]);
            && SumOut(l) <= QuotedBelow(quotes, n)
            && (GainsWithinFirst(quotes, levels, n) ==> SumOut(l) == QuotedBelow(quotes, n))
  {
    hide Ladder, TrancheAt, LastGood, SpotOf, WithinFirst, Of, Ascending, GainsWithinFirst, QuotedBelow, SumOut;
    var all := Ladder(venueId, quotes, levels);
    if n == 0 {
      assert all[..0] == [];
      NothingQuoted(venueId, quotes);
    } else {
      LadderAt(venueId, quotes, levels, n - 1);
      var front, t := all[..n - 1], TrancheAt(venueId, quotes, levels, n - 1);
      assert all[..n] == front + [t];
      LadderPaysQuotes(venueId, quotes, levels, n - 1);
      OfAppend(venueId, front, [t]);
      OfOne(venueId, t);
      TrancheSound(venueId, quotes, levels, n - 1);
      QuotedStep(quotes, levels, n - 1);
      if 0 < quotes[n - 1] {
        StepPays(venueId, quotes, levels, n - 1);
        SumOutAppend(Of(venueId, front), t);
      } else {
        assert Of(venueId, front) + [] == Of(venueId, front);
      }
    }
  }

  lemma LadderAt(venueId: nat, quotes: seq<int>, levels: seq<int>, i: nat)
    requires i < |quotes| <= |levels|
    ensures |Ladder(venueId, quotes, levels)| == |quotes|
    ensures Ladder(venueId, quotes, levels)[i] == TrancheAt(venueId, quotes, levels, i)
  {
  }

  lemma NothingQuoted(venueId: nat, quotes: seq<int>)
    ensures QuotedBelow(quotes, 0) == 0 && Of(venueId, []) == [] && SumOut([]) == 0
  {
  }

  lemma QuotedStep(quotes: seq<int>, levels: seq<int>, i: nat)
    requires i < |quotes| <= |levels|
    ensures QuotedBelow(quotes, i + 1) == if 0 < quotes[i] then quotes[i] else QuotedBelow(quotes, i)
    ensures GainsWithinFirst(quotes, levels, i + 1) ==> GainsWithinFirst(quotes, levels, i)
  {
    hide WithinFirst;
  }

  lemma StepPays(venueId: nat, quotes: seq<int>, levels: seq<int>, i: nat)
    requires i < |quotes| <= |levels| && Ascending(levels) && 0 < levels[0] && 0 < quotes[i]
    ensures var t := TrancheAt(venueId, quotes, levels, i);
            && t.venueId == venueId && t.key.Bps?
            && t.expectedOut <= quotes[i] - QuotedBelow(quotes, i)
            && (GainsWithinFirst(quotes, levels, i + 1) ==> t.expectedOut == quotes[i] - QuotedBelow(quotes, i))
  {
    TranchePaysGain(venueId, quotes, levels, i);
    TrancheSound(venueId, quotes, levels, i);
    hide LastGood, FirstGood, Trunc;
  }
}
