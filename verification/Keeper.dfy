/** The TWAP keeper's slice sizing, done off-chain at a tick's ledger for a call
    that lands later. Nothing it proposes is refused by the contract's own checks. */
module Keeper {
  import opened Results
  import opened MulDiv
  import opened SwapBook
  import opened TwapBook
  import opened TwapRuns

  /** Sizing up is allowed within this many bps of oracle fair value. */
  const OPPORTUNITY_BPS := 10
  const SAFETY_LEDGERS := 18

  /** The schedule's level as the keeper reckons it, at a ledger that may lag the
      order's own start. */
  function Level(o: Twap, tick: nat): nat
    requires o.startLedger < o.endLedger
  {
    Floor(o.totalIn, if tick < o.startLedger then 0 else tick - o.startLedger, o.endLedger - o.startLedger)
  }

  /** Too few ledgers left for the gap-separated slices the remainder needs. */
  predicate EndGame(o: Twap, tick: nat)
    requires o.filledIn <= o.totalIn
  {
    (if tick < o.endLedger then o.endLedger - tick else 0)
    <= o.minSliceGap * ((o.totalIn - o.filledIn + o.maxSliceIn - 1) / o.maxSliceIn) + SAFETY_LEDGERS
  }

  /** May a slice be cut at this tick at all? */
  predicate Due(o: Twap, tick: nat) {
    o.status == Active && tick <= o.endLedger && !(0 < o.lastSliceLedger && tick < o.lastSliceLedger + o.minSliceGap)
  }

  /** What the keeper aims to fill: the schedule's level, or the pace ceiling in the
      end-game or when the market pays at or near fair value. */
  function Target(o: Twap, tick: nat, fair: bool): int
    requires o.startLedger < o.endLedger && o.filledIn <= o.totalIn
  {
    if EndGame(o, tick) || (fair && 0 < o.paceToleranceBps && 0 < Level(o, tick) + Headroom(o) - o.filledIn
                            && Level(o, tick) - o.filledIn < Capped(o, Level(o, tick) + Headroom(o) - o.filledIn))
    then Level(o, tick) + Headroom(o) - o.filledIn
    else Level(o, tick) - o.filledIn
  }

  function Capped(o: Twap, slice: int): int
    requires o.filledIn <= o.totalIn
  {
    Min(Min(slice, o.maxSliceIn), o.totalIn - o.filledIn)
  }

  /** The slice submitted at a tick, if any. */
  function KeeperSlice(o: Twap, tick: nat, fair: bool): Option<int>
    requires o.startLedger < o.endLedger && o.filledIn <= o.totalIn
  {
    if Due(o, tick) && 0 < Capped(o, Target(o, tick, fair)) then Some(Capped(o, Target(o, tick, fair))) else None
  }

  /** processOrder's sizing: `probe` is the price check's answer in bps against the
      oracle, absent when it is not configured, failed or had nothing to say. */
  method SizeSlice(o: Twap, tick: nat, probe: Option<int>) returns (r: Option<int>)
    requires o.startLedger < o.endLedger && o.filledIn <= o.totalIn
    ensures r == KeeperSlice(o, tick, probe.Some? && probe.value <= OPPORTUNITY_BPS)
  {
    hide Floor;
    if o.status != Active { return None; }
    if o.endLedger < tick { return None; }
    if 0 < o.lastSliceLedger && tick < o.lastSliceLedger + o.minSliceGap { return None; }
    var elapsed := if tick < o.startLedger then 0 else tick - o.startLedger;
    var duration: pos := o.endLedger - o.startLedger;
    var onSchedule := Floor(o.totalIn, elapsed, duration);
    var headroom := Floor(o.totalIn, o.paceToleranceBps, BPS_DENOMINATOR);
    var remaining := o.totalIn - o.filledIn;
    var ledgersLeft := if tick < o.endLedger then o.endLedger - tick else 0;
    var slicesNeeded := (remaining + o.maxSliceIn - 1) / o.maxSliceIn;
    var endGame := ledgersLeft <= o.minSliceGap * slicesNeeded + SAFETY_LEDGERS;
    var slice := if endGame then onSchedule + headroom - o.filledIn else onSchedule - o.filledIn;
    if !endGame && probe.Some? && 0 < o.paceToleranceBps {
      var ceiling := onSchedule + headroom - o.filledIn;
      if o.maxSliceIn < ceiling { ceiling := o.maxSliceIn; }
      if remaining < ceiling { ceiling := remaining; }
      if slice < ceiling && 0 < ceiling && probe.value <= OPPORTUNITY_BPS {
        slice := ceiling;
      }
    }
    if slice <= 0 { return None; }
    if o.maxSliceIn < slice { slice := o.maxSliceIn; }
    if remaining < slice { slice := remaining; }
    if slice <= 0 { return None; }
    r := Some(slice);
  }

  /** Whatever the branch, a submitted slice passes the contract's status, cadence,
      size and pace checks at every ledger it can land on while the order stands. */
  lemma SubmittedSliceAccepted(o: Twap, tick: nat, fair: bool, landing: nat)
    requires o.startLedger < o.endLedger && o.filledIn <= o.totalIn
    requires KeeperSlice(o, tick, fair).Some?
    requires tick <= landing <= o.endLedger && o.startLedger <= landing
    ensures CheckSlice(o, landing, KeeperSlice(o, tick, fair).value).Pass?
  {
    var from := if tick < o.startLedger then o.startLedger else tick;
    ScheduleMonotone(o, from, landing);
    assert Level(o, tick) == OnSchedule(o, from);
    hide Floor, EndGame;
  }

  /** And it never sits idle while behind: a due order below its schedule gets a slice. */
  lemma BehindScheduleIsSliced(o: Twap, tick: nat, fair: bool)
    requires o.startLedger < o.endLedger && o.filledIn < o.totalIn
    requires Due(o, tick) && o.filledIn < Level(o, tick)
    ensures KeeperSlice(o, tick, fair).Some?
    ensures Min(Min(Level(o, tick) - o.filledIn, o.maxSliceIn), o.totalIn - o.filledIn)
            <= KeeperSlice(o, tick, fair).value
  {
  }

  // ─── What is sized ──────────────────────────────────

  /** The end-game starts when the ledgers left no longer exceed the gaps of the n slices the
      remainder needs, and a safety margin of 18. */
  lemma EndGameIff(o: Twap, tick: nat, n: nat)
    requires o.filledIn < o.totalIn && tick <= o.endLedger
    requires (n - 1) * o.maxSliceIn < o.totalIn - o.filledIn <= n * o.maxSliceIn
    ensures EndGame(o, tick) <==> o.endLedger - tick <= o.minSliceGap * n + 18
  {
    var left: nat := o.totalIn - o.filledIn;
    QuotientGalois(left + o.maxSliceIn - 1, o.maxSliceIn, n);
    QuotientGalois(left + o.maxSliceIn - 1, o.maxSliceIn, n + 1);
    assert (n + 1) * o.maxSliceIn == n * o.maxSliceIn + o.maxSliceIn;
    assert (n - 1) * o.maxSliceIn == n * o.maxSliceIn - o.maxSliceIn;
    assert (left + o.maxSliceIn - 1) / o.maxSliceIn == n;
  }

  /** The most the contract's pace check lets an order reach at a tick: schedule and band,
      each floored. */
  function PaceCeiling(o: Twap, tick: nat): int
    requires o.startLedger <= tick && o.startLedger < o.endLedger
  {
    o.totalIn * (tick - o.startLedger) / (o.endLedger - o.startLedger) + o.totalIn * o.paceToleranceBps / 10_000
  }

  /** In the end-game a due order gets all that the pace, its slice cap and its remainder
      allow. */
  lemma EndGameSizesToCeiling(o: Twap, tick: nat, fair: bool)
    requires o.startLedger < o.endLedger && o.startLedger <= tick && o.filledIn <= o.totalIn
    requires Due(o, tick) && EndGame(o, tick)
    ensures var most := Min(Min(PaceCeiling(o, tick) - o.filledIn, o.maxSliceIn), o.totalIn - o.filledIn);
            KeeperSlice(o, tick, fair) == if 0 < most then Some(most) else None
  {
    hide EndGame;
  }

  /** So it does at a fair market before that, if its maker allows a band at all. */
  lemma FairMarketSizesToCeiling(o: Twap, tick: nat)
    requires o.startLedger < o.endLedger && o.startLedger <= tick && o.filledIn <= o.totalIn
    requires Due(o, tick) && 0 < o.paceToleranceBps
    ensures var most := Min(Min(PaceCeiling(o, tick) - o.filledIn, o.maxSliceIn), o.totalIn - o.filledIn);
            KeeperSlice(o, tick, true) == if 0 < most then Some(most) else None
  {
    hide EndGame;
    BandIsExtra(o);
  }

  lemma BandIsExtra(o: Twap)
    ensures 0 <= Headroom(o)
  {
  }

  /** And otherwise only what brings it up to its schedule. */
  lemma OrdinarySlice(o: Twap, tick: nat, fair: bool)
    requires o.startLedger < o.endLedger && o.startLedger <= tick && o.filledIn <= o.totalIn
    requires Due(o, tick) && !EndGame(o, tick) && (!fair || o.paceToleranceBps == 0)
    ensures var behind := o.totalIn * (tick - o.startLedger) / (o.endLedger - o.startLedger) - o.filledIn;
            var slice := Min(Min(behind, o.maxSliceIn), o.totalIn - o.filledIn);
            KeeperSlice(o, tick, fair) == if 0 < slice then Some(slice) else None
  {
    hide EndGame;
  }

  /** No slice is ever cut of an order that is not Active, past its window, or within its
      gap. */
  lemma NotDueIsNotSliced(o: Twap, tick: nat, fair: bool)
    requires o.startLedger < o.endLedger && o.filledIn <= o.totalIn
    ensures KeeperSlice(o, tick, fair).Some? ==>
              && o.status == Active && tick <= o.endLedger
              && (0 < o.lastSliceLedger ==> o.lastSliceLedger + o.minSliceGap <= tick)
  {
    hide Target, Capped;
  }
}
