/** The calculator's promo arithmetic: for a promo placed on the underdog and
    a cash hedge on the favourite, the target payout, the hedge stake and the
    guaranteed net profit, and the conversion rate. */
module Hedge {
  import opened Outcomes
  import opened Odds
  import opened RealFacts

  /** Boost percentages the sidebar slider can produce. */
  type BoostPct = b: int | 0 <= b <= 100

  /** The three promo types of the sidebar select box. */
  datatype Promo =
    | BonusBet                        // free credit: the stake is not returned on a win
    | ProfitBoost(boostPct: BoostPct) // cash stake; the boost raises the net winnings
    | NoSweat                         // cash stake, refunded as credit if it loses

  /** Share of a No-Sweat refund the bettor is assumed to keep as cash. */
  const RefundRetention: real := 0.70

  /** The three figures the calculator shows. */
  datatype Sizing = Sizing(targetPayout: real, hedgeStake: real, netProfit: real)

  /** The side of the game that wins. */
  datatype Side = Underdog | Favourite

  /** What the promo bet returns if the underdog wins: only the winnings for a
      Bonus Bet, whose credit is not returned; the stake and the (boosted)
      winnings for the cash promos. */
  function Target(promo: Promo, stake: real, dMain: real): real {
    match promo
    case BonusBet => stake * (dMain - 1.0)
    case ProfitBoost(b) => stake * Boosted(dMain, b)
    case NoSweat => stake * dMain
  }

  /** Cash value returned if the promo bet loses: 70% of a No-Sweat stake. */
  function Refund(promo: Promo, stake: real): real {
    if promo == NoSweat then stake * RefundRetention else 0.0
  }

  /** Cash the bettor puts into the promo bet: nothing for free credit. */
  function CashStake(promo: Promo, stake: real): real {
    if promo == BonusBet then 0.0 else stake
  }

  /** Decimal odds after the boost is applied to the net winnings only. */
  function Boosted(d: real, boostPct: BoostPct): (r: real)
    ensures r - d == (d - 1.0) * (boostPct as real / 100.0)
    ensures boostPct == 0 ==> r == d
    ensures d == 1.0 ==> r == 1.0
  {
    (d - 1.0) * (1.0 + boostPct as real / 100.0) + 1.0
  }

  /** Cash the bettor ends with, relative to the cash put in, when `winner`
      wins after the promo bet of `stake` at `dMain` and a hedge of `hedge` at
      `dHedge` on the other side. It follows the money and knows nothing of
      how the hedge was sized. */
  function Settle(promo: Promo, stake: real, dMain: real, dHedge: real, hedge: real, winner: Side): real {
    match winner
    case Underdog => Target(promo, stake, dMain) - CashStake(promo, stake) - hedge
    case Favourite => hedge * dHedge - hedge - CashStake(promo, stake) + Refund(promo, stake)
  }

  /** The hedge sizing of the promo block, on decimal odds: the hedge returns
      the target payout less the refund kept on a loss, and whichever side
      wins, the bettor ends with the net profit. */
  function Size(promo: Promo, stake: real, dMain: real, dHedge: real): (s: Sizing)
    requires dHedge != 0.0
    ensures s.targetPayout == Target(promo, stake, dMain)
    ensures s.hedgeStake * dHedge == s.targetPayout - Refund(promo, stake)
    ensures Settle(promo, stake, dMain, dHedge, s.hedgeStake, Underdog) == s.netProfit
    ensures Settle(promo, stake, dMain, dHedge, s.hedgeStake, Favourite) == s.netProfit
  {
    var target := Target(promo, stake, dMain);
    var hedge := (target - Refund(promo, stake)) / dHedge;
    DivInverse(target - Refund(promo, stake), dHedge);
    Sizing(target, hedge, target - (CashStake(promo, stake) + hedge))
  }

  /** The whole calculation from the sidebar inputs: both prices are converted
      first, so a zero price on either side fails before any sizing. The
      resulting hedge leaves the bettor with the net profit whichever side wins. */
  function Calculate(promo: Promo, mainOdds: int, stake: int, hedgeOdds: int): (r: Result<Sizing>)
    ensures r.Err? <==> mainOdds == 0 || hedgeOdds == 0
    ensures r.Err? ==> r.error == ZeroOdds
    ensures r.Ok? ==>
      var dMain, dHedge := Decimal(mainOdds), Decimal(hedgeOdds);
      && r.value.targetPayout == Target(promo, stake as real, dMain)
      && r.value.hedgeStake * dHedge == r.value.targetPayout - Refund(promo, stake as real)
      && Settle(promo, stake as real, dMain, dHedge, r.value.hedgeStake, Underdog) == r.value.netProfit
      && Settle(promo, stake as real, dMain, dHedge, r.value.hedgeStake, Favourite) == r.value.netProfit
  {
    var dMain :- AmericanToDecimal(mainOdds);
    var dHedge :- AmericanToDecimal(hedgeOdds);
    Ok(Size(promo, stake as real, dMain, dHedge))
  }

  /** Conversion rate: net profit as a percentage of the promo amount, which
      divides by zero when the amount is 0. */
  function ConversionRate(netProfit: real, stake: int): (r: Result<real>)
    ensures r.Err? <==> stake == 0
    ensures r.Err? ==> r.error == ZeroStake
    ensures r.Ok? ==> r.value * stake as real == netProfit * 100.0
  {
    if stake == 0 then Err(ZeroStake)
    else Ok(netProfit / stake as real * 100.0)
  }

  /** With both prices nonzero the calculation is the sizing on their decimal odds. */
  lemma CalculateIsSize(promo: Promo, mainOdds: int, stake: int, hedgeOdds: int)
    requires mainOdds != 0 && hedgeOdds != 0
    ensures Calculate(promo, mainOdds, stake, hedgeOdds)
         == Ok(Size(promo, stake as real, Decimal(mainOdds), Decimal(hedgeOdds)))
  {
  }

  /** Moving the hedge by `x` costs the underdog outcome `x` and gains the
      favourite outcome `x * (dHedge - 1)`. */
  lemma SettleShift(promo: Promo, stake: real, dMain: real, dHedge: real, h0: real, h: real)
    ensures Settle(promo, stake, dMain, dHedge, h, Underdog)
         == Settle(promo, stake, dMain, dHedge, h0, Underdog) - (h - h0)
    ensures Settle(promo, stake, dMain, dHedge, h, Favourite)
         == Settle(promo, stake, dMain, dHedge, h0, Favourite) + (h - h0) * dHedge - (h - h0)
  {
    MulDistributes(dHedge, h, h0);
  }

  /** The hedge stake the calculator picks is the only one that equalises the
      two outcomes: any other hedge leaves one side worse off. */
  lemma EqualisingHedgeIsUnique(promo: Promo, stake: real, dMain: real, dHedge: real, hedge: real)
    requires dHedge != 0.0
    ensures Settle(promo, stake, dMain, dHedge, hedge, Underdog) == Settle(promo, stake, dMain, dHedge, hedge, Favourite)
        <==> hedge == Size(promo, stake, dMain, dHedge).hedgeStake
  {
    var s := Size(promo, stake, dMain, dHedge);
    SettleShift(promo, stake, dMain, dHedge, s.hedgeStake, hedge);
    var x := hedge - s.hedgeStake;
    if Settle(promo, stake, dMain, dHedge, hedge, Underdog) == Settle(promo, stake, dMain, dHedge, hedge, Favourite) {
      assert x * dHedge == 0.0;
      ZeroProduct(x, dHedge);
    }
  }

  /** Bonus Bet with a positive amount: the hedge is positive and smaller than
      the target payout, so the guaranteed profit is positive. */
  lemma BonusBetProfitPositive(mainOdds: int, stake: int, hedgeOdds: int)
    requires mainOdds != 0 && hedgeOdds != 0 && stake > 0
    ensures var s := Calculate(BonusBet, mainOdds, stake, hedgeOdds).value;
      0.0 < s.hedgeStake < s.targetPayout && s.netProfit > 0.0
  {
    CalculateIsSize(BonusBet, mainOdds, stake, hedgeOdds);
    SizeHedgePositive(BonusBet, stake as real, Decimal(mainOdds), Decimal(hedgeOdds));
  }

  /** For every promo the hedge stake is positive for a positive amount: in
      particular the No-Sweat refund value never exceeds the payout it is
      subtracted from. */
  lemma HedgePositive(promo: Promo, mainOdds: int, stake: int, hedgeOdds: int)
    requires mainOdds != 0 && hedgeOdds != 0 && stake > 0
    ensures Calculate(promo, mainOdds, stake, hedgeOdds).value.hedgeStake > 0.0
  {
    CalculateIsSize(promo, mainOdds, stake, hedgeOdds);
    SizeHedgePositive(promo, stake as real, Decimal(mainOdds), Decimal(hedgeOdds));
  }

  /** On decimal odds above 1 and a positive amount the hedge is positive, and
      for a Bonus Bet it is below the target payout. */
  lemma SizeHedgePositive(promo: Promo, w: real, dMain: real, dHedge: real)
    requires w > 0.0 && dMain > 1.0 && dHedge > 1.0
    ensures var s := Size(promo, w, dMain, dHedge);
      && 0.0 < s.hedgeStake
      && (promo == BonusBet ==> s.hedgeStake < s.targetPayout && s.netProfit > 0.0)
  {
    var toHedge := Target(promo, w, dMain) - Refund(promo, w);
    HedgedAmountPositive(promo, w, dMain);
    DividePositive(toHedge, dHedge);
  }

  /** The hedge has something to cover: the target payout exceeds the refund. */
  lemma HedgedAmountPositive(promo: Promo, w: real, dMain: real)
    requires w > 0.0 && dMain > 1.0
    ensures Target(promo, w, dMain) - Refund(promo, w) > 0.0
  {
    match promo {
      case BonusBet =>
        MulPositive(w, dMain - 1.0);
      case ProfitBoost(b) =>
        BoostedMonotone(dMain, 0, b);
        MulPositive(w, Boosted(dMain, b));
      case NoSweat =>
        MulDistributes(w, dMain, RefundRetention);
        MulPositive(w, dMain - RefundRetention);
    }
  }

  /** A 0% boost is no boost, and a larger boost gives strictly larger decimal
      odds on any price that pays something. */
  lemma BoostedMonotone(d: real, b1: BoostPct, b2: BoostPct)
    requires d > 1.0 && b1 <= b2
    ensures Boosted(d, 0) == d
    ensures Boosted(d, b1) <= Boosted(d, b2)
    ensures b1 < b2 ==> Boosted(d, b1) < Boosted(d, b2)
  {
    ShiftMonotone(d, d - 1.0, b1 as real / 100.0, b2 as real / 100.0, Boosted(d, b1), Boosted(d, b2));
  }

  /** A larger boost yields a strictly larger guaranteed profit. */
  lemma BoostMonotone(mainOdds: int, stake: int, hedgeOdds: int, b1: BoostPct, b2: BoostPct)
    requires mainOdds != 0 && hedgeOdds != 0 && stake > 0
    requires b1 < b2
    ensures Calculate(ProfitBoost(b1), mainOdds, stake, hedgeOdds).value.netProfit
          < Calculate(ProfitBoost(b2), mainOdds, stake, hedgeOdds).value.netProfit
  {
    CalculateIsSize(ProfitBoost(b1), mainOdds, stake, hedgeOdds);
    CalculateIsSize(ProfitBoost(b2), mainOdds, stake, hedgeOdds);
    SizeBoostMonotone(stake as real, Decimal(mainOdds), Decimal(hedgeOdds), b1, b2);
  }

  lemma SizeBoostMonotone(w: real, dMain: real, dHedge: real, b1: BoostPct, b2: BoostPct)
    requires w > 0.0 && dMain > 1.0 && dHedge > 1.0 && b1 < b2
    ensures Size(ProfitBoost(b1), w, dMain, dHedge).netProfit < Size(ProfitBoost(b2), w, dMain, dHedge).netProfit
  {
    BoostedMonotone(dMain, b1, b2);
    MulMonotone(w, Boosted(dMain, b1), Boosted(dMain, b2));
    assert Refund(ProfitBoost(b1), w) == 0.0 && Refund(ProfitBoost(b2), w) == 0.0;
    NetIncreasing(w, Target(ProfitBoost(b1), w, dMain), Target(ProfitBoost(b2), w, dMain), dHedge);
  }

  /** The cash-promo net profit `t - (w + t / dHedge)` grows with the target payout `t`. */
  lemma NetIncreasing(w: real, t1: real, t2: real, dHedge: real)
    requires t1 < t2 && dHedge > 1.0
    ensures t1 - (w + t1 / dHedge) < t2 - (w + t2 / dHedge)
  {
    DivDistributes(t2, t1, dHedge);
    DividePositive(t2 - t1, dHedge);
  }

  /** Every figure of the sizing is proportional to the promo amount. */
  lemma SizeIsLinear(promo: Promo, stake: real, dMain: real, dHedge: real)
    requires dHedge != 0.0
    ensures var unit := Size(promo, 1.0, dMain, dHedge);
      Size(promo, stake, dMain, dHedge)
        == Sizing(stake * unit.targetPayout, stake * unit.hedgeStake, stake * unit.netProfit)
  {
    var t, r, c := Target(promo, 1.0, dMain), Refund(promo, 1.0), CashStake(promo, 1.0);
    var unit := Size(promo, 1.0, dMain, dHedge);
    assert unit == Sizing(t, (t - r) / dHedge, t - (c + (t - r) / dHedge));
    PartsAreLinear(promo, stake, dMain);
    var h := (stake * t - stake * r) / dHedge;
    assert Size(promo, stake, dMain, dHedge) == Sizing(stake * t, h, stake * t - (stake * c + h));
    ScaledSizing(stake, t, r, c, dHedge);
  }

  lemma PartsAreLinear(promo: Promo, stake: real, dMain: real)
    ensures Target(promo, stake, dMain) == stake * Target(promo, 1.0, dMain)
    ensures Refund(promo, stake) == stake * Refund(promo, 1.0)
    ensures CashStake(promo, stake) == stake * CashStake(promo, 1.0)
  {
  }

  /** Scaling target `t`, refund `r` and cash stake `c` by `w` scales the
      hedge `(t - r) / d` and the net `t - (c + (t - r) / d)` alike. */
  lemma ScaledSizing(w: real, t: real, r: real, c: real, d: real)
    requires d != 0.0
    ensures (w * t - w * r) / d == w * ((t - r) / d)
    ensures w * t - (w * c + (w * t - w * r) / d) == w * (t - (c + (t - r) / d))
  {
    MulDistributes(w, t, r);
    DivScales(w, t - r, d);
    MulDistributes(w, t, c + (t - r) / d);
    assert w * (c + (t - r) / d) == w * c + w * ((t - r) / d);
  }

  /** The conversion rate depends on the promo type and the two prices only,
      so offers of different sizes compare on equal footing. */
  lemma ConversionIndependentOfStake(promo: Promo, mainOdds: int, hedgeOdds: int, stake1: int, stake2: int)
    requires mainOdds != 0 && hedgeOdds != 0 && stake1 != 0 && stake2 != 0
    ensures ConversionRate(Calculate(promo, mainOdds, stake1, hedgeOdds).value.netProfit, stake1)
         == ConversionRate(Calculate(promo, mainOdds, stake2, hedgeOdds).value.netProfit, stake2)
  {
    CalculateIsSize(promo, mainOdds, stake1, hedgeOdds);
    CalculateIsSize(promo, mainOdds, stake2, hedgeOdds);
    SizeRateIsUnitProfit(promo, Decimal(mainOdds), Decimal(hedgeOdds), stake1);
    SizeRateIsUnitProfit(promo, Decimal(mainOdds), Decimal(hedgeOdds), stake2);
  }

  /** The conversion rate of any nonzero amount is that of an amount of 1. */
  lemma SizeRateIsUnitProfit(promo: Promo, dMain: real, dHedge: real, stake: int)
    requires dHedge != 0.0 && stake != 0
    ensures ConversionRate(Size(promo, stake as real, dMain, dHedge).netProfit, stake)
         == Ok(Size(promo, 1.0, dMain, dHedge).netProfit * 100.0)
  {
    var w, unit := stake as real, Size(promo, 1.0, dMain, dHedge).netProfit;
    SizeIsLinear(promo, w, dMain, dHedge);
    assert Size(promo, w, dMain, dHedge).netProfit == w * unit;
    MulCancels(w, unit);
    assert ConversionRate(w * unit, stake) == Ok((w * unit) / w * 100.0);
  }

  /** The sidebar defaults: +350 for the underdog, a promo of 100 and -400 for
      the favourite. */
  lemma DefaultInputs()
    ensures Calculate(BonusBet, 350, 100, -400) == Ok(Sizing(350.0, 280.0, 70.0))
    ensures ConversionRate(Calculate(BonusBet, 350, 100, -400).value.netProfit, 100) == Ok(70.0)
    ensures Calculate(ProfitBoost(50), 350, 100, -400) == Ok(Sizing(625.0, 500.0, 25.0))
    ensures Calculate(NoSweat, 350, 100, -400) == Ok(Sizing(450.0, 304.0, 46.0))
    ensures ConversionRate(Calculate(ProfitBoost(50), 350, 100, -400).value.netProfit, 100) == Ok(25.0)
    ensures ConversionRate(Calculate(NoSweat, 350, 100, -400).value.netProfit, 100) == Ok(46.0)
  {
  }
}
