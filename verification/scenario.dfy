/** The "Scenario Breakdown" table of the calculator: one
    row per winning side, each showing a payout, a cost subtracted from it and
    the net profit. */
module Scenario {
  import opened Odds
  import opened Hedge

  datatype Row = Row(payout: real, cost: real, netProfit: real)

  /** The two rows, underdog first. */
  datatype Breakdown = Breakdown(underdog: Row, favourite: Row)

  /** A row adds up when its payout less its cost is the net profit it shows. */
  predicate AddsUp(row: Row) {
    row.payout - row.cost == row.netProfit
  }

  /** The table as the calculator fills it from the sizing just computed. Both
      rows show the net profit that either outcome settles to, but the
      underdog row overstates it by the cash promo stake, which its payout
      includes and its cost leaves out, and the favourite row understates it
      by the No-Sweat refund, which its payout leaves out. */
  function BreakdownAsWritten(promo: Promo, stake: real, dMain: real, dHedge: real): (t: Breakdown)
    requires dHedge != 0.0
    ensures t.underdog.netProfit == t.favourite.netProfit
    ensures t.underdog.netProfit == Settle(promo, stake, dMain, dHedge, t.underdog.cost, Underdog)
    ensures t.underdog.netProfit == Settle(promo, stake, dMain, dHedge, t.underdog.cost, Favourite)
    ensures t.underdog.payout - t.underdog.cost == t.underdog.netProfit + CashStake(promo, stake)
    ensures t.favourite.payout - t.favourite.cost == t.favourite.netProfit - Refund(promo, stake)
  {
    var s := Size(promo, stake, dMain, dHedge);
    Breakdown(
      Row(s.targetPayout, s.hedgeStake, s.netProfit),
      Row(s.hedgeStake * dHedge, if promo == BonusBet then s.hedgeStake else stake + s.hedgeStake, s.netProfit))
  }

  /** The table with every cash flow of the bet shown: the cash promo stake is
      a cost on both rows and the refund value is part of the favourite payout. */
  function CorrectedBreakdown(promo: Promo, stake: real, dMain: real, dHedge: real): Breakdown
    requires dHedge != 0.0
  {
    var s := Size(promo, stake, dMain, dHedge);
    var cost := CashStake(promo, stake) + s.hedgeStake;
    Breakdown(
      Row(s.targetPayout, cost, s.netProfit),
      Row(s.hedgeStake * dHedge + Refund(promo, stake), cost, s.netProfit))
  }

  /** Both rows of the corrected table add up, and each row's own difference
      is what the bettor ends with when that side wins. */
  lemma CorrectedBreakdownAddsUp(promo: Promo, stake: real, dMain: real, dHedge: real)
    requires dHedge != 0.0
    ensures var s := Size(promo, stake, dMain, dHedge);
      var t := CorrectedBreakdown(promo, stake, dMain, dHedge);
      && AddsUp(t.underdog) && AddsUp(t.favourite)
      && t.underdog.payout - t.underdog.cost == Settle(promo, stake, dMain, dHedge, s.hedgeStake, Underdog)
      && t.favourite.payout - t.favourite.cost == Settle(promo, stake, dMain, dHedge, s.hedgeStake, Favourite)
  {
  }

  /** The table as written adds up on the underdog row only for a Bonus Bet,
      and on the favourite row for every promo but No-Sweat. */
  lemma BreakdownAsWrittenAddsUpIff(promo: Promo, stake: real, dMain: real, dHedge: real)
    requires dHedge != 0.0 && stake != 0.0
    ensures var t := BreakdownAsWritten(promo, stake, dMain, dHedge);
      && (AddsUp(t.underdog) <==> promo == BonusBet)
      && (AddsUp(t.favourite) <==> promo != NoSweat)
      && t.favourite.payout + Refund(promo, stake) == t.underdog.payout
  {
    assert promo == NoSweat ==> Refund(promo, stake) != 0.0;
  }

  /** At the sidebar defaults (+350, a promo of 100, -400) the Profit Boost
      table shows a payout of 625 less a hedge of 500 next to a net profit of
      25, and the No-Sweat favourite row shows 380 less 404 next to 46. */
  lemma DefaultsDoNotAddUp()
    ensures var t := BreakdownAsWritten(ProfitBoost(50), 100.0, AmericanToDecimal(350).value, AmericanToDecimal(-400).value);
      t.underdog == Row(625.0, 500.0, 25.0) && !AddsUp(t.underdog)
    ensures var t := BreakdownAsWritten(NoSweat, 100.0, AmericanToDecimal(350).value, AmericanToDecimal(-400).value);
      t.favourite == Row(380.0, 404.0, 46.0) && !AddsUp(t.favourite)
  {
    KnownPrices();
    DefaultInputs();
    CalculateIsSize(ProfitBoost(50), 350, 100, -400);
    CalculateIsSize(NoSweat, 350, 100, -400);
    assert Size(ProfitBoost(50), 100.0, 4.5, 1.25) == Sizing(625.0, 500.0, 25.0);
    assert Size(NoSweat, 100.0, 4.5, 1.25) == Sizing(450.0, 304.0, 46.0);
  }
}
