# Hedge Pro Optimizer — hedge-sizing core in Dafny

This project models the arithmetic of the "Hedge Pro Optimizer" calculator
(`app.py`). A bettor holds a sportsbook promo on the underdog: a Bonus Bet
(free credit), a Profit Boost, or a No-Sweat bet. They place a cash hedge on
the favourite at another book. The calculator converts both American prices
to decimal odds. It then computes the target payout, the hedge stake and the
guaranteed net profit, and the conversion rate (profit as a percentage of the
promo amount). A two-row "Scenario Breakdown" table shows what happens when
each side wins.

Modules:

- `Outcomes` (`outcomes.dfy`): the `Result` type. Python raises
  `ZeroDivisionError` on a price of 0 and on a promo amount of 0; the model
  returns `Err(ZeroOdds)` or `Err(ZeroStake)` instead.
- `Odds` (`odds.dfy`): `american_to_decimal` and an inverse conversion back to
  American notation, used to state the round trip.
- `Hedge` (`hedge.dfy`): the promo block, lifted into a pure function over the
  tagged `Promo` datatype (`BonusBet | ProfitBoost(boostPct) | NoSweat`). The
  boost is a subset type `0..100`, the range of the sidebar slider. `Settle`
  follows the money for each winning side and is defined independently of the
  sizing formula; the lemmas relate the two.
- `Scenario` (`scenario.dfy`): the breakdown table, as written and corrected
  (see Findings).
- `RealFacts` (`realfacts.dfy`): one-step facts of real arithmetic used by the
  proofs.

All arithmetic is on Dafny `real`. The source uses only `+ - * /` on these
values, so `real` is exact where Python floats round.

## Model

| member | source | states |
|---|---|---|
| Odds.AmericanToDecimal | app.py:3-7 | Fails exactly when the price is 0 (the `else` branch divides by `abs(0)`). Otherwise the decimal odds exceed 1, and converting back gives the same price in the usual notation (magnitude at least 100, +100 for -100). |
| Odds.RoundTrip | app.py:3-7 | Every price of magnitude at least 100 other than -100 converts to decimal odds and back to itself. |
| Odds.KnownPrices | app.py:3-7 | +100 and -100 both give 2.0; +200 gives 3.0; -200 gives 1.5; +350 gives 4.5; -400 gives 1.25; 0 is an error. |
| Odds.DecimalMonotone | app.py:4-7 | Among prices of magnitude at least 100, a numerically larger American price never gives smaller decimal odds, and gives strictly larger odds within one sign. |
| Hedge.Calculate | app.py:25-47 | Fails, with the zero-odds error, exactly when either price is 0. Otherwise the target payout is the promo's return on an underdog win, the hedge stake times the favourite's decimal odds equals that payout less the No-Sweat refund value, and the bettor ends with exactly the net profit whether the underdog or the favourite wins. For No-Sweat this counts the 70% refund value on the favourite side. |
| Hedge.Size | app.py:28-47 | For each promo type, on any decimal odds: the target payout is the promo's return when the underdog wins (winnings only for a Bonus Bet, stake plus boosted winnings for Profit Boost, stake plus winnings for No-Sweat); the hedge stake times the hedge's decimal odds is that payout less the No-Sweat refund value; and both winning sides settle to the reported net profit. |
| Hedge.Boosted | app.py:36-37 | The boost applies to the net winnings only: the boosted odds exceed the plain odds by the winnings `d - 1` times the boost percentage. A 0% boost leaves the odds unchanged, and odds of 1 (no winnings) stay at 1. |
| Hedge.EqualisingHedgeIsUnique | app.py:31 | A hedge stake equalises the two outcomes if and only if it is the one the calculator computes. This holds for every promo type, and lines 39 and 46 size the hedge the same way. |
| Hedge.BonusBetProfitPositive | app.py:28-32 | Take a Bonus Bet with a positive amount and nonzero prices. Then 0 < hedge stake < target payout, so the net profit is positive. |
| Hedge.HedgePositive | app.py:28-47 | For every promo type, a positive amount and nonzero prices give a positive hedge stake. For No-Sweat this holds because the refund value is below the payout. |
| Hedge.BoostedMonotone | app.py:35-37 | A 0% boost leaves the decimal odds unchanged. A larger boost gives strictly larger boosted odds. |
| Hedge.BoostMonotone | app.py:34-40 | For a positive amount, a strictly larger boost percentage gives a strictly larger guaranteed profit. |
| Hedge.SizeIsLinear | app.py:28-47 | Target payout, hedge stake and net profit are each the promo amount times their value for an amount of 1. |
| Hedge.ConversionRate | app.py:56 | Fails exactly when the promo amount is 0. Otherwise the rate times the amount is 100 times the net profit. |
| Hedge.ConversionIndependentOfStake | app.py:25-56 | For fixed promo type and prices, every nonzero promo amount has the same conversion rate. |
| Hedge.DefaultInputs | app.py:18-56 | At the sidebar defaults (+350, 100, -400), Bonus Bet gives target 350, hedge 280, profit 70 and a conversion rate of 70%. Profit Boost at 50% gives target 625, hedge 500, profit 25 and 25%. No-Sweat gives target 450, hedge 304, profit 46 and 46%. Each rate is computed from the calculated profit. |
| Scenario.BreakdownAsWritten | app.py:61-74 | Both rows show the net profit that either outcome settles to, with the row's cost taken as the hedge. On the underdog row, payout minus cost exceeds that profit by the cash put into the promo (nothing for a Bonus Bet). On the favourite row, payout minus cost falls short of it by the No-Sweat refund value. |
| Scenario.BreakdownAsWrittenAddsUpIff | app.py:61-74 | For a nonzero amount, the table as written has an underdog row whose payout minus cost equals its net profit only for a Bonus Bet. Its favourite row does so for every promo type except No-Sweat. The favourite payout plus the refund value is the underdog payout, so the favourite row falls short by exactly the refund. |
| Scenario.DefaultsDoNotAddUp | app.py:61-74 | At the defaults (+350, 100, -400, run through the whole calculation), the Profit Boost underdog row shows 625 minus 500 next to a profit of 25. The No-Sweat favourite row shows 380 minus 404 next to a profit of 46. |
| Scenario.CorrectedBreakdownAddsUp | app.py:61-74 | In the corrected table, each row's payout minus cost equals the net profit. It is also the settlement of that winning side. |

## Left out

- The Streamlit calls: page config, titles, sidebar widgets, columns, metrics and table rendering. They are UI plumbing. Inputs become parameters: prices and promo amount are integers (the number inputs have integer defaults), and the boost is an integer from 0 to 100.
- The f-string formatting, and rounding to 2 or 1 decimals for display. Neither feeds back into the arithmetic.
- Python float rounding. The model computes exactly in `real`.
- The order in which the page fails on a zero amount. The hedge and profit metrics render before the conversion rate raises. The model gives the sizing and the rate as separate results.
- An opportunity scanner over odds feeds. None exists in `app.py`, so there is nothing to model.
- A configurable refund rate and an alternative family of hedge formulas. The code hard-codes a 70% refund retention and one formula per promo; the model follows the code.

## Findings

| source | as written | input that shows it | evidently intended | confidence | as-written member | corrected member |
|---|---|---|---|---|---|---|
| app.py:61-74 | The breakdown's underdog row subtracts only the hedge from a payout that includes the returned cash stake. The favourite row's payout leaves out the No-Sweat refund value. So for Profit Boost and No-Sweat, payout minus cost is not the net profit shown beside it. | +350, promo 100, -400, Profit Boost 50%: the underdog row shows $625.00, -$500.00, net $25.00. With No-Sweat, the favourite row shows $380.00, -$404.00, net $46.00. | Each row's cost includes the cash promo stake, and the favourite payout includes the refund value, so each row adds up to its net profit. | medium; not executed | Scenario.BreakdownAsWrittenAddsUpIff | Scenario.CorrectedBreakdownAddsUp |
