/** American odds and their conversion to decimal odds. */
module Odds {
  import opened Outcomes
  import opened RealFacts

  /** Decimal odds of a nonzero American price: the total return, stake included,
      of one unit staked. A positive price is the profit on 100 staked; a negative
      price is the stake needed to profit 100. */
  function Decimal(odds: int): (d: real)
    requires odds != 0
    ensures d > 1.0
  {
    if odds > 0 then odds as real / 100.0 + 1.0
    else 100.0 / Abs(odds) as real + 1.0
  }

  function Abs(x: int): (r: nat)
    ensures r == x || r == -x
  {
    if x < 0 then -x else x
  }

  /** The conversion as the calculator performs it: a price of 0 takes the
      `else` branch and divides by zero, which the model reports as `ZeroOdds`. */
  function AmericanToDecimal(odds: int): (r: Result<real>)
    ensures r.Err? <==> odds == 0
    ensures r.Err? ==> r.error == ZeroOdds
    ensures r.Ok? ==> r.value > 1.0 && DecimalToAmerican(r.value) == Canonical(odds)
  {
    if odds == 0 then Err(ZeroOdds)
    else
      CanonicalRoundTrip(odds);
      Ok(Decimal(odds))
  }

  /** The inverse conversion, from decimal odds back to an American price:
      2.0 and above read as underdog prices, below 2.0 as favourite prices. */
  function DecimalToAmerican(d: real): (odds: real)
    requires d > 1.0
    ensures d >= 2.0 ==> odds >= 100.0
    ensures d < 2.0 ==> odds < -100.0
  {
    if d >= 2.0 then (d - 1.0) * 100.0
    else -100.0 / (d - 1.0)
  }

  /** The American price that denotes the same decimal odds as `odds` in the
      usual notation, where every price has magnitude at least 100: +100 and
      -100 are the same price, and a price of magnitude below 100 is written
      with the other sign. */
  function Canonical(odds: int): real
    requires odds != 0
  {
    if odds >= 100 || odds < -100 then odds as real
    else if odds == -100 then 100.0
    else if odds > 0 then -10000.0 / odds as real
    else 10000.0 / Abs(odds) as real
  }

  lemma CanonicalRoundTrip(odds: int)
    requires odds != 0
    ensures DecimalToAmerican(Decimal(odds)) == Canonical(odds)
  {
    var d := Decimal(odds);
    if odds > 0 {
      if odds < 100 {
        assert d < 2.0;
        assert d - 1.0 == odds as real / 100.0;
      }
    } else {
      var m := Abs(odds) as real;
      assert d - 1.0 == 100.0 / m;
      if odds < -100 {
        assert d < 2.0;
        assert -100.0 / (100.0 / m) == -m;
      } else if odds > -100 {
        assert d > 2.0;
        assert (d - 1.0) * 100.0 == 10000.0 / m;
      }
    }
  }

  /** Round trip in the notation users type: every price of magnitude at least
      100 other than -100 converts to decimal odds and back to itself. */
  lemma RoundTrip(odds: int)
    requires odds >= 100 || odds < -100
    ensures AmericanToDecimal(odds).Ok?
    ensures DecimalToAmerican(AmericanToDecimal(odds).value) == odds as real
  {
  }

  /** Concrete points of the conversion. */
  lemma KnownPrices()
    ensures AmericanToDecimal(100) == Ok(2.0) && AmericanToDecimal(-100) == Ok(2.0)
    ensures AmericanToDecimal(200) == Ok(3.0) && AmericanToDecimal(-200) == Ok(1.5)
    ensures AmericanToDecimal(350) == Ok(4.5) && AmericanToDecimal(-400) == Ok(1.25)
    ensures AmericanToDecimal(0) == Err(ZeroOdds)
  {
  }

  /** Among prices in the usual notation a numerically larger American price
      never pays less, and pays strictly more within one sign. */
  lemma {:induction false} DecimalMonotone(a: int, b: int)
    requires a >= 100 || a <= -100
    requires b >= 100 || b <= -100
    requires a <= b
    ensures Decimal(a) <= Decimal(b)
    ensures (a > 0) == (b > 0) && a < b ==> Decimal(a) < Decimal(b)
  {
    if a < 0 && b < 0 {
      ReciprocalAntitone(100.0, Abs(a) as real, Abs(b) as real);
    }
  }
}
