/** common/fx.py and easymarkets/dashboard_service.py: the rate table and the conversions. Money is in cents. */
module Fx {
  import opened Wrappers
  import opened Rounding

  /** Rates are integers in units of 10^-5 US dollars for one unit of the currency. */
  const UNIT := 100_000

  function Upper(s: string): string {
    seq(|s|, i requires 0 <= i < |s| => if 'a' <= s[i] <= 'z' then s[i] - 'a' + 'A' else s[i])
  }

  /** The same table in both files. */
  const FX_RATES_TO_USD: map<string, int> := map[
    "XOF" := 165,
    "XAF" := 165,
    "NGN" := 64,
    "KES" := 770,
    "GHS" := 6_600,
    "ZAR" := 5_500,
    "USD" := 100_000,
    "EUR" := 108_000,
    "GBP" := 127_000]

  function RateOf(currency: string): (r: Option<int>)
    ensures r.Some? ==> r.value > 0
  {
    if currency in FX_RATES_TO_USD then Some(FX_RATES_TO_USD[currency]) else None
  }

  // ----- Fee bounds -----

  /** One US-dollar bound in the local currency, both in cents of any fineness: a bound already in dollars, or of a
      currency without a rate, is not rounded. */
  function ConvertBound(usd: Fraction, currency: string): Fraction {
    if Upper(currency) == "USD" then usd
    else match RateOf(Upper(currency))
      case None => usd
      case Some(rate) =>
        TimesPositive(0, usd.d, rate);
        Whole(RoundHalfUp(usd.n * UNIT, usd.d * rate))
  }

  function ConvertUsdBounds(minUsd: Fraction, maxUsd: Fraction, currency: string): (Fraction, Fraction) {
    (ConvertBound(minUsd, currency), ConvertBound(maxUsd, currency))
  }

  lemma ScaledAtMost(x: Fraction, y: Fraction, rate: int)
    requires rate > 0 && AtMost(x, y)
    ensures x.d * rate > 0 && y.d * rate > 0
    ensures RoundHalfUp(x.n * UNIT, x.d * rate) <= RoundHalfUp(y.n * UNIT, y.d * rate)
  {
    TimesPositive(0, x.d, rate);
    TimesPositive(0, y.d, rate);
    var a, b := Quotient(x.n * UNIT, x.d * rate), Quotient(y.n * UNIT, y.d * rate);
    TimesPositive(x.n * y.d, y.n * x.d, UNIT * rate);
    assert a.n * b.d == (x.n * y.d) * (UNIT * rate);
    assert b.n * a.d == (y.n * x.d) * (UNIT * rate);
    CentsMonotone(a, b);
  }

  /** Conversion keeps the bounds in order and nonnegative, for every currency, known or not. */
  lemma BoundsStayOrdered(minUsd: Fraction, maxUsd: Fraction, currency: string)
    requires minUsd.n >= 0 && AtMost(minUsd, maxUsd)
    ensures ConvertBound(minUsd, currency).n >= 0 && AtMost(ConvertBound(minUsd, currency), ConvertBound(maxUsd, currency))
  {
    var rate := RateOf(Upper(currency));
    if Upper(currency) != "USD" && rate.Some? {
      ScaledAtMost(Whole(0), minUsd, rate.value);
      HalfUpOfWhole(0, rate.value);
      ScaledAtMost(minUsd, maxUsd, rate.value);
    }
  }

  // ----- Dashboard conversions -----

  function ToUsd(amount: int, rate: int): int {
    RoundHalfUp(amount * rate, UNIT)
  }

  function FromUsd(amount: int, rate: int): int
    requires rate > 0
  {
    RoundHalfUp(amount * UNIT, rate)
  }

  function ConvertToUsd(amount: int, currency: string): Result<int> {
    match RateOf(Upper(currency))
    case None => Failure("not in FX mapping")
    case Some(rate) => Success(ToUsd(amount, rate))
  }

  function ConvertFromUsd(amount: int, currency: string): Result<int> {
    match RateOf(Upper(currency))
    case None => Failure("not in FX mapping")
    case Some(rate) => Success(FromUsd(amount, rate))
  }

  function Abs(x: int): int {
    if x < 0 then -x else x
  }

  lemma FromUsdError(amount: int, rate: int)
    requires rate > 0
    ensures 2 * Abs(FromUsd(amount, rate) * rate - amount * UNIT) <= rate
  {
    HalfUpIsNearest(amount * UNIT, rate);
    assert 2 * rate * FromUsd(amount, rate) == 2 * (FromUsd(amount, rate) * rate);
  }

  /** A currency worth at most a dollar loses nothing: dollars to local money and back give the same cents. */
  lemma UsdRoundTrip(usd: int, rate: int)
    requires 0 < rate <= UNIT
    ensures ToUsd(FromUsd(usd, rate), rate) == usd
  {
    FromUsdError(usd, rate);
    var local := FromUsd(usd, rate);
    if rate == UNIT {
      HalfUpOfWhole(usd, UNIT);
    }
    HalfUpUnique(local * rate, UNIT, usd);
  }

  /** While every dollar amount survives the round trip, larger amounts convert to strictly larger ones. */
  lemma {:induction false} ExactTripClimbs(rate: int, usd: nat)
    requires rate > 0 && forall u: int :: ToUsd(FromUsd(u, rate), rate) == u
    ensures FromUsd(usd, rate) >= usd
  {
    if usd == 0 {
      HalfUpOfWhole(0, rate);
    } else {
      ExactTripClimbs(rate, usd - 1);
      HalfUpMonotone((usd - 1) * UNIT, usd * UNIT, rate);
      assert ToUsd(FromUsd(usd - 1, rate), rate) == usd - 1 && ToUsd(FromUsd(usd, rate), rate) == usd;
    }
  }

  /** The dollar round trip is the identity on all amounts if and only if the currency is worth at most a dollar:
      otherwise `rate` cents and all below would need more distinct local amounts than there are. */
  lemma UsdRoundTripIff(rate: int)
    requires rate > 0
    ensures (forall usd: int :: ToUsd(FromUsd(usd, rate), rate) == usd) <==> rate <= UNIT
  {
    if rate <= UNIT {
      forall usd: int ensures ToUsd(FromUsd(usd, rate), rate) == usd {
        UsdRoundTrip(usd, rate);
      }
    } else if forall usd: int :: ToUsd(FromUsd(usd, rate), rate) == usd {
      ExactTripClimbs(rate, rate);
      HalfUpOfWhole(UNIT, rate);
    }
  }

  /** A dollar amount through the endpoints' own conversions. */
  function ThereAndBack(usd: int, currency: string): Result<int> {
    match ConvertFromUsd(usd, currency)
    case Failure(reason) => Failure(reason)
    case Success(local) => ConvertToUsd(local, currency)
  }

  lemma ThereAndBackAt(usd: int, currency: string)
    ensures match RateOf(Upper(currency))
            case None => ThereAndBack(usd, currency).Failure?
            case Some(rate) => ThereAndBack(usd, currency) == Success(ToUsd(FromUsd(usd, rate), rate))
  {
  }

  /** The conversions give every dollar amount back if and only if the currency is known and worth at most a dollar. */
  lemma ConversionsInvertIff(currency: string)
    ensures (forall usd: int :: ThereAndBack(usd, currency) == Success(usd))
       <==> RateOf(Upper(currency)).Some? && RateOf(Upper(currency)).value <= UNIT
  {
    match RateOf(Upper(currency)) {
      case None => ThereAndBackAt(0, currency);
      case Some(rate) =>
        if rate <= UNIT {
          forall usd: int ensures ThereAndBack(usd, currency) == Success(usd) {
            ThereAndBackAt(usd, currency);
            UsdRoundTrip(usd, rate);
          }
        } else {
          SomeAmountIsLost(rate);
          var usd: int :| ToUsd(FromUsd(usd, rate), rate) != usd;
          ThereAndBackAt(usd, currency);
        }
    }
  }

  lemma SomeAmountIsLost(rate: int)
    requires rate > UNIT
    ensures exists usd: int :: ToUsd(FromUsd(usd, rate), rate) != usd
  {
    UsdRoundTripIff(rate);
  }

  /** Seven dollar cents come back from euros as six. */
  lemma EuroLosesACent()
    ensures ConvertFromUsd(7, "EUR") == Success(6) && ConvertToUsd(6, "EUR") == Success(6)
  {
    assert Upper("EUR") == "EUR";
  }

  /** Local money to dollars and back errs by at most half a dollar cent at the rate, plus half a local cent. */
  lemma LocalRoundTripError(local: int, rate: int)
    requires rate > 0
    ensures 2 * Abs(FromUsd(ToUsd(local, rate), rate) - local) * rate <= UNIT + rate
  {
    var usd := ToUsd(local, rate);
    HalfUpIsNearest(local * rate, UNIT);
    FromUsdError(usd, rate);
    ScaledError(FromUsd(usd, rate), local, rate, usd * UNIT);
  }

  lemma ScaledError(back: int, local: int, rate: int, middle: int)
    requires rate > 0 && 2 * Abs(back * rate - middle) <= rate && 2 * Abs(middle - local * rate) <= UNIT
    ensures 2 * Abs(back - local) * rate <= UNIT + rate
  {
    AbsProduct(back, local, rate);
  }

  lemma AbsProduct(x: int, y: int, rate: int)
    requires rate > 0
    ensures Abs(x - y) * rate == Abs(x * rate - y * rate)
    ensures 2 * Abs(x - y) * rate == 2 * (Abs(x - y) * rate)
  {
    if x >= y {
      MulNonNegative(x - y, rate);
      assert (x - y) * rate == x * rate - y * rate;
    } else {
      MulNonNegative(y - x, rate);
      assert (y - x) * rate == y * rate - x * rate;
    }
  }

  /** A converted fee bound is worth the dollar bound, to half a local cent. */
  lemma ConvertedBoundIsNearest(usd: Fraction, currency: string)
    requires RateOf(Upper(currency)).Some?
    ensures var rate, local := RateOf(Upper(currency)).value, ConvertBound(usd, currency);
            2 * Abs(local.n * (usd.d * rate) - usd.n * UNIT * local.d) <= usd.d * rate * local.d
  {
    var rate := RateOf(Upper(currency)).value;
    TimesPositive(0, usd.d, rate);
    if Upper(currency) == "USD" {
      assert usd.n * (usd.d * UNIT) == usd.n * UNIT * usd.d;
      TimesPositive(0, usd.d * rate, usd.d);
    } else {
      NearestCents(usd.n * UNIT, usd.d * rate);
    }
  }

  lemma NearestCents(n: int, d: int)
    requires d > 0
    ensures 2 * Abs(RoundHalfUp(n, d) * d - n) <= d
  {
    HalfUpIsNearest(n, d);
    assert 2 * d * RoundHalfUp(n, d) == 2 * (RoundHalfUp(n, d) * d);
  }

  lemma WorthAt(currency: string, name: string, rate: int)
    requires Upper(currency) == name && RateOf(name) == Some(rate)
    ensures ConvertToUsd(10_000_000, currency) == Success(100 * rate)
  {
  }

  lemma CapitalNames()
    ensures forall c | c in {"XOF", "XAF", "NGN", "KES", "GHS", "ZAR", "USD", "EUR", "GBP"} :: Upper(c) == c
    ensures Upper("xof") == "XOF"
  {
    assert Upper("xof") == "XOF" && Upper("XOF") == "XOF" && Upper("XAF") == "XAF" && Upper("NGN") == "NGN";
    assert Upper("KES") == "KES" && Upper("GHS") == "GHS" && Upper("ZAR") == "ZAR";
    assert Upper("USD") == "USD" && Upper("EUR") == "EUR" && Upper("GBP") == "GBP";
  }

  /** What a hundred thousand units of each currency are worth in dollars. */
  lemma HundredThousandUnits()
    ensures var cents := 10_000_000;
            && ConvertToUsd(cents, "xof") == Success(16_500) && ConvertToUsd(cents, "XOF") == Success(16_500)
            && ConvertToUsd(cents, "XAF") == Success(16_500) && ConvertToUsd(cents, "NGN") == Success(6_400)
            && ConvertToUsd(cents, "KES") == Success(77_000) && ConvertToUsd(cents, "GHS") == Success(660_000)
            && ConvertToUsd(cents, "ZAR") == Success(550_000) && ConvertToUsd(cents, "USD") == Success(10_000_000)
            && ConvertToUsd(cents, "EUR") == Success(10_800_000) && ConvertToUsd(cents, "GBP") == Success(12_700_000)
  {
    CapitalNames();
    WorthAt("xof", "XOF", 165);
    WorthAt("XOF", "XOF", 165);
    WorthAt("XAF", "XAF", 165);
    WorthAt("NGN", "NGN", 64);
    WorthAt("KES", "KES", 770);
    WorthAt("GHS", "GHS", 6_600);
    WorthAt("ZAR", "ZAR", 5_500);
    WorthAt("USD", "USD", 100_000);
    WorthAt("EUR", "EUR", 108_000);
    WorthAt("GBP", "GBP", 127_000);
  }

  /** No other currency is known. */
  lemma KnownCurrencies(amount: int, currency: string)
    ensures ConvertToUsd(amount, currency).Success? <==>
              Upper(currency) in {"XOF", "XAF", "NGN", "KES", "GHS", "ZAR", "USD", "EUR", "GBP"}
    ensures ConvertFromUsd(amount, currency).Success? <==> ConvertToUsd(amount, currency).Success?
  {
  }

  /** Dollar bounds stay as they are in dollars and in every currency without a rate, whatever their fineness. */
  lemma UnconvertedBounds(minUsd: Fraction, maxUsd: Fraction, currency: string)
    requires Upper(currency) == "USD" || Upper(currency) !in {"XOF", "XAF", "NGN", "KES", "GHS", "ZAR", "EUR", "GBP"}
    ensures ConvertUsdBounds(minUsd, maxUsd, currency) == (minUsd, maxUsd)
  {
  }

  /** A tie goes away from zero, in both directions: 16.5 cents of three rand, 1562.5 kobo of one cent. */
  lemma TiesGoUp()
    ensures ConvertToUsd(300, "ZAR") == Success(17) && ConvertToUsd(-300, "ZAR") == Success(-17)
    ensures ConvertFromUsd(1, "NGN") == Success(1_563) && ConvertFromUsd(-1, "NGN") == Success(-1_563)
    ensures ConvertBound(Whole(1), "NGN") == Whole(1_563)
  {
    CapitalNames();
    assert RateOf("ZAR") == Some(5_500) && RateOf("NGN") == Some(64);
  }
}
