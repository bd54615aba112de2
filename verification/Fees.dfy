/** The commission of payment_hub/payment_service.py and revenue_engine/revenue_engine.py. Amounts are in cents, bounds
    in cents of any fineness; a commission of b basis points of a cents is a * b ten-thousandths of a cent. */
module Fees {
  import opened Rounding
  import opened Fx
  import KoraStatus

  const BPS := 10_000

  /** Configured commission and US-dollar bounds. Nothing keeps the minimum below the maximum, either
      above zero, or both to whole cents. */
  datatype Settings = Settings(bps: nat, minUsd: Fraction, maxUsd: Fraction)

  /** The range the configuration enforces. */
  predicate SettingsOk(g: Settings) {
    g.bps <= 500
  }

  function Max(a: int, b: int): int {
    if a >= b then a else b
  }

  function Min(a: int, b: int): int {
    if a <= b then a else b
  }

  /** The commission before bounds and rounding. */
  function Commission(amount: int, g: Settings): Fraction {
    Quotient(amount * g.bps, BPS)
  }

  // ----- PaymentService -----

  /** _calculate_afm_fee: the fee and the net amount. */
  function CalculateAfmFee(amount: int, currency: string, g: Settings): (int, int) {
    var (minFee, maxFee) := ConvertUsdBounds(g.minUsd, g.maxUsd, currency);
    var fee := Cents(Smaller(Greater(Commission(amount, g), minFee), maxFee));
    (fee, amount - fee)
  }

  // ----- AFMRevenueEngine -----

  datatype FeeBreakdown = FeeBreakdown(gross: int, afmFee: int, net: int, pspFee: int, totalCost: int)

  function Lower(s: string): string {
    seq(|s|, i requires 0 <= i < |s| => if 'A' <= s[i] <= 'Z' then s[i] - 'A' + 'a' else s[i])
  }

  function PspFeeBps(psp: string): nat {
    if psp == "kora" then 15
    else if psp == "fincra" then 20
    else if psp == "flutterwave" then 14
    else if psp == "stripe" then 29
    else if psp == "mtn_momo" || psp == "orange_money" then 10
    else 20
  }

  /** calculate_fee. The provider's share is rounded half-even, the commission half-up. */
  function CalculateFee(amount: int, currency: string, psp: string, g: Settings): FeeBreakdown {
    var (minFee, maxFee) := ConvertUsdBounds(g.minUsd, g.maxUsd, currency);
    var raised := Greater(Commission(amount, g), minFee);
    var capped := Smaller(raised, maxFee);
    var afmFee := Cents(capped);
    var pspFee := RoundHalfEven(amount * PspFeeBps(Lower(psp)), BPS);
    FeeBreakdown(amount, afmFee, amount - afmFee, pspFee, afmFee + pspFee)
  }

  /** Both engines charge the same commission and leave the same net amount. */
  lemma EnginesAgree(amount: int, currency: string, psp: string, g: Settings)
    ensures var (fee, net) := CalculateAfmFee(amount, currency, g);
            var b := CalculateFee(amount, currency, psp, g);
            b.afmFee == fee && b.net == net && b.gross == fee + net && b.totalCost == b.gross - b.net + b.pspFee
  {
  }

  /** The provider's share is its rate to the nearest cent. */
  lemma PspFeeIsNearest(amount: int, currency: string, psp: string, g: Settings)
    ensures 2 * Abs(CalculateFee(amount, currency, psp, g).pspFee * 10_000 - amount * PspFeeBps(Lower(psp))) <= 10_000
  {
    HalfEvenIsNearest(amount * PspFeeBps(Lower(psp)), BPS);
  }

  // ----- Bounds and monotonicity -----

  /** Rounding and clamping commute: the fee is the rounded commission between the rounded bounds. */
  lemma FeeIsClampOfRounded(amount: int, currency: string, g: Settings)
    ensures var (fee, net) := CalculateAfmFee(amount, currency, g);
            var (minFee, maxFee) := ConvertUsdBounds(g.minUsd, g.maxUsd, currency);
            fee == Min(Max(Cents(Commission(amount, g)), Cents(minFee)), Cents(maxFee)) && fee + net == amount
  {
    var (minFee, maxFee) := ConvertUsdBounds(g.minUsd, g.maxUsd, currency);
    CentsOfExtremes(Commission(amount, g), minFee);
    CentsOfExtremes(Greater(Commission(amount, g), minFee), maxFee);
  }

  /** The fee and the net amount sum to the amount; the fee never exceeds the maximum to the cent and falls below the
      minimum only where the maximum is smaller still. */
  lemma FeeWithinBounds(amount: int, currency: string, g: Settings)
    ensures var (fee, net) := CalculateAfmFee(amount, currency, g);
            var (minFee, maxFee) := ConvertUsdBounds(g.minUsd, g.maxUsd, currency);
            fee + net == amount && Min(Cents(minFee), Cents(maxFee)) <= fee <= Cents(maxFee)
  {
    FeeIsClampOfRounded(amount, currency, g);
  }

  /** With ordered bounds the fee lies between them, each to the cent, in every currency. */
  lemma OrderedBoundsHold(amount: int, currency: string, g: Settings)
    requires g.minUsd.n >= 0 && AtMost(g.minUsd, g.maxUsd)
    ensures var (fee, _) := CalculateAfmFee(amount, currency, g);
            var (minFee, maxFee) := ConvertUsdBounds(g.minUsd, g.maxUsd, currency);
            0 <= Cents(minFee) <= fee <= Cents(maxFee)
  {
    BoundsStayOrdered(g.minUsd, g.maxUsd, currency);
    var (minFee, maxFee) := ConvertUsdBounds(g.minUsd, g.maxUsd, currency);
    CentsMonotone(Whole(0), minFee);
    WholeCents(0);
    CentsMonotone(minFee, maxFee);
    FeeWithinBounds(amount, currency, g);
  }

  /** A rise of the commission by at most a twentieth of a cent for each cent never rounds to more than the rise of the
      amount. */
  lemma RoundedRise(x: int, y: int, cents: int, bps: nat)
    requires x <= y <= x + cents * bps && 0 <= cents && bps <= 500
    ensures RoundHalfUp(x, BPS) <= RoundHalfUp(y, BPS) <= RoundHalfUp(x, BPS) + cents
  {
    HalfUpMonotone(x, y, BPS);
    HalfUpIsNearest(x, BPS);
    HalfUpIsNearest(y, BPS);
    MulNonNegative(cents, 500 - bps);
    assert cents * 500 == cents * bps + cents * (500 - bps);
  }

  /** A larger payment never pays a smaller fee and never yields a smaller net amount, in spite of clamping and
      rounding, in every currency and for every pair of bounds. */
  lemma FeeAndNetAreMonotone(a: int, b: int, currency: string, g: Settings)
    requires SettingsOk(g) && a <= b
    ensures var (feeA, netA) := CalculateAfmFee(a, currency, g);
            var (feeB, netB) := CalculateAfmFee(b, currency, g);
            feeA <= feeB && netA <= netB
  {
    assert b * g.bps == a * g.bps + (b - a) * g.bps;
    MulNonNegative(b - a, g.bps);
    RoundedRise(a * g.bps, b * g.bps, b - a, g.bps);
    FeeIsClampOfRounded(a, currency, g);
    FeeIsClampOfRounded(b, currency, g);
  }

  /** Between the bounds the fee is the commission to the nearest cent; above the maximum it is the maximum to the cent;
      below, the smaller bound. */
  lemma FeeIsNearestCommission(amount: int, currency: string, g: Settings)
    ensures var (fee, net) := CalculateAfmFee(amount, currency, g);
            var (minFee, maxFee) := ConvertUsdBounds(g.minUsd, g.maxUsd, currency);
            var exact := Quotient(amount * g.bps, 10_000);
            && (AtMost(minFee, exact) && AtMost(exact, maxFee) ==> 2 * Abs(fee * 10_000 - amount * g.bps) <= 10_000)
            && (!AtMost(minFee, exact) ==> fee == Min(Cents(minFee), Cents(maxFee)))
            && (!AtMost(exact, maxFee) ==> fee == Cents(maxFee))
  {
    var (minFee, maxFee) := ConvertUsdBounds(g.minUsd, g.maxUsd, currency);
    var exact := Commission(amount, g);
    FeeIsClampOfRounded(amount, currency, g);
    if AtMost(minFee, exact) {
      CentsMonotone(minFee, exact);
    } else {
      CentsMonotone(exact, minFee);
    }
    if AtMost(exact, maxFee) {
      CentsMonotone(exact, maxFee);
    } else {
      CentsMonotone(maxFee, exact);
    }
    NearestCents(amount * g.bps, BPS);
  }

  /** A maximum of 50.005 dollars charges a fee of 50.01: the bound is only rounded with the fee. */
  lemma FineBoundRoundsUp()
    ensures var g := Settings(200, Whole(50), Quotient(50_005, 10));
            CalculateAfmFee(1_000_000, "USD", g).0 == 5_001
  {
    assert Upper("USD") == "USD";
  }

  /** The configured two percent between half a dollar and fifty: a hundred dollars pay two, ten pay the minimum, ten
      thousand the maximum. */
  lemma TwoPercent()
    ensures var g := Settings(200, Whole(50), Whole(5_000));
            && CalculateAfmFee(10_000, "USD", g) == (200, 9_800)
            && CalculateAfmFee(1_000, "USD", g) == (50, 950)
            && CalculateAfmFee(1_000_000, "USD", g) == (5_000, 995_000)
  {
    assert Upper("USD") == "USD";
  }

  /** The provider's rate in basis points, its name read in any case. */
  lemma PspRates(psp: string)
    ensures PspFeeBps(Lower(psp)) ==
              if KoraStatus.Spells(psp, "kora") then 15
              else if KoraStatus.Spells(psp, "fincra") then 20
              else if KoraStatus.Spells(psp, "flutterwave") then 14
              else if KoraStatus.Spells(psp, "stripe") then 29
              else if Lower(psp) == "mtn_momo" || Lower(psp) == "orange_money" then 10
              else 20
  {
    assert Lower(psp) == KoraStatus.Lower(psp);
    KoraStatus.LowerSpells(psp, "kora");
    KoraStatus.LowerSpells(psp, "fincra");
    KoraStatus.LowerSpells(psp, "flutterwave");
    KoraStatus.LowerSpells(psp, "stripe");
  }

  /** A commission of two and a half cents is charged as three; a provider share of four and a half is estimated as four. */
  lemma FeeTies()
    ensures CalculateAfmFee(125, "USD", Settings(200, Whole(0), Whole(5_000))) == (3, 122)
    ensures CalculateFee(3_000, "USD", "kora", Settings(200, Whole(0), Whole(5_000))).pspFee == 4
  {
    assert Upper("USD") == "USD" && Lower("kora") == "kora";
  }
}
