/** revenue_engine/revenue_engine.py:34-60, the three-way split. The rates are ads/d, creator/d and platform/d. */
module RevenueSplit {
  import opened Rounding

  datatype Rates = Rates(ads: nat, creator: nat, platform: nat, d: nat)

  datatype Split = Split(ads: int, creator: int, platform: int)

  function Sum(s: Split): int {
    s.ads + s.creator + s.platform
  }

  /** The shares before correction, in cents. */
  function Rounded(gross: int, r: Rates): Split
    requires r.d > 0
  {
    Split(RoundHalfUp(gross * r.ads, r.d), RoundHalfUp(gross * r.creator, r.d), RoundHalfUp(gross * r.platform, r.d))
  }

  /** calculate_split: the rounding difference goes to one share. */
  function CalculateSplit(gross: int, r: Rates): Split
    requires r.d > 0
  {
    var s := Rounded(gross, r);
    var diff := gross - Sum(s);
    if diff == 0 then s
    else if s.creator >= s.ads && s.creator >= s.platform then s.(creator := s.creator + diff)
    else if s.ads >= s.platform then s.(ads := s.ads + diff)
    else s.(platform := s.platform + diff)
  }

  /** The shares always sum to the gross amount, whatever the rates. */
  lemma SharesSumToGross(gross: int, r: Rates)
    requires r.d > 0
    ensures Sum(CalculateSplit(gross, r)) == gross
  {
  }

  /** 2 * |share * d - exact * d| is at most `slack`. */
  predicate Within(share: int, exactTimesD: int, d: nat, slack: int) {
    -slack <= 2 * (share * d) - 2 * exactTimesD <= slack
  }

  lemma RoundedWithin(n: int, d: nat)
    requires d > 0
    ensures Within(RoundHalfUp(n, d), n, d, d)
  {
    HalfUpIsNearest(n, d);
    assert 2 * d * RoundHalfUp(n, d) == 2 * (RoundHalfUp(n, d) * d);
  }

  /** Three half-cent errors leave a whole-cent difference of at most one. */
  lemma CorrectionIsOneCent(gross: int, r: Rates)
    requires r.d > 0 && r.ads + r.creator + r.platform == r.d
    ensures -1 <= gross - Sum(Rounded(gross, r)) <= 1
  {
    var s := Rounded(gross, r);
    RoundedWithin(gross * r.ads, r.d);
    RoundedWithin(gross * r.creator, r.d);
    RoundedWithin(gross * r.platform, r.d);
    ThreeErrors(gross, r.d, r.ads, r.creator, r.platform, s.ads, s.creator, s.platform);
  }

  lemma ThreeErrors(gross: int, d: nat, a: nat, c: nat, p: nat, x: int, y: int, z: int)
    requires d > 0 && a + c + p == d
    requires Within(x, gross * a, d, d) && Within(y, gross * c, d, d) && Within(z, gross * p, d, d)
    ensures -1 <= gross - (x + y + z) <= 1
  {
    SplitProduct(gross, a, c, p);
    DifferenceProduct(gross, x, y, z, d);
    WholeCents(gross - (x + y + z), d);
  }

  lemma SplitProduct(g: int, a: int, c: int, p: int)
    ensures g * (a + c + p) == g * a + g * c + g * p
  {
  }

  lemma DifferenceProduct(g: int, x: int, y: int, z: int, d: int)
    ensures (g - (x + y + z)) * d == g * d - x * d - y * d - z * d
  {
  }

  lemma WholeCents(diff: int, d: nat)
    requires d > 0 && -3 * d <= 2 * (diff * d) <= 3 * d
    ensures -1 <= diff <= 1
  {
    if diff > 1 {
      MulNonNegative(diff - 2, d);
    } else if diff < -1 {
      MulNonNegative(-2 - diff, d);
    }
  }

  predicate OnlyDiffers(s: Split, t: Split) {
    || (t == s.(ads := t.ads) && s.ads >= s.creator && s.ads >= s.platform)
    || (t == s.(creator := t.creator) && s.creator >= s.ads && s.creator >= s.platform)
    || (t == s.(platform := t.platform) && s.platform >= s.ads && s.platform >= s.creator)
  }

  /** With rates that sum to one: the split is exact, at most one cent is moved, it goes to a largest share, no share
      is negative, and every share is within a cent and a half of its exact value. */
  lemma SplitIsFair(gross: int, r: Rates)
    requires gross >= 0 && r.d > 0 && r.ads + r.creator + r.platform == r.d
    ensures var s, t := Rounded(gross, r), CalculateSplit(gross, r);
            && Sum(t) == gross
            && OnlyDiffers(s, t) && -1 <= Sum(t) - Sum(s) <= 1
            && t.ads >= 0 && t.creator >= 0 && t.platform >= 0
            && Within(t.ads, gross * r.ads, r.d, 3 * r.d)
            && Within(t.creator, gross * r.creator, r.d, 3 * r.d)
            && Within(t.platform, gross * r.platform, r.d, 3 * r.d)
  {
    CorrectionIsOneCent(gross, r);
    ShareOk(gross, r.ads, r.d);
    ShareOk(gross, r.creator, r.d);
    ShareOk(gross, r.platform, r.d);
  }

  /** A rounded share is nonnegative, and moving it by a cent keeps it within a cent and a half. */
  lemma ShareOk(gross: int, rate: nat, d: nat)
    requires gross >= 0 && d > 0
    ensures var x := RoundHalfUp(gross * rate, d);
            x >= 0 && forall y | x - 1 <= y <= x + 1 :: Within(y, gross * rate, d, 3 * d)
  {
    var x := RoundHalfUp(gross * rate, d);
    MulNonNegative(gross, rate);
    HalfUpOfWhole(0, d);
    HalfUpMonotone(0, gross * rate, d);
    RoundedWithin(gross * rate, d);
    forall y | x - 1 <= y <= x + 1 ensures Within(y, gross * rate, d, 3 * d) {
      OneCentAway(x, y, gross * rate, d);
    }
  }

  lemma OneCentAway(x: int, y: int, exact: int, d: nat)
    requires x - 1 <= y <= x + 1 && Within(x, exact, d, d)
    ensures Within(y, exact, d, 3 * d)
  {
    assert y * d == x * d + (y - x) * d;
  }

  /** Among equal largest shares the creator's is corrected first, then that of the ads. */
  lemma CorrectionOrder(gross: int, r: Rates)
    requires r.d > 0
    ensures var s, t := Rounded(gross, r), CalculateSplit(gross, r);
            && (s.creator >= s.ads && s.creator >= s.platform ==> t.ads == s.ads && t.platform == s.platform)
            && (!(s.creator >= s.ads && s.creator >= s.platform) && s.ads >= s.platform ==>
                  t.creator == s.creator && t.platform == s.platform)
            && (!(s.creator >= s.ads && s.creator >= s.platform) && s.ads < s.platform ==> t.creator == s.creator && t.ads == s.ads)
  {
  }

  /** The rounded shares are the exact ones to the nearest cent. */
  lemma SharesAreNearest(gross: int, r: Rates)
    requires r.d > 0
    ensures var s := Rounded(gross, r);
            && Within(s.ads, gross * r.ads, r.d, r.d)
            && Within(s.creator, gross * r.creator, r.d, r.d)
            && Within(s.platform, gross * r.platform, r.d, r.d)
  {
    RoundedWithin(gross * r.ads, r.d);
    RoundedWithin(gross * r.creator, r.d);
    RoundedWithin(gross * r.platform, r.d);
  }

  /** At 35, 50 and 15 percent: one cent is the creator's alone; of thirty, two ties go up and the creator pays for it. */
  lemma ThirtyCents()
    ensures CalculateSplit(1, Rates(35, 50, 15, 100)) == Split(0, 1, 0)
    ensures CalculateSplit(30, Rates(35, 50, 15, 100)) == Split(11, 14, 5)
  {
  }
}
