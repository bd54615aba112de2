/** easymarkets/dashboard_service.py:42-62, the value of a set of holdings in dollars. */
module Portfolio {
  import opened Wrappers
  import opened Rounding
  import opened Fx

  datatype Holding = Holding(currency: string, amount: int)

  datatype Valuation = Valuation(localAmount: int, usdValue: int)

  datatype Report = Report(totalUsd: int, byCurrency: map<string, Valuation>)

  predicate Known(h: Holding) {
    ConvertToUsd(h.amount, h.currency).Success?
  }

  function UsdOf(h: Holding): int {
    match ConvertToUsd(h.amount, h.currency)
    case Success(usd) => usd
    case Failure(_) => 0
  }

  /** The dollar values of all holdings together. */
  function Total(hs: seq<Holding>): int {
    if hs == [] then 0 else Total(hs[..|hs| - 1]) + UsdOf(hs[|hs| - 1])
  }

  /** The last holding of a currency wins. */
  function Breakdown(hs: seq<Holding>): map<string, Valuation> {
    if hs == [] then map[]
    else
      var h := hs[|hs| - 1];
      Breakdown(hs[..|hs| - 1])[h.currency := Valuation(h.amount, UsdOf(h))]
  }

  /** get_portfolio_value. It raises on the first unknown currency. */
  method GetPortfolioValue(holdings: seq<Holding>) returns (r: Result<Report>)
    ensures r.Success? <==> forall i | 0 <= i < |holdings| :: Known(holdings[i])
    ensures r.Success? ==> r.value == Report(Total(holdings), Breakdown(holdings))
  {
    var totalUsd := 0;
    var byCurrency := map[];
    for i := 0 to |holdings|
      invariant totalUsd == Total(holdings[..i]) && byCurrency == Breakdown(holdings[..i])
      invariant forall k | 0 <= k < i :: Known(holdings[k])
    {
      var holding := holdings[i];
      var usdValue := ConvertToUsd(holding.amount, holding.currency);
      if usdValue.Failure? {
        return Failure(usdValue.reason);
      }
      byCurrency := byCurrency[holding.currency := Valuation(holding.amount, usdValue.value)];
      totalUsd := totalUsd + usdValue.value;
      assert holdings[..i + 1][..i] == holdings[..i];
    }
    assert holdings[..|holdings|] == holdings;
    return Success(Report(totalUsd, byCurrency));
  }

  // ----- Accuracy of the total -----

  /** The value of the holdings before any rounding, in units of 10^-5 cents. */
  function ExactTotal(hs: seq<Holding>): int {
    if hs == [] then 0 else ExactTotal(hs[..|hs| - 1]) + Exact(hs[|hs| - 1])
  }

  function Exact(h: Holding): int {
    match RateOf(Upper(h.currency))
    case None => 0
    case Some(rate) => h.amount * rate
  }

  lemma UsdIsNearest(h: Holding)
    requires Known(h)
    ensures -UNIT <= 2 * UNIT * UsdOf(h) - 2 * Exact(h) <= UNIT
    ensures h.amount >= 0 ==> UsdOf(h) >= 0
  {
    var rate := RateOf(Upper(h.currency)).value;
    HalfUpIsNearest(Exact(h), UNIT);
    if h.amount >= 0 {
      MulNonNegative(h.amount, rate);
    }
  }

  /** The total errs by at most half a cent a holding. */
  lemma {:induction false} TotalIsNear(hs: seq<Holding>)
    requires forall i | 0 <= i < |hs| :: Known(hs[i])
    ensures -UNIT * |hs| <= 2 * UNIT * Total(hs) - 2 * ExactTotal(hs) <= UNIT * |hs|
  {
    if hs != [] {
      TotalIsNear(hs[..|hs| - 1]);
      UsdIsNearest(hs[|hs| - 1]);
    }
  }

  // ----- The breakdown against the total -----

  /** The dollar values of a breakdown together. */
  ghost function BreakdownTotal(m: map<string, Valuation>): int {
    if m == map[] then 0
    else
      var c :| c in m;
      m[c].usdValue + BreakdownTotal(m - {c})
  }

  lemma {:induction false} BreakdownRemove(m: map<string, Valuation>, c: string)
    requires c in m
    ensures BreakdownTotal(m) == m[c].usdValue + BreakdownTotal(m - {c})
    decreases |m|
  {
    var d :| d in m && BreakdownTotal(m) == m[d].usdValue + BreakdownTotal(m - {d});
    if d != c {
      assert (m - {d}).Keys == m.Keys - {d} && (m - {c}).Keys == m.Keys - {c};
      BreakdownRemove(m - {d}, c);
      BreakdownRemove(m - {c}, d);
      assert m - {d} - {c} == m - {c} - {d};
    }
  }

  function Replaced(m: map<string, Valuation>, c: string): int {
    if c in m then m[c].usdValue else 0
  }

  lemma BreakdownPut(m: map<string, Valuation>, c: string, v: Valuation)
    ensures BreakdownTotal(m[c := v]) == BreakdownTotal(m) - Replaced(m, c) + v.usdValue
  {
    BreakdownRemove(m[c := v], c);
    if c in m {
      BreakdownRemove(m, c);
      assert m[c := v] - {c} == m - {c};
    } else {
      assert m[c := v] - {c} == m;
    }
  }

  predicate IsLast(hs: seq<Holding>, i: int, c: string) {
    0 <= i < |hs| && hs[i].currency == c && forall j | i < j < |hs| :: hs[j].currency != c
  }

  predicate Holds(hs: seq<Holding>, c: string) {
    exists i | 0 <= i < |hs| :: hs[i].currency == c
  }

  lemma {:induction false} BreakdownKeys(hs: seq<Holding>, c: string)
    ensures c in Breakdown(hs) <==> Holds(hs, c)
  {
    if hs != [] {
      var init, last := hs[..|hs| - 1], hs[|hs| - 1];
      assert hs == init + [last];
      BreakdownKeys(init, c);
      HoldsAppend(init, last, c);
    }
  }

  lemma {:induction false} BreakdownValue(hs: seq<Holding>, i: int, c: string)
    requires IsLast(hs, i, c)
    ensures c in Breakdown(hs) && Breakdown(hs)[c] == Valuation(hs[i].amount, UsdOf(hs[i]))
    decreases |hs|
  {
    if i < |hs| - 1 {
      BreakdownValue(hs[..|hs| - 1], i, c);
    }
  }

  lemma {:induction false} LastHolding(hs: seq<Holding>, c: string) returns (i: int)
    requires Holds(hs, c)
    ensures IsLast(hs, i, c)
    decreases |hs|
  {
    var n := |hs| - 1;
    if hs[n].currency == c {
      i := n;
    } else {
      i := LastHolding(hs[..n], c);
    }
  }

  /** The breakdown lists exactly the currencies held, each with its last holding. */
  lemma BreakdownMeaning(hs: seq<Holding>, c: string)
    ensures c in Breakdown(hs) <==> Holds(hs, c)
    ensures c in Breakdown(hs) <==> exists i :: IsLast(hs, i, c)
    ensures forall i | IsLast(hs, i, c) :: c in Breakdown(hs) && Breakdown(hs)[c] == Valuation(hs[i].amount, UsdOf(hs[i]))
  {
    BreakdownKeys(hs, c);
    if Holds(hs, c) {
      var last := LastHolding(hs, c);
    }
    forall i | IsLast(hs, i, c) ensures c in Breakdown(hs) && Breakdown(hs)[c] == Valuation(hs[i].amount, UsdOf(hs[i])) {
      BreakdownValue(hs, i, c);
    }
  }

  /** The dollar values of the holdings that a later holding of the same currency replaces in the breakdown. */
  function ReplacedTotal(hs: seq<Holding>): int {
    if hs == [] then 0
    else (if Holds(hs[1..], hs[0].currency) then UsdOf(hs[0]) else 0) + ReplacedTotal(hs[1..])
  }

  /** The dollar value of the last holding of a currency. */
  function LastUsd(hs: seq<Holding>, c: string): int {
    if hs == [] then 0
    else if Holds(hs[1..], c) then LastUsd(hs[1..], c)
    else if hs[0].currency == c then UsdOf(hs[0])
    else 0
  }

  lemma {:induction false} LastUsdAt(hs: seq<Holding>, i: int, c: string)
    requires IsLast(hs, i, c)
    ensures LastUsd(hs, c) == UsdOf(hs[i])
    decreases |hs|
  {
    if i > 0 {
      assert hs[1..][i - 1] == hs[i];
      LastUsdAt(hs[1..], i - 1, c);
    }
  }

  lemma {:induction false} LastUsdOfOthers(hs: seq<Holding>, c: string)
    requires !Holds(hs, c)
    ensures LastUsd(hs, c) == 0
  {
    if hs != [] {
      assert hs[0].currency != c;
    }
  }

  lemma ReplacedIsLastUsd(hs: seq<Holding>, c: string)
    ensures Replaced(Breakdown(hs), c) == LastUsd(hs, c)
  {
    BreakdownMeaning(hs, c);
    if c in Breakdown(hs) {
      var i :| IsLast(hs, i, c);
      LastUsdAt(hs, i, c);
    } else {
      LastUsdOfOthers(hs, c);
    }
  }

  lemma HoldsAppend(hs: seq<Holding>, h: Holding, c: string)
    ensures Holds(hs + [h], c) <==> Holds(hs, c) || h.currency == c
  {
    var all := hs + [h];
    assert all[|hs|] == h;
    if i :| 0 <= i < |hs| && hs[i].currency == c {
      assert all[i] == hs[i];
    }
  }

  lemma {:induction false} ReplacedAppend(hs: seq<Holding>, h: Holding)
    ensures ReplacedTotal(hs + [h]) == ReplacedTotal(hs) + LastUsd(hs, h.currency)
    decreases |hs|
  {
    if hs != [] {
      var rest := hs[1..];
      assert (hs + [h])[1..] == rest + [h];
      ReplacedAppend(rest, h);
      HoldsAppend(rest, h, hs[0].currency);
      if !Holds(rest, h.currency) {
        LastUsdOfOthers(rest, h.currency);
      }
    } else {
      assert [h][1..] == [];
    }
  }

  /** The total is the breakdown and what the breakdown replaced, for holdings of any sign. */
  lemma {:induction false} TotalIsBreakdownAndReplaced(hs: seq<Holding>)
    ensures Total(hs) == BreakdownTotal(Breakdown(hs)) + ReplacedTotal(hs)
  {
    if hs != [] {
      var init, h := hs[..|hs| - 1], hs[|hs| - 1];
      assert hs == init + [h];
      TotalIsBreakdownAndReplaced(init);
      BreakdownPut(Breakdown(init), h.currency, Valuation(h.amount, UsdOf(h)));
      ReplacedIsLastUsd(init, h.currency);
      ReplacedAppend(init, h);
    }
  }

  /** No holding of some value is followed by another one of its currency. */
  predicate NothingReplaced(hs: seq<Holding>) {
    forall i, j | 0 <= i < j < |hs| && hs[i].currency == hs[j].currency :: UsdOf(hs[i]) == 0
  }

  lemma {:induction false} ReplacedIsNothingIff(hs: seq<Holding>)
    requires forall i | 0 <= i < |hs| :: UsdOf(hs[i]) >= 0
    ensures ReplacedTotal(hs) >= 0
    ensures ReplacedTotal(hs) == 0 <==> NothingReplaced(hs)
  {
    if hs != [] {
      var rest := hs[1..];
      assert hs == [hs[0]] + rest;
      ReplacedIsNothingIff(rest);
      assert NothingReplaced(hs) ==> NothingReplaced(rest) by {
        assert forall i | 0 <= i < |rest| :: rest[i] == hs[i + 1];
      }
      if j :| 0 <= j < |rest| && rest[j].currency == hs[0].currency {
        assert hs[j + 1] == rest[j];
      }
    }
  }

  /** The breakdown adds up to the total if and only if the replaced holdings cancel out: for holdings that are not
      negative, if and only if no currency is listed again after a holding of some value. */
  lemma BreakdownAddsUpIff(hs: seq<Holding>)
    ensures BreakdownTotal(Breakdown(hs)) == Total(hs) <==> ReplacedTotal(hs) == 0
    ensures (forall i | 0 <= i < |hs| :: Known(hs[i]) && hs[i].amount >= 0) ==>
              && BreakdownTotal(Breakdown(hs)) <= Total(hs)
              && (BreakdownTotal(Breakdown(hs)) == Total(hs) <==> NothingReplaced(hs))
  {
    TotalIsBreakdownAndReplaced(hs);
    if forall i | 0 <= i < |hs| :: Known(hs[i]) && hs[i].amount >= 0 {
      forall i | 0 <= i < |hs| ensures UsdOf(hs[i]) >= 0 {
        UsdIsNearest(hs[i]);
      }
      ReplacedIsNothingIff(hs);
    }
  }

  /** One dollar and then two: three in the total, two in the breakdown. */
  lemma RepeatedCurrencyIsDropped()
    ensures var hs := [Holding("USD", 100), Holding("USD", 200)];
            Total(hs) == 300 && BreakdownTotal(Breakdown(hs)) == 200
  {
    var hs := [Holding("USD", 100), Holding("USD", 200)];
    assert Upper("USD") == "USD";
    assert UsdOf(hs[0]) == 100 && UsdOf(hs[1]) == 200;
    assert hs[..1] == [hs[0]] && [hs[0]][..0] == [];
    assert Total([hs[0]]) == 100;
    assert hs[1..] == [hs[1]] && [hs[1]][1..] == [];
    assert Holds(hs[1..], "USD");
    assert ReplacedTotal([hs[1]]) == 0;
    TotalIsBreakdownAndReplaced(hs);
  }
}
