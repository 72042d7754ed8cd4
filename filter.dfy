/** `filter` of main.rs: fetch one symbol's figures, derive the debt
    figures from them and keep the symbol when it passes the screen.
    The `f64` arithmetic is computed on exact reals; a division whose
    divisor is zero yields the non-finite value IEEE 754 prescribes. */
module Filter {
  import opened Wrappers
  import opened JsonValue
  import opened CompanyRecord = Company

  /** A double as far as `filter` can produce one: a finite value, or the
      result of dividing by zero. */
  datatype F64 = Finite(value: real) | PosInf | NegInf | NaN

  /** `x / y` on two finite doubles. */
  function Quotient(x: real, y: real): (q: F64)
    ensures q.Finite? <==> y != 0.0
    ensures y != 0.0 ==> q.value * y == x
  {
    if y != 0.0 then Finite(x / y)
    else if x > 0.0 then PosInf
    else if x < 0.0 then NegInf
    else NaN
  }

  /** `x - q` for a finite `x`. */
  function Minus(x: real, q: F64): (d: F64)
    ensures d.Finite? <==> q.Finite?
    ensures q.Finite? ==> d.value + q.value == x
  {
    match q
    case Finite(v) => Finite(x - v)
    case PosInf => NegInf
    case NegInf => PosInf
    case NaN => NaN
  }

  const MIN_MARKET_CAP: int := 100_000_000
  const MAX_MARKET_CAP: int := 1_000_000_000
  const MAX_NET_DEBT: real := 1_000_000_000.0
  /** Net debt counts the market capitalisation at this weight. */
  const MARKET_CAP_WEIGHT: real := 1.45
  /** The rate per period and the number of periods of the repayment. */
  const RATE: real := 0.1
  const PERIODS: nat := 120
  const PERIODS_PER_YEAR: real := 12.0

  function Pow(x: real, n: nat): real
  {
    if n == 0 then 1.0 else x * Pow(x, n - 1)
  }

  lemma {:induction false} PowAboveOne(x: real, n: nat)
    requires x > 1.0 && n >= 1
    ensures Pow(x, n) > 1.0
  {
    if n > 1 {
      PowAboveOne(x, n - 1);
      assert x * Pow(x, n - 1) > Pow(x, n - 1);
    }
  }

  /** `1.1f64.powf(120.0)`. */
  function Growth(): (g: real)
    ensures g > 1.0
  {
    PowAboveOne(1.0 + RATE, PERIODS);
    Pow(1.0 + RATE, PERIODS)
  }

  /** The share of the net debt paid each period: more than the rate alone,
      so each payment also pays some of the debt off. */
  function RepaymentFactor(): (k: real)
    ensures k > RATE
  {
    var g := Growth();
    QuotientAboveOne(g, g - 1.0);
    RATE * (g / (g - 1.0))
  }

  lemma QuotientAboveOne(a: real, b: real)
    requires 0.0 < b < a
    ensures a / b > 1.0
  {
    assert a / b * b == a;
  }

  /** What is left of `debt` after `k` periods, each adding the rate and
      taking off one `payment`. */
  function Balance(debt: real, payment: real, k: nat): real
  {
    if k == 0 then debt else Balance(debt, payment, k - 1) * (1.0 + RATE) - payment
  }

  lemma {:induction false} BalanceClosedForm(debt: real, payment: real, k: nat)
    ensures Balance(debt, payment, k) == debt * Pow(1.0 + RATE, k) - payment * (Pow(1.0 + RATE, k) - 1.0) / RATE
  {
    if k > 0 {
      BalanceClosedForm(debt, payment, k - 1);
      var p := Pow(1.0 + RATE, k - 1);
      assert Pow(1.0 + RATE, k) == (1.0 + RATE) * p;
      calc {
        Balance(debt, payment, k);
        (debt * p - payment * (p - 1.0) / RATE) * (1.0 + RATE) - payment;
        debt * ((1.0 + RATE) * p) - payment * ((1.0 + RATE) * p - 1.0) / RATE;
      }
    }
  }

  /** The figures `filter` derives from a company. */
  datatype Derived = Derived(
    netDebt: real,
    yr10Repayment: real,
    repaymentCashFlow: real,
    leveredCashFlow: real,
    stressLevel: F64)

  /** `total_debt - free_cash + market_cap * 1.45`. */
  function NetDebt(c: Company): real
  {
    c.totalDebt as real - c.freeCash as real + c.marketCap as real * MARKET_CAP_WEIGHT
  }

  function Derive(c: Company): (d: Derived)
    ensures d.netDebt == NetDebt(c)
    ensures d.repaymentCashFlow == PERIODS_PER_YEAR * d.yr10Repayment
    ensures d.leveredCashFlow + d.repaymentCashFlow == c.freeCashFlow as real
    ensures d.stressLevel.Finite? <==> c.freeCashFlow != 0
    ensures c.freeCashFlow != 0 ==> d.stressLevel.value * c.freeCashFlow as real == d.leveredCashFlow
  {
    var netDebt := NetDebt(c);
    var yr10Repayment := netDebt * RepaymentFactor();
    var repaymentCashFlow := yr10Repayment * PERIODS_PER_YEAR;
    var fcf := c.freeCashFlow as real;
    var leveredCashFlow := fcf - repaymentCashFlow;
    var stressLevel := Minus(1.0, Quotient(fcf - leveredCashFlow, fcf));
    assert fcf != 0.0 ==> stressLevel.value * fcf == leveredCashFlow by {
      if fcf != 0.0 {
        var q := Quotient(fcf - leveredCashFlow, fcf);
        assert stressLevel.value * fcf == fcf - q.value * fcf;
      }
    }
    Derived(netDebt, yr10Repayment, repaymentCashFlow, leveredCashFlow, stressLevel)
  }

  /** The payment per period pays the net debt off in exactly `PERIODS`
      periods at `RATE` per period. */
  lemma RepaymentRetiresNetDebt(c: Company)
    ensures Balance(NetDebt(c), Derive(c).yr10Repayment, PERIODS) == 0.0
  {
    var d := NetDebt(c);
    var g := Growth();
    var p := Derive(c).yr10Repayment;
    BalanceClosedForm(d, p, PERIODS);
    assert p == d * (RATE * (g / (g - 1.0)));
    assert p * (g - 1.0) / RATE == d * g by {
      assert g / (g - 1.0) * (g - 1.0) == g;
    }
  }

  /** One line of output.csv, field by field. */
  datatype Row = Row(
    name: string,
    marketCap: I64,
    totalDebt: I64,
    freeCash: I64,
    freeCashFlow: I64,
    netDebt: real,
    ratio: F64,
    yr10Repayment: real,
    repaymentCashFlow: real,
    leveredCashFlow: real,
    stressLevel: F64)

  /** The screen `filter` applies once the figures are in. Since the
      market cap counts towards the net debt, a company that passes owes at
      most 855 million net of its cash. */
  predicate Accepts(c: Company)
    ensures Accepts(c) ==> c.totalDebt - c.freeCash <= 855_000_000
  {
    MIN_MARKET_CAP <= c.marketCap <= MAX_MARKET_CAP && NetDebt(c) <= MAX_NET_DEBT && c.freeCashFlow >= 0
  }

  /** The part of `filter` after the fetch, as written: a company is dropped
      when its market cap is outside [100 million, 1 billion], its net debt
      is above 1 billion or its free cash flow is negative. */
  function Screen(name: string, c: Company): (r: Option<Row>)
    ensures r.Some? <==> Accepts(c)
    ensures r.Some? ==>
      && r.value.name == name
      && r.value.marketCap == c.marketCap && r.value.totalDebt == c.totalDebt
      && r.value.freeCash == c.freeCash && r.value.freeCashFlow == c.freeCashFlow
      && r.value.netDebt == NetDebt(c)
      && r.value.leveredCashFlow + r.value.repaymentCashFlow == c.freeCashFlow as real
      && r.value.repaymentCashFlow == PERIODS_PER_YEAR * r.value.yr10Repayment
      && Balance(r.value.netDebt, r.value.yr10Repayment, PERIODS) == 0.0
      && (c.freeCashFlow > 0 ==>
            && r.value.ratio.Finite? && r.value.ratio.value * c.freeCashFlow as real == r.value.netDebt
            && r.value.stressLevel.Finite?
            && r.value.stressLevel.value * c.freeCashFlow as real == r.value.leveredCashFlow)
    ensures r.Some? && c.freeCashFlow == 0 ==> !r.value.ratio.Finite? && !r.value.stressLevel.Finite?
  {
    var d := Derive(c);
    RepaymentRetiresNetDebt(c);
    if c.marketCap < MIN_MARKET_CAP || c.marketCap > MAX_MARKET_CAP || d.netDebt > MAX_NET_DEBT || c.freeCashFlow < 0 then
      None
    else
      Some(Row(name, c.marketCap, c.totalDebt, c.freeCash, c.freeCashFlow, d.netDebt,
               Quotient(d.netDebt, c.freeCashFlow as real),
               d.yr10Repayment, d.repaymentCashFlow, d.leveredCashFlow, d.stressLevel))
  }

  /** `filter`: a symbol whose figures cannot be fetched is dropped, the
      others go through the screen. */
  function Filter(name: string, client: Client): (r: Option<Row>)
    ensures FromNameClient(name, client).Err? ==> r == None
    ensures r.Some? <==> FromNameClient(name, client).Ok? && Accepts(FromNameClient(name, client).value)
    ensures r.Some? ==> r.value.name == name
  {
    match FromNameClient(name, client)
    case Err(_) => None
    case Ok(c) => Screen(name, c)
  }

  /** End to end: a service holding the figures of `c` gets `c` through the
      screen exactly when they are within the limits. */
  lemma FilterServed(c: Company)
    ensures Filter(c.name, Serving(c)).Some? <==>
      && 100_000_000 <= c.marketCap <= 1_000_000_000
      && c.totalDebt as real - c.freeCash as real + c.marketCap as real * 1.45 <= 1_000_000_000.0
      && c.freeCashFlow >= 0
  {
    FromNameClientRoundTrip(c);
  }

  /** Both bounds on the market cap are inclusive. */
  lemma MarketCapBoundsInclusive(name: string)
    ensures Screen(name, Company(name, 100_000_000, 0, 0, 1)).Some?
    ensures Screen(name, Company(name, 99_999_999, 0, 0, 1)).None?
    ensures Screen(name, Company(name, 1_000_000_000, 0, 1_000_000_000, 1)).Some?
    ensures Screen(name, Company(name, 1_000_000_001, 0, 1_000_000_000, 1)).None?
  {
  }

  /** A company whose free cash flow is zero passes the screen, and its ratio
      and stress level come out as divisions by zero. */
  lemma ZeroFreeCashFlowPasses()
    ensures var c := Company("X", 100_000_000, 0, 0, 0);
      && Filter(c.name, Serving(c)).Some?
      && Filter(c.name, Serving(c)).value.ratio == PosInf
      && !Filter(c.name, Serving(c)).value.stressLevel.Finite?
  {
    var c := Company("X", 100_000_000, 0, 0, 0);
    FromNameClientRoundTrip(c);
    assert NetDebt(c) == 145_000_000.0;
  }

  /** The screen as evidently intended: a free cash flow of zero is dropped
      too, so every row has a finite ratio and stress level. */
  function ScreenCorrected(name: string, c: Company): (r: Option<Row>)
    ensures r.Some? <==> Accepts(c) && c.freeCashFlow != 0
    ensures r.Some? ==> r.value.ratio.Finite? && r.value.stressLevel.Finite?
    ensures r.Some? ==> r.value.ratio.value * c.freeCashFlow as real == r.value.netDebt
  {
    if c.freeCashFlow <= 0 then None else Screen(name, c)
  }

  /** `filter` with both corrections: the fetch that reports undecodable
      bodies as `ResponseError`, and the screen that drops a zero free cash
      flow. */
  function FilterCorrected(name: string, client: Client): (r: Option<Row>)
    ensures r.Some? ==> r.value.name == name && r.value.ratio.Finite? && r.value.stressLevel.Finite?
  {
    match FromNameClientCorrected(name, client)
    case Err(_) => None
    case Ok(c) => ScreenCorrected(name, c)
  }

  /** The corrected `filter` keeps the same rows, except those whose free
      cash flow is zero. */
  lemma FilterCorrectedAgrees(name: string, client: Client)
    ensures FilterCorrected(name, client) ==
      if Filter(name, client).Some? && Filter(name, client).value.freeCashFlow == 0 then None
      else Filter(name, client)
  {
    CorrectionOnlyRenamesDecodeError(name, client);
  }
}
