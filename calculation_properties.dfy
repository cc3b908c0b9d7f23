/** What the score and `make_company` promise: the hand-written test cases and the shape of the formula. */
module CalculationProperties {
  import opened Wrappers
  import opened Errors
  import Json
  import FloatCoercion
  import FloatCoercionProperties
  import opened Calculation

  /** A company as the hand-written tests build it: an empty ISIN and the given numbers. */
  function TestCompany(co2Tot: real, cc: real, rePurch: real, reProd: real, eTot: real): Company {
    CompanyOf(Json.String(""), Metrics(co2Tot, cc, rePurch, reProd, eTot))
  }

  // ---------------------------------------------------------------------------
  // The hand-written corner cases of the test suite, as exact equalities.

  /** Emissions 1, purchases equal to energy use: the discount is mu_purch, so the score is 1 - mu_purch = mu_purch. */
  lemma PurchaseDiscountCase()
    ensures AdjustedTotalEmissions(TestCompany(1.0, 0.0, 1.0, 0.0, 1.0)) == Success(SourcePolicy.muPurch)
  {
  }

  /** A credit of 1 with the same purchases scores -mu_purch. */
  lemma CreditCase()
    ensures AdjustedTotalEmissions(TestCompany(0.0, 1.0, 1.0, 0.0, 1.0)) == Success(-SourcePolicy.muPurch)
  {
  }

  /** Emissions of 1 and nothing else score 1. */
  lemma PlainEmissionsCase()
    ensures AdjustedTotalEmissions(TestCompany(1.0, 0.0, 0.0, 0.0, 1.0)) == Success(1.0)
  {
  }

  /** All metrics zero except the energy use score 0. */
  lemma ZeroCase()
    ensures AdjustedTotalEmissions(TestCompany(0.0, 0.0, 0.0, 0.0, 1.0)) == Success(0.0)
  {
  }

  /** One unit of renewable energy produced scores -phi_prod. */
  lemma ProductionCase()
    ensures AdjustedTotalEmissions(TestCompany(0.0, 0.0, 0.0, 1.0, 1.0)) == Success(-SourcePolicy.phiProd)
  {
  }

  /** Purchases of twice the energy use hit the cap: the score is 1 - mu_max = 0.2. */
  lemma CapCase()
    ensures AdjustedTotalEmissions(TestCompany(1.0, 0.0, 2.0, 0.0, 1.0)) == Success(0.2)
  {
  }

  /** A total energy use of zero raises ZeroDivisionError, as the test suite expects. */
  lemma ZeroEnergyUseCase()
    ensures AdjustedTotalEmissions(TestCompany(1.0, 1.0, 1.0, 1.0, 0.0)) == Failure(ZeroDivisionError)
  {
  }

  // ---------------------------------------------------------------------------
  // Errors of the score.

  /**
   * A total energy use of zero raises ZeroDivisionError whatever the produced
   * energy holds: the division comes before the production term is evaluated.
   */
  lemma ZeroEnergyUseRaisesFirst(c: Company)
    requires IsNumeric(c.co2Tot) && IsNumeric(c.cc) && IsNumeric(c.rePurch)
    requires c.eTot == Json.Number(0.0) || c.eTot == Json.Bool(false)
    ensures AdjustedTotalEmissions(c) == Failure(ZeroDivisionError)
  {
  }

  /** A non-numeric emissions figure raises TypeError before the energy use is looked at. */
  lemma NonNumericEmissionsRaiseTypeError(c: Company)
    requires !IsNumeric(c.co2Tot)
    ensures AdjustedTotalEmissions(c) == Failure(TypeError)
  {
  }

  /** The ISIN plays no part in the score. */
  lemma ScoreIgnoresIsin(c: Company, isin: Json.Value)
    ensures AdjustedTotalEmissions(c.(isin := isin)) == AdjustedTotalEmissions(c)
  {
  }

  /** A boolean operand as Python's arithmetic sees it: True as 1, False as 0; anything else unchanged. */
  function AsNumber(v: Json.Value): Json.Value {
    if v.Bool? then Json.Number(if v.b then 1.0 else 0.0) else v
  }

  /** The company with every boolean metric replaced by the number it stands for. */
  function WithNumbers(c: Company): Company {
    Company(c.isin, AsNumber(c.co2Tot), AsNumber(c.cc), AsNumber(c.rePurch), AsNumber(c.reProd), AsNumber(c.eTot))
  }

  /**
   * Booleans are numbers to Python: a company scores, or fails, exactly as the
   * company with True and False written as 1 and 0. A False energy use divides by zero.
   */
  lemma BoolOperandsActAsNumbers(p: Policy, c: Company)
    ensures AdjustedTotalEmissionsUnder(p, c) == AdjustedTotalEmissionsUnder(p, WithNumbers(c))
  {
    if Numbers(c) {
      assert MetricsOf(WithNumbers(c)) == MetricsOf(c);
    }
  }

  // ---------------------------------------------------------------------------
  // The shape of the formula.

  lemma MulMonotone(k: real, a: real, b: real)
    requires k >= 0.0 && a <= b
    ensures k * a <= k * b
  {
    assert k * b - k * a == k * (b - a);
  }

  /** With no purchased renewable energy there is no discount (for a non-negative cap). */
  lemma ScoreWithoutPurchases(p: Policy, m: Metrics)
    requires m.eTot != 0.0 && m.rePurch == 0.0 && p.muMax >= 0.0
    ensures Score(p, m) == m.co2Tot - m.cc - p.phiProd * m.reProd
  {
    assert PurchaseRatio(p, m) == 0.0;
  }

  lemma MulStrict(k: real, a: real, b: real)
    requires k > 0.0 && a < b
    ensures k * a < k * b
  {
    assert k * b - k * a == k * (b - a);
  }

  lemma MulCompare(k: real, a: real, b: real)
    requires k > 0.0
    ensures a <= b <==> k * a <= k * b
  {
    if a <= b {
      MulMonotone(k, a, b);
    } else {
      MulStrict(k, b, a);
    }
  }

  /** Dividing by a positive number preserves a lower bound scaled by it. */
  lemma DivAtLeast(a: real, e: real, t: real)
    requires e > 0.0
    ensures a / e >= t <==> a >= t * e
  {
    var q := a / e;
    assert e * q == a;
    MulCompare(e, t, q);
  }

  /** For a positive energy use the cap applies exactly when mu_purch times the purchases reach mu_max times the energy use. */
  lemma CapThreshold(p: Policy, m: Metrics)
    requires m.eTot > 0.0
    ensures DiscountFraction(p, m) == p.muMax <==> p.muPurch * m.rePurch >= p.muMax * m.eTot
  {
    DivAtLeast(p.muPurch * m.rePurch, m.eTot, p.muMax);
  }

  /**
   * Under the source's constants and a positive energy use, the cap applies
   * exactly when purchases reach 1.6 times the energy use, so twice the energy
   * use is more than is needed to reach it.
   */
  lemma SourceCapThreshold(m: Metrics)
    requires m.eTot > 0.0
    ensures DiscountFraction(SourcePolicy, m) == 0.8 <==> m.rePurch >= 1.6 * m.eTot
  {
    CapThreshold(SourcePolicy, m);
  }

  /** Each unit of carbon credit lowers the score by the undiscounted part, 1 - f. */
  lemma CreditReducesBeforeDiscount(p: Policy, m: Metrics, d: real)
    requires m.eTot != 0.0
    ensures Score(p, m.(cc := m.cc + d)) == Score(p, m) - d * (1.0 - DiscountFraction(p, m))
  {
    var m' := m.(cc := m.cc + d);
    assert DiscountFraction(p, m') == DiscountFraction(p, m);
    var g := 1.0 - DiscountFraction(p, m);
    assert (m.co2Tot - (m.cc + d)) * g == (m.co2Tot - m.cc) * g - d * g;
  }

  /** Each unit of renewable energy produced lowers the score by phi_prod, whatever else holds. */
  lemma ProductionDeductionIsFlat(p: Policy, m: Metrics, d: real)
    requires m.eTot != 0.0
    ensures Score(p, m.(reProd := m.reProd + d)) == Score(p, m) - p.phiProd * d
  {
    var m' := m.(reProd := m.reProd + d);
    assert DiscountFraction(p, m') == DiscountFraction(p, m);
    assert p.phiProd * (m.reProd + d) == p.phiProd * m.reProd + p.phiProd * d;
  }

  /** For a positive energy use, more purchases never lower the discount fraction. */
  lemma DiscountFractionMonotone(p: Policy, m: Metrics, rePurch: real)
    requires m.eTot > 0.0 && p.muPurch >= 0.0 && m.rePurch <= rePurch
    ensures DiscountFraction(p, m) <= DiscountFraction(p, m.(rePurch := rePurch))
  {
    var m' := m.(rePurch := rePurch);
    MulMonotone(p.muPurch, m.rePurch, rePurch);
    var a, b := p.muPurch * m.rePurch, p.muPurch * rePurch;
    MulMonotone(1.0 / m.eTot, a, b);
    assert a / m.eTot == (1.0 / m.eTot) * a;
    assert b / m.eTot == (1.0 / m.eTot) * b;
    assert PurchaseRatio(p, m) <= PurchaseRatio(p, m');
  }

  /**
   * For a company whose emissions exceed its credit, buying more renewable
   * energy never raises the score.
   */
  lemma MorePurchasedNeverRaisesScore(p: Policy, m: Metrics, rePurch: real)
    requires m.eTot > 0.0 && p.muPurch >= 0.0 && m.rePurch <= rePurch && m.co2Tot >= m.cc
    ensures Score(p, m.(rePurch := rePurch)) <= Score(p, m)
  {
    var m' := m.(rePurch := rePurch);
    var k, c := m.co2Tot - m.cc, p.phiProd * m.reProd;
    DiscountFractionMonotone(p, m, rePurch);
    calc {
      Score(p, m');
    ==
      k * (1.0 - DiscountFraction(p, m')) - c;
    <= { MulMonotone(k, 1.0 - DiscountFraction(p, m'), 1.0 - DiscountFraction(p, m)); }
      k * (1.0 - DiscountFraction(p, m)) - c;
    ==
      Score(p, m);
    }
  }

  /** With non-negative purchases, positive energy use and a non-negative cap, the discount fraction lies in [0, muMax]. */
  lemma DiscountFractionRange(p: Policy, m: Metrics)
    requires m.eTot > 0.0 && m.rePurch >= 0.0 && p.muPurch >= 0.0 && p.muMax >= 0.0
    ensures 0.0 <= DiscountFraction(p, m) <= p.muMax
  {
    MulMonotone(p.muPurch, 0.0, m.rePurch);
    MulMonotone(1.0 / m.eTot, 0.0, p.muPurch * m.rePurch);
    assert PurchaseRatio(p, m) == (1.0 / m.eTot) * (p.muPurch * m.rePurch);
  }

  /**
   * Under the source's constants, a company whose emissions exceed its credit
   * keeps at least a fifth of its net emissions and never more than all of them,
   * before the production deduction.
   */
  lemma SourceScoreBounds(m: Metrics)
    requires m.eTot > 0.0 && m.rePurch >= 0.0 && m.co2Tot >= m.cc
    ensures 0.2 * (m.co2Tot - m.cc) <= Score(SourcePolicy, m) + SourcePolicy.phiProd * m.reProd <= m.co2Tot - m.cc
  {
    var k, f := m.co2Tot - m.cc, DiscountFraction(SourcePolicy, m);
    DiscountFractionRange(SourcePolicy, m);
    calc {
      0.2 * k;
    ==
      k * 0.2;
    <= { MulMonotone(k, 0.2, 1.0 - f); }
      k * (1.0 - f);
    ==
      Score(SourcePolicy, m) + SourcePolicy.phiProd * m.reProd;
    }
    calc {
      Score(SourcePolicy, m) + SourcePolicy.phiProd * m.reProd;
    ==
      k * (1.0 - f);
    <= { MulMonotone(k, 1.0 - f, 1.0); }
      k;
    }
  }

  // ---------------------------------------------------------------------------
  // make_company.

  /** A record with a numeric energy use reads back as the company it was written from. */
  lemma MakeCompanyOfCompanyToJson(c: Company)
    requires c.eTot.Number?
    ensures MakeCompany(CompanyToJson(c)) == Success(c)
  {
    var d := CompanyToJson(c).members;
    assert HasCompanyKeys(d);
  }

  /** A record lacking every key fails on the first one read, the ISIN. */
  lemma MakeCompanyOfEmptyRecord()
    ensures MakeCompany(Json.Object(map[])) == Failure(KeyError(IsinKey))
  {
  }

  /** Two records that agree on which keys they have read the same first missing key. */
  lemma {:induction false} FirstMissingOfAgreeingRecords(keys: seq<string>, d: map<string, Json.Value>, e: map<string, Json.Value>)
    requires forall i | 0 <= i < |keys| :: keys[i] in d <==> keys[i] in e
    ensures FirstMissing(keys, d) == FirstMissing(keys, e)
  {
    if keys != [] && keys[0] in d {
      FirstMissingOfAgreeingRecords(keys[1..], d, e);
    }
  }

  /** `make_company` looks at nothing but its six keys. */
  lemma MakeCompanyReadsOnlyItsKeys(d: map<string, Json.Value>, e: map<string, Json.Value>)
    requires forall i | 0 <= i < |CompanyKeys| :: CompanyKeys[i] in d <==> CompanyKeys[i] in e
    requires forall i | 0 <= i < |CompanyKeys| :: CompanyKeys[i] in d ==> d[CompanyKeys[i]] == e[CompanyKeys[i]]
    ensures MakeCompany(Json.Object(d)) == MakeCompany(Json.Object(e))
  {
    FirstMissingOfAgreeingRecords(CompanyKeys, d, e);
    CompanyKeysPresent(d);
    if HasCompanyKeys(d) {
      assert d[CompanyKeys[0]] == e[CompanyKeys[0]] && d[CompanyKeys[1]] == e[CompanyKeys[1]];
      assert d[CompanyKeys[2]] == e[CompanyKeys[2]] && d[CompanyKeys[3]] == e[CompanyKeys[3]];
      assert d[CompanyKeys[4]] == e[CompanyKeys[4]] && d[CompanyKeys[5]] == e[CompanyKeys[5]];
    }
  }

  /** An energy use written as the string `n.0` is read as the number n. */
  lemma MakeCompanyParsesEnergyUse(d: map<string, Json.Value>, n: nat)
    requires HasCompanyKeys(d) && d[EnergyUseKey] == Json.String(FloatCoercion.NatToString(n) + ".0")
    ensures MakeCompany(Json.Object(d)).Success?
    ensures MakeCompany(Json.Object(d)).value.eTot == Json.Number(n as real)
  {
    FloatCoercionProperties.ParseFloatOfPointZero(n);
  }

  /** An energy use that is empty or all whitespace raises ValueError from `float`. */
  lemma MakeCompanyRejectsBlankEnergyUse(d: map<string, Json.Value>, s: string)
    requires HasCompanyKeys(d) && d[EnergyUseKey] == Json.String(s)
    requires forall i | 0 <= i < |s| :: FloatCoercion.IsSpace(s[i])
    ensures MakeCompany(Json.Object(d)) == Failure(ValueError)
  {
    FloatCoercionProperties.ParseFloatNeedsADigit(s);
  }

  /** A null energy use raises TypeError from `float`. */
  lemma MakeCompanyRejectsNullEnergyUse(d: map<string, Json.Value>)
    requires HasCompanyKeys(d) && d[EnergyUseKey] == Json.Null
    ensures MakeCompany(Json.Object(d)) == Failure(TypeError)
  {
  }

  /**
   * A record with numeric fields and a positive energy use is scored by the
   * formula on its numbers.
   */
  lemma ScoreOfRecord(d: map<string, Json.Value>, m: Metrics)
    requires HasCompanyKeys(d) && m.eTot != 0.0
    requires d[Co2Key] == Json.Number(m.co2Tot) && d[CreditKey] == Json.Number(m.cc)
    requires d[PurchasedKey] == Json.Number(m.rePurch) && d[ProducedKey] == Json.Number(m.reProd)
    requires d[EnergyUseKey] == Json.Number(m.eTot)
    ensures MakeCompany(Json.Object(d)).Success?
    ensures AdjustedTotalEmissions(MakeCompany(Json.Object(d)).value) == Success(Score(SourcePolicy, m))
  {
    var c := MakeCompany(Json.Object(d)).value;
    assert MetricsOf(c) == m;
  }
}
