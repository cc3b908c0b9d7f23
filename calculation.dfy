/**
 * The carbon score of a company: total CO2-equivalent emissions less the carbon
 * credit, discounted for purchased renewable energy (the discount fraction is
 * capped), less a flat deduction per unit of renewable energy produced.
 * Also the mapping from one JSON input record to a company.
 */
module Calculation {
  import opened Wrappers
  import opened Errors
  import Json
  import FloatCoercion

  /**
   * The `Company` record. Like the named tuple it models, it holds whatever
   * values it was built from: `make_company` copies five of them verbatim from
   * the JSON record, and only the total energy use is converted to a float.
   * The ISIN is never used in scoring.
   */
  datatype Company = Company(
    isin: Json.Value,
    co2Tot: Json.Value,   // total CO2-equivalent emissions
    cc: Json.Value,       // carbon credit value
    rePurch: Json.Value,  // renewable energy purchased
    reProd: Json.Value,   // renewable energy produced
    eTot: Json.Value      // total energy use
  )

  /** The five metrics of a company once they are known to be numbers. */
  datatype Metrics = Metrics(co2Tot: real, cc: real, rePurch: real, reProd: real, eTot: real)

  /** The three scoring constants. */
  datatype Policy = Policy(
    muPurch: real,  // discount per unit of purchased renewable energy, relative to total energy use
    muMax: real,    // largest discount fraction
    phiProd: real   // tonnes of CO2 deducted per unit of renewable energy produced
  )

  /** The constants the calculation uses: 1/2, 4/5 and 1/200. */
  const SourcePolicy := Policy(0.5, 0.8, 0.005)

  /** Python's two-argument `min`: the first argument unless the second is strictly smaller. */
  function Min(a: real, b: real): (m: real)
    ensures m <= a && m <= b
    ensures m == a || m == b
  {
    if b < a then b else a
  }

  /** The uncapped discount fraction for purchased renewable energy: `mu_purch * re_purch` shared out over the total energy use. */
  function PurchaseRatio(p: Policy, m: Metrics): (q: real)
    requires m.eTot != 0.0
    ensures q * m.eTot == p.muPurch * m.rePurch
  {
    p.muPurch * m.rePurch / m.eTot
  }

  /**
   * The discount fraction actually applied: the uncapped ratio when it is below
   * `muMax`, and `muMax` otherwise.
   */
  function DiscountFraction(p: Policy, m: Metrics): (f: real)
    requires m.eTot != 0.0
    ensures f <= p.muMax && f <= PurchaseRatio(p, m)
    ensures f == p.muMax || f == PurchaseRatio(p, m)
    ensures f == p.muMax <==> PurchaseRatio(p, m) >= p.muMax
  {
    Min(PurchaseRatio(p, m), p.muMax)
  }

  /**
   * The score formula on numeric metrics with a non-zero total energy use. Below
   * the cap the net emissions are discounted by the purchase ratio, from the cap
   * on by `muMax`; the production deduction is subtracted either way.
   */
  function Score(p: Policy, m: Metrics): (s: real)
    requires m.eTot != 0.0
    ensures PurchaseRatio(p, m) < p.muMax ==>
              s == (m.co2Tot - m.cc) * (1.0 - PurchaseRatio(p, m)) - p.phiProd * m.reProd
    ensures PurchaseRatio(p, m) >= p.muMax ==>
              s == (m.co2Tot - m.cc) * (1.0 - p.muMax) - p.phiProd * m.reProd
  {
    (m.co2Tot - m.cc) * (1.0 - DiscountFraction(p, m)) - p.phiProd * m.reProd
  }

  /** A value Python arithmetic accepts: a number, or a boolean standing for 1 or 0. */
  predicate IsNumeric(v: Json.Value) {
    v.Number? || v.Bool?
  }

  /** The number a numeric value stands for in arithmetic. */
  function NumberValue(v: Json.Value): real
    requires IsNumeric(v)
  {
    if v.Number? then v.n else if v.b then 1.0 else 0.0
  }

  /** All five metrics of `c` are numbers. */
  predicate Numbers(c: Company) {
    IsNumeric(c.co2Tot) && IsNumeric(c.cc) && IsNumeric(c.rePurch) && IsNumeric(c.reProd) && IsNumeric(c.eTot)
  }

  function MetricsOf(c: Company): Metrics
    requires Numbers(c)
  {
    Metrics(NumberValue(c.co2Tot), NumberValue(c.cc), NumberValue(c.rePurch),
            NumberValue(c.reProd), NumberValue(c.eTot))
  }

  /** A company whose metrics are the given numbers. */
  function CompanyOf(isin: Json.Value, m: Metrics): (c: Company)
    ensures Numbers(c) && MetricsOf(c) == m && c.isin == isin
  {
    Company(isin, Json.Number(m.co2Tot), Json.Number(m.cc), Json.Number(m.rePurch),
            Json.Number(m.reProd), Json.Number(m.eTot))
  }

  /**
   * The adjusted total emissions of `c` under the constants `p`, evaluated in
   * Python's order: the difference of emissions and credit, then the purchase
   * term and its division by the total energy use, then the production term.
   * A non-numeric operand met first raises TypeError; a total energy use of
   * zero raises ZeroDivisionError before the production term is looked at.
   */
  function AdjustedTotalEmissionsUnder(p: Policy, c: Company): (r: Result<real, Exception>)
    ensures r.Success? <==> Numbers(c) && NumberValue(c.eTot) != 0.0
    ensures r.Success? ==> r.value == Score(p, MetricsOf(c))
    ensures r == Failure(ZeroDivisionError) <==>
              && IsNumeric(c.co2Tot) && IsNumeric(c.cc) && IsNumeric(c.rePurch) && IsNumeric(c.eTot)
              && NumberValue(c.eTot) == 0.0
    ensures r.Failure? ==> r.error == ZeroDivisionError || r.error == TypeError
  {
    if !(IsNumeric(c.co2Tot) && IsNumeric(c.cc) && IsNumeric(c.rePurch) && IsNumeric(c.eTot)) then
      Failure(TypeError)
    else if NumberValue(c.eTot) == 0.0 then
      Failure(ZeroDivisionError)
    else if !IsNumeric(c.reProd) then
      Failure(TypeError)
    else
      Success(Score(p, MetricsOf(c)))
  }

  /** The adjusted total emissions under the source's constants. */
  function AdjustedTotalEmissions(c: Company): (r: Result<real, Exception>)
    ensures r.Success? <==> Numbers(c) && NumberValue(c.eTot) != 0.0
    ensures r.Success? ==> r.value == Score(SourcePolicy, MetricsOf(c))
  {
    AdjustedTotalEmissionsUnder(SourcePolicy, c)
  }

  const IsinKey := "ISIN"
  const Co2Key := "Total CO2 Equivalents Emissions"
  const CreditKey := "Carbon Credit Value"
  const PurchasedKey := "Renewable Energy Purchased"
  const ProducedKey := "Renewable Energy Produced"
  const EnergyUseKey := "Total Energy Use"

  /** The keys `make_company` reads, in the order it reads them. */
  const CompanyKeys := [IsinKey, Co2Key, CreditKey, PurchasedKey, ProducedKey, EnergyUseKey]

  predicate HasCompanyKeys(d: map<string, Json.Value>) {
    && IsinKey in d && Co2Key in d && CreditKey in d
    && PurchasedKey in d && ProducedKey in d && EnergyUseKey in d
  }

  /** The first of `keys` that `d` lacks, if any: the one whose lookup raises KeyError. */
  function FirstMissing(keys: seq<string>, d: map<string, Json.Value>): (r: Option<string>)
    ensures r.None? <==> forall i | 0 <= i < |keys| :: keys[i] in d
    ensures r.Some? ==> exists i | 0 <= i < |keys| :: keys[i] == r.value && r.value !in d
                                                    && forall j | 0 <= j < i :: keys[j] in d
  {
    if keys == [] then None
    else if keys[0] !in d then Some(keys[0])
    else
      var r := FirstMissing(keys[1..], d);
      if r.Some? then
        var i :| 0 <= i < |keys| - 1 && keys[1..][i] == r.value && r.value !in d
                 && forall j | 0 <= j < i :: keys[1..][j] in d;
        assert keys[i + 1] == r.value;
        r
      else
        r
  }

  /** No key of `CompanyKeys` is missing exactly when the record has all six. */
  lemma CompanyKeysPresent(d: map<string, Json.Value>)
    ensures FirstMissing(CompanyKeys, d).None? <==> HasCompanyKeys(d)
  {
    if FirstMissing(CompanyKeys, d).None? {
      assert CompanyKeys[0] in d && CompanyKeys[1] in d && CompanyKeys[2] in d;
      assert CompanyKeys[3] in d && CompanyKeys[4] in d && CompanyKeys[5] in d;
    }
  }

  /**
   * `make_company`: the record's values under the six keys, the total energy use
   * passed through `float`. Subscripting a value that is not an object raises
   * TypeError; a missing key raises KeyError for the first missing one in
   * reading order; then `float` may raise TypeError or ValueError.
   */
  function MakeCompany(v: Json.Value): (r: Result<Company, Exception>)
    ensures !v.Object? ==> r == Failure(TypeError)
    ensures r.Failure? && r.error.KeyError? ==>
              v.Object? && exists i | 0 <= i < |CompanyKeys| ::
                CompanyKeys[i] == r.error.key && r.error.key !in v.members
                && forall j | 0 <= j < i :: CompanyKeys[j] in v.members
    ensures v.Object? && !HasCompanyKeys(v.members) ==> r.Failure? && r.error.KeyError?
    ensures v.Object? && HasCompanyKeys(v.members) ==>
              (r.Success? <==> FloatCoercion.ToFloat(v.members[EnergyUseKey]).Success?)
    ensures v.Object? && HasCompanyKeys(v.members) && r.Failure? ==>
              r.error == FloatCoercion.ToFloat(v.members[EnergyUseKey]).error
    ensures r.Success? ==>
              && v.Object? && HasCompanyKeys(v.members)
              && r.value.isin == v.members[IsinKey]
              && r.value.co2Tot == v.members[Co2Key]
              && r.value.cc == v.members[CreditKey]
              && r.value.rePurch == v.members[PurchasedKey]
              && r.value.reProd == v.members[ProducedKey]
              && r.value.eTot == Json.Number(FloatCoercion.ToFloat(v.members[EnergyUseKey]).value)
  {
    if !v.Object? then
      Failure(TypeError)
    else
      var d := v.members;
      var missing := FirstMissing(CompanyKeys, d);
      CompanyKeysPresent(d);
      if missing.Some? then
        Failure(KeyError(missing.value))
      else
        var eTot :- FloatCoercion.ToFloat(d[EnergyUseKey]);
        Success(Company(d[IsinKey], d[Co2Key], d[CreditKey], d[PurchasedKey], d[ProducedKey], Json.Number(eTot)))
  }

  /** The JSON record that `MakeCompany` reads back as `c` when its energy use is a number. */
  function CompanyToJson(c: Company): Json.Value {
    Json.Object(map[
      IsinKey := c.isin,
      Co2Key := c.co2Tot,
      CreditKey := c.cc,
      PurchasedKey := c.rePurch,
      ProducedKey := c.reProd,
      EnergyUseKey := c.eTot
    ])
  }
}
