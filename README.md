# Carbon score calculation

A Dafny model of `carbon_calculation/calculation.py`, which turns company records
read from JSON into a carbon score, the "adjusted total emissions":

    (co2_tot - cc) * (1 - min(mu_purch * re_purch / e_tot, mu_max)) - phi_prod * re_prod

with `mu_purch = 1/2`, `mu_max = 4/5` and `phi_prod = 1/200`. The model covers:

- the `Company` record (`Calculation.Company`). Like the named tuple it models, it holds
  whatever values `make_company` copied into it;
- the score (`Calculation.AdjustedTotalEmissions`), including the errors Python raises
  and the order in which it raises them:
  - a non-numeric operand gives TypeError;
  - a zero total energy use gives ZeroDivisionError, before the production term is read;
- `make_company` (`Calculation.MakeCompany`):
  - subscripting a non-object gives TypeError;
  - a missing key gives KeyError, for the first missing key in reading order;
  - `float()` of the energy use comes last;
- Python 2's `float()` applied to a JSON value (`FloatCoercion.ToFloat`). This includes a
  parser for decimal literals in strings: surrounding whitespace, an optional sign, an
  optional fraction and an optional exponent.

The parser also models what `float()` rejects: the strings it refuses decide which records
`make_company` turns down with ValueError, which ends the program.

The constants are a `Policy` record, so the properties of the formula are proved for any
constants where that is possible, and for `SourcePolicy = Policy(0.5, 0.8, 0.005)` where
the source's values matter. Numbers are exact reals. Where a proof needs positive energy
use, or emissions at least as large as the credit, the lemma says so in its `requires`.

The hand-written corner cases of the test suite are proved as exact equalities. One of
them sets `re_purch` to twice `e_tot` to reach the cap. The source's comment calls this
the only way to reach it, but `SourceCapThreshold` shows the cap applies exactly from
1.6 times the energy use (for positive energy use).

Files:

- `wrappers.dfy`: `Option`, `Result`, and the Python exception kinds.
- `json.dfy`: JSON values.
- `float_coercion.dfy`: `float()`.
- `float_properties.dfy`: what `float()` does with well-formed and malformed strings.
- `calculation.dfy`: the company, the score and `make_company`.
- `calculation_properties.dfy`: the test-suite cases and the properties of the formula and of `make_company`.

## Model

| member | source | states |
|---|---|---|
| `Calculation.Min` | carbon_calculation/calculation.py:11 | `min(a, b)` is at most both arguments and equal to one of them |
| `Calculation.PurchaseRatio` | carbon_calculation/calculation.py:11 | the uncapped ratio `mu_purch * re_purch / e_tot` is the number that, multiplied by the energy use, gives `mu_purch * re_purch` |
| `Calculation.DiscountFraction` | carbon_calculation/calculation.py:11 | the applied discount is at most `mu_max` and at most the purchase ratio; it is one of the two; it equals `mu_max` exactly when the ratio reaches `mu_max` |
| `Calculation.Score` | carbon_calculation/calculation.py:11 | below the cap the net emissions `co2_tot - cc` are discounted by the purchase ratio; once the ratio reaches `mu_max` they are discounted by `mu_max`; `phi_prod * re_prod` is subtracted in both cases |
| `Calculation.CompanyOf` | carbon_calculation/calculation.py:14 | a company built from numbers has numeric metrics, and those are the numbers given |
| `Calculation.AdjustedTotalEmissionsUnder` | carbon_calculation/calculation.py:9-11 | the score succeeds exactly when all five metrics are numeric and the energy use is not zero, and then it is the formula on their numbers; ZeroDivisionError occurs exactly when emissions, credit, purchases and energy use are numeric and the energy use is zero; every other failure is TypeError |
| `Calculation.AdjustedTotalEmissions` | carbon_calculation/calculation.py:4-11 | the same under the constants 0.5, 0.8 and 0.005 |
| `CalculationProperties.BoolOperandsActAsNumbers` | carbon_calculation/calculation.py:9-11 | a company with boolean metrics scores, or fails, exactly as the company with True written as 1 and False as 0 |
| `Calculation.FirstMissing` | carbon_calculation/calculation.py:20-25 | no key is reported exactly when all are present; a reported key is absent and every key read before it is present |
| `Calculation.CompanyKeysPresent` | carbon_calculation/calculation.py:20-25 | no lookup fails exactly when the record has all six keys |
| `Calculation.MakeCompany` | carbon_calculation/calculation.py:17-26 | a non-object gives TypeError; a KeyError names the first key that is missing, in reading order; any missing key gives a KeyError; with all keys present, the call succeeds exactly when `float` of the energy use does, and otherwise fails with `float`'s error; on success five fields are the record's values, copied verbatim, and the energy use is the `float` of its value |
| `FloatCoercion.ToFloat` | carbon_calculation/calculation.py:25 | `float` gives TypeError exactly for null, lists and objects; any other failure is ValueError; a number is kept as it is |
| `FloatCoercion.ParseFloat` | carbon_calculation/calculation.py:25 | `float` of a string fails only with ValueError |
| `FloatCoercion.ParseFloatHasDigit` | carbon_calculation/calculation.py:25 | a string that converts holds a digit |
| `FloatCoercion.ParseSigned` | carbon_calculation/calculation.py:25 | a literal without surrounding whitespace fails only with ValueError; a negative value needs a leading `-`, and a leading `-` never gives a positive value |
| `FloatCoercion.ParseExponent` | carbon_calculation/calculation.py:25 | an exponent fails only with ValueError; a successful one is not empty; it is negative only after a leading `-`, and a leading `-` never makes it positive |
| `FloatCoercion.ParseUnsigned` | carbon_calculation/calculation.py:25 | an unsigned literal denotes a non-negative number; every failure is ValueError |
| `FloatCoercion.ParseMantissa` | carbon_calculation/calculation.py:25 | a mantissa denotes a non-negative number; every failure is ValueError |
| `FloatCoercion.Strip` | carbon_calculation/calculation.py:25 | the stripped literal neither starts nor ends with whitespace |
| `FloatCoercion.StripIsSlice` | carbon_calculation/calculation.py:25 | the stripped literal is the slice of the input that follows its leading whitespace |
| `FloatCoercion.FirstIndexOfIsFirst` | carbon_calculation/calculation.py:25 | the search for a decimal point or exponent marker stops at the first one |
| `FloatCoercion.DigitsValueOfNatToString` | carbon_calculation/calculation.py:25 | reading back the decimal digits of n gives n |
| `FloatCoercionProperties.ParseFloatOfNat` | carbon_calculation/calculation.py:25 | `float` of the digits of n is n |
| `FloatCoercionProperties.ParseFloatOfSigned` | carbon_calculation/calculation.py:25 | a sign in front of a well-formed unsigned literal: `-` negates its value, `+` keeps it |
| `FloatCoercionProperties.ParseFloatOfDigitRuns` | carbon_calculation/calculation.py:25 | digits, a point and digits denote the whole part plus the fraction scaled down by its number of digits |
| `FloatCoercionProperties.ParseFloatOfDecimal` | carbon_calculation/calculation.py:25 | `float("w.f")` is w plus f scaled down by the number of digits of f |
| `FloatCoercionProperties.ParseFloatOfPointZero` | carbon_calculation/calculation.py:25 | `float("n.0")` is n |
| `FloatCoercionProperties.ParseFloatOfExponentForm` | carbon_calculation/calculation.py:25 | digits, an exponent marker and a well-formed exponent denote the digits scaled by ten to the exponent |
| `FloatCoercionProperties.ParseFloatOfPositiveExponent` | carbon_calculation/calculation.py:25 | `float("mek")` is m times ten to the k |
| `FloatCoercionProperties.ParseFloatOfNegativeExponent` | carbon_calculation/calculation.py:25 | `float("mE-k")` is m divided by ten to the k |
| `FloatCoercionProperties.ParseFloatIgnoresLeadingSpace` | carbon_calculation/calculation.py:25 | leading whitespace does not change the result of `float` |
| `FloatCoercionProperties.ParseFloatIgnoresTrailingSpace` | carbon_calculation/calculation.py:25 | trailing whitespace does not change the result of `float` |
| `FloatCoercionProperties.ParseFloatRejectsTwoPoints` | carbon_calculation/calculation.py:25 | `float("1.2.3")` raises ValueError |
| `FloatCoercionProperties.ParseFloatRejectsEmptyExponent` | carbon_calculation/calculation.py:25 | `float("1e")` raises ValueError |
| `FloatCoercionProperties.ParseUnsignedRejectsSign` | carbon_calculation/calculation.py:25 | an unsigned literal cannot start with a sign |
| `FloatCoercionProperties.ParseFloatRejectsTwoSigns` | carbon_calculation/calculation.py:25 | any string that starts with two signs, even with nothing after them or with trailing whitespace, raises ValueError |
| `FloatCoercionProperties.ParseFloatRejectsInnerSpace` | carbon_calculation/calculation.py:25 | `float("1 2")` raises ValueError |
| `FloatCoercionProperties.ParseFloatNeedsADigit` | carbon_calculation/calculation.py:25 | a string with neither a digit nor a letter raises ValueError |
| `CalculationProperties.PurchaseDiscountCase` | carbon_calculation/calculation.py:38 | emissions 1, purchases 1, energy use 1 score exactly `mu_purch` |
| `CalculationProperties.CreditCase` | carbon_calculation/calculation.py:39 | credit 1, purchases 1, energy use 1 score exactly `-mu_purch` |
| `CalculationProperties.PlainEmissionsCase` | carbon_calculation/calculation.py:40 | emissions 1, energy use 1 score exactly 1 |
| `CalculationProperties.ZeroCase` | carbon_calculation/calculation.py:41 | energy use 1 and nothing else scores exactly 0 |
| `CalculationProperties.ProductionCase` | carbon_calculation/calculation.py:42 | production 1, energy use 1 score exactly `-phi_prod` |
| `CalculationProperties.CapCase` | carbon_calculation/calculation.py:51 | purchases of twice the energy use hit the cap: the score is exactly 0.2 |
| `CalculationProperties.ZeroEnergyUseCase` | carbon_calculation/calculation.py:83-87 | zero energy use raises ZeroDivisionError |
| `CalculationProperties.ZeroEnergyUseRaisesFirst` | carbon_calculation/calculation.py:11 | with numeric emissions, credit and purchases, a zero energy use raises ZeroDivisionError whatever the production value is |
| `CalculationProperties.NonNumericEmissionsRaiseTypeError` | carbon_calculation/calculation.py:11 | non-numeric emissions raise TypeError, even when the energy use is zero |
| `CalculationProperties.ScoreIgnoresIsin` | carbon_calculation/calculation.py:9-11 | changing the ISIN does not change the score |
| `CalculationProperties.ScoreWithoutPurchases` | carbon_calculation/calculation.py:11 | with no purchases (and a non-negative cap) there is no discount: the score is emissions minus credit minus the production deduction |
| `CalculationProperties.CapThreshold` | carbon_calculation/calculation.py:11 | for positive energy use the cap applies exactly when `mu_purch * re_purch >= mu_max * e_tot` |
| `CalculationProperties.SourceCapThreshold` | carbon_calculation/calculation.py:44-51 | with the source's constants and positive energy use, the cap applies exactly when purchases reach 1.6 times the energy use |
| `CalculationProperties.CreditReducesBeforeDiscount` | carbon_calculation/calculation.py:11 | raising the credit by d lowers the score by d times (1 - discount fraction) |
| `CalculationProperties.ProductionDeductionIsFlat` | carbon_calculation/calculation.py:11 | raising production by d lowers the score by `phi_prod * d`, whatever else holds |
| `CalculationProperties.DiscountFractionMonotone` | carbon_calculation/calculation.py:11 | for positive energy use and non-negative `mu_purch`, more purchases never lower the discount fraction |
| `CalculationProperties.MorePurchasedNeverRaisesScore` | carbon_calculation/calculation.py:11 | when emissions are at least the credit, more purchases never raise the score |
| `CalculationProperties.DiscountFractionRange` | carbon_calculation/calculation.py:4-11 | with non-negative constants and purchases and positive energy use, the discount fraction lies between 0 and `mu_max` |
| `CalculationProperties.SourceScoreBounds` | carbon_calculation/calculation.py:4-11 | with the source's constants, the score plus the production deduction lies between a fifth of, and all of, emissions minus credit |
| `CalculationProperties.MakeCompanyOfCompanyToJson` | carbon_calculation/calculation.py:17-26 | a record written from a company with a numeric energy use reads back as that company |
| `CalculationProperties.MakeCompanyOfEmptyRecord` | carbon_calculation/calculation.py:20 | an empty record raises KeyError for "ISIN", the first key read |
| `CalculationProperties.FirstMissingOfAgreeingRecords` | carbon_calculation/calculation.py:20-25 | records that agree on which keys they hold report the same missing key |
| `CalculationProperties.MakeCompanyReadsOnlyItsKeys` | carbon_calculation/calculation.py:17-26 | two records that agree on the six keys give the same result |
| `CalculationProperties.MakeCompanyParsesEnergyUse` | carbon_calculation/calculation.py:25 | an energy use given as the string "n.0" becomes the number n |
| `CalculationProperties.MakeCompanyRejectsBlankEnergyUse` | carbon_calculation/calculation.py:25 | an energy use that is the empty string or all whitespace raises ValueError |
| `CalculationProperties.MakeCompanyRejectsNullEnergyUse` | carbon_calculation/calculation.py:25 | a null energy use raises TypeError |
| `CalculationProperties.ScoreOfRecord` | carbon_calculation/calculation.py:9-26 | a record with numeric fields and non-zero energy use is read and scored by the formula on its numbers |

## Left out

- `data_architecture/mappings.py` is not part of this model. It holds database table definitions that the calculation does not use.
- `main()` is not part of this model: it reads `data.json`, scores every record and prints the results, which is file I/O and printing. Its per-record work is `ScoreOfRecord`.
- The test harness is not part of this model: its loop, its `epsilon` comparison and the `try`/`except` block. Only its hand-written cases are stated, as exact equalities. Its comparison `actual - expected < epsilon` is one-sided, so it checks only that scores are not too high.
- The regression cases generated from input data are not part of this model. Their expected values depend on IEEE 754 double rounding.
- Numbers are exact reals. Rounding to doubles, overflow to infinity, negative zero and the int/float distinction of Python 2 are not modelled.
- `FloatCoercion.ParseFloat`: the spellings of infinity and not-a-number (`inf`, `infinity`, `nan`, in any case and with an optional sign) are rejected with ValueError. Python converts them, but exact reals cannot hold them.
- `FloatCoercion.ParseFloatHasDigit`: holds of the model only. Python also converts the digit-free spellings of infinity and not-a-number.
- `FloatCoercion.ParseFloat`: only ASCII whitespace is stripped and only ASCII digits are read. Python 2 reads unicode strings from JSON, and for those it also accepts other whitespace and decimal digits.
- `FloatCoercion.ParseFloat`: there is no limit on the length of a literal.
- `FloatCoercion.ToFloat`: a JSON number is taken as the exact value written. `json.load` rounds it to a double, or keeps it as an unbounded int.
