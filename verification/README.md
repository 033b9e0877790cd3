# Payroll arithmetic (Mexican nómina): a Dafny model

This project models the payroll arithmetic of a Django payroll application
and proves properties of it. The formulas are:

- the integration factor for the integrated daily wage (SDI);
- the base contribution salary (SBC, Art. 27 LSS), capped at 25 UMA;
- the employment subsidy caused in a period;
- the income tax (ISR) determined from an already-chosen row of the Art. 96 LISR tariff;
- the either-or reconciliation of determined tax against subsidy caused;
- the five-part worker social-security (IMSS) withholding, with its 3-UMA threshold;
- wages for the period and net pay.

It also models the employee's derived-field rule (`sdi` is recomputed from
`sd` on every save), the service layer's duplicate factor function, and the
pay receipt's money columns.

Modules:

- `Money` (`money.dfy`): exact `real` money, the cent grid (`IsCents`) and the
  one rounding operation, `Quantize2`, with its lemmas.
- `NominaMath` (`nomina_math.dfy`): the statutory constants and the eight formulas.
- `NominaService` (`nomina_service.dfy`): the duplicated constants and factor.
- `Models` (`models.dfy`): `Empleado` with its save rule, and `Recibo`.

Every money amount is computed unrounded and rounded once, at the end. The
integration factor is the exception: it is a ratio and is never rounded.
The source rounds with `quantize(Decimal("0.01"))` and passes no rounding
mode, so the default decimal context applies: round half to even. `Quantize2`
models exactly that, and `Money.QuantizeUnique` shows its contract determines
it. Round half up would differ from this only on amounts exactly half a cent
from the grid.

## Model

| member | source | states |
|---|---|---|
| Money.Quantize2 | nomina/services/nomina_math.py:106 | the result is a whole number of cents within half a cent of the input; on an exact half it is the even cent |
| Money.RoundHalfEven | nomina/services/nomina_math.py:136 | the nearest integer, within 1/2 of the input; on a tie it is the even one |
| Money.QuantizeUnique | nomina/services/nomina_math.py:269 | any cent value within half a cent of x (and even on a tie) is `Quantize2(x)`, so the rounding is fully determined |
| Money.QuantizeIdentity | nomina/services/nomina_math.py:313 | amounts already on the cent grid are not changed by rounding |
| Money.QuantizeIdempotent | nomina/services/nomina_math.py:214 | rounding twice equals rounding once |
| Money.QuantizeMonotone | nomina/services/nomina_math.py:296 | rounding preserves order |
| Money.QuantizeOdd | nomina/services/nomina_math.py:162 | rounding commutes with negation, so `abs(x)` rounded is the rounded value's magnitude |
| Money.QuantizeNonNegative | nomina/services/nomina_math.py:156 | a non-negative amount rounds to a non-negative amount |
| Money.CentsAddSub | nomina/services/nomina_math.py:203-212 | sums, differences and negations of cent values are cent values |
| Money.CentsTimesInt | nomina/services/nomina_math.py:313 | a cent value times a whole number of days is a cent value |
| NominaMath.FactorIntegracion | nomina/services/nomina_math.py:10-50 | the factor is at least 1 exactly when the benefit days are not negative, and exactly 1 when they are zero |
| NominaMath.FactorAtLeastOne | nomina/services/nomina_math.py:31 | non-negative bonus days, vacation days and premium give a factor of at least 1 |
| NominaMath.FactorLey | nomina/services/nomina_math.py:4-7 | the statutory defaults 15, 12, 0.25 and 365 give exactly 383/365 |
| NominaMath.FactorMonotoneAguinaldo | nomina/services/nomina_math.py:39-48 | more bonus days never lower the factor |
| NominaMath.FactorMonotoneVacaciones | nomina/services/nomina_math.py:39-48 | more vacation days never lower the factor when the premium is non-negative |
| NominaMath.FactorMonotonePrima | nomina/services/nomina_math.py:39-48 | a higher premium never lowers the factor when the vacation days are non-negative |
| NominaMath.SalarioBaseCotizacion | nomina/services/nomina_math.py:216-269 | the SBC is a cent amount, never above the rounded 25-UMA cap, and equal to the rounded cap whenever the uncapped three-part sum exceeds it |
| NominaMath.SbcSinTopeIsIntegrated | nomina/services/nomina_math.py:244-263 | the wage plus the proportional bonus and premium shares is the wage times the integration factor |
| NominaMath.SbcIsCappedIntegratedWage | nomina/services/nomina_math.py:244-269 | the SBC is `Quantize2(min(sd * factor, 25 * UMA))`: the cap applies to the whole sum, never to a part |
| NominaMath.SbcNonNegative | nomina/services/nomina_math.py:244-269 | non-negative wage, UMA and benefits give a non-negative SBC |
| NominaMath.SbcCappedExact | nomina/services/nomina_math.py:265-269 | with a cent-valued UMA a capped SBC is exactly 25 UMA |
| NominaMath.SbcEjemplo | nomina/services/nomina_math.py:244-269 | a daily wage of 300.00 with the statutory benefits gives an SBC of 314.79 when the cap is above it |
| NominaMath.SbcMonotone | nomina/services/nomina_math.py:244-269 | a higher daily wage never lowers the SBC |
| NominaMath.Imss | nomina/services/nomina_math.py:52-106 | the withholding is a cent amount within half a cent of the unrounded five-part sum on the statutory SBC |
| NominaMath.CuotasClosedForm | nomina/services/nomina_math.py:77-104 | the five shares add up to 2.375% of SBC times days, plus 0.40% of the excess over 3 UMA times days when there is an excess; no negative excess enters |
| NominaMath.ImssClosedForm | nomina/services/nomina_math.py:65-106 | at or below 3 UMA the withholding is `Quantize2(2.375% * SBC * days)`; above it the 0.40% in-kind share on the excess is added before the single rounding |
| NominaMath.ImssNonNegative | nomina/services/nomina_math.py:52-106 | non-negative wage, period and UMA give a non-negative withholding |
| NominaMath.ImssMonotone | nomina/services/nomina_math.py:52-106 | a higher daily wage never lowers the withholding |
| NominaMath.ImssFlatAboveCap | nomina/services/nomina_math.py:65-106 | above the 25-UMA ceiling the withholding no longer depends on the wage |
| NominaMath.IsrDeterminado | nomina/services/nomina_math.py:108-136 | the tax is `(gravado - limiteInferior) * porcentaje / 100 + cuotaFija` rounded to the cent (within half a cent of it, the even cent on an exact half); at the lower limit it is the rounded fixed quota, and above it (non-negative rate) it is never less |
| NominaMath.IsrCuotaFijaBounds | nomina/services/nomina_math.py:126-136 | the rounded tariff amount equals the rounded fixed quota at the lower limit and is never below it above the limit when the rate is non-negative |
| NominaMath.IsrDeterminadoMonotone | nomina/services/nomina_math.py:126-136 | with a non-negative rate more taxable income never gives less tax |
| NominaMath.IsrRetenido | nomina/services/nomina_math.py:138-163 | both amounts are non-negative and never both nonzero; a zero difference gives 0 and 0; their net is the rounded difference of tax and subsidy |
| NominaMath.IsrRetenidoExact | nomina/services/nomina_math.py:152-163 | for cent inputs, withheld tax minus delivered subsidy is exactly determined tax minus subsidy caused |
| NominaMath.FactorMensualCancels | nomina/services/nomina_math.py:283-294 | multiplying by the monthly factor and dividing by it again leaves `valor * porcentaje / 100 * days` |
| NominaMath.SubsidioEmpleoCausado | nomina/services/nomina_math.py:271-296 | the subsidy is the rounded `valor * porcentaje / 100 * days`, whatever the nonzero monthly factor |
| NominaMath.SubsidioIgnoresFactorMensual | nomina/services/nomina_math.py:283-296 | changing the monthly conversion factor does not change the subsidy |
| NominaMath.SubsidioNonNegative | nomina/services/nomina_math.py:271-296 | non-negative UMA value, percentage and period give a non-negative subsidy |
| NominaMath.SueldosSalarios | nomina/services/nomina_math.py:298-313 | the wages are `sd * days` rounded to the cent (within half a cent of it, the even cent on an exact half), exactly `sd * days` for a cent-valued `sd`, and non-negative for non-negative inputs |
| NominaMath.ImporteRounding | nomina/services/nomina_math.py:313 | rounding `sd * days` is exact for a cent-valued `sd` and non-negative for non-negative inputs |
| NominaMath.Neto | nomina/services/nomina_math.py:165-214 | the net is a cent amount within half a cent of income plus subsidy minus tax and IMSS (the even cent on an exact half), and exactly that sum when every term is in cents |
| NominaMath.NetoRounding | nomina/services/nomina_math.py:203-214 | when every term is a whole cent, rounding the net sum leaves it unchanged |
| NominaService.FactorIntegracion | nomina/services/nomina_service.py:10-50 | the duplicate factor is at least 1 exactly when the benefit days are not negative, and exactly 1 when they are zero |
| NominaService.FactorDefaults | nomina/services/nomina_service.py:4-14 | called with every argument left at its default the duplicate returns 383/365 |
| NominaService.FactorAgreesWithNominaMath | nomina/services/nomina_service.py:4-50 | the duplicate returns the same factor as the formulas module for every input, and its constants are the same |
| NominaService.FactorAtLeastOne | nomina/services/nomina_service.py:31-48 | non-negative inputs give a factor of at least 1 |
| NominaService.FactorMonotoneAguinaldo | nomina/services/nomina_service.py:39-48 | non-decreasing in the bonus days |
| NominaService.FactorMonotoneVacaciones | nomina/services/nomina_service.py:39-48 | non-decreasing in the vacation days when the premium is non-negative |
| NominaService.FactorMonotonePrima | nomina/services/nomina_service.py:39-48 | non-decreasing in the premium when the vacation days are non-negative |
| Models.Save | nomina/models.py:148-151 | saving keeps every field but `sdi`, and sets `sdi` to `sd * 383/365` rounded to the cent; for cent-valued `sd >= 0`, `sdi >= sd` |
| Models.SdiAtLeastSd | nomina/models.py:150 | a non-negative cent-valued daily wage times the statutory factor rounds to no less than the wage |
| Models.SaveDiscardsSdi | nomina/models.py:150 | whatever `sdi` a caller supplied, the saved row is the same |
| Models.SaveIdempotent | nomina/models.py:148-151 | saving twice is saving once, and equal `sd` gives equal `sdi` |
| Models.SaveExamples | nomina/models.py:111-121 | the default `sd` 0.00 saves with `sdi` 0.00, and `sd` 300.00 saves with `sdi` 314.79 |
| Models.SdiMatchesSbcBelowCap | nomina/models.py:148-151 | below the 25-UMA ceiling the stored `sdi` equals the SBC the withholding uses |
| Models.ReciboConsistency | nomina/models.py:244-284 | for a receipt whose money columns are in cents, reconciling its determined tax against its subsidy caused loses no cent; when the stored tax and subsidy columns are that reconciliation they are not both nonzero and the net recomputed from the stored columns is their exact sum; exempt income, which has no column, is taken as 0.00 |

## Left out

- Bracket-row selection, subsidy eligibility and the payroll run that fills one receipt per employee: `nomina.signals` is not part of this model. The tariff row and the UMA record are inputs.
- Persistence: the ORM `save` call, the other models' field declarations, the admin screens and the dashboard subsystem (menus, permissions, login, REST routes) are not arithmetic.
- Decimal precision: Python's 28-significant-digit context for the divisions in the factor, the proportional shares and the subsidy conversion is idealised as exact `real` division.
- Column width: `max_digits=10` on the money columns, and the `InvalidOperation` that quantizing an over-wide value raises, are not modelled. The two decimal places are modelled as `Models.EnCentavos`.
- NominaMath.SubsidioEmpleoCausado: requires a nonzero monthly factor, because with a zero factor the source divides 0 by 0 and raises `decimal.InvalidOperation`.
- NominaMath.SueldosSalarios: takes the days paid as an integer; the source also accepts a `Decimal` day count.
- NominaMath.Imss: uses the statutory benefit defaults for the SBC, as the source does, so no benefit overrides are passed through.
- Models.Save: states the rounded `sdi` and the fields kept; it does not model the database write that follows.
