/**
 The payroll formulas: integration factor, capped contribution base (SBC),
 employment subsidy, progressive income tax (ISR) from a given tariff row,
 the either-or reconciliation of tax against subsidy, the five-part worker
 social-security (IMSS) withholding, period wages and net pay.

 Money is exact `real`. Each money amount is computed unrounded (the
 `...SinRedondeo` / `SbcTopado` helpers, which follow the source step by
 step) and rounded once, at the end, with `Quantize2`. The integration factor
 is a ratio, not money, and is never rounded. The source divides in
 a 28-significant-digit decimal context (the integration factor, the
 proportional bonus and premium shares, the monthly-to-daily subsidy
 conversion); exact division is an idealisation of those steps.
 */
module NominaMath {
  import opened Money

  // Statutory defaults (Ley Federal del Trabajo / IMSS).
  const AguinaldoDias: real := 15.0
  const VacacionesDias: real := 12.0
  const PrimaVacacional: real := 0.25
  const DiasAnio: real := 365.0

  /** Yearly UMA reference: daily value, monthly conversion factor, subsidy percentage. */
  datatype Uma = Uma(valor: real, factorMensual: real, porcentajeUma: real)

  /** One row of the Art. 96 LISR tariff, already chosen for the taxable amount. */
  datatype IsrRow = IsrRow(limiteInferior: real, porcentajeExcedente: real, cuotaFija: real)

  /** The benefit day-counts that feed the integration factor and the SBC. */
  datatype Prestaciones = Prestaciones(aguinaldoDias: real, vacacionesDias: real, primaVacacional: real)

  /** The defaults used whenever a caller passes no benefit figures. */
  const Ley: Prestaciones := Prestaciones(AguinaldoDias, VacacionesDias, PrimaVacacional)

  /** Outcome of reconciling determined tax against the subsidy caused. */
  datatype Retencion = Retencion(isrRetenido: real, subsidioEntregado: real)

  /** Integrable benefit days per year: the bonus plus the premium on vacation days. */
  function DiasPrestacion(p: Prestaciones): real {
    p.aguinaldoDias + p.vacacionesDias * p.primaVacacional
  }

  predicate NonNegative(p: Prestaciones) {
    p.aguinaldoDias >= 0.0 && p.vacacionesDias >= 0.0 && p.primaVacacional >= 0.0
  }

  function Min(a: real, b: real): real {
    if a <= b then a else b
  }

  lemma ScaleMonotone(a: real, b: real, k: real)
    requires a <= b && k >= 0.0
    ensures a * k <= b * k
  {
    assert (b - a) * k >= 0.0;
  }

  lemma MulNonNegative(a: real, b: real)
    requires a >= 0.0 && b >= 0.0
    ensures a * b >= 0.0
  {
  }

  // ---------------------------------------------------------------------------
  // Integration factor
  // ---------------------------------------------------------------------------

  /** SDI multiplier `(365 + aguinaldo + vacaciones * prima) / 365`, never rounded.
      It is at least 1 exactly when the integrable days are not negative, and
      exactly 1 when there are none. */
  function FactorIntegracion(p: Prestaciones): (r: real)
    ensures r >= 1.0 <==> DiasPrestacion(p) >= 0.0
    ensures r == 1.0 <==> DiasPrestacion(p) == 0.0
  {
    var prestaciones := p.aguinaldoDias + p.vacacionesDias * p.primaVacacional;
    var diasIntegrados := DiasAnio + prestaciones;
    diasIntegrados / DiasAnio
  }

  /** Non-negative benefits never make the factor drop below 1. */
  lemma FactorAtLeastOne(p: Prestaciones)
    requires NonNegative(p)
    ensures FactorIntegracion(p) >= 1.0
  {
    MulNonNegative(p.vacacionesDias, p.primaVacacional);
  }

  /** The statutory defaults 15 / 12 / 0.25 give 383/365. */
  lemma FactorLey()
    ensures FactorIntegracion(Ley) == 383.0 / 365.0
  {
  }

  /** The factor grows with the bonus days. */
  lemma FactorMonotoneAguinaldo(p: Prestaciones, a: real)
    requires p.aguinaldoDias <= a
    ensures FactorIntegracion(p) <= FactorIntegracion(p.(aguinaldoDias := a))
  {
  }

  /** The factor grows with the vacation days when the premium is not negative. */
  lemma FactorMonotoneVacaciones(p: Prestaciones, v: real)
    requires p.vacacionesDias <= v && p.primaVacacional >= 0.0
    ensures FactorIntegracion(p) <= FactorIntegracion(p.(vacacionesDias := v))
  {
    ScaleMonotone(p.vacacionesDias, v, p.primaVacacional);
  }

  /** The factor grows with the premium when the vacation days are not negative. */
  lemma FactorMonotonePrima(p: Prestaciones, q: real)
    requires p.primaVacacional <= q && p.vacacionesDias >= 0.0
    ensures FactorIntegracion(p) <= FactorIntegracion(p.(primaVacacional := q))
  {
    ScaleMonotone(p.primaVacacional, q, p.vacacionesDias);
  }

  // ---------------------------------------------------------------------------
  // Base contribution salary (Art. 27 LSS)
  // ---------------------------------------------------------------------------

  /** The SBC ceiling: 25 daily UMA. */
  function TopeSbc(uma: Uma): real {
    uma.valor * 25.0
  }

  /** Daily wage plus the proportional daily bonus and vacation-premium shares, before the cap. */
  function SbcSinTope(salarioDiario: real, p: Prestaciones): real {
    var proporcionalAguinaldo := (p.aguinaldoDias * salarioDiario) / DiasAnio;
    var proporcionalPrima := (p.vacacionesDias * salarioDiario * p.primaVacacional) / DiasAnio;
    salarioDiario + proporcionalAguinaldo + proporcionalPrima
  }

  /** The three-part sum, replaced by the ceiling when it exceeds it. */
  function SbcTopado(salarioDiario: real, uma: Uma, p: Prestaciones): real {
    var sbc := SbcSinTope(salarioDiario, p);
    var tope := TopeSbc(uma);
    if sbc > tope then tope else sbc
  }

  /** SBC: the integrated daily wage, capped at 25 UMA after the three parts are
      summed, rounded to the cent. The result never exceeds the rounded cap and
      is the rounded cap whenever the uncapped sum exceeds it. */
  function SalarioBaseCotizacion(salarioDiario: real, uma: Uma, p: Prestaciones): (r: real)
    ensures IsCents(r)
    ensures r <= Quantize2(TopeSbc(uma))
    ensures SbcSinTope(salarioDiario, p) > TopeSbc(uma) ==> r == Quantize2(TopeSbc(uma))
  {
    QuantizeMonotone(SbcTopado(salarioDiario, uma, p), TopeSbc(uma));
    Quantize2(SbcTopado(salarioDiario, uma, p))
  }

  /** The three-part sum is the daily wage times the integration factor. */
  lemma SbcSinTopeIsIntegrated(salarioDiario: real, p: Prestaciones)
    ensures SbcSinTope(salarioDiario, p) == salarioDiario * FactorIntegracion(p)
  {
    var s, a, v, q := salarioDiario, p.aguinaldoDias, p.vacacionesDias, p.primaVacacional;
    calc {
      SbcSinTope(s, p);
      s + (a * s) / 365.0 + (v * s * q) / 365.0;
      s * (365.0 + a + v * q) / 365.0;
      s * FactorIntegracion(p);
    }
  }

  /** The SBC is the rounded integrated wage `salarioDiario * FactorIntegracion(p)`,
      or the rounded cap when that is lower: the cap applies to the whole sum. */
  lemma SbcIsCappedIntegratedWage(salarioDiario: real, uma: Uma, p: Prestaciones)
    ensures SalarioBaseCotizacion(salarioDiario, uma, p)
         == Quantize2(Min(salarioDiario * FactorIntegracion(p), TopeSbc(uma)))
  {
    SbcSinTopeIsIntegrated(salarioDiario, p);
    QuantizeCongruent(SbcTopado(salarioDiario, uma, p), Min(salarioDiario * FactorIntegracion(p), TopeSbc(uma)));
  }

  /** A non-negative wage, UMA and benefit set give a non-negative SBC. */
  lemma SbcNonNegative(salarioDiario: real, uma: Uma, p: Prestaciones)
    requires salarioDiario >= 0.0 && uma.valor >= 0.0 && NonNegative(p)
    ensures SalarioBaseCotizacion(salarioDiario, uma, p) >= 0.0
  {
    SbcIsCappedIntegratedWage(salarioDiario, uma, p);
    FactorAtLeastOne(p);
    MulNonNegative(salarioDiario, FactorIntegracion(p));
    QuantizeNonNegative(Min(salarioDiario * FactorIntegracion(p), TopeSbc(uma)));
  }

  /** With a UMA value on the cent grid, a capped SBC is exactly 25 UMA. */
  lemma SbcCappedExact(salarioDiario: real, uma: Uma, p: Prestaciones)
    requires IsCents(uma.valor)
    requires SbcSinTope(salarioDiario, p) > TopeSbc(uma)
    ensures SalarioBaseCotizacion(salarioDiario, uma, p) == uma.valor * 25.0
  {
    CentsTimesInt(uma.valor, 25);
    QuantizeIdentity(uma.valor * 25.0);
  }

  /** A daily wage of 300.00 with the statutory benefits integrates to
      300 * 383 / 365 = 314.7945..., which rounds to 314.79 whenever the cap
      (25 UMA) lies above it. */
  lemma SbcEjemplo(uma: Uma)
    requires uma.valor >= 13.0
    ensures SalarioBaseCotizacion(300.0, uma, Ley) == 314.79
  {
    SbcIsCappedIntegratedWage(300.0, uma, Ley);
    FactorLey();
    assert 300.0 * FactorIntegracion(Ley) == 114900.0 / 365.0;
    assert Min(300.0 * FactorIntegracion(Ley), TopeSbc(uma)) == 114900.0 / 365.0;
    QuantizeUnique(114900.0 / 365.0, 314.79);
  }

  /** A higher daily wage never lowers the SBC (for non-negative benefits). */
  lemma SbcMonotone(sd1: real, sd2: real, uma: Uma, p: Prestaciones)
    requires sd1 <= sd2 && NonNegative(p)
    ensures SalarioBaseCotizacion(sd1, uma, p) <= SalarioBaseCotizacion(sd2, uma, p)
  {
    CappedIntegratedWageMonotone(sd1, sd2, uma, p);
    SbcIsCappedIntegratedWage(sd1, uma, p);
    SbcIsCappedIntegratedWage(sd2, uma, p);
  }

  lemma CappedIntegratedWageMonotone(sd1: real, sd2: real, uma: Uma, p: Prestaciones)
    requires sd1 <= sd2 && NonNegative(p)
    ensures Quantize2(Min(sd1 * FactorIntegracion(p), TopeSbc(uma)))
         <= Quantize2(Min(sd2 * FactorIntegracion(p), TopeSbc(uma)))
  {
    FactorAtLeastOne(p);
    ScaleMonotone(sd1, sd2, FactorIntegracion(p));
    CappedQuantizeMonotone(sd1 * FactorIntegracion(p), sd2 * FactorIntegracion(p), TopeSbc(uma));
  }

  lemma CappedQuantizeMonotone(x1: real, x2: real, tope: real)
    requires x1 <= x2
    ensures Quantize2(Min(x1, tope)) <= Quantize2(Min(x2, tope))
  {
    QuantizeMonotone(Min(x1, tope), Min(x2, tope));
  }

  // ---------------------------------------------------------------------------
  // Worker social-security withholding (Arts. 106, 107, 147, 168 LSS)
  // ---------------------------------------------------------------------------

  /** The unrounded five-part sum for a given SBC. */
  function CuotasSinRedondeo(sbc: real, periodicidadPago: int, uma: Uma): real {
    var dias := periodicidadPago as real;
    var diferencia3Uma := sbc - uma.valor * 3.0;
    var especie := if diferencia3Uma > 0.0 then (0.40 / 100.0) * diferencia3Uma * dias else 0.0;
    var pensionados := (0.375 / 100.0) * sbc * dias;
    var dinero := (0.25 / 100.0) * sbc * dias;
    var invalidez := (0.625 / 100.0) * sbc * dias;
    var cesantia := (1.125 / 100.0) * sbc * dias;
    especie + pensionados + dinero + invalidez + cesantia
  }

  /** Worker IMSS contributions for the period, on the SBC computed with the
      statutory benefits, rounded once after the five shares are summed. */
  function Imss(salarioDiario: real, periodicidadPago: int, uma: Uma): (r: real)
    ensures IsCents(r)
    ensures -0.005 <= r - CuotasSinRedondeo(SalarioBaseCotizacion(salarioDiario, uma, Ley), periodicidadPago, uma) <= 0.005
  {
    var sbc := SalarioBaseCotizacion(salarioDiario, uma, Ley);
    Quantize2(CuotasSinRedondeo(sbc, periodicidadPago, uma))
  }

  /** The five shares collapse to a flat 2.375% of the SBC, plus 0.40% of the
      part of the SBC above 3 UMA when there is such a part. */
  lemma CuotasClosedForm(sbc: real, periodicidadPago: int, uma: Uma)
    ensures var dias := periodicidadPago as real;
            CuotasSinRedondeo(sbc, periodicidadPago, uma)
              == 0.02375 * (sbc * dias)
                 + (if sbc > uma.valor * 3.0 then 0.004 * ((sbc - uma.valor * 3.0) * dias) else 0.0)
  {
  }

  /** At or below 3 UMA only the flat 2.375% applies; above it the 0.40%
      in-kind share is added on the excess. */
  lemma ImssClosedForm(salarioDiario: real, periodicidadPago: int, uma: Uma)
    ensures var sbc := SalarioBaseCotizacion(salarioDiario, uma, Ley);
            var dias := periodicidadPago as real;
            && (sbc <= uma.valor * 3.0 ==> Imss(salarioDiario, periodicidadPago, uma) == Quantize2(0.02375 * (sbc * dias)))
            && (sbc > uma.valor * 3.0 ==>
                  Imss(salarioDiario, periodicidadPago, uma)
                    == Quantize2(0.02375 * (sbc * dias) + 0.004 * ((sbc - uma.valor * 3.0) * dias)))
  {
    QuantizedCuotasClosedForm(SalarioBaseCotizacion(salarioDiario, uma, Ley), periodicidadPago, uma);
  }

  lemma QuantizedCuotasClosedForm(sbc: real, periodicidadPago: int, uma: Uma)
    ensures var dias := periodicidadPago as real;
            && (sbc <= uma.valor * 3.0 ==>
                  Quantize2(CuotasSinRedondeo(sbc, periodicidadPago, uma)) == Quantize2(0.02375 * (sbc * dias)))
            && (sbc > uma.valor * 3.0 ==>
                  Quantize2(CuotasSinRedondeo(sbc, periodicidadPago, uma))
                    == Quantize2(0.02375 * (sbc * dias) + 0.004 * ((sbc - uma.valor * 3.0) * dias)))
  {
    CuotasClosedForm(sbc, periodicidadPago, uma);
  }

  lemma CuotasNonNegative(sbc: real, periodicidadPago: int, uma: Uma)
    requires sbc >= 0.0 && periodicidadPago >= 0
    ensures CuotasSinRedondeo(sbc, periodicidadPago, uma) >= 0.0
  {
    CuotasClosedForm(sbc, periodicidadPago, uma);
    var dias := periodicidadPago as real;
    MulNonNegative(sbc, dias);
    if sbc > uma.valor * 3.0 {
      MulNonNegative(sbc - uma.valor * 3.0, dias);
    }
  }

  /** Non-negative wage, period and UMA give a non-negative withholding. */
  lemma ImssNonNegative(salarioDiario: real, periodicidadPago: int, uma: Uma)
    requires salarioDiario >= 0.0 && periodicidadPago >= 0 && uma.valor >= 0.0
    ensures Imss(salarioDiario, periodicidadPago, uma) >= 0.0
  {
    var sbc := SalarioBaseCotizacion(salarioDiario, uma, Ley);
    SbcNonNegative(salarioDiario, uma, Ley);
    CuotasNonNegative(sbc, periodicidadPago, uma);
    QuantizeNonNegative(CuotasSinRedondeo(sbc, periodicidadPago, uma));
  }

  /** The unrounded sum grows with the SBC for a non-negative period length. */
  lemma CuotasMonotone(sbc1: real, sbc2: real, periodicidadPago: int, uma: Uma)
    requires sbc1 <= sbc2 && periodicidadPago >= 0
    ensures CuotasSinRedondeo(sbc1, periodicidadPago, uma) <= CuotasSinRedondeo(sbc2, periodicidadPago, uma)
  {
    var dias := periodicidadPago as real;
    CuotasClosedForm(sbc1, periodicidadPago, uma);
    CuotasClosedForm(sbc2, periodicidadPago, uma);
    ScaleMonotone(sbc1, sbc2, dias);
    if sbc1 > uma.valor * 3.0 {
      ScaleMonotone(sbc1 - uma.valor * 3.0, sbc2 - uma.valor * 3.0, dias);
    } else if sbc2 > uma.valor * 3.0 {
      MulNonNegative(sbc2 - uma.valor * 3.0, dias);
    }
  }

  /** A higher daily wage never lowers the IMSS withholding. */
  lemma ImssMonotone(sd1: real, sd2: real, periodicidadPago: int, uma: Uma)
    requires sd1 <= sd2 && periodicidadPago >= 0
    ensures Imss(sd1, periodicidadPago, uma) <= Imss(sd2, periodicidadPago, uma)
  {
    SbcMonotone(sd1, sd2, uma, Ley);
    var s1 := SalarioBaseCotizacion(sd1, uma, Ley);
    var s2 := SalarioBaseCotizacion(sd2, uma, Ley);
    CuotasMonotone(s1, s2, periodicidadPago, uma);
    QuantizeMonotone(CuotasSinRedondeo(s1, periodicidadPago, uma), CuotasSinRedondeo(s2, periodicidadPago, uma));
  }

  /** Above the 25-UMA ceiling the withholding no longer depends on the wage. */
  lemma ImssFlatAboveCap(sd1: real, sd2: real, periodicidadPago: int, uma: Uma)
    requires SbcSinTope(sd1, Ley) > TopeSbc(uma) && SbcSinTope(sd2, Ley) > TopeSbc(uma)
    ensures Imss(sd1, periodicidadPago, uma) == Imss(sd2, periodicidadPago, uma)
  {
  }

  // ---------------------------------------------------------------------------
  // Income tax (Art. 96 LISR)
  // ---------------------------------------------------------------------------

  /** The marginal rate on the excess over the row's lower limit, plus the fixed quota. */
  function IsrSinRedondeo(isr: IsrRow, importeGravado: real): real {
    var excedente := importeGravado - isr.limiteInferior;
    var isrExcedente := excedente * isr.porcentajeExcedente / 100.0;
    isrExcedente + isr.cuotaFija
  }

  lemma IsrSinRedondeoMonotone(isr: IsrRow, g1: real, g2: real)
    requires g1 <= g2 && isr.porcentajeExcedente >= 0.0
    ensures IsrSinRedondeo(isr, g1) <= IsrSinRedondeo(isr, g2)
  {
    ScaleMonotone(g1 - isr.limiteInferior, g2 - isr.limiteInferior, isr.porcentajeExcedente);
  }

  /** Tax determined from the tariff row: the marginal rate on the excess over
      the lower limit plus the fixed quota, rounded to the cent. At the lower
      limit it is the rounded fixed quota; above it, with a non-negative rate,
      it is never less. */
  function IsrDeterminado(isr: IsrRow, importeGravado: real): (r: real)
    ensures IsCents(r)
    ensures -0.005 <= r - ((importeGravado - isr.limiteInferior) * isr.porcentajeExcedente / 100.0
                           + isr.cuotaFija) <= 0.005
    ensures var f := (importeGravado - isr.limiteInferior) * isr.porcentajeExcedente / 100.0 + isr.cuotaFija;
            (r - f == 0.005 || r - f == -0.005) ==> IsEvenCents(r)
    ensures importeGravado == isr.limiteInferior ==> r == Quantize2(isr.cuotaFija)
    ensures importeGravado >= isr.limiteInferior && isr.porcentajeExcedente >= 0.0 ==>
              r >= Quantize2(isr.cuotaFija)
  {
    assert IsrSinRedondeo(isr, importeGravado)
        == (importeGravado - isr.limiteInferior) * isr.porcentajeExcedente / 100.0 + isr.cuotaFija;
    IsrCuotaFijaBounds(isr, importeGravado);
    Quantize2(IsrSinRedondeo(isr, importeGravado))
  }

  /** The rounded tariff amount against the rounded fixed quota: equal at the
      lower limit, never below it above the limit when the rate is non-negative. */
  lemma IsrCuotaFijaBounds(isr: IsrRow, importeGravado: real)
    ensures importeGravado == isr.limiteInferior ==>
              Quantize2(IsrSinRedondeo(isr, importeGravado)) == Quantize2(isr.cuotaFija)
    ensures importeGravado >= isr.limiteInferior && isr.porcentajeExcedente >= 0.0 ==>
              Quantize2(IsrSinRedondeo(isr, importeGravado)) >= Quantize2(isr.cuotaFija)
  {
    assert IsrSinRedondeo(isr, isr.limiteInferior) == isr.cuotaFija;
    if importeGravado >= isr.limiteInferior && isr.porcentajeExcedente >= 0.0 {
      IsrSinRedondeoMonotone(isr, isr.limiteInferior, importeGravado);
      QuantizeMonotone(isr.cuotaFija, IsrSinRedondeo(isr, importeGravado));
    }
  }

  /** With a non-negative rate, more taxable income never means less tax. */
  lemma IsrDeterminadoMonotone(isr: IsrRow, g1: real, g2: real)
    requires g1 <= g2 && isr.porcentajeExcedente >= 0.0
    ensures IsrDeterminado(isr, g1) <= IsrDeterminado(isr, g2)
  {
    IsrSinRedondeoMonotone(isr, g1, g2);
    QuantizeMonotone(IsrSinRedondeo(isr, g1), IsrSinRedondeo(isr, g2));
  }

  // ---------------------------------------------------------------------------
  // Tax / subsidy reconciliation
  // ---------------------------------------------------------------------------

  /** Either tax is withheld or subsidy is paid out, never both. Both amounts are
      non-negative, a zero difference takes the subsidy branch and yields zero and
      zero, and the net of the two is the rounded difference
      `isrDeterminado - subsidioCausado`. */
  function IsrRetenido(isrDeterminado: real, subsidioCausado: real): (r: Retencion)
    ensures r.isrRetenido >= 0.0 && r.subsidioEntregado >= 0.0
    ensures r.isrRetenido == 0.0 || r.subsidioEntregado == 0.0
    ensures isrDeterminado - subsidioCausado <= 0.0 ==> r.isrRetenido == 0.0
    ensures isrDeterminado - subsidioCausado > 0.0 ==> r.subsidioEntregado == 0.0
    ensures r.isrRetenido - r.subsidioEntregado == Quantize2(isrDeterminado - subsidioCausado)
    ensures isrDeterminado == subsidioCausado ==> r == Retencion(0.0, 0.0)
  {
    var resultado := isrDeterminado - subsidioCausado;
    if resultado > 0.0 then
      QuantizeNonNegative(resultado);
      Retencion(Quantize2(resultado), 0.0)
    else
      QuantizeNonNegative(-resultado);
      QuantizeOdd(resultado);
      QuantizeIdentity(0.0);
      Retencion(0.0, Quantize2(-resultado))
  }

  /** On whole-cent inputs nothing is lost to rounding: withheld tax minus
      delivered subsidy is exactly determined tax minus subsidy caused. */
  lemma IsrRetenidoExact(isrDeterminado: real, subsidioCausado: real)
    requires IsCents(isrDeterminado) && IsCents(subsidioCausado)
    ensures var r := IsrRetenido(isrDeterminado, subsidioCausado);
            r.isrRetenido - r.subsidioEntregado == isrDeterminado - subsidioCausado
  {
    CentsAddSub(isrDeterminado, subsidioCausado);
    QuantizeIdentity(isrDeterminado - subsidioCausado);
  }

  // ---------------------------------------------------------------------------
  // Employment subsidy
  // ---------------------------------------------------------------------------

  /** Daily UMA to monthly, subsidy percentage applied, back to daily, times the period. */
  function SubsidioSinRedondeo(uma: Uma, periodicidadPago: int): real
    requires uma.factorMensual != 0.0
  {
    var umaMensual := uma.valor * uma.factorMensual;
    var subsidioMensual := umaMensual * (uma.porcentajeUma / 100.0);
    var subsidioDiario := subsidioMensual / uma.factorMensual;
    subsidioDiario * periodicidadPago as real
  }

  /** The subsidy the period earns once the monthly factor is cancelled:
      `porcentaje` percent of the daily UMA, times the days of the period. */
  function SubsidioPeriodo(valor: real, porcentajeUma: real, periodicidadPago: int): real {
    valor * porcentajeUma / 100.0 * periodicidadPago as real
  }

  /** The monthly factor is multiplied in and divided out again. */
  lemma FactorMensualCancels(uma: Uma, periodicidadPago: int)
    requires uma.factorMensual != 0.0
    ensures SubsidioSinRedondeo(uma, periodicidadPago)
         == SubsidioPeriodo(uma.valor, uma.porcentajeUma, periodicidadPago)
  {
    var fm, dias := uma.factorMensual, periodicidadPago as real;
    var diario := uma.valor * uma.porcentajeUma / 100.0;
    var x := (uma.valor * fm * (uma.porcentajeUma / 100.0)) / fm;
    assert x * fm == uma.valor * fm * (uma.porcentajeUma / 100.0);
    assert x == diario;
    assert x * dias == diario * dias;
  }

  /** Subsidy caused for the period, rounded to the cent. The monthly factor
      cancels, so the result is the rounded `SubsidioPeriodo`: the daily
      `valor * porcentaje / 100` times the period length. A zero monthly factor
      is a division error in the source and is excluded here. */
  function SubsidioEmpleoCausado(uma: Uma, periodicidadPago: int): (r: real)
    requires uma.factorMensual != 0.0
    ensures IsCents(r)
    ensures r == Quantize2(SubsidioPeriodo(uma.valor, uma.porcentajeUma, periodicidadPago))
  {
    FactorMensualCancels(uma, periodicidadPago);
    QuantizeCongruent(SubsidioSinRedondeo(uma, periodicidadPago),
                      SubsidioPeriodo(uma.valor, uma.porcentajeUma, periodicidadPago));
    Quantize2(SubsidioSinRedondeo(uma, periodicidadPago))
  }

  /** The monthly conversion factor has no effect on the subsidy. */
  lemma SubsidioIgnoresFactorMensual(uma: Uma, f: real, periodicidadPago: int)
    requires uma.factorMensual != 0.0 && f != 0.0
    ensures SubsidioEmpleoCausado(uma, periodicidadPago)
         == SubsidioEmpleoCausado(uma.(factorMensual := f), periodicidadPago)
  {
    var otra := uma.(factorMensual := f);
    assert otra.valor == uma.valor && otra.porcentajeUma == uma.porcentajeUma;
  }

  /** Non-negative UMA value, percentage and period give a non-negative subsidy. */
  lemma SubsidioNonNegative(uma: Uma, periodicidadPago: int)
    requires uma.factorMensual != 0.0
    requires uma.valor >= 0.0 && uma.porcentajeUma >= 0.0 && periodicidadPago >= 0
    ensures SubsidioEmpleoCausado(uma, periodicidadPago) >= 0.0
  {
    MulNonNegative(uma.valor, uma.porcentajeUma);
    MulNonNegative(uma.valor * uma.porcentajeUma / 100.0, periodicidadPago as real);
    QuantizeNonNegative(SubsidioPeriodo(uma.valor, uma.porcentajeUma, periodicidadPago));
  }

  // ---------------------------------------------------------------------------
  // Period wages and net pay
  // ---------------------------------------------------------------------------

  /** Wages for the period: the daily wage times the days paid, rounded to the
      cent; exact for a cent-valued daily wage. */
  function SueldosSalarios(salarioDiario: real, nDiasPagados: int): (r: real)
    ensures IsCents(r)
    ensures -0.005 <= r - salarioDiario * nDiasPagados as real <= 0.005
    ensures var f := salarioDiario * nDiasPagados as real;
            (r - f == 0.005 || r - f == -0.005) ==> IsEvenCents(r)
    ensures IsCents(salarioDiario) ==> r == salarioDiario * nDiasPagados as real
    ensures salarioDiario >= 0.0 && nDiasPagados >= 0 ==> r >= 0.0
  {
    var importe := salarioDiario * nDiasPagados as real;
    ImporteRounding(salarioDiario, nDiasPagados);
    Quantize2(importe)
  }

  /** Rounding `salarioDiario * nDiasPagados` is exact for a cent-valued wage and
      keeps non-negative inputs non-negative. */
  lemma ImporteRounding(salarioDiario: real, nDiasPagados: int)
    ensures IsCents(salarioDiario) ==>
              Quantize2(salarioDiario * nDiasPagados as real) == salarioDiario * nDiasPagados as real
    ensures salarioDiario >= 0.0 && nDiasPagados >= 0 ==> Quantize2(salarioDiario * nDiasPagados as real) >= 0.0
  {
    var importe := salarioDiario * nDiasPagados as real;
    if IsCents(salarioDiario) {
      CentsTimesInt(salarioDiario, nDiasPagados);
      QuantizeIdentity(importe);
    }
    if salarioDiario >= 0.0 && nDiasPagados >= 0 {
      QuantizeNonNegative(importe);
    }
  }

  /** Net pay: income plus delivered subsidy minus withheld tax and IMSS, rounded
      once, to the even cent on an exact half. When every term is already a
      whole cent the rounding changes nothing, so recomputing from stored
      receipt fields gives back the stored net. */
  function Neto(percepcionesGravadas: real, percepcionesExentas: real, subsidioEmpleoEntregado: real,
                isrRetenido: real, imss: real): (r: real)
    ensures IsCents(r)
    ensures -0.005 <= r - (percepcionesGravadas + percepcionesExentas + subsidioEmpleoEntregado
                           - isrRetenido - imss) <= 0.005
    ensures var f := percepcionesGravadas + percepcionesExentas + subsidioEmpleoEntregado - isrRetenido - imss;
            (r - f == 0.005 || r - f == -0.005) ==> IsEvenCents(r)
    ensures IsCents(percepcionesGravadas) && IsCents(percepcionesExentas) && IsCents(subsidioEmpleoEntregado)
            && IsCents(isrRetenido) && IsCents(imss) ==>
              r == percepcionesGravadas + percepcionesExentas + subsidioEmpleoEntregado - isrRetenido - imss
  {
    var totalPercepciones := percepcionesGravadas + percepcionesExentas;
    var neto := totalPercepciones + subsidioEmpleoEntregado - isrRetenido - imss;
    NetoRounding(percepcionesGravadas, percepcionesExentas, subsidioEmpleoEntregado, isrRetenido, imss);
    Quantize2(neto)
  }

  /** When every term is a whole cent, so is the net sum, and rounding leaves it unchanged. */
  lemma NetoRounding(percepcionesGravadas: real, percepcionesExentas: real, subsidioEmpleoEntregado: real,
                     isrRetenido: real, imss: real)
    ensures var neto := percepcionesGravadas + percepcionesExentas + subsidioEmpleoEntregado - isrRetenido - imss;
            (IsCents(percepcionesGravadas) && IsCents(percepcionesExentas) && IsCents(subsidioEmpleoEntregado)
             && IsCents(isrRetenido) && IsCents(imss)) ==> Quantize2(neto) == neto
  {
    if IsCents(percepcionesGravadas) && IsCents(percepcionesExentas) && IsCents(subsidioEmpleoEntregado)
       && IsCents(isrRetenido) && IsCents(imss) {
      var totalPercepciones := percepcionesGravadas + percepcionesExentas;
      CentsAddSub(percepcionesGravadas, percepcionesExentas);
      CentsAddSub(totalPercepciones, subsidioEmpleoEntregado);
      CentsAddSub(totalPercepciones + subsidioEmpleoEntregado, isrRetenido);
      CentsAddSub(totalPercepciones + subsidioEmpleoEntregado - isrRetenido, imss);
      QuantizeIdentity(totalPercepciones + subsidioEmpleoEntregado - isrRetenido - imss);
    }
  }
}
