/**
 The payroll records: the employee, whose integrated daily wage (`sdi`) is a
 derived field recomputed from the daily wage (`sd`) on every save, and the
 pay receipt, whose money fields hold the results of the formulas in
 `NominaMath`. Every field other than the foreign keys, audit users and
 timestamps is modelled; those are persistence detail.
 */
module Models {
  import opened Money
  import opened NominaMath

  /** A nullable column. */
  datatype Option<T> = None | Some(value: T)

  datatype Empleado = Empleado(
    rfc: Option<string>,
    nombreCompleto: Option<string>,
    sd: real,
    sdi: real,
    periodicidadPago: Option<int>,
    status: bool)

  /** A fresh employee row: both wages default to 0.00 and the row is active. */
  const EmpleadoNuevo: Empleado := Empleado(None, None, 0.0, 0.0, None, true)

  /** The factor a save uses: always the statutory one, whatever the employee. */
  const FactorSdi: real := 383.0 / 365.0

  /** The save hook: `sdi` becomes `sd` times the statutory integration factor,
      rounded to the cent; whatever `sdi` held before is overwritten and every
      other field is kept. For a non-negative cent-valued `sd` the result is
      never below `sd`. */
  function Save(e: Empleado): (r: Empleado)
    ensures r == e.(sdi := r.sdi)
    ensures IsCents(r.sdi)
    ensures r.sdi == Quantize2(e.sd * FactorSdi)
    ensures IsCents(e.sd) && e.sd >= 0.0 ==> r.sdi >= e.sd
  {
    FactorLey();
    QuantizeCongruent(e.sd * FactorIntegracion(Ley), e.sd * FactorSdi);
    SdiAtLeastSd(e.sd);
    e.(sdi := Quantize2(e.sd * FactorIntegracion(Ley)))
  }

  /** A non-negative cent-valued daily wage never integrates to less than itself. */
  lemma SdiAtLeastSd(sd: real)
    ensures IsCents(sd) && sd >= 0.0 ==> Quantize2(sd * FactorIntegracion(Ley)) >= sd
  {
    if IsCents(sd) && sd >= 0.0 {
      FactorAtLeastOne(Ley);
      MulNonNegative(sd, FactorIntegracion(Ley) - 1.0);
      QuantizeMonotone(sd, sd * FactorIntegracion(Ley));
      QuantizeIdentity(sd);
    }
  }

  /** A caller-supplied `sdi` is discarded: the saved row depends only on the
      other fields, so `sdi` is a function of `sd`. */
  lemma SaveDiscardsSdi(e: Empleado, sdi: real)
    ensures Save(e.(sdi := sdi)) == Save(e)
  {
  }

  /** Saving again changes nothing, and saving two rows with the same `sd`
      gives them the same `sdi`. */
  lemma SaveIdempotent(e: Empleado, f: Empleado)
    ensures Save(Save(e)) == Save(e)
    ensures e.sd == f.sd ==> Save(e).sdi == Save(f).sdi
  {
  }

  /** The default daily wage 0.00 saves as 0.00, and a daily wage of 300.00
      saves as 314.79 (300 * 383 / 365 = 314.7945...). */
  lemma SaveExamples()
    ensures Save(EmpleadoNuevo).sdi == 0.0
    ensures Save(EmpleadoNuevo.(sd := 300.0)).sdi == 314.79
  {
    QuantizeIdentity(0.0);
    assert 0.0 * FactorSdi == 0.0;
    assert 300.0 * FactorSdi == 114900.0 / 365.0;
    QuantizeUnique(114900.0 / 365.0, 314.79);
  }

  /** Below the 25-UMA ceiling the stored `sdi` is exactly the contribution
      base the social-security withholding uses with the statutory benefits. */
  lemma SdiMatchesSbcBelowCap(e: Empleado, uma: Uma)
    requires e.sd * FactorSdi <= TopeSbc(uma)
    ensures Save(e).sdi == SalarioBaseCotizacion(e.sd, uma, Ley)
  {
    FactorLey();
    SbcIsCappedIntegratedWage(e.sd, uma, Ley);
    QuantizeCongruent(e.sd * FactorSdi, Min(e.sd * FactorIntegracion(Ley), TopeSbc(uma)));
  }

  /** The pay receipt: the inputs copied from the employee and the period's results. */
  datatype Recibo = Recibo(
    sd: real,
    sdi: real,
    periodicidadPago: Option<int>,
    sueldosSalarios: real,
    isrDeterminado: real,
    isrPagar: real,
    subsidioEmpleoCausado: real,
    subsidioEmpleoEntregado: real,
    imss: real,
    neto: real,
    status: bool)

  /** Every money column has two decimal places. */
  predicate EnCentavos(r: Recibo) {
    && IsCents(r.sd) && IsCents(r.sdi) && IsCents(r.sueldosSalarios)
    && IsCents(r.isrDeterminado) && IsCents(r.isrPagar)
    && IsCents(r.subsidioEmpleoCausado) && IsCents(r.subsidioEmpleoEntregado)
    && IsCents(r.imss) && IsCents(r.neto)
  }

  /** For a receipt whose money columns are all in cents, reconciling its
      determined tax against its subsidy caused loses nothing to rounding, and
      when the stored withheld-tax and delivered-subsidy columns are that
      reconciliation, they keep the either-or rule and the net recomputed
      from the stored columns is their exact sum. The receipt has no column
      for exempt income, so the net is recomputed with exempt income 0.00:
      this assumes the payroll run that fills the receipt passes none. */
  lemma ReciboConsistency(r: Recibo)
    requires EnCentavos(r)
    ensures var c := IsrRetenido(r.isrDeterminado, r.subsidioEmpleoCausado);
            c.isrRetenido - c.subsidioEntregado == r.isrDeterminado - r.subsidioEmpleoCausado
    ensures IsrRetenido(r.isrDeterminado, r.subsidioEmpleoCausado)
              == Retencion(r.isrPagar, r.subsidioEmpleoEntregado) ==>
            && (r.isrPagar == 0.0 || r.subsidioEmpleoEntregado == 0.0)
            && Neto(r.sueldosSalarios, 0.0, r.subsidioEmpleoEntregado, r.isrPagar, r.imss)
                 == r.sueldosSalarios + r.subsidioEmpleoEntregado - r.isrPagar - r.imss
  {
    IsrRetenidoExact(r.isrDeterminado, r.subsidioEmpleoCausado);
    QuantizeIdentity(0.0);
  }
}
