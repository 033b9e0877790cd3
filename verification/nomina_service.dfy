/**
 The second copy of the integration-factor routine, kept by the service layer
 with its own copy of the statutory constants. It takes the three benefit
 figures as separate arguments, each defaulting to the statutory value.
 */
module NominaService {
  import NominaMath

  const AguinaldoDias: real := 15.0
  const VacacionesDias: real := 12.0
  const PrimaVacacional: real := 0.25
  const DiasAnio: real := 365.0

  /** `(365 + aguinaldo + vacaciones * prima) / 365`, never rounded. At least 1
      exactly when the integrable days are not negative, exactly 1 when there
      are none. */
  function FactorIntegracion(aguinaldoDias: real := AguinaldoDias, vacacionesDias: real := VacacionesDias,
                             primaVacacional: real := PrimaVacacional): (r: real)
    ensures r >= 1.0 <==> aguinaldoDias + vacacionesDias * primaVacacional >= 0.0
    ensures r == 1.0 <==> aguinaldoDias + vacacionesDias * primaVacacional == 0.0
  {
    var prestaciones := aguinaldoDias + vacacionesDias * primaVacacional;
    var diasIntegrados := DiasAnio + prestaciones;
    diasIntegrados / DiasAnio
  }

  /** The call with every argument left at its default gives 383/365. */
  lemma FactorDefaults()
    ensures FactorIntegracion() == 383.0 / 365.0
  {
  }

  /** This copy and the formulas module's factor agree on every input, and the
      two sets of constants are the same. */
  lemma FactorAgreesWithNominaMath(aguinaldoDias: real, vacacionesDias: real, primaVacacional: real)
    ensures FactorIntegracion(aguinaldoDias, vacacionesDias, primaVacacional)
         == NominaMath.FactorIntegracion(NominaMath.Prestaciones(aguinaldoDias, vacacionesDias, primaVacacional))
    ensures NominaMath.Ley == NominaMath.Prestaciones(AguinaldoDias, VacacionesDias, PrimaVacacional)
    ensures NominaMath.DiasAnio == DiasAnio
  {
  }

  /** Non-negative benefit figures give a factor of at least 1. */
  lemma FactorAtLeastOne(aguinaldoDias: real, vacacionesDias: real, primaVacacional: real)
    requires aguinaldoDias >= 0.0 && vacacionesDias >= 0.0 && primaVacacional >= 0.0
    ensures FactorIntegracion(aguinaldoDias, vacacionesDias, primaVacacional) >= 1.0
  {
    NominaMath.MulNonNegative(vacacionesDias, primaVacacional);
  }

  /** Non-decreasing in the bonus days. */
  lemma FactorMonotoneAguinaldo(a1: real, a2: real, vacacionesDias: real, primaVacacional: real)
    requires a1 <= a2
    ensures FactorIntegracion(a1, vacacionesDias, primaVacacional)
         <= FactorIntegracion(a2, vacacionesDias, primaVacacional)
  {
  }

  /** Non-decreasing in the vacation days when the premium is not negative. */
  lemma FactorMonotoneVacaciones(aguinaldoDias: real, v1: real, v2: real, primaVacacional: real)
    requires v1 <= v2 && primaVacacional >= 0.0
    ensures FactorIntegracion(aguinaldoDias, v1, primaVacacional)
         <= FactorIntegracion(aguinaldoDias, v2, primaVacacional)
  {
    NominaMath.ScaleMonotone(v1, v2, primaVacacional);
  }

  /** Non-decreasing in the premium when the vacation days are not negative. */
  lemma FactorMonotonePrima(aguinaldoDias: real, vacacionesDias: real, q1: real, q2: real)
    requires q1 <= q2 && vacacionesDias >= 0.0
    ensures FactorIntegracion(aguinaldoDias, vacacionesDias, q1)
         <= FactorIntegracion(aguinaldoDias, vacacionesDias, q2)
  {
    NominaMath.ScaleMonotone(q1, q2, vacacionesDias);
  }
}
