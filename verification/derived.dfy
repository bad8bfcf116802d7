/**
 * The four derived fields computed from the raw form inputs before the
 * feature row is built: vehicle age, kilometres per year, power-to-weight
 * ratio and log-mileage.
 */
module Derived {
  import opened Vehicle

  /**
   * Age in whole years, clamped at zero: the least non-negative number that is
   * at least `currentYear - registrationYear`.
   */
  function VehicleAge(currentYear: int, registrationYear: int): (age: nat)
    ensures age >= currentYear - registrationYear
    ensures age == 0 || age == currentYear - registrationYear
  {
    if currentYear - registrationYear > 0 then currentYear - registrationYear else 0
  }

  /** Mileage spread over `age + 1` years; the denominator is never zero. */
  function KmPerYear(mileageKm: real, age: nat): (r: real)
    ensures r * (age as real + 1.0) == mileageKm
    ensures age == 0 ==> r == mileageKm
    ensures 0.0 <= mileageKm ==> 0.0 <= r <= mileageKm
  {
    mileageKm / (age as real + 1.0)
  }

  /** Power divided by weight, or zero when the weight is not positive. */
  function PowerToWeight(powerHp: real, weightKg: real): (r: real)
    ensures weightKg > 0.0 ==> r * weightKg == powerHp
    ensures weightKg <= 0.0 ==> r == 0.0
    ensures 0.0 <= powerHp ==> 0.0 <= r
  {
    if weightKg > 0.0 then powerHp / weightKg else 0.0
  }

  /**
   * For every value the form can produce the registration year is not in the
   * future, so the clamp never applies and the age is bounded by the oldest
   * selectable year; the weight is at least 800 kg, so the zero-weight guard of
   * the ratio is never taken.
   */
  lemma FormInputsAvoidGuards(x: Inputs, currentYear: int)
    requires WithinFormBounds(x, currentYear)
    ensures VehicleAge(currentYear, x.registrationYear) == currentYear - x.registrationYear
    ensures VehicleAge(currentYear, x.registrationYear) <= currentYear - 1950
    ensures PowerToWeight(x.powerHp, x.weightKg) * x.weightKg == x.powerHp
    ensures 0.0 < PowerToWeight(x.powerHp, x.weightKg)
  {
  }
}
