/** Ledger amounts: integers counting units of 1e-8, as a NUMERIC(20, 8) column holds them. */
module Numeric {
  import opened Common

  const SCALE: real := 100000000.0
  const MAX_UNITS: int := 99999999999999999999

  /** Rounds to the ledger quantum, ties away from zero. */
  function Round(x: real): int {
    if x >= 0.0 then (x * SCALE + 0.5).Floor else -((-x * SCALE + 0.5).Floor)
  }

  function Value(units: int): real {
    units as real / SCALE
  }

  /** The representation a NUMERIC(20, 8) column accepts, or None when the amount is refused. */
  function Canonical(x: real, positive: bool): (r: Option<int>)
    ensures r.Some? ==> -MAX_UNITS <= r.value <= MAX_UNITS && (positive ==> r.value > 0)
  {
    var units := Round(x);
    if units > MAX_UNITS || units < -MAX_UNITS then None
    else if positive && units <= 0 then None
    else Some(units)
  }

  /** Fill totals against a float-backed status, with a narrow tolerance. */
  function Tolerance(reported: real): real {
    var relative := Abs(reported) * 0.00000001;
    if relative > 0.00000001 then relative else 0.00000001
  }

  predicate EconomicsMatch(observed: real, reported: real) {
    Abs(observed - reported) <= Tolerance(reported)
  }

  /** Rounding an amount that is already at the quantum changes nothing. */
  lemma RoundIsIdempotent(units: int)
    ensures Round(Value(units)) == units
  {
    assert Value(units) * SCALE == units as real;
    assert -Value(units) * SCALE == (-units) as real;
  }

  /** Rounding moves an amount by at most half a quantum. */
  lemma RoundIsClose(x: real)
    ensures Abs(Value(Round(x)) - x) <= 0.000000005
  {
    assert Value(Round(x)) * SCALE == Round(x) as real;
  }

  /** Half a quantum rounds away from zero, on both sides. */
  lemma TiesAwayFromZero(units: nat)
    ensures Round(Value(units) + 0.000000005) == units + 1 && Round(-(Value(units) + 0.000000005)) == -(units + 1)
  {
    var x := Value(units) + 0.000000005;
    assert x * SCALE == units as real + 0.5;
    assert -(-x) * SCALE == units as real + 0.5;
  }

  /** Exactly which amounts fit the column: up to 999999999999.99999999 in size, positive where that is asked. */
  lemma CanonicalIff(x: real, positive: bool)
    ensures Canonical(x, positive).Some?
            <==> -99999999999999999999 <= Round(x) <= 99999999999999999999 && (positive ==> Round(x) >= 1)
    ensures Canonical(x, positive).Some? ==> Canonical(x, positive).value == Round(x)
  {
    hide Round;
  }
}
