/** Small vocabulary shared by all modules. */
module Common {
  datatype Option<+T> = None | Some(value: T)

  function Abs(x: real): real {
    if x < 0.0 then -x else x
  }

  function Min(a: real, b: real): real {
    if b < a then b else a
  }

  /** The average times the quantity is the value, and nothing has no average. */
  ghost predicate IsAverage(average: real, quantity: real, value: real) {
    average * quantity == value && (quantity == 0.0 ==> average == 0.0)
  }

  lemma QuotientIsAverage(value: real, quantity: real)
    requires quantity != 0.0
    ensures IsAverage(value / quantity, quantity, value)
  {
  }

  /** The value of a quantity bought at prices between two bounds. */
  ghost predicate Between(lo: real, hi: real, quantity: real, value: real) {
    lo * quantity <= value <= hi * quantity
  }

  lemma BetweenNothing(lo: real, hi: real)
    ensures Between(lo, hi, 0.0, 0.0)
  {
  }

  lemma BetweenStep(lo: real, hi: real, q: real, p: real, quantity: real, value: real)
    requires q > 0.0 && lo <= p <= hi && Between(lo, hi, quantity, value)
    ensures Between(lo, hi, quantity + q, value + q * p)
  {
    assert lo * (quantity + q) == lo * quantity + lo * q && hi * (quantity + q) == hi * quantity + hi * q;
    assert (p - lo) * q >= 0.0 && (hi - p) * q >= 0.0;
  }

  /** An average of values that lie between two prices times the quantity lies between the two prices. */
  lemma AverageBetween(average: real, quantity: real, value: real, lo: real, hi: real)
    requires IsAverage(average, quantity, value) && quantity > 0.0 && Between(lo, hi, quantity, value)
    ensures lo <= average <= hi
  {
    assert (average - lo) * quantity >= 0.0 && (hi - average) * quantity >= 0.0;
  }
}
