/** The System.Double constants the matcher compares against, as exact reals. */
module Doubles {

  /** double.MaxValue. */
  const MaxValue: real := 1.7976931348623157e308

  /** double.MinValue, the negation of double.MaxValue. */
  const MinValue: real := -MaxValue
}
