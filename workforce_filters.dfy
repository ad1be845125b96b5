/** The two arithmetic template filters of the workforce pages. */
module WorkforceFilters {

  /** `subtract`: value minus arg; adding arg back gives value. */
  function Subtract(value: real, arg: real): (r: real)
    ensures r + arg == value
  {
    value - arg
  }

  /** `divide`: 0 for a zero divisor instead of an error, the quotient otherwise. */
  function Divide(value: real, arg: real): (r: real)
    ensures arg == 0.0 ==> r == 0.0
    ensures arg != 0.0 ==> r * arg == value
  {
    if arg == 0.0 then 0.0 else value / arg
  }

  /** Dividing and multiplying back recovers the value exactly when the divisor is not 0. */
  lemma DivideRoundTrip(value: real, arg: real)
    ensures Divide(value, arg) * arg == value <==> arg != 0.0 || value == 0.0
  {
  }
}
