/** The two mode flags that steer where the digits of a number literal go
    (src/parser/helpers.rs). The Rust setters mutate `self`; here each
    returns the updated state. */
module Helpers {

  /** `NumberState { exponent, decimal }`. Nothing keeps the two flags
      exclusive: `SetDec(SetExp(st, true), true)` has both set. */
  datatype NumberState = NumberState(exponent: bool, decimal: bool)

  /** `NumberState::new()`: neither flag is set. */
  function NewState(): (st: NumberState)
    ensures !st.exponent && !st.decimal
  {
    NumberState(false, false)
  }

  /** `set_exp(val)`: entering exponent mode leaves decimal mode; leaving
      exponent mode does not touch the decimal flag. */
  function SetExp(st: NumberState, val: bool): (r: NumberState)
    ensures r.exponent == val
    ensures val ==> !r.decimal
    ensures !val ==> r.decimal == st.decimal
  {
    NumberState(val, if val then false else st.decimal)
  }

  /** `set_dec(val)`: only the decimal flag changes. */
  function SetDec(st: NumberState, val: bool): (r: NumberState)
    ensures r.decimal == val
    ensures r.exponent == st.exponent
  {
    NumberState(st.exponent, val)
  }

  /** Both setters are idempotent: a second call with the same argument
      changes nothing. */
  lemma SettersIdempotent(st: NumberState, val: bool)
    ensures SetExp(SetExp(st, val), val) == SetExp(st, val)
    ensures SetDec(SetDec(st, val), val) == SetDec(st, val)
  {
  }

  /** There is no "at most one flag" invariant: `e` followed by `.` sets
      both. */
  lemma BothFlagsReachable()
    ensures SetDec(SetExp(NewState(), true), true) == NumberState(true, true)
  {
  }
}
