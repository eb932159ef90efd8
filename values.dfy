/**
 * The values the bridge handles: what the register transport decodes
 * (Python int, float, bool and str) and the part of Python's arithmetic
 * the metric derivation uses. Every operator returns None where Python
 * raises (a TypeError on a string operand, a ZeroDivisionError), which
 * is how the all-or-nothing failure of a category read comes about.
 * Floats are modelled as exact reals: no rounding, no NaN, no infinity.
 */
module Values {
  import opened Wrappers

  datatype Scalar = Int(i: int) | Float(x: real) | Bool(b: bool) | Str(s: string)

  /** One decoded register: its typed value plus whatever metadata the
      transport attaches (unit, name, ...), forwarded untouched. */
  datatype RegisterValue = RegisterValue(value: Scalar, meta: map<string, Scalar>)

  /** What one register read returns: register id to decoded value. */
  type RawSet = map<string, RegisterValue>

  /** Python's bool is a subclass of int, so only strings are not numbers. */
  predicate IsNumber(v: Scalar) {
    !v.Str?
  }

  /** The numeric value of a number. */
  function Real(v: Scalar): real
    requires IsNumber(v)
  {
    if v.Int? then v.i as real
    else if v.Float? then v.x
    else if v.b then 1.0 else 0.0
  }

  /** The integer value of an int or a bool. */
  function Whole(v: Scalar): int
    requires v.Int? || v.Bool?
  {
    if v.Int? then v.i else if v.b then 1 else 0
  }

  /** Python `a + b`: numbers add (int unless a float is involved),
      two strings concatenate, a string with a number is a TypeError. */
  function Add(a: Scalar, b: Scalar): (r: Option<Scalar>)
    ensures IsNumber(a) && IsNumber(b) ==>
              r.Some? && IsNumber(r.value) && Real(r.value) == Real(a) + Real(b)
              && (if a.Float? || b.Float? then r.value.Float? else r.value.Int?)
    ensures a.Str? && b.Str? ==> r == Some(Str(a.s + b.s))
    ensures a.Str? != b.Str? ==> r.None?
  {
    if a.Str? && b.Str? then Some(Str(a.s + b.s))
    else if a.Str? || b.Str? then None
    else if a.Float? || b.Float? then Some(Float(Real(a) + Real(b)))
    else Some(Int(Whole(a) + Whole(b)))
  }

  /** Python `a - b`: defined on numbers only. */
  function Sub(a: Scalar, b: Scalar): (r: Option<Scalar>)
    ensures r.Some? <==> IsNumber(a) && IsNumber(b)
    ensures r.Some? ==>
              IsNumber(r.value) && Real(r.value) == Real(a) - Real(b)
              && (if a.Float? || b.Float? then r.value.Float? else r.value.Int?)
  {
    if a.Str? || b.Str? then None
    else if a.Float? || b.Float? then Some(Float(Real(a) - Real(b)))
    else Some(Int(Whole(a) - Whole(b)))
  }

  /** Python true division `a / b`: always a float, and a
      ZeroDivisionError when the divisor is zero. */
  function Div(a: Scalar, b: Scalar): (r: Option<Scalar>)
    ensures r.Some? <==> IsNumber(a) && IsNumber(b) && Real(b) != 0.0
    ensures r.Some? ==> r.value == Float(Real(a) / Real(b))
  {
    if a.Str? || b.Str? || Real(b) == 0.0 then None
    else Some(Float(Real(a) / Real(b)))
  }

  /** Python `k * a` for an int literal `k` and a number `a`. */
  function Times(k: int, a: Scalar): (r: Scalar)
    requires IsNumber(a)
    ensures IsNumber(r) && Real(r) == k as real * Real(a)
    ensures if a.Float? then r.Float? else r.Int?
  {
    if a.Float? then Float(k as real * a.x) else Int(k * Whole(a))
  }

  /** Python `a > 0`: a TypeError on a string. */
  function Positive(a: Scalar): (r: Option<bool>)
    ensures r.Some? <==> IsNumber(a)
    ensures r.Some? ==> (r.value <==> Real(a) > 0.0)
  {
    if a.Str? then None else Some(Real(a) > 0.0)
  }
}
