/**
  Numbers (src/math.rs). `Number` is Rust's `f32`; the model keeps its 32-bit
  pattern and never interprets it. Fixed-precision decimal formatting
  (`{:.prec$}`) is not modelled: every writer that formats a number takes the
  formatter as a parameter.
*/
module Math {

  /** The bit pattern of an `f32`. */
  type Number = bv32

  /** `format!("{:.prec$}", x)`: the text of `x` with `prec` decimals, left uninterpreted. */
  type Formatter = (Number, nat) -> string

  /** A number the checked constructor accepted (not NaN, not infinite, sign bit clear). */
  datatype PositiveNumber = PositiveNumber(inner: Number)

  /** The written form of a positive number: its value formatted at the given precision. */
  function PositiveNumberText(n: PositiveNumber, precision: nat, fmt: Formatter): (r: string)
    ensures r == fmt(n.inner, precision)
  {
    fmt(n.inner, precision)
  }
}
