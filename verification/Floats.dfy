/** The shapes of a float64: not a number, the infinities, or a finite value, kept as a real. */
module Floats {
  datatype Float = NaN | PosInf | NegInf | Fin(value: real)
}
