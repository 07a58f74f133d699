/**
 * The parts of the JavaScript runtime that the engine relies on but that this
 * model does not interpret: IEEE-754 numbers, the RegExp engine and the
 * conversion of numbers to text. They reach the model as values (the scale
 * factor) and as the fields of a Host (functions supplied by the caller).
 */
module Runtime {
  import opened Wrappers
  import opened JsonValues

  /** A JavaScript number as the scale factor can be: finite, NaN, or an infinity. */
  datatype Factor = Finite(value: real) | NaN | Infinity(negative: bool)

  /** The factor `applyOverrides` uses when none is passed (its only call site passes none). */
  const DefaultFactor: Factor := Finite(1.0)

  /** `scaleFactor === 1 || Number.isNaN(scaleFactor) || scaleFactor <= 0`: the factor that scales nothing. */
  predicate NoScale(f: Factor): (r: bool)
    ensures !r <==> f == Infinity(false) || (f.Finite? && f.value > 0.0 && f.value != 1.0)
  {
    match f
    case Finite(v) => v == 1.0 || v <= 0.0
    case NaN => true
    case Infinity(negative) => negative
  }

  /**
   * regexTest(pattern, flags, subject) is `new RegExp(pattern, flags).test(subject)`,
   * or None when the constructor throws. numberText(n) is `String(n)` for a finite
   * number. scaleText(current, f) is `Math.round(next * 100) / 100` as text, where
   * `next` is computed from the current `style.scale` (parseFloat, Number, the
   * default 100) and the factor.
   */
  datatype Host = Host(
    regexTest: (string, string, string) -> Option<bool>,
    numberText: real -> string,
    scaleText: (Option<Json>, Factor) -> string)
}
