/** The few Kotlin/JVM runtime notions the app's logic relies on:
    64-bit `Long` with two's-complement wrap-around, nullable values,
    `kotlin.Result` and an exception that may or may not carry a message. */
module KotlinCore {

  const LONG_MIN: int := -0x8000_0000_0000_0000
  const LONG_MAX: int := 0x7FFF_FFFF_FFFF_FFFF
  const LONG_MODULUS: int := 0x1_0000_0000_0000_0000

  /** Kotlin's `Long`. */
  type Long = x: int | LONG_MIN <= x <= LONG_MAX

  /** The `Long` that the JVM produces for the mathematical value `x`
      (arithmetic modulo 2^64, two's complement). */
  function WrapLong(x: int): (r: Long)
    ensures (r - x) % LONG_MODULUS == 0
    ensures LONG_MIN <= x <= LONG_MAX ==> r == x
  {
    (x - LONG_MIN) % LONG_MODULUS + LONG_MIN
  }

  /** A Kotlin nullable value `T?`. */
  datatype Option<+T> = None | Some(value: T) {
    /** The elvis operator `this ?: default`. */
    function GetOr(default: T): T {
      match this
      case Some(v) => v
      case None => default
    }
  }

  /** A `Throwable`; `message` is nullable in Kotlin. */
  datatype Exception = Exception(message: Option<string>)

  /** `kotlin.Result<T>`. */
  datatype Result<+T> = Success(value: T) | Failure(error: Exception)
}
