/**
 * Small shared vocabulary: an optional value, a byte, and the character
 * classes the C side of the tracer relies on (its strings are NUL-terminated
 * byte arrays, modelled here as `string` values without the terminator).
 */
module Base {

  /**
   * The conventional Some/None datatype, standing in for a nullable result;
   * usable with `:-` so that readers can be chained.
   */
  datatype Option<+T> = None | Some(value: T) {
    predicate IsFailure() {
      None?
    }

    function PropagateFailure<U>(): Option<U>
      requires None?
    {
      None
    }

    function Extract(): T
      requires Some?
    {
      value
    }
  }

  /** A value or an error, as a Rust `Result`. */
  datatype Result<+T, +E> = Ok(value: T) | Err(error: E) {
    predicate IsFailure() {
      Err?
    }

    function PropagateFailure<U>(): Result<U, E>
      requires Err?
    {
      Err(error)
    }

    function Extract(): T
      requires Ok?
    {
      value
    }
  }

  /** One unsigned byte. */
  type byte = b: int | 0 <= b < 256

  /**
   * The characters the JSON escaper is defined for: ASCII without NUL.
   * A NUL cannot occur inside a C string, and bytes above 127 reach
   * `isprint` as negative `char` values, which C leaves undefined.
   */
  predicate IsAsciiChar(c: char) {
    1 <= c as int <= 127
  }

  predicate Ascii(s: string) {
    forall i :: 0 <= i < |s| ==> IsAsciiChar(s[i])
  }

  predicate AllAscii(ss: seq<string>) {
    forall i :: 0 <= i < |ss| ==> Ascii(ss[i])
  }

  /** C's `isprint` in the "C" locale: space through tilde. */
  predicate IsPrint(c: char) {
    0x20 <= c as int <= 0x7E
  }

  /** True when `c` does not occur in `s`. */
  predicate Lacks(s: string, c: char) {
    forall i :: 0 <= i < |s| ==> s[i] != c
  }
}
