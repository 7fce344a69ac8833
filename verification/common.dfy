/** Shared vocabulary of the model: optional values (the C# `null`), nullable
    strings and the string tests the controllers use, and 32-bit integers. */
module Common {

  /** A value that may be absent; `None` plays the role of C#'s `null`. */
  datatype Option<+T> = None | Some(value: T) {

    /** The value, or `default` when absent (the C# `??` operator). */
    function GetOr(default: T): T {
      match this
      case Some(v) => v
      case None => default
    }
  }

  /** The outcome of an operation that either produces a value or fails with
      the error the source would raise. */
  datatype Result<+T, +E> = Ok(value: T) | Err(error: E)

  /** What a controller action leaves behind: the record (or table) it saved,
      or one of the early exits. `Threw` carries what had already been saved
      when the action raised an exception; `Crashed` is an exception raised
      before anything was saved. */
  datatype Reply<+S> =
    | Done(state: S)
    | NotFound
    | Forbidden
    | Invalid
    | ProfileRequired
    | Refused(reason: string)
    | Threw(saved: S)
    | Crashed

  /** A C# `string` reference, which may be null. */
  type NullableString = Option<string>

  /** `string.IsNullOrEmpty`. */
  predicate IsNullOrEmpty(s: NullableString) {
    s.None? || |s.value| == 0
  }

  /** `char.IsWhiteSpace`: the Unicode space separators plus the line and
      paragraph separators and the control characters U+0009 to U+000D and U+0085. */
  predicate IsWhiteSpace(c: char) {
    || c == ' '
    || ('\t' <= c <= '\r')
    || c == '\U{0085}'
    || c == '\U{00A0}'
    || c == '\U{1680}'
    || ('\U{2000}' <= c <= '\U{200A}')
    || c == '\U{2028}'
    || c == '\U{2029}'
    || c == '\U{202F}'
    || c == '\U{205F}'
    || c == '\U{3000}'
  }

  /** True when every character of `s` is white space (vacuously for ""). */
  predicate AllWhiteSpace(s: string) {
    forall i :: 0 <= i < |s| ==> IsWhiteSpace(s[i])
  }

  /** `string.IsNullOrWhiteSpace`. */
  predicate IsNullOrWhiteSpace(s: NullableString) {
    s.None? || AllWhiteSpace(s.value)
  }

  /** A `[Required]` string passes validation: present and not only white space. */
  predicate RequiredOk(s: NullableString) {
    !IsNullOrWhiteSpace(s)
  }

  /** String interpolation of a nullable string: null renders as "". */
  function Render(s: NullableString): string {
    s.GetOr("")
  }

  /** The range of a C# `int`. */
  const MinInt32: int := -0x8000_0000
  const MaxInt32: int := 0x7FFF_FFFF

  predicate IsInt32(x: int) {
    MinInt32 <= x <= MaxInt32
  }

  /** Two's-complement wrap-around of unchecked C# `int` arithmetic. */
  function WrapInt32(x: int): (r: int)
    ensures IsInt32(r)
    ensures (x - r) % 0x1_0000_0000 == 0
    ensures IsInt32(x) ==> r == x
  {
    (x - MinInt32) % 0x1_0000_0000 + MinInt32
  }

  /** `a += b` on two C# `int`s in an unchecked context. */
  function AddInt32(a: int, b: int): int {
    WrapInt32(a + b)
  }
}
