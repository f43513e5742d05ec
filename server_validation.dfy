/**
 * The request-body validators of the server (backend/utils/validations.js).
 * A request value is modelled by the JavaScript shapes the validators tell apart.
 */
module ServerValidation {
  import opened Text

  /** A number after JavaScript's numeric coercion: an integer, or NaN when nothing could be parsed. */
  datatype Numeric = Int(value: int) | NaN

  /**
   * A value found in a parsed JSON request body. Arrays carry elements of type `E`;
   * the validators only look at whether a value is an array and at its length.
   */
  datatype JsValue<E> = Undefined | Null | Bool(b: bool) | Num(n: Numeric) | Str(s: string) | Arr(items: seq<E>) | Obj

  /** A string whose trimmed length lies within [minLength, maxLength]; anything that is not a string fails. */
  predicate IsValidText<E>(value: JsValue<E>, minLength: int := 1, maxLength: int := 100)
  {
    value.Str? && |Trim(value.s)| >= minLength && |Trim(value.s)| <= maxLength
  }

  /** `+value` is not NaN and is at least `min`. */
  predicate IsValidNumber(value: Numeric, min: int := 1)
  {
    value.Int? && value.value >= min
  }

  predicate IsAnArray<E>(value: JsValue<E>)
  {
    value.Arr?
  }

  predicate IsNonEmptyArray<E>(value: JsValue<E>)
  {
    IsAnArray(value) && |value.items| > 0
  }

  /** Every value that is not a string is rejected, whatever the bounds. */
  lemma NonStringIsInvalidText<E>(value: JsValue<E>, minLength: int, maxLength: int)
    requires !value.Str?
    ensures !IsValidText(value, minLength, maxLength)
  {
  }

  /** The verdict depends only on the trimmed text: whitespace padding never changes it. */
  lemma ValidTextIgnoresPadding<E>(pre: string, s: string, post: string, minLength: int, maxLength: int)
    requires AllSpace(pre) && AllSpace(post)
    ensures IsValidText(JsValue<E>.Str(pre + s + post), minLength, maxLength)
        == IsValidText(JsValue<E>.Str(s), minLength, maxLength)
  {
    TrimPadding(pre, s, post);
  }

  /** Under the default bounds [1, 100] a whitespace-only string is rejected. */
  lemma BlankIsInvalidTextByDefault<E>(s: string)
    requires AllSpace(s)
    ensures !IsValidText(JsValue<E>.Str(s))
  {
  }

  /** Widening the bounds keeps every accepted text accepted. */
  lemma ValidTextWidening<E>(value: JsValue<E>, lo: int, hi: int, lo': int, hi': int)
    requires IsValidText(value, lo, hi) && lo' <= lo && hi <= hi'
    ensures IsValidText(value, lo', hi')
  {
  }

  /**
   * Lowering the minimum keeps every accepted number accepted, so an id valid under the
   * default minimum of 1 stays valid for any smaller bound; NaN is rejected at every minimum.
   */
  lemma ValidNumberLowering(value: Numeric, min: int, min': int)
    requires IsValidNumber(value, min) && min' <= min
    ensures IsValidNumber(value, min')
    ensures !IsValidNumber(NaN, min')
  {
  }
}
