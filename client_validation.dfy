/** The form validators of the client (src/util/validation.js). */
module ClientValidation {
  import opened Text

  /** Something other than whitespace is left after trimming. */
  predicate IsNotEmpty(value: string) {
    Trim(value) != ""
  }

  /** The untrimmed length reaches `minLength`. */
  predicate HasMinLength(value: string, minLength: int) {
    |value| >= minLength
  }

  predicate IsEqualsToOtherValue(value: string, otherValue: string) {
    value == otherValue
  }

  /** A value is non-empty exactly when one of its characters is not whitespace. */
  lemma NotEmptyMeansNonSpace(value: string)
    ensures IsNotEmpty(value) <==> exists i :: 0 <= i < |value| && !IsSpace(value[i])
  {
  }

  /** A length bound that holds also holds for every smaller bound, and a bound of 0 always holds. */
  lemma MinLengthMonotone(value: string, n: int, m: int)
    requires HasMinLength(value, n) && m <= n
    ensures HasMinLength(value, m) && HasMinLength(value, 0)
  {
  }

  /** A non-empty value has at least one character. */
  lemma NotEmptyHasLengthOne(value: string)
    requires IsNotEmpty(value)
    ensures HasMinLength(value, 1)
  {
  }

  /**
   * Unlike the other validators, the comparison does not trim: a copy with leading
   * whitespace trims to the same text, yet is not equal to the original.
   */
  lemma PaddedCopyIsNotEqual(pre: string, value: string)
    requires pre != [] && AllSpace(pre)
    ensures Trim(pre + value) == Trim(value)
    ensures !IsEqualsToOtherValue(pre + value, value)
  {
    assert AllSpace([]);
    assert pre + value + [] == pre + value;
    TrimPadding(pre, value, []);
    assert |pre + value| > |value|;
  }
}
