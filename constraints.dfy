/** The Bean Validation (JSR 380) constraints used on the payload classes,
    as Hibernate Validator evaluates them on a non-null value. */
module Constraints {

  /** @NotBlank: the string is non-empty after `trim()`, which strips every
      character up to and including U+0020. */
  predicate NotBlank(s: string) {
    exists i :: 0 <= i < |s| && s[i] > ' '
  }

  /** @Length(min, max) / @Size(min, max) on a string: bounds on its length, inclusive. */
  predicate LengthBetween(s: string, min: int, max: int) {
    min <= |s| <= max
  }

  /** @Range(min, max), and @Min(min) with @Max(max), on an Int: inclusive bounds. */
  predicate InRange(x: int, min: int, max: int) {
    min <= x <= max
  }
}
