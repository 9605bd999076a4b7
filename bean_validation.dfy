/**
 * The Bean Validation constraints the request classes carry, as predicates over
 * a possibly-null field. As in the Bean Validation standard, @Min, @Max and
 * @Size accept null; only @NotNull and @NotBlank reject it.
 */
module BeanValidation {
  import opened Wrappers

  /** @NotNull */
  predicate NotNull<T>(v: Option<T>) { v.Some? }

  /** @Min(bound) */
  predicate Min(v: Option<int>, bound: int) { v.None? || v.value >= bound }

  /** @Max(bound) */
  predicate Max(v: Option<int>, bound: int) { v.None? || v.value <= bound }

  /** @Size(min, max) on a string: its length, when it is not null. */
  predicate Size(v: Option<string>, min: nat, max: nat) {
    v.None? || min <= |v.value| <= max
  }

  /** A null field passes every constraint here except @NotNull and @NotBlank. */
  lemma NullHandling(min: int, max: int, minSize: nat, maxSize: nat)
    ensures !NotNull<int>(None) && !NotBlank(None)
    ensures Min(None, min) && Max(None, max) && Size(None, minSize, maxSize)
  {
  }

  /** `String.trim()` without its trailing part: drops leading characters up to and including ' '. */
  function TrimStart(s: string): (r: string)
    ensures r == [] <==> forall i :: 0 <= i < |s| ==> s[i] <= ' '
    ensures r != [] ==> r[0] > ' '
  {
    if s == [] then []
    else if s[0] <= ' ' then TrimStart(s[1..])
    else s
  }

  /** `String.trim()` without its leading part: drops trailing characters up to and including ' '. */
  function TrimEnd(s: string): (r: string)
    ensures r == [] <==> forall i :: 0 <= i < |s| ==> s[i] <= ' '
  {
    if s == [] then []
    else if s[|s| - 1] <= ' ' then TrimEnd(s[..|s| - 1])
    else s
  }

  /** `String.trim()`. */
  function Trim(s: string): string {
    TrimEnd(TrimStart(s))
  }

  /**
   * @NotBlank: not null, and not empty once trimmed. Equivalently, some
   * character is above ' '.
   */
  function NotBlank(v: Option<string>): (b: bool)
    ensures b <==> v.Some? && exists i :: 0 <= i < |v.value| && v.value[i] > ' '
  {
    v.Some? && |Trim(v.value)| > 0
  }
}
