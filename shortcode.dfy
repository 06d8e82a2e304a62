/**
 * The shortcode normaliser and validator of src/utils/shortcode.ts.
 * The same character class `[a-zA-Z0-9_-]` is written out again inside
 * createLink.ts and createBatchLinks.ts; those handlers use `MatchesPattern`.
 */
module ShortCode {
  import opened Wrappers
  import opened Text

  /** A member of the character class `[a-zA-Z0-9_-]`. */
  predicate PatternChar(c: char) {
    'a' <= c <= 'z' || 'A' <= c <= 'Z' || '0' <= c <= '9' || c == '_' || c == '-'
  }

  /** `/^[a-zA-Z0-9_-]+$/.test(s)`: one or more characters, all from the class. */
  predicate MatchesPattern(s: string) {
    |s| > 0 && forall i :: 0 <= i < |s| ==> PatternChar(s[i])
  }

  /** A string the pattern accepts holds neither a slash nor whitespace. */
  lemma PatternExcludes(s: string)
    requires MatchesPattern(s)
    ensures '/' !in s
    ensures forall i :: 0 <= i < |s| ==> !IsWhitespace(s[i])
  {
  }

  /** Lower-casing keeps a string inside the pattern. */
  lemma {:induction false} LowerKeepsPattern(s: string)
    requires MatchesPattern(s)
    ensures MatchesPattern(ToLower(s))
  {
    forall i | 0 <= i < |s| ensures PatternChar(ToLower(s)[i]) {
      assert ToLower(s)[i] == LowerChar(s[i]);
    }
  }

  /**
   * `normalizeShortCode`: absent or blank input has no normal form; otherwise
   * the normal form is the trimmed input, lower-cased.
   */
  function Normalize(input: Option<string>): (r: Option<string>)
    ensures r.None? <==> input.None? || forall i :: 0 <= i < |input.value| ==> IsWhitespace(input.value[i])
    ensures r.Some? ==> r.value == ToLower(Trim(input.value))
  {
    if input.None? then None
    else
      var trimmed := Trim(input.value);
      if trimmed == [] then None
      else Some(ToLower(trimmed))
  }

  /** A normal form is non-empty, has no whitespace at either end and no upper-case letter. */
  lemma NormalFormShape(input: Option<string>)
    requires Normalize(input).Some?
    ensures var n := Normalize(input).value;
      Unpadded(n) && NoUpper(n)
  {
    var trimmed := Trim(input.value);
    assert trimmed != [] && Normalize(input).value == ToLower(trimmed);
    LowerHasNoUpper(trimmed);
    LowerOfTrimmed(trimmed);
  }

  /** Normalising a normal form changes nothing. */
  lemma NormalizeIdempotent(input: Option<string>)
    requires Normalize(input).Some?
    ensures Normalize(Normalize(input)) == Normalize(input)
  {
    var n := Normalize(input).value;
    NormalFormShape(input);
    TrimOfTrimmed(n);
    LowerOfNoUpper(n);
  }

  /**
   * `isValidShortCode`: the trimmed input matches the pattern. Absent and
   * blank input are invalid, and the explicit slash test adds nothing to the
   * pattern.
   */
  function IsValid(input: Option<string>): (r: bool)
    ensures r <==> input.Some? && MatchesPattern(Trim(input.value))
    ensures input.None? || Trim(input.value) == [] ==> !r
  {
    if input.None? then false
    else
      var trimmed := Trim(input.value);
      if trimmed == [] then false
      else if '/' in trimmed then false
      else MatchesPattern(trimmed)
  }

  /** A valid code has a normal form, and that normal form is valid too. */
  lemma ValidNormalizes(input: Option<string>)
    requires IsValid(input)
    ensures Normalize(input).Some?
    ensures IsValid(Normalize(input))
    ensures MatchesPattern(Normalize(input).value)
  {
    var trimmed := Trim(input.value);
    LowerKeepsPattern(trimmed);
    var n := ToLower(trimmed);
    PatternExcludes(n);
    TrimOfTrimmed(n);
  }
}
