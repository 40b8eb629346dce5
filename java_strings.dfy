/**
 * The part of `java.lang.String.equalsIgnoreCase` that the timezone lookup relies on:
 * comparing a string with a target made only of ASCII lower-case letters, such as
 * the sentinel "undefined".
 *
 * Java compares two characters c1, c2 as equal ignoring case when
 * c1 == c2, or toUpperCase(c1) == toUpperCase(c2), or
 * toLowerCase(toUpperCase(c1)) == toLowerCase(toUpperCase(c2)).
 * For an ASCII lower-case target t this holds exactly for t itself, its upper-case
 * letter, and four non-ASCII characters of the Unicode database:
 * U+0130 and U+0131 (for 'i'), U+017F (for 's') and U+212A (for 'k').
 */
module JavaStrings {

  /** The sentinel the worker uses for "no timezone yet". */
  const Undefined: string := "undefined"

  predicate IsAsciiLower(c: char)
  {
    'a' <= c <= 'z'
  }

  predicate AllAsciiLower(s: string)
  {
    forall i :: 0 <= i < |s| ==> IsAsciiLower(s[i])
  }

  /** The upper-case letter of an ASCII lower-case letter. */
  function AsciiUpper(c: char): (u: char)
    requires IsAsciiLower(c)
    ensures 'A' <= u <= 'Z' && u != c
    ensures u as int + 32 == c as int
  {
    (c as int - 32) as char
  }

  /** Java's character comparison ignoring case, for an ASCII lower-case target `t`. */
  predicate CharEqualsIgnoreCase(c: char, t: char)
    requires IsAsciiLower(t)
  {
    || c == t
    || c == AsciiUpper(t)
    || (t == 'i' && (c == '\U{0130}' || c == '\U{0131}'))
    || (t == 's' && c == '\U{017F}')
    || (t == 'k' && c == '\U{212A}')
  }

  /** `s.equalsIgnoreCase(target)` for a target of ASCII lower-case letters. */
  predicate EqualsIgnoreCase(s: string, target: string)
    requires AllAsciiLower(target)
  {
    |s| == |target| && forall i :: 0 <= i < |s| ==> CharEqualsIgnoreCase(s[i], target[i])
  }

  /** `s.equalsIgnoreCase("undefined")`. */
  predicate IsUndefined(s: string)
  {
    EqualsIgnoreCase(s, Undefined)
  }

  /**
   * The strings Java's `equalsIgnoreCase` accepts as "undefined": nine characters, each
   * the sentinel's letter in either case, where the 'i' may also be U+0130 or U+0131.
   */
  lemma UndefinedSpellings(s: string)
    ensures IsUndefined(s) <==>
      && |s| == 9
      && s[0] in {'u', 'U'} && s[1] in {'n', 'N'} && s[2] in {'d', 'D'}
      && s[3] in {'e', 'E'} && s[4] in {'f', 'F'}
      && s[5] in {'i', 'I', '\U{0130}', '\U{0131}'}
      && s[6] in {'n', 'N'} && s[7] in {'e', 'E'} && s[8] in {'d', 'D'}
  {
  }

  /** The sentinel in lower case, in upper case and with a dotless i all count as "undefined"; a timezone id does not. */
  lemma SomeSpellings()
    ensures IsUndefined("undefined") && IsUndefined("UNDEFINED") && IsUndefined("Undefined")
    ensures IsUndefined("undef\U{0131}ned")
    ensures !IsUndefined("Europe/Berlin") && !IsUndefined("undefine") && !IsUndefined("")
  {
    assert !CharEqualsIgnoreCase('E', 'u');
  }
}
