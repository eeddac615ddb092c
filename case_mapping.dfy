/**
 Per-character case mapping, as used by `strings.ToLower` (in `clean`) and
 `strings.ToUpper` (on the country code in `Aliases.Find`).

 Go maps every rune through the Unicode case tables. This model covers the
 letters of ASCII and Latin-1; every other character is left as it is.
 */
module CaseMapping {

  /**
   Lower-case mapping of one character: a capital becomes the small letter
   whose capital it is; every other character stays as it is.
   */
  function LowerChar(c: char): (r: char)
    ensures !IsUpperLetter(r)
    ensures IsUpperLetter(c) ==> HasUpperCase(r) && UpperChar(r) == c
    ensures !IsUpperLetter(c) ==> r == c
  {
    if IsUpperLetter(c) then c + ('a' - 'A') else c
  }

  /**
   Upper-case mapping of one character: the result has no capital of its
   own, a small letter of Latin-1 becomes a capital of Latin-1 (ÿ and µ have
   theirs outside it), and every other character stays as it is.
   */
  function UpperChar(c: char): (r: char)
    ensures !HasUpperCase(r)
    ensures HasUpperCase(c) && c != '\U{FF}' && c != '\U{B5}' ==> IsUpperLetter(r)
    ensures c == '\U{FF}' ==> r == '\U{178}'
    ensures c == '\U{B5}' ==> r == '\U{39C}'
    ensures !HasUpperCase(c) ==> r == c
  {
    if 'a' <= c <= 'z' || ('\U{E0}' <= c <= '\U{FE}' && c != '\U{F7}') then c - ('a' - 'A')
    else if c == '\U{FF}' then '\U{178}'  // y with diaeresis has its capital outside Latin-1
    else if c == '\U{B5}' then '\U{39C}'  // micro sign upper-cases to Greek capital mu
    else c
  }

  /** Characters that LowerChar changes: A-Z and the Latin-1 capitals (not the multiplication sign). */
  predicate IsUpperLetter(c: char) {
    'A' <= c <= 'Z' || ('\U{C0}' <= c <= '\U{DE}' && c != '\U{D7}')
  }

  /** Characters that UpperChar changes: the small letters of ASCII and Latin-1 that have a capital (not ß). */
  predicate HasUpperCase(c: char) {
    'a' <= c <= 'z' || ('\U{E0}' <= c <= '\U{FF}' && c != '\U{F7}') || c == '\U{B5}'
  }

  /** `strings.ToLower`: the string mapped rune by rune. */
  function Lower(s: string): string
  {
    seq(|s|, i requires 0 <= i < |s| => LowerChar(s[i]))
  }

  /** `strings.ToUpper`: the string mapped rune by rune. */
  function Upper(s: string): string
  {
    seq(|s|, i requires 0 <= i < |s| => UpperChar(s[i]))
  }

  /** A lower-cased character is not changed by lower-casing it again. */
  lemma LowerCharIdempotent(c: char)
    ensures LowerChar(LowerChar(c)) == LowerChar(c)
    ensures !IsUpperLetter(LowerChar(c))
  {
  }

  /** An upper-cased character is not changed by upper-casing it again. */
  lemma UpperCharIdempotent(c: char)
    ensures UpperChar(UpperChar(c)) == UpperChar(c)
    ensures !HasUpperCase(UpperChar(c))
  {
  }

  /** Lower-casing works character by character, so it distributes over concatenation. */
  lemma LowerAppend(a: string, b: string)
    ensures Lower(a + b) == Lower(a) + Lower(b)
  {
  }

  /** Upper-casing twice is upper-casing once. */
  lemma UpperIdempotent(s: string)
    ensures Upper(Upper(s)) == Upper(s)
  {
    forall i | 0 <= i < |s|
      ensures Upper(Upper(s))[i] == Upper(s)[i]
    {
      UpperCharIdempotent(s[i]);
    }
  }

  /**
   Text within Latin-1: the characters on which these case tables agree with
   Go's. Outside it Go maps, for instance, U+0130 and the Kelvin sign U+212A to
   small letters whose capitals are not the original.
   */
  predicate Latin1(s: string) {
    forall i :: 0 <= i < |s| ==> s[i] < '\U{100}'
  }

  /** Within Latin-1, upper-casing a lower-cased character gives the upper case of the original. */
  lemma UpperOfLowerChar(c: char)
    requires c < '\U{100}'
    ensures UpperChar(LowerChar(c)) == UpperChar(c)
  {
  }

  /** Within Latin-1, upper-casing ignores a previous lower-casing: codes that differ only in case upper-case alike. */
  lemma UpperOfLowerString(s: string)
    requires Latin1(s)
    ensures Upper(Lower(s)) == Upper(s)
  {
    forall i | 0 <= i < |s|
      ensures Upper(Lower(s))[i] == Upper(s)[i]
    {
      UpperOfLowerChar(s[i]);
    }
  }

  /** A code of ASCII capitals survives lower-casing followed by upper-casing. */
  lemma UpperOfLower(s: string)
    requires forall i :: 0 <= i < |s| ==> 'A' <= s[i] <= 'Z'
    ensures Upper(Lower(s)) == s
  {
  }

  /** The two mappings undo each other on letters: a capital comes back from its small letter, and the reverse. */
  lemma CaseRoundTrip(c: char)
    ensures IsUpperLetter(c) ==> HasUpperCase(LowerChar(c)) && UpperChar(LowerChar(c)) == c
    ensures HasUpperCase(c) && c != '\U{FF}' && c != '\U{B5}' ==> IsUpperLetter(UpperChar(c)) && LowerChar(UpperChar(c)) == c
  {
  }
}
