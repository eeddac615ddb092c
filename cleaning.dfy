/**
 The token cleaner `clean` of strip.go: lower-case the text, then delete
 twelve punctuation characters (the space among them). Dictionary keys and
 alias-table keys are cleaned text.
 */
module Cleaning {
  import opened CaseMapping

  /** The characters `clean` deletes, in the order of its `ReplaceAll` calls. */
  const ReplacedChars: seq<char> := ['.', '-', '/', '"', '\U{2019}', '(', ')', '&', '\'', ',', ':', ' ']

  /** The same characters as a set: the punctuation a cleaned phrase never holds. */
  const StrippedChars: set<char> := {'.', '-', '/', '"', '\U{2019}', '(', ')', '&', '\'', ',', ':', ' '}

  /** `s` with every character of `drop` deleted, the others kept in order. */
  function Without(s: string, drop: set<char>): (r: string)
    ensures |r| <= |s|
    ensures forall c :: c in r <==> c in s && c !in drop
  {
    if s == [] then []
    else (if s[0] in drop then [] else [s[0]]) + Without(s[1..], drop)
  }

  /** `strings.ReplaceAll(s, c, "")` for a one-character pattern `c`. */
  function RemoveAll(s: string, c: char): (r: string)
    ensures |r| <= |s|
    ensures c !in r
    ensures forall x :: x in s && x != c ==> x in r
  {
    if s == [] then []
    else (if s[0] == c then [] else [s[0]]) + RemoveAll(s[1..], c)
  }

  /** A chain of `ReplaceAll(s, c, "")` calls, one per character of `cs`, in order. */
  function RemoveEach(s: string, cs: seq<char>): string
    decreases cs
  {
    if cs == [] then s else RemoveEach(RemoveAll(s, cs[0]), cs[1..])
  }

  /** `clean` exactly as strip.go writes it: `ToLower`, then twelve `ReplaceAll` calls. */
  function ReplaceChain(s: string): string
  {
    RemoveEach(Lower(s), ReplacedChars)
  }

  /** What `clean` leaves of one character: its lower-case form, or nothing if that is stripped. */
  function CleanChar(c: char): string
  {
    var l := LowerChar(c);
    if l in StrippedChars then [] else [l]
  }

  /** `clean`, one character at a time. */
  function Clean(s: string): string
  {
    if |s| == 0 then [] else CleanChar(s[0]) + Clean(s[1..])
  }

  /** Cleaned text is no longer than the input and holds no stripped character and no capital. */
  lemma {:induction false} CleanChars(s: string)
    ensures |Clean(s)| <= |s|
    ensures forall c :: c in Clean(s) ==> c !in StrippedChars && !IsUpperLetter(c)
  {
    if |s| > 0 {
      LowerCharIdempotent(s[0]);
      CleanChars(s[1..]);
    }
  }

  /**
   Latin-1 text with no capital and no stripped character is left as it is.
   (Beyond Latin-1, Go lower-cases letters this model leaves alone.)
   */
  lemma {:induction false} CleanKeeps(s: string)
    requires forall i :: 0 <= i < |s| ==> s[i] < '\U{100}' && s[i] !in StrippedChars && !IsUpperLetter(s[i])
    ensures Clean(s) == s
  {
    if |s| > 0 {
      CleanKeeps(s[1..]);
    }
  }

  /** Deleting from `a + b` is deleting from `a` and from `b`. */
  lemma {:induction false} WithoutAppend(a: string, b: string, drop: set<char>)
    ensures Without(a + b, drop) == Without(a, drop) + Without(b, drop)
  {
    if a == [] {
      assert a + b == b;
    } else {
      assert (a + b)[0] == a[0];
      assert (a + b)[1..] == a[1..] + b;
      WithoutAppend(a[1..], b, drop);
    }
  }

  /** Deleting nothing that occurs in `s` leaves `s` as it is. */
  lemma {:induction false} WithoutAbsent(s: string, drop: set<char>)
    requires forall c :: c in s ==> c !in drop
    ensures Without(s, drop) == s
  {
    if s != [] {
      assert s[0] in s;
      assert forall c :: c in s[1..] ==> c in s;
      WithoutAbsent(s[1..], drop);
    }
  }

  /** Deleting one set of characters after another is deleting their union. */
  lemma {:induction false} WithoutWithout(s: string, a: set<char>, b: set<char>)
    ensures Without(Without(s, a), b) == Without(s, a + b)
  {
    if s != [] {
      WithoutWithout(s[1..], a, b);
      var head := if s[0] in a then [] else [s[0]];
      WithoutAppend(head, Without(s[1..], a), b);
    }
  }

  /** A one-character `ReplaceAll` is deletion of that character. */
  lemma {:induction false} RemoveAllIsWithout(s: string, c: char)
    ensures RemoveAll(s, c) == Without(s, {c})
  {
    if s != [] {
      RemoveAllIsWithout(s[1..], c);
    }
  }

  /** A chain of one-character deletions deletes the set of those characters. */
  lemma {:induction false} RemoveEachIsWithout(s: string, cs: seq<char>)
    ensures RemoveEach(s, cs) == Without(s, set c | c in cs)
    decreases cs
  {
    if cs == [] {
      assert (set c | c in cs) == {};
      WithoutAbsent(s, {});
    } else {
      RemoveAllIsWithout(s, cs[0]);
      RemoveEachIsWithout(RemoveAll(s, cs[0]), cs[1..]);
      WithoutWithout(s, {cs[0]}, set c | c in cs[1..]);
      assert {cs[0]} + (set c | c in cs[1..]) == set c | c in cs;
    }
  }

  /** Clean is the filter of StrippedChars applied after lower-casing the whole text. */
  lemma {:induction false} CleanIsFilterAfterLower(s: string)
    ensures Clean(s) == Without(Lower(s), StrippedChars)
  {
    if |s| > 0 {
      CleanIsFilterAfterLower(s[1..]);
      assert Lower(s)[1..] == Lower(s[1..]);
    }
  }

  /** The per-character Clean computes what the `ReplaceAll` chain of strip.go computes. */
  lemma CleanMatchesReplaceChain(s: string)
    ensures ReplaceChain(s) == Clean(s)
  {
    RemoveEachIsWithout(Lower(s), ReplacedChars);
    assert (set c | c in ReplacedChars) == StrippedChars;
    CleanIsFilterAfterLower(s);
  }

  /** Clean works character by character, so it distributes over concatenation. */
  lemma CleanAppend(a: string, b: string)
    ensures Clean(a + b) == Clean(a) + Clean(b)
  {
    CleanIsFilterAfterLower(a);
    CleanIsFilterAfterLower(b);
    CleanIsFilterAfterLower(a + b);
    LowerAppend(a, b);
    WithoutAppend(Lower(a), Lower(b), StrippedChars);
  }

  /** Cleaning cleaned text changes nothing. */
  lemma CleanIdempotent(s: string)
    ensures Clean(Clean(s)) == Clean(s)
  {
    var r := Clean(s);
    CleanChars(s);
    CleanIsFilterAfterLower(r);
    assert Lower(r) == r;
    WithoutAbsent(r, StrippedChars);
  }

  /** Removing spaces from cleaned text changes nothing: `clean` already deleted them. */
  lemma CleanHasNoSpaces(s: string)
    ensures RemoveAll(Clean(s), ' ') == Clean(s)
  {
    CleanChars(s);
    RemoveAllIsWithout(Clean(s), ' ');
    WithoutAbsent(Clean(s), {' '});
  }
}
