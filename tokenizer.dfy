/**
 The tokenisation step of `Strip` (strip.go): the pattern `[^\s]+` matched
 left to right over the whole name, and `strings.Join`, which puts tokens
 back together.
 */
module Tokenizer {
  import opened Cleaning

  /** RE2's `\s` class: tab, newline, form feed, carriage return and space. */
  const Whitespace: set<char> := {'\t', '\n', '\U{C}', '\r', ' '}

  predicate IsSpace(c: char) {
    c in Whitespace
  }

  /** A token: a non-empty run of characters outside `\s`. */
  predicate IsWord(t: string) {
    t != [] && forall i :: 0 <= i < |t| ==> !IsSpace(t[i])
  }

  /** The length of the run of non-space characters that `s` starts with. */
  function WordLength(s: string): (n: nat)
    ensures n <= |s|
    ensures forall j :: 0 <= j < n ==> !IsSpace(s[j])
    ensures n < |s| ==> IsSpace(s[n])
  {
    if s == [] || IsSpace(s[0]) then 0 else 1 + WordLength(s[1..])
  }

  /**
   `tokenRegexp.FindAllString(s, -1)` with the pattern `[^\s]+`: the maximal
   runs of non-space characters of `s`, from left to right.
   */
  function Tokenize(s: string): (ts: seq<string>)
    ensures forall t :: t in ts ==> IsWord(t)
    decreases |s|
  {
    if s == [] then []
    else if IsSpace(s[0]) then Tokenize(s[1..])
    else
      var n := WordLength(s);
      [s[..n]] + Tokenize(s[n..])
  }

  /** `strings.Join(elems, sep)`. */
  function Join(elems: seq<string>, sep: string): string
  {
    if elems == [] then ""
    else if |elems| == 1 then elems[0]
    else elems[0] + sep + Join(elems[1..], sep)
  }

  /** A join starts with its first element. */
  lemma JoinStartsWithFirst(elems: seq<string>, sep: string)
    requires elems != []
    ensures elems[0] <= Join(elems, sep)
  {
  }

  /** Joining two non-empty lists puts one separator between their joins. */
  lemma {:induction false} JoinAppend(a: seq<string>, b: seq<string>, sep: string)
    requires a != [] && b != []
    ensures Join(a + b, sep) == Join(a, sep) + sep + Join(b, sep)
  {
    assert (a + b)[0] == a[0];
    if |a| > 1 {
      assert (a + b)[1..] == a[1..] + b;
      JoinAppend(a[1..], b, sep);
    } else {
      assert (a + b)[1..] == b;
    }
  }

  /** A single token is tokenised as itself. */
  lemma TokenizeWord(t: string)
    requires IsWord(t)
    ensures Tokenize(t) == [t]
  {
    assert WordLength(t) == |t|;
    assert t[..|t|] == t;
  }

  /**
   Whitespace separates tokens: the tokens of `a + [w] + b` are those of `a`
   followed by those of `b`, so a token never spans a whitespace character.
   */
  lemma {:induction false} TokenizeSplitsAtSpace(a: string, w: char, b: string)
    requires IsSpace(w)
    ensures Tokenize(a + [w] + b) == Tokenize(a) + Tokenize(b)
    decreases |a|
  {
    var s := a + [w] + b;
    if a == [] {
      assert s[1..] == b;
    } else if IsSpace(a[0]) {
      assert s[1..] == a[1..] + [w] + b;
      TokenizeSplitsAtSpace(a[1..], w, b);
    } else {
      var n := WordLength(s);
      var m := WordLength(a);
      assert s[m] == if m < |a| then a[m] else w;
      assert n == m;
      assert s[..n] == a[..m];
      assert s[n..] == a[m..] + [w] + b;
      TokenizeSplitsAtSpace(a[m..], w, b);
    }
  }

  /** Round trip: tokenising tokens joined by single spaces gives back the tokens. */
  lemma {:induction false} TokenizeJoin(ts: seq<string>)
    requires forall i :: 0 <= i < |ts| ==> IsWord(ts[i])
    ensures Tokenize(Join(ts, " ")) == ts
  {
    if |ts| == 1 {
      TokenizeWord(ts[0]);
    } else if |ts| > 1 {
      TokenizeJoin(ts[1..]);
      TokenizeWord(ts[0]);
      assert Join(ts, " ") == ts[0] + [' '] + Join(ts[1..], " ");
      TokenizeSplitsAtSpace(ts[0], ' ', Join(ts[1..], " "));
      assert ts == [ts[0]] + ts[1..];
    }
  }

  /** The tokens hold exactly the non-space characters of the input, in order. */
  lemma {:induction false} TokenizeKeepsText(s: string)
    ensures Join(Tokenize(s), "") == Without(s, Whitespace)
    decreases |s|
  {
    if s != [] {
      if IsSpace(s[0]) {
        TokenizeKeepsText(s[1..]);
      } else {
        var n := WordLength(s);
        var rest := Tokenize(s[n..]);
        TokenizeKeepsText(s[n..]);
        if rest != [] {
          JoinAppend([s[..n]], rest, "");
        }
        assert s == s[..n] + s[n..];
        WithoutAppend(s[..n], s[n..], Whitespace);
        WithoutAbsent(s[..n], Whitespace);
      }
    }
  }
}
