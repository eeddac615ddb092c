/**
 The cases of aliases_test.go, over the entries of `DefaultAliases` that
 they reach. The folding `normalize` is external; each case states the one
 folding it needs as a requirement.

 Each literal is cleaned in a lemma of its own: the solver evaluates `Clean`
 on a literal one character at a time, and several such evaluations in one
 proof interfere with each other.
 */
module AliasScenarios {
  import opened CaseMapping
  import opened Cleaning
  import opened Aliases

  /** The German input of the test, put together from pieces the solver cleans one at a time. */
  const GmbHPhrase: string := "G" + "esellschaft" + " " + "mit" + " " + "beschr\U{E4}nkter" + " " + "H" + "aftung"

  /** The English input of the test, put together the same way. */
  const IncorporatedWord: string := "I" + "ncorporated"

  /** The pieces spell the German input of the test. */
  lemma GmbHPhraseIsTestInput()
    ensures GmbHPhrase == "Gesellschaft mit beschr\U{E4}nkter Haftung"
  {
    GmbHPhraseFirstHalf();
    GmbHPhraseSecondHalf();
    GmbHPhraseHalves();
  }

  /** Up to "mit". */
  lemma GmbHPhraseFirstHalf()
    ensures "G" + "esellschaft" + " " + "mit" == "Gesellschaft mit"
  {
  }

  /** From "beschr\U{E4}nkter" on. */
  lemma GmbHPhraseSecondHalf()
    ensures " " + "beschr\U{E4}nkter" + " " + "H" + "aftung" == " beschr\U{E4}nkter Haftung"
  {
  }

  /** The two halves together. */
  lemma GmbHPhraseHalves()
    ensures "Gesellschaft mit" + " beschr\U{E4}nkter Haftung" == "Gesellschaft mit beschr\U{E4}nkter Haftung"
  {
  }

  /** The pieces spell the English input of the test. */
  lemma IncorporatedWordIsTestInput()
    ensures IncorporatedWord == "Incorporated"
  {
  }

  /** Cleaning the pieces of the German phrase: capitals lowered, spaces dropped, umlaut kept. */
  lemma CleanGmbHPieces()
    ensures Clean("G") == "g" && Clean("H") == "h" && Clean(" ") == ""
  {
  }

  /** The lower-case pieces of the German phrase are left as they are. */
  lemma CleanKeepsEsellschaft()
    ensures Clean("esellschaft") == "esellschaft"
  {
    CleanKeeps("esellschaft");
  }

  lemma CleanKeepsMit()
    ensures Clean("mit") == "mit"
  {
    CleanKeeps("mit");
  }

  lemma CleanKeepsBeschraenkter()
    ensures Clean("beschr\U{E4}nkter") == "beschr\U{E4}nkter"
  {
    CleanKeeps("beschr\U{E4}nkter");
  }

  lemma CleanKeepsAftung()
    ensures Clean("aftung") == "aftung"
  {
    CleanKeeps("aftung");
  }

  /** The cleaned pieces spell the cleaned phrase. */
  lemma CleanedGmbHPieces()
    ensures "g" + "esellschaft" + "" + "mit" + "" + "beschr\U{E4}nkter" + "" + "h" + "aftung"
         == "gesellschaftmitbeschr\U{E4}nkterhaftung"
  {
  }

  /** The German phrase cleans to its lower-case letters, spaces removed and umlaut kept. */
  lemma CleanGmbHPhrase()
    ensures Clean(GmbHPhrase) == "gesellschaftmitbeschr\U{E4}nkterhaftung"
  {
    CleanGmbHPieces();
    CleanKeepsEsellschaft();
    CleanKeepsMit();
    CleanKeepsBeschraenkter();
    CleanKeepsAftung();
    CleanedGmbHPieces();
    var a, b, c, d, e, f, g, h, i := "G", "esellschaft", " ", "mit", " ", "beschr\U{E4}nkter", " ", "H", "aftung";
    CleanAppend(a + b + c + d + e + f + g + h, i);
    CleanAppend(a + b + c + d + e + f + g, h);
    CleanAppend(a + b + c + d + e + f, g);
    CleanAppend(a + b + c + d + e, f);
    CleanAppend(a + b + c + d, e);
    CleanAppend(a + b + c, d);
    CleanAppend(a + b, c);
    CleanAppend(a, b);
  }

  /** Pieces of "Incorporated", cleaned. */
  lemma CleanCapitalI()
    ensures Clean("I") == "i"
  {
  }

  lemma CleanKeepsNcorporated()
    ensures Clean("ncorporated") == "ncorporated"
  {
    CleanKeeps("ncorporated");
  }

  lemma LowerIncorporated()
    ensures "i" + "ncorporated" == "incorporated"
  {
  }

  /** "Incorporated" cleans to "incorporated". */
  lemma CleanIncorporated()
    ensures Clean(IncorporatedWord) == "incorporated"
  {
    CleanCapitalI();
    CleanKeepsNcorporated();
    CleanAppend("I", "ncorporated");
    LowerIncorporated();
  }

  /** Country codes as `Find` upper-cases them. */
  lemma UpperDE()
    ensures Upper("DE") == "DE"
  {
  }

  lemma UpperLowerDE()
    ensures Upper("de") == "DE"
  {
  }

  lemma UpperCH()
    ensures Upper("CH") == "CH"
  {
  }

  lemma UpperUS()
    ensures Upper("US") == "US"
  {
  }

  lemma UpperXX()
    ensures Upper("XX") == "XX"
  {
  }

  /** What the excerpt holds for the folded German phrase. */
  lemma LookupGmbH()
    ensures Lookup(DefaultAliasesExcerpt, "DE", "gesellschaftmitbeschrankterhaftung") == "gmbh"
    ensures Lookup(DefaultAliasesExcerpt, "CH", "gesellschaftmitbeschrankterhaftung") == "sarl"
  {
  }

  /** Where the excerpt has no alias for the folded German phrase. */
  lemma NoLookupGmbH()
    ensures Lookup(DefaultAliasesExcerpt, "US", "gesellschaftmitbeschrankterhaftung") == ""
    ensures Lookup(DefaultAliasesExcerpt, "XX", "gesellschaftmitbeschrankterhaftung") == ""
    ensures Lookup(DefaultAliasesExcerpt, "*", "gesellschaftmitbeschrankterhaftung") == ""
  {
  }

  /** What the excerpt holds for "incorporated". */
  lemma LookupIncorporated()
    ensures Lookup(DefaultAliasesExcerpt, "US", "incorporated") == "inc"
    ensures Lookup(DefaultAliasesExcerpt, "DE", "incorporated") == ""
    ensures Lookup(DefaultAliasesExcerpt, "XX", "incorporated") == ""
    ensures Lookup(DefaultAliasesExcerpt, "*", "incorporated") == "inc"
  {
  }

  /** Under "DE", a phrase that cleans to the German phrase gets the German alias. */
  lemma FindGermanGmbH(normalize: string -> string, legalForm: string)
    requires Clean(legalForm) == "gesellschaftmitbeschr\U{E4}nkterhaftung" && normalize("gesellschaftmitbeschr\U{E4}nkterhaftung") == "gesellschaftmitbeschrankterhaftung"
    ensures Find(DefaultAliasesExcerpt, normalize, "DE", legalForm) == "gmbh"
  {
    UpperDE();
    CleanHasNoSpaces(legalForm);
    LookupGmbH();
  }

  /** The country code is upper-cased first, so "de" finds the same alias. */
  lemma FindGermanGmbHLowerCase(normalize: string -> string, legalForm: string)
    requires Clean(legalForm) == "gesellschaftmitbeschr\U{E4}nkterhaftung" && normalize("gesellschaftmitbeschr\U{E4}nkterhaftung") == "gesellschaftmitbeschrankterhaftung"
    ensures Find(DefaultAliasesExcerpt, normalize, "de", legalForm) == "gmbh"
  {
    UpperLowerDE();
    CleanHasNoSpaces(legalForm);
    LookupGmbH();
  }

  /** The same phrase has a different alias in Switzerland. */
  lemma FindSwissGmbH(normalize: string -> string, legalForm: string)
    requires Clean(legalForm) == "gesellschaftmitbeschr\U{E4}nkterhaftung" && normalize("gesellschaftmitbeschr\U{E4}nkterhaftung") == "gesellschaftmitbeschrankterhaftung"
    ensures Find(DefaultAliasesExcerpt, normalize, "CH", legalForm) == "sarl"
  {
    UpperCH();
    CleanHasNoSpaces(legalForm);
    LookupGmbH();
  }

  /**
   An unknown country and no wildcard alias: the result is the cleaned
   phrase, with its umlaut, not the folded key.
   */
  lemma FindUnknownCountryGmbH(normalize: string -> string, legalForm: string)
    requires Clean(legalForm) == "gesellschaftmitbeschr\U{E4}nkterhaftung" && normalize("gesellschaftmitbeschr\U{E4}nkterhaftung") == "gesellschaftmitbeschrankterhaftung"
    ensures Find(DefaultAliasesExcerpt, normalize, "XX", legalForm) == "gesellschaftmitbeschr\U{E4}nkterhaftung"
  {
    UpperXX();
    CleanHasNoSpaces(legalForm);
    NoLookupGmbH();
  }

  /** A known country without that phrase behaves like an unknown one. */
  lemma FindAmericanGmbH(normalize: string -> string, legalForm: string)
    requires Clean(legalForm) == "gesellschaftmitbeschr\U{E4}nkterhaftung" && normalize("gesellschaftmitbeschr\U{E4}nkterhaftung") == "gesellschaftmitbeschrankterhaftung"
    ensures Find(DefaultAliasesExcerpt, normalize, "US", legalForm) == "gesellschaftmitbeschr\U{E4}nkterhaftung"
  {
    UpperUS();
    CleanHasNoSpaces(legalForm);
    NoLookupGmbH();
  }

  /** "Incorporated" has an alias under "US". */
  lemma FindAmericanIncorporated(normalize: string -> string, legalForm: string)
    requires Clean(legalForm) == "incorporated" && normalize("incorporated") == "incorporated"
    ensures Find(DefaultAliasesExcerpt, normalize, "US", legalForm) == "inc"
  {
    UpperUS();
    CleanHasNoSpaces(legalForm);
    LookupIncorporated();
  }

  /** "Incorporated" under an unknown country falls back to the wildcard alias. */
  lemma FindUnknownCountryIncorporated(normalize: string -> string, legalForm: string)
    requires Clean(legalForm) == "incorporated" && normalize("incorporated") == "incorporated"
    ensures Find(DefaultAliasesExcerpt, normalize, "XX", legalForm) == "inc"
  {
    UpperXX();
    CleanHasNoSpaces(legalForm);
    LookupIncorporated();
  }

  /** "Incorporated" under a country that lacks it falls back to the wildcard alias. */
  lemma FindGermanIncorporated(normalize: string -> string, legalForm: string)
    requires Clean(legalForm) == "incorporated" && normalize("incorporated") == "incorporated"
    ensures Find(DefaultAliasesExcerpt, normalize, "DE", legalForm) == "inc"
  {
    UpperDE();
    CleanHasNoSpaces(legalForm);
    LookupIncorporated();
  }

  /** The first case of aliases_test.go. */
  lemma FindTestGermanGmbH(normalize: string -> string)
    requires normalize("gesellschaftmitbeschr\U{E4}nkterhaftung") == "gesellschaftmitbeschrankterhaftung"
    ensures Find(DefaultAliasesExcerpt, normalize, "DE", GmbHPhrase) == "gmbh"
  {
    CleanGmbHPhrase();
    FindGermanGmbH(normalize, GmbHPhrase);
  }

  /** The second case of aliases_test.go: the cleaned phrase comes back, umlaut and all. */
  lemma FindTestUnknownCountryGmbH(normalize: string -> string)
    requires normalize("gesellschaftmitbeschr\U{E4}nkterhaftung") == "gesellschaftmitbeschrankterhaftung"
    ensures Find(DefaultAliasesExcerpt, normalize, "XX", GmbHPhrase) == "gesellschaftmitbeschr\U{E4}nkterhaftung"
  {
    CleanGmbHPhrase();
    FindUnknownCountryGmbH(normalize, GmbHPhrase);
  }

  /** The third case of aliases_test.go. */
  lemma FindTestAmericanIncorporated(normalize: string -> string)
    requires normalize("incorporated") == "incorporated"
    ensures Find(DefaultAliasesExcerpt, normalize, "US", IncorporatedWord) == "inc"
  {
    CleanIncorporated();
    FindAmericanIncorporated(normalize, IncorporatedWord);
  }

  /** The fourth case of aliases_test.go. */
  lemma FindTestAmericanGmbH(normalize: string -> string)
    requires normalize("gesellschaftmitbeschr\U{E4}nkterhaftung") == "gesellschaftmitbeschrankterhaftung"
    ensures Find(DefaultAliasesExcerpt, normalize, "US", GmbHPhrase) == "gesellschaftmitbeschr\U{E4}nkterhaftung"
  {
    CleanGmbHPhrase();
    FindAmericanGmbH(normalize, GmbHPhrase);
  }

  /** The fifth case of aliases_test.go. */
  lemma FindTestUnknownCountryIncorporated(normalize: string -> string)
    requires normalize("incorporated") == "incorporated"
    ensures Find(DefaultAliasesExcerpt, normalize, "XX", IncorporatedWord) == "inc"
  {
    CleanIncorporated();
    FindUnknownCountryIncorporated(normalize, IncorporatedWord);
  }

  /** The sixth case of aliases_test.go. */
  lemma FindTestGermanIncorporated(normalize: string -> string)
    requires normalize("incorporated") == "incorporated"
    ensures Find(DefaultAliasesExcerpt, normalize, "DE", IncorporatedWord) == "inc"
  {
    CleanIncorporated();
    FindGermanIncorporated(normalize, IncorporatedWord);
  }

  /**
   A phrase made only of stripped punctuation cleans to "", and without an
   alias for the folded "" the result is "": `Find` can return an empty string.
   */
  lemma FindOnlyPunctuation(t: Table, normalize: string -> string, country: string)
    requires Lookup(t, Upper(country), normalize("")) == ""
    requires Lookup(t, Wildcard, normalize("")) == ""
    ensures Find(t, normalize, country, "&") == ""
  {
    assert Clean("&") == "";
    FindEchoesCleaned(t, normalize, country, "&");
  }
}
