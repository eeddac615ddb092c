/**
 `Aliases.Find` of aliases.go: map a legal-form phrase to a short,
 country-specific alias through a two-level table, falling back to the
 wildcard country "*" and then to the cleaned phrase itself.
 */
module Aliases {
  import opened CaseMapping
  import opened Cleaning

  /** `Aliases`: country code (or "*") to folded cleaned phrase to alias. */
  type Table = map<string, map<string, string>>

  /** The country entry that applies to every country. */
  const Wildcard: string := "*"

  /**
   `t[country][key]` with Go's zero values: "" when the country or the key
   is missing, so a missing entry and an entry holding "" look alike.
   */
  function Lookup(t: Table, country: string, key: string): (alias: string)
    ensures alias != "" <==> country in t && key in t[country] && t[country][key] != ""
    ensures alias != "" ==> alias == t[country][key]
  {
    if country in t && key in t[country] then t[country][key] else ""
  }

  /**
   `Find`: `normalize` stands for the diacritic folding of the external
   `diacrit.Normalize`. The result is a non-empty alias of the country, else
   a non-empty alias of "*", else the cleaned phrase.
   */
  function Find(t: Table, normalize: string -> string, country: string, legalForm: string): (r: string)
    ensures Clean(legalForm) != "" ==> r != ""
    ensures r == Clean(legalForm)
         || r == Lookup(t, Upper(country), normalize(Clean(legalForm)))
         || r == Lookup(t, Wildcard, normalize(Clean(legalForm)))
  {
    CleanHasNoSpaces(legalForm);
    var cleaned := RemoveAll(Clean(legalForm), ' ');
    var normalized := normalize(cleaned);
    var upperCountry := Upper(country);
    var alias := Lookup(t, upperCountry, normalized);
    if alias != "" then alias
    else
      var wildcardAlias := Lookup(t, Wildcard, normalized);
      if wildcardAlias != "" then wildcardAlias
      else cleaned
  }

  /** The key Find looks up: the folded cleaned phrase (removing spaces again changes nothing). */
  function LookupKey(normalize: string -> string, legalForm: string): string
  {
    normalize(Clean(legalForm))
  }

  /** A non-empty alias of the (upper-cased) country wins over everything else. */
  lemma FindPrefersCountry(t: Table, normalize: string -> string, country: string, legalForm: string)
    requires Upper(country) in t
    requires LookupKey(normalize, legalForm) in t[Upper(country)]
    requires t[Upper(country)][LookupKey(normalize, legalForm)] != ""
    ensures Find(t, normalize, country, legalForm) == t[Upper(country)][LookupKey(normalize, legalForm)]
  {
    CleanHasNoSpaces(legalForm);
  }

  /** Without a non-empty country alias, a non-empty wildcard alias is the result. */
  lemma FindFallsBackToWildcard(t: Table, normalize: string -> string, country: string, legalForm: string)
    requires Lookup(t, Upper(country), LookupKey(normalize, legalForm)) == ""
    requires Wildcard in t
    requires LookupKey(normalize, legalForm) in t[Wildcard]
    requires t[Wildcard][LookupKey(normalize, legalForm)] != ""
    ensures Find(t, normalize, country, legalForm) == t[Wildcard][LookupKey(normalize, legalForm)]
  {
    CleanHasNoSpaces(legalForm);
  }

  /**
   Without a non-empty alias at either level the result is the cleaned
   phrase, before folding: no space, no stripped punctuation, no capital.
   */
  lemma FindEchoesCleaned(t: Table, normalize: string -> string, country: string, legalForm: string)
    requires Lookup(t, Upper(country), LookupKey(normalize, legalForm)) == ""
    requires Lookup(t, Wildcard, LookupKey(normalize, legalForm)) == ""
    ensures Find(t, normalize, country, legalForm) == Clean(legalForm)
    ensures forall c :: c in Find(t, normalize, country, legalForm) ==> c !in StrippedChars && !IsUpperLetter(c)
  {
    CleanHasNoSpaces(legalForm);
    CleanChars(legalForm);
  }

  /** The table with every entry that holds "" removed. */
  function Pruned(t: Table): (p: Table)
    ensures p.Keys == t.Keys
    ensures forall c, k :: c in p && k in p[c] ==> p[c][k] != ""
  {
    map c | c in t :: map k | k in t[c] && t[c][k] != "" :: t[c][k]
  }

  /** An entry holding "" behaves exactly like a missing entry, at both levels. */
  lemma FindIgnoresEmptyAliases(t: Table, normalize: string -> string, country: string, legalForm: string)
    ensures Find(t, normalize, country, legalForm) == Find(Pruned(t), normalize, country, legalForm)
  {
    var key := normalize(RemoveAll(Clean(legalForm), ' '));
    assert Lookup(t, Upper(country), key) == Lookup(Pruned(t), Upper(country), key);
    assert Lookup(t, Wildcard, key) == Lookup(Pruned(t), Wildcard, key);
  }

  /** Missing countries are no different from countries with an empty table. */
  lemma FindUnknownCountry(t: Table, normalize: string -> string, country: string, legalForm: string)
    requires Upper(country) !in t
    ensures Find(t, normalize, country, legalForm) == Find(t[Upper(country) := map[]], normalize, country, legalForm)
  {
  }

  /** The country code is used only upper-cased: passing it upper-cased already changes nothing. */
  lemma FindUpperCountry(t: Table, normalize: string -> string, country: string, legalForm: string)
    ensures Find(t, normalize, Upper(country), legalForm) == Find(t, normalize, country, legalForm)
  {
    UpperIdempotent(country);
  }

  /** Latin-1 country codes that differ only in case give the same result. */
  lemma FindLowerCountry(t: Table, normalize: string -> string, country: string, legalForm: string)
    requires Latin1(country)
    ensures Find(t, normalize, Lower(country), legalForm) == Find(t, normalize, country, legalForm)
  {
    UpperOfLowerString(country);
  }

  /** Find depends on the phrase only through its cleaned form. */
  lemma FindRespectsClean(t: Table, normalize: string -> string, country: string, a: string, b: string)
    requires Clean(a) == Clean(b)
    ensures Find(t, normalize, country, a) == Find(t, normalize, country, b)
  {
  }

  /** The entry of `DefaultAliases` for "*" that the scenarios use (aliases.go line 40). */
  const WildcardAliases: map<string, string> := map["incorporated" := "inc"]

  /** The entry of `DefaultAliases` for "CH" (aliases.go line 146). */
  const SwissAliases: map<string, string> := map["gesellschaftmitbeschrankterhaftung" := "sarl"]

  /** The entry of `DefaultAliases` for "US" (aliases.go line 400). */
  const AmericanAliases: map<string, string> := map["incorporated" := "inc"]

  /** The entry of `DefaultAliases` for "DE" (aliases.go line 627). */
  const GermanAliases: map<string, string> := map["gesellschaftmitbeschrankterhaftung" := "gmbh"]

  /** The entries of `DefaultAliases` above, and no others. */
  const DefaultAliasesExcerpt: Table := map[
    "*" := WildcardAliases,
    "CH" := SwissAliases,
    "US" := AmericanAliases,
    "DE" := GermanAliases
  ]
}
