# go-company-legal-form: legal-form stripping and alias resolution

A Dafny model of the two parts of the `legalform` Go package that do the work:

- **`LegalForms.Strip`** (strip.go) splits a company name into the plain name and
  its legal-form suffix. The name is cut into tokens, the maximal runs of
  characters outside RE2's `\s`. The tokens are scanned from the last one down
  to the second. At each step the cleaned concatenation of the suffix is looked
  up in a dictionary of cleaned legal forms. Both parts come back joined with
  single spaces.
- **`clean`** (strip.go) lower-cases a string and deletes twelve punctuation
  characters, the space among them.
- **`Aliases.Find`** (aliases.go) maps a legal-form phrase to a short alias.
  It looks the folded, cleaned phrase up in a two-level table: the upper-cased
  country first, then the wildcard country `"*"`. When neither holds a non-empty
  alias, it returns the cleaned phrase itself.

Modules, one per file:

| file | module | contents |
|---|---|---|
| case_mapping.dfy | `CaseMapping` | per-character `ToLower`/`ToUpper` |
| cleaning.dfy | `Cleaning` | `clean` two ways: per character, and as the literal `ReplaceAll` chain; both are proved equal |
| tokenizer.dfy | `Tokenizer` | the `[^\s]+` tokenisation and `strings.Join` |
| legal_form_strip.dfy | `LegalFormStrip` | the backward scan of `Strip` as a method with a loop, proved equal to a functional characterisation |
| aliases.dfy | `Aliases` | `Find`, Go's zero-value map reads, and an excerpt of `DefaultAliases` |
| strip_scenarios.dfy | `StripScenarios` | the cases of strip_test.go |
| alias_scenarios.dfy | `AliasScenarios` | the cases of aliases_test.go |

Design choices:

- The dictionary `LegalForms` is used only for membership, so it is a `set<string>`.
- The alias table is a `map<string, map<string, string>>`. Reading it goes through `Lookup`, which returns `""` for a missing country or key, as Go's map index does.
- `Find` only reads the table. It is a function of the table, so the table cannot change.
- `Strip` is a `method` that keeps the three slices of the Go loop: `currentTokens`, `currentCleanTokens` and `legalFormTokens`. A ghost index `hit` marks where `legalFormTokens` starts. The loop invariants show the following:
  - the key tested at step `i` is the cleaned concatenation of the whole suffix `tokens[i..]`, because `currentCleanTokens` is never reset;
  - after a hit at `i`, the legal form is exactly `tokens[i..]`.
- The result is characterised by `SplitTokens`: the legal form starts at the smallest index `k >= 1` whose suffix is a legal form.

Three behaviours of the code that a reader might not expect; the model follows the code in each:

- The scan window is not restarted after a hit. Only `currentTokens` is reset (strip.go:33); `currentCleanTokens` keeps growing (strip.go:28). So the key tested at index `i` is always the whole suffix `tokens[i..]`, and the legal form is the suffix from the smallest such index that is a hit. A scan that restarted its window after each hit would test different keys.
- `Find` can return `""`. Its doc comment (aliases.go:15-20) promises the cleaned phrase when no alias is found (aliases.go:33), and a phrase of punctuation only, such as `"&"`, cleans to `""` (`AliasScenarios.FindOnlyPunctuation`). Nothing in the doc comment promises a non-empty result.
- The fallback result is the cleaned phrase before diacritic folding, not the folded lookup key, as the doc comment says and as the `"XX"` and `"US"` cases of aliases_test.go:13-18 expect.

## Model

| member | source | states |
|---|---|---|
| CaseMapping.LowerChar | strip.go:43 | the result is never a capital; a capital maps to a small letter whose upper case is that capital; any other character is unchanged |
| CaseMapping.UpperChar | aliases.go:24 | the result has no upper case of its own; a Latin-1 small letter maps to a Latin-1 capital, ÿ to Ÿ and µ to Greek capital mu; any other character, ß among them, is unchanged |
| CaseMapping.LowerCharIdempotent | strip.go:43 | lower-casing twice is lower-casing once, and leaves no capital |
| CaseMapping.UpperCharIdempotent | aliases.go:24 | upper-casing twice is upper-casing once, and leaves no character that upper-casing would change |
| CaseMapping.LowerAppend | strip.go:43 | `ToLower` works rune by rune, so it distributes over concatenation |
| CaseMapping.UpperIdempotent | aliases.go:24 | upper-casing an upper-cased country code changes nothing |
| CaseMapping.UpperOfLowerChar | aliases.go:24 | for a Latin-1 character, upper-casing its lower case gives its upper case |
| CaseMapping.UpperOfLowerString | aliases.go:24 | Latin-1 codes that differ only in case upper-case alike |
| CaseMapping.UpperOfLower | aliases.go:24 | a code of ASCII capitals survives lower-casing followed by upper-casing |
| CaseMapping.CaseRoundTrip | aliases.go:24 | lower- and upper-casing undo each other on letters: a capital comes back from its small letter, and a small letter (other than ÿ and µ) from its capital |
| CaseMapping.Lower | strip.go:43 | `strings.ToLower`, rune by rune (no ensures; its properties are `LowerAppend`, `LowerCharIdempotent` and `CleanIsFilterAfterLower`) |
| CaseMapping.Upper | aliases.go:24 | `strings.ToUpper`, rune by rune (no ensures; its properties are `UpperIdempotent`, `UpperOfLowerString` and `FindUpperCountry`) |
| Cleaning.Without | strip.go:44-55 | deletion keeps exactly the characters outside the deleted set and never lengthens the text |
| Cleaning.RemoveAll | strip.go:44-55 | `ReplaceAll(s, c, "")` removes every `c`, keeps every other character and never lengthens the text |
| Cleaning.CleanChars | strip.go:42-56 | cleaned text is no longer than its input and holds none of the twelve stripped characters and no capital |
| Cleaning.CleanKeeps | strip.go:42-56 | Latin-1 text with no capital and no stripped character is its own cleaning |
| Cleaning.ReplaceChain | strip.go:42-56 | `clean` exactly as written, `ToLower` then the twelve `ReplaceAll` calls in order (no ensures; `CleanMatchesReplaceChain` proves it equal to `Clean`) |
| Cleaning.Clean | strip.go:42-56 | `clean` one character at a time (no ensures; `CleanMatchesReplaceChain` ties it to the code as written, `CleanChars`, `CleanAppend` and `CleanIdempotent` state its properties) |
| Cleaning.WithoutAppend | strip.go:44-55 | deletion distributes over concatenation |
| Cleaning.WithoutAbsent | strip.go:44-55 | deleting characters that do not occur changes nothing |
| Cleaning.WithoutWithout | strip.go:44-55 | two deletions in a row delete the union of their sets |
| Cleaning.RemoveAllIsWithout | strip.go:44-55 | a one-character `ReplaceAll` is deletion of that character |
| Cleaning.RemoveEachIsWithout | strip.go:44-55 | a chain of one-character `ReplaceAll` calls deletes the set of those characters, whatever their order |
| Cleaning.CleanIsFilterAfterLower | strip.go:42-56 | per-character cleaning equals lower-casing the whole text, then deleting the stripped characters |
| Cleaning.CleanMatchesReplaceChain | strip.go:42-56 | per-character cleaning equals `clean` as written: `ToLower`, then the twelve `ReplaceAll` calls in order |
| Cleaning.CleanAppend | strip.go:42-56 | `clean(a + b) == clean(a) + clean(b)` |
| Cleaning.CleanIdempotent | strip.go:42-56 | cleaning cleaned text changes nothing |
| Cleaning.CleanHasNoSpaces | aliases.go:22 | the extra space removal in `Find` is a no-op: cleaned text holds no space |
| Tokenizer.WordLength | strip.go:17 | a name starts with a run of that many non-space characters, followed by a space or the end |
| Tokenizer.Tokenize | strip.go:17 | every token is a non-empty run of characters outside `\s` |
| Tokenizer.Join | strip.go:37-38 | `strings.Join` (no ensures; `JoinAppend`, `JoinStartsWithFirst` and the round trip `TokenizeJoin` state its properties) |
| Tokenizer.JoinStartsWithFirst | strip.go:37 | a join starts with its first element |
| Tokenizer.JoinAppend | strip.go:37-38 | joining two non-empty lists puts exactly one separator between their joins |
| Tokenizer.TokenizeWord | strip.go:17 | a single token tokenises as itself |
| Tokenizer.TokenizeSplitsAtSpace | strip.go:17 | tokens never span a whitespace character: the tokens of `a`, a space and `b` are those of `a` followed by those of `b` |
| Tokenizer.TokenizeJoin | strip.go:17 | round trip: tokens joined by single spaces tokenise back to the same tokens |
| Tokenizer.TokenizeKeepsText | strip.go:17 | the tokens hold exactly the non-space characters of the name, in order; only the whitespace is lost |
| LegalFormStrip.CleanAll | strip.go:25-28 | `currentCleanTokens` for a window: its tokens cleaned, in order (no ensures; the loop invariant of `Strip` and `SameCleaningSameKey` use it) |
| LegalFormStrip.Key | strip.go:29 | `tokenSearch`, the cleaned tokens concatenated without separator (no ensures; `KeyIsCleanedText` proves it equal to the cleaned text of the window) |
| LegalFormStrip.HitFrom | strip.go:23-35 | the smallest index from `lo` on whose suffix cleans to a legal form, or the token count when there is none |
| LegalFormStrip.SplitTokens | strip.go:23-38 | company tokens followed by legal-form tokens are the tokens; the company keeps the first token; a non-empty legal form is in the dictionary; no suffix starting inside the company, after its first token, is |
| LegalFormStrip.StripSpec | strip.go:16-40 | what `Strip` returns, as a function: `SplitTokens` of the tokens, each part joined with single spaces (no ensures; `Strip`, `StripReassembles`, `StripNoMatch` and `StripLegalFormIsKnown` state its properties) |
| LegalFormStrip.Strip | strip.go:16-40 | the backward loop returns exactly `StripSpec`: the tokens cut at the first hit from index 1, each part joined with single spaces |
| LegalFormStrip.WindowStep | strip.go:27-31 | one loop step: the cleaned window grows by the current token, and the first hit from `i` is `i` when that suffix is a legal form, else the first hit after `i` |
| LegalFormStrip.StripSpecAt | strip.go:37-38 | the two results are the tokens before and from the first hit, joined by spaces |
| LegalFormStrip.KeyIsCleanedText | strip.go:29 | the search key of a window is the cleaned text of its tokens joined by spaces |
| LegalFormStrip.SameCleaningSameKey | strip.go:25-29 | windows whose tokens clean pairwise alike have the same cleaned tokens and the same key |
| LegalFormStrip.HitFromAgree | strip.go:23-33 | token lists with the same keys from `lo` on have the same first hit from `lo` on |
| LegalFormStrip.SplitTokensUnique | strip.go:23-38 | any split with the four properties of `SplitTokens` is the split `Strip` computes |
| LegalFormStrip.StripFewTokens | strip.go:23-38 | with at most one token the loop never runs: the legal form is empty and the company is the token, or empty |
| LegalFormStrip.StripNoMatch | strip.go:23-38 | when no suffix from index 1 on is a legal form, the legal form is empty and the company is all tokens joined by spaces |
| LegalFormStrip.StripReassembles | strip.go:37-38 | the company is non-empty when the name has a token; company, a space and legal form rebuild the tokens joined by spaces |
| LegalFormStrip.StripLegalFormIsKnown | strip.go:31-32 | a non-empty legal form cleans to a phrase of the dictionary |
| LegalFormStrip.StripRespectsClean | strip.go:25-31 | names whose tokens clean alike are split at the same place: both parts clean alike |
| LegalFormStrip.StripIgnoresFirstToken | strip.go:23 | index 0 is never tested: the first token does not influence the legal form |
| StripScenarios.StripOfWords | strip.go:16-40 | a name made of company words and then legal-form words, where the legal form is in the dictionary and no longer suffix after the first word is, strips to exactly those two parts |
| StripScenarios.WordsAppend | strip.go:17 | two lists of tokens together are a list of tokens |
| StripScenarios.NoHitInCompany | strip.go:31 | suffixes that start inside the company are not in the dictionary |
| StripScenarios.KeyOne | strip.go:29 | the key of one token is its cleaned text |
| StripScenarios.KeyCons | strip.go:29 | the key of a token followed by more tokens is its cleaned text followed by their key |
| StripScenarios.KeyGmbHCoKG | strip.go:29 | the tokens of "GmbH & Co. KG" have key "gmbhcokg"; the `&` token cleans to nothing |
| StripScenarios.NoFormBeforeKG | strip.go:23-33 | without "gmbhcokg", no suffix of "Example GmbH & Co. KG" from "GmbH" to "Co." is a legal form |
| StripScenarios.StripExampleLLC | strip_test.go:17-21 | "Example LLC" strips to ("Example", "LLC") |
| StripScenarios.StripExampleGmbHCoKG | strip_test.go:22-26 | "Example GmbH & Co. KG" strips to ("Example", "GmbH & Co. KG"): the longest listed suffix wins |
| StripScenarios.StripExampleGmbHCoKGNeedsLongForm | strip.go:23-33 | without "gmbhcokg" in the dictionary, the same name strips to ("Example GmbH & Co.", "KG") |
| StripScenarios.StripLlcOyAG | strip_test.go:27-31 | "llc Oy AG" strips to ("llc Oy", "AG"): "oyag" misses and the first token is never tested |
| StripScenarios.StripLlcOyAGWholeNameKnown | strip.go:23 | the same split holds even when the whole name cleans to a listed form |
| StripScenarios.StripExampleKG | strip_test.go:32-36 | "Example KG" strips to ("Example", "KG") |
| StripScenarios.StripExampleEV | strip_test.go:37-41 | "Example e.V." strips to ("Example", "e.V."): the key drops the dots, the result keeps them |
| Aliases.Lookup | aliases.go:25 | a map read with Go's zero value: a non-empty result exactly when the country and key are present with a non-empty alias, and then it is that alias |
| Aliases.Find | aliases.go:21-34 | a phrase that cleans to something non-empty gets a non-empty result; the result is the cleaned phrase, the country's alias or the wildcard alias |
| Aliases.FindPrefersCountry | aliases.go:25-28 | a non-empty alias of the upper-cased country is returned verbatim and wins over the wildcard |
| Aliases.FindFallsBackToWildcard | aliases.go:29-32 | with no non-empty country alias, a non-empty wildcard alias is returned |
| Aliases.FindEchoesCleaned | aliases.go:33 | with no non-empty alias at either level, the result is the cleaned phrase before folding: no space, no stripped punctuation, no capital |
| Aliases.Pruned | aliases.go:26-30 | the table without its empty aliases has the same countries and no empty alias |
| Aliases.FindIgnoresEmptyAliases | aliases.go:26-30 | an alias `""` behaves exactly like a missing entry, at both levels |
| Aliases.FindUnknownCountry | aliases.go:25 | a missing country behaves like a country with an empty table |
| Aliases.FindUpperCountry | aliases.go:24 | the country code is used only upper-cased |
| Aliases.FindLowerCountry | aliases.go:24 | Latin-1 country codes that differ only in case give the same result |
| Aliases.DefaultAliasesExcerpt | aliases.go:37-911 | the entries of `DefaultAliases` the scenarios use: `"*"` line 40, CH line 146, US line 400, DE line 627, and no others (a constant; `LookupGmbH`, `NoLookupGmbH` and `LookupIncorporated` state what it holds) |
| Aliases.FindRespectsClean | aliases.go:22-23 | the result depends on the phrase only through its cleaned form |
| AliasScenarios.GmbHPhraseIsTestInput | aliases_test.go:11 | the pieces of the German test phrase spell "Gesellschaft mit beschränkter Haftung" |
| AliasScenarios.IncorporatedWordIsTestInput | aliases_test.go:15 | the pieces of the English test word spell "Incorporated" |
| AliasScenarios.CleanGmbHPhrase | aliases.go:22 | the German phrase cleans to "gesellschaftmitbeschränkterhaftung", umlaut kept |
| AliasScenarios.CleanIncorporated | aliases.go:22 | "Incorporated" cleans to "incorporated" |
| AliasScenarios.LookupGmbH | aliases.go:627 | the folded German phrase has alias "gmbh" under "DE" and "sarl" under "CH" |
| AliasScenarios.NoLookupGmbH | aliases.go:38-50 | the folded German phrase has no alias under "US", "XX" or "*" |
| AliasScenarios.LookupIncorporated | aliases.go:400 | "incorporated" has alias "inc" under "US" and "*", and none under "DE" or "XX" |
| AliasScenarios.FindGermanGmbH | aliases.go:25-28 | under "DE", a phrase that cleans to the German phrase gets "gmbh" |
| AliasScenarios.FindGermanGmbHLowerCase | aliases.go:24 | under "de" the result is the same "gmbh" |
| AliasScenarios.FindSwissGmbH | aliases.go:146 | under "CH" the same phrase gets "sarl" |
| AliasScenarios.FindUnknownCountryGmbH | aliases.go:33 | under "XX" the result is the cleaned phrase, umlaut and all |
| AliasScenarios.FindAmericanGmbH | aliases.go:33 | under "US", which lacks the phrase, the result is the cleaned phrase |
| AliasScenarios.FindAmericanIncorporated | aliases.go:25-28 | a phrase that cleans to "incorporated" gets "inc" under "US" |
| AliasScenarios.FindUnknownCountryIncorporated | aliases.go:29-32 | and under "XX", through the wildcard |
| AliasScenarios.FindGermanIncorporated | aliases.go:29-32 | and under "DE", through the wildcard |
| AliasScenarios.FindTestGermanGmbH | aliases_test.go:11-12 | `Find("DE", "Gesellschaft mit beschränkter Haftung") == "gmbh"` |
| AliasScenarios.FindTestUnknownCountryGmbH | aliases_test.go:13-14 | `Find("XX", …)` returns "gesellschaftmitbeschränkterhaftung" |
| AliasScenarios.FindTestAmericanIncorporated | aliases_test.go:15-16 | `Find("US", "Incorporated") == "inc"` |
| AliasScenarios.FindTestAmericanGmbH | aliases_test.go:17-18 | `Find("US", …)` returns "gesellschaftmitbeschränkterhaftung" |
| AliasScenarios.FindTestUnknownCountryIncorporated | aliases_test.go:19-20 | `Find("XX", "Incorporated") == "inc"` |
| AliasScenarios.FindTestGermanIncorporated | aliases_test.go:21-22 | `Find("DE", "Incorporated") == "inc"` |
| AliasScenarios.FindOnlyPunctuation | aliases.go:33 | a phrase of punctuation only, such as "&", can come back as "" |

## Left out

- CaseMapping.LowerChar: covers the ASCII and Latin-1 letters only. Go's `strings.ToLower` uses the full Unicode tables, and every other character is left unchanged here.
- CaseMapping.UpperChar: the same restriction for `strings.ToUpper`. The two Latin-1 letters whose capitals lie outside Latin-1 are included.
- CaseMapping.UpperOfLowerChar: stated for Latin-1 only. Beyond it Go lower-cases characters such as U+0130 and the Kelvin sign U+212A to letters whose capitals differ from the original.
- CaseMapping.UpperOfLowerString: stated for Latin-1 text only, for the same reason.
- Aliases.FindLowerCountry: stated for Latin-1 country codes only, for the same reason.
- Cleaning.CleanKeeps: stated for Latin-1 text only. Beyond it Go lower-cases letters that this model leaves unchanged.
- Aliases.Find: `diacrit.Normalize` belongs to an external library and is not part of this model. It is the parameter `normalize`, and each alias scenario states as a requirement the one folding it needs, e.g. "ä" folded to "a".
- Regular-expression compilation and `init` (strip.go:8-12): the pattern `[^\s]+` is written out by hand in `Tokenizer.Tokenize`.
- Go strings are byte sequences decoded as UTF-8 runes. The model works on sequences of characters, so invalid UTF-8 is out of scope.
- aliases_test.go shows the umlaut of its German phrase mis-encoded. The model reads it as U+00E4 ("ä"), the character the expected result "gesellschaftmitbeschränkterhaftung" needs.
- `DefaultAliases` (aliases.go:37-911) is static data. Only the entries the scenarios use are modelled, in `Aliases.DefaultAliasesExcerpt`: `"*"` line 40, CH line 146, US line 400, DE line 627. The scenarios that find no alias are proved over the excerpt. Four facts about the full table are read off the source, not proved: the `"*"` and US tables (aliases.go:38-50, 373-404) have no entry for the German phrase, the DE table (aliases.go:624-651) has no `"incorporated"` entry, and `DefaultAliases` has no `"XX"` country.
- The contents of the `Default` legal-form dictionary are not part of this model. The strip scenarios use a small dictionary, `StripScenarios.SampleForms`, holding the cleaned forms the cases need.
- The sixth case of strip_test.go (lines 42-46, a Mexican name with a ten-token legal form) is not restated. Evaluating `Clean` on literals that long is beyond what the solver handles at a reasonable cost. `StripScenarios.StripOfWords` covers names of that shape in general.
- The alias test phrases are written as concatenations of short pieces (`AliasScenarios.GmbHPhrase`, `AliasScenarios.IncorporatedWord`), each proved equal to the test's literal, for the same reason.
- Concurrent reads of the shared tables, and the testify harness, are not modelled.
