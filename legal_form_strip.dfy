/**
 `LegalForms.Strip` of strip.go: split a company name into the plain name and
 the legal-form suffix, by scanning the tokens from the last one down to the
 second and testing the cleaned suffix against the dictionary of legal forms.
 */
module LegalFormStrip {
  import opened Cleaning
  import opened Tokenizer

  /** `LegalForms`: the dictionary of cleaned legal-form phrases, used only for membership. */
  type LegalForms = set<string>

  /** The cleaned tokens, in order (what `currentCleanTokens` holds for a window). */
  function CleanAll(ts: seq<string>): seq<string>
  {
    if |ts| == 0 then [] else [Clean(ts[0])] + CleanAll(ts[1..])
  }

  /** Two token lists of the same length whose tokens clean pairwise to the same text. */
  predicate SameCleaning(t1: seq<string>, t2: seq<string>) {
    |t1| == |t2| && forall i :: 0 <= i < |t1| ==> Clean(t1[i]) == Clean(t2[i])
  }

  /** The search key of a window of tokens: the cleaned tokens concatenated without separator. */
  function Key(ts: seq<string>): string
  {
    Join(CleanAll(ts), "")
  }

  /** The suffix of `tokens` starting at `j` is a legal form. */
  predicate IsHit(forms: LegalForms, tokens: seq<string>, j: nat)
    requires j <= |tokens|
  {
    Key(tokens[j..]) in forms
  }

  /**
   The smallest index `k >= lo` whose suffix is a legal form, or `|tokens|`
   when there is none.
   */
  function HitFrom(forms: LegalForms, tokens: seq<string>, lo: nat): (k: nat)
    ensures k <= |tokens|
    ensures lo <= |tokens| ==> lo <= k
    ensures k < |tokens| ==> IsHit(forms, tokens, k)
    ensures forall j :: lo <= j < k ==> !IsHit(forms, tokens, j)
    decreases |tokens| - lo
  {
    if lo >= |tokens| then |tokens|
    else if IsHit(forms, tokens, lo) then lo
    else HitFrom(forms, tokens, lo + 1)
  }

  /** A name split into its company tokens and its legal-form tokens. */
  datatype Split = Split(company: seq<string>, legalForm: seq<string>)

  /**
   What `Strip` computes on the token level: the legal form is the suffix
   starting at the smallest index in [1, |tokens| - 1] whose cleaned
   concatenation is in the dictionary, and empty when there is none. Index 0
   is never tested, so the company keeps the first token.
   */
  function SplitTokens(forms: LegalForms, tokens: seq<string>): (r: Split)
    ensures r.company + r.legalForm == tokens
    ensures |tokens| > 0 ==> |r.company| > 0
    ensures |r.legalForm| > 0 ==> Key(r.legalForm) in forms
    ensures forall j :: 1 <= j < |r.company| ==> !IsHit(forms, tokens, j)
  {
    var k := HitFrom(forms, tokens, 1);
    assert k < |tokens| ==> IsHit(forms, tokens, k);
    Split(tokens[..k], tokens[k..])
  }

  /** `Strip` as a function of its input: the two parts, each joined with single spaces. */
  function StripSpec(forms: LegalForms, fullName: string): (string, string)
  {
    var sp := SplitTokens(forms, Tokenize(fullName));
    (Join(sp.company, " "), Join(sp.legalForm, " "))
  }

  /**
   `Strip` as strip.go writes it: the backward loop over the tokens, with
   `currentTokens` reset on every hit and `currentCleanTokens` never reset.
   */
  method Strip(forms: LegalForms, fullName: string) returns (company: string, legalForm: string)
    ensures (company, legalForm) == StripSpec(forms, fullName)
  {
    var tokens := Tokenize(fullName);

    var currentTokens: seq<string> := [];
    var currentCleanTokens: seq<string> := [];
    var legalFormTokens: seq<string> := [];

    var i := |tokens| - 1;
    ghost var hit := |tokens|;  // where legalFormTokens starts
    while i > 0
      invariant -1 <= i < |tokens|
      invariant i < 0 ==> |tokens| == 0
      invariant hit == HitFrom(forms, tokens, i + 1)
      invariant currentCleanTokens == CleanAll(tokens[i + 1..])
      invariant currentTokens == tokens[i + 1..hit]
      invariant legalFormTokens == tokens[hit..]
    {
      var token := tokens[i];
      var cleanToken := Clean(token);

      PrependSlice(tokens, i, hit);
      currentTokens := [token] + currentTokens;
      WindowStep(forms, tokens, i);
      currentCleanTokens := [cleanToken] + currentCleanTokens;
      var tokenSearch := Join(currentCleanTokens, "");

      if tokenSearch in forms {
        AppendSlices(tokens, i, hit);
        legalFormTokens := currentTokens + legalFormTokens;
        currentTokens := [];
        hit := i;
      }
      i := i - 1;
    }

    StripSpecAt(forms, fullName);
    company := Join(tokens[0..|tokens| - |legalFormTokens|], " ");
    legalForm := Join(legalFormTokens, " ");
  }

  /** One step of the scan: the cleaned window grows by `tokens[i]`, and the first hit from `i` is `i` or the one after it. */
  lemma WindowStep(forms: LegalForms, tokens: seq<string>, i: nat)
    requires i < |tokens|
    ensures CleanAll(tokens[i..]) == [Clean(tokens[i])] + CleanAll(tokens[i + 1..])
    ensures HitFrom(forms, tokens, i) == if Key(tokens[i..]) in forms then i else HitFrom(forms, tokens, i + 1)
  {
    assert tokens[i..][1..] == tokens[i + 1..];
  }

  /** StripSpec cuts the tokens at the first hit from index 1. */
  lemma StripSpecAt(forms: LegalForms, fullName: string)
    ensures var tokens := Tokenize(fullName);
      var k := HitFrom(forms, tokens, 1);
      StripSpec(forms, fullName) == (Join(tokens[..k], " "), Join(tokens[k..], " "))
  {
  }

  /** Prepending `s[i]` to the slice that follows it. */
  lemma PrependSlice<T>(s: seq<T>, i: nat, j: nat)
    requires i < j <= |s|
    ensures [s[i]] + s[i + 1..j] == s[i..j]
  {
  }

  /** Two adjacent slices make up the suffix they cover. */
  lemma AppendSlices<T>(s: seq<T>, i: nat, j: nat)
    requires i <= j <= |s|
    ensures s[i..j] + s[j..] == s[i..]
  {
  }

  /** The key of tokens is the cleaned text of those tokens joined by spaces. */
  lemma {:induction false} KeyIsCleanedText(ts: seq<string>)
    ensures Key(ts) == Clean(Join(ts, " "))
  {
    if |ts| == 1 {
      assert CleanAll(ts) == [Clean(ts[0])] + CleanAll([]);
    } else if |ts| > 1 {
      KeyIsCleanedText(ts[1..]);
      JoinAppend([Clean(ts[0])], CleanAll(ts[1..]), "");
      CleanAppend(ts[0] + " ", Join(ts[1..], " "));
      CleanAppend(ts[0], " ");
      assert Clean(" ") == "";
    }
  }

  /** Token lists that clean pairwise alike have the same cleaned tokens, and so the same key. */
  lemma {:induction false} SameCleaningSameKey(t1: seq<string>, t2: seq<string>)
    requires SameCleaning(t1, t2)
    ensures CleanAll(t1) == CleanAll(t2)
    ensures Key(t1) == Key(t2)
  {
    if |t1| > 0 {
      assert SameCleaning(t1[1..], t2[1..]) by {
        forall i | 0 <= i < |t1| - 1 ensures Clean(t1[1..][i]) == Clean(t2[1..][i]) {
          assert t1[1..][i] == t1[i + 1] && t2[1..][i] == t2[i + 1];
        }
      }
      SameCleaningSameKey(t1[1..], t2[1..]);
    }
  }

  /** Two token lists with the same keys from `lo` on have the same first hit from `lo` on. */
  lemma {:induction false} HitFromAgree(forms: LegalForms, t1: seq<string>, t2: seq<string>, lo: nat)
    requires |t1| == |t2|
    requires forall j :: lo <= j <= |t1| ==> Key(t1[j..]) == Key(t2[j..])
    ensures HitFrom(forms, t1, lo) == HitFrom(forms, t2, lo)
    decreases |t1| - lo
  {
    if lo < |t1| {
      assert Key(t1[lo..]) == Key(t2[lo..]);
      HitFromAgree(forms, t1, t2, lo + 1);
    }
  }

  /**
   The characterisation in SplitTokens determines the split: any split with
   those four properties is the one `Strip` computes.
   */
  lemma SplitTokensUnique(forms: LegalForms, tokens: seq<string>, s: Split)
    requires s.company + s.legalForm == tokens
    requires |tokens| > 0 ==> |s.company| > 0
    requires |s.legalForm| > 0 ==> Key(s.legalForm) in forms
    requires forall j :: 1 <= j < |s.company| ==> !IsHit(forms, tokens, j)
    ensures s == SplitTokens(forms, tokens)
  {
    var k := |s.company|;
    var h := HitFrom(forms, tokens, 1);
    assert s.company == tokens[..k] && s.legalForm == tokens[k..];
    if |s.legalForm| > 0 {
      assert tokens[k..] == s.legalForm;
      assert IsHit(forms, tokens, k);
    }
  }

  /** With at most one token the loop body never runs: no legal form, the token is the company. */
  lemma StripFewTokens(forms: LegalForms, fullName: string)
    requires |Tokenize(fullName)| <= 1
    ensures StripSpec(forms, fullName).1 == ""
    ensures StripSpec(forms, fullName).0 == if |Tokenize(fullName)| == 0 then "" else Tokenize(fullName)[0]
  {
  }

  /** When no suffix from index 1 on is a legal form, the whole name is the company. */
  lemma StripNoMatch(forms: LegalForms, fullName: string)
    requires forall j :: 1 <= j < |Tokenize(fullName)| ==> !IsHit(forms, Tokenize(fullName), j)
    ensures StripSpec(forms, fullName) == (Join(Tokenize(fullName), " "), "")
  {
    var ts := Tokenize(fullName);
    assert ts[..|ts|] == ts;
  }

  /**
   The company is non-empty whenever the name has a token, and company, a
   space and legal form put back together are the tokens joined by spaces.
   */
  lemma StripReassembles(forms: LegalForms, fullName: string)
    ensures var (company, legalForm) := StripSpec(forms, fullName);
      && (|Tokenize(fullName)| > 0 ==> company != "")
      && (legalForm == "" ==> company == Join(Tokenize(fullName), " "))
      && (legalForm != "" ==> company + " " + legalForm == Join(Tokenize(fullName), " "))
  {
    var ts := Tokenize(fullName);
    var sp := SplitTokens(forms, ts);
    if |sp.company| > 0 {
      assert IsWord(ts[0]) && sp.company[0] == ts[0];
      JoinStartsWithFirst(sp.company, " ");
    }
    if |sp.legalForm| > 0 {
      assert IsWord(ts[|sp.company|]) && sp.legalForm[0] == ts[|sp.company|];
      if |sp.company| > 0 {
        JoinAppend(sp.company, sp.legalForm, " ");
      }
    } else {
      assert sp.company == ts;
    }
  }

  /** A non-empty legal form cleans to a phrase of the dictionary. */
  lemma StripLegalFormIsKnown(forms: LegalForms, fullName: string)
    ensures StripSpec(forms, fullName).1 != "" ==> Clean(StripSpec(forms, fullName).1) in forms
  {
    var sp := SplitTokens(forms, Tokenize(fullName));
    KeyIsCleanedText(sp.legalForm);
  }

  /**
   Case and punctuation do not move the split: names whose tokens clean to
   the same keys give parts that clean to the same text.
   */
  lemma StripRespectsClean(forms: LegalForms, a: string, b: string)
    requires SameCleaning(Tokenize(a), Tokenize(b))
    ensures Clean(StripSpec(forms, a).0) == Clean(StripSpec(forms, b).0)
    ensures Clean(StripSpec(forms, a).1) == Clean(StripSpec(forms, b).1)
  {
    var ta, tb := Tokenize(a), Tokenize(b);
    forall j | 1 <= j <= |ta|
      ensures Key(ta[j..]) == Key(tb[j..])
    {
      SameCleaningSameKey(ta[j..], tb[j..]);
    }
    HitFromAgree(forms, ta, tb, 1);
    var k := HitFrom(forms, ta, 1);
    SameCleaningSameKey(ta[..k], tb[..k]);
    SameCleaningSameKey(ta[k..], tb[k..]);
    KeyIsCleanedText(ta[..k]);
    KeyIsCleanedText(tb[..k]);
    KeyIsCleanedText(ta[k..]);
    KeyIsCleanedText(tb[k..]);
  }

  /** Index 0 is never tested: the first token has no influence on the legal form. */
  lemma StripIgnoresFirstToken(forms: LegalForms, x: string, y: string, rest: seq<string>)
    ensures SplitTokens(forms, [x] + rest).legalForm == SplitTokens(forms, [y] + rest).legalForm
  {
    var t1, t2 := [x] + rest, [y] + rest;
    assert forall j :: 1 <= j <= |t1| ==> t1[j..] == t2[j..];
    HitFromAgree(forms, t1, t2, 1);
  }
}
