/**
 The cases of strip_test.go, stated over a small dictionary that holds the
 cleaned legal forms those cases need.
 */
module StripScenarios {
  import opened Cleaning
  import opened Tokenizer
  import opened LegalFormStrip

  /** Cleaned legal forms: "LLC", "KG", "AG", "e.V." and "GmbH & Co. KG". */
  const SampleForms: LegalForms := {"llc", "kg", "ag", "ev", "gmbhcokg"}

  /**
   For a name made of the words of `company` and then those of `legalForm`,
   joined by single spaces, `Strip` splits off `legalForm` when its key is in
   the dictionary and no longer suffix starting after the first word is.
   */
  lemma StripOfWords(forms: LegalForms, company: seq<string>, legalForm: seq<string>,
                     name: string, companyText: string, legalFormText: string)
    requires forall i :: 0 <= i < |company| ==> IsWord(company[i])
    requires forall i :: 0 <= i < |legalForm| ==> IsWord(legalForm[i])
    requires |company| > 0 && |legalForm| > 0
    requires Key(legalForm) in forms
    requires forall j :: 1 <= j < |company| ==> Key(company[j..] + legalForm) !in forms
    requires companyText == Join(company, " ") && legalFormText == Join(legalForm, " ")
    requires name == companyText + " " + legalFormText
    ensures StripSpec(forms, name) == (companyText, legalFormText)
  {
    var ts := company + legalForm;
    WordsAppend(company, legalForm);
    JoinAppend(company, legalForm, " ");
    TokenizeJoin(ts);
    NoHitInCompany(forms, company, legalForm);
    SplitTokensUnique(forms, ts, Split(company, legalForm));
  }

  /** Two lists of words put together are a list of words. */
  lemma WordsAppend(t1: seq<string>, t2: seq<string>)
    requires forall i :: 0 <= i < |t1| ==> IsWord(t1[i])
    requires forall i :: 0 <= i < |t2| ==> IsWord(t2[i])
    ensures forall i :: 0 <= i < |t1 + t2| ==> IsWord((t1 + t2)[i])
  {
    forall i | 0 <= i < |t1 + t2|
      ensures IsWord((t1 + t2)[i])
    {
      assert (t1 + t2)[i] == if i < |t1| then t1[i] else t2[i - |t1|];
    }
  }

  /** No suffix of the name that starts inside the company, after its first word, is a hit. */
  lemma NoHitInCompany(forms: LegalForms, company: seq<string>, legalForm: seq<string>)
    requires forall j :: 1 <= j < |company| ==> Key(company[j..] + legalForm) !in forms
    ensures forall j :: 1 <= j < |company| ==> !IsHit(forms, company + legalForm, j)
  {
    forall j | 1 <= j < |company|
      ensures !IsHit(forms, company + legalForm, j)
    {
      assert (company + legalForm)[j..] == company[j..] + legalForm;
    }
  }

  /** The cleaned tokens of a token followed by more tokens. */
  lemma CleanAllCons(t: string, rest: seq<string>)
    ensures CleanAll([t] + rest) == [Clean(t)] + CleanAll(rest)
  {
    assert ([t] + rest)[1..] == rest;
  }

  /** The key of a single token is its cleaned text. */
  lemma KeyOne(t: string)
    ensures Key([t]) == Clean(t)
  {
    CleanAllCons(t, []);
    assert [t] + [] == [t];
    var cs := CleanAll([t]);
    assert cs == [Clean(t)];
    assert Join(cs, "") == cs[0];
  }

  /** The key of a token followed by more tokens. */
  lemma KeyCons(t: string, rest: seq<string>)
    requires |rest| > 0
    ensures Key([t] + rest) == Clean(t) + Key(rest)
  {
    CleanAllCons(t, rest);
    CleanAllCons(rest[0], rest[1..]);
    assert [rest[0]] + rest[1..] == rest;
    JoinCons(Clean(t), CleanAll(rest), "");
    assert Clean(t) + "" == Clean(t);
  }

  /** The join of a token followed by more tokens. */
  lemma JoinCons(t: string, rest: seq<string>, sep: string)
    requires |rest| > 0
    ensures Join([t] + rest, sep) == t + sep + Join(rest, sep)
  {
    assert ([t] + rest)[1..] == rest;
  }

  /** The tokens of the scenarios, cleaned one per lemma. */
  lemma CleanLLC()
    ensures Clean("LLC") == "llc"
  {
  }

  lemma CleanKG()
    ensures Clean("KG") == "kg"
  {
  }

  lemma CleanCo()
    ensures Clean("Co.") == "co"
  {
  }

  lemma CleanAmp()
    ensures Clean("&") == ""
  {
  }

  lemma CleanGmbH()
    ensures Clean("GmbH") == "gmbh"
  {
  }

  lemma CleanAG()
    ensures Clean("AG") == "ag"
  {
  }

  lemma CleanOy()
    ensures Clean("Oy") == "oy"
  {
  }

  lemma CleanEV()
    ensures Clean("e.V.") == "ev"
  {
  }

  /** "Example LLC": the last token is the legal form. */
  lemma StripExampleLLC()
    ensures StripSpec(SampleForms, "Example LLC") == ("Example", "LLC")
  {
    KeyOne("LLC");
    CleanLLC();
    StripOfWords(SampleForms, ["Example"], ["LLC"], "Example LLC", "Example", "LLC");
  }

  /** The key of the tokens of "Co. KG". */
  lemma KeyCoKG()
    ensures Key(["Co.", "KG"]) == "cokg"
  {
    KeyOne("KG");
    CleanKG();
    KeyCons("Co.", ["KG"]);
    CleanCo();
  }

  /** The key of the tokens of "& Co. KG". */
  lemma KeyAndCoKG()
    ensures Key(["&", "Co.", "KG"]) == "cokg"
  {
    KeyCoKG();
    KeyCons("&", ["Co.", "KG"]);
    CleanAmp();
  }

  /** The key of the tokens of "GmbH & Co. KG". */
  lemma KeyGmbHCoKG()
    ensures Key(["GmbH", "&", "Co.", "KG"]) == "gmbhcokg"
  {
    KeyAndCoKG();
    KeyCons("GmbH", ["&", "Co.", "KG"]);
    CleanGmbH();
  }

  /** "Example" is a single word. */
  lemma WordExample()
    ensures forall i :: 0 <= i < 1 ==> IsWord(["Example"][i])
    ensures Join(["Example"], " ") == "Example"
  {
  }

  /** The tokens of "GmbH & Co. KG" are words. */
  lemma WordsGmbHCoKG()
    ensures forall i :: 0 <= i < 4 ==> IsWord(["GmbH", "&", "Co.", "KG"][i])
  {
  }

  /** The tokens of "GmbH & Co. KG" join back to it. */
  lemma JoinGmbHCoKG()
    ensures Join(["GmbH", "&", "Co.", "KG"], " ") == "GmbH & Co. KG"
  {
  }

  /** The two ways "Example GmbH & Co. KG" is cut in the scenarios. */
  lemma NameExampleGmbHCoKG()
    ensures "Example GmbH & Co. KG" == "Example" + " " + "GmbH & Co. KG"
    ensures "Example GmbH & Co. KG" == "Example GmbH & Co." + " " + "KG"
  {
  }

  /** "Example GmbH & Co. KG": the longest suffix that is a legal form wins over the shorter "KG". */
  lemma StripExampleGmbHCoKG()
    ensures StripSpec(SampleForms, "Example GmbH & Co. KG") == ("Example", "GmbH & Co. KG")
  {
    KeyGmbHCoKG();
    WordExample();
    WordsGmbHCoKG();
    JoinGmbHCoKG();
    NameExampleGmbHCoKG();
    StripOfWords(SampleForms, ["Example"], ["GmbH", "&", "Co.", "KG"], "Example GmbH & Co. KG", "Example", "GmbH & Co. KG");
  }

  /** The tokens of "Example GmbH & Co." and of "KG" are words. */
  lemma WordsExampleGmbHCo()
    ensures forall i :: 0 <= i < 4 ==> IsWord(["Example", "GmbH", "&", "Co."][i])
    ensures forall i :: 0 <= i < 1 ==> IsWord(["KG"][i])
  {
  }

  /** The tokens of "Example GmbH & Co." and of "KG" join back to them. */
  lemma JoinExampleGmbHCo()
    ensures Join(["Example", "GmbH", "&", "Co."], " ") == "Example GmbH & Co."
    ensures Join(["KG"], " ") == "KG"
  {
  }

  /** The suffixes of "Example GmbH & Co. KG" that the scan tests before "KG". */
  lemma SuffixesExampleGmbHCo()
    ensures ["Example", "GmbH", "&", "Co."][1..] + ["KG"] == ["GmbH", "&", "Co.", "KG"]
    ensures ["Example", "GmbH", "&", "Co."][2..] + ["KG"] == ["&", "Co.", "KG"]
    ensures ["Example", "GmbH", "&", "Co."][3..] + ["KG"] == ["Co.", "KG"]
  {
  }

  /** Without "gmbhcokg", no suffix of "Example GmbH & Co. KG" from "GmbH" to "Co." is a legal form. */
  lemma NoFormBeforeKG()
    ensures forall j :: 1 <= j < 4 ==> Key(["Example", "GmbH", "&", "Co."][j..] + ["KG"]) !in SampleForms - {"gmbhcokg"}
  {
    var company := ["Example", "GmbH", "&", "Co."];
    SuffixesExampleGmbHCo();
    forall j | 1 <= j < 4
      ensures Key(company[j..] + ["KG"]) !in SampleForms - {"gmbhcokg"}
    {
      if j == 1 {
        KeyGmbHCoKG();
      } else if j == 2 {
        KeyAndCoKG();
      } else {
        KeyCoKG();
      }
    }
  }

  /**
   Without "gmbhcokg" in the dictionary only "KG" is split off
   "Example GmbH & Co. KG": the longer form is found only if it is listed.
   */
  lemma StripExampleGmbHCoKGNeedsLongForm()
    ensures StripSpec(SampleForms - {"gmbhcokg"}, "Example GmbH & Co. KG") == ("Example GmbH & Co.", "KG")
  {
    KeyOne("KG");
    CleanKG();
    NoFormBeforeKG();
    WordsExampleGmbHCo();
    JoinExampleGmbHCo();
    NameExampleGmbHCoKG();
    var forms := SampleForms - {"gmbhcokg"};
    var company := ["Example", "GmbH", "&", "Co."];
    StripOfWords(forms, company, ["KG"], "Example GmbH & Co. KG", "Example GmbH & Co.", "KG");
  }

  /** The tokens of "llc Oy AG", how they join, and the suffix the scan tests first. */
  lemma TextLlcOyAG()
    ensures forall i :: 0 <= i < 2 ==> IsWord(["llc", "Oy"][i])
    ensures forall i :: 0 <= i < 1 ==> IsWord(["AG"][i])
    ensures Join(["llc", "Oy"], " ") == "llc Oy"
    ensures Join(["AG"], " ") == "AG"
    ensures "llc Oy AG" == "llc Oy" + " " + "AG"
    ensures ["llc", "Oy"][1..] + ["AG"] == ["Oy", "AG"]
  {
  }

  /** The keys of the suffixes of "llc Oy AG" that the scan tests. */
  lemma KeyOyAG()
    ensures Key(["AG"]) == "ag"
    ensures Key(["Oy", "AG"]) == "oyag"
  {
    KeyOne("AG");
    CleanAG();
    KeyCons("Oy", ["AG"]);
    CleanOy();
  }

  /** "llc Oy AG": the first token is never tested, so only "AG" is split off. */
  lemma StripLlcOyAG()
    ensures StripSpec(SampleForms, "llc Oy AG") == ("llc Oy", "AG")
  {
    TextLlcOyAG();
    KeyOyAG();
    StripOfWords(SampleForms, ["llc", "Oy"], ["AG"], "llc Oy AG", "llc Oy", "AG");
  }

  /** "llc Oy AG" keeps its first token even when the whole name cleans to a legal form. */
  lemma StripLlcOyAGWholeNameKnown()
    ensures StripSpec(SampleForms + {"llcoyag"}, "llc Oy AG") == ("llc Oy", "AG")
  {
    TextLlcOyAG();
    KeyOyAG();
    StripOfWords(SampleForms + {"llcoyag"}, ["llc", "Oy"], ["AG"], "llc Oy AG", "llc Oy", "AG");
  }

  /** "Example KG". */
  lemma StripExampleKG()
    ensures StripSpec(SampleForms, "Example KG") == ("Example", "KG")
  {
    KeyOne("KG");
    CleanKG();
    StripOfWords(SampleForms, ["Example"], ["KG"], "Example KG", "Example", "KG");
  }

  /** "Example e.V.": punctuation is cleaned away for the lookup, and kept in the result. */
  lemma StripExampleEV()
    ensures StripSpec(SampleForms, "Example e.V.") == ("Example", "e.V.")
  {
    KeyOne("e.V.");
    CleanEV();
    StripOfWords(SampleForms, ["Example"], ["e.V."], "Example e.V.", "Example", "e.V.");
  }
}
