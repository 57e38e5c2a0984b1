/** The triage loop of `FindingRelativeVerbs.py`: every verb whose features say
    `RelType=Other` is sorted by its left neighbour. The sentence id goes to `other_good`
    when that neighbour is a preposition or a relative pronoun with `PronType=Rel`, and to
    `check_other` (the list written out for checking) otherwise. The module-level lists
    start empty, so the loop is a method returning both. */
module RelativeVerbs {
  import opened Wrappers
  import opened Strings
  import opened Tokens

  /** The verbs the loop looks at: UPOS `VERB`, no `ō` in the lemma, and a `RelType`
      feature that is present, truthy and equal to `Other`. */
  predicate Qualifies(t: Token)
  {
    t.upos == "VERB" && !IsSubstring("ō", t.lem) && GetFeat(t, "RelType") == Some(Some("Other"))
  }

  /** `sentence[count-1]`: for the first token Python's index -1 is the last token. */
  function Previous(s: seq<Token>, c: nat): Token
    requires c < |s|
  {
    if c >= 1 then s[c - 1] else s[|s| - 1]
  }

  /** A relative pronoun whose `PronType` is present and equal to `Rel`. */
  predicate RelativePronoun(t: Token)
  {
    t.xpos == "pronoun_relative" && GetFeat(t, "PronType") == Some(Some("Rel"))
  }

  /** `count >= 1 and prev['upos'] == 'ADP' or (prev is a relative pronoun)`: `and` binds
      tighter than `or`, so the pronoun test also runs at count 0, on `sentence[-1]`. */
  predicate GoodContext(s: seq<Token>, c: nat)
    requires c < |s|
  {
    (c >= 1 && s[c - 1].upos == "ADP") || RelativePronoun(Previous(s, c))
  }

  /** What the loop dereferences without a guard: the feats of a verb without `ō`
      (`word['feats'].get`), the feats of the neighbour whenever the pronoun test reaches
      `.get('PronType')`, and the sentence id of a sentence with a qualifying verb.
      Python raises AttributeError on a feats that is None and KeyError on a missing id. */
  predicate Readable(s: TokenList)
  {
    && (forall c :: 0 <= c < |s.tokens| && s.tokens[c].upos == "VERB" && !IsSubstring("ō", s.tokens[c].lem)
          ==> s.tokens[c].feats.FMap?)
    && (forall c :: 0 <= c < |s.tokens| && Qualifies(s.tokens[c])
          ==> "sent_id" in s.metadata)
    && (forall c :: 0 <= c < |s.tokens| && Qualifies(s.tokens[c])
          && !(c >= 1 && s.tokens[c - 1].upos == "ADP")
          && Previous(s.tokens, c).xpos == "pronoun_relative"
          ==> Previous(s.tokens, c).feats.FMap?)
  }

  /** The ids one sentence appends for its first `n` tokens: to `other_good` when `good`
      holds, to `check_other` otherwise. */
  function IdsOf(s: TokenList, n: nat, good: bool): seq<string>
    requires n <= |s.tokens| && Readable(s)
  {
    if n == 0 then []
    else
      IdsOf(s, n - 1, good)
        + if Qualifies(s.tokens[n - 1]) && GoodContext(s.tokens, n - 1) == good
          then [s.metadata["sent_id"]] else []
  }

  /** The ids the whole list appends, sentence by sentence. */
  function AllIds(ss: seq<TokenList>, good: bool): seq<string>
    requires forall j :: 0 <= j < |ss| ==> Readable(ss[j])
  {
    if |ss| == 0 then []
    else AllIds(ss[..|ss| - 1], good) + IdsOf(ss[|ss| - 1], |ss[|ss| - 1].tokens|, good)
  }

  /** The inner loop `for count, word in enumerate(sentence)`, appending to the lists. */
  method ClassifySentence(s: TokenList, good0: seq<string>, check0: seq<string>)
      returns (good: seq<string>, check: seq<string>)
    requires Readable(s)
    ensures good == good0 + IdsOf(s, |s.tokens|, true)
    ensures check == check0 + IdsOf(s, |s.tokens|, false)
  {
    good, check := good0, check0;
    var sentence := s.tokens;
    for count := 0 to |sentence|
      invariant good == good0 + IdsOf(s, count, true)
      invariant check == check0 + IdsOf(s, count, false)
    {
      var word := sentence[count];
      if word.upos == "VERB" && !IsSubstring("ō", word.lem)
        && HasFeat(word, "RelType")
        && GetFeat(word, "RelType") == Some(Some("Other"))
      {
        var prev := if count >= 1 then sentence[count - 1] else sentence[|sentence| - 1];
        if (count >= 1 && prev.upos == "ADP")
          || (prev.xpos == "pronoun_relative"
              && HasFeat(prev, "PronType")
              && GetFeat(prev, "PronType") == Some(Some("Rel")))
        {
          good := good + [s.metadata["sent_id"]];
        } else {
          check := check + [s.metadata["sent_id"]];
        }
      }
    }
  }

  /** The loop over `sentence_list`: the two lists it leaves behind. */
  method FindRelativeVerbs(ss: seq<TokenList>) returns (otherGood: seq<string>, checkOther: seq<string>)
    requires forall j :: 0 <= j < |ss| ==> Readable(ss[j])
    ensures otherGood == AllIds(ss, true)
    ensures checkOther == AllIds(ss, false)
  {
    otherGood, checkOther := [], [];
    for j := 0 to |ss|
      invariant otherGood == AllIds(ss[..j], true)
      invariant checkOther == AllIds(ss[..j], false)
    {
      assert ss[..j + 1][..j] == ss[..j];
      otherGood, checkOther := ClassifySentence(ss[j], otherGood, checkOther);
    }
    assert ss[..|ss|] == ss;
  }

  /** The qualifying verbs among the first `n` tokens. */
  function QualifyingCount(s: seq<Token>, n: nat): nat
    requires n <= |s|
  {
    if n == 0 then 0 else QualifyingCount(s, n - 1) + if Qualifies(s[n - 1]) then 1 else 0
  }

  /** Each qualifying verb appends its sentence's id to exactly one of the two lists, and
      nothing else is appended: the lists hold only that id, once per qualifying verb. */
  lemma {:induction false} OnePerVerb(s: TokenList, n: nat)
    requires n <= |s.tokens| && Readable(s)
    ensures |IdsOf(s, n, true)| + |IdsOf(s, n, false)| == QualifyingCount(s.tokens, n)
    ensures forall x :: x in IdsOf(s, n, true) ==> "sent_id" in s.metadata && x == s.metadata["sent_id"]
    ensures forall x :: x in IdsOf(s, n, false) ==> "sent_id" in s.metadata && x == s.metadata["sent_id"]
  {
    if n > 0 {
      OnePerVerb(s, n - 1);
    }
  }

  /** A verb that qualifies sends the id to `other_good` exactly when its context is good,
      and to `check_other` otherwise. */
  lemma VerbSorted(s: TokenList, c: nat)
    requires c < |s.tokens| && Readable(s) && Qualifies(s.tokens[c])
    ensures GoodContext(s.tokens, c) ==> IdsOf(s, c + 1, true) == IdsOf(s, c, true) + [s.metadata["sent_id"]]
    ensures GoodContext(s.tokens, c) ==> IdsOf(s, c + 1, false) == IdsOf(s, c, false)
    ensures !GoodContext(s.tokens, c) ==> IdsOf(s, c + 1, false) == IdsOf(s, c, false) + [s.metadata["sent_id"]]
    ensures !GoodContext(s.tokens, c) ==> IdsOf(s, c + 1, true) == IdsOf(s, c, true)
  {
  }

  /** A token that does not qualify appends nothing to either list. */
  lemma Unclassified(s: TokenList, c: nat)
    requires c < |s.tokens| && Readable(s) && !Qualifies(s.tokens[c])
    ensures IdsOf(s, c + 1, true) == IdsOf(s, c, true) && IdsOf(s, c + 1, false) == IdsOf(s, c, false)
  {
  }

  /** The first token: there is no preposition test, and the pronoun test reads the last
      token of the sentence. A qualifying verb at the start of a sentence that ends in a
      relative pronoun with `PronType=Rel` is therefore filed under `other_good`. */
  lemma FirstTokenReadsLast(s: seq<Token>)
    requires |s| > 0
    ensures GoodContext(s, 0) <==> RelativePronoun(s[|s| - 1])
  {
  }

  /** A concrete sentence: a qualifying verb first and a relative pronoun last. */
  lemma FirstTokenExample(verb: Token, pron: Token)
    requires Qualifies(verb) && verb.feats.FMap?
    requires RelativePronoun(pron) && pron.feats.FMap? && pron.upos == "PRON"
    ensures var s := TokenList(map["sent_id" := "5"], [verb, pron]);
      Readable(s) && IdsOf(s, 2, true) == ["5"] && IdsOf(s, 2, false) == []
  {
    var s := TokenList(map["sent_id" := "5"], [verb, pron]);
    assert Previous(s.tokens, 0) == pron && Previous(s.tokens, 1) == verb;
    assert Readable(s);
    assert GoodContext(s.tokens, 0);
    assert !Qualifies(pron);
    assert IdsOf(s, 1, true) == ["5"] && IdsOf(s, 1, false) == [];
  }
}
