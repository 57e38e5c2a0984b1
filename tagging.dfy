/** The UPOS table and the DEPREL rules for function words. Both the converter
    (`current_conllu_maker.py`, section 6) and the repair script (`edit_conllu.py`,
    parts 2 and 3) carry a copy. The converter's copy acts only on word lines (integer
    ids) and also tags `adjective_quantifier` as `det`. The repair script's copy acts on
    every line and runs the copula rule a second time, after the numeral rule. */
module Tagging {
  import opened Wrappers
  import opened Strings
  import opened Tokens

  /** Which copy of the rules: the converter's or the repair script's. */
  datatype Variant = Maker | Repair

  /** The converter tests `isinstance(word['id'], int)` first; the repair script does not. */
  predicate Applies(v: Variant, t: Token)
  {
    v == Repair || t.id.Int?
  }

  // ---------------------------------------------------------------------------------
  // UPOS

  /** `upos_list`, one pair per single-entry dict and in the same order. The list keeps two
      entries for `particle_interrogative` (first PART, then PRON) and spells one key
      `adective_pronominal`. */
  const UposList: seq<(string, string)> := [
    ("adjective", "ADJ"), ("adjective_numeral", "NUM"), ("adjective_numeral_noun", "ADJ"),
    ("adective_pronominal", "DET"), ("noun", "NOUN"), ("noun_numeral", "NUM"), ("numeral", "NUM"),
    ("adverb", "ADV"), ("complementizer", "SCONJ"), ("definite_article", "DET"),
    ("focus_particle", "PART"), ("interjection", "INTJ"), ("pronoun_independent", "PRON"),
    ("pronoun_infixed", "PRON"), ("pronoun_infix", "PRON"), ("pronoun_possessive", "DET"),
    ("pronoun_propword", "PRON"), ("pronoun_quantifier", "PRON"), ("pronoun_relative", "PRON"),
    ("proper_noun", "PROPN"), ("verb", "VERB"), ("verbal_participle", "ADJ"),
    ("particle_anaphoric", "PRON"), ("particle_augment", "PART"), ("particle_comparative", "SCONJ"),
    ("particle_demonstrative_distal", "DET"), ("particle_demonstrative_proximate", "DET"),
    ("particle_interrogative", "PART"), ("particle_numerative", "PART"),
    ("particle_pronominal", "PRON"), ("particle_vocative", "PART"), ("preposition", "ADP"),
    ("pronoun_anaphoric", "PRON"), ("pronoun_demonstrative_distal", "PRON"),
    ("particle_interrogative", "PRON"), ("particle_negative_main", "PART"),
    ("particle_negative_subordinate", "PART"), ("auxiliary", "AUX"),
    ("pronoun_demonstrative_proximate", "PRON"), ("particle_discourse", "ADV"),
    ("verbal_noun", "NOUN"), ("abbreviation", "CCONJ"), ("particle_preverb", "SCONJ"),
    ("adjective_quantifier", "DET"), ("pronoun_emphatic", "PRON"), ("particle_focus", "PART")]

  /** The value of the last pair whose key is `k`: walking the pairs in order, every match
      overwrites `upos`, so the last one stays. */
  function LastValue(tbl: seq<(string, string)>, k: string): Option<string>
  {
    if |tbl| == 0 then None
    else if tbl[|tbl| - 1].0 == k then Some(tbl[|tbl| - 1].1)
    else LastValue(tbl[..|tbl| - 1], k)
  }

  /** What the product pass leaves in one token's `upos`. */
  function UposRule(v: Variant, tbl: seq<(string, string)>, t: Token): Token
  {
    if Applies(v, t) then
      match LastValue(tbl, t.xpos)
      case Some(u) => t.(upos := u)
      case None => t
    else t
  }

  /** The inner loop over the pairs of `itertools.product(sent, upos_list)` for one token. */
  method UposRow(v: Variant, tbl: seq<(string, string)>, t: Token) returns (r: Token)
    ensures r == UposRule(v, tbl, t)
  {
    r := t;
    for k := 0 to |tbl|
      invariant r == UposRule(v, tbl[..k], t)
    {
      assert tbl[..k + 1][..k] == tbl[..k];
      if Applies(v, r) && r.xpos == tbl[k].0 {
        r := r.(upos := tbl[k].1);
      }
    }
    assert tbl[..|tbl|] == tbl;
  }

  /** `assign_upos` over the product of one sentence and a table. */
  method AssignUpos(v: Variant, tbl: seq<(string, string)>, a: array<Token>)
    modifies a
    ensures forall i :: 0 <= i < a.Length ==> a[i] == UposRule(v, tbl, old(a[i]))
  {
    for i := 0 to a.Length
      invariant forall k :: 0 <= k < i ==> a[k] == UposRule(v, tbl, old(a[k]))
      invariant forall k :: i <= k < a.Length ==> a[k] == old(a[k])
    {
      a[i] := UposRow(v, tbl, a[i]);
    }
  }

  /** `upos_finder`: every sentence of the list, each with `upos_list`. */
  method UposFinder(v: Variant, ss: seq<array<Token>>)
    requires DistinctSentences(ss)
    modifies set a | a in ss
    ensures forall j, i :: 0 <= j < |ss| && 0 <= i < ss[j].Length ==>
      ss[j][i] == UposRule(v, UposList, old(ss[j][i]))
  {
    for n := 0 to |ss|
      invariant forall j, i :: 0 <= j < n && 0 <= i < ss[j].Length ==>
        ss[j][i] == UposRule(v, UposList, old(ss[j][i]))
      invariant forall j :: n <= j < |ss| ==> ss[j][..] == old(ss[j][..])
    {
      AssignUpos(v, UposList, ss[n]);
    }
  }

  /** A key that some pair carries gets the value of the last such pair. */
  lemma {:induction false} LastValueFound(tbl: seq<(string, string)>, k: string, i: nat)
    requires i < |tbl| && tbl[i].0 == k
    requires forall j :: i < j < |tbl| ==> tbl[j].0 != k
    ensures LastValue(tbl, k) == Some(tbl[i].1)
    decreases |tbl|
  {
    if i < |tbl| - 1 {
      LastValueFound(tbl[..|tbl| - 1], k, i);
    }
  }

  /** A key that no pair carries finds nothing. */
  lemma {:induction false} LastValueMissing(tbl: seq<(string, string)>, k: string)
    requires forall j :: 0 <= j < |tbl| ==> tbl[j].0 != k
    ensures LastValue(tbl, k) == None
    decreases |tbl|
  {
    if |tbl| > 0 {
      LastValueMissing(tbl[..|tbl| - 1], k);
    }
  }

  /** What is found is the value of a pair with that key that no later pair overrides. */
  lemma {:induction false} LastValueSound(tbl: seq<(string, string)>, k: string)
    requires LastValue(tbl, k).Some?
    ensures exists i ::
              && 0 <= i < |tbl| && tbl[i] == (k, LastValue(tbl, k).value)
              && (forall j :: i < j < |tbl| ==> tbl[j].0 != k)
    decreases |tbl|
  {
    var n := |tbl| - 1;
    if tbl[n].0 == k {
      assert tbl[n] == (k, LastValue(tbl, k).value);
    } else {
      LastValueSound(tbl[..n], k);
      var i :|
        && 0 <= i < n && tbl[..n][i] == (k, LastValue(tbl, k).value)
        && (forall j :: i < j < n ==> tbl[..n][j].0 != k);
      assert tbl[i] == (k, LastValue(tbl, k).value);
    }
  }

  /** `particle_interrogative` is listed twice; the later entry, PRON, is the one that stays. */
  lemma InterrogativeIsPron(tbl: seq<(string, string)>)
    requires tbl == UposList
    ensures LastValue(tbl, "particle_interrogative") == Some("PRON")
  {
    assert tbl[34] == ("particle_interrogative", "PRON");
    LastValueFound(tbl, "particle_interrogative", 34);
  }

  /** Nothing is found only for a key that no pair carries. */
  lemma {:induction false} LastValueNone(tbl: seq<(string, string)>, k: string)
    requires LastValue(tbl, k).None?
    ensures forall j :: 0 <= j < |tbl| ==> tbl[j].0 != k
    decreases |tbl|
  {
    if |tbl| > 0 {
      LastValueNone(tbl[..|tbl| - 1], k);
      assert forall j :: 0 <= j < |tbl| - 1 ==> tbl[..|tbl| - 1][j] == tbl[j];
    }
  }

  /** `assign_upos` changes only `upos`. A token whose XPOS is a key of the table ends with
      the value of a pair with that key that no later pair overrides; a token whose XPOS is
      no key keeps its UPOS. */
  lemma UposRuleMeaning(v: Variant, tbl: seq<(string, string)>, t: Token)
    ensures UposRule(v, tbl, t).(upos := t.upos) == t
    ensures Applies(v, t) && (exists i :: 0 <= i < |tbl| && tbl[i].0 == t.xpos) ==>
      exists i :: 0 <= i < |tbl| && tbl[i] == (t.xpos, UposRule(v, tbl, t).upos)
        && forall j :: i < j < |tbl| ==> tbl[j].0 != t.xpos
    ensures (forall i :: 0 <= i < |tbl| ==> tbl[i].0 != t.xpos) ==> UposRule(v, tbl, t) == t
  {
    if LastValue(tbl, t.xpos).Some? {
      LastValueSound(tbl, t.xpos);
    } else {
      LastValueNone(tbl, t.xpos);
    }
  }

  // ---------------------------------------------------------------------------------
  // DEPREL rules, each one `for word in a_sentence: if ...: word[...] = ...`

  /** The copula `is 1` is an auxiliary with the relation `cop`. */
  function Copula(v: Variant, t: Token): Token
  {
    if Applies(v, t) && t.lem == "is 1" then t.(upos := "AUX", deprel := Some("cop")) else t
  }

  /** The article `in 1` (and, in the converter, every `adjective_quantifier`) is `det`. */
  function Article(v: Variant, t: Token): Token
  {
    if Applies(v, t) && (t.lem == "in 1" || (v == Maker && t.xpos == "adjective_quantifier"))
    then t.(deprel := Some("det")) else t
  }

  /** A preposition without a (truthy) Person feature is `case`. */
  function Preposition(v: Variant, t: Token): Token
  {
    if Applies(v, t) && t.xpos == "preposition" && !HasFeat(t, "Person")
    then t.(deprel := Some("case")) else t
  }

  /** `.i.` is retagged as the abbreviation, CCONJ, `cc`. */
  function Abbreviation(v: Variant, t: Token): Token
  {
    if Applies(v, t) && t.lem == ".i."
    then t.(xpos := "abbreviation", upos := "CCONJ", deprel := Some("cc")) else t
  }

  /** Negative particles are `advmod:neg`. */
  function Negation(v: Variant, t: Token): Token
  {
    if Applies(v, t) && (t.xpos == "particle_negative_main" || t.xpos == "particle_negative_subordinate")
    then t.(deprel := Some("advmod:neg")) else t
  }

  /** Numeral adjectives are `nummod`. */
  function Numeral(v: Variant, t: Token): Token
  {
    if Applies(v, t) && t.xpos == "adjective_numeral" then t.(deprel := Some("nummod")) else t
  }

  /** Complementisers and the particle `no·` are `mark:prt`, SCONJ. */
  function Complementiser(v: Variant, t: Token): Token
  {
    if Applies(v, t) && (t.xpos == "complementiser" || t.lem == "no·")
    then t.(deprel := Some("mark:prt"), upos := "SCONJ") else t
  }

  const CoordList: seq<string> := ["ocus 2", "nó 1", "ná 4", "fa", "nach 6", "rodbo", "et", "uel"]
  const SubList: seq<string> := ["amail 2", "ar 2", "a 6", "cía 2", "dég 2", "resíu", "úaire", "ma", "ó 2", "ol 2"]

  /** Some item of the list occurs inside `s`. */
  predicate AnyIn(items: seq<string>, s: string)
  {
    exists i :: 0 <= i < |items| && IsSubstring(items[i], s)
  }

  /** What the product pass of a conjunction list leaves in one token: a `conjunction` whose
      lemma contains some item of the list gets the relation and the UPOS. */
  function Conjunction(v: Variant, items: seq<string>, rel: string, up: string, t: Token): Token
  {
    if Applies(v, t) && t.xpos == "conjunction" && AnyIn(items, t.lem)
    then t.(deprel := Some(rel), upos := up) else t
  }

  /** The inner loop over the items for one token. */
  method ConjunctionRow(v: Variant, items: seq<string>, rel: string, up: string, t: Token)
    returns (r: Token)
    ensures r == Conjunction(v, items, rel, up, t)
  {
    r := t;
    for k := 0 to |items|
      invariant r == Conjunction(v, items[..k], rel, up, t)
    {
      assert forall i :: 0 <= i < k ==> items[..k + 1][i] == items[..k][i];
      if Applies(v, r) && IsSubstring(items[k], r.lem) && r.xpos == "conjunction" {
        r := r.(deprel := Some(rel), upos := up);
      }
      assert IsSubstring(items[..k + 1][k], t.lem) ==> AnyIn(items[..k + 1], t.lem);
    }
    assert items[..|items|] == items;
  }

  /** `assign_deprel_to_*_conjunction_in_` / `analyse_*conj` over one sentence. */
  method ConjunctionPass(v: Variant, items: seq<string>, rel: string, up: string, a: array<Token>)
    modifies a
    ensures forall i :: 0 <= i < a.Length ==> a[i] == Conjunction(v, items, rel, up, old(a[i]))
  {
    for i := 0 to a.Length
      invariant forall k :: 0 <= k < i ==> a[k] == Conjunction(v, items, rel, up, old(a[k]))
      invariant forall k :: i <= k < a.Length ==> a[k] == old(a[k])
    {
      a[i] := ConjunctionRow(v, items, rel, up, a[i]);
    }
  }

  /** `coordconj_finder` / `subconj_finder`: every sentence of the list with its items. */
  method ConjunctionFinder(v: Variant, items: seq<string>, rel: string, up: string, ss: seq<array<Token>>)
    requires DistinctSentences(ss)
    modifies set a | a in ss
    ensures forall j, i :: 0 <= j < |ss| && 0 <= i < ss[j].Length ==>
      ss[j][i] == Conjunction(v, items, rel, up, old(ss[j][i]))
  {
    for n := 0 to |ss|
      invariant forall j, i :: 0 <= j < n && 0 <= i < ss[j].Length ==>
        ss[j][i] == Conjunction(v, items, rel, up, old(ss[j][i]))
      invariant forall j :: n <= j < |ss| ==> ss[j][..] == old(ss[j][..])
    {
      ConjunctionPass(v, items, rel, up, ss[n]);
    }
  }

  /** `[rule(a_sentence) for a_sentence in list_of_sentences]` for a per-token rule. */
  method RuleOnAll(ss: seq<array<Token>>, rule: Token -> Token)
    requires DistinctSentences(ss)
    modifies set a | a in ss
    ensures forall j, i :: 0 <= j < |ss| && 0 <= i < ss[j].Length ==> ss[j][i] == rule(old(ss[j][i]))
  {
    for n := 0 to |ss|
      invariant forall j, i :: 0 <= j < n && 0 <= i < ss[j].Length ==> ss[j][i] == rule(old(ss[j][i]))
      invariant forall j :: n <= j < |ss| ==> ss[j][..] == old(ss[j][..])
    {
      ForEachToken(ss[n], rule);
    }
  }

  /** The first three rules: copula, article, preposition. */
  function Early(v: Variant, t: Token): Token
  {
    Preposition(v, Article(v, Copula(v, t)))
  }

  /** Then abbreviation, negation, numeral. */
  function Middle(v: Variant, t: Token): Token
  {
    Numeral(v, Negation(v, Abbreviation(v, t)))
  }

  /** Then (in the repair script only) the copula again, and the complementiser. */
  function Late(v: Variant, t: Token): Token
  {
    Complementiser(v, if v == Repair then Copula(v, t) else t)
  }

  /** Last the subordinating and then the coordinating conjunctions. */
  function Conjunctions(v: Variant, t: Token): Token
  {
    Conjunction(v, CoordList, "cc", "CCONJ", Conjunction(v, SubList, "mark", "SCONJ", t))
  }

  /** `do_all_deprel`, token by token: the rules in the order the function calls them. */
  function Deprels(v: Variant, t: Token): Token
  {
    Conjunctions(v, Late(v, Middle(v, Early(v, t))))
  }

  /** The preposition rule calls `.copy()` on `feats`, which raises AttributeError on a
      preposition whose FEATS is not a dict. */
  predicate PrepositionsHaveFeats(v: Variant, ss: seq<array<Token>>)
    reads set a | a in ss
  {
    forall j, i :: 0 <= j < |ss| && 0 <= i < ss[j].Length ==>
      (Applies(v, ss[j][i]) && ss[j][i].xpos == "preposition" ==> ss[j][i].feats.FMap?)
  }

  /** `do_all_deprel`: each rule runs over all sentences before the next. */
  method DoAllDeprel(v: Variant, ss: seq<array<Token>>)
    requires DistinctSentences(ss) && PrepositionsHaveFeats(v, ss)
    modifies set a | a in ss
    ensures forall j, i :: 0 <= j < |ss| && 0 <= i < ss[j].Length ==>
      ss[j][i] == Deprels(v, old(ss[j][i]))
  {
    RuleOnAll(ss, t => Copula(v, t));
    RuleOnAll(ss, t => Article(v, t));
    RuleOnAll(ss, t => Preposition(v, t));
    RuleOnAll(ss, t => Abbreviation(v, t));
    RuleOnAll(ss, t => Negation(v, t));
    RuleOnAll(ss, t => Numeral(v, t));
    if v == Repair {
      RuleOnAll(ss, t => Copula(v, t));
    }
    RuleOnAll(ss, t => Complementiser(v, t));
    ConjunctionFinder(v, SubList, "mark", "SCONJ", ss);
    ConjunctionFinder(v, CoordList, "cc", "CCONJ", ss);
  }

  // ---------------------------------------------------------------------------------
  // What the rule order amounts to

  /** The relation a token ends with, stated as a priority list: a later rule overrides an
      earlier one, and the abbreviation rule, which rewrites XPOS, switches off every
      later rule that tests XPOS. */
  function FinalDeprel(v: Variant, t: Token): Option<string>
  {
    if !Applies(v, t) then t.deprel
    else if t.lem == ".i." then Some("cc")
    else if t.xpos == "conjunction" && AnyIn(CoordList, t.lem) then Some("cc")
    else if t.xpos == "conjunction" && AnyIn(SubList, t.lem) then Some("mark")
    else if t.xpos == "complementiser" || t.lem == "no·" then Some("mark:prt")
    else if v == Repair && t.lem == "is 1" then Some("cop")
    else if t.xpos == "adjective_numeral" then Some("nummod")
    else if t.xpos == "particle_negative_main" || t.xpos == "particle_negative_subordinate" then Some("advmod:neg")
    else if t.xpos == "preposition" && !HasFeat(t, "Person") then Some("case")
    else if t.lem == "in 1" || (v == Maker && t.xpos == "adjective_quantifier") then Some("det")
    else if t.lem == "is 1" then Some("cop")
    else t.deprel
  }

  /** The UPOS a token ends with, in the same priority order. */
  function FinalUpos(v: Variant, t: Token): string
  {
    if !Applies(v, t) then t.upos
    else if t.lem == ".i." then "CCONJ"
    else if t.xpos == "conjunction" && AnyIn(CoordList, t.lem) then "CCONJ"
    else if t.xpos == "conjunction" && AnyIn(SubList, t.lem) then "SCONJ"
    else if t.xpos == "complementiser" || t.lem == "no·" then "SCONJ"
    else if t.lem == "is 1" then "AUX"
    else t.upos
  }

  lemma EarlyForm(v: Variant, t: Token)
    ensures Early(v, t) == t.(
      upos := if Applies(v, t) && t.lem == "is 1" then "AUX" else t.upos,
      deprel :=
        if Applies(v, t) && t.xpos == "preposition" && !HasFeat(t, "Person") then Some("case")
        else if Applies(v, t) && (t.lem == "in 1" || (v == Maker && t.xpos == "adjective_quantifier")) then Some("det")
        else if Applies(v, t) && t.lem == "is 1" then Some("cop")
        else t.deprel)
  {
  }

  lemma MiddleForm(v: Variant, t: Token)
    ensures Middle(v, t) ==
      if Applies(v, t) && t.lem == ".i." then t.(xpos := "abbreviation", upos := "CCONJ", deprel := Some("cc"))
      else t.(deprel :=
        if Applies(v, t) && t.xpos == "adjective_numeral" then Some("nummod")
        else if Applies(v, t) && (t.xpos == "particle_negative_main" || t.xpos == "particle_negative_subordinate")
        then Some("advmod:neg")
        else t.deprel)
  {
  }

  lemma LateForm(v: Variant, t: Token)
    ensures Late(v, t) == t.(
      upos :=
        if Applies(v, t) && (t.xpos == "complementiser" || t.lem == "no·") then "SCONJ"
        else if v == Repair && t.lem == "is 1" then "AUX"
        else t.upos,
      deprel :=
        if Applies(v, t) && (t.xpos == "complementiser" || t.lem == "no·") then Some("mark:prt")
        else if v == Repair && t.lem == "is 1" then Some("cop")
        else t.deprel)
  {
  }

  lemma ConjunctionsForm(v: Variant, t: Token)
    ensures Conjunctions(v, t) ==
      if Applies(v, t) && t.xpos == "conjunction" && AnyIn(CoordList, t.lem) then t.(deprel := Some("cc"), upos := "CCONJ")
      else if Applies(v, t) && t.xpos == "conjunction" && AnyIn(SubList, t.lem) then t.(deprel := Some("mark"), upos := "SCONJ")
      else t
  {
  }

  /** Running the rules in order gives the priority lists; XPOS changes only for `.i.`, and
      nothing else of the token changes. */
  lemma {:induction false} DeprelsPriority(v: Variant, t: Token)
    ensures Deprels(v, t) == t.(
      xpos := if Applies(v, t) && t.lem == ".i." then "abbreviation" else t.xpos,
      upos := FinalUpos(v, t),
      deprel := FinalDeprel(v, t))
  {
    var e := Early(v, t);
    EarlyForm(v, t);
    var m := Middle(v, e);
    MiddleForm(v, e);
    var l := Late(v, m);
    LateForm(v, m);
    ConjunctionsForm(v, l);
  }

  /** `.i.` ends as the abbreviation, CCONJ, `cc`, whatever its XPOS was. */
  lemma AbbreviationWins(v: Variant, t: Token)
    requires Applies(v, t) && t.lem == ".i."
    ensures Deprels(v, t).xpos == "abbreviation" && Deprels(v, t).upos == "CCONJ"
      && Deprels(v, t).deprel == Some("cc")
  {
    DeprelsPriority(v, t);
  }

  /** The coordinating list runs after the subordinating one: a conjunction whose lemma
      contains an item of both ends as `cc`, CCONJ; one that contains only a
      subordinating item ends as `mark`, SCONJ. */
  lemma CoordinationAfterSubordination(v: Variant, t: Token)
    requires Applies(v, t) && t.xpos == "conjunction" && t.lem != ".i." && AnyIn(SubList, t.lem)
    ensures AnyIn(CoordList, t.lem) ==> Deprels(v, t).deprel == Some("cc") && Deprels(v, t).upos == "CCONJ"
    ensures !AnyIn(CoordList, t.lem) ==> Deprels(v, t).deprel == Some("mark") && Deprels(v, t).upos == "SCONJ"
  {
    DeprelsPriority(v, t);
  }

  /** Only the repair script's second copula pass lets `is 1` override `nummod`. */
  lemma NumeralCopula(t: Token)
    requires t.id.Int? && t.lem == "is 1" && t.xpos == "adjective_numeral"
    ensures Deprels(Maker, t).deprel == Some("nummod")
    ensures Deprels(Repair, t).deprel == Some("cop")
  {
    DeprelsPriority(Maker, t);
    DeprelsPriority(Repair, t);
  }
}
