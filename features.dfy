/** The converter's morphological feature stage: the CorPH analysis code that every word
    line carries in `feats['Analysis']` is read by a battery of rules, each of which
    writes one Universal Dependencies feature; prepositions without a case in their code
    take it from a table of lemmas; finally the analysis code itself is deleted. */
module Features {
  import opened Wrappers
  import opened Strings
  import F = Feats
  import opened Tokens

  /** One rule of the shape `if isinstance(word['id'], int): if ...: word['feats'][key] = ...`:
      the key it writes and the value it picks for a token (None: it writes nothing). */
  datatype Rule = Rule(key: string, value: Token -> Option<string>)

  /** A rule applied to one token; multi-word token lines are skipped. */
  function Apply(r: Rule, t: Token): (u: Token)
    ensures u.(feats := t.feats) == t
  {
    if t.id.Int? && r.value(t).Some? then SetFeat(t, r.key, r.value(t).value) else t
  }

  /** A rule writes its own key and no other one, and keeps the analysis code. */
  lemma ApplyEffect(r: Rule, t: Token, k: string)
    requires HasAnalysis(t) && r.key != "Analysis"
    ensures HasAnalysis(Apply(r, t)) && Analysis(Apply(r, t)) == Analysis(t)
    ensures t.id.Int? ==>
      GetFeat(Apply(r, t), k) == if k == r.key && r.value(t).Some? then Some(r.value(t)) else GetFeat(t, k)
    ensures !t.id.Int? ==> Apply(r, t) == t
  {
    if t.id.Int? && r.value(t).Some? {
      SetFeatKeepsAnalysis(t, r.key, r.value(t).value);
      GetSetFeat(t, r.key, r.value(t).value, k);
    }
  }

  /** Rules run one after another over the sentence, the first rule first. */
  function ApplyRules(rs: seq<Rule>, t: Token): Token
    decreases |rs|
  {
    if |rs| == 0 then t else Apply(rs[|rs| - 1], ApplyRules(rs[..|rs| - 1], t))
  }

  predicate WritesNoAnalysis(rs: seq<Rule>)
  {
    forall i :: 0 <= i < |rs| ==> rs[i].key != "Analysis"
  }

  predicate WritesNot(rs: seq<Rule>, k: string)
  {
    forall i :: 0 <= i < |rs| ==> rs[i].key != k
  }

  /** A battery of rules changes only the features of a token and keeps its analysis code. */
  lemma {:induction false} ApplyRulesKeep(rs: seq<Rule>, t: Token)
    requires WritesNoAnalysis(rs) && HasAnalysis(t)
    ensures HasAnalysis(ApplyRules(rs, t)) && Analysis(ApplyRules(rs, t)) == Analysis(t)
    ensures ApplyRules(rs, t).(feats := t.feats) == t
    decreases |rs|
  {
    if |rs| > 0 {
      var init := rs[..|rs| - 1];
      ApplyRulesKeep(init, t);
      ApplyEffect(rs[|rs| - 1], ApplyRules(init, t), "Analysis");
    }
  }

  /** A key that no rule of a battery writes keeps its value. */
  lemma {:induction false} ApplyRulesOther(rs: seq<Rule>, t: Token, k: string)
    requires WritesNoAnalysis(rs) && HasAnalysis(t) && WritesNot(rs, k)
    ensures GetFeat(ApplyRules(rs, t), k) == GetFeat(t, k)
    decreases |rs|
  {
    if |rs| > 0 {
      var init := rs[..|rs| - 1];
      ApplyRulesOther(init, t, k);
      ApplyRulesKeep(init, t);
      ApplyEffect(rs[|rs| - 1], ApplyRules(init, t), k);
    }
  }

  /** Running two batteries in a row is running their concatenation. */
  lemma {:induction false} ApplyRulesAppend(rs1: seq<Rule>, rs2: seq<Rule>, t: Token)
    ensures ApplyRules(rs1 + rs2, t) == ApplyRules(rs2, ApplyRules(rs1, t))
    decreases |rs2|
  {
    if |rs2| == 0 {
      assert rs1 + rs2 == rs1;
    } else {
      assert (rs1 + rs2)[..|rs1 + rs2| - 1] == rs1 + rs2[..|rs2| - 1];
      ApplyRulesAppend(rs1, rs2[..|rs2| - 1], t);
    }
  }

  /** `sub in word['feats']['Analysis']`. */
  predicate Coded(sub: string, t: Token)
  {
    IsSubstring(sub, Analysis(t))
  }

  // Substantives (nouns and adjectives).

  /** analyze_case_in_: the case is read from the first three characters of the code. */
  function SubstantiveCase(t: Token): Option<string>
  {
    var a := Slice(Analysis(t), 0, 3);
    if IsSubstring("nom", a) then Some("Nom")
    else if IsSubstring("acc", a) then Some("Acc")
    else if IsSubstring("gen", a) then Some("Gen")
    else if IsSubstring("dat", a) then Some("Dat")
    else None
  }

  /** analyze_number_in_: characters 4 and 5 of the code. */
  function SubstantiveNumber(t: Token): Option<string>
  {
    var a := Slice(Analysis(t), 4, 6);
    if IsSubstring("sg", a) then Some("Sing")
    else if IsSubstring("pl", a) then Some("Plur")
    else None
  }

  /** analyze_gender_in_: characters 7 and 8 of the code. */
  function SubstantiveGender(t: Token): Option<string>
  {
    var a := Slice(Analysis(t), 7, 9);
    if IsSubstring("ma", a) then Some("Masc")
    else if IsSubstring("fe", a) then Some("Fem")
    else if IsSubstring("ne", a) then Some("Neut")
    else None
  }

  /** analyze_definiteness_in_. */
  function Definiteness(t: Token): Option<string>
  {
    if Coded("Def", t) then Some("Def")
    else if t.xpos == "definite_article" then Some("Def")
    else None
  }

  // Prepositions, possessive pronouns and pronominal particles.

  predicate PrepositionLike(t: Token)
  {
    t.xpos == "preposition" || t.xpos == "pronoun_possessive" || t.xpos == "particle_pronominal"
  }

  /** analyze_person_in_prepositions_and_possessives_in_. */
  function PrepositionPerson(t: Token): Option<string>
  {
    if !PrepositionLike(t) then None
    else if Coded("1", t) then Some("1")
    else if Coded("2", t) then Some("2")
    else if Coded("3", t) then Some("3")
    else None
  }

  /** analyze_number_in_prepositions_and_possessives_in_. */
  function PrepositionNumber(t: Token): Option<string>
  {
    if !PrepositionLike(t) then None
    else if Coded("sg.", t) then Some("Sing")
    else if Coded("pl.", t) then Some("Plur")
    else if Coded("du.", t) then Some("Dual")
    else None
  }

  /** analyze_gender_in_prepositions_and_possessives_in_. */
  function PrepositionGender(t: Token): Option<string>
  {
    if !PrepositionLike(t) then None
    else if Coded("masc.", t) then Some("Masc")
    else if Coded("fem.", t) then Some("Fem")
    else if Coded("neut.", t) then Some("Neut")
    else None
  }

  /** latin_check: a preposition that still has no case gets `Unk`. */
  function LatinCheck(t: Token): Option<string>
  {
    if t.xpos == "preposition" && !HasFeat(t, "Case") then Some("Unk") else None
  }

  // Verbs.

  predicate IsVerb(t: Token)
  {
    t.xpos == "verb"
  }

  /** verbal_infixed_person_analysis: the person of an infixed object pronoun. */
  function InfixedPerson(t: Token): Option<string>
  {
    if !IsVerb(t) then None
    else if Coded("obj1", t) then Some("1")
    else if Coded("obj2", t) then Some("2")
    else if Coded("obj3", t) then Some("3")
    else None
  }

  /** `re.findall('obj[123]' + suffix, code)` is not empty. */
  predicate ObjectCode(suffix: string, t: Token)
  {
    Coded("obj1" + suffix, t) || Coded("obj2" + suffix, t) || Coded("obj3" + suffix, t)
  }

  /** verbal_infixed_number_analysis. */
  function InfixedNumber(t: Token): Option<string>
  {
    if !IsVerb(t) then None
    else if ObjectCode("sg", t) then Some("Sing")
    else if ObjectCode("pl", t) then Some("Plur")
    else None
  }

  /** verbal_person_analysis: the person of the subject. */
  function VerbalPerson(t: Token): Option<string>
  {
    if !IsVerb(t) then None
    else if Coded("1", t) then Some("1")
    else if Coded("2", t) then Some("2")
    else if Coded("3", t) then Some("3")
    else None
  }

  /** verbal_number_analysis. */
  function VerbalNumber(t: Token): Option<string>
  {
    if !IsVerb(t) then None
    else if Coded("sg", t) then Some("Sing")
    else if Coded("pl", t) then Some("Plur")
    else None
  }

  /** tense_analysis, which looks at every word, not only verbs; the imperative counts as present. */
  function TenseOf(t: Token): Option<string>
  {
    TenseOfCode(Analysis(t))
  }

  function TenseOfCode(a: string): Option<string>
  {
    if IsSubstring("pres", a) then Some("Pres")
    else if IsSubstring("past", a) then Some("Past")
    else if IsSubstring("pret", a) then Some("Pret")
    else if IsSubstring("cond", a) then Some("Cond")
    else if IsSubstring("impf", a) then Some("Impf")
    else if IsSubstring("fut", a) then Some("Fut")
    else if IsSubstring("hab", a) then Some("Hab")
    else if IsSubstring("impv", a) then Some("Pres")
    else None
  }

  /** voice_analysis. */
  function VoiceOf(t: Token): Option<string>
  {
    if !IsVerb(t) then None
    else if Coded("pass", t) then Some("Pass")
    else if !Coded("pass", t) then Some("Act")
    else None
  }

  /** mood_analysis. */
  function MoodOf(t: Token): Option<string>
  {
    if !IsVerb(t) then None
    else if Coded(".impv.", t) then Some("Impv")
    else if Coded(".subj.", t) then Some("Subj")
    else if !Coded(".impv.", t) && !Coded(".subj.", t) then Some("Ind")
    else None
  }

  /** finiteness_analysis: a word with a tense is finite. */
  function Finiteness(t: Token): Option<string>
  {
    if HasFeat(t, "Tense") then Some("Fin") else None
  }

  /** analyze_subcat_in_. */
  function Subcategory(t: Token): Option<string>
  {
    if Coded(".trans.", t) then Some("Trans")
    else if Coded(".intrans.", t) then Some("Intrans")
    else None
  }

  /** analyze_object_pron_in_: the class of an infixed pronoun, for words that have one. */
  function ObjectPronoun(t: Token): Option<string>
  {
    if !HasFeat(t, "Person[Obj]") then None
    else if Coded(".A", t) then Some("InfA")
    else if Coded(".B", t) then Some("InfB")
    else if Coded(".C", t) then Some("InfC")
    else None
  }

  /** analyze_augm_in_. */
  function Augmented(t: Token): Option<string>
  {
    if Coded("augm.", t) then Some("Perf") else None
  }

  /** analyze_rel_in: lenition before nasalisation; the last test always holds when reached. */
  function RelativeType(t: Token): Option<string>
  {
    if !Coded("rel", t) then None
    else if Coded("len", t) then Some("Len")
    else if Coded("nas", t) then Some("Nas")
    else if !Coded("len", t) || !Coded("nas", t) then Some("Other")
    else None
  }

  // Other words.

  /** analyze_value_of_poss. */
  function Possessive(t: Token): Option<string>
  {
    if t.xpos == "pronoun_possessive" then Some("Yes") else None
  }

  /** analyze_value_of_deixis. */
  function Deixis(t: Token): Option<string>
  {
    if t.xpos == "pronoun_demonstrative_distal" || t.xpos == "particle_demonstrative_distal" then Some("Remt")
    else if t.xpos == "pronoun_demonstrative_proximate" || t.xpos == "particle_demonstrative_proximate" then Some("Prox")
    else None
  }

  /** analyze_value_of_prontype. */
  function PronounType(t: Token): Option<string>
  {
    var x := t.xpos;
    if x == "pronoun_independent" || x == "pronoun_possessive" || x == "pronoun_suffixed"
       || x == "pronoun_infixed" || x == "particle_pronominal" then Some("Prs")
    else if x == "definite_article" then Some("Art")
    else if x == "pronoun_relative" then Some("Rel")
    else if x == "pronoun_emphatic" then Some("Emp")
    else if t.lem == "cach" || t.lem == "cách" then Some("Tot")
    else if t.lem == "nech" || t.lem == "nach 1" then Some("Ind")
    else if x == "pronoun_demonstrative_proximate" || x == "pronoun_demonstrative_distal" then Some("Dem")
    else None
  }

  /** analyze_person_of_pronouns; Python's `and` binds tighter than `or` in its test. */
  function PronounPerson(t: Token): Option<string>
  {
    if !((IsSubstring("pron", t.lem) && t.xpos == "pronoun_independent") || t.xpos == "pronoun_possessive") then None
    else if IsSubstring("1", t.lem) then Some("1")
    else if IsSubstring("2", t.lem) then Some("2")
    else if IsSubstring("3", t.lem) then Some("3")
    else None
  }

  /** change_substantive_analysis. */
  const SubstantiveRules: seq<Rule> :=
    [Rule("Case", SubstantiveCase), Rule("Number", SubstantiveNumber),
     Rule("Gender", SubstantiveGender), Rule("Definite", Definiteness)]

  /** change_verb_analysis, in its order: person and number of the object and of the
      subject, tense, voice, mood, finiteness (which reads the tense just written),
      subcategorisation, the class of the infixed pronoun, aspect and relative type. */
  const VerbRules: seq<Rule> :=
    PersonAndNumberRules + [TenseRule] + VoiceAndMoodRules + [FinitenessRule] + LaterVerbRules

  const PersonAndNumberRules: seq<Rule> :=
    [Rule("Person[Obj]", InfixedPerson), Rule("Number[Obj]", InfixedNumber),
     Rule("Person[Subj]", VerbalPerson), Rule("Number[Subj]", VerbalNumber)]

  const TenseRule: Rule := Rule("Tense", TenseOf)

  const VoiceAndMoodRules: seq<Rule> := [Rule("Voice", VoiceOf), Rule("Mood", MoodOf)]

  const FinitenessRule: Rule := Rule("VerbForm", Finiteness)

  const LaterVerbRules: seq<Rule> :=
    [Rule("Subcat", Subcategory), Rule("PronType", ObjectPronoun), Rule("Aspect", Augmented),
     Rule("RelType", RelativeType)]

  /** The first three steps of change_preposition_analysis. */
  const PrepositionRules: seq<Rule> :=
    [Rule("Person", PrepositionPerson), Rule("Number", PrepositionNumber), Rule("Gender", PrepositionGender)]

  const LatinRule: Rule := Rule("Case", LatinCheck)

  /** change_other_analyses. */
  const OtherRules: seq<Rule> :=
    [Rule("Poss", Possessive), Rule("Deixis", Deixis), Rule("PronType", PronounType), Rule("Person", PronounPerson)]

  // The case of prepositions.

  /** A list of one-entry dicts, as (key, value) pairs. */
  type Table = seq<(string, string)>

  /** case_finder's table from lemma to case, in its order, with its repeated entries. */
  const PrepList: seq<(string, string)> :=
    [("a 7", "Dat"), ("acht 2", "Acc"), ("al", "Acc"), ("amail 1", "Acc"), ("ar 1", "Acc/Dat"),
     ("cen", "Acc"), ("cenmothá", "Acc"), ("co 1", "Acc"), ("co 2", "Dat"), ("co·rrici", "Acc"),
     ("co·rrici", "Acc"), ("coticci", "Acc"), ("di", "Dat"), ("do 1", "Dat"), ("dochumm", "Gen"),
     ("echtar", "Acc"), ("eter", "Acc"), ("fíad", "Dat"), ("fo", "Acc/Dat"), ("for", "Acc/Dat"),
     ("fri", "Acc"), ("fri", "Acc"), ("íar 1", "Dat"), ("íarmithá", "Dat"), ("imm", "Acc"),
     ("i", "Acc/Dat"), ("ingé 1", "Acc"), ("ís 1", "Dat"), ("la", "Acc"), ("ó 1", "Dat"),
     ("oc", "Dat"), ("ós 1", "Dat"), ("óthá", "Dat"), ("re", "Dat"), ("sech 1", "Acc"),
     ("tar 1", "Acc"), ("tre", "Acc")]

  /** The value of the first table entry whose key is `l`. */
  function Find(tbl: seq<(string, string)>, l: string): Option<string>
    decreases |tbl|
  {
    if |tbl| == 0 then None
    else if tbl[0].0 == l then Some(tbl[0].1)
    else Find(tbl[1..], l)
  }

  
  /** The entry found is the first one with that key. */
  lemma {:induction false} FindFirst(tbl: seq<(string, string)>, l: string, j: nat)
    requires j < |tbl| && tbl[j].0 == l
    requires forall jj :: 0 <= jj < j ==> tbl[jj].0 != l
    ensures Find(tbl, l) == Some(tbl[j].1)
    decreases j
  {
    if j > 0 {
      assert tbl[0].0 != l;
      FindFirst(tbl[1..], l, j - 1);
    }
  }

  /** A lemma that is no key of the table finds nothing. */
  lemma {:induction false} FindNone(tbl: seq<(string, string)>, l: string)
    requires forall jj :: 0 <= jj < |tbl| ==> tbl[jj].0 != l
    ensures Find(tbl, l) == None
    decreases |tbl|
  {
    if |tbl| > 0 {
      FindNone(tbl[1..], l);
    }
  }

  /** A value found is one of the table's values. */
  lemma {:induction false} FindValue(tbl: seq<(string, string)>, l: string)
    requires Find(tbl, l).Some?
    ensures exists j :: 0 <= j < |tbl| && tbl[j] == (l, Find(tbl, l).value)
    decreases |tbl|
  {
    if tbl[0].0 == l {
      assert tbl[0] == (l, Find(tbl, l).value);
    } else {
      FindValue(tbl[1..], l);
      var j :| 0 <= j < |tbl[1..]| && tbl[1..][j] == (l, Find(tbl, l).value);
      assert tbl[j + 1] == tbl[1..][j];
    }
  }

  /** Every case in the table is a non-empty string, so a word that got one counts as
      having a case. */
  predicate NonEmptyCases(table: seq<(string, string)>)
  {
    forall j :: 0 <= j < |table| ==> table[j].1 != ""
  }

  lemma PrepListNonEmpty()
    ensures NonEmptyCases(PrepList)
  {
  }

  lemma TableCaseNonEmpty(table: seq<(string, string)>, l: string)
    requires NonEmptyCases(table)
    ensures Find(table, l).Some? ==> Find(table, l).value != ""
  {
    if Find(table, l).Some? {
      FindValue(table, l);
    }
  }

  /** The words assign_case may change: prepositions with a word id and no case yet. */
  predicate Candidate(t: Token)
  {
    t.id.Int? && t.xpos == "preposition" && !HasFeat(t, "Case")
  }

  /** A candidate whose lemma is in the table. */
  predicate Eligible(tbl: Table, t: Token)
  {
    Candidate(t) && Find(tbl, t.lem).Some?
  }

  function Assigned(tbl: Table, t: Token): Token
    requires Eligible(tbl, t)
  {
    SetFeat(t, "Case", Find(tbl, t.lem).value)
  }

  /** The position of the first eligible word. */
  function FirstEligible(tbl: Table, s: seq<Token>): (r: Option<nat>)
    ensures r.Some? ==> r.value < |s| && Eligible(tbl, s[r.value])
    decreases |s|
  {
    if |s| == 0 then None
    else if Eligible(tbl, s[0]) then Some(0)
    else match FirstEligible(tbl, s[1..])
      case None => None
      case Some(j) => Some(j + 1)
  }

  lemma {:induction false} FirstEligibleAt(tbl: Table, s: seq<Token>, i: nat)
    requires i < |s| && Eligible(tbl, s[i])
    requires forall k :: 0 <= k < i ==> !Eligible(tbl, s[k])
    ensures FirstEligible(tbl, s) == Some(i)
    decreases i
  {
    if i > 0 {
      assert !Eligible(tbl, s[0]);
      FirstEligibleAt(tbl, s[1..], i - 1);
    }
  }

  lemma {:induction false} FirstEligibleNone(tbl: Table, s: seq<Token>)
    requires forall k :: 0 <= k < |s| ==> !Eligible(tbl, s[k])
    ensures FirstEligible(tbl, s) == None
    decreases |s|
  {
    if |s| > 0 {
      FirstEligibleNone(tbl, s[1..]);
    }
  }

  /** No word before the first eligible one is eligible, and None means none at all. */
  lemma {:induction false} FirstEligibleMeaning(tbl: Table, s: seq<Token>)
    ensures FirstEligible(tbl, s).Some? ==> forall k :: 0 <= k < FirstEligible(tbl, s).value ==> !Eligible(tbl, s[k])
    ensures FirstEligible(tbl, s).None? ==> forall k :: 0 <= k < |s| ==> !Eligible(tbl, s[k])
    decreases |s|
  {
    if |s| > 0 && !Eligible(tbl, s[0]) {
      FirstEligibleMeaning(tbl, s[1..]);
      forall k | 1 <= k < |s| ensures s[k] == s[1..][k - 1] { }
    }
  }

  /** case_finder: the first eligible word of the sentence takes the case of the first table
      entry for its lemma; the rest of the sentence is unchanged. */
  function CaseFinderSpec(tbl: Table, s: seq<Token>): seq<Token>
  {
    match FirstEligible(tbl, s)
    case None => s
    case Some(j) => s[j := Assigned(tbl, s[j])]
  }

  /** case_finder: assign_case over the pairs of the sentence and the table of lemmas. */
  method CaseFinder(a: array<Token>)
    requires forall k :: 0 <= k < a.Length ==> HasAnalysis(a[k])
    modifies a
    ensures a[..] == CaseFinderSpec(PrepList, old(a[..]))
  {
    AssignCase(PrepList, a);
  }

  /** assign_case: a scan of every pair (word, table entry), the words in the
      outer position, that stops at the first assignment. */
  method AssignCase(prepList: Table, a: array<Token>)
    requires forall k :: 0 <= k < a.Length ==> HasAnalysis(a[k])
    modifies a
    ensures a[..] == CaseFinderSpec(prepList, old(a[..]))
  {
    ghost var tbl := prepList;
    var i := 0;
    var done := false;
    while i < a.Length && !done
      invariant 0 <= i <= a.Length
      invariant !done ==> a[..] == old(a[..]) && forall k :: 0 <= k < i ==> !Eligible(tbl, a[k])
      invariant done ==> a[..] == CaseFinderSpec(tbl, old(a[..]))
    {
      var j := 0;
      while j < |prepList| && !done
        invariant 0 <= j <= |prepList|
        invariant !done ==> a[..] == old(a[..]) && forall k :: 0 <= k < i ==> !Eligible(tbl, a[k])
        invariant !done ==> forall jj :: 0 <= jj < j ==> !(Candidate(a[i]) && prepList[jj].0 == a[i].lem)
        invariant done ==> a[..] == CaseFinderSpec(tbl, old(a[..]))
      {
        var t := a[i];
        if t.id.Int? && t.xpos == "preposition" && !HasFeat(t, "Case") {
          if t.lem == prepList[j].0 {
            FindFirst(prepList, t.lem, j);
            assert old(a[..])[i] == t;
            FirstEligibleAt(tbl, old(a[..]), i);
            a[i] := SetFeat(t, "Case", prepList[j].1);
            done := true;
          }
        }
        j := j + 1;
      }
      if !done && Candidate(a[i]) {
        FindNone(prepList, a[i].lem);
      }
      i := i + 1;
    }
    if !done {
      FirstEligibleNone(tbl, old(a[..]));
    }
  }

  /** The case the analysis code names outright: `acc.`, then `dat.`, then `gen.`. */
  function CodedCase(t: Token): Option<string>
  {
    if Coded("acc.", t) then Some("Acc")
    else if Coded("dat.", t) then Some("Dat")
    else if Coded("gen.", t) then Some("Gen")
    else None
  }

  /** What analyze_case_in_prepositions_in_ does to each word, stated word by word: a case in
      the code wins, a case the word already has is kept, and otherwise the table decides. */
  function CaseInPrepositions(tbl: Table, t: Token): Token
  {
    if t.id.Int? && t.xpos == "preposition" then
      match CodedCase(t)
      case Some(c) => SetFeat(t, "Case", c)
      case None =>
        if HasFeat(t, "Case") then t
        else match Find(tbl, t.lem)
          case Some(c) => SetFeat(t, "Case", c)
          case None => t
    else t
  }

  /** The state of a word not yet visited by the loop: as it was, or already given its table
      case by a call of case_finder made for an earlier word. */
  predicate Pending(tbl: Table, o: Token, c: Token)
  {
    c == o || (Eligible(tbl, o) && c == Assigned(tbl, o))
  }

  lemma PendingFacts(tbl: Table, o: Token, c: Token)
    requires NonEmptyCases(tbl) && HasAnalysis(o) && Pending(tbl, o, c)
    ensures HasAnalysis(c) && Analysis(c) == Analysis(o) && c.(feats := o.feats) == o
    ensures c != o ==> HasFeat(c, "Case")
    ensures Eligible(tbl, c) ==> c == o
  {
    if c != o {
      var v := Find(tbl, o.lem).value;
      TableCaseNonEmpty(tbl, o.lem);
      SetFeatKeepsAnalysis(o, "Case", v);
      GetSetFeat(o, "Case", v, "Case");
    }
  }

  /** A word whose code names its case takes that case. */
  lemma CodedStep(tbl: Table, o: Token, c: Token)
    requires HasAnalysis(o) && Pending(tbl, o, c)
    requires o.id.Int? && o.xpos == "preposition" && CodedCase(o).Some?
    ensures SetFeat(c, "Case", CodedCase(o).value) == CaseInPrepositions(tbl, o)
    ensures !Eligible(tbl, SetFeat(c, "Case", CodedCase(o).value))
  {
    var v := CodedCase(o).value;
    if c != o {
      F.SetSet(o.feats.entries, "Case", Find(tbl, o.lem).value, v);
    }
    GetSetFeat(c, "Case", v, "Case");
  }

  /** A word that already has a case keeps it. */
  lemma KeptStep(tbl: Table, o: Token, c: Token)
    requires NonEmptyCases(tbl) && HasAnalysis(o) && Pending(tbl, o, c)
    requires o.id.Int? && o.xpos == "preposition" && CodedCase(o).None? && HasFeat(c, "Case")
    ensures c == CaseInPrepositions(tbl, o) && !Eligible(tbl, c)
  {
  }

  /** Any word other than a preposition with a word id is left alone. */
  lemma OtherStep(tbl: Table, o: Token, c: Token)
    requires Pending(tbl, o, c) && !(o.id.Int? && o.xpos == "preposition")
    ensures c == o && c == CaseInPrepositions(tbl, o) && !Eligible(tbl, c)
  {
  }

  /** Loop state after visiting the first i words of a sentence whose original is o. */
  predicate Done(tbl: Table, o: seq<Token>, c: seq<Token>, i: nat)
  {
    |o| == |c| && i <= |c|
    && (forall k :: 0 <= k < i ==> c[k] == CaseInPrepositions(tbl, o[k]) && !Eligible(tbl, c[k]))
    && (forall k :: i <= k < |c| ==> Pending(tbl, o[k], c[k]))
  }

  lemma DoneAnalysed(tbl: Table, o: seq<Token>, c: seq<Token>, i: nat)
    requires NonEmptyCases(tbl) && Done(tbl, o, c, i)
    requires forall k :: 0 <= k < |o| ==> HasAnalysis(o[k])
    ensures forall k :: 0 <= k < |c| ==> HasAnalysis(c[k])
  {
    forall k | 0 <= k < |c|
      ensures HasAnalysis(c[k])
    {
      if k < i {
        CaseInPrepositionsKeeps(tbl, o[k]);
      } else {
        PendingFacts(tbl, o[k], c[k]);
      }
    }
  }

  /** Word i is rewritten to its final value. */
  lemma PointStep(tbl: Table, o: seq<Token>, c: seq<Token>, i: nat, v: Token)
    requires Done(tbl, o, c, i) && i < |c|
    requires v == CaseInPrepositions(tbl, o[i]) && !Eligible(tbl, v)
    ensures Done(tbl, o, c[i := v], i + 1)
  {
  }

  /** Word i already has its final value. */
  lemma SameStep(tbl: Table, o: seq<Token>, c: seq<Token>, i: nat)
    requires Done(tbl, o, c, i) && i < |c|
    requires c[i] == CaseInPrepositions(tbl, o[i]) && !Eligible(tbl, c[i])
    ensures Done(tbl, o, c, i + 1)
  {
  }

  /** The loop calls case_finder for word i, which has no case: afterwards every word up to i
      is final and the later ones are still pending. */
  lemma FinderStep(tbl: Table, o: seq<Token>, b: seq<Token>, i: nat)
    requires NonEmptyCases(tbl) && Done(tbl, o, b, i) && i < |b|
    requires forall k :: 0 <= k < |o| ==> HasAnalysis(o[k])
    requires Candidate(b[i]) && CodedCase(b[i]).None?
    ensures Done(tbl, o, CaseFinderSpec(tbl, b), i + 1)
  {
    var c := CaseFinderSpec(tbl, b);
    PendingFacts(tbl, o[i], b[i]);
    assert b[i] == o[i];
    FirstEligibleMeaning(tbl, b);
    match FirstEligible(tbl, b)
    case None =>
      assert c == b;
    case Some(j) =>
      assert j >= i;
      PendingFacts(tbl, o[j], b[j]);
      assert c == b[j := Assigned(tbl, b[j])];
      if j == i {
        TableCaseNonEmpty(tbl, o[i].lem);
        GetSetFeat(o[i], "Case", Find(tbl, o[i].lem).value, "Case");
      }
  }

  /** analyze_case_in_prepositions_in_: the loop over the sentence, calling case_finder on the
      whole sentence for each preposition whose code names no case and that has none yet.
      Its effect is that of CaseInPrepositions on every word separately. */
  method AnalyzeCaseInPrepositionsIn(a: array<Token>)
    requires forall k :: 0 <= k < a.Length ==> HasAnalysis(a[k])
    modifies a
    ensures forall k :: 0 <= k < a.Length ==> a[k] == CaseInPrepositions(PrepList, old(a[k]))
  {
    PrepListNonEmpty();
    AnalyzeCaseWith(PrepList, a);
  }

  /** The same loop for any table whose cases are non-empty; case_finder is assign_case over
      that table. */
  method AnalyzeCaseWith(tbl: Table, a: array<Token>)
    requires NonEmptyCases(tbl)
    requires forall k :: 0 <= k < a.Length ==> HasAnalysis(a[k])
    modifies a
    ensures forall k :: 0 <= k < a.Length ==> a[k] == CaseInPrepositions(tbl, old(a[k]))
  {
    ghost var orig := a[..];
    var i := 0;
    while i < a.Length
      invariant 0 <= i <= a.Length
      invariant Done(tbl, orig, a[..], i)
    {
      var t := a[i];
      ghost var o := orig[i];
      assert a[..][i] == t;
      assert Pending(tbl, o, t);
      PendingFacts(tbl, o, t);
      if t.id.Int? && t.xpos == "preposition" {
        var code := Analysis(t);
        if IsSubstring("acc.", code) {
          WriteCodedCase(tbl, a, i, orig, "Acc");
        } else if IsSubstring("dat.", code) {
          WriteCodedCase(tbl, a, i, orig, "Dat");
        } else if IsSubstring("gen.", code) {
          WriteCodedCase(tbl, a, i, orig, "Gen");
        } else if !HasFeat(t, "Case") {
          FinderStep(tbl, orig, a[..], i);
          DoneAnalysed(tbl, orig, a[..], i);
          AssignCase(tbl, a);
        } else {
          KeptStep(tbl, o, t);
          SameStep(tbl, orig, a[..], i);
        }
      } else {
        OtherStep(tbl, o, t);
        SameStep(tbl, orig, a[..], i);
      }
      i := i + 1;
    }
    assert forall k :: 0 <= k < a.Length ==> a[k] == a[..][k] && old(a[k]) == orig[k];
  }

  /** Word i takes the case its code names. */
  method WriteCodedCase(tbl: Table, a: array<Token>, i: nat, ghost orig: seq<Token>, v: string)
    requires i < a.Length && Done(tbl, orig, a[..], i) && HasAnalysis(orig[i])
    requires orig[i].id.Int? && orig[i].xpos == "preposition" && CodedCase(orig[i]) == Some(v)
    modifies a
    ensures Done(tbl, orig, a[..], i + 1)
  {
    assert a[..][i] == a[i];
    CodedStep(tbl, orig[i], a[i]);
    PointStep(tbl, orig, a[..], i, SetFeat(a[i], "Case", v));
    a[i] := SetFeat(a[i], "Case", v);
  }

  lemma CaseInPrepositionsKeeps(tbl: Table, t: Token)
    requires HasAnalysis(t)
    ensures HasAnalysis(CaseInPrepositions(tbl, t)) && Analysis(CaseInPrepositions(tbl, t)) == Analysis(t)
    ensures CaseInPrepositions(tbl, t).(feats := t.feats) == t
  {
    if t.id.Int? && t.xpos == "preposition" {
      match CodedCase(t)
      case Some(c) =>
        SetFeatKeepsAnalysis(t, "Case", c);
      case None =>
        if !HasFeat(t, "Case") && Find(tbl, t.lem).Some? {
          SetFeatKeepsAnalysis(t, "Case", Find(tbl, t.lem).value);
        }
    }
  }

  // Deleting the analysis code.

  /** delete_null_values_in: a word whose code says it has no features and which has no
      other key gets the FEATS field `_`; every other word loses its `Analysis` key. */
  function DeleteNull(t: Token): Token
    requires HasAnalysis(t)
  {
    if t.id.Int? then
      if IsSubstring("No_Features", Analysis(t)) && |t.feats.entries| == 1 then t.(feats := Underscore)
      else t.(feats := FMap(F.Remove(t.feats.entries, "Analysis")))
    else t
  }

  /** `_` exactly for the words whose only key is an analysis saying `No_Features`; every other
      word keeps all its features except the analysis code. */
  lemma DeleteNullMeaning(t: Token)
    requires HasAnalysis(t) && t.id.Int?
    ensures DeleteNull(t).feats.Underscore? <==>
      IsSubstring("No_Features", Analysis(t)) && F.Keys(t.feats.entries) == ["Analysis"]
    ensures !DeleteNull(t).feats.Underscore? ==>
      DeleteNull(t).feats.FMap?
      && forall k :: GetFeat(DeleteNull(t), k) == if k == "Analysis" then None else GetFeat(t, k)
    ensures DeleteNull(t).(feats := t.feats) == t
  {
    var e := t.feats.entries;
    F.LookupKeys(e, "Analysis");
    if |e| == 1 {
      assert F.Keys(e) == [e[0].key];
    }
    forall k {
      F.LookupRemove(e, "Analysis", k);
    }
  }

  // The stages and their composition.

  datatype Stage = Substantives | Verbs | Prepositions | Others | Nulls

  /** What each stage does to one word. */
  function StageEffect(st: Stage, t: Token): Token
    requires st.Nulls? ==> HasAnalysis(t)
  {
    match st
    case Substantives => ApplyRules(SubstantiveRules, t)
    case Verbs => ApplyRules(VerbRules, t)
    case Prepositions => Apply(LatinRule, CaseInPrepositions(PrepList, ApplyRules(PrepositionRules, t)))
    case Others => ApplyRules(OtherRules, t)
    case Nulls => DeleteNull(t)
  }

  /** The first four stages change only features and keep the analysis code. */
  lemma StageKeeps(st: Stage, t: Token)
    requires !st.Nulls? && HasAnalysis(t)
    ensures HasAnalysis(StageEffect(st, t)) && Analysis(StageEffect(st, t)) == Analysis(t)
    ensures StageEffect(st, t).(feats := t.feats) == t
  {
    match st
    case Substantives => ApplyRulesKeep(SubstantiveRules, t);
    case Verbs => ApplyRulesKeep(VerbRules, t);
    case Others => ApplyRulesKeep(OtherRules, t);
    case Prepositions =>
      var t1 := ApplyRules(PrepositionRules, t);
      ApplyRulesKeep(PrepositionRules, t);
      CaseInPrepositionsKeeps(PrepList, t1);
      ApplyEffect(LatinRule, CaseInPrepositions(PrepList, t1), "Case");
  }

  function BeforeNulls(t: Token): Token
  {
    StageEffect(Others, StageEffect(Prepositions, StageEffect(Verbs, StageEffect(Substantives, t))))
  }

  lemma BeforeNullsKeeps(t: Token)
    requires HasAnalysis(t)
    ensures HasAnalysis(BeforeNulls(t)) && Analysis(BeforeNulls(t)) == Analysis(t)
    ensures BeforeNulls(t).(feats := t.feats) == t
  {
    var t1 := StageEffect(Substantives, t);
    var t2 := StageEffect(Verbs, t1);
    var t3 := StageEffect(Prepositions, t2);
    StageKeeps(Substantives, t);
    StageKeeps(Verbs, t1);
    StageKeeps(Prepositions, t2);
    StageKeeps(Others, t3);
  }

  /** What change_all_analyses does to one word. */
  function Converted(t: Token): Token
    requires HasAnalysis(t)
  {
    BeforeNullsKeeps(t);
    DeleteNull(BeforeNulls(t))
  }

  // The in-place passes.

  method ApplyRuleIn(r: Rule, a: array<Token>)
    modifies a
    ensures forall i :: 0 <= i < a.Length ==> a[i] == Apply(r, old(a[i]))
  {
    ForEachToken(a, t => Apply(r, t));
  }

  method ApplyRulesIn(rs: seq<Rule>, a: array<Token>)
    modifies a
    ensures forall i :: 0 <= i < a.Length ==> a[i] == ApplyRules(rs, old(a[i]))
  {
    var n := 0;
    while n < |rs|
      invariant 0 <= n <= |rs|
      invariant forall i :: 0 <= i < a.Length ==> a[i] == ApplyRules(rs[..n], old(a[i]))
    {
      ApplyRuleIn(rs[n], a);
      assert rs[..n + 1][..n] == rs[..n];
      n := n + 1;
    }
    assert rs[..|rs|] == rs;
  }

  predicate Analysed(a: array<Token>)
    reads a
  {
    forall i :: 0 <= i < a.Length ==> HasAnalysis(a[i])
  }

  /** change_substantive_analysis. */
  method ChangeSubstantiveAnalysis(a: array<Token>)
    requires Analysed(a)
    modifies a
    ensures forall i :: 0 <= i < a.Length ==> a[i] == StageEffect(Substantives, old(a[i]))
  {
    ApplyRulesIn(SubstantiveRules, a);
  }

  /** change_verb_analysis. */
  method ChangeVerbAnalysis(a: array<Token>)
    requires Analysed(a)
    modifies a
    ensures forall i :: 0 <= i < a.Length ==> a[i] == StageEffect(Verbs, old(a[i]))
  {
    ApplyRulesIn(VerbRules, a);
  }

  /** change_preposition_analysis. */
  method ChangePrepositionAnalysis(a: array<Token>)
    requires Analysed(a)
    modifies a
    ensures forall i :: 0 <= i < a.Length ==> a[i] == StageEffect(Prepositions, old(a[i]))
  {
    ApplyRulesIn(PrepositionRules, a);
    forall i | 0 <= i < a.Length
      ensures HasAnalysis(a[i])
    {
      ApplyRulesKeep(PrepositionRules, old(a[i]));
    }
    AnalyzeCaseInPrepositionsIn(a);
    ApplyRuleIn(LatinRule, a);
  }

  /** change_other_analyses. */
  method ChangeOtherAnalyses(a: array<Token>)
    requires Analysed(a)
    modifies a
    ensures forall i :: 0 <= i < a.Length ==> a[i] == StageEffect(Others, old(a[i]))
  {
    ApplyRulesIn(OtherRules, a);
  }

  /** delete_null_values_in. */
  method DeleteNullValuesIn(a: array<Token>)
    requires Analysed(a)
    modifies a
    ensures forall i :: 0 <= i < a.Length ==> a[i] == StageEffect(Nulls, old(a[i]))
  {
    var i := 0;
    while i < a.Length
      invariant 0 <= i <= a.Length
      invariant forall k :: 0 <= k < i ==> a[k] == DeleteNull(old(a[k]))
      invariant forall k :: i <= k < a.Length ==> a[k] == old(a[k])
    {
      var t := a[i];
      if t.id.Int? {
        if IsSubstring("No_Features", Analysis(t)) && |t.feats.entries| == 1 {
          a[i] := t.(feats := Underscore);
        } else {
          a[i] := t.(feats := FMap(F.Remove(t.feats.entries, "Analysis")));
        }
      }
      i := i + 1;
    }
  }

  method RunStage(st: Stage, a: array<Token>)
    requires Analysed(a)
    modifies a
    ensures forall i :: 0 <= i < a.Length ==> a[i] == StageEffect(st, old(a[i]))
    ensures !st.Nulls? ==> Analysed(a)
  {
    match st {
      case Substantives => ChangeSubstantiveAnalysis(a);
      case Verbs => ChangeVerbAnalysis(a);
      case Prepositions => ChangePrepositionAnalysis(a);
      case Others => ChangeOtherAnalyses(a);
      case Nulls => DeleteNullValuesIn(a);
    }
    if !st.Nulls? {
      forall i | 0 <= i < a.Length
        ensures HasAnalysis(a[i])
      {
        StageKeeps(st, old(a[i]));
      }
    }
  }

  predicate AllAnalysed(ss: seq<array<Token>>)
    reads set a | a in ss
  {
    forall j :: 0 <= j < |ss| ==> Analysed(ss[j])
  }

  /** `[stage(item) for item in list_of_sentences]`. */
  method RunStageOnAll(st: Stage, ss: seq<array<Token>>)
    requires DistinctSentences(ss) && AllAnalysed(ss)
    modifies set a | a in ss
    ensures forall j, i :: 0 <= j < |ss| && 0 <= i < ss[j].Length ==>
      ss[j][i] == StageEffect(st, old(ss[j][i]))
    ensures !st.Nulls? ==> AllAnalysed(ss)
  {
    var n := 0;
    while n < |ss|
      invariant 0 <= n <= |ss|
      invariant forall j, i :: 0 <= j < n && 0 <= i < ss[j].Length ==>
        ss[j][i] == StageEffect(st, old(ss[j][i]))
      invariant forall j :: n <= j < |ss| ==> ss[j][..] == old(ss[j][..])
      invariant !st.Nulls? ==> forall j :: 0 <= j < n ==> Analysed(ss[j])
    {
      assert Analysed(ss[n]) by {
        assert ss[n][..] == old(ss[n][..]);
        assert old(Analysed(ss[n]));
      }
      RunStage(st, ss[n]);
      n := n + 1;
    }
  }

  /** change_all_analyses, without the serialisation of the result: the five stages run in
      turn over every sentence. */
  method ChangeAllAnalyses(ss: seq<array<Token>>)
    requires DistinctSentences(ss) && AllAnalysed(ss)
    modifies set a | a in ss
    ensures forall j, i :: 0 <= j < |ss| && 0 <= i < ss[j].Length ==>
      ss[j][i] == Converted(old(ss[j][i]))
  {
    RunStageOnAll(Substantives, ss);
    RunStageOnAll(Verbs, ss);
    RunStageOnAll(Prepositions, ss);
    RunStageOnAll(Others, ss);
    RunStageOnAll(Nulls, ss);
  }

  // What the rules promise.

  /** Every verb gets a voice: passive exactly when its code says `pass`, active otherwise. */
  lemma VoiceMeaning(t: Token)
    requires IsVerb(t)
    ensures VoiceOf(t) == Some("Pass") <==> Coded("pass", t)
    ensures VoiceOf(t) == Some("Act") <==> !Coded("pass", t)
  {
  }

  /** Every verb gets a mood; the imperative wins over the subjunctive, and a verb marked
      as neither is indicative. */
  lemma MoodMeaning(t: Token)
    requires IsVerb(t)
    ensures MoodOf(t).Some?
    ensures MoodOf(t) == Some("Impv") <==> Coded(".impv.", t)
    ensures MoodOf(t) == Some("Subj") <==> Coded(".subj.", t) && !Coded(".impv.", t)
    ensures MoodOf(t) == Some("Ind") <==> !Coded(".impv.", t) && !Coded(".subj.", t)
  {
  }

  /** Every relative form gets a relative type, lenition taking precedence over nasalisation,
      and nothing else gets one. */
  lemma RelativeTypeMeaning(t: Token)
    ensures RelativeType(t).Some? <==> Coded("rel", t)
    ensures RelativeType(t) == Some("Len") <==> Coded("rel", t) && Coded("len", t)
    ensures RelativeType(t) == Some("Nas") <==> Coded("rel", t) && !Coded("len", t) && Coded("nas", t)
    ensures RelativeType(t) == Some("Other") <==> Coded("rel", t) && !Coded("len", t) && !Coded("nas", t)
  {
  }

  /** Every value a tense rule writes is a non-empty string. */
  lemma TenseNonEmpty(t: Token)
    ensures TenseOf(t).Some? ==> TenseOf(t).value != ""
  {
  }

  lemma LaterVerbRulesKeys()
    ensures WritesNoAnalysis(LaterVerbRules)
    ensures WritesNot(LaterVerbRules, "Tense") && WritesNot(LaterVerbRules, "VerbForm")
  {
  }

  /** The verb stage as its five groups of rules. */
  lemma VerbStageSplit(t: Token)
    ensures ApplyRules(VerbRules, t) ==
      ApplyRules(LaterVerbRules, Apply(FinitenessRule,
        ApplyRules(VoiceAndMoodRules, Apply(TenseRule, ApplyRules(PersonAndNumberRules, t)))))
  {
    var r1, r2, r3 := PersonAndNumberRules, VoiceAndMoodRules, LaterVerbRules;
    var t4 := ApplyRules(r1, t);
    var t5 := Apply(TenseRule, t4);
    var t7 := ApplyRules(r2, t5);
    assert ApplyRules([TenseRule], t4) == t5;
    assert ApplyRules([FinitenessRule], t7) == Apply(FinitenessRule, t7);
    ApplyRulesAppend(r1, [TenseRule], t);
    ApplyRulesAppend(r1 + [TenseRule], r2, t);
    ApplyRulesAppend(r1 + [TenseRule] + r2, [FinitenessRule], t);
    ApplyRulesAppend(r1 + [TenseRule] + r2 + [FinitenessRule], r3, t);
  }

  /** The tense rule, voice and mood, then finiteness: the tense written makes the word finite. */
  lemma TenseThenFinite(t4: Token)
    requires HasAnalysis(t4) && t4.id.Int? && TenseOf(t4).Some?
    ensures var t8 := Apply(FinitenessRule, ApplyRules(VoiceAndMoodRules, Apply(TenseRule, t4)));
      HasAnalysis(t8) && GetFeat(t8, "Tense") == Some(TenseOf(t4)) && GetFeat(t8, "VerbForm") == Some(Some("Fin"))
  {
    var t5 := Apply(TenseRule, t4);
    var t7 := ApplyRules(VoiceAndMoodRules, t5);
    ApplyEffect(TenseRule, t4, "Tense");
    assert WritesNoAnalysis(VoiceAndMoodRules) && WritesNot(VoiceAndMoodRules, "Tense");
    ApplyRulesOther(VoiceAndMoodRules, t5, "Tense");
    ApplyRulesKeep(VoiceAndMoodRules, t5);
    TenseNonEmpty(t4);
    assert HasFeat(t7, "Tense");
    ApplyEffect(FinitenessRule, t7, "VerbForm");
    ApplyEffect(FinitenessRule, t7, "Tense");
  }

  /** After the verb stage, a word whose code names a tense has that tense and is finite. */
  lemma TenseMakesFinite(t: Token)
    requires HasAnalysis(t) && t.id.Int? && TenseOf(t).Some?
    ensures GetFeat(StageEffect(Verbs, t), "Tense") == Some(TenseOf(t))
    ensures GetFeat(StageEffect(Verbs, t), "VerbForm") == Some(Some("Fin"))
  {
    var t4 := ApplyRules(PersonAndNumberRules, t);
    var t8 := Apply(FinitenessRule, ApplyRules(VoiceAndMoodRules, Apply(TenseRule, t4)));
    VerbStageSplit(t);
    assert WritesNoAnalysis(PersonAndNumberRules);
    ApplyRulesKeep(PersonAndNumberRules, t);
    TenseThenFinite(t4);
    LaterVerbRulesKeys();
    ApplyRulesOther(LaterVerbRules, t8, "Tense");
    ApplyRulesOther(LaterVerbRules, t8, "VerbForm");
  }

  /** After the preposition stage every preposition with a word id has a case. */
  lemma PrepositionsGetCase(t: Token)
    requires HasAnalysis(t) && t.id.Int? && t.xpos == "preposition"
    ensures HasFeat(StageEffect(Prepositions, t), "Case")
  {
    var t1 := ApplyRules(PrepositionRules, t);
    ApplyRulesKeep(PrepositionRules, t);
    var t2 := CaseInPrepositions(PrepList, t1);
    CaseInPrepositionsKeeps(PrepList, t1);
    ApplyEffect(LatinRule, t2, "Case");
  }

  // A worked example: a relative verb in the third person singular present with lenition,
  // `3sg.pres.len.rel`. The derivation is stated for any code that contains the same rule
  // patterns as that one and lacks the same others; the code itself is shown to be one.

  const RelativeCode: string := "3sg.pres.len.rel"

  /** The patterns the rules look for that occur in the example's code, and those that do not. */
  predicate LikeRelativeCode(c: string)
  {
    CodeHas(c) && CodeLacks(c) && CodeSlicesLack(c)
  }

  predicate CodeHas(c: string)
  {
    && IsSubstring("3", c) && IsSubstring("sg", c) && IsSubstring("pres", c)
    && IsSubstring("rel", c) && IsSubstring("len", c)
  }

  predicate CodeLacks(c: string)
  {
    && !IsSubstring("1", c) && !IsSubstring("2", c)
    && !IsSubstring("obj1", c) && !IsSubstring("obj2", c) && !IsSubstring("obj3", c)
    && !IsSubstring("obj1" + "sg", c) && !IsSubstring("obj2" + "sg", c) && !IsSubstring("obj3" + "sg", c)
    && !IsSubstring("obj1" + "pl", c) && !IsSubstring("obj2" + "pl", c) && !IsSubstring("obj3" + "pl", c)
    && !IsSubstring("pass", c) && !IsSubstring(".impv.", c) && !IsSubstring(".subj.", c)
    && !IsSubstring(".trans.", c) && !IsSubstring(".intrans.", c)
    && !IsSubstring("augm.", c) && !IsSubstring("Def", c) && !IsSubstring("No_Features", c)
  }

  predicate CodeSlicesLack(c: string)
  {
    && !IsSubstring("nom", Slice(c, 0, 3)) && !IsSubstring("acc", Slice(c, 0, 3))
    && !IsSubstring("gen", Slice(c, 0, 3)) && !IsSubstring("dat", Slice(c, 0, 3))
    && !IsSubstring("sg", Slice(c, 4, 6)) && !IsSubstring("pl", Slice(c, 4, 6))
    && !IsSubstring("ma", Slice(c, 7, 9)) && !IsSubstring("fe", Slice(c, 7, 9))
    && !IsSubstring("ne", Slice(c, 7, 9))
  }

  lemma RelativeCodeFacts()
    ensures LikeRelativeCode(RelativeCode)
  {
    RelativeCodeOccurrences();
    RelativeCodeCharacters();
    RelativeCodeSlices();
    HasByOccurrence(RelativeCode);
    LacksByCharacters(RelativeCode);
    SlicesLack(RelativeCode);
  }

  lemma RelativeCodeOccurrences()
    ensures OccursAt("3", RelativeCode, 0) && OccursAt("sg", RelativeCode, 1) && OccursAt("pres", RelativeCode, 4)
    ensures OccursAt("len", RelativeCode, 9) && OccursAt("rel", RelativeCode, 13)
  {
  }

  lemma RelativeCodeCharacters()
    ensures '1' !in RelativeCode && '2' !in RelativeCode && 'o' !in RelativeCode
    ensures 'a' !in RelativeCode && 'i' !in RelativeCode && 'u' !in RelativeCode
    ensures 't' !in RelativeCode && 'D' !in RelativeCode && 'N' !in RelativeCode
  {
    RelativeCodeLacksDigits();
    RelativeCodeLacksVowels();
    RelativeCodeLacksOthers();
  }

  lemma RelativeCodeLacksDigits()
    ensures '1' !in RelativeCode && '2' !in RelativeCode && 'o' !in RelativeCode
  {
  }

  lemma RelativeCodeLacksVowels()
    ensures 'a' !in RelativeCode && 'i' !in RelativeCode && 'u' !in RelativeCode
  {
  }

  lemma RelativeCodeLacksOthers()
    ensures 't' !in RelativeCode && 'D' !in RelativeCode && 'N' !in RelativeCode
  {
  }

  lemma RelativeCodeSlices()
    ensures Slice(RelativeCode, 0, 3) == "3sg" && Slice(RelativeCode, 4, 6) == "pr"
    ensures Slice(RelativeCode, 7, 9) == "s."
  {
    var c := RelativeCode;
    assert c[7] == 's' && c[8] == '.';
  }

  lemma HasByOccurrence(c: string)
    requires OccursAt("3", c, 0) && OccursAt("sg", c, 1) && OccursAt("pres", c, 4)
    requires OccursAt("len", c, 9) && OccursAt("rel", c, 13)
    ensures CodeHas(c)
  {
    SubstringAt("3", c);
    SubstringAt("sg", c);
    SubstringAt("pres", c);
    SubstringAt("len", c);
    SubstringAt("rel", c);
  }

  /** Every absent pattern contains a character that the code lacks. */
  lemma LacksByCharacters(c: string)
    requires '1' !in c && '2' !in c && 'o' !in c && 'a' !in c && 'i' !in c
    requires 'u' !in c && 't' !in c && 'D' !in c && 'N' !in c
    ensures CodeLacks(c)
  {
    MissingCharNotSubstring("1", c, '1');
    MissingCharNotSubstring("2", c, '2');
    MissingCharNotSubstring("obj1", c, 'o');
    MissingCharNotSubstring("obj2", c, 'o');
    MissingCharNotSubstring("obj3", c, 'o');
    MissingCharNotSubstring("obj1" + "sg", c, 'o');
    MissingCharNotSubstring("obj2" + "sg", c, 'o');
    MissingCharNotSubstring("obj3" + "sg", c, 'o');
    MissingCharNotSubstring("obj1" + "pl", c, 'o');
    MissingCharNotSubstring("obj2" + "pl", c, 'o');
    MissingCharNotSubstring("obj3" + "pl", c, 'o');
    MissingCharNotSubstring("pass", c, 'a');
    MissingCharNotSubstring(".impv.", c, 'i');
    MissingCharNotSubstring(".subj.", c, 'u');
    MissingCharNotSubstring(".trans.", c, 't');
    MissingCharNotSubstring(".intrans.", c, 'i');
    MissingCharNotSubstring("augm.", c, 'a');
    MissingCharNotSubstring("Def", c, 'D');
    MissingCharNotSubstring("No_Features", c, 'N');
  }

  lemma SlicesLack(c: string)
    requires Slice(c, 0, 3) == "3sg" && Slice(c, 4, 6) == "pr" && Slice(c, 7, 9) == "s."
    ensures CodeSlicesLack(c)
  {
    CaseSliceLacks();
    NumberSliceLacks();
    GenderSliceLacks();
  }

  lemma CaseSliceLacks()
    ensures !IsSubstring("nom", "3sg") && !IsSubstring("acc", "3sg")
    ensures !IsSubstring("gen", "3sg") && !IsSubstring("dat", "3sg")
  {
    MissingCharNotSubstring("nom", "3sg", 'n');
    MissingCharNotSubstring("acc", "3sg", 'a');
    MissingCharNotSubstring("gen", "3sg", 'e');
    MissingCharNotSubstring("dat", "3sg", 'd');
  }

  lemma NumberSliceLacks()
    ensures !IsSubstring("sg", "pr") && !IsSubstring("pl", "pr")
  {
    MissingCharNotSubstring("sg", "pr", 's');
    MissingCharNotSubstring("pl", "pr", 'l');
  }

  lemma GenderSliceLacks()
    ensures !IsSubstring("ma", "s.") && !IsSubstring("fe", "s.") && !IsSubstring("ne", "s.")
  {
    MissingCharNotSubstring("ma", "s.", 'm');
    MissingCharNotSubstring("fe", "s.", 'f');
    MissingCharNotSubstring("ne", "s.", 'n');
  }

  /** The keys the example's rules write, in the order written, after its analysis code. */
  const ExampleKeys: seq<string> :=
    ["Analysis", "Person[Subj]", "Number[Subj]", "Tense", "Voice", "Mood", "VerbForm", "RelType"]

  function ExampleValue(c: string, n: nat): string
    requires n < 8
  {
    if n == 0 then c else ["3", "Sing", "Pres", "Act", "Ind", "Fin", "Len"][n - 1]
  }

  /** The example's features after the first n of its rules that write something. */
  function ExampleFeats(c: string, n: nat): seq<F.Entry>
    requires n < 8
    decreases n
  {
    if n == 0 then [F.Entry("Analysis", Some(c))]
    else ExampleFeats(c, n - 1) + [F.Entry(ExampleKeys[n], Some(ExampleValue(c, n)))]
  }

  /** The example verb with the first n features written. */
  function ExampleAt(c: string, n: nat): Token
    requires n < 8
  {
    Token(Int(2), "ɫasmbi", "is", "_", "verb", FMap(ExampleFeats(c, n)), None, None, "_")
  }

  lemma ExampleKeysDistinct()
    ensures forall i, j :: 0 <= i < j < 8 ==> ExampleKeys[i] != ExampleKeys[j]
  {
  }

  lemma ExampleKeysNotObject()
    ensures forall j :: 0 <= j < 8 ==> ExampleKeys[j] != "Person[Obj]"
  {
  }

  lemma {:induction false} ExampleFeatsAbsent(c: string, n: nat, k: string)
    requires n < 8 && forall j :: 0 <= j <= n ==> ExampleKeys[j] != k
    ensures F.Lookup(ExampleFeats(c, n), k).None?
    decreases n
  {
    if n == 0 {
      assert ExampleKeys[0] == "Analysis" != k;
      assert ExampleFeats(c, 0) == [] + [F.Entry("Analysis", Some(c))];
      F.LookupAppend([], F.Entry("Analysis", Some(c)), k);
    } else {
      ExampleFeatsAbsent(c, n - 1, k);
      F.LookupAppend(ExampleFeats(c, n - 1), F.Entry(ExampleKeys[n], Some(ExampleValue(c, n))), k);
    }
  }

  lemma {:induction false} ExampleFeatsUnique(c: string, n: nat)
    requires n < 8
    ensures F.UniqueKeys(ExampleFeats(c, n))
    decreases n
  {
    if n > 0 {
      var e := ExampleFeats(c, n - 1);
      ExampleFeatsUnique(c, n - 1);
      ExampleKeysDistinct();
      ExampleFeatsAbsent(c, n - 1, ExampleKeys[n]);
      F.SetAbsent(e, ExampleKeys[n], ExampleValue(c, n));
      F.SetUnique(e, ExampleKeys[n], ExampleValue(c, n));
    }
  }

  lemma {:induction false} ExampleFeatsHave(c: string, n: nat, j: nat)
    requires j <= n < 8
    ensures F.Lookup(ExampleFeats(c, n), ExampleKeys[j]) == Some(Some(ExampleValue(c, j)))
    decreases n
  {
    var x := F.Entry(ExampleKeys[n], Some(ExampleValue(c, n)));
    if n == 0 {
      assert ExampleFeats(c, 0) == [] + [x];
      F.LookupAppend([], x, ExampleKeys[j]);
    } else if j == n {
      ExampleKeysDistinct();
      ExampleFeatsAbsent(c, n - 1, ExampleKeys[n]);
      F.LookupAppend(ExampleFeats(c, n - 1), x, ExampleKeys[j]);
    } else {
      ExampleFeatsHave(c, n - 1, j);
      F.LookupAppend(ExampleFeats(c, n - 1), x, ExampleKeys[j]);
    }
  }

  lemma ExampleCode(c: string, n: nat)
    requires n < 8
    ensures HasAnalysis(ExampleAt(c, n)) && Analysis(ExampleAt(c, n)) == c
  {
    ExampleFeatsHave(c, n, 0);
    ExampleFeatsUnique(c, n);
  }

  /** A rule that writes the next feature of the example. */
  lemma ExampleStep(c: string, r: Rule, n: nat)
    requires n + 1 < 8
    requires r.key == ExampleKeys[n + 1] && r.value(ExampleAt(c, n)) == Some(ExampleValue(c, n + 1))
    ensures Apply(r, ExampleAt(c, n)) == ExampleAt(c, n + 1)
  {
    ExampleKeysDistinct();
    ExampleFeatsAbsent(c, n, r.key);
    F.SetAbsent(ExampleFeats(c, n), r.key, ExampleValue(c, n + 1));
  }

  lemma ApplyRules1(r0: Rule, t: Token)
    ensures ApplyRules([r0], t) == Apply(r0, t)
  {
    assert [r0][..0] == [];
  }

  lemma ApplyRules2(r0: Rule, r1: Rule, t: Token)
    ensures ApplyRules([r0, r1], t) == Apply(r1, Apply(r0, t))
  {
    assert [r0, r1][..1] == [r0];
    ApplyRules1(r0, t);
  }

  lemma ApplyRules3(r0: Rule, r1: Rule, r2: Rule, t: Token)
    ensures ApplyRules([r0, r1, r2], t) == Apply(r2, Apply(r1, Apply(r0, t)))
  {
    assert [r0, r1, r2][..2] == [r0, r1];
    ApplyRules2(r0, r1, t);
  }

  lemma ApplyRules4(r0: Rule, r1: Rule, r2: Rule, r3: Rule, t: Token)
    ensures ApplyRules([r0, r1, r2, r3], t) == Apply(r3, Apply(r2, Apply(r1, Apply(r0, t))))
  {
    assert [r0, r1, r2, r3][..3] == [r0, r1, r2];
    ApplyRules3(r0, r1, r2, t);
  }

  /** What each rule reads in such a code. */
  lemma ExampleSubstantiveValues(t: Token)
    requires LikeRelativeCode(Analysis(t)) && t.xpos == "verb"
    ensures SubstantiveCase(t).None? && SubstantiveNumber(t).None? && SubstantiveGender(t).None?
    ensures Definiteness(t).None?
  {
  }

  lemma ExampleSubjectValues(t: Token)
    requires LikeRelativeCode(Analysis(t)) && t.xpos == "verb"
    ensures InfixedPerson(t).None? && InfixedNumber(t).None?
    ensures VerbalPerson(t) == Some("3") && VerbalNumber(t) == Some("Sing")
  {
  }

  lemma ExampleTenseValues(t: Token)
    requires LikeRelativeCode(Analysis(t)) && t.xpos == "verb"
    ensures TenseOf(t) == Some("Pres") && VoiceOf(t) == Some("Act") && MoodOf(t) == Some("Ind")
  {
  }

  lemma ExampleLaterValues(t: Token)
    requires LikeRelativeCode(Analysis(t)) && t.xpos == "verb"
    ensures Subcategory(t).None? && Augmented(t).None? && RelativeType(t) == Some("Len")
  {
  }

  lemma ExampleOtherValues(t: Token)
    requires t.xpos == "verb" && t.lem == "is"
    ensures PrepositionPerson(t).None? && PrepositionNumber(t).None? && PrepositionGender(t).None?
    ensures LatinCheck(t).None?
    ensures Possessive(t).None? && Deixis(t).None? && PronounType(t).None? && PronounPerson(t).None?
  {
    MissingCharNotSubstring("pron", "is", 'p');
  }

  lemma ExampleSubstantives(c: string)
    requires LikeRelativeCode(c)
    ensures StageEffect(Substantives, ExampleAt(c, 0)) == ExampleAt(c, 0)
  {
    var t := ExampleAt(c, 0);
    ExampleCode(c, 0);
    ExampleSubstantiveValues(t);
    ApplyRules4(Rule("Case", SubstantiveCase), Rule("Number", SubstantiveNumber),
      Rule("Gender", SubstantiveGender), Rule("Definite", Definiteness), t);
  }

  lemma ExampleObjectRules(c: string)
    requires LikeRelativeCode(c)
    ensures Apply(Rule("Number[Obj]", InfixedNumber), Apply(Rule("Person[Obj]", InfixedPerson), ExampleAt(c, 0)))
      == ExampleAt(c, 0)
  {
    ExampleCode(c, 0);
    ExampleSubjectValues(ExampleAt(c, 0));
  }

  lemma ExampleSubjectPerson(c: string)
    requires LikeRelativeCode(c)
    ensures Apply(Rule("Person[Subj]", VerbalPerson), ExampleAt(c, 0)) == ExampleAt(c, 1)
  {
    assert VerbalPerson(ExampleAt(c, 0)) == Some("3") by {
      ExampleCode(c, 0);
      ExampleSubjectValues(ExampleAt(c, 0));
    }
    ExampleStep(c, Rule("Person[Subj]", VerbalPerson), 0);
  }

  lemma ExampleSubjectNumber(c: string)
    requires LikeRelativeCode(c)
    ensures Apply(Rule("Number[Subj]", VerbalNumber), ExampleAt(c, 1)) == ExampleAt(c, 2)
  {
    assert VerbalNumber(ExampleAt(c, 1)) == Some("Sing") by {
      ExampleCode(c, 1);
      ExampleSubjectValues(ExampleAt(c, 1));
    }
    ExampleStep(c, Rule("Number[Subj]", VerbalNumber), 1);
  }

  lemma ExamplePersonAndNumber(c: string)
    requires LikeRelativeCode(c)
    ensures ApplyRules(PersonAndNumberRules, ExampleAt(c, 0)) == ExampleAt(c, 2)
  {
    ApplyRules4(Rule("Person[Obj]", InfixedPerson), Rule("Number[Obj]", InfixedNumber),
      Rule("Person[Subj]", VerbalPerson), Rule("Number[Subj]", VerbalNumber), ExampleAt(c, 0));
    ExampleObjectRules(c);
    ExampleSubjectPerson(c);
    ExampleSubjectNumber(c);
  }

  lemma ExampleTense(c: string)
    requires LikeRelativeCode(c)
    ensures Apply(TenseRule, ExampleAt(c, 2)) == ExampleAt(c, 3)
  {
    assert TenseOf(ExampleAt(c, 2)) == Some("Pres") by {
      ExampleCode(c, 2);
      ExampleTenseValues(ExampleAt(c, 2));
    }
    ExampleStep(c, TenseRule, 2);
  }

  lemma ExampleVoice(c: string)
    requires LikeRelativeCode(c)
    ensures Apply(Rule("Voice", VoiceOf), ExampleAt(c, 3)) == ExampleAt(c, 4)
  {
    assert VoiceOf(ExampleAt(c, 3)) == Some("Act") by {
      ExampleCode(c, 3);
      ExampleTenseValues(ExampleAt(c, 3));
    }
    ExampleStep(c, Rule("Voice", VoiceOf), 3);
  }

  lemma ExampleMood(c: string)
    requires LikeRelativeCode(c)
    ensures Apply(Rule("Mood", MoodOf), ExampleAt(c, 4)) == ExampleAt(c, 5)
  {
    assert MoodOf(ExampleAt(c, 4)) == Some("Ind") by {
      ExampleCode(c, 4);
      ExampleTenseValues(ExampleAt(c, 4));
    }
    ExampleStep(c, Rule("Mood", MoodOf), 4);
  }

  lemma ExampleFinite(c: string)
    ensures Apply(FinitenessRule, ExampleAt(c, 5)) == ExampleAt(c, 6)
  {
    assert HasFeat(ExampleAt(c, 5), "Tense") by {
      ExampleFeatsHave(c, 5, 3);
    }
    ExampleStep(c, FinitenessRule, 5);
  }

  lemma ExampleTenseToFinite(c: string)
    requires LikeRelativeCode(c)
    ensures Apply(FinitenessRule, ApplyRules(VoiceAndMoodRules, Apply(TenseRule, ExampleAt(c, 2)))) == ExampleAt(c, 6)
  {
    ExampleTense(c);
    ApplyRules2(Rule("Voice", VoiceOf), Rule("Mood", MoodOf), ExampleAt(c, 3));
    ExampleVoice(c);
    ExampleMood(c);
    ExampleFinite(c);
  }

  lemma ExampleLaterVerbRules(c: string)
    requires LikeRelativeCode(c)
    ensures ApplyRules(LaterVerbRules, ExampleAt(c, 6)) == ExampleAt(c, 7)
  {
    var t := ExampleAt(c, 6);
    ApplyRules4(Rule("Subcat", Subcategory), Rule("PronType", ObjectPronoun), Rule("Aspect", Augmented),
      Rule("RelType", RelativeType), t);
    assert Subcategory(t).None? && Augmented(t).None? && RelativeType(t) == Some("Len") by {
      ExampleCode(c, 6);
      ExampleLaterValues(t);
    }
    assert !HasFeat(t, "Person[Obj]") by {
      ExampleKeysNotObject();
      ExampleFeatsAbsent(c, 6, "Person[Obj]");
    }
    ExampleStep(c, Rule("RelType", RelativeType), 6);
  }

  lemma ExampleVerbs(c: string)
    requires LikeRelativeCode(c)
    ensures StageEffect(Verbs, ExampleAt(c, 0)) == ExampleAt(c, 7)
  {
    VerbStageSplit(ExampleAt(c, 0));
    ExamplePersonAndNumber(c);
    ExampleTenseToFinite(c);
    ExampleLaterVerbRules(c);
  }

  lemma ExampleRest(c: string)
    requires LikeRelativeCode(c)
    ensures StageEffect(Others, StageEffect(Prepositions, ExampleAt(c, 7))) == ExampleAt(c, 7)
  {
    var t := ExampleAt(c, 7);
    PrepositionStageOnVerb(t);
    OtherStageOnVerb(t);
  }

  /** The preposition rules leave every verb alone. */
  lemma PrepositionStageOnVerb(t: Token)
    requires t.xpos == "verb"
    ensures StageEffect(Prepositions, t) == t
  {
    ApplyRules3(Rule("Person", PrepositionPerson), Rule("Number", PrepositionNumber),
      Rule("Gender", PrepositionGender), t);
  }

  /** So do the rules for the remaining parts of speech, unless the verb's lemma is one of
      the four that the PronType rule tests before it looks at XPOS. */
  lemma OtherStageOnVerb(t: Token)
    requires t.xpos == "verb" && t.lem !in {"cach", "cách", "nech", "nach 1"}
    ensures StageEffect(Others, t) == t
  {
    ApplyRules4(Rule("Poss", Possessive), Rule("Deixis", Deixis), Rule("PronType", PronounType),
      Rule("Person", PronounPerson), t);
  }

  /** The PronType rule tests these lemmas before the XPOS, so a verb with one of them is
      classed as a pronoun: `Tot` for `cach`/`cách`, `Ind` for `nech`/`nach 1`. */
  lemma VerbLemmaPronType(t: Token)
    requires t.xpos == "verb"
    ensures PronounType(t).Some? <==> t.lem in {"cach", "cách", "nech", "nach 1"}
    ensures t.lem in {"cach", "cách"} ==> PronounType(t) == Some("Tot")
    ensures t.lem in {"nech", "nach 1"} ==> PronounType(t) == Some("Ind")
  {
  }

  /** The features the example verb ends with. */
  const ConvertedExample: seq<F.Entry> :=
    [F.Entry("Person[Subj]", Some("3")), F.Entry("Number[Subj]", Some("Sing")),
     F.Entry("Tense", Some("Pres")), F.Entry("Voice", Some("Act")), F.Entry("Mood", Some("Ind")),
     F.Entry("VerbForm", Some("Fin")), F.Entry("RelType", Some("Len"))]

  /** The example verb after the whole stage: subject person and number, tense, voice, mood,
      finiteness and relative type, in the order the rules wrote them, and no analysis code. */
  lemma RelativeVerbConverted()
    ensures Converted(ExampleAt(RelativeCode, 0)).feats == FMap(ConvertedExample)
  {
    RelativeCodeFacts();
    LikeRelativeConverted(RelativeCode);
  }

  /** The first four stages write the example's features one by one. */
  lemma ExampleBeforeNulls(c: string)
    requires LikeRelativeCode(c)
    ensures BeforeNulls(ExampleAt(c, 0)) == ExampleAt(c, 7)
  {
    ExampleSubstantives(c);
    ExampleVerbs(c);
    ExampleRest(c);
  }

  /** The same for every code with the example's patterns. */
  lemma LikeRelativeConverted(c: string)
    requires LikeRelativeCode(c)
    ensures Converted(ExampleAt(c, 0)).feats == FMap(ConvertedExample)
  {
    ExampleBeforeNulls(c);
    ExampleDeleteNull(c);
  }

  lemma ExampleDeleteNull(c: string)
    requires !IsSubstring("No_Features", c)
    ensures HasAnalysis(ExampleAt(c, 7)) && DeleteNull(ExampleAt(c, 7)).feats == FMap(ConvertedExample)
  {
    ExampleCode(c, 7);
    ExampleFeatsFinal(c);
    assert ExampleFeats(c, 7)[1..] == ConvertedExample;
    ConvertedExampleNoAnalysis();
  }

  lemma ConvertedExampleNoAnalysis()
    ensures F.Remove(ConvertedExample, "Analysis") == ConvertedExample
  {
    F.LookupNone(ConvertedExample, "Analysis");
    F.RemoveAbsent(ConvertedExample, "Analysis");
  }

  lemma ExampleFeatsFinal(c: string)
    ensures ExampleFeats(c, 7) == [F.Entry("Analysis", Some(c))] + ConvertedExample
  {
    ExampleFeatsPrefix(c, 7);
    assert ConvertedExample[..7] == ConvertedExample;
  }

  lemma ExampleEntriesConverted(c: string, n: nat)
    requires 1 <= n < 8
    ensures F.Entry(ExampleKeys[n], Some(ExampleValue(c, n))) == ConvertedExample[n - 1]
  {
  }

  lemma {:induction false} ExampleFeatsPrefix(c: string, n: nat)
    requires n < 8
    ensures ExampleFeats(c, n) == [F.Entry("Analysis", Some(c))] + ConvertedExample[..n]
    decreases n
  {
    if n > 0 {
      ExampleFeatsPrefix(c, n - 1);
      ExampleEntriesConverted(c, n);
      assert ConvertedExample[..n] == ConvertedExample[..n - 1] + [ConvertedExample[n - 1]];
    }
  }
}
