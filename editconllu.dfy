/** The repair script `edit_conllu.py`, which fixes CoNLL-U files the converter has
    already written: rules that read the feature keys of prepositions and possessives,
    null-feature deletion, the DEPS column, a mutation classifier, feature values for
    pronouns and articles, the preposition case table and the person of pronouns. Its
    copies of the UPOS table and of the DEPREL rules are in module Tagging. */
module EditConllu {
  import opened Wrappers
  import opened Strings
  import opened Tokens
  import F = Feats
  import Tagging
  import Features

  // ---------------------------------------------------------------------------------
  // Part 1: rules that read the keys of the feature dict

  /** The person, number and gender rules (`analyze_*_in_prepositions_and_possessives_in_`). */
  datatype KeyRule = PersonRule | NumberRule | GenderRule

  /** The three parts of speech whose keys the rules read. */
  predicate KeyBearing(t: Token)
  {
    t.xpos == "preposition" || t.xpos == "pronoun_possessive" || t.xpos == "particle_pronominal"
  }

  /** The assignment one key triggers, as (feature, value); the tests are tried in order.
      The gender rule writes `Number` for `fem.` and `neut.`. */
  function Target(r: KeyRule, k: string): Option<(string, string)>
  {
    match r
    case PersonRule =>
      if IsSubstring("1", k) then Some(("Person", "1"))
      else if IsSubstring("2", k) then Some(("Person", "2"))
      else if IsSubstring("3", k) then Some(("Person", "3"))
      else None
    case NumberRule =>
      if IsSubstring("sg.", k) then Some(("Number", "Sing"))
      else if IsSubstring("pl.", k) then Some(("Number", "Plur"))
      else None
    case GenderRule =>
      if IsSubstring("masc.", k) then Some(("Gender", "Masc"))
      else if IsSubstring("fem.", k) then Some(("Number", "Fem"))
      else if IsSubstring("neut.", k) then Some(("Number", "Neut"))
      else None
  }

  /** The dict after the assignments for the keys `ks`, in turn. */
  function Assign(r: KeyRule, e: seq<F.Entry>, ks: seq<string>): seq<F.Entry>
  {
    if |ks| == 0 then e
    else
      var p := Assign(r, e, ks[..|ks| - 1]);
      match Target(r, ks[|ks| - 1])
      case Some(kv) => F.Set(p, kv.0, kv.1)
      case None => p
  }

  /** One token after a key rule: the keys iterated are those of a copy taken before the
      first assignment. */
  function KeyRuleOn(r: KeyRule, t: Token): Token
  {
    if t.feats.FMap? && KeyBearing(t)
    then t.(feats := FMap(Assign(r, t.feats.entries, F.Keys(t.feats.entries))))
    else t
  }

  /** The inner loop `for key in word["feats"].copy().keys()`. */
  method KeyRuleRow(r: KeyRule, t: Token) returns (u: Token)
    requires t.feats.FMap?
    ensures u == KeyRuleOn(r, t)
  {
    var ks := F.Keys(t.feats.entries);
    u := t;
    for i := 0 to |ks|
      invariant u == if KeyBearing(t) then t.(feats := FMap(Assign(r, t.feats.entries, ks[..i]))) else t
    {
      assert ks[..i + 1][..i] == ks[..i];
      if KeyBearing(u) {
        match Target(r, ks[i]) {
          case Some(kv) => u := SetFeat(u, kv.0, kv.1);
          case None =>
        }
      }
    }
    assert ks[..|ks|] == ks;
  }

  /** A key rule over one sentence. `.copy()` is called on every token's feats, so a token
      without a feature dict raises AttributeError. */
  method AnalyzeKeysIn(r: KeyRule, a: array<Token>)
    requires forall i :: 0 <= i < a.Length ==> a[i].feats.FMap?
    modifies a
    ensures forall i :: 0 <= i < a.Length ==> a[i] == KeyRuleOn(r, old(a[i]))
  {
    for i := 0 to a.Length
      invariant forall k :: 0 <= k < i ==> a[k] == KeyRuleOn(r, old(a[k]))
      invariant forall k :: i <= k < a.Length ==> a[k] == old(a[k])
    {
      a[i] := KeyRuleRow(r, a[i]);
    }
  }

  /** The value the last key of `ks` that writes feature `f` assigns to it. */
  function LastFor(r: KeyRule, ks: seq<string>, f: string): Option<string>
  {
    if |ks| == 0 then None
    else
      match Target(r, ks[|ks| - 1])
      case Some(kv) => if kv.0 == f then Some(kv.1) else LastFor(r, ks[..|ks| - 1], f)
      case None => LastFor(r, ks[..|ks| - 1], f)
  }

  /** After the rule, a feature holds what the last key that writes it assigned; a feature
      no key writes keeps its old value. */
  lemma {:induction false} AssignLookup(r: KeyRule, e: seq<F.Entry>, ks: seq<string>, f: string)
    ensures F.Lookup(Assign(r, e, ks), f) ==
      match LastFor(r, ks, f)
      case Some(v) => Some(Some(v))
      case None => F.Lookup(e, f)
  {
    if |ks| > 0 {
      var n := |ks| - 1;
      AssignLookup(r, e, ks[..n], f);
      match Target(r, ks[n]) {
        case Some(kv) => F.LookupSet(Assign(r, e, ks[..n]), kv.0, kv.1, f);
        case None =>
      }
    }
  }

  /** The rules keep the dict's keys unique. */
  lemma {:induction false} AssignUnique(r: KeyRule, e: seq<F.Entry>, ks: seq<string>)
    requires F.UniqueKeys(e)
    ensures F.UniqueKeys(Assign(r, e, ks))
  {
    if |ks| > 0 {
      AssignUnique(r, e, ks[..|ks| - 1]);
      match Target(r, ks[|ks| - 1]) {
        case Some(kv) => F.SetUnique(Assign(r, e, ks[..|ks| - 1]), kv.0, kv.1);
        case None =>
      }
    }
  }

  /** Only a key containing `masc.` writes Gender; `fem.` and `neut.` write Number. */
  lemma GenderTargets(k: string)
    ensures Target(GenderRule, k).Some? && Target(GenderRule, k).value.0 == "Gender"
      <==> IsSubstring("masc.", k)
    ensures Target(GenderRule, k).Some? ==> Target(GenderRule, k).value.0 in {"Gender", "Number"}
  {
  }

  /** With no key containing `masc.`, the gender rule leaves Gender as it was. */
  lemma {:induction false} GenderOnlyFromMasc(e: seq<F.Entry>, ks: seq<string>)
    requires forall i :: 0 <= i < |ks| ==> !IsSubstring("masc.", ks[i])
    ensures F.Lookup(Assign(GenderRule, e, ks), "Gender") == F.Lookup(e, "Gender")
  {
    assert LastFor(GenderRule, ks, "Gender") == None by {
      NoGenderTarget(ks);
    }
    AssignLookup(GenderRule, e, ks, "Gender");
  }

  lemma {:induction false} NoGenderTarget(ks: seq<string>)
    requires forall i :: 0 <= i < |ks| ==> !IsSubstring("masc.", ks[i])
    ensures LastFor(GenderRule, ks, "Gender") == None
  {
    if |ks| > 0 {
      GenderTargets(ks[|ks| - 1]);
      NoGenderTarget(ks[..|ks| - 1]);
    }
  }

  /** The rules touch only the feats of preposition, possessive and pronominal-particle
      tokens, and only the features they target. */
  lemma KeyRuleFrame(r: KeyRule, t: Token, f: string)
    requires f != "Person" && f != "Number" && f != "Gender"
    ensures KeyRuleOn(r, t).(feats := t.feats) == t
    ensures !KeyBearing(t) ==> KeyRuleOn(r, t) == t
    ensures GetFeat(KeyRuleOn(r, t), f) == GetFeat(t, f)
  {
    if t.feats.FMap? && KeyBearing(t) {
      var ks := F.Keys(t.feats.entries);
      AssignLookup(r, t.feats.entries, ks, f);
      assert LastFor(r, ks, f) == None by {
        NoOtherTarget(r, ks, f);
      }
    }
  }

  lemma {:induction false} NoOtherTarget(r: KeyRule, ks: seq<string>, f: string)
    requires f != "Person" && f != "Number" && f != "Gender"
    ensures LastFor(r, ks, f) == None
  {
    if |ks| > 0 {
      NoOtherTarget(r, ks[..|ks| - 1], f);
    }
  }

  // ---------------------------------------------------------------------------------
  // delete_null_values_in and fill_deps_in

  /** An entry the deletion keeps: the key `No_Features`, or any key with a value. */
  predicate KeepEntry(x: F.Entry)
  {
    x.key == "No_Features" || x.value.Some?
  }

  function KeepNonNull(e: seq<F.Entry>): (r: seq<F.Entry>)
    ensures |r| <= |e|
  {
    if |e| == 0 then []
    else KeepNonNull(e[..|e| - 1]) + if KeepEntry(e[|e| - 1]) then [e[|e| - 1]] else []
  }

  function DeleteNulls(t: Token): Token
  {
    if t.feats.FMap? then t.(feats := FMap(KeepNonNull(t.feats.entries))) else t
  }

  /** Deleting a key from a concatenation deletes it from both parts. */
  lemma {:induction false} RemoveAppend(a: seq<F.Entry>, b: seq<F.Entry>, k: string)
    ensures F.Remove(a + b, k) == F.Remove(a, k) + F.Remove(b, k)
    decreases |a|
  {
    if |a| > 0 {
      assert (a + b)[1..] == a[1..] + b;
      RemoveAppend(a[1..], b, k);
    } else {
      assert a + b == b;
    }
  }

  /** Looking past a prefix that lacks the key. */
  lemma {:induction false} LookupSkip(a: seq<F.Entry>, b: seq<F.Entry>, k: string)
    requires F.Lookup(a, k).None?
    ensures F.Lookup(a + b, k) == F.Lookup(b, k)
    decreases |a|
  {
    if |a| > 0 {
      assert (a + b)[1..] == a[1..] + b;
      LookupSkip(a[1..], b, k);
    } else {
      assert a + b == b;
    }
  }

  /** The kept entries are entries of the dict. */
  lemma {:induction false} KeepNonNullIn(e: seq<F.Entry>, x: F.Entry)
    ensures x in KeepNonNull(e) <==> x in e && KeepEntry(x)
  {
    if |e| > 0 {
      KeepNonNullIn(e[..|e| - 1], x);
      assert e == e[..|e| - 1] + [e[|e| - 1]];
    }
  }

  /** The kept prefix does not hold the key of the entry being visited. */
  lemma KeptLacks(e: seq<F.Entry>, i: nat)
    requires F.UniqueKeys(e) && i < |e|
    ensures F.Lookup(KeepNonNull(e[..i]), e[i].key).None?
  {
    var p := KeepNonNull(e[..i]);
    F.LookupNone(p, e[i].key);
    forall j | 0 <= j < |p| ensures p[j].key != e[i].key {
      KeepNonNullIn(e[..i], p[j]);
      assert p[j] in p;
    }
  }

  /** Nor do the entries after it. */
  lemma RestLacks(e: seq<F.Entry>, i: nat)
    requires F.UniqueKeys(e) && i < |e|
    ensures F.Lookup(e[i + 1..], e[i].key).None?
  {
    F.LookupNone(e[i + 1..], e[i].key);
  }

  /** The kept entries of a prefix one longer. */
  lemma KeepSnoc(e: seq<F.Entry>, i: nat)
    requires i < |e|
    ensures KeepNonNull(e[..i + 1]) == KeepNonNull(e[..i]) + if KeepEntry(e[i]) then [e[i]] else []
  {
    assert e[..i + 1][..i] == e[..i];
  }

  /** While visiting an entry, the dict still maps its key to its value. */
  lemma VisitedValue(e: seq<F.Entry>, i: nat, cur: seq<F.Entry>)
    requires F.UniqueKeys(e) && i < |e| && cur == KeepNonNull(e[..i]) + e[i..]
    ensures F.Lookup(cur, e[i].key) == Some(e[i].value)
  {
    KeptLacks(e, i);
    LookupSkip(KeepNonNull(e[..i]), e[i..], e[i].key);
  }

  /** Deleting the visited key drops exactly that entry. */
  lemma VisitedRemoved(e: seq<F.Entry>, i: nat)
    requires F.UniqueKeys(e) && i < |e|
    ensures F.Remove(KeepNonNull(e[..i]) + e[i..], e[i].key) == KeepNonNull(e[..i]) + e[i + 1..]
  {
    var k := e[i].key;
    var p := KeepNonNull(e[..i]);
    assert e[i..] == [e[i]] + e[i + 1..];
    KeptLacks(e, i);
    RestLacks(e, i);
    RemoveAppend(p, e[i..], k);
    RemoveAppend([e[i]], e[i + 1..], k);
    F.RemoveAbsent(p, k);
    F.RemoveAbsent(e[i + 1..], k);
    assert F.Remove([e[i]], k) == [];
  }

  /** One pass of the loop over the copy, written out on the dict: the kept prefix, then
      the entries not yet visited. */
  lemma DeleteStep(e: seq<F.Entry>, i: nat, cur: seq<F.Entry>)
    requires F.UniqueKeys(e) && i < |e| && cur == KeepNonNull(e[..i]) + e[i..]
    ensures F.Lookup(cur, e[i].key) == Some(e[i].value)
    ensures KeepEntry(e[i]) ==> KeepNonNull(e[..i + 1]) + e[i + 1..] == cur
    ensures !KeepEntry(e[i]) ==> KeepNonNull(e[..i + 1]) + e[i + 1..] == F.Remove(cur, e[i].key)
  {
    VisitedValue(e, i, cur);
    KeepSnoc(e, i);
    if KeepEntry(e[i]) {
      assert e[i..] == [e[i]] + e[i + 1..];
      assert cur == KeepNonNull(e[..i]) + [e[i]] + e[i + 1..];
    } else {
      VisitedRemoved(e, i);
    }
  }

  /** `for key, value in word["feats"].copy().items(): if x != key and word["feats"][key] is None: del ...`. */
  method DeleteNullRow(t: Token) returns (u: Token)
    requires t.feats.FMap? ==> F.UniqueKeys(t.feats.entries)
    ensures u == DeleteNulls(t)
  {
    if !t.feats.FMap? {
      return t;
    }
    var e := t.feats.entries;
    var cur := e;
    for i := 0 to |e|
      invariant cur == KeepNonNull(e[..i]) + e[i..]
    {
      DeleteStep(e, i, cur);
      if e[i].key != "No_Features" && F.Lookup(cur, e[i].key) == Some(None) {
        cur := F.Remove(cur, e[i].key);
      }
    }
    assert e[..|e|] == e && e[|e|..] == [];
    assert cur == KeepNonNull(e);
    u := t.(feats := FMap(cur));
  }

  /** `delete_null_values_in` of the repair script. Tokens without features are skipped; a
      feats that is the string `'_'` would raise AttributeError, but `parse` never
      yields one. */
  method DeleteNullValuesIn(a: array<Token>)
    requires forall i :: 0 <= i < a.Length ==> !a[i].feats.Underscore?
    requires forall i :: 0 <= i < a.Length ==> a[i].feats.FMap? ==> F.UniqueKeys(a[i].feats.entries)
    modifies a
    ensures forall i :: 0 <= i < a.Length ==> a[i] == DeleteNulls(old(a[i]))
  {
    for i := 0 to a.Length
      invariant forall k :: 0 <= k < i ==> a[k] == DeleteNulls(old(a[k]))
      invariant forall k :: i <= k < a.Length ==> a[k] == old(a[k])
    {
      a[i] := DeleteNullRow(a[i]);
    }
  }

  /** Afterwards no key other than `No_Features` maps to None, keys with values are
      untouched, and tokens without features are unchanged. */
  lemma DeleteNullsMeaning(t: Token, k: string)
    requires t.feats.FMap? ==> F.UniqueKeys(t.feats.entries)
    ensures !t.feats.FMap? ==> DeleteNulls(t) == t
    ensures DeleteNulls(t).(feats := t.feats) == t
    ensures k != "No_Features" ==> GetFeat(DeleteNulls(t), k) != Some(None)
    ensures GetFeat(t, k).Some? && GetFeat(t, k).value.Some? ==> GetFeat(DeleteNulls(t), k) == GetFeat(t, k)
  {
    if t.feats.FMap? {
      var e := t.feats.entries;
      var r := KeepNonNull(e);
      F.LookupNone(r, k);
      F.LookupNone(e, k);
      if k != "No_Features" && F.Lookup(r, k) == Some(None) {
        var j := LookupIndex(r, k);
        KeepNonNullIn(e, r[j]);
      }
      if F.Lookup(e, k).Some? && F.Lookup(e, k).value.Some? {
        var j := LookupIndex(e, k);
        KeepNonNullIn(e, e[j]);
        assert e[j] in r;
        var j' :| 0 <= j' < |r| && r[j'] == e[j];
        KeepUnique(e);
        LookupAt(r, j');
      }
    }
  }

  /** Where a found key sits. */
  lemma {:induction false} LookupIndex(e: seq<F.Entry>, k: string) returns (j: nat)
    requires F.Lookup(e, k).Some?
    ensures j < |e| && e[j].key == k && e[j].value == F.Lookup(e, k).value
  {
    if e[0].key == k {
      j := 0;
    } else {
      var j0 := LookupIndex(e[1..], k);
      j := j0 + 1;
    }
  }

  /** In a dict with unique keys, the entry at a position is the one found by its key. */
  lemma {:induction false} LookupAt(e: seq<F.Entry>, j: nat)
    requires F.UniqueKeys(e) && j < |e|
    ensures F.Lookup(e, e[j].key) == Some(e[j].value)
  {
    if j > 0 {
      assert F.UniqueKeys(e[1..]);
      LookupAt(e[1..], j - 1);
    }
  }

  lemma {:induction false} KeepUnique(e: seq<F.Entry>)
    requires F.UniqueKeys(e)
    ensures F.UniqueKeys(KeepNonNull(e))
  {
    if |e| > 0 {
      var p := e[..|e| - 1];
      KeepUnique(p);
      forall j | 0 <= j < |KeepNonNull(p)| ensures KeepNonNull(p)[j].key != e[|e| - 1].key {
        KeepNonNullIn(p, KeepNonNull(p)[j]);
        assert KeepNonNull(p)[j] in KeepNonNull(p);
      }
    }
  }

  /** `str()` of the head: the number, or `None`. */
  function HeadText(h: Option<nat>): string
  {
    match h
    case Some(n) => NatToString(n)
    case None => "None"
  }

  /** `str()` of the relation. */
  function DeprelText(d: Option<string>): string
  {
    match d
    case Some(s) => s
    case None => "None"
  }

  function FillDeps(t: Token): Token
  {
    t.(deps := HeadText(t.head) + ":" + DeprelText(t.deprel))
  }

  /** `fill_deps_in`: every token's DEPS becomes `f'{head}:{deprel}'`. */
  method FillDepsIn(a: array<Token>)
    modifies a
    ensures forall i :: 0 <= i < a.Length ==> a[i] == FillDeps(old(a[i]))
  {
    ForEachToken(a, FillDeps);
  }

  /** Only DEPS changes, filling twice is filling once, and the head and the relation can
      be read back: the head is everything before the first colon. */
  lemma FillDepsMeaning(t: Token)
    ensures FillDeps(t).(deps := t.deps) == t
    ensures FillDeps(FillDeps(t)) == FillDeps(t)
    ensures var d := FillDeps(t).deps; var k := |HeadText(t.head)|;
      && k < |d| && d[k] == ':' && (forall i :: 0 <= i < k ==> d[i] != ':')
      && d[k + 1..] == DeprelText(t.deprel)
      && (t.head.Some? ==> (forall i :: 0 <= i < k ==> IsDigit(d[i])) && ParseNat(d[..k]) == t.head.value)
  {
    var d := FillDeps(t).deps;
    var h := HeadText(t.head);
    assert d[..|h|] == h;
    assert d[|h| + 1..] == DeprelText(t.deprel);
    if t.head.Some? {
      ParseNatToString(t.head.value);
    }
  }

  // ---------------------------------------------------------------------------------
  // Part 4: mutation_finder

  datatype Mutation = Lenited | Eclipsed | Geminated

  /** The class `mutation_finder` prints for a form, tested in its order. */
  function MutationOf(form: string): Option<Mutation>
  {
    if IsPrefix("ch", form) || IsPrefix("th", form) || IsPrefix("ph", form) then Some(Lenited)
    else if IsPrefix("ng", form) || IsPrefix("nd", form) || IsPrefix("mb", form) then Some(Eclipsed)
    else if IsPrefix("nn", form) || IsPrefix("ll", form) || IsPrefix("rr", form) then Some(Geminated)
    else None
  }

  /** The loop of `mutation_finder`, which prints one line per classified token; the model
      returns the class of each token instead. */
  method MutationFinder(s: seq<Token>) returns (classes: seq<Option<Mutation>>)
    ensures |classes| == |s| && forall i :: 0 <= i < |s| ==> classes[i] == MutationOf(s[i].form)
  {
    classes := [];
    for i := 0 to |s|
      invariant |classes| == i && forall k :: 0 <= k < i ==> classes[k] == MutationOf(s[k].form)
    {
      classes := classes + [MutationOf(s[i].form)];
    }
  }

  /** The three prefix groups exclude each other, so the order of the tests does not
      matter: each class holds exactly when one of its own prefixes starts the form. */
  lemma MutationClasses(form: string)
    ensures MutationOf(form) == Some(Lenited) <==> IsPrefix("ch", form) || IsPrefix("th", form) || IsPrefix("ph", form)
    ensures MutationOf(form) == Some(Eclipsed) <==> IsPrefix("ng", form) || IsPrefix("nd", form) || IsPrefix("mb", form)
    ensures MutationOf(form) == Some(Geminated) <==> IsPrefix("nn", form) || IsPrefix("ll", form) || IsPrefix("rr", form)
    ensures MutationOf(form) == MutationOf(form[..if |form| < 2 then |form| else 2])
  {
    var p := form[..if |form| < 2 then |form| else 2];
    assert forall q :: |q| == 2 ==> (IsPrefix(q, form) <==> IsPrefix(q, p));
  }

  // ---------------------------------------------------------------------------------
  // Part 5: feature values for articles and pronouns

  function Definite(t: Token): Token
  {
    if t.xpos == "definite_article" then SetFeat(t, "Definite", "Def") else t
  }

  function Possessive(t: Token): Token
  {
    if t.xpos == "pronoun_possessive" then SetFeat(t, "Poss", "Yes") else t
  }

  function Deixis(t: Token): Token
  {
    if t.xpos == "pronoun_demonstrative_distal" || t.xpos == "particle_demonstrative_distal"
    then SetFeat(t, "Deixis", "Remt")
    else if t.xpos == "pronoun_demonstrative_proximate" || t.xpos == "particle_demonstrative_proximate"
    then SetFeat(t, "Deixis", "Prox")
    else t
  }

  predicate Personal(t: Token)
  {
    t.xpos in {"pronoun_independent", "pronoun_possessive", "pronoun_suffixed", "pronoun_infixed", "particle_pronominal"}
  }

  /** The PronType value of `assign_value_to_prontype`, in the order of its tests. */
  function PronTypeOf(t: Token): Option<string>
  {
    if Personal(t) then Some("Prs")
    else if t.xpos == "definite_article" then Some("Art")
    else if t.xpos == "pronoun_relative" then Some("Rel")
    else if t.xpos == "pronoun_emphatic" then Some("Emp")
    else if t.lem == "cach" || t.lem == "cách" then Some("Tot")
    else if t.lem == "nech" || t.lem == "nach 1" then Some("Ind")
    else if t.xpos == "pronoun_demonstrative_proximate" || t.xpos == "pronoun_demonstrative_distal" then Some("Dem")
    else None
  }

  function PronType(t: Token): Token
  {
    match PronTypeOf(t)
    case Some(v) => SetFeat(t, "PronType", v)
    case None => t
  }

  /** `word['feats'][...] = ...` needs a dict: on None or `'_'` Python raises TypeError. */
  predicate FeatsWhere(a: array<Token>, xs: set<string>)
    reads a
  {
    forall i :: 0 <= i < a.Length ==> a[i].xpos in xs ==> a[i].feats.FMap?
  }

  /** `assign_value_to_definite`. */
  method AssignValueToDefinite(a: array<Token>)
    requires FeatsWhere(a, {"definite_article"})
    modifies a
    ensures forall i :: 0 <= i < a.Length ==> a[i] == Definite(old(a[i]))
  {
    ForEachToken(a, Definite);
  }

  /** `assign_value_to_poss`. */
  method AssignValueToPoss(a: array<Token>)
    requires FeatsWhere(a, {"pronoun_possessive"})
    modifies a
    ensures forall i :: 0 <= i < a.Length ==> a[i] == Possessive(old(a[i]))
  {
    ForEachToken(a, Possessive);
  }

  /** `assign_value_to_deixis`. */
  method AssignValueToDeixis(a: array<Token>)
    requires FeatsWhere(a, {"pronoun_demonstrative_distal", "particle_demonstrative_distal",
                            "pronoun_demonstrative_proximate", "particle_demonstrative_proximate"})
    modifies a
    ensures forall i :: 0 <= i < a.Length ==> a[i] == Deixis(old(a[i]))
  {
    ForEachToken(a, Deixis);
  }

  /** `assign_value_to_prontype`: tokens that receive a PronType must carry a dict. */
  method AssignValueToPronType(a: array<Token>)
    requires forall i :: 0 <= i < a.Length ==> PronTypeOf(a[i]).Some? ==> a[i].feats.FMap?
    modifies a
    ensures forall i :: 0 <= i < a.Length ==> a[i] == PronType(old(a[i]))
  {
    ForEachToken(a, PronType);
  }

  /** A token that gets a PronType gets exactly the classified value, and no other feature
      or field changes. */
  lemma PronTypeEffect(t: Token, k: string)
    requires t.feats.FMap?
    ensures PronType(t).(feats := t.feats) == t
    ensures GetFeat(PronType(t), k) ==
      if k == "PronType" && PronTypeOf(t).Some? then Some(Some(PronTypeOf(t).value)) else GetFeat(t, k)
  {
    if PronTypeOf(t).Some? {
      GetSetFeat(t, "PronType", PronTypeOf(t).value, k);
    }
  }

  /** Personal pronouns are exactly the `Prs` ones, whatever their lemma; the lemma tests
      for `cach`/`nech` outrank the demonstrative test. */
  lemma PronTypeOrder(t: Token)
    ensures PronTypeOf(t) == Some("Prs") <==> Personal(t)
    ensures PronTypeOf(t) == Some("Dem") <==>
      (t.xpos == "pronoun_demonstrative_proximate" || t.xpos == "pronoun_demonstrative_distal")
      && t.lem !in {"cach", "cách", "nech", "nach 1"}
  {
  }

  /** The deixis rule writes Remt for the distal and Prox for the proximate forms, and
      touches nothing else. */
  lemma DeixisEffect(t: Token, k: string)
    requires t.feats.FMap?
    ensures Deixis(t).(feats := t.feats) == t
    ensures GetFeat(Deixis(t), k) ==
      if k != "Deixis" then GetFeat(t, k)
      else if t.xpos in {"pronoun_demonstrative_distal", "particle_demonstrative_distal"} then Some(Some("Remt"))
      else if t.xpos in {"pronoun_demonstrative_proximate", "particle_demonstrative_proximate"} then Some(Some("Prox"))
      else GetFeat(t, k)
  {
    GetSetFeat(t, "Deixis", "Remt", k);
    GetSetFeat(t, "Deixis", "Prox", k);
  }

  // ---------------------------------------------------------------------------------
  // build_list_of_nouns_and_det_in

  /** The tokens of a sentence with a given UPOS, in order. */
  function WithUpos(s: seq<Token>, u: string): (r: seq<Token>)
    ensures |r| <= |s|
  {
    if |s| == 0 then []
    else WithUpos(s[..|s| - 1], u) + if s[|s| - 1].upos == u then [s[|s| - 1]] else []
  }

  method BuildListOfNounsAndDetIn(s: seq<Token>) returns (nouns: seq<Token>, dets: seq<Token>)
    ensures nouns == WithUpos(s, "NOUN") && dets == WithUpos(s, "DET")
  {
    nouns, dets := [], [];
    for i := 0 to |s|
      invariant nouns == WithUpos(s[..i], "NOUN") && dets == WithUpos(s[..i], "DET")
    {
      assert s[..i + 1][..i] == s[..i];
      if s[i].upos == "NOUN" {
        nouns := nouns + [s[i]];
      } else if s[i].upos == "DET" {
        dets := dets + [s[i]];
      }
    }
    assert s[..|s|] == s;
  }

  /** A token is listed exactly when it is in the sentence with that UPOS; the two lists
      together are no longer than the sentence. */
  lemma {:induction false} WithUposMeaning(s: seq<Token>, u: string, x: Token)
    ensures x in WithUpos(s, u) <==> x in s && x.upos == u
  {
    if |s| > 0 {
      WithUposMeaning(s[..|s| - 1], u, x);
      assert s == s[..|s| - 1] + [s[|s| - 1]];
    }
  }

  lemma {:induction false} NounsAndDetsFit(s: seq<Token>)
    ensures |WithUpos(s, "NOUN")| + |WithUpos(s, "DET")| <= |s|
  {
    if |s| > 0 {
      NounsAndDetsFit(s[..|s| - 1]);
    }
  }

  // ---------------------------------------------------------------------------------
  // case_finder / assign_case

  /** What the product pass with the case table leaves in one token: an ADP whose lemma is
      a key gets the value of the last pair with that key (there is no `break` here). */
  function CaseRule(tbl: seq<(string, string)>, t: Token): Token
  {
    if t.upos == "ADP" && Tagging.LastValue(tbl, t.lem).Some?
    then SetFeat(t, "Case", Tagging.LastValue(tbl, t.lem).value)
    else t
  }

  /** The inner loop over the table for one token. */
  method CaseRow(tbl: seq<(string, string)>, t: Token) returns (u: Token)
    ensures u == CaseRule(tbl, t)
  {
    u := t;
    for k := 0 to |tbl|
      invariant u == CaseRule(tbl[..k], t)
    {
      assert tbl[..k + 1][..k] == tbl[..k];
      assert tbl[..k + 1][k] == tbl[k];
      if u.upos == "ADP" && u.lem == tbl[k].0 {
        SetSetFeat(t, u, tbl, k);
        u := SetFeat(u, "Case", tbl[k].1);
      }
    }
    assert tbl[..|tbl|] == tbl;
  }

  lemma SetSetFeat(t: Token, u: Token, tbl: seq<(string, string)>, k: nat)
    requires k < |tbl| && u == CaseRule(tbl[..k], t) && t.upos == "ADP" && t.lem == tbl[k].0
    ensures SetFeat(u, "Case", tbl[k].1) == SetFeat(t, "Case", tbl[k].1)
  {
    if t.feats.FMap? && Tagging.LastValue(tbl[..k], t.lem).Some? {
      F.SetSet(t.feats.entries, "Case", Tagging.LastValue(tbl[..k], t.lem).value, tbl[k].1);
    }
  }

  /** `assign_case` over one sentence with `prep_list`; only an ADP whose lemma is a key of
      the table must carry a feature dict (Python raises TypeError otherwise). Every other
      token, whatever its FEATS, is left alone. */
  method AssignCase(a: array<Token>)
    requires forall i ::
      0 <= i < a.Length && a[i].upos == "ADP" && Tagging.LastValue(Features.PrepList, a[i].lem).Some?
      ==> a[i].feats.FMap?
    modifies a
    ensures forall i :: 0 <= i < a.Length ==> a[i] == CaseRule(Features.PrepList, old(a[i]))
  {
    for i := 0 to a.Length
      invariant forall k :: 0 <= k < i ==> a[k] == CaseRule(Features.PrepList, old(a[k]))
      invariant forall k :: i <= k < a.Length ==> a[k] == old(a[k])
    {
      a[i] := CaseRow(Features.PrepList, a[i]);
    }
  }

  /** Every ADP whose lemma is a key gets Case equal to a value that key carries in the
      table, with no later pair for that key; nothing else changes, and other tokens are
      untouched. */
  lemma CaseRuleMeaning(tbl: seq<(string, string)>, t: Token)
    requires t.feats.FMap?
    ensures CaseRule(tbl, t).(feats := t.feats) == t
    ensures t.upos != "ADP" || (forall j :: 0 <= j < |tbl| ==> tbl[j].0 != t.lem) ==> CaseRule(tbl, t) == t
    ensures t.upos == "ADP" && Tagging.LastValue(tbl, t.lem).Some? ==>
      exists j :: 0 <= j < |tbl| && tbl[j].0 == t.lem && GetFeat(CaseRule(tbl, t), "Case") == Some(Some(tbl[j].1))
        && (forall j' :: j < j' < |tbl| ==> tbl[j'].0 != t.lem)
  {
    if forall j :: 0 <= j < |tbl| ==> tbl[j].0 != t.lem {
      Tagging.LastValueMissing(tbl, t.lem);
    }
    if t.upos == "ADP" && Tagging.LastValue(tbl, t.lem).Some? {
      Tagging.LastValueSound(tbl, t.lem);
      GetSetFeat(t, "Case", Tagging.LastValue(tbl, t.lem).value, "Case");
    }
  }

  // ---------------------------------------------------------------------------------
  // assign_person_to_pronouns

  /** `'pron' in lemma and xpos == 'pronoun_independent' or xpos == 'pronoun_possessive'`:
      the `and` binds tighter, so every possessive qualifies whatever its lemma. */
  predicate PersonCandidate(t: Token)
  {
    (IsSubstring("pron", t.lem) && t.xpos == "pronoun_independent") || t.xpos == "pronoun_possessive"
  }

  function PersonFromLemma(l: string): Option<string>
  {
    if IsSubstring("1", l) then Some("1")
    else if IsSubstring("2", l) then Some("2")
    else if IsSubstring("3", l) then Some("3")
    else None
  }

  function PronounPerson(t: Token): Token
  {
    if PersonCandidate(t) && PersonFromLemma(t.lem).Some?
    then SetFeat(t, "Person", PersonFromLemma(t.lem).value)
    else t
  }

  /** `assign_person_to_pronouns`; only a candidate whose lemma holds a person digit must
      carry a feature dict (Python raises TypeError otherwise). */
  method AssignPersonToPronouns(a: array<Token>)
    requires forall i ::
      0 <= i < a.Length && PersonCandidate(a[i]) && PersonFromLemma(a[i].lem).Some?
      ==> a[i].feats.FMap?
    modifies a
    ensures forall i :: 0 <= i < a.Length ==> a[i] == PronounPerson(old(a[i]))
  {
    ForEachToken(a, PronounPerson);
  }

  /** Person is written exactly for candidates whose lemma contains 1, 2 or 3 (the lowest
      digit tested first wins), and nothing else changes. */
  lemma PronounPersonEffect(t: Token, k: string)
    requires t.feats.FMap?
    ensures PronounPerson(t).(feats := t.feats) == t
    ensures GetFeat(PronounPerson(t), k) ==
      if k == "Person" && PersonCandidate(t) && PersonFromLemma(t.lem).Some?
      then Some(PersonFromLemma(t.lem)) else GetFeat(t, k)
    ensures PersonFromLemma(t.lem) == Some("1") <==> IsSubstring("1", t.lem)
  {
    if PersonCandidate(t) && PersonFromLemma(t.lem).Some? {
      GetSetFeat(t, "Person", PersonFromLemma(t.lem).value, k);
    }
  }
}
