/** Section 3 of the converter, second half: absorbed infixed pronouns and dummy
    preverbs are deleted, the whole relation pass is run per sentence, and the parts of
    compounds are dropped. Python deletes from the sentence list in place; here each
    pass returns the new list. */
module RelationPasses {
  import opened Wrappers
  import opened Strings
  import opened Words
  import opened Relations
  import opened SentenceDict

  /** Which of the two deletion passes: infixed pronouns inside a verb's form, or
      dummy preverbs that begin a verb's form. */
  datatype Absorption = PronounAbsorption | PreverbAbsorption

  /** The deletion test of the two passes (the stressed units agree and the form lies
      inside, resp. begins, the verb's form). */
  predicate Absorbs(rule: Absorption, v: Word, x: Word)
    requires HasColumns(v) && HasColumns(x)
  {
    x[SU] == v[SU] &&
    match rule
    case PronounAbsorption => IsSubstring(x[MORPH], v[MORPH])
    case PreverbAbsorption => IsPrefix(x[MORPH], v[MORPH])
  }

  /** The candidates one verb absorbs, in list order. */
  function AbsorbedBy(rule: Absorption, v: Word, xs: seq<Word>): seq<Word>
    requires HasColumns(v) && AllHaveColumns(xs)
  {
    if |xs| == 0 then []
    else AbsorbedBy(rule, v, xs[..|xs| - 1]) + if Absorbs(rule, v, xs[|xs| - 1]) then [xs[|xs| - 1]] else []
  }

  /** The values removed by the verb-major product loop, in the order of removal. */
  function Absorbed(rule: Absorption, verbs: seq<Word>, xs: seq<Word>): seq<Word>
    requires AllHaveColumns(verbs) && AllHaveColumns(xs)
  {
    if |verbs| == 0 then []
    else Absorbed(rule, verbs[..|verbs| - 1], xs) + AbsorbedBy(rule, verbs[|verbs| - 1], xs)
  }

  /** The inner loop of the product: one verb against every candidate. */
  method RemoveForVerb(rule: Absorption, sentence: seq<Word>, v: Word, xs: seq<Word>) returns (r: Result<seq<Word>>)
    requires HasColumns(v) && AllHaveColumns(xs)
    ensures r == RemoveAll(sentence, AbsorbedBy(rule, v, xs))
  {
    var cur := sentence;
    assert xs[..0] == [];
    for b := 0 to |xs|
      invariant RemoveAll(sentence, AbsorbedBy(rule, v, xs[..b])) == Success(cur)
    {
      assert xs[..b + 1][..b] == xs[..b];
      var x := xs[b];
      var one: seq<Word> := if Absorbs(rule, v, x) then [x] else [];
      assert AbsorbedBy(rule, v, xs[..b + 1]) == AbsorbedBy(rule, v, xs[..b]) + one;
      RemoveAllAppend(sentence, AbsorbedBy(rule, v, xs[..b]), one);
      if x[SU] == v[SU] && (match rule case PronounAbsorption => IsSubstring(x[MORPH], v[MORPH])
                                       case PreverbAbsorption => IsPrefix(x[MORPH], v[MORPH])) {
        var step := RemoveFirst(cur, x);
        assert one == [x] && |one[1..]| == 0;
        if step.Failure? {
          AbsorbedByPrefix(rule, v, xs, b + 1);
          RemoveAllFailureExtends(sentence, AbsorbedBy(rule, v, xs[..b + 1]), AbsorbedBy(rule, v, xs));
          return Failure(step.error);
        }
        cur := step.value;
      }
    }
    assert xs[..|xs|] == xs;
    return Success(cur);
  }

  /** The shared loop of `remove_true_infixed_pronouns_in` and `remove_dummy_preverb_in`:
      for each (verb, candidate) pair that passes the test, `sentence.remove(candidate)`. */
  method RemoveAbsorbed(rule: Absorption, sentence: seq<Word>, verbs: seq<Word>, xs: seq<Word>) returns (r: Result<seq<Word>>)
    requires AllHaveColumns(verbs) && AllHaveColumns(xs)
    ensures r == RemoveAll(sentence, Absorbed(rule, verbs, xs))
  {
    var cur := sentence;
    assert verbs[..0] == [];
    for a := 0 to |verbs|
      invariant RemoveAll(sentence, Absorbed(rule, verbs[..a], xs)) == Success(cur)
    {
      assert verbs[..a + 1][..a] == verbs[..a];
      RemoveAllAppend(sentence, Absorbed(rule, verbs[..a], xs), AbsorbedBy(rule, verbs[a], xs));
      var step := RemoveForVerb(rule, cur, verbs[a], xs);
      if step.Failure? {
        AbsorbedPrefix(rule, verbs, xs, a + 1);
        RemoveAllFailureExtends(sentence, Absorbed(rule, verbs[..a + 1], xs), Absorbed(rule, verbs, xs));
        return Failure(step.error);
      }
      cur := step.value;
    }
    assert verbs[..|verbs|] == verbs;
    return Success(cur);
  }

  lemma {:induction false} AbsorbedByPrefix(rule: Absorption, v: Word, xs: seq<Word>, n: nat)
    requires HasColumns(v) && AllHaveColumns(xs) && n <= |xs|
    ensures IsSeqPrefix(AbsorbedBy(rule, v, xs[..n]), AbsorbedBy(rule, v, xs))
    decreases |xs|
  {
    if n < |xs| {
      assert xs[..|xs| - 1][..n] == xs[..n];
      AbsorbedByPrefix(rule, v, xs[..|xs| - 1], n);
    } else {
      assert xs[..n] == xs;
    }
  }

  lemma {:induction false} AbsorbedPrefix(rule: Absorption, verbs: seq<Word>, xs: seq<Word>, n: nat)
    requires AllHaveColumns(verbs) && AllHaveColumns(xs) && n <= |verbs|
    ensures IsSeqPrefix(Absorbed(rule, verbs[..n], xs), Absorbed(rule, verbs, xs))
    decreases |verbs|
  {
    if n < |verbs| {
      assert verbs[..|verbs| - 1][..n] == verbs[..n];
      AbsorbedPrefix(rule, verbs[..|verbs| - 1], xs, n);
    } else {
      assert verbs[..n] == verbs;
    }
  }

  /** `remove_true_infixed_pronouns_in`. */
  method RemoveTrueInfixedPronouns(sentence: seq<Word>, verbs: seq<Word>, prons: seq<Word>) returns (r: Result<seq<Word>>)
    requires AllHaveColumns(verbs) && AllHaveColumns(prons)
    ensures r == RemoveAll(sentence, Absorbed(PronounAbsorption, verbs, prons))
  {
    r := RemoveAbsorbed(PronounAbsorption, sentence, verbs, prons);
  }

  /** `remove_dummy_preverb_in`. */
  method RemoveDummyPreverb(sentence: seq<Word>, verbs: seq<Word>, prevs: seq<Word>) returns (r: Result<seq<Word>>)
    requires AllHaveColumns(verbs) && AllHaveColumns(prevs)
    ensures r == RemoveAll(sentence, Absorbed(PreverbAbsorption, verbs, prevs))
  {
    r := RemoveAbsorbed(PreverbAbsorption, sentence, verbs, prevs);
  }

  /** What the deletion passes do: they succeed exactly when every absorbed word is in
      the sentence as often as it is absorbed (one pronoun absorbed by two verbs makes
      the second `remove` raise ValueError), and then delete exactly those words and
      keep the rest in order. */
  lemma RemovalMeaning(rule: Absorption, sentence: seq<Word>, verbs: seq<Word>, xs: seq<Word>)
    requires AllHaveColumns(verbs) && AllHaveColumns(xs)
    ensures var r := RemoveAll(sentence, Absorbed(rule, verbs, xs));
      && (r.Success? <==> multiset(Absorbed(rule, verbs, xs)) <= multiset(sentence))
      && (r.Failure? ==> r.error == ValueError)
      && (r.Success? ==> multiset(r.value) == multiset(sentence) - multiset(Absorbed(rule, verbs, xs)))
      && (r.Success? ==> IsSubsequence(r.value, sentence))
  {
    RemoveAllSucceeds(sentence, Absorbed(rule, verbs, xs));
    if RemoveAll(sentence, Absorbed(rule, verbs, xs)).Success? {
      RemoveAllContents(sentence, Absorbed(rule, verbs, xs));
    }
  }

  /** Only words some verb absorbs are removed. */
  lemma {:induction false} AbsorbedAreAbsorbed(rule: Absorption, verbs: seq<Word>, xs: seq<Word>, x: Word)
    requires AllHaveColumns(verbs) && AllHaveColumns(xs)
    requires x in Absorbed(rule, verbs, xs)
    ensures x in xs && HasColumns(x) && exists a :: 0 <= a < |verbs| && Absorbs(rule, verbs[a], x)
    decreases |verbs|
  {
    var init := verbs[..|verbs| - 1];
    assert forall a :: 0 <= a < |init| ==> init[a] == verbs[a];
    if x in Absorbed(rule, init, xs) {
      AbsorbedAreAbsorbed(rule, init, xs, x);
    } else {
      AbsorbedByMember(rule, verbs[|verbs| - 1], xs, x);
    }
  }

  lemma {:induction false} AbsorbedByMember(rule: Absorption, v: Word, xs: seq<Word>, x: Word)
    requires HasColumns(v) && AllHaveColumns(xs) && x in AbsorbedBy(rule, v, xs)
    ensures x in xs && HasColumns(x) && Absorbs(rule, v, x)
    decreases |xs|
  {
    if x in AbsorbedBy(rule, v, xs[..|xs| - 1]) {
      AbsorbedByMember(rule, v, xs[..|xs| - 1], x);
      assert xs[..|xs| - 1] <= xs;
    }
  }

  // ---------------------------------------------------------------------------------
  // look_for_relative_or_infixed_verbs_in_all

  /** The current values of the listed words. */
  function Values(s: seq<Word>, idx: seq<nat>): (vs: seq<Word>)
    requires AllHaveColumns(s) && InRange(idx, |s|)
    ensures |vs| == |idx| && AllHaveColumns(vs)
  {
    seq(|idx|, a requires 0 <= a < |idx| => s[idx[a]])
  }

  /** The relation pass on one sentence: object markers first; then relative markers,
      through the triple comparison when the sentence has infixed pronouns; then the
      deletions. */
  function LookForSpec(s: seq<Word>): Result<seq<Word>>
    requires AllHaveColumns(s)
  {
    var s2 := Marked(s);
    match RemoveAll(s2, Absorbed(PronounAbsorption, Values(s2, IndicesOf(s, Verb)), Values(s2, IndicesOf(s, InfixedPronoun))))
    case Failure(e) => Failure(e)
    case Success(s3) => RemoveAll(s3, Absorbed(PreverbAbsorption, Values(s2, IndicesOf(s, Verb)), Values(s2, IndicesOf(s, DummyPreverb))))
  }

  /** The sentence after the three comparisons, before any deletion. */
  function Marked(s: seq<Word>): (s2: seq<Word>)
    requires AllHaveColumns(s)
    ensures |s2| == |s| && AllHaveColumns(s2)
  {
    var verbs := IndicesOf(s, Verb);
    var relparts := IndicesOf(s, RelativeParticle);
    var prons := IndicesOf(s, InfixedPronoun);
    var s1 := InfixedSpec(s, verbs, prons);
    if |prons| == 0 then RelSpec(s1, verbs, relparts) else TripleSpec(s1, verbs, relparts, prons)
  }

  lemma ListsDisjoint(s: seq<Word>, k1: Kind, k2: Kind)
    requires AllHaveColumns(s) && k1 != k2
    ensures Disjoint(IndicesOf(s, k1), IndicesOf(s, k2))
  {
    IndicesOfFacts(s, k1);
    IndicesOfFacts(s, k2);
    var xs, ys := IndicesOf(s, k1), IndicesOf(s, k2);
    forall a, b | 0 <= a < |xs| && 0 <= b < |ys| ensures xs[a] != ys[b] {
      assert xs[a] in xs && ys[b] in ys;
    }
  }

  /** The body of `look_for_relative_or_infixed_verbs_in_all` for one sentence. */
  method LookForRelativeOrInfixedVerbsIn(sent: seq<Word>) returns (r: Result<seq<Word>>)
    requires AllHaveColumns(sent)
    ensures r == LookForSpec(sent)
  {
    var verbs, relparts, prons, prevs := BuildLists(sent);
    ListsDisjoint(sent, Verb, InfixedPronoun);
    var s1 := CompareVerbsAndInfixedPronouns(sent, verbs, prons);
    var s2;
    if |prons| == 0 {
      s2 := CompareVerbsAndRelativeParticles(s1, verbs, relparts);
    } else {
      s2 := CompareVerbsRelativeParticlesAndInfixedPronouns(s1, verbs, relparts, prons);
    }
    assert s2 == Marked(sent);
    var s3 := RemoveTrueInfixedPronouns(s2, Values(s2, verbs), Values(s2, prons));
    if s3.Failure? {
      return Failure(s3.error);
    }
    r := RemoveDummyPreverb(s3.value, Values(s2, verbs), Values(s2, prevs));
  }

  /** The sentence table every pass over "all sentences" takes: the keys listed in
      order once each, and every word with the columns the passes read. */
  ghost predicate WellFormedSentences(d: Sentences)
  {
    && (forall k :: k in d.groups <==> k in d.order)
    && (forall a, b :: 0 <= a < b < |d.order| ==> d.order[a] != d.order[b])
    && (forall k :: k in d.groups ==> AllHaveColumns(d.groups[k]))
  }

  /** After `a` rounds of a loop over the table in key order, `done` holds exactly the
      keys visited so far. */
  ghost predicate Visited(d: Sentences, done: set<string>, a: nat)
  {
    && a <= |d.order|
    && (forall j :: 0 <= j < a ==> d.order[j] in done)
    && (forall j :: a <= j < |d.order| ==> d.order[j] !in done)
  }

  lemma VisitedStep(d: Sentences, done: set<string>, a: nat)
    requires WellFormedSentences(d) && Visited(d, done, a) && a < |d.order|
    ensures d.order[a] in d.groups && d.order[a] !in done
    ensures Visited(d, done + {d.order[a]}, a + 1)
  {
  }

  lemma VisitedAll(d: Sentences, done: set<string>)
    requires WellFormedSentences(d) && Visited(d, done, |d.order|)
    ensures forall k :: k in d.groups ==> k in done
  {
  }

  /** `look_for_relative_or_infixed_verbs_in_all`: every sentence in key order; the
      first ValueError ends the run. */
  method LookForRelativeOrInfixedVerbsInAll(d: Sentences) returns (r: Result<Sentences>)
    requires WellFormedSentences(d)
    ensures r.Success? <==> forall k :: k in d.groups ==> LookForSpec(d.groups[k]).Success?
    ensures r.Failure? ==> r.error == ValueError
    ensures r.Success? ==> r.value.order == d.order && r.value.groups.Keys == d.groups.Keys
    ensures r.Success? ==> forall k :: k in d.groups ==> r.value.groups[k] == LookForSpec(d.groups[k]).value
  {
    var groups := d.groups;
    ghost var done: set<string> := {};
    for a := 0 to |d.order|
      invariant LookedFor(d, groups, done) && Visited(d, done, a)
    {
      var k := d.order[a];
      VisitedStep(d, done, a);
      assert groups[k] == d.groups[k];
      var step := LookForRelativeOrInfixedVerbsIn(groups[k]);
      if step.Failure? {
        RemovalErrors(d.groups[k]);
        return Failure(step.error);
      }
      LookedForStep(d, groups, done, k);
      groups := groups[k := step.value];
      done := done + {k};
    }
    VisitedAll(d, done);
    return Success(Sentences(d.order, groups));
  }

  /** The table while the relation pass runs: the sentences in `done` were converted
      without error, the rest are untouched. */
  ghost predicate LookedFor(d: Sentences, groups: map<string, seq<Word>>, done: set<string>)
    requires WellFormedSentences(d)
  {
    && groups.Keys == d.groups.Keys
    && forall k :: k in d.groups ==>
      if k in done then LookForSpec(d.groups[k]).Success? && groups[k] == LookForSpec(d.groups[k]).value
      else groups[k] == d.groups[k]
  }

  lemma LookedForStep(d: Sentences, groups: map<string, seq<Word>>, done: set<string>, k: string)
    requires WellFormedSentences(d) && LookedFor(d, groups, done) && k in d.groups && k !in done
    requires LookForSpec(d.groups[k]).Success?
    ensures LookedFor(d, groups[k := LookForSpec(d.groups[k]).value], done + {k})
  {
  }

  /** The relation pass can only fail with ValueError. */
  lemma RemovalErrors(s: seq<Word>)
    requires AllHaveColumns(s)
    ensures LookForSpec(s).Failure? ==> LookForSpec(s).error == ValueError
  {
    var s2 := Marked(s);
    var verbs := Values(s2, IndicesOf(s, Verb));
    RemovalMeaning(PronounAbsorption, s2, verbs, Values(s2, IndicesOf(s, InfixedPronoun)));
    match RemoveAll(s2, Absorbed(PronounAbsorption, verbs, Values(s2, IndicesOf(s, InfixedPronoun))))
    case Failure(e) =>
    case Success(s3) => RemovalMeaning(PreverbAbsorption, s3, verbs, Values(s2, IndicesOf(s, DummyPreverb)));
  }

  // ---------------------------------------------------------------------------------
  // compound_detector

  /** The test at position `c`: the word's form lies in the form two places on, and
      the word is a compound element (`compos.`) or a prefix particle. */
  predicate StartsCompound(s: seq<Word>, c: nat)
    requires AllHaveColumns(s) && c + 2 < |s|
  {
    IsSubstring(s[c][MORPH], s[c + 2][MORPH]) &&
    (IsSubstring("compos.", s[c][ANALYSIS]) || s[c][POS] == "particle_prefix")
  }

  /** The `enumerate` loop from position `c` on, over a list it shortens: after the
      deletions the next position is `c + 1` of the shortened list. */
  function CompoundFrom(s: seq<Word>, c: nat): seq<Word>
    requires AllHaveColumns(s)
    decreases |s| - c
  {
    if c >= |s| then s
    else if c + 2 < |s| && StartsCompound(s, c) then CompoundFrom(CompoundStep(s, c), c + 1)
    else CompoundFrom(s, c + 1)
  }

  /** The two `pop`s at a compound: the second element goes when its form also lies in
      the compound's, the first element always. */
  function CompoundStep(s: seq<Word>, c: nat): (r: seq<Word>)
    requires AllHaveColumns(s) && c + 2 < |s|
    ensures AllHaveColumns(r) && c < |r| < |s|
  {
    var s1 := if IsSubstring(s[c + 1][MORPH], s[c + 2][MORPH]) then s[..c + 1] + s[c + 2..] else s;
    s1[..c] + s1[c + 1..]
  }

  /** Deleting position `c + 1` (when `second`) and then position `c` leaves a
      subsequence that agrees with `s` before `c`. */
  lemma TwoDeletes<T>(s: seq<T>, c: nat, second: bool)
    requires c + 2 < |s|
    ensures var s1 := if second then s[..c + 1] + s[c + 2..] else s;
      IsSubsequence(s1[..c] + s1[c + 1..], s) && (s1[..c] + s1[c + 1..])[..c] == s[..c]
  {
    var s1 := if second then s[..c + 1] + s[c + 2..] else s;
    if second {
      DeleteIsSubsequence(s, c + 1);
    } else {
      SubsequenceRefl(s);
    }
    assert s1[..c] == s[..c];
    DeleteIsSubsequence(s1, c);
    SubsequenceTrans(s1[..c] + s1[c + 1..], s1, s);
  }

  lemma CompoundStepDeletes(s: seq<Word>, c: nat)
    requires AllHaveColumns(s) && c + 2 < |s|
    ensures IsSubsequence(CompoundStep(s, c), s) && CompoundStep(s, c)[..c] == s[..c]
  {
    TwoDeletes(s, c, IsSubstring(s[c + 1][MORPH], s[c + 2][MORPH]));
  }

  /** `compound_detector` on one sentence. */
  method CompoundDetectorIn(sent: seq<Word>) returns (r: seq<Word>)
    requires AllHaveColumns(sent)
    ensures r == CompoundFrom(sent, 0)
  {
    r := sent;
    var count := 0;
    while count < |r|
      invariant AllHaveColumns(r) && count <= |r|
      invariant CompoundFrom(r, count) == CompoundFrom(sent, 0)
      decreases |r| - count
    {
      if count + 2 < |r| {
        if IsSubstring(r[count][MORPH], r[count + 2][MORPH]) &&
           (IsSubstring("compos.", r[count][ANALYSIS]) || r[count][POS] == "particle_prefix") {
          ghost var before := r;
          if IsSubstring(r[count + 1][MORPH], r[count + 2][MORPH]) {
            r := r[..count + 1] + r[count + 2..];
          }
          r := r[..count] + r[count + 1..];
          assert r == CompoundStep(before, count);
        }
      }
      count := count + 1;
    }
  }

  /** `compound_detector` over every sentence of the table. */
  method CompoundDetector(d: Sentences) returns (r: Sentences)
    requires WellFormedSentences(d)
    ensures r.order == d.order && r.groups.Keys == d.groups.Keys
    ensures forall k :: k in d.groups ==> r.groups[k] == CompoundFrom(d.groups[k], 0)
  {
    var groups := d.groups;
    ghost var done: set<string> := {};
    for a := 0 to |d.order|
      invariant Compounded(d, groups, done) && Visited(d, done, a)
    {
      var k := d.order[a];
      VisitedStep(d, done, a);
      CompoundedStep(d, groups, done, k);
      var sent := CompoundDetectorIn(groups[k]);
      groups := groups[k := sent];
      done := done + {k};
    }
    VisitedAll(d, done);
    return Sentences(d.order, groups);
  }

  /** The table while the detector runs over it. */
  ghost predicate Compounded(d: Sentences, groups: map<string, seq<Word>>, done: set<string>)
    requires WellFormedSentences(d)
  {
    && groups.Keys == d.groups.Keys
    && forall k :: k in d.groups ==> groups[k] == if k in done then CompoundFrom(d.groups[k], 0) else d.groups[k]
  }

  lemma CompoundedStep(d: Sentences, groups: map<string, seq<Word>>, done: set<string>, k: string)
    requires WellFormedSentences(d) && Compounded(d, groups, done) && k in d.groups && k !in done
    ensures groups[k] == d.groups[k]
    ensures Compounded(d, groups[k := CompoundFrom(groups[k], 0)], done + {k})
  {
  }

  /** The detector only deletes: the result is a subsequence of the sentence, and
      nothing before the starting position is touched. */
  lemma {:induction false} CompoundFromDeletes(s: seq<Word>, c: nat)
    requires AllHaveColumns(s) && c <= |s|
    ensures IsSubsequence(CompoundFrom(s, c), s)
    ensures c <= |CompoundFrom(s, c)| && CompoundFrom(s, c)[..c] == s[..c]
    decreases |s| - c
  {
    if c >= |s| {
      SubsequenceRefl(s);
    } else {
      var s2 := if c + 2 < |s| && StartsCompound(s, c) then CompoundStep(s, c) else s;
      if c + 2 < |s| && StartsCompound(s, c) {
        CompoundStepDeletes(s, c);
      } else {
        SubsequenceRefl(s);
      }
      assert CompoundFrom(s, c) == CompoundFrom(s2, c + 1);
      CompoundFromDeletes(s2, c + 1);
      ChainDeletes(CompoundFrom(s2, c + 1), s2, s, c);
    }
  }

  /** A subsequence of a subsequence, each keeping the prefix the next step reads. */
  lemma ChainDeletes<T>(r: seq<T>, s2: seq<T>, s: seq<T>, c: nat)
    requires IsSubsequence(r, s2) && IsSubsequence(s2, s)
    requires c + 1 <= |s2| && c + 1 <= |r| && r[..c + 1] == s2[..c + 1]
    requires c <= |s| && s2[..c] == s[..c]
    ensures IsSubsequence(r, s) && c <= |r| && r[..c] == s[..c]
  {
    SubsequenceTrans(r, s2, s);
    assert r[..c] == r[..c + 1][..c];
    assert s2[..c + 1][..c] == s2[..c];
  }

  /** A sentence with no compound element and no prefix particle is unchanged. */
  lemma {:induction false} NoCompoundUnchanged(s: seq<Word>, c: nat)
    requires AllHaveColumns(s)
    requires forall i :: 0 <= i < |s| ==> !IsSubstring("compos.", s[i][ANALYSIS]) && s[i][POS] != "particle_prefix"
    ensures CompoundFrom(s, c) == s
    decreases |s| - c
  {
    if c < |s| {
      NoCompoundUnchanged(s, c + 1);
    }
  }

  // ---------------------------------------------------------------------------------
  // Worked examples

  const ExampleVerb: Word :=
    map[POS := "verb", LEMMA := "ad·ci", SU := "atchí", MORPH := "atchí", ANALYSIS := "Analysis=3sg.pres.ind."]
  const ExamplePronoun: Word :=
    map[POS := "pronoun_infixed", LEMMA := "3sg.masc.inf.pron.", SU := "atchí", MORPH := "t", ANALYSIS := "Analysis=3sg.masc."]
  const ExampleMarkedVerb: Word :=
    ExampleVerb[ANALYSIS := "Analysis=3sg.pres.ind.obj3sg.masc.Analysis=3sg.masc.]"]

  lemma ExampleLists()
    ensures IndicesOf([ExampleVerb, ExamplePronoun], Verb) == [0]
    ensures IndicesOf([ExampleVerb, ExamplePronoun], InfixedPronoun) == [1]
    ensures IndicesOf([ExampleVerb, ExamplePronoun], RelativeParticle) == []
    ensures IndicesOf([ExampleVerb, ExamplePronoun], DummyPreverb) == []
  {
    var s := [ExampleVerb, ExamplePronoun];
    assert HasColumns(ExampleVerb) && HasColumns(ExamplePronoun);
    assert ExampleVerb[POS] == "verb";
    assert ExamplePronoun[POS] == "pronoun_infixed";
    assert KindOf(ExampleVerb) == Verb;
    assert KindOf(ExamplePronoun) == InfixedPronoun;
    assert s[..1] == [ExampleVerb];
    assert [ExampleVerb][..0] == [];
    assert s[|s| - 1] == ExamplePronoun;
    assert [ExampleVerb][0] == ExampleVerb;
    forall k: Kind ensures IndicesOf([ExampleVerb], k) == if k == Verb then [0] else [] {
      assert IndicesOf([], k) == [];
    }
  }

  lemma ExampleMorphInside()
    ensures IsSubstring("t", "atchí")
  {
    assert "atchí"[1..] == "tchí";
    assert IsPrefix("t", "tchí");
  }

  lemma ExampleObjectMark()
    ensures InfixMarks(FixedOf(ExampleVerb), [ExampleVerb, ExamplePronoun], [1]) == "obj3sg.masc.Analysis=3sg.masc.]"
  {
    assert [1][..0] == [];
    ExampleInfixMark();
  }

  lemma ExampleInfixMark()
    ensures InfixMark(FixedOf(ExampleVerb), ExamplePronoun) == "obj3sg.masc.Analysis=3sg.masc.]"
  {
    ExampleMorphInside();
    ExampleMarker();
    ExampleMarkText();
  }

  lemma ExampleMarker()
    ensures ObjectMarker(ExamplePronoun[LEMMA]) == Some("obj3sg.masc.")
  {
  }

  lemma ExampleMarkText()
    ensures "obj3sg.masc." + "Analysis=3sg.masc." + "]" == "obj3sg.masc.Analysis=3sg.masc.]"
  {
  }

  lemma ExampleAppend()
    ensures AppendAnalysis(ExampleVerb, "obj3sg.masc.Analysis=3sg.masc.]") == ExampleMarkedVerb
  {
    assert ExampleVerb[ANALYSIS] == "Analysis=3sg.pres.ind.";
    ExampleAppendText();
  }

  lemma ExampleAppendText()
    ensures "Analysis=3sg.pres.ind." + "obj3sg.masc.Analysis=3sg.masc.]" == "Analysis=3sg.pres.ind.obj3sg.masc.Analysis=3sg.masc.]"
  {
  }

  lemma ExampleInfixedAt()
    ensures InfixedSpec([ExampleVerb, ExamplePronoun], [0], [1])[0] ==
      AppendAnalysis(ExampleVerb, InfixMarks(FixedOf(ExampleVerb), [ExampleVerb, ExamplePronoun], [1]))
  {
    assert 0 in [0];
  }

  lemma ExampleInfixedVerb()
    ensures InfixedSpec([ExampleVerb, ExamplePronoun], [0], [1])[0] == ExampleMarkedVerb
  {
    ExampleInfixedAt();
    ExampleObjectMark();
    ExampleAppend();
  }

  lemma ExampleInfixedPronoun()
    ensures InfixedSpec([ExampleVerb, ExamplePronoun], [0], [1])[1] == ExamplePronoun
  {
    assert 1 !in [0];
  }

  lemma ExampleInfixed()
    ensures InfixedSpec([ExampleVerb, ExamplePronoun], [0], [1]) == [ExampleMarkedVerb, ExamplePronoun]
  {
    ExampleInfixedVerb();
    ExampleInfixedPronoun();
  }

  lemma ExampleTriple()
    ensures TripleSpec([ExampleMarkedVerb, ExamplePronoun], [0], [], [1]) == [ExampleMarkedVerb, ExamplePronoun]
  {
    var s1 := [ExampleMarkedVerb, ExamplePronoun];
    var fs := FixedsOf(s1);
    assert [0][..0] == [];
    assert PronMarks(fs[1], fs, [0], []) == "";
    assert VerbMarks(fs[0], fs, [], [1]) == "";
    AppendAnalysisEmpty(s1[0]);
    AppendAnalysisEmpty(s1[1]);
    var r := TripleSpec(s1, [0], [], [1]);
    assert r[0] == s1[0];
    assert r[1] == s1[1];
  }

  lemma ExampleMarks()
    ensures Marked([ExampleVerb, ExamplePronoun]) == [ExampleMarkedVerb, ExamplePronoun]
  {
    ExampleLists();
    ExampleInfixed();
    ExampleTriple();
  }

  lemma ExampleRemoval()
    ensures RemoveAll([ExampleMarkedVerb, ExamplePronoun],
      Absorbed(PronounAbsorption, [ExampleMarkedVerb], [ExamplePronoun])) == Success([ExampleMarkedVerb])
  {
    ExampleAbsorbed();
    ExampleRemoveFirst();
    var xs := [ExamplePronoun];
    assert xs[0] == ExamplePronoun && xs[1..] == [];
  }

  /** The columns the absorption test reads. */
  lemma ExampleColumns()
    ensures HasColumns(ExampleMarkedVerb) && HasColumns(ExamplePronoun)
    ensures ExampleMarkedVerb[SU] == "atchí" && ExampleMarkedVerb[MORPH] == "atchí"
    ensures ExamplePronoun[SU] == "atchí" && ExamplePronoun[MORPH] == "t"
  {
  }

  /** The pronoun's form lies inside the verb's, in the same stressed unit. */
  lemma ExampleAbsorbs()
    ensures HasColumns(ExampleMarkedVerb) && HasColumns(ExamplePronoun)
    ensures Absorbs(PronounAbsorption, ExampleMarkedVerb, ExamplePronoun)
  {
    ExampleColumns();
    ExampleMorphInside();
  }

  /** The verb absorbs the pronoun. */
  lemma ExampleAbsorbed()
    ensures Absorbed(PronounAbsorption, [ExampleMarkedVerb], [ExamplePronoun]) == [ExamplePronoun]
  {
    ExampleAbsorbs();
    var xs := [ExamplePronoun];
    assert xs[..0] == [] && xs[0] == ExamplePronoun;
    assert AbsorbedBy(PronounAbsorption, ExampleMarkedVerb, xs) == [ExamplePronoun];
    var vs := [ExampleMarkedVerb];
    assert vs[..0] == [] && vs[0] == ExampleMarkedVerb;
  }

  /** `remove` deletes the pronoun, the second word. */
  lemma ExampleRemoveFirst()
    ensures RemoveFirst([ExampleMarkedVerb, ExamplePronoun], ExamplePronoun) == Success([ExampleMarkedVerb])
  {
    var s1 := [ExampleMarkedVerb, ExamplePronoun];
    assert ExampleMarkedVerb != ExamplePronoun by {
      assert ExampleMarkedVerb[POS] != ExamplePronoun[POS];
    }
    assert FirstIndex(s1, ExamplePronoun) == 1;
    assert s1[..1] + s1[2..] == [ExampleMarkedVerb];
  }

  lemma ExampleValues()
    ensures Values([ExampleMarkedVerb, ExamplePronoun], [0]) == [ExampleMarkedVerb]
    ensures Values([ExampleMarkedVerb, ExamplePronoun], [1]) == [ExamplePronoun]
    ensures Values([ExampleMarkedVerb, ExamplePronoun], []) == []
  {
  }

  lemma ExampleNoPreverb()
    ensures RemoveAll([ExampleMarkedVerb], Absorbed(PreverbAbsorption, [ExampleMarkedVerb], [])) == Success([ExampleMarkedVerb])
  {
    assert [ExampleMarkedVerb][..0] == [];
    assert Absorbed(PreverbAbsorption, [ExampleMarkedVerb], []) == [];
  }

  /** A verb with a third-singular masculine infixed pronoun inside its form: the verb
      gathers `obj3sg.masc.`, the pronoun's analysis and `]`, and the pronoun is
      deleted. */
  lemma InfixedPronounExample()
    ensures LookForSpec([ExampleVerb, ExamplePronoun]) == Success([ExampleMarkedVerb])
  {
    var s := [ExampleVerb, ExamplePronoun];
    var s2 := Marked(s);
    assert s2 == [ExampleMarkedVerb, ExamplePronoun] by {
      ExampleMarks();
    }
    var vs := Values(s2, IndicesOf(s, Verb));
    var ps := Values(s2, IndicesOf(s, InfixedPronoun));
    var ds := Values(s2, IndicesOf(s, DummyPreverb));
    assert vs == [ExampleMarkedVerb] && ps == [ExamplePronoun] && ds == [] by {
      ExampleLists();
      ExampleValues();
    }
    assert RemoveAll(s2, Absorbed(PronounAbsorption, vs, ps)) == Success([ExampleMarkedVerb]) by {
      ExampleRemoval();
    }
    assert RemoveAll([ExampleMarkedVerb], Absorbed(PreverbAbsorption, vs, ds)) == Success([ExampleMarkedVerb]) by {
      ExampleNoPreverb();
    }
  }
}
