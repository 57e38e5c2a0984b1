/** Section 3 of the converter, first half: the verbs, relative particles, infixed
    pronouns and dummy preverbs of a sentence are listed, and verb and pronoun analyses
    are extended with relative and object markers when the tokens share a stressed unit.
    The source's lists hold the very dicts of the sentence, so a write through a list
    entry changes the sentence; here a list is the sequence of positions of its entries
    in the sentence, and the sentence is the value the passes rewrite. */
module Relations {
  import opened Wrappers
  import opened Strings
  import opened Words

  /** The branch of the `build_list_...` elif chain a word falls into. */
  datatype Kind = Verb | RelativeParticle | InfixedPronoun | DummyPreverb | OtherKind

  function KindOf(w: Word): Kind
    requires HasColumns(w)
  {
    if w[POS] == "verb" then Verb
    else if w[POS] == "particle_relative" then RelativeParticle
    else if w[POS] == "pronoun_infixed" then InfixedPronoun
    else if w[POS] == "particle_preverb" && w[LEMMA] == "no·" then DummyPreverb
    else OtherKind
  }

  predicate Increasing(idx: seq<nat>)
  {
    forall a, b :: 0 <= a < b < |idx| ==> idx[a] < idx[b]
  }

  predicate InRange(idx: seq<nat>, n: nat)
  {
    forall a :: 0 <= a < |idx| ==> idx[a] < n
  }

  predicate Disjoint(xs: seq<nat>, ys: seq<nat>)
  {
    forall a, b :: 0 <= a < |xs| && 0 <= b < |ys| ==> xs[a] != ys[b]
  }

  /** The positions of the words of kind `k`, left to right. */
  function IndicesOf(s: seq<Word>, k: Kind): (r: seq<nat>)
    requires AllHaveColumns(s)
    ensures Increasing(r) && InRange(r, |s|)
  {
    if |s| == 0 then []
    else
      var p := IndicesOf(s[..|s| - 1], k);
      if KindOf(s[|s| - 1]) == k then p + [|s| - 1] else p
  }

  /** The list of kind `k` holds exactly the words of that kind, in sentence order, each
      once; so the four lists are pairwise disjoint. */
  lemma {:induction false} IndicesOfFacts(s: seq<Word>, k: Kind)
    requires AllHaveColumns(s)
    ensures forall i :: 0 <= i < |s| ==> (i in IndicesOf(s, k) <==> KindOf(s[i]) == k)
    decreases |s|
  {
    if |s| > 0 {
      IndicesOfFacts(s[..|s| - 1], k);
    }
  }

  /** `build_list_of_verbs_and_associated_particles_in`. */
  method BuildLists(s: seq<Word>) returns (verbs: seq<nat>, relparts: seq<nat>, prons: seq<nat>, prevs: seq<nat>)
    requires AllHaveColumns(s)
    ensures verbs == IndicesOf(s, Verb) && relparts == IndicesOf(s, RelativeParticle)
    ensures prons == IndicesOf(s, InfixedPronoun) && prevs == IndicesOf(s, DummyPreverb)
  {
    verbs, relparts, prons, prevs := [], [], [], [];
    for i := 0 to |s|
      invariant verbs == IndicesOf(s[..i], Verb) && relparts == IndicesOf(s[..i], RelativeParticle)
      invariant prons == IndicesOf(s[..i], InfixedPronoun) && prevs == IndicesOf(s[..i], DummyPreverb)
    {
      assert s[..i + 1][..i] == s[..i];
      var word := s[i];
      if word[POS] == "verb" {
        verbs := verbs + [i];
      } else if word[POS] == "particle_relative" {
        relparts := relparts + [i];
      } else if word[POS] == "pronoun_infixed" {
        prons := prons + [i];
      } else if word[POS] == "particle_preverb" && word[LEMMA] == "no·" {
        prevs := prevs + [i];
      }
    }
    assert s[..|s|] == s;
  }

  function FixedsOf(s: seq<Word>): (fs: seq<Fixed>)
    requires AllHaveColumns(s)
    ensures |fs| == |s| && forall i :: 0 <= i < |s| ==> fs[i] == FixedOf(s[i])
  {
    seq(|s|, i requires 0 <= i < |s| => FixedOf(s[i]))
  }

  /** The state invariant of every pass here: only analyses change. */
  predicate FixedAgree(r: seq<Word>, fs: seq<Fixed>)
  {
    AllHaveColumns(r) && |r| == |fs| && forall i :: 0 <= i < |r| ==> FixedOf(r[i]) == fs[i]
  }

  // ---------------------------------------------------------------------------------
  // compare_verbs_and_infixed_pronouns_in

  /** The direct-object marker written for each infixed-pronoun lemma (the second
      plural has no final dot). */
  function ObjectMarker(lem: string): Option<string>
  {
    if lem == "1sg.inf.pron." then Some("obj1sg.")
    else if lem == "2sg.inf.pron." then Some("obj2sg.")
    else if lem == "1pl.inf.pron." then Some("obj1pl.")
    else if lem == "2pl.inf.pron." then Some("obj2pl")
    else if lem == "3sg.masc.inf.pron." then Some("obj3sg.masc.")
    else if lem == "3sg.fem.inf.pron." then Some("obj3sg.fem.")
    else if lem == "3sg.neut.inf.pron." then Some("obj3sg.neut.")
    else if lem == "3pl.inf.pron." then Some("obj3pl.")
    else None
  }

  /** What one infixed pronoun adds to a verb: its marker, its own analysis and `]`,
      when it shares the verb's stressed unit and its form lies inside the verb's. */
  function InfixMark(v: Fixed, p: Word): string
    requires HasColumns(p)
  {
    if v.su == p[SU] && IsSubstring(p[MORPH], v.morph) && ObjectMarker(p[LEMMA]).Some?
    then ObjectMarker(p[LEMMA]).value + p[ANALYSIS] + "]"
    else ""
  }

  /** Everything the pronouns add to one verb, in list order. */
  function InfixMarks(v: Fixed, s: seq<Word>, prons: seq<nat>): string
    requires AllHaveColumns(s) && InRange(prons, |s|)
  {
    if |prons| == 0 then ""
    else InfixMarks(v, s, prons[..|prons| - 1]) + InfixMark(v, s[prons[|prons| - 1]])
  }

  /** The sentence after the pass: each listed verb carries the marks of all pronouns. */
  function InfixedSpec(s: seq<Word>, verbs: seq<nat>, prons: seq<nat>): (r: seq<Word>)
    requires AllHaveColumns(s) && InRange(prons, |s|)
    ensures |r| == |s| && FixedAgree(r, FixedsOf(s))
  {
    seq(|s|, i requires 0 <= i < |s| =>
      if i in verbs then AppendAnalysis(s[i], InfixMarks(FixedOf(s[i]), s, prons)) else s[i])
  }

  /** The marks depend only on the listed pronouns. */
  lemma {:induction false} InfixMarksFrame(v: Fixed, r: seq<Word>, s: seq<Word>, prons: seq<nat>)
    requires AllHaveColumns(r) && AllHaveColumns(s) && InRange(prons, |r|) && InRange(prons, |s|)
    requires forall b :: 0 <= b < |prons| ==> r[prons[b]] == s[prons[b]]
    ensures InfixMarks(v, r, prons) == InfixMarks(v, s, prons)
    decreases |prons|
  {
    if |prons| > 0 {
      InfixMarksFrame(v, r, s, prons[..|prons| - 1]);
    }
  }

  /** The inner loop of the product: one verb against every pronoun. */
  method InfixForVerb(r0: seq<Word>, v: nat, prons: seq<nat>) returns (r: seq<Word>)
    requires AllHaveColumns(r0) && v < |r0| && InRange(prons, |r0|) && v !in prons
    ensures r == r0[v := AppendAnalysis(r0[v], InfixMarks(FixedOf(r0[v]), r0, prons))]
  {
    r := r0;
    assert prons[..0] == [];
    AppendAnalysisEmpty(r0[v]);
    assert r == r0[v := r0[v]];
    for b := 0 to |prons|
      invariant r == r0[v := AppendAnalysis(r0[v], InfixMarks(FixedOf(r0[v]), r0, prons[..b]))]
    {
      var p := prons[b];
      assert prons[..b + 1][..b] == prons[..b];
      var verb := r[v];
      var pron := r[p];
      var mark := "";
      if verb[SU] == pron[SU] && IsSubstring(pron[MORPH], verb[MORPH]) {
        var m := ObjectMarker(pron[LEMMA]);
        if m.Some? {
          mark := m.value + pron[ANALYSIS] + "]";
          r := r[v := AppendAnalysis(verb, mark)];
        }
      }
      assert mark == InfixMark(FixedOf(r0[v]), r0[p]);
      AppendAnalysisTwice(r0[v], InfixMarks(FixedOf(r0[v]), r0, prons[..b]), mark);
      AppendAnalysisEmpty(verb);
    }
    assert prons[..|prons|] == prons;
  }

  /** `compare_verbs_and_infixed_pronouns_in`: the verb-major product of the two lists.
      The lists must be positions in `s`, the verbs each once and no verb a pronoun, as
      `BuildLists` guarantees. */
  method CompareVerbsAndInfixedPronouns(s: seq<Word>, verbs: seq<nat>, prons: seq<nat>) returns (r: seq<Word>)
    requires AllHaveColumns(s) && InRange(verbs, |s|) && InRange(prons, |s|)
    requires Increasing(verbs) && Disjoint(verbs, prons)
    ensures r == InfixedSpec(s, verbs, prons)
  {
    r := s;
    for a := 0 to |verbs|
      invariant InfixDone(s, verbs, prons, a, r)
    {
      InfixDoneStep(s, verbs, prons, a, r);
      r := InfixForVerb(r, verbs[a], prons);
    }
    assert verbs[..|verbs|] == verbs;
  }

  /** The state after the first `a` verbs: those carry their marks, all else is as it was. */
  ghost predicate InfixDone(s: seq<Word>, verbs: seq<nat>, prons: seq<nat>, a: nat, r: seq<Word>)
    requires AllHaveColumns(s) && InRange(prons, |s|) && a <= |verbs|
  {
    && |r| == |s| && AllHaveColumns(r)
    && forall i :: 0 <= i < |s| ==>
      r[i] == if i in verbs[..a] then AppendAnalysis(s[i], InfixMarks(FixedOf(s[i]), s, prons)) else s[i]
  }

  /** One more verb of the product. */
  lemma InfixDoneStep(s: seq<Word>, verbs: seq<nat>, prons: seq<nat>, a: nat, r: seq<Word>)
    requires AllHaveColumns(s) && InRange(verbs, |s|) && InRange(prons, |s|)
    requires Increasing(verbs) && Disjoint(verbs, prons)
    requires a < |verbs| && InfixDone(s, verbs, prons, a, r)
    ensures AllHaveColumns(r) && verbs[a] < |r| && InRange(prons, |r|) && verbs[a] !in prons
    ensures var v := verbs[a];
      InfixDone(s, verbs, prons, a + 1, r[v := AppendAnalysis(r[v], InfixMarks(FixedOf(r[v]), r, prons))])
  {
    var v := verbs[a];
    assert v !in verbs[..a];
    assert verbs[..a + 1] == verbs[..a] + [v];
    assert v !in prons;
    assert r[v] == s[v];
    assert forall b :: 0 <= b < |prons| ==> prons[b] !in verbs[..a] && r[prons[b]] == s[prons[b]];
    InfixMarksFrame(FixedOf(s[v]), r, s, prons);
  }

  // ---------------------------------------------------------------------------------
  // compare_verbs_and_relative_particles_in

  /** The verb suffix for a relative particle's lemma. */
  function RelSuffix(lem: string): string
  {
    if lem == "len.rel.particle" then "len"
    else if lem == "nas.rel.particle" then "nas"
    else ""
  }

  function RelMark(v: Fixed, rp: Fixed): string
  {
    if v.su == rp.su then RelSuffix(rp.lem) else ""
  }

  function RelMarks(v: Fixed, fs: seq<Fixed>, relparts: seq<nat>): string
    requires InRange(relparts, |fs|)
  {
    if |relparts| == 0 then ""
    else RelMarks(v, fs, relparts[..|relparts| - 1]) + RelMark(v, fs[relparts[|relparts| - 1]])
  }

  function RelSpec(s: seq<Word>, verbs: seq<nat>, relparts: seq<nat>): (r: seq<Word>)
    requires AllHaveColumns(s) && InRange(relparts, |s|)
    ensures |r| == |s| && FixedAgree(r, FixedsOf(s))
  {
    seq(|s|, i requires 0 <= i < |s| =>
      if i in verbs then AppendAnalysis(s[i], RelMarks(FixedOf(s[i]), FixedsOf(s), relparts)) else s[i])
  }

  /** The inner loop of the product: one verb against every relative particle. */
  method RelForVerb(r0: seq<Word>, v: nat, relparts: seq<nat>, ghost fs: seq<Fixed>) returns (r: seq<Word>)
    requires FixedAgree(r0, fs) && v < |r0| && InRange(relparts, |r0|)
    ensures r == r0[v := AppendAnalysis(r0[v], RelMarks(fs[v], fs, relparts))]
  {
    r := r0;
    assert relparts[..0] == [];
    AppendAnalysisEmpty(r0[v]);
    assert r == r0[v := r0[v]];
    for b := 0 to |relparts|
      invariant r == r0[v := AppendAnalysis(r0[v], RelMarks(fs[v], fs, relparts[..b]))]
    {
      var rp := relparts[b];
      assert relparts[..b + 1][..b] == relparts[..b];
      var verb := r[v];
      var relpart := r[rp];
      assert FixedOf(relpart) == fs[rp];
      var mark := "";
      if verb[SU] == relpart[SU] {
        if relpart[LEMMA] == "len.rel.particle" {
          mark := "len";
          r := r[v := AppendAnalysis(verb, mark)];
        } else if relpart[LEMMA] == "nas.rel.particle" {
          mark := "nas";
          r := r[v := AppendAnalysis(verb, mark)];
        }
      }
      assert mark == RelMark(fs[v], fs[rp]);
      AppendAnalysisTwice(r0[v], RelMarks(fs[v], fs, relparts[..b]), mark);
      AppendAnalysisEmpty(verb);
    }
    assert relparts[..|relparts|] == relparts;
  }

  /** `compare_verbs_and_relative_particles_in`: every verb gathers `len` or `nas` from
      each relative particle in its stressed unit. */
  method CompareVerbsAndRelativeParticles(s: seq<Word>, verbs: seq<nat>, relparts: seq<nat>) returns (r: seq<Word>)
    requires AllHaveColumns(s) && InRange(verbs, |s|) && InRange(relparts, |s|)
    requires Increasing(verbs)
    ensures r == RelSpec(s, verbs, relparts)
  {
    ghost var fs := FixedsOf(s);
    r := s;
    for a := 0 to |verbs|
      invariant FixedAgree(r, fs)
      invariant forall i :: 0 <= i < |s| ==>
        r[i] == if i in verbs[..a] then AppendAnalysis(s[i], RelMarks(fs[i], fs, relparts)) else s[i]
    {
      var v := verbs[a];
      assert v !in verbs[..a];
      assert verbs[..a + 1] == verbs[..a] + [v];
      r := RelForVerb(r, v, relparts, fs);
    }
    assert verbs[..|verbs|] == verbs;
  }

  // ---------------------------------------------------------------------------------
  // compare_verbs_relative_particles_and_infixed_pronouns_in

  /** A (verb, particle, pronoun) triple in one stressed unit marks the verb when the
      pronoun's form lies inside the verb's (a `len` or `nas` suffix)... */
  function TripleVerbMark(v: Fixed, rp: Fixed, p: Fixed): string
  {
    if v.su == rp.su && rp.su == p.su && IsSubstring(p.morph, v.morph) then RelSuffix(rp.lem) else ""
  }

  /** ...and otherwise marks the pronoun as a lenited or nasalized class C pronoun. */
  function PronRelSuffix(lem: string): string
  {
    if lem == "len.rel.particle" then ".len"
    else if lem == "nas.rel.particle" then ".nas"
    else ""
  }

  function TriplePronMark(v: Fixed, rp: Fixed, p: Fixed): string
  {
    if v.su == rp.su && rp.su == p.su && !IsSubstring(p.morph, v.morph) then PronRelSuffix(rp.lem) else ""
  }

  /** The marks one verb gets from one particle and all pronouns. */
  function VerbRow(v: Fixed, rp: Fixed, fs: seq<Fixed>, prons: seq<nat>): string
    requires InRange(prons, |fs|)
  {
    if |prons| == 0 then ""
    else VerbRow(v, rp, fs, prons[..|prons| - 1]) + TripleVerbMark(v, rp, fs[prons[|prons| - 1]])
  }

  /** The marks one verb gets from all particle/pronoun pairs, particle-major. */
  function VerbMarks(v: Fixed, fs: seq<Fixed>, relparts: seq<nat>, prons: seq<nat>): string
    requires InRange(relparts, |fs|) && InRange(prons, |fs|)
  {
    if |relparts| == 0 then ""
    else VerbMarks(v, fs, relparts[..|relparts| - 1], prons) + VerbRow(v, fs[relparts[|relparts| - 1]], fs, prons)
  }

  /** The marks one pronoun gets from one verb and all particles. */
  function PronRow(v: Fixed, fs: seq<Fixed>, relparts: seq<nat>, p: Fixed): string
    requires InRange(relparts, |fs|)
  {
    if |relparts| == 0 then ""
    else PronRow(v, fs, relparts[..|relparts| - 1], p) + TriplePronMark(v, fs[relparts[|relparts| - 1]], p)
  }

  /** The marks one pronoun gets from all verb/particle pairs, verb-major. */
  function PronMarks(p: Fixed, fs: seq<Fixed>, verbs: seq<nat>, relparts: seq<nat>): string
    requires InRange(verbs, |fs|) && InRange(relparts, |fs|)
  {
    if |verbs| == 0 then ""
    else PronMarks(p, fs, verbs[..|verbs| - 1], relparts) + PronRow(fs[verbs[|verbs| - 1]], fs, relparts, p)
  }

  function TripleSpec(s: seq<Word>, verbs: seq<nat>, relparts: seq<nat>, prons: seq<nat>): (r: seq<Word>)
    requires AllHaveColumns(s) && InRange(verbs, |s|) && InRange(relparts, |s|) && InRange(prons, |s|)
    ensures |r| == |s| && FixedAgree(r, FixedsOf(s))
  {
    var fs := FixedsOf(s);
    seq(|s|, i requires 0 <= i < |s| =>
      if i in verbs then AppendAnalysis(s[i], VerbMarks(fs[i], fs, relparts, prons))
      else if i in prons then AppendAnalysis(s[i], PronMarks(fs[i], fs, verbs, relparts))
      else s[i])
  }

  /** The body of the triple product for one (verb, particle, pronoun) triple. */
  method TripleStep(r0: seq<Word>, v: nat, rp: nat, p: nat, ghost fs: seq<Fixed>) returns (r: seq<Word>)
    requires FixedAgree(r0, fs) && v < |r0| && rp < |r0| && p < |r0| && v != p
    ensures FixedAgree(r, fs)
    ensures r == r0[v := AppendAnalysis(r0[v], TripleVerbMark(fs[v], fs[rp], fs[p]))]
                   [p := AppendAnalysis(r0[p], TriplePronMark(fs[v], fs[rp], fs[p]))]
  {
    var verb := r0[v];
    var relpart := r0[rp];
    var pron := r0[p];
    assert FixedOf(verb) == fs[v] && FixedOf(relpart) == fs[rp] && FixedOf(pron) == fs[p];
    AppendAnalysisEmpty(verb);
    AppendAnalysisEmpty(pron);
    r := r0;
    if verb[SU] == relpart[SU] && relpart[SU] == pron[SU] {
      if IsSubstring(pron[MORPH], verb[MORPH]) {
        if relpart[LEMMA] == "len.rel.particle" {
          r := r[v := AppendAnalysis(verb, "len")];
        } else if relpart[LEMMA] == "nas.rel.particle" {
          r := r[v := AppendAnalysis(verb, "nas")];
        }
      } else {
        if relpart[LEMMA] == "len.rel.particle" {
          r := r[p := AppendAnalysis(pron, ".len")];
        } else if relpart[LEMMA] == "nas.rel.particle" {
          r := r[p := AppendAnalysis(pron, ".nas")];
        }
      }
    }
  }

  /** The words once one verb and one particle have met the pronouns `ps`. */
  ghost predicate PairDone(r0: seq<Word>, r: seq<Word>, v: nat, rp: nat, fs: seq<Fixed>, ps: seq<nat>)
    requires FixedAgree(r0, fs) && |r| == |r0| && v < |r0| && rp < |r0| && InRange(ps, |r0|)
  {
    forall i :: 0 <= i < |r0| ==>
      r[i] == if i == v then AppendAnalysis(r0[i], VerbRow(fs[v], fs[rp], fs, ps))
              else if i in ps then AppendAnalysis(r0[i], TriplePronMark(fs[v], fs[rp], fs[i]))
              else r0[i]
  }

  lemma PairStart(r0: seq<Word>, v: nat, rp: nat, fs: seq<Fixed>, prons: seq<nat>)
    requires FixedAgree(r0, fs) && v < |r0| && rp < |r0| && InRange(prons, |r0|)
    ensures PairDone(r0, r0, v, rp, fs, prons[..0])
  {
    assert prons[..0] == [];
    AppendAnalysisEmpty(r0[v]);
  }

  lemma PairStep(r0: seq<Word>, q: seq<Word>, r: seq<Word>, v: nat, rp: nat, fs: seq<Fixed>, prons: seq<nat>, k: nat)
    requires FixedAgree(r0, fs) && FixedAgree(q, fs) && v < |r0| && rp < |r0| && InRange(prons, |r0|)
    requires Increasing(prons) && v !in prons && k < |prons|
    requires PairDone(r0, q, v, rp, fs, prons[..k])
    requires r == q[v := AppendAnalysis(q[v], TripleVerbMark(fs[v], fs[rp], fs[prons[k]]))]
                   [prons[k] := AppendAnalysis(q[prons[k]], TriplePronMark(fs[v], fs[rp], fs[prons[k]]))]
    ensures PairDone(r0, r, v, rp, fs, prons[..k + 1])
  {
    var p := prons[k];
    assert p !in prons[..k] && p != v;
    assert prons[..k + 1] == prons[..k] + [p];
    assert prons[..k + 1][..k] == prons[..k];
    AppendAnalysisTwice(r0[v], VerbRow(fs[v], fs[rp], fs, prons[..k]), TripleVerbMark(fs[v], fs[rp], fs[p]));
    assert q[p] == r0[p];
    forall i | 0 <= i < |r0|
      ensures r[i] == if i == v then AppendAnalysis(r0[i], VerbRow(fs[v], fs[rp], fs, prons[..k + 1]))
              else if i in prons[..k + 1] then AppendAnalysis(r0[i], TriplePronMark(fs[v], fs[rp], fs[i]))
              else r0[i]
    {
      if i == v {
        assert r[i] == AppendAnalysis(q[v], TripleVerbMark(fs[v], fs[rp], fs[p]));
      } else if i == p {
        assert p in prons[..k + 1];
      } else {
        assert r[i] == q[i];
        assert (i in prons[..k + 1]) == (i in prons[..k]);
      }
    }
  }

  /** The innermost loop of the triple product: one verb, one particle, every pronoun. */
  method TripleForPair(r0: seq<Word>, v: nat, rp: nat, prons: seq<nat>, ghost fs: seq<Fixed>) returns (r: seq<Word>)
    requires FixedAgree(r0, fs) && v < |r0| && rp < |r0| && InRange(prons, |r0|)
    requires Increasing(prons) && v !in prons
    ensures FixedAgree(r, fs)
    ensures forall i :: 0 <= i < |r0| ==>
      r[i] == if i == v then AppendAnalysis(r0[i], VerbRow(fs[v], fs[rp], fs, prons))
              else if i in prons then AppendAnalysis(r0[i], TriplePronMark(fs[v], fs[rp], fs[i]))
              else r0[i]
  {
    r := r0;
    PairStart(r0, v, rp, fs, prons);
    for k := 0 to |prons|
      invariant FixedAgree(r, fs)
      invariant PairDone(r0, r, v, rp, fs, prons[..k])
    {
      ghost var q := r;
      assert prons[k] != v;
      r := TripleStep(r, v, rp, prons[k], fs);
      PairStep(r0, q, r, v, rp, fs, prons, k);
    }
    assert prons[..|prons|] == prons;
  }

  /** The words once one verb has met the particles `rs` and all pronouns. */
  ghost predicate VerbDone(r0: seq<Word>, r: seq<Word>, v: nat, fs: seq<Fixed>, rs: seq<nat>, prons: seq<nat>)
    requires FixedAgree(r0, fs) && |r| == |r0| && v < |r0| && InRange(rs, |r0|) && InRange(prons, |r0|)
  {
    forall i :: 0 <= i < |r0| ==>
      r[i] == if i == v then AppendAnalysis(r0[i], VerbMarks(fs[v], fs, rs, prons))
              else if i in prons then AppendAnalysis(r0[i], PronRow(fs[v], fs, rs, fs[i]))
              else r0[i]
  }

  lemma VerbStart(r0: seq<Word>, v: nat, fs: seq<Fixed>, relparts: seq<nat>, prons: seq<nat>)
    requires FixedAgree(r0, fs) && v < |r0| && InRange(relparts, |r0|) && InRange(prons, |r0|)
    ensures VerbDone(r0, r0, v, fs, relparts[..0], prons)
  {
    assert relparts[..0] == [];
    forall i | 0 <= i < |r0| {
      AppendAnalysisEmpty(r0[i]);
    }
  }

  lemma VerbStep(r0: seq<Word>, q: seq<Word>, r: seq<Word>, v: nat, fs: seq<Fixed>, relparts: seq<nat>, prons: seq<nat>, j: nat)
    requires FixedAgree(r0, fs) && FixedAgree(q, fs) && v < |r0| && InRange(relparts, |r0|) && InRange(prons, |r0|)
    requires v !in prons && j < |relparts|
    requires VerbDone(r0, q, v, fs, relparts[..j], prons)
    requires |r| == |r0| && forall i :: 0 <= i < |r0| ==>
      r[i] == if i == v then AppendAnalysis(q[i], VerbRow(fs[v], fs[relparts[j]], fs, prons))
              else if i in prons then AppendAnalysis(q[i], TriplePronMark(fs[v], fs[relparts[j]], fs[i]))
              else q[i]
    ensures VerbDone(r0, r, v, fs, relparts[..j + 1], prons)
  {
    assert relparts[..j + 1][..j] == relparts[..j];
    forall i | 0 <= i < |r0|
      ensures r[i] == if i == v then AppendAnalysis(r0[i], VerbMarks(fs[v], fs, relparts[..j + 1], prons))
              else if i in prons then AppendAnalysis(r0[i], PronRow(fs[v], fs, relparts[..j + 1], fs[i]))
              else r0[i]
    {
      if i == v {
        AppendAnalysisTwice(r0[i], VerbMarks(fs[v], fs, relparts[..j], prons), VerbRow(fs[v], fs[relparts[j]], fs, prons));
      } else if i in prons {
        AppendAnalysisTwice(r0[i], PronRow(fs[v], fs, relparts[..j], fs[i]), TriplePronMark(fs[v], fs[relparts[j]], fs[i]));
      }
    }
  }

  /** The middle loop of the triple product: one verb, every particle. */
  method TripleForVerb(r0: seq<Word>, v: nat, relparts: seq<nat>, prons: seq<nat>, ghost fs: seq<Fixed>) returns (r: seq<Word>)
    requires FixedAgree(r0, fs) && v < |r0| && InRange(relparts, |r0|) && InRange(prons, |r0|)
    requires Increasing(prons) && v !in prons
    ensures FixedAgree(r, fs)
    ensures forall i :: 0 <= i < |r0| ==>
      r[i] == if i == v then AppendAnalysis(r0[i], VerbMarks(fs[v], fs, relparts, prons))
              else if i in prons then AppendAnalysis(r0[i], PronRow(fs[v], fs, relparts, fs[i]))
              else r0[i]
  {
    r := r0;
    VerbStart(r0, v, fs, relparts, prons);
    for j := 0 to |relparts|
      invariant FixedAgree(r, fs)
      invariant VerbDone(r0, r, v, fs, relparts[..j], prons)
    {
      ghost var q := r;
      r := TripleForPair(r, v, relparts[j], prons, fs);
      VerbStep(r0, q, r, v, fs, relparts, prons, j);
    }
    assert relparts[..|relparts|] == relparts;
  }

  /** The words once the verbs `vs` have met all particles and pronouns. */
  ghost predicate VerbsDone(s: seq<Word>, r: seq<Word>, fs: seq<Fixed>, vs: seq<nat>, verbs: seq<nat>, relparts: seq<nat>, prons: seq<nat>)
    requires FixedAgree(s, fs) && |r| == |s| && InRange(vs, |s|) && InRange(verbs, |s|)
    requires InRange(relparts, |s|) && InRange(prons, |s|)
  {
    forall i :: 0 <= i < |s| ==>
      r[i] == if i in verbs then (if i in vs then AppendAnalysis(s[i], VerbMarks(fs[i], fs, relparts, prons)) else s[i])
              else if i in prons then AppendAnalysis(s[i], PronMarks(fs[i], fs, vs, relparts))
              else s[i]
  }

  lemma VerbsStart(s: seq<Word>, fs: seq<Fixed>, verbs: seq<nat>, relparts: seq<nat>, prons: seq<nat>)
    requires FixedAgree(s, fs) && InRange(verbs, |s|) && InRange(relparts, |s|) && InRange(prons, |s|)
    ensures VerbsDone(s, s, fs, verbs[..0], verbs, relparts, prons)
  {
    assert verbs[..0] == [];
    forall i | 0 <= i < |s| {
      AppendAnalysisEmpty(s[i]);
    }
  }

  lemma VerbsStep(s: seq<Word>, q: seq<Word>, r: seq<Word>, fs: seq<Fixed>, verbs: seq<nat>, relparts: seq<nat>, prons: seq<nat>, a: nat)
    requires FixedAgree(s, fs) && FixedAgree(q, fs) && InRange(verbs, |s|) && InRange(relparts, |s|) && InRange(prons, |s|)
    requires Increasing(verbs) && Disjoint(verbs, prons) && a < |verbs|
    requires VerbsDone(s, q, fs, verbs[..a], verbs, relparts, prons)
    requires |r| == |s| && forall i :: 0 <= i < |s| ==>
      r[i] == if i == verbs[a] then AppendAnalysis(q[i], VerbMarks(fs[verbs[a]], fs, relparts, prons))
              else if i in prons then AppendAnalysis(q[i], PronRow(fs[verbs[a]], fs, relparts, fs[i]))
              else q[i]
    ensures VerbsDone(s, r, fs, verbs[..a + 1], verbs, relparts, prons)
  {
    var v := verbs[a];
    assert v !in verbs[..a];
    assert verbs[..a + 1] == verbs[..a] + [v];
    assert verbs[..a + 1][..a] == verbs[..a];
    forall i | 0 <= i < |s|
      ensures r[i] == if i in verbs then (if i in verbs[..a + 1] then AppendAnalysis(s[i], VerbMarks(fs[i], fs, relparts, prons)) else s[i])
              else if i in prons then AppendAnalysis(s[i], PronMarks(fs[i], fs, verbs[..a + 1], relparts))
              else s[i]
    {
      if i == v {
        AppendAnalysisEmpty(s[i]);
      } else if i in verbs {
        assert i !in prons;
        assert (i in verbs[..a + 1]) == (i in verbs[..a]);
      } else if i in prons {
        AppendAnalysisTwice(s[i], PronMarks(fs[i], fs, verbs[..a], relparts), PronRow(fs[v], fs, relparts, fs[i]));
      }
    }
  }

  /** `compare_verbs_relative_particles_and_infixed_pronouns_in`: the verb-major
      product of the three lists. */
  method CompareVerbsRelativeParticlesAndInfixedPronouns(s: seq<Word>, verbs: seq<nat>, relparts: seq<nat>, prons: seq<nat>)
    returns (r: seq<Word>)
    requires AllHaveColumns(s) && InRange(verbs, |s|) && InRange(relparts, |s|) && InRange(prons, |s|)
    requires Increasing(verbs) && Increasing(prons) && Disjoint(verbs, prons)
    ensures r == TripleSpec(s, verbs, relparts, prons)
  {
    ghost var fs := FixedsOf(s);
    r := s;
    VerbsStart(s, fs, verbs, relparts, prons);
    for a := 0 to |verbs|
      invariant FixedAgree(r, fs)
      invariant VerbsDone(s, r, fs, verbs[..a], verbs, relparts, prons)
    {
      ghost var q := r;
      assert verbs[a] !in prons;
      r := TripleForVerb(r, verbs[a], relparts, prons, fs);
      VerbsStep(s, q, r, fs, verbs, relparts, prons, a);
    }
    assert verbs[..|verbs|] == verbs;
    TripleSpecIs(s, r, fs, verbs, relparts, prons);
  }

  lemma TripleSpecIs(s: seq<Word>, r: seq<Word>, fs: seq<Fixed>, verbs: seq<nat>, relparts: seq<nat>, prons: seq<nat>)
    requires AllHaveColumns(s) && fs == FixedsOf(s) && |r| == |s|
    requires InRange(verbs, |s|) && InRange(relparts, |s|) && InRange(prons, |s|)
    requires VerbsDone(s, r, fs, verbs, verbs, relparts, prons)
    ensures r == TripleSpec(s, verbs, relparts, prons)
  {
    var t := TripleSpec(s, verbs, relparts, prons);
    forall i | 0 <= i < |s| ensures r[i] == t[i] {
    }
  }
}
