/** Section 4 of the converter: particles whose information has been folded into the
    verb, and empty morphs, are deleted. Each pass walks its sentence from the end and
    deletes in place (`del sent[i]`); here it returns the new list. */
module Extraneous {
  import opened Words
  import opened SentenceDict
  import opened RelationPasses

  /** Which of the three deletion passes. */
  datatype Pass = RelativeParticles | Preverbs | NullMorphs

  /** The deletion test of each pass. */
  predicate Drops(pass: Pass, w: Word)
    requires HasColumns(w)
  {
    match pass
    case RelativeParticles => w[POS] == "particle_relative"
    case Preverbs => w[POS] == "particle_augment" || (w[POS] == "particle_preverb" && w[LEMMA] != "no·")
    case NullMorphs => w[MORPH] == "∅"
  }

  /** The order-preserving filter that keeps the words a pass does not drop. */
  function Keep(pass: Pass, s: seq<Word>): (r: seq<Word>)
    requires AllHaveColumns(s)
    ensures AllHaveColumns(r) && |r| <= |s|
  {
    if |s| == 0 then []
    else (if Drops(pass, s[0]) then [] else [s[0]]) + Keep(pass, s[1..])
  }

  /** `Keep` from position `i` on is the decision for word `i` followed by the rest. */
  lemma KeepAt(pass: Pass, s: seq<Word>, i: nat)
    requires AllHaveColumns(s) && i < |s|
    ensures Keep(pass, s[i..]) == (if Drops(pass, s[i]) then [] else [s[i]]) + Keep(pass, s[i + 1..])
  {
    assert s[i..][1..] == s[i + 1..];
  }

  /** `del r[i]` on a list whose first `i + 1` elements are `pre + [x]`. */
  lemma DeleteAt<T>(pre: seq<T>, x: T, rest: seq<T>)
    ensures var r := pre + [x] + rest; r[..|pre|] + r[|pre| + 1..] == pre + rest
    ensures pre + [x] + rest == pre + ([x] + rest)
  {
    var r := pre + [x] + rest;
    assert r[..|pre|] == pre && r[|pre| + 1..] == rest;
  }

  /** One pass on one sentence: the reversed index loop with `del sent[i]`. */
  method RemoveIn(pass: Pass, sent: seq<Word>) returns (r: seq<Word>)
    requires AllHaveColumns(sent)
    ensures r == Keep(pass, sent)
  {
    r := sent;
    var i := |sent|;
    assert sent[|sent|..] == [];
    while i > 0
      invariant 0 <= i <= |sent|
      invariant r == sent[..i] + Keep(pass, sent[i..])
    {
      i := i - 1;
      KeepAt(pass, sent, i);
      assert sent[..i + 1] == sent[..i] + [sent[i]];
      DeleteAt(sent[..i], sent[i], Keep(pass, sent[i + 1..]));
      if Drops(pass, r[i]) {
        r := r[..i] + r[i + 1..];
      }
    }
    assert sent[0..] == sent;
  }

  /** The table while a pass runs: the sentences in `done` are filtered, the rest untouched. */
  ghost predicate PassedOn(pass: Pass, d: Sentences, groups: map<string, seq<Word>>, done: set<string>)
    requires WellFormedSentences(d)
  {
    && groups.Keys == d.groups.Keys
    && forall k :: k in d.groups ==> groups[k] == if k in done then Keep(pass, d.groups[k]) else d.groups[k]
  }

  lemma PassedOnStep(pass: Pass, d: Sentences, groups: map<string, seq<Word>>, done: set<string>, k: string)
    requires WellFormedSentences(d) && PassedOn(pass, d, groups, done) && k in d.groups && k !in done
    ensures groups[k] == d.groups[k]
    ensures PassedOn(pass, d, groups[k := Keep(pass, groups[k])], done + {k})
  {
  }

  /** One pass over every sentence of the table. */
  method RemoveInAll(pass: Pass, d: Sentences) returns (r: Sentences)
    requires WellFormedSentences(d)
    ensures r.order == d.order && r.groups.Keys == d.groups.Keys
    ensures forall k :: k in d.groups ==> r.groups[k] == Keep(pass, d.groups[k])
  {
    var groups := d.groups;
    ghost var done: set<string> := {};
    for a := 0 to |d.order|
      invariant PassedOn(pass, d, groups, done) && Visited(d, done, a)
    {
      var k := d.order[a];
      VisitedStep(d, done, a);
      PassedOnStep(pass, d, groups, done, k);
      var sent := RemoveIn(pass, groups[k]);
      groups := groups[k := sent];
      done := done + {k};
    }
    VisitedAll(d, done);
    return Sentences(d.order, groups);
  }

  /** `remove_relative_particles_in`. */
  method RemoveRelativeParticlesIn(d: Sentences) returns (r: Sentences)
    requires WellFormedSentences(d)
    ensures r.order == d.order && r.groups.Keys == d.groups.Keys
    ensures forall k :: k in d.groups ==> r.groups[k] == Keep(RelativeParticles, d.groups[k])
  {
    r := RemoveInAll(RelativeParticles, d);
  }

  /** `remove_preverbs_in`. */
  method RemovePreverbsIn(d: Sentences) returns (r: Sentences)
    requires WellFormedSentences(d)
    ensures r.order == d.order && r.groups.Keys == d.groups.Keys
    ensures forall k :: k in d.groups ==> r.groups[k] == Keep(Preverbs, d.groups[k])
  {
    r := RemoveInAll(Preverbs, d);
  }

  /** `remove_null_in`. */
  method RemoveNullIn(d: Sentences) returns (r: Sentences)
    requires WellFormedSentences(d)
    ensures r.order == d.order && r.groups.Keys == d.groups.Keys
    ensures forall k :: k in d.groups ==> r.groups[k] == Keep(NullMorphs, d.groups[k])
  {
    r := RemoveInAll(NullMorphs, d);
  }

  /** A word is dropped by at least one of the three passes. */
  predicate Extraneous(w: Word)
    requires HasColumns(w)
  {
    Drops(RelativeParticles, w) || Drops(Preverbs, w) || Drops(NullMorphs, w)
  }

  function KeepRelevant(s: seq<Word>): (r: seq<Word>)
    requires AllHaveColumns(s)
    ensures AllHaveColumns(r)
  {
    if |s| == 0 then []
    else (if Extraneous(s[0]) then [] else [s[0]]) + KeepRelevant(s[1..])
  }

  /** `remove_all_extraneous_info_in`: the three passes in order. */
  method RemoveAllExtraneousInfoIn(d: Sentences) returns (r: Sentences)
    requires WellFormedSentences(d)
    ensures r.order == d.order && r.groups.Keys == d.groups.Keys
    ensures forall k :: k in d.groups ==> r.groups[k] == KeepRelevant(d.groups[k])
  {
    var d1 := RemoveRelativeParticlesIn(d);
    var d2 := RemovePreverbsIn(d1);
    r := RemoveNullIn(d2);
    forall k | k in d.groups ensures r.groups[k] == KeepRelevant(d.groups[k]) {
      ThreePasses(d.groups[k]);
    }
  }

  /** The three filters in a row are the single filter on their combined test. */
  lemma {:induction false} ThreePasses(s: seq<Word>)
    requires AllHaveColumns(s)
    ensures Keep(NullMorphs, Keep(Preverbs, Keep(RelativeParticles, s))) == KeepRelevant(s)
    decreases |s|
  {
    if |s| > 0 {
      ThreePasses(s[1..]);
      var k1 := Keep(RelativeParticles, s);
      var k2 := Keep(Preverbs, k1);
      if Drops(RelativeParticles, s[0]) {
        assert k1 == Keep(RelativeParticles, s[1..]);
      } else {
        assert k1[0] == s[0] && k1[1..] == Keep(RelativeParticles, s[1..]);
        if Drops(Preverbs, s[0]) {
          assert k2 == Keep(Preverbs, Keep(RelativeParticles, s[1..]));
        } else {
          assert k2[0] == s[0] && k2[1..] == Keep(Preverbs, Keep(RelativeParticles, s[1..]));
          var k3 := Keep(NullMorphs, k2);
          if !Drops(NullMorphs, s[0]) {
            assert k3[0] == s[0] && k3[1..] == Keep(NullMorphs, k2[1..]);
          }
        }
      }
    }
  }

  /** Nothing a pass drops is left, nothing else is removed, and the survivors keep
      their relative order. */
  lemma {:induction false} KeepMeaning(pass: Pass, s: seq<Word>)
    requires AllHaveColumns(s)
    ensures forall i :: 0 <= i < |Keep(pass, s)| ==> !Drops(pass, Keep(pass, s)[i])
    ensures forall i :: 0 <= i < |s| && !Drops(pass, s[i]) ==> s[i] in Keep(pass, s)
    ensures IsSubsequence(Keep(pass, s), s)
    decreases |s|
  {
    if |s| > 0 {
      KeepMeaning(pass, s[1..]);
      var r := Keep(pass, s);
      if Drops(pass, s[0]) {
        assert r == Keep(pass, s[1..]);
        assert IsSubsequence(r, s);
      } else {
        assert r[0] == s[0] && r[1..] == Keep(pass, s[1..]);
        forall i | 1 <= i < |s| && !Drops(pass, s[i]) ensures s[i] in r {
          assert s[1..][i - 1] == s[i];
        }
        assert IsSubsequence(r, s);
      }
    }
  }

  /** After the three passes no relative particle, augment, lexical preverb or empty
      morph remains, and every other word is still there, in order. */
  lemma {:induction false} RelevantMeaning(s: seq<Word>)
    requires AllHaveColumns(s)
    ensures forall i :: 0 <= i < |KeepRelevant(s)| ==>
      var w := KeepRelevant(s)[i];
      w[POS] != "particle_relative" && w[POS] != "particle_augment" &&
      !(w[POS] == "particle_preverb" && w[LEMMA] != "no·") && w[MORPH] != "∅"
    ensures forall i :: 0 <= i < |s| && !Extraneous(s[i]) ==> s[i] in KeepRelevant(s)
    ensures IsSubsequence(KeepRelevant(s), s)
    decreases |s|
  {
    if |s| > 0 {
      RelevantMeaning(s[1..]);
      var r := KeepRelevant(s);
      if Extraneous(s[0]) {
        assert r == KeepRelevant(s[1..]);
        assert IsSubsequence(r, s);
      } else {
        assert r[0] == s[0] && r[1..] == KeepRelevant(s[1..]);
        forall i | 1 <= i < |s| && !Extraneous(s[i]) ensures s[i] in r {
          assert s[1..][i - 1] == s[i];
        }
        assert IsSubsequence(r, s);
      }
    }
  }
}
