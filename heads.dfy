/** The head-assignment pass: a determiner points at the noun that shares its stressed
    unit, and so does a preposition, which also takes the noun's case into its analysis.
    The head goes into the word's `_` column (written out as the CoNLL-U head). */
module Heads {
  import opened Wrappers
  import opened Strings
  import opened Words
  import opened Relations
  import opened SentenceDict
  import opened RelationPasses

  /** The column that holds the head index. */
  const HEAD := "_"
  /** The morph id column. */
  const ID := "ID"

  const NominalPos: seq<string> := ["noun", "pronoun_demonstrative_distal", "pronoun_demonstrative_proximate",
    "verbal_noun", "proper_noun", "adjective_pronominal", "pronoun_propword"]
  const DeterminerPos: seq<string> := ["definite_article", "adjective_quantifier", "adjective_numeral",
    "pronoun_possessive"]

  datatype Role = Nominal | Determiner | Preposition | Unrelated

  /** The classification of `list_of_dets_and_nouns_in`, tested in this order. */
  function RoleOf(w: Word): Role
    requires HasColumns(w)
  {
    if w[POS] in NominalPos then Nominal
    else if w[POS] in DeterminerPos then Determiner
    else if w[POS] == "preposition" then Preposition
    else Unrelated
  }

  /** The positions of the words with role `role`, left to right. */
  function Positions(s: seq<Word>, role: Role): (r: seq<nat>)
    requires AllHaveColumns(s)
    ensures Increasing(r) && InRange(r, |s|)
  {
    if |s| == 0 then []
    else
      var p := Positions(s[..|s| - 1], role);
      if RoleOf(s[|s| - 1]) == role then p + [|s| - 1] else p
  }

  /** Each list holds exactly the words of its role; so the three lists are disjoint. */
  lemma {:induction false} PositionsFacts(s: seq<Word>, role: Role)
    requires AllHaveColumns(s)
    ensures forall i :: 0 <= i < |s| ==> (i in Positions(s, role) <==> RoleOf(s[i]) == role)
    decreases |s|
  {
    if |s| > 0 {
      var t := s[..|s| - 1];
      PositionsFacts(t, role);
      forall i | 0 <= i < |t| ensures t[i] == s[i] { }
    }
  }

  /** Lists of different roles share no position. */
  lemma RolesDisjoint(s: seq<Word>, r1: Role, r2: Role)
    requires AllHaveColumns(s) && r1 != r2
    ensures Disjoint(Positions(s, r1), Positions(s, r2))
  {
    var xs, ys := Positions(s, r1), Positions(s, r2);
    PositionsFacts(s, r1);
    PositionsFacts(s, r2);
    forall a, b | 0 <= a < |xs| && 0 <= b < |ys| ensures xs[a] != ys[b] {
      assert xs[a] in xs && ys[b] in ys;
    }
  }

  /** `list_of_dets_and_nouns_in`. */
  method ListOfDetsAndNounsIn(s: seq<Word>) returns (dets: seq<nat>, nouns: seq<nat>, preps: seq<nat>)
    requires AllHaveColumns(s)
    ensures dets == Positions(s, Determiner) && nouns == Positions(s, Nominal)
    ensures preps == Positions(s, Preposition)
  {
    dets, nouns, preps := [], [], [];
    for i := 0 to |s|
      invariant dets == Positions(s[..i], Determiner) && nouns == Positions(s[..i], Nominal)
      invariant preps == Positions(s[..i], Preposition)
    {
      assert s[..i + 1][..i] == s[..i];
      var word := s[i];
      if word[POS] in NominalPos {
        nouns := nouns + [i];
      } else if word[POS] in DeterminerPos {
        dets := dets + [i];
      } else if word[POS] == "preposition" {
        preps := preps + [i];
      }
    }
    assert s[..|s|] == s;
  }

  /** `case_check`: a preposition without features takes the case of its noun. */
  function CaseCheck(prep: Word, noun: Word): (r: Word)
    requires HasColumns(prep) && HasColumns(noun)
    ensures HasColumns(r) && FixedOf(r) == FixedOf(prep)
  {
    if IsSubstring("acc.", noun[ANALYSIS]) && IsSubstring("No_Features", prep[ANALYSIS]) then AppendAnalysis(prep, "acc.")
    else if IsSubstring("dat.", noun[ANALYSIS]) && IsSubstring("No_Features", prep[ANALYSIS]) then AppendAnalysis(prep, "dat.")
    else if IsSubstring("gen.", noun[ANALYSIS]) && IsSubstring("No_Features", prep[ANALYSIS]) then AppendAnalysis(prep, "gen.")
    else prep
  }

  /** The preposition changes exactly when it has no features and the noun has one of
      the three cases; the case added is the first of accusative, dative, genitive the
      noun has, and only the analysis changes. The marker stays, so a second check adds
      a second case. */
  lemma CaseCheckMeaning(prep: Word, noun: Word)
    requires HasColumns(prep) && HasColumns(noun)
    ensures var r := CaseCheck(prep, noun);
      exists c :: c in ["", "acc.", "dat.", "gen."] && r == prep[ANALYSIS := prep[ANALYSIS] + c]
    ensures var r := CaseCheck(prep, noun);
      (r != prep <==> (IsSubstring("No_Features", prep[ANALYSIS]) &&
        (IsSubstring("acc.", noun[ANALYSIS]) || IsSubstring("dat.", noun[ANALYSIS]) || IsSubstring("gen.", noun[ANALYSIS]))))
    ensures IsSubstring("No_Features", prep[ANALYSIS]) && IsSubstring("acc.", noun[ANALYSIS]) ==>
      CaseCheck(CaseCheck(prep, noun), noun)[ANALYSIS] == prep[ANALYSIS] + "acc." + "acc."
  {
    var r := CaseCheck(prep, noun);
    if r == prep {
      assert prep[ANALYSIS] + "" == prep[ANALYSIS];
      assert prep[ANALYSIS := prep[ANALYSIS] + ""] == prep;
    }
    if IsSubstring("No_Features", prep[ANALYSIS]) && IsSubstring("acc.", noun[ANALYSIS]) {
      SubstringOfLonger("No_Features", prep[ANALYSIS], "acc.");
    }
  }

  /** The scan state of the two head passes: the sentence, and the positions of the
      heads and nouns recorded as finished (Python keeps the dictionaries themselves). */
  datatype Progress = Progress(s: seq<Word>, heads: seq<nat>, nouns: seq<nat>)

  predicate Ready(st: Progress, n: nat)
  {
    |st.s| == n && AllHaveColumns(st.s) && InRange(st.heads, n) && InRange(st.nouns, n)
  }

  /** The words at the positions `ps`, as the finished lists hold them. */
  function Current(s: seq<Word>, ps: seq<nat>): (r: seq<Word>)
    requires InRange(ps, |s|)
    ensures |r| == |ps| && forall k :: 0 <= k < |ps| ==> r[k] == s[ps[k]]
  {
    seq(|ps|, k requires 0 <= k < |ps| => s[ps[k]])
  }

  /** `c[0]['Stressed_Unit'] in c[1]['Stressed_Unit']`. */
  predicate Links(s: seq<Word>, a: nat, n: nat)
    requires a < |s| && n < |s| && AllHaveColumns(s)
  {
    IsSubstring(s[a][SU], s[n][SU])
  }

  /** `str(current_sentence.index(noun) + 1)`: the 1-based position of the first word
      equal to the noun. */
  function HeadIndex(s: seq<Word>, n: nat): string
    requires n < |s|
  {
    NatToString(FirstIndex(s, s[n]) + 1)
  }

  /** The word holds the 1-based position `m` as head. */
  predicate HasHead(w: Word, m: nat)
  {
    HEAD in w && w[HEAD] == NatToString(m + 1)
  }

  /** The same words in the same order, with the same fixed columns and ids. */
  predicate SameIds(a: seq<Word>, b: seq<Word>)
    requires AllHaveColumns(a) && AllHaveColumns(b)
  {
    |a| == |b| &&
    forall i :: 0 <= i < |a| ==>
      FixedOf(a[i]) == FixedOf(b[i]) && (ID in a[i] <==> ID in b[i]) && (ID in a[i] ==> a[i][ID] == b[i][ID])
  }

  /** `c[0]['_'] = ...` for the word at `a`. */
  function WithHead(s: seq<Word>, a: nat, n: nat): (r: seq<Word>)
    requires a < |s| && n < |s| && AllHaveColumns(s)
    ensures AllHaveColumns(r) && SameIds(r, s)
  {
    s[a := s[a][HEAD := HeadIndex(s, n)]]
  }

  /** The head followed by `case_check`. */
  function WithCase(s: seq<Word>, p: nat, n: nat): (r: seq<Word>)
    requires p < |s| && n < |s| && AllHaveColumns(s)
    ensures AllHaveColumns(r) && SameIds(r, s)
  {
    var t := WithHead(s, p, n);
    t[p := CaseCheck(t[p], t[n])]
  }

  /** One pair of `head_of_article2`. The first branch (nothing ignored yet) coincides
      with the last one, because the finished lists are empty exactly when the ignore
      list is. */
  function ArticleStep(st: Progress, d: nat, n: nat): (r: Progress)
    requires Ready(st, |st.s|) && d < |st.s| && n < |st.s|
    ensures Ready(r, |st.s|) && SameIds(r.s, st.s)
  {
    if Links(st.s, d, n) && st.s[d] !in Current(st.s, st.heads) && st.s[n] !in Current(st.s, st.nouns)
    then Progress(WithHead(st.s, d, n), st.heads + [d], st.nouns + [n])
    else st
  }

  /** One pair of `head_of_preposition`: only the first match is recorded as finished; a
      later match of a fresh preposition and a fresh noun is assigned but not recorded. */
  function PrepositionStep(st: Progress, p: nat, n: nat): (r: Progress)
    requires Ready(st, |st.s|) && p < |st.s| && n < |st.s|
    ensures Ready(r, |st.s|) && SameIds(r.s, st.s)
  {
    if !Links(st.s, p, n) then st
    else if |st.heads| == 0 then Progress(WithCase(st.s, p, n), [p], [n])
    else if st.s[p] in Current(st.s, st.heads) then st
    else if st.s[n] in Current(st.s, st.nouns) then st
    else Progress(WithCase(st.s, p, n), st.heads, st.nouns)
  }

  datatype Pass = ArticlePass | PrepositionPass

  function Step(pass: Pass, st: Progress, a: nat, n: nat): (r: Progress)
    requires Ready(st, |st.s|) && a < |st.s| && n < |st.s|
    ensures Ready(r, |st.s|) && SameIds(r.s, st.s)
  {
    match pass
    case ArticlePass => ArticleStep(st, a, n)
    case PrepositionPass => PrepositionStep(st, a, n)
  }

  /** The pairs `(a, ns[0]), (a, ns[1]), ...` of the product, in order. */
  function Row(pass: Pass, st: Progress, a: nat, ns: seq<nat>): (r: Progress)
    requires Ready(st, |st.s|) && a < |st.s| && InRange(ns, |st.s|)
    ensures Ready(r, |st.s|) && SameIds(r.s, st.s)
    decreases |ns|
  {
    if |ns| == 0 then st
    else Step(pass, Row(pass, st, a, ns[..|ns| - 1]), a, ns[|ns| - 1])
  }

  /** The whole of `itertools.product(as_, ns)`, first list outermost. */
  function Product(pass: Pass, st: Progress, as_: seq<nat>, ns: seq<nat>): (r: Progress)
    requires Ready(st, |st.s|) && InRange(as_, |st.s|) && InRange(ns, |st.s|)
    ensures Ready(r, |st.s|) && SameIds(r.s, st.s)
    decreases |as_|
  {
    if |as_| == 0 then st
    else Row(pass, Product(pass, st, as_[..|as_| - 1], ns), as_[|as_| - 1], ns)
  }

  function Start(s: seq<Word>): Progress
  {
    Progress(s, [], [])
  }

  /** The loop over the product shared by the two passes. */
  method HeadPass(pass: Pass, s: seq<Word>, as_: seq<nat>, ns: seq<nat>) returns (r: seq<Word>)
    requires AllHaveColumns(s) && InRange(as_, |s|) && InRange(ns, |s|)
    ensures r == Product(pass, Start(s), as_, ns).s
  {
    var st := Start(s);
    for i := 0 to |as_|
      invariant InRange(as_[..i], |s|)
      invariant st == Product(pass, Start(s), as_[..i], ns)
    {
      assert as_[..i + 1][..i] == as_[..i];
      st := HeadRow(pass, st, as_[i], ns);
    }
    assert as_[..|as_|] == as_;
    r := st.s;
  }

  /** The inner loop: one head candidate against every noun. */
  method HeadRow(pass: Pass, st0: Progress, a: nat, ns: seq<nat>) returns (st: Progress)
    requires Ready(st0, |st0.s|) && a < |st0.s| && InRange(ns, |st0.s|)
    ensures st == Row(pass, st0, a, ns)
  {
    st := st0;
    for j := 0 to |ns|
      invariant InRange(ns[..j], |st0.s|)
      invariant st == Row(pass, st0, a, ns[..j])
    {
      assert ns[..j + 1][..j] == ns[..j];
      st := Step(pass, st, a, ns[j]);
    }
    assert ns[..|ns|] == ns;
  }

  /** `head_of_article2`. */
  method HeadOfArticle2(s: seq<Word>, dets: seq<nat>, nouns: seq<nat>) returns (r: seq<Word>)
    requires AllHaveColumns(s) && InRange(dets, |s|) && InRange(nouns, |s|)
    ensures r == Product(ArticlePass, Start(s), dets, nouns).s
  {
    r := HeadPass(ArticlePass, s, dets, nouns);
  }

  /** `head_of_preposition`. */
  method HeadOfPreposition(s: seq<Word>, preps: seq<nat>, nouns: seq<nat>) returns (r: seq<Word>)
    requires AllHaveColumns(s) && InRange(preps, |s|) && InRange(nouns, |s|)
    ensures r == Product(PrepositionPass, Start(s), preps, nouns).s
  {
    r := HeadPass(PrepositionPass, s, preps, nouns);
  }

  /** Both passes on one sentence, the lists taken from the sentence. */
  function HeadsOf(s: seq<Word>): (r: seq<Word>)
    requires AllHaveColumns(s)
    ensures AllHaveColumns(r) && SameIds(r, s)
  {
    var dets, nouns, preps := Positions(s, Determiner), Positions(s, Nominal), Positions(s, Preposition);
    var t := Product(ArticlePass, Start(s), dets, nouns).s;
    Product(PrepositionPass, Start(t), preps, nouns).s
  }

  /** `find_head_in`. */
  method FindHeadIn(s: seq<Word>, dets: seq<nat>, nouns: seq<nat>, preps: seq<nat>) returns (r: seq<Word>)
    requires AllHaveColumns(s) && InRange(dets, |s|) && InRange(nouns, |s|) && InRange(preps, |s|)
    ensures r == Product(PrepositionPass, Start(Product(ArticlePass, Start(s), dets, nouns).s), preps, nouns).s
  {
    var t := HeadOfArticle2(s, dets, nouns);
    r := HeadOfPreposition(t, preps, nouns);
  }

  /** `assign_head_in`. */
  method AssignHeadIn(d: Sentences) returns (r: Sentences)
    requires WellFormedSentences(d)
    ensures r.order == d.order && r.groups.Keys == d.groups.Keys
    ensures forall k :: k in d.groups ==> r.groups[k] == HeadsOf(d.groups[k])
  {
    var groups := d.groups;
    ghost var done: set<string> := {};
    for a := 0 to |d.order|
      invariant Headed(d, groups, done) && Visited(d, done, a)
    {
      var k := d.order[a];
      VisitedStep(d, done, a);
      HeadedStep(d, groups, done, k);
      var sent := groups[k];
      var dets, nouns, preps := ListOfDetsAndNounsIn(sent);
      sent := FindHeadIn(sent, dets, nouns, preps);
      groups := groups[k := sent];
      done := done + {k};
    }
    VisitedAll(d, done);
    return Sentences(d.order, groups);
  }

  /** The table while heads are assigned. */
  ghost predicate Headed(d: Sentences, groups: map<string, seq<Word>>, done: set<string>)
    requires WellFormedSentences(d)
  {
    && groups.Keys == d.groups.Keys
    && forall k :: k in d.groups ==> groups[k] == if k in done then HeadsOf(d.groups[k]) else d.groups[k]
  }

  lemma HeadedStep(d: Sentences, groups: map<string, seq<Word>>, done: set<string>, k: string)
    requires WellFormedSentences(d) && Headed(d, groups, done) && k in d.groups && k !in done
    ensures groups[k] == d.groups[k]
    ensures Headed(d, groups[k := HeadsOf(groups[k])], done + {k})
  {
  }

  // ----- What the article pass computes, for words with distinct ids -----

  /** Every word carries its morph id and no two words share one. Then Python's value
      comparisons of words (`in`, `.index`) are comparisons of positions. */
  predicate DistinctIds(s: seq<Word>)
  {
    (forall i :: 0 <= i < |s| ==> ID in s[i]) &&
    forall i, j :: 0 <= i < j < |s| ==> s[i][ID] != s[j][ID]
  }

  lemma DistinctIdsKept(a: seq<Word>, b: seq<Word>)
    requires AllHaveColumns(a) && AllHaveColumns(b) && SameIds(a, b) && DistinctIds(b)
    ensures DistinctIds(a)
  {
    forall i, j | 0 <= i < j < |a| ensures a[i][ID] != a[j][ID] {
      assert a[i][ID] == b[i][ID] && a[j][ID] == b[j][ID];
    }
  }

  /** With distinct ids, a word is in a finished list exactly when its position is. */
  lemma ValueIsPosition(s: seq<Word>, ps: seq<nat>, x: nat)
    requires DistinctIds(s) && InRange(ps, |s|) && x < |s|
    ensures s[x] in Current(s, ps) <==> x in ps
  {
    var c := Current(s, ps);
    if s[x] in c {
      var k :| 0 <= k < |c| && c[k] == s[x];
      assert s[ps[k]][ID] == s[x][ID];
      assert ps[k] == x;
    }
    if x in ps {
      var k :| 0 <= k < |ps| && ps[k] == x;
      assert c[k] == s[x];
    }
  }

  /** With distinct ids, the head written for noun `n` is its own 1-based position. */
  lemma HeadIndexIsPosition(s: seq<Word>, n: nat)
    requires DistinctIds(s) && n < |s|
    ensures HeadIndex(s, n) == NatToString(n + 1)
  {
    var i := FirstIndex(s, s[n]);
    assert s[i][ID] == s[n][ID];
  }

  lemma SameIdsTrans(a: seq<Word>, b: seq<Word>, c: seq<Word>)
    requires AllHaveColumns(a) && AllHaveColumns(b) && AllHaveColumns(c)
    requires SameIds(a, b) && SameIds(b, c)
    ensures SameIds(a, c)
  {
  }

  lemma PrefixTrans<T>(p: seq<T>, q: seq<T>, r: seq<T>)
    requires IsSeqPrefix(p, q) && IsSeqPrefix(q, r)
    ensures IsSeqPrefix(p, r)
  {
    assert r[..|p|] == r[..|q|][..|p|];
  }

  lemma PrefixMember<T>(x: T, p: seq<T>, q: seq<T>)
    requires x in p && IsSeqPrefix(p, q)
    ensures x in q
  {
    var k :| 0 <= k < |p| && p[k] == x;
    assert q[k] == x;
  }

  /** Every recorded pair is a determiner and a noun from the lists that share the
      stressed unit. */
  ghost predicate Matched(s: seq<Word>, st: Progress, ds: seq<nat>, ns: seq<nat>)
    requires AllHaveColumns(s) && Ready(st, |s|)
  {
    |st.heads| == |st.nouns| &&
    forall k :: 0 <= k < |st.heads| ==> st.heads[k] in ds && st.nouns[k] in ns && Links(s, st.heads[k], st.nouns[k])
  }

  /** No head and no noun is recorded twice. */
  ghost predicate Once(st: Progress)
  {
    |st.heads| == |st.nouns| &&
    forall k, l :: 0 <= k < l < |st.heads| ==> st.heads[k] != st.heads[l] && st.nouns[k] != st.nouns[l]
  }

  /** A recorded determiner holds its noun's 1-based position as head; every other word
      is as it was. */
  ghost predicate Written(s: seq<Word>, st: Progress)
    requires AllHaveColumns(s) && Ready(st, |s|)
  {
    |st.heads| == |st.nouns| &&
    (forall k :: 0 <= k < |st.heads| ==> st.s[st.heads[k]] == s[st.heads[k]][HEAD := NatToString(st.nouns[k] + 1)]) &&
    (forall i :: 0 <= i < |s| && i !in st.heads ==> st.s[i] == s[i])
  }

  /** Each recorded noun is the earliest noun linked to its determiner that no earlier
      determiner took. */
  ghost predicate Earliest(s: seq<Word>, st: Progress, ns: seq<nat>)
    requires AllHaveColumns(s) && Ready(st, |s|)
  {
    |st.heads| == |st.nouns| &&
    forall k, m :: 0 <= k < |st.heads| && m in ns && m < st.nouns[k] && Links(s, st.heads[k], m) ==>
      m in st.nouns[..k]
  }

  /** The state of the article pass. */
  ghost predicate ArticleInv(s: seq<Word>, st: Progress, ds: seq<nat>, ns: seq<nat>)
    requires AllHaveColumns(s) && Ready(st, |s|)
  {
    Matched(s, st, ds, ns) && Once(st) && Written(s, st) && Earliest(s, st, ns)
  }

  /** A recording step keeps each part of the invariant. */
  lemma RecordMatched(s: seq<Word>, st: Progress, ds: seq<nat>, ns: seq<nat>, d: nat, n: nat)
    requires AllHaveColumns(s) && Ready(st, |s|) && d < |s| && n < |s| && d in ds && n in ns
    requires Matched(s, st, ds, ns) && Links(s, d, n)
    ensures var r := Progress(WithHead(st.s, d, n), st.heads + [d], st.nouns + [n]);
      Ready(r, |s|) && Matched(s, r, ds, ns)
  {
  }

  lemma RecordOnce(st: Progress, d: nat, n: nat)
    requires Once(st) && d !in st.heads && n !in st.nouns
    ensures Once(Progress(st.s, st.heads + [d], st.nouns + [n]))
  {
  }

  lemma RecordWritten(s: seq<Word>, st: Progress, d: nat, n: nat)
    requires AllHaveColumns(s) && Ready(st, |s|) && d < |s| && n < |s|
    requires HeadIndex(st.s, n) == NatToString(n + 1)
    requires Written(s, st) && d !in st.heads
    ensures var r := Progress(WithHead(st.s, d, n), st.heads + [d], st.nouns + [n]);
      Ready(r, |s|) && Written(s, r)
  {
    var w := WithHead(st.s, d, n);
    assert w == st.s[d := s[d][HEAD := NatToString(n + 1)]] by {
      assert st.s[d] == s[d];
    }
    WrittenStep(s, st, Progress(w, st.heads + [d], st.nouns + [n]), d, n);
  }

  lemma WrittenStep(s: seq<Word>, st: Progress, r: Progress, d: nat, n: nat)
    requires AllHaveColumns(s) && Ready(st, |s|) && Ready(r, |s|) && d < |s| && Written(s, st) && d !in st.heads
    requires r.s == st.s[d := s[d][HEAD := NatToString(n + 1)]]
    requires r.heads == st.heads + [d] && r.nouns == st.nouns + [n]
    ensures Written(s, r)
  {
    WrittenHeads(s, st, r, d, n);
    WrittenOthers(s, st, r, d);
  }

  lemma WrittenHeads(s: seq<Word>, st: Progress, r: Progress, d: nat, n: nat)
    requires AllHaveColumns(s) && Ready(st, |s|) && Ready(r, |s|) && d < |s| && Written(s, st) && d !in st.heads
    requires r.s == st.s[d := s[d][HEAD := NatToString(n + 1)]]
    requires r.heads == st.heads + [d] && r.nouns == st.nouns + [n]
    ensures forall k :: 0 <= k < |r.heads| ==> r.s[r.heads[k]] == s[r.heads[k]][HEAD := NatToString(r.nouns[k] + 1)]
  {
  }

  lemma WrittenOthers(s: seq<Word>, st: Progress, r: Progress, d: nat)
    requires AllHaveColumns(s) && Ready(st, |s|) && Ready(r, |s|) && d < |s| && Written(s, st)
    requires r.s == st.s[d := r.s[d]] && r.heads == st.heads + [d]
    ensures forall i :: 0 <= i < |s| && i !in r.heads ==> r.s[i] == s[i]
  {
  }

  lemma RecordEarliest(s: seq<Word>, st: Progress, ns: seq<nat>, d: nat, j: nat)
    requires AllHaveColumns(s) && Ready(st, |s|) && InRange(ns, |s|) && Increasing(ns) && j < |ns| && d < |s|
    requires Earliest(s, st, ns)
    requires forall b :: 0 <= b < j && Links(s, d, ns[b]) ==> ns[b] in st.nouns
    ensures var r := Progress(WithHead(st.s, d, ns[j]), st.heads + [d], st.nouns + [ns[j]]);
      Ready(r, |s|) && Earliest(s, r, ns)
  {
    var n := ns[j];
    var k := |st.heads|;
    var r := Progress(WithHead(st.s, d, n), st.heads + [d], st.nouns + [n]);
    assert r.nouns[..k] == st.nouns;
    forall m | m in ns && m < n && Links(s, d, m) ensures m in r.nouns[..k] {
      var b :| 0 <= b < |ns| && ns[b] == m;
      assert b < j;
    }
    forall k', m | 0 <= k' < k && m in ns && m < r.nouns[k'] && Links(s, r.heads[k'], m)
      ensures m in r.nouns[..k']
    {
      assert r.nouns[..k'] == st.nouns[..k'];
    }
  }

  lemma ArticleRecord(s: seq<Word>, st: Progress, ds: seq<nat>, ns: seq<nat>, d: nat, j: nat)
    requires AllHaveColumns(s) && Ready(st, |s|) && DistinctIds(st.s)
    requires InRange(ns, |s|) && Increasing(ns) && d < |s| && d in ds && j < |ns|
    requires ArticleInv(s, st, ds, ns)
    requires forall b :: 0 <= b < j && Links(s, d, ns[b]) ==> d in st.heads || ns[b] in st.nouns
    requires Links(s, d, ns[j]) && d !in st.heads && ns[j] !in st.nouns
    ensures var r := Progress(WithHead(st.s, d, ns[j]), st.heads + [d], st.nouns + [ns[j]]);
      Ready(r, |s|) && ArticleInv(s, r, ds, ns)
  {
    RecordMatched(s, st, ds, ns, d, ns[j]);
    RecordOnce(st, d, ns[j]);
    HeadIndexIsPosition(st.s, ns[j]);
    RecordWritten(s, st, d, ns[j]);
    RecordEarliest(s, st, ns, d, j);
  }

  lemma ArticleStepInv(s: seq<Word>, st: Progress, ds: seq<nat>, ns: seq<nat>, d: nat, j: nat)
    requires AllHaveColumns(s) && DistinctIds(s) && Ready(st, |s|) && SameIds(st.s, s)
    requires InRange(ns, |s|) && Increasing(ns) && d < |s| && d in ds && j < |ns|
    requires ArticleInv(s, st, ds, ns)
    requires forall b :: 0 <= b < j && Links(s, d, ns[b]) ==> d in st.heads || ns[b] in st.nouns
    ensures var r := ArticleStep(st, d, ns[j]);
      ArticleInv(s, r, ds, ns) && IsSeqPrefix(st.heads, r.heads) && IsSeqPrefix(st.nouns, r.nouns)
    ensures var r := ArticleStep(st, d, ns[j]);
      Links(s, d, ns[j]) ==> d in r.heads || ns[j] in r.nouns
  {
    var n := ns[j];
    DistinctIdsKept(st.s, s);
    ValueIsPosition(st.s, st.heads, d);
    ValueIsPosition(st.s, st.nouns, n);
    assert Links(st.s, d, n) == Links(s, d, n) by {
      assert FixedOf(st.s[d]) == FixedOf(s[d]) && FixedOf(st.s[n]) == FixedOf(s[n]);
    }
    if Links(s, d, n) && d !in st.heads && n !in st.nouns {
      ArticleRecord(s, st, ds, ns, d, j);
      HeadIndexIsPosition(st.s, n);
      var r := ArticleStep(st, d, n);
      assert r.heads == st.heads + [d] && r.nouns == st.nouns + [n];
      assert r.heads[..|st.heads|] == st.heads && r.nouns[..|st.nouns|] == st.nouns;
    } else {
      assert ArticleStep(st, d, n) == st;
      assert st.heads[..|st.heads|] == st.heads && st.nouns[..|st.nouns|] == st.nouns;
    }
  }

  lemma {:induction false} ArticleRowInv(s: seq<Word>, st: Progress, ds: seq<nat>, ns: seq<nat>, d: nat, j: nat)
    requires AllHaveColumns(s) && DistinctIds(s) && Ready(st, |s|) && SameIds(st.s, s)
    requires InRange(ns, |s|) && Increasing(ns) && d < |s| && d in ds && j <= |ns|
    requires ArticleInv(s, st, ds, ns)
    ensures var r := Row(ArticlePass, st, d, ns[..j]);
      ArticleInv(s, r, ds, ns) && IsSeqPrefix(st.heads, r.heads) && IsSeqPrefix(st.nouns, r.nouns)
    ensures var r := Row(ArticlePass, st, d, ns[..j]);
      forall b :: 0 <= b < j && Links(s, d, ns[b]) ==> d in r.heads || ns[b] in r.nouns
    decreases j
  {
    if j > 0 {
      var q := Row(ArticlePass, st, d, ns[..j - 1]);
      var r := ArticleStep(q, d, ns[j - 1]);
      assert Row(ArticlePass, st, d, ns[..j]) == r by {
        assert ns[..j][..j - 1] == ns[..j - 1];
      }
      ArticleRowInv(s, st, ds, ns, d, j - 1);
      assert SameIds(q.s, s) by { SameIdsTrans(q.s, st.s, s); }
      ArticleStepInv(s, q, ds, ns, d, j - 1);
      PrefixTrans(st.heads, q.heads, r.heads);
      PrefixTrans(st.nouns, q.nouns, r.nouns);
      forall b | 0 <= b < j - 1 && Links(s, d, ns[b]) ensures d in r.heads || ns[b] in r.nouns {
        if d in q.heads { PrefixMember(d, q.heads, r.heads); }
        else { PrefixMember(ns[b], q.nouns, r.nouns); }
      }
    } else {
      assert st.heads[..|st.heads|] == st.heads && st.nouns[..|st.nouns|] == st.nouns;
    }
  }

  lemma {:induction false} ArticleProductInv(s: seq<Word>, ds: seq<nat>, ns: seq<nat>, i: nat)
    requires AllHaveColumns(s) && DistinctIds(s)
    requires InRange(ds, |s|) && InRange(ns, |s|) && Increasing(ns) && i <= |ds|
    ensures var r := Product(ArticlePass, Start(s), ds[..i], ns);
      ArticleInv(s, r, ds, ns) &&
      forall a, b :: 0 <= a < i && 0 <= b < |ns| && Links(s, ds[a], ns[b]) ==> ds[a] in r.heads || ns[b] in r.nouns
    decreases i
  {
    if i > 0 {
      assert ds[..i][..i - 1] == ds[..i - 1];
      ArticleProductInv(s, ds, ns, i - 1);
      var q := Product(ArticlePass, Start(s), ds[..i - 1], ns);
      SameIdsTrans(q.s, Start(s).s, s);
      ArticleRowInv(s, q, ds, ns, ds[i - 1], |ns|);
      assert ns[..|ns|] == ns;
      var r := Row(ArticlePass, q, ds[i - 1], ns);
      assert Product(ArticlePass, Start(s), ds[..i], ns) == r;
      forall a, b | 0 <= a < i - 1 && 0 <= b < |ns| && Links(s, ds[a], ns[b])
        ensures ds[a] in r.heads || ns[b] in r.nouns
      {
        if ds[a] in q.heads { PrefixMember(ds[a], q.heads, r.heads); }
        else { PrefixMember(ns[b], q.nouns, r.nouns); }
      }
    } else {
      assert Product(ArticlePass, Start(s), ds[..0], ns) == Start(s);
    }
  }

  /** `head_of_article2` computes a greedy matching: the invariant above holds at the
      end, and it is maximal, since for every determiner and noun that share the stressed
      unit, the determiner or the noun was matched. */
  lemma ArticleHeads(s: seq<Word>, dets: seq<nat>, nouns: seq<nat>)
    requires AllHaveColumns(s) && DistinctIds(s)
    requires InRange(dets, |s|) && InRange(nouns, |s|) && Increasing(nouns)
    ensures var r := Product(ArticlePass, Start(s), dets, nouns);
      ArticleInv(s, r, dets, nouns) &&
      forall d, n :: d in dets && n in nouns && Links(s, d, n) ==> d in r.heads || n in r.nouns
  {
    ArticleProductInv(s, dets, nouns, |dets|);
    assert dets[..|dets|] == dets;
  }

  // ----- What the preposition pass computes, for words with distinct ids -----

  /** The first noun of `ns` that shares the stressed unit of `p`. */
  function FirstLinked(s: seq<Word>, p: nat, ns: seq<nat>): (r: Option<nat>)
    requires AllHaveColumns(s) && p < |s| && InRange(ns, |s|)
    ensures r.Some? ==> r.value in ns && Links(s, p, r.value)
    decreases |ns|
  {
    if |ns| == 0 then None
    else
      var f := FirstLinked(s, p, ns[..|ns| - 1]);
      if f.Some? then f
      else if Links(s, p, ns[|ns| - 1]) then Some(ns[|ns| - 1])
      else None
  }

  /** The last noun of `ns` other than `taken` that shares the stressed unit of `p`. */
  function LastFree(s: seq<Word>, p: nat, taken: nat, ns: seq<nat>): (r: Option<nat>)
    requires AllHaveColumns(s) && p < |s| && InRange(ns, |s|)
    ensures r.Some? ==> r.value in ns && Links(s, p, r.value) && r.value != taken
    decreases |ns|
  {
    if |ns| == 0 then None
    else if Links(s, p, ns[|ns| - 1]) && ns[|ns| - 1] != taken then Some(ns[|ns| - 1])
    else LastFree(s, p, taken, ns[..|ns| - 1])
  }

  lemma LinksKept(a: seq<Word>, b: seq<Word>, x: nat, y: nat)
    requires AllHaveColumns(a) && AllHaveColumns(b) && SameIds(a, b) && x < |a| && y < |a|
    ensures Links(a, x, y) == Links(b, x, y)
  {
    assert FixedOf(a[x]) == FixedOf(b[x]) && FixedOf(a[y]) == FixedOf(b[y]);
  }

  /** `case_check` changes only the analysis, so the head just written stays. */
  lemma WithCaseHead(s: seq<Word>, p: nat, n: nat)
    requires p < |s| && n < |s| && AllHaveColumns(s)
    ensures var r := WithCase(s, p, n);
      HEAD in r[p] && r[p][HEAD] == HeadIndex(s, n) && forall i :: 0 <= i < |s| && i != p ==> r[i] == s[i]
  {
    var t := WithHead(s, p, n);
    CaseCheckMeaning(t[p], t[n]);
  }

  /** One pair while nothing is recorded: a linked pair is recorded and written. */
  lemma FirstPrepositionStep(q: Progress, p: nat, n: nat)
    requires Ready(q, |q.s|) && DistinctIds(q.s) && |q.heads| == 0 && |q.nouns| == 0
    requires p < |q.s| && n < |q.s| && p != n
    ensures var r := PrepositionStep(q, p, n);
      (forall i :: 0 <= i < |q.s| && i != p ==> r.s[i] == q.s[i]) &&
      (!Links(q.s, p, n) ==> r == q) &&
      (Links(q.s, p, n) ==> r.heads == [p] && r.nouns == [n] && HasHead(r.s[p], n))
  {
    if Links(q.s, p, n) {
      WithCaseHead(q.s, p, n);
      HeadIndexIsPosition(q.s, n);
    }
  }

  /** One pair once the preposition `p` is recorded: it is skipped. */
  lemma RecordedPrepositionStep(q: Progress, p: nat, n: nat)
    requires Ready(q, |q.s|) && DistinctIds(q.s) && q.heads == [p]
    requires p < |q.s| && n < |q.s|
    ensures PrepositionStep(q, p, n) == q
  {
    ValueIsPosition(q.s, q.heads, p);
  }

  /** One pair of a preposition other than the recorded one: a linked noun other than
      the recorded one is written, with nothing recorded. */
  lemma LaterPrepositionStep(q: Progress, p: nat, n: nat)
    requires Ready(q, |q.s|) && DistinctIds(q.s) && |q.heads| == 1 && |q.nouns| == 1
    requires p < |q.s| && n < |q.s| && p != n && p != q.heads[0]
    ensures var r := PrepositionStep(q, p, n);
      r.heads == q.heads && r.nouns == q.nouns &&
      (forall i :: 0 <= i < |q.s| && i != p ==> r.s[i] == q.s[i]) &&
      (!(Links(q.s, p, n) && n != q.nouns[0]) ==> r == q) &&
      (Links(q.s, p, n) && n != q.nouns[0] ==> HasHead(r.s[p], n))
  {
    var r := PrepositionStep(q, p, n);
    assert q.s[p] !in Current(q.s, q.heads) by {
      ValueIsPosition(q.s, q.heads, p);
    }
    assert q.s[n] in Current(q.s, q.nouns) <==> n == q.nouns[0] by {
      ValueIsPosition(q.s, q.nouns, n);
    }
    if Links(q.s, p, n) && n != q.nouns[0] {
      assert r.s == WithCase(q.s, p, n);
      WithCaseHead(q.s, p, n);
      HeadIndexIsPosition(q.s, n);
    }
  }

  /** What a row of the first linked preposition has done after some of its pairs,
      `f` being the first linked noun among them. */
  ghost predicate FirstRowDone(st: Progress, r: Progress, p: nat, f: Option<nat>)
    requires Ready(st, |st.s|) && Ready(r, |st.s|) && p < |st.s|
  {
    (forall i :: 0 <= i < |st.s| && i != p ==> r.s[i] == st.s[i]) &&
    (f.None? ==> r == st) &&
    (f.Some? ==> r.heads == [p] && r.nouns == [f.value] && HasHead(r.s[p], f.value))
  }

  lemma FirstRowNext(st: Progress, q: Progress, p: nat, n: nat, f: Option<nat>)
    requires Ready(st, |st.s|) && Ready(q, |st.s|) && SameIds(q.s, st.s) && DistinctIds(st.s)
    requires |st.heads| == 0 && |st.nouns| == 0 && p < |st.s| && n < |st.s| && p != n
    requires FirstRowDone(st, q, p, f)
    ensures FirstRowDone(st, PrepositionStep(q, p, n), p,
      if f.Some? then f else if Links(st.s, p, n) then Some(n) else None)
  {
    LinksKept(q.s, st.s, p, n);
    DistinctIdsKept(q.s, st.s);
    if f.Some? {
      RecordedPrepositionStep(q, p, n);
    } else {
      FirstPrepositionStep(q, p, n);
    }
  }

  /** A row over one more noun is one more step. */
  lemma RowSnoc(pass: Pass, st: Progress, p: nat, ns: seq<nat>, j: nat)
    requires Ready(st, |st.s|) && p < |st.s| && InRange(ns, |st.s|) && 0 < j <= |ns|
    ensures Row(pass, st, p, ns[..j]) == Step(pass, Row(pass, st, p, ns[..j - 1]), p, ns[j - 1])
  {
    assert ns[..j][..j - 1] == ns[..j - 1];
  }

  lemma FirstLinkedSnoc(s: seq<Word>, p: nat, ns: seq<nat>, j: nat)
    requires AllHaveColumns(s) && p < |s| && InRange(ns, |s|) && 0 < j <= |ns|
    ensures var f := FirstLinked(s, p, ns[..j - 1]);
      FirstLinked(s, p, ns[..j]) == if f.Some? then f else if Links(s, p, ns[j - 1]) then Some(ns[j - 1]) else None
  {
    assert ns[..j][..j - 1] == ns[..j - 1];
  }

  /** The row of the first preposition that meets its noun: the first linked noun is
      recorded and becomes the head; the later pairs of the row are skipped. */
  lemma {:induction false} FirstPrepositionRow(st: Progress, p: nat, ns: seq<nat>, j: nat)
    requires Ready(st, |st.s|) && DistinctIds(st.s) && |st.heads| == 0 && |st.nouns| == 0
    requires p < |st.s| && InRange(ns, |st.s|) && p !in ns && j <= |ns|
    ensures FirstRowDone(st, Row(PrepositionPass, st, p, ns[..j]), p, FirstLinked(st.s, p, ns[..j]))
    decreases j
  {
    if j > 0 {
      var q := Row(PrepositionPass, st, p, ns[..j - 1]);
      var n := ns[j - 1];
      var f := FirstLinked(st.s, p, ns[..j - 1]);
      assert Row(PrepositionPass, st, p, ns[..j]) == PrepositionStep(q, p, n) by {
        RowSnoc(PrepositionPass, st, p, ns, j);
      }
      assert FirstLinked(st.s, p, ns[..j]) ==
        (if f.Some? then f else if Links(st.s, p, n) then Some(n) else None) by {
        FirstLinkedSnoc(st.s, p, ns, j);
      }
      assert FirstRowDone(st, q, p, f) by {
        FirstPrepositionRow(st, p, ns, j - 1);
      }
      assert p != n by {
        assert n in ns;
      }
      FirstRowNext(st, q, p, n, f);
    }
  }

  /** What a row of a later preposition has done after some of its pairs, `l` being
      the last fresh linked noun among them. */
  ghost predicate LaterRowDone(st: Progress, r: Progress, p: nat, l: Option<nat>)
    requires Ready(st, |st.s|) && Ready(r, |st.s|) && p < |st.s|
  {
    r.heads == st.heads && r.nouns == st.nouns &&
    (forall i :: 0 <= i < |st.s| && i != p ==> r.s[i] == st.s[i]) &&
    (l.None? ==> r.s == st.s) &&
    (l.Some? ==> HasHead(r.s[p], l.value))
  }

  lemma LaterRowNext(st: Progress, q: Progress, p: nat, n: nat, l: Option<nat>)
    requires Ready(st, |st.s|) && Ready(q, |st.s|) && SameIds(q.s, st.s) && DistinctIds(st.s)
    requires |st.heads| == 1 && |st.nouns| == 1 && p < |st.s| && n < |st.s| && p != n && p != st.heads[0]
    requires LaterRowDone(st, q, p, l)
    ensures LaterRowDone(st, PrepositionStep(q, p, n), p,
      if Links(st.s, p, n) && n != st.nouns[0] then Some(n) else l)
  {
    LinksKept(q.s, st.s, p, n);
    DistinctIdsKept(q.s, st.s);
    LaterPrepositionStep(q, p, n);
  }

  /** The row of a later preposition: each fresh linked noun overwrites its head, so
      the last one wins, and nothing is recorded. */
  lemma {:induction false} LaterPrepositionRow(st: Progress, p: nat, ns: seq<nat>, j: nat)
    requires Ready(st, |st.s|) && DistinctIds(st.s) && |st.heads| == 1 && |st.nouns| == 1
    requires p < |st.s| && p != st.heads[0] && InRange(ns, |st.s|) && p !in ns && j <= |ns|
    ensures LaterRowDone(st, Row(PrepositionPass, st, p, ns[..j]), p, LastFree(st.s, p, st.nouns[0], ns[..j]))
    decreases j
  {
    if j > 0 {
      var q := Row(PrepositionPass, st, p, ns[..j - 1]);
      var n := ns[j - 1];
      var l := LastFree(st.s, p, st.nouns[0], ns[..j - 1]);
      assert Row(PrepositionPass, st, p, ns[..j]) == PrepositionStep(q, p, n) by {
        assert ns[..j][..j - 1] == ns[..j - 1];
      }
      assert LastFree(st.s, p, st.nouns[0], ns[..j]) ==
        (if Links(st.s, p, n) && n != st.nouns[0] then Some(n) else l) by {
        assert ns[..j][..j - 1] == ns[..j - 1];
      }
      assert LaterRowDone(st, q, p, l) by {
        LaterPrepositionRow(st, p, ns, j - 1);
      }
      assert p != n by {
        assert n in ns;
      }
      LaterRowNext(st, q, p, n, l);
    }
  }

  lemma {:induction false} FirstLinkedKept(a: seq<Word>, b: seq<Word>, p: nat, ns: seq<nat>)
    requires AllHaveColumns(a) && AllHaveColumns(b) && SameIds(a, b) && p < |a| && InRange(ns, |a|)
    ensures FirstLinked(a, p, ns) == FirstLinked(b, p, ns)
    decreases |ns|
  {
    if |ns| > 0 {
      FirstLinkedKept(a, b, p, ns[..|ns| - 1]);
      LinksKept(a, b, p, ns[|ns| - 1]);
    }
  }

  lemma {:induction false} LastFreeKept(a: seq<Word>, b: seq<Word>, p: nat, taken: nat, ns: seq<nat>)
    requires AllHaveColumns(a) && AllHaveColumns(b) && SameIds(a, b) && p < |a| && InRange(ns, |a|)
    ensures LastFree(a, p, taken, ns) == LastFree(b, p, taken, ns)
    decreases |ns|
  {
    if |ns| > 0 {
      LastFreeKept(a, b, p, taken, ns[..|ns| - 1]);
      LinksKept(a, b, p, ns[|ns| - 1]);
    }
  }

  /** Words outside the prepositions of `ps[..i]` are as they were. */
  ghost predicate Untouched(s: seq<Word>, st: Progress, ps: seq<nat>, i: nat)
    requires Ready(st, |s|) && i <= |ps|
  {
    forall x :: 0 <= x < |s| && x !in ps[..i] ==> st.s[x] == s[x]
  }

  /** Nothing is recorded exactly when no preposition of `ps[..i]` meets a noun. */
  ghost predicate NoneYet(s: seq<Word>, st: Progress, ps: seq<nat>, ns: seq<nat>, i: nat)
    requires AllHaveColumns(s) && InRange(ps, |s|) && InRange(ns, |s|) && i <= |ps|
  {
    |st.heads| == 0 <==> forall a :: 0 <= a < i ==> FirstLinked(s, ps[a], ns).None?
  }

  /** The recorded pair is the first preposition that meets a noun, with its first
      linked noun as head. */
  ghost predicate FirstPair(s: seq<Word>, st: Progress, ps: seq<nat>, ns: seq<nat>, i: nat)
    requires AllHaveColumns(s) && Ready(st, |s|) && InRange(ps, |s|) && InRange(ns, |s|) && i <= |ps|
  {
    |st.heads| == |st.nouns| <= 1 &&
    (|st.heads| == 1 ==>
      && st.heads[0] in ps[..i]
      && FirstLinked(s, st.heads[0], ns) == Some(st.nouns[0])
      && HasHead(st.s[st.heads[0]], st.nouns[0])
      && (forall a :: 0 <= a < i && ps[a] < st.heads[0] ==> FirstLinked(s, ps[a], ns).None?))
  }

  /** Each preposition after the recorded one has the last linked noun other than the
      recorded one as head, or is as it was when there is none. */
  ghost predicate LastHeads(s: seq<Word>, st: Progress, ps: seq<nat>, ns: seq<nat>, i: nat)
    requires AllHaveColumns(s) && Ready(st, |s|) && InRange(ps, |s|) && InRange(ns, |s|) && i <= |ps|
  {
    |st.heads| == |st.nouns| && |st.heads| == 1 ==>
      forall a :: 0 <= a < i && ps[a] > st.heads[0] ==> LastHeadAt(s, st, ps[a], ns)
  }

  /** The preposition `p` has the last linked noun other than the recorded one as head,
      or is as it was when there is none. */
  ghost predicate LastHeadAt(s: seq<Word>, st: Progress, p: nat, ns: seq<nat>)
    requires AllHaveColumns(s) && Ready(st, |s|) && p < |s| && InRange(ns, |s|) && |st.nouns| == 1
  {
    var l := LastFree(s, p, st.nouns[0], ns);
    (l.None? ==> st.s[p] == s[p]) && (l.Some? ==> HasHead(st.s[p], l.value))
  }

  /** The state of the preposition pass after the rows of `ps[..i]`. At most one pair
      is ever recorded: the first preposition that shares its stressed unit with some
      noun, with the first such noun, which becomes its head. Prepositions before it
      meet no noun. Each preposition after it ends up with the LAST linked noun other
      than the recorded one as head, or is left as it was when there is none. Words
      that are not prepositions are unchanged. */
  ghost predicate PrepositionDone(s: seq<Word>, st: Progress, ps: seq<nat>, ns: seq<nat>, i: nat)
    requires AllHaveColumns(s) && Ready(st, |s|) && InRange(ps, |s|) && InRange(ns, |s|) && i <= |ps|
  {
    Untouched(s, st, ps, i) && NoneYet(s, st, ps, ns, i) && FirstPair(s, st, ps, ns, i) && LastHeads(s, st, ps, ns, i)
  }

  lemma UntouchedNext(s: seq<Word>, q: Progress, r: Progress, ps: seq<nat>, i: nat)
    requires Ready(q, |s|) && Ready(r, |s|) && i < |ps| && Untouched(s, q, ps, i)
    requires forall x :: 0 <= x < |s| && x != ps[i] ==> r.s[x] == q.s[x]
    ensures Untouched(s, r, ps, i + 1)
  {
    assert ps[..i + 1] == ps[..i] + [ps[i]];
  }

  /** The row of `ps[i]` while nothing is recorded yet. */
  lemma PrepositionProductFirst(s: seq<Word>, q: Progress, ps: seq<nat>, ns: seq<nat>, i: nat)
    requires AllHaveColumns(s) && DistinctIds(s) && Ready(q, |s|) && SameIds(q.s, s)
    requires InRange(ps, |s|) && InRange(ns, |s|) && Increasing(ps) && Disjoint(ps, ns) && i < |ps|
    requires PrepositionDone(s, q, ps, ns, i) && |q.heads| == 0 && |q.nouns| == 0
    ensures PrepositionDone(s, Row(PrepositionPass, q, ps[i], ns), ps, ns, i + 1)
  {
    var p := ps[i];
    var r := Row(PrepositionPass, q, p, ns);
    var f := FirstLinked(s, p, ns);
    assert FirstRowDone(q, r, p, f) by {
      assert p !in ns;
      DistinctIdsKept(q.s, s);
      FirstPrepositionRow(q, p, ns, |ns|);
      assert ns[..|ns|] == ns;
      FirstLinkedKept(q.s, s, p, ns);
    }
    UntouchedNext(s, q, r, ps, i);
    assert p in ps[..i + 1] && ps[..i + 1][i] == p;
    assert forall a :: 0 <= a < i ==> ps[a] < p;
    assert NoneYet(s, r, ps, ns, i + 1) by {
      if f.None? {
        assert r == q;
        forall a | 0 <= a < i + 1 ensures FirstLinked(s, ps[a], ns).None? {
          if a == i { assert ps[a] == p; }
        }
      } else {
        assert |r.heads| == 1 && FirstLinked(s, ps[i], ns).Some?;
      }
    }
    FirstPairNext(s, q, r, ps, ns, i, f);
    LastHeadsFirst(s, r, ps, ns, i);
  }

  /** Once the recorded preposition is the latest one, no later preposition is owed a head. */
  lemma LastHeadsFirst(s: seq<Word>, r: Progress, ps: seq<nat>, ns: seq<nat>, i: nat)
    requires AllHaveColumns(s) && Ready(r, |s|) && InRange(ps, |s|) && InRange(ns, |s|) && i < |ps|
    requires |r.heads| == 1 ==> r.heads[0] == ps[i]
    requires forall a :: 0 <= a < i ==> ps[a] < ps[i]
    ensures LastHeads(s, r, ps, ns, i + 1)
  {
  }

  lemma FirstPairNext(s: seq<Word>, q: Progress, r: Progress, ps: seq<nat>, ns: seq<nat>, i: nat, f: Option<nat>)
    requires AllHaveColumns(s) && Ready(q, |s|) && Ready(r, |s|) && InRange(ps, |s|) && InRange(ns, |s|) && i < |ps|
    requires |q.heads| == 0 && |q.nouns| == 0 && NoneYet(s, q, ps, ns, i)
    requires forall a :: 0 <= a < i ==> ps[a] < ps[i]
    requires f == FirstLinked(s, ps[i], ns) && FirstRowDone(q, r, ps[i], f)
    ensures FirstPair(s, r, ps, ns, i + 1)
  {
    if f.Some? {
      assert ps[..i + 1][i] == ps[i];
    }
  }

  /** The row of `ps[i]` once a pair is recorded. */
  lemma PrepositionProductLater(s: seq<Word>, q: Progress, ps: seq<nat>, ns: seq<nat>, i: nat)
    requires AllHaveColumns(s) && DistinctIds(s) && Ready(q, |s|) && SameIds(q.s, s)
    requires InRange(ps, |s|) && InRange(ns, |s|) && Increasing(ps) && Disjoint(ps, ns) && i < |ps|
    requires PrepositionDone(s, q, ps, ns, i) && |q.heads| == 1 && |q.nouns| == 1
    ensures PrepositionDone(s, Row(PrepositionPass, q, ps[i], ns), ps, ns, i + 1)
  {
    var p := ps[i];
    var r := Row(PrepositionPass, q, p, ns);
    var l := LastFree(s, p, q.nouns[0], ns);
    assert forall a :: 0 <= a < i ==> ps[a] < p;
    assert p > q.heads[0] by {
      var a :| 0 <= a < i && ps[a] == q.heads[0];
    }
    LaterRowOf(s, q, ps, ns, i);
    UntouchedNext(s, q, r, ps, i);
    RecordedKept(s, q, r, ps, ns, i);
    assert q.s[p] == s[p] by {
      assert p !in ps[..i];
    }
    LastHeadsNext(s, q, r, ps, ns, i, l);
  }

  /** The row of a preposition after the recorded one, with the nouns read off the
      original sentence. */
  lemma LaterRowOf(s: seq<Word>, q: Progress, ps: seq<nat>, ns: seq<nat>, i: nat)
    requires AllHaveColumns(s) && DistinctIds(s) && Ready(q, |s|) && SameIds(q.s, s)
    requires InRange(ps, |s|) && InRange(ns, |s|) && Disjoint(ps, ns) && i < |ps|
    requires |q.heads| == 1 && |q.nouns| == 1 && ps[i] != q.heads[0]
    ensures LaterRowDone(q, Row(PrepositionPass, q, ps[i], ns), ps[i], LastFree(s, ps[i], q.nouns[0], ns))
  {
    var p := ps[i];
    assert p !in ns;
    DistinctIdsKept(q.s, s);
    LaterPrepositionRow(q, p, ns, |ns|);
    assert ns[..|ns|] == ns;
    LastFreeKept(q.s, s, p, q.nouns[0], ns);
  }

  /** A row that leaves the recorded pair and its head alone keeps it the first pair. */
  lemma RecordedKept(s: seq<Word>, q: Progress, r: Progress, ps: seq<nat>, ns: seq<nat>, i: nat)
    requires AllHaveColumns(s) && Ready(q, |s|) && Ready(r, |s|) && InRange(ps, |s|) && InRange(ns, |s|) && i < |ps|
    requires NoneYet(s, q, ps, ns, i) && FirstPair(s, q, ps, ns, i) && |q.heads| == 1
    requires r.heads == q.heads && r.nouns == q.nouns && ps[i] > q.heads[0]
    requires r.s[q.heads[0]] == q.s[q.heads[0]]
    ensures NoneYet(s, r, ps, ns, i + 1) && FirstPair(s, r, ps, ns, i + 1)
  {
    assert q.heads[0] in ps[..i + 1] by {
      assert ps[..i] <= ps[..i + 1];
    }
    assert forall a :: 0 <= a < i + 1 && ps[a] < q.heads[0] ==> a < i;
  }

  lemma LastHeadAtSame(s: seq<Word>, q: Progress, r: Progress, p: nat, ns: seq<nat>)
    requires AllHaveColumns(s) && Ready(q, |s|) && Ready(r, |s|) && p < |s| && InRange(ns, |s|)
    requires |q.nouns| == 1 && r.nouns == q.nouns && r.s[p] == q.s[p] && LastHeadAt(s, q, p, ns)
    ensures LastHeadAt(s, r, p, ns)
  {
  }

  lemma LastHeadsNext(s: seq<Word>, q: Progress, r: Progress, ps: seq<nat>, ns: seq<nat>, i: nat, l: Option<nat>)
    requires AllHaveColumns(s) && Ready(q, |s|) && Ready(r, |s|) && InRange(ps, |s|) && InRange(ns, |s|) && i < |ps|
    requires |q.heads| == 1 && |q.nouns| == 1 && r.heads == q.heads && r.nouns == q.nouns
    requires LastHeads(s, q, ps, ns, i)
    requires forall a :: 0 <= a < i ==> ps[a] != ps[i]
    requires forall x :: 0 <= x < |s| && x != ps[i] ==> r.s[x] == q.s[x]
    requires l == LastFree(s, ps[i], q.nouns[0], ns)
    requires l.None? ==> r.s[ps[i]] == s[ps[i]]
    requires l.Some? ==> HasHead(r.s[ps[i]], l.value)
    ensures LastHeads(s, r, ps, ns, i + 1)
  {
    forall a | 0 <= a < i + 1 && ps[a] > r.heads[0] ensures LastHeadAt(s, r, ps[a], ns) {
      if a < i {
        var p := ps[a];
        assert p != ps[i] && p < |s|;
        assert r.s[p] == q.s[p];
        assert LastHeadAt(s, q, p, ns);
        LastHeadAtSame(s, q, r, p, ns);
      } else {
        assert a == i;
      }
    }
  }

  lemma {:induction false} PrepositionProduct(s: seq<Word>, ps: seq<nat>, ns: seq<nat>, i: nat)
    requires AllHaveColumns(s) && DistinctIds(s)
    requires InRange(ps, |s|) && InRange(ns, |s|) && Increasing(ps) && Disjoint(ps, ns) && i <= |ps|
    ensures PrepositionDone(s, Product(PrepositionPass, Start(s), ps[..i], ns), ps, ns, i)
    decreases i
  {
    if i > 0 {
      var q := Product(PrepositionPass, Start(s), ps[..i - 1], ns);
      var r := Row(PrepositionPass, q, ps[i - 1], ns);
      assert Product(PrepositionPass, Start(s), ps[..i], ns) == r by {
        assert ps[..i][..i - 1] == ps[..i - 1];
      }
      assert PrepositionDone(s, r, ps, ns, i) by {
        PrepositionProduct(s, ps, ns, i - 1);
        if |q.heads| == 0 {
          PrepositionProductFirst(s, q, ps, ns, i - 1);
        } else {
          PrepositionProductLater(s, q, ps, ns, i - 1);
        }
      }
    } else {
      assert Product(PrepositionPass, Start(s), ps[..0], ns) == Start(s);
    }
  }

  /** `head_of_preposition` records at most one pair, and its else-branch lets a later
      noun overwrite the head of every other preposition: the state above holds for all
      prepositions at the end. */
  lemma PrepositionHeads(s: seq<Word>, preps: seq<nat>, nouns: seq<nat>)
    requires AllHaveColumns(s) && DistinctIds(s)
    requires InRange(preps, |s|) && InRange(nouns, |s|) && Increasing(preps) && Disjoint(preps, nouns)
    ensures PrepositionDone(s, Product(PrepositionPass, Start(s), preps, nouns), preps, nouns, |preps|)
  {
    PrepositionProduct(s, preps, nouns, |preps|);
    assert preps[..|preps|] == preps;
  }

  /** `FirstLinked` finds a noun exactly when one is linked, and none before it is. */
  lemma {:induction false} FirstLinkedMeaning(s: seq<Word>, p: nat, ns: seq<nat>)
    requires AllHaveColumns(s) && p < |s| && InRange(ns, |s|)
    ensures FirstLinked(s, p, ns).None? <==> forall b :: 0 <= b < |ns| ==> !Links(s, p, ns[b])
    ensures FirstLinked(s, p, ns).Some? ==>
      exists b :: 0 <= b < |ns| && ns[b] == FirstLinked(s, p, ns).value && forall c :: 0 <= c < b ==> !Links(s, p, ns[c])
    decreases |ns|
  {
    if |ns| > 0 {
      var t := ns[..|ns| - 1];
      FirstLinkedMeaning(s, p, t);
      assert forall b :: 0 <= b < |t| ==> t[b] == ns[b];
      if FirstLinked(s, p, t).None? && Links(s, p, ns[|ns| - 1]) {
        assert ns[|ns| - 1] == FirstLinked(s, p, ns).value;
      }
    }
  }

  /** `LastFree` finds a noun exactly when one other than `taken` is linked, and none
      after it is. */
  lemma {:induction false} LastFreeMeaning(s: seq<Word>, p: nat, taken: nat, ns: seq<nat>)
    requires AllHaveColumns(s) && p < |s| && InRange(ns, |s|)
    ensures LastFree(s, p, taken, ns).None? <==> forall b :: 0 <= b < |ns| ==> !Links(s, p, ns[b]) || ns[b] == taken
    ensures LastFree(s, p, taken, ns).Some? ==>
      exists b :: 0 <= b < |ns| && ns[b] == LastFree(s, p, taken, ns).value &&
        forall c :: b < c < |ns| ==> !Links(s, p, ns[c]) || ns[c] == taken
    decreases |ns|
  {
    if |ns| > 0 {
      var t := ns[..|ns| - 1];
      var last := |ns| - 1;
      LastFreeMeaning(s, p, taken, t);
      assert forall b :: 0 <= b < |t| ==> t[b] == ns[b];
      if Links(s, p, ns[last]) && ns[last] != taken {
        assert ns[last] == LastFree(s, p, taken, ns).value;
      } else if LastFree(s, p, taken, t).Some? {
        var b :| 0 <= b < |t| && t[b] == LastFree(s, p, taken, t).value &&
          forall c :: b < c < |t| ==> !Links(s, p, t[c]) || t[c] == taken;
        assert ns[b] == LastFree(s, p, taken, ns).value;
        assert forall c :: b < c < |ns| ==> !Links(s, p, ns[c]) || ns[c] == taken;
      }
    }
  }

  /** For a sentence whose words have distinct ids, the two passes of `find_head_in`
      on the lists of `list_of_dets_and_nouns_in` do what the lemmas above say. */
  lemma HeadsOfFacts(s: seq<Word>)
    requires AllHaveColumns(s) && DistinctIds(s)
    ensures var dets, nouns, preps := Positions(s, Determiner), Positions(s, Nominal), Positions(s, Preposition);
      var a := Product(ArticlePass, Start(s), dets, nouns);
      && ArticleInv(s, a, dets, nouns)
      && (forall d, n :: d in dets && n in nouns && Links(s, d, n) ==> d in a.heads || n in a.nouns)
      && PrepositionDone(a.s, Product(PrepositionPass, Start(a.s), preps, nouns), preps, nouns, |preps|)
      && HeadsOf(s) == Product(PrepositionPass, Start(a.s), preps, nouns).s
  {
    var dets, nouns, preps := Positions(s, Determiner), Positions(s, Nominal), Positions(s, Preposition);
    var a := Product(ArticlePass, Start(s), dets, nouns);
    assert ArticleInv(s, a, dets, nouns) &&
      (forall d, n :: d in dets && n in nouns && Links(s, d, n) ==> d in a.heads || n in a.nouns) by {
      ArticleHeads(s, dets, nouns);
    }
    assert PrepositionDone(a.s, Product(PrepositionPass, Start(a.s), preps, nouns), preps, nouns, |preps|) by {
      DistinctIdsKept(a.s, s);
      RolesDisjoint(s, Preposition, Nominal);
      PrepositionHeads(a.s, preps, nouns);
    }
  }
}
