/** The tagging-completion checker `unfinished_sentences.py`: which words of a parsed
    sentence still lack a head or a relation, which sentences are finished, and the
    unfinished ones grouped by their number of words. The sentences arrive already
    parsed (a list of TokenLists); the file reading and the interactive part are not
    modelled. The functions here are the specification that both this file and its copy
    `find_unfinished_sentences.py` (module FindUnfinished) are proved against. */
module Unfinished {
  import opened Wrappers
  import opened Strings
  import opened Tokens

  // ---------------------------------------------------------------------------------
  // check_head_deprel

  /** A "real" word: a word line (a multi-word token line has a tuple id, which fails
      `isinstance(word['id'], int)`) whose UPOS does not contain `PUNCT`. */
  predicate IsRealWord(t: Token)
  {
    t.id.Int? && !IsSubstring("PUNCT", t.upos)
  }

  /** `realwords`: the real words of a sentence, in sentence order. */
  function RealWords(s: seq<Token>): seq<Token>
  {
    if |s| == 0 then []
    else RealWords(s[..|s| - 1]) + if IsRealWord(s[|s| - 1]) then [s[|s| - 1]] else []
  }

  /** What one real word appends to `done`, branch by branch: 1 when the head is set and
      the relation is not `_`; 0 when the head is None, whatever the relation; nothing
      when the head is set and the relation is `_` (the source has no fourth branch). */
  function Flag(t: Token): seq<int>
  {
    if t.head.Some? && t.deprel != Some("_") then [1]
    else if t.head.None? && t.deprel != Some("_") then [0]
    else if t.head.None? && t.deprel == Some("_") then [0]
    else []
  }

  /** `done`: the flags of the real words, in order. */
  function Flags(ws: seq<Token>): seq<int>
  {
    if |ws| == 0 then [] else Flags(ws[..|ws| - 1]) + Flag(ws[|ws| - 1])
  }

  /** Python's `all(done)` on a list of integers: no entry is 0. */
  predicate AllDone(done: seq<int>)
  {
    forall i :: 0 <= i < |done| ==> done[i] != 0
  }

  /** `check_head_deprel(sentence)`: the done flags and the number of real words. */
  method CheckHeadDeprel(sentence: seq<Token>) returns (done: seq<int>, len: nat)
    ensures done == Flags(RealWords(sentence))
    ensures len == |RealWords(sentence)|
  {
    var realwords: seq<Token> := [];
    for i := 0 to |sentence|
      invariant realwords == RealWords(sentence[..i])
    {
      assert sentence[..i + 1][..i] == sentence[..i];
      if sentence[i].id.Int? && !IsSubstring("PUNCT", sentence[i].upos) {
        realwords := realwords + [sentence[i]];
      }
    }
    assert sentence[..|sentence|] == sentence;
    done := [];
    for i := 0 to |realwords|
      invariant done == Flags(realwords[..i])
    {
      assert realwords[..i + 1][..i] == realwords[..i];
      var word := realwords[i];
      if word.head.Some? && word.deprel != Some("_") {
        done := done + [1];
      } else if word.head.None? && word.deprel != Some("_") {
        done := done + [0];
      } else if word.head.None? && word.deprel == Some("_") {
        done := done + [0];
      }
    }
    assert realwords[..|realwords|] == realwords;
    len := |realwords|;
  }

  /** The real words are exactly the tokens with an integer id and no `PUNCT` in their
      UPOS, each as often as it occurs in the sentence; a range-id token is never one. */
  lemma {:induction false} RealWordsMeaning(s: seq<Token>, t: Token)
    ensures multiset(RealWords(s))[t] == if IsRealWord(t) then multiset(s)[t] else 0
    ensures t in RealWords(s) ==> t.id.Int?
  {
    if |s| > 0 {
      var p := s[..|s| - 1];
      RealWordsMeaning(p, t);
      assert s == p + [s[|s| - 1]];
    }
  }

  /** The real words with a head whose relation is still `_`: the ones the source adds no
      flag for. */
  function HeadOnly(ws: seq<Token>): nat
  {
    if |ws| == 0 then 0
    else
      HeadOnly(ws[..|ws| - 1])
        + (if ws[|ws| - 1].head.Some? && ws[|ws| - 1].deprel == Some("_") then 1 else 0)
  }

  /** The done flags: every flag is 0 or 1; there is a 1 exactly when some real word has a
      head and a relation other than `_`, a 0 exactly when some real word has no head,
      and no flag for a word with a head but relation `_`, so there are at most as many
      flags as real words. */
  lemma {:induction false} FlagsMeaning(ws: seq<Token>)
    ensures forall i :: 0 <= i < |Flags(ws)| ==> Flags(ws)[i] == 0 || Flags(ws)[i] == 1
    ensures |Flags(ws)| + HeadOnly(ws) == |ws|
    ensures 1 in Flags(ws) <==> exists i :: 0 <= i < |ws| && ws[i].head.Some? && ws[i].deprel != Some("_")
    ensures 0 in Flags(ws) <==> exists i :: 0 <= i < |ws| && ws[i].head.None?
  {
    if |ws| > 0 {
      var p := ws[..|ws| - 1];
      var w := ws[|ws| - 1];
      FlagsMeaning(p);
      assert Flags(ws) == Flags(p) + Flag(w);
      assert forall i :: 0 <= i < |p| ==> p[i] == ws[i];
      assert ws == p + [w];
    }
  }

  /** A sentence counts as finished exactly when every real word has a head: a word with
      a head but relation `_` adds no flag and so does not hold it back, and a sentence
      without real words is finished. */
  lemma FinishedMeaning(ws: seq<Token>)
    ensures AllDone(Flags(ws)) <==> forall i :: 0 <= i < |ws| ==> ws[i].head.Some?
  {
    FlagsMeaning(ws);
    if !AllDone(Flags(ws)) {
      var i :| 0 <= i < |Flags(ws)| && Flags(ws)[i] == 0;
      assert 0 in Flags(ws);
    }
  }

  // ---------------------------------------------------------------------------------
  // check_finished_sentences

  /** What a sentence contributes to one of the two lists: `(sent_id, len_sent)`. */
  function EntryOf(s: TokenList): (string, nat)
    requires "sent_id" in s.metadata
  {
    (s.metadata["sent_id"], |RealWords(s.tokens)|)
  }

  predicate IsFinished(s: TokenList)
  {
    AllDone(Flags(RealWords(s.tokens)))
  }

  /** `sentence.metadata['sent_id']` raises KeyError for a sentence without an id. */
  predicate AllHaveIds(ss: seq<TokenList>)
  {
    forall j :: 0 <= j < |ss| ==> "sent_id" in ss[j].metadata
  }

  /** The entries of the sentences whose finishedness is `fin`, in input order. */
  function EntriesWhere(ss: seq<TokenList>, fin: bool): seq<(string, nat)>
    requires AllHaveIds(ss)
  {
    if |ss| == 0 then []
    else
      EntriesWhere(ss[..|ss| - 1], fin)
        + if IsFinished(ss[|ss| - 1]) == fin then [EntryOf(ss[|ss| - 1])] else []
  }

  /** `check_finished_sentences`, over the already-parsed sentence list. */
  method CheckFinishedSentences(ss: seq<TokenList>)
      returns (finished: seq<(string, nat)>, unfinished: seq<(string, nat)>)
    requires AllHaveIds(ss)
    ensures finished == EntriesWhere(ss, true)
    ensures unfinished == EntriesWhere(ss, false)
  {
    finished, unfinished := [], [];
    for j := 0 to |ss|
      invariant finished == EntriesWhere(ss[..j], true)
      invariant unfinished == EntriesWhere(ss[..j], false)
    {
      assert ss[..j + 1][..j] == ss[..j];
      var done, lenSent := CheckHeadDeprel(ss[j].tokens);
      if AllDone(done) {
        finished := finished + [(ss[j].metadata["sent_id"], lenSent)];
      } else {
        unfinished := unfinished + [(ss[j].metadata["sent_id"], lenSent)];
      }
    }
    assert ss[..|ss|] == ss;
  }

  /** The entries of all sentences, in input order. */
  function Entries(ss: seq<TokenList>): seq<(string, nat)>
    requires AllHaveIds(ss)
  {
    if |ss| == 0 then [] else Entries(ss[..|ss| - 1]) + [EntryOf(ss[|ss| - 1])]
  }

  /** Every sentence lands in exactly one of the two lists: together they hold each
      sentence's entry once. */
  lemma {:induction false} PartitionMeaning(ss: seq<TokenList>)
    requires AllHaveIds(ss)
    ensures multiset(EntriesWhere(ss, true)) + multiset(EntriesWhere(ss, false)) == multiset(Entries(ss))
    ensures |EntriesWhere(ss, true)| + |EntriesWhere(ss, false)| == |ss|
  {
    if |ss| > 0 {
      var p := ss[..|ss| - 1];
      var last := ss[|ss| - 1];
      assert AllHaveIds(p);
      PartitionMeaning(p);
      assert Entries(ss) == Entries(p) + [EntryOf(last)];
      if IsFinished(last) {
        assert EntriesWhere(ss, true) == EntriesWhere(p, true) + [EntryOf(last)];
        assert EntriesWhere(ss, false) == EntriesWhere(p, false);
      } else {
        assert EntriesWhere(ss, true) == EntriesWhere(p, true);
        assert EntriesWhere(ss, false) == EntriesWhere(p, false) + [EntryOf(last)];
      }
    }
  }

  /** Sentence `s` is filed as `x` in the list for `fin`. */
  predicate FiledAs(s: TokenList, fin: bool, x: (string, nat))
  {
    "sent_id" in s.metadata && IsFinished(s) == fin && EntryOf(s) == x
  }

  /** The last sentence adds at most its own entry to the list for `fin`. */
  lemma WhereStep(ss: seq<TokenList>, fin: bool, x: (string, nat))
    requires AllHaveIds(ss) && |ss| > 0
    ensures AllHaveIds(ss[..|ss| - 1])
    ensures x in EntriesWhere(ss, fin)
      <==> (x in EntriesWhere(ss[..|ss| - 1], fin) || FiledAs(ss[|ss| - 1], fin, x))
  {
    var p := ss[..|ss| - 1];
    var last := ss[|ss| - 1];
    assert AllHaveIds(p);
    assert EntriesWhere(ss, fin)
      == EntriesWhere(p, fin) + if IsFinished(last) == fin then [EntryOf(last)] else [];
  }

  /** Some sentence of `ss` is filed as `x` in the list for `fin`. */
  predicate FiledIn(ss: seq<TokenList>, fin: bool, x: (string, nat))
  {
    exists j :: 0 <= j < |ss| && FiledAs(ss[j], fin, x)
  }

  /** Some sentence of `ss` is filed as `x` exactly when one of all but the last is, or
      the last is. */
  lemma FiledStep(ss: seq<TokenList>, fin: bool, x: (string, nat))
    requires |ss| > 0
    ensures FiledIn(ss, fin, x) <==> (FiledIn(ss[..|ss| - 1], fin, x) || FiledAs(ss[|ss| - 1], fin, x))
  {
    var p := ss[..|ss| - 1];
    if FiledIn(ss, fin, x) {
      var j :| 0 <= j < |ss| && FiledAs(ss[j], fin, x);
      if j < |p| {
        assert p[j] == ss[j];
      }
    }
    if FiledIn(p, fin, x) {
      var j :| 0 <= j < |p| && FiledAs(p[j], fin, x);
      assert p[j] == ss[j];
    }
  }

  /** A sentence's entry is in the finished list exactly when it is finished (all done
      flags 1), and in the unfinished list otherwise; nothing else is in either. */
  lemma {:induction false} WhereSound(ss: seq<TokenList>, fin: bool, x: (string, nat))
    requires AllHaveIds(ss)
    ensures x in EntriesWhere(ss, fin) <==> exists j :: 0 <= j < |ss| && FiledAs(ss[j], fin, x)
  {
    if |ss| > 0 {
      WhereStep(ss, fin, x);
      WhereSound(ss[..|ss| - 1], fin, x);
      FiledStep(ss, fin, x);
    }
  }

  // ---------------------------------------------------------------------------------
  // organize_unfinished_sentences

  /** The entries whose length is `len`, in input order. */
  function OfLength(u: seq<(string, nat)>, len: nat): seq<(string, nat)>
  {
    if |u| == 0 then []
    else OfLength(u[..|u| - 1], len) + if u[|u| - 1].1 == len then [u[|u| - 1]] else []
  }

  /** `organize_unfinished_sentences`. The number of buckets is the last element of
      `list({sentence[1] for sentence in unfinished_sentences})`, which depends on how
      CPython lays out the set; it is the parameter `n`. On an empty list `[-1]` raises
      IndexError. Bucket `k` receives, in input order, the entries of length `k + 1`. */
  method OrganizeUnfinishedSentences(u: seq<(string, nat)>, n: nat)
      returns (r: Result<seq<seq<(string, nat)>>>)
    ensures r.Failure? <==> |u| == 0
    ensures r.Failure? ==> r.error == IndexError
    ensures r.Success? ==> |r.value| == n
    ensures r.Success? ==> forall k :: 0 <= k < n ==> r.value[k] == OfLength(u, k + 1)
  {
    if |u| == 0 {
      return Failure(IndexError);
    }
    var buckets: seq<seq<(string, nat)>> := seq(n, _ => []);
    for j := 0 to |u|
      invariant |buckets| == n
      invariant forall k :: 0 <= k < n ==> buckets[k] == OfLength(u[..j], k + 1)
    {
      assert u[..j + 1][..j] == u[..j];
      buckets := Distribute(buckets, u[j], u[..j]);
    }
    assert u[..|u|] == u;
    r := Success(buckets);
  }

  /** The inner loop `for count, li in enumerate(list_of_sentence_lengths)`: the entry is
      appended to every bucket whose number `count + 1` equals its length. */
  method Distribute(b: seq<seq<(string, nat)>>, e: (string, nat), ghost done: seq<(string, nat)>)
      returns (r: seq<seq<(string, nat)>>)
    requires forall k :: 0 <= k < |b| ==> b[k] == OfLength(done, k + 1)
    ensures |r| == |b|
    ensures forall k :: 0 <= k < |b| ==> r[k] == OfLength(done + [e], k + 1)
  {
    r := b;
    assert (done + [e])[..|done|] == done;
    for count := 0 to |b|
      invariant |r| == |b|
      invariant forall k :: 0 <= k < count ==> r[k] == OfLength(done + [e], k + 1)
      invariant forall k :: count <= k < |b| ==> r[k] == b[k]
    {
      if e.1 == count + 1 {
        r := r[count := r[count] + [e]];
      }
    }
  }

  /** A bucket holds exactly the entries of its length; an entry of length 0 or above the
      bucket count is therefore in no bucket. */
  lemma {:induction false} OfLengthMeaning(u: seq<(string, nat)>, len: nat)
    ensures forall x :: x in OfLength(u, len) <==> x in u && x.1 == len
    ensures |OfLength(u, len)| <= |u|
  {
    if |u| > 0 {
      OfLengthMeaning(u[..|u| - 1], len);
      assert u == u[..|u| - 1] + [u[|u| - 1]];
    }
  }
}
