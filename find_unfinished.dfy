/** `find_unfinished_sentences.py`, an older copy of the tagging-completion checker. Its
    three functions are written out again here, loop by loop, and proved against the
    same specification functions as those of `unfinished_sentences.py` (module
    Unfinished): for the same input both files return the same values. */
module FindUnfinished {
  import opened Wrappers
  import opened Strings
  import opened Tokens
  import U = Unfinished

  /** `check_head_deprel`: the same real-word filter and the same 1 / 0 / no-entry rule. */
  method CheckHeadDeprel(sentence: seq<Token>) returns (done: seq<int>, len: nat)
    ensures done == U.Flags(U.RealWords(sentence))
    ensures len == |U.RealWords(sentence)|
  {
    var realwords: seq<Token> := [];
    for i := 0 to |sentence|
      invariant realwords == U.RealWords(sentence[..i])
    {
      assert sentence[..i + 1][..i] == sentence[..i];
      if sentence[i].id.Int? && !IsSubstring("PUNCT", sentence[i].upos) {
        realwords := realwords + [sentence[i]];
      }
    }
    assert sentence[..|sentence|] == sentence;
    done := [];
    for i := 0 to |realwords|
      invariant done == U.Flags(realwords[..i])
    {
      assert realwords[..i + 1][..i] == realwords[..i];
      var word := realwords[i];
      if word.head.Some? && word.deprel != Some("_") {
        done := done + [1];
      } else if word.head.None? && word.deprel != Some("_") {
        done := done + [0];
      } else if word.head.None? && word.deprel == Some("_") {
        done := done + [0];
      }
    }
    assert realwords[..|realwords|] == realwords;
    len := |realwords|;
  }

  /** `check_finished_sentences`: the partition by `all(done)`, in input order. */
  method CheckFinishedSentences(ss: seq<TokenList>)
      returns (finished: seq<(string, nat)>, unfinished: seq<(string, nat)>)
    requires U.AllHaveIds(ss)
    ensures finished == U.EntriesWhere(ss, true)
    ensures unfinished == U.EntriesWhere(ss, false)
  {
    finished, unfinished := [], [];
    for j := 0 to |ss|
      invariant finished == U.EntriesWhere(ss[..j], true)
      invariant unfinished == U.EntriesWhere(ss[..j], false)
    {
      assert ss[..j + 1][..j] == ss[..j];
      var done, lenSent := CheckHeadDeprel(ss[j].tokens);
      if U.AllDone(done) {
        finished := finished + [(ss[j].metadata["sent_id"], lenSent)];
      } else {
        unfinished := unfinished + [(ss[j].metadata["sent_id"], lenSent)];
      }
    }
    assert ss[..|ss|] == ss;
  }

  /** `organize_unfinished_sentences`: bucket `k` holds the entries of length `k + 1` in
      input order; `n` stands for the bucket count CPython's set order yields. */
  method OrganizeUnfinishedSentences(u: seq<(string, nat)>, n: nat)
      returns (r: Result<seq<seq<(string, nat)>>>)
    ensures r.Failure? <==> |u| == 0
    ensures r.Failure? ==> r.error == IndexError
    ensures r.Success? ==> |r.value| == n
    ensures r.Success? ==> forall k :: 0 <= k < n ==> r.value[k] == U.OfLength(u, k + 1)
  {
    if |u| == 0 {
      return Failure(IndexError);
    }
    var buckets: seq<seq<(string, nat)>> := seq(n, _ => []);
    for j := 0 to |u|
      invariant |buckets| == n
      invariant forall k :: 0 <= k < n ==> buckets[k] == U.OfLength(u[..j], k + 1)
    {
      assert u[..j + 1][..j] == u[..j];
      var e := u[j];
      assert (u[..j] + [e])[..j] == u[..j];
      ghost var before := buckets;
      for count := 0 to n
        invariant |buckets| == n
        invariant forall k :: 0 <= k < count ==> buckets[k] == U.OfLength(u[..j] + [e], k + 1)
        invariant forall k :: count <= k < n ==> buckets[k] == before[k]
      {
        if e.1 == count + 1 {
          buckets := buckets[count := buckets[count] + [e]];
        }
      }
      assert u[..j + 1] == u[..j] + [e];
    }
    assert u[..|u|] == u;
    r := Success(buckets);
  }
}
