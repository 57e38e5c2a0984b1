/** The CSV stage's word: a dict from column name to cell, as built by `dict(zip(...))`.
    Python compares dicts by value, so `list.remove(w)`, `list.index(w)` and `w in list`
    are modelled on values. */
module Words {
  import opened Wrappers

  type Word = map<string, string>

  const POS := "Part_Of_Speech"
  const LEMMA := "Lemma"
  const SU := "Stressed_Unit"
  const MORPH := "Morph"
  const ANALYSIS := "Analysis"

  /** The columns the relation passes read. */
  predicate HasColumns(w: Word)
  {
    POS in w && LEMMA in w && SU in w && MORPH in w && ANALYSIS in w
  }

  predicate AllHaveColumns(s: seq<Word>)
  {
    forall i :: 0 <= i < |s| ==> HasColumns(s[i])
  }

  /** `w['Analysis'] = w['Analysis'] + suffix`. */
  function AppendAnalysis(w: Word, suffix: string): (r: Word)
    requires HasColumns(w)
    ensures HasColumns(r) && r[ANALYSIS] == w[ANALYSIS] + suffix && FixedOf(r) == FixedOf(w)
  {
    w[ANALYSIS := w[ANALYSIS] + suffix]
  }

  /** Two appends are one append of the concatenated suffixes. */
  lemma AppendAnalysisTwice(w: Word, a: string, b: string)
    requires HasColumns(w)
    ensures AppendAnalysis(AppendAnalysis(w, a), b) == AppendAnalysis(w, a + b)
  {
    assert w[ANALYSIS] + a + b == w[ANALYSIS] + (a + b);
  }

  lemma AppendAnalysisEmpty(w: Word)
    requires HasColumns(w)
    ensures AppendAnalysis(w, "") == w
  {
    assert w[ANALYSIS] + "" == w[ANALYSIS];
  }

  /** The fields that the relation passes read but never write. */
  datatype Fixed = Fixed(su: string, morph: string, lem: string, pos: string)

  function FixedOf(w: Word): Fixed
    requires HasColumns(w)
  {
    Fixed(w[SU], w[MORPH], w[LEMMA], w[POS])
  }

  /** `r` is a subsequence of `s`: `s` with some elements deleted, the rest in order. */
  predicate IsSubsequence<T(==)>(r: seq<T>, s: seq<T>)
    decreases |s|
  {
    |r| == 0 || (|s| > 0 && ((r[0] == s[0] && IsSubsequence(r[1..], s[1..])) || IsSubsequence(r, s[1..])))
  }

  lemma {:induction false} SubsequenceRefl<T>(s: seq<T>)
    ensures IsSubsequence(s, s)
    decreases |s|
  {
    if |s| > 0 {
      SubsequenceRefl(s[1..]);
    }
  }

  lemma {:induction false} SubsequenceTrans<T>(a: seq<T>, b: seq<T>, c: seq<T>)
    requires IsSubsequence(a, b) && IsSubsequence(b, c)
    ensures IsSubsequence(a, c)
    decreases |c|
  {
    if |a| > 0 {
      if b[0] == c[0] && IsSubsequence(b[1..], c[1..]) {
        if a[0] == b[0] && IsSubsequence(a[1..], b[1..]) {
          SubsequenceTrans(a[1..], b[1..], c[1..]);
        } else {
          SubsequenceTrans(a, b[1..], c[1..]);
        }
      } else {
        SubsequenceTrans(a, b, c[1..]);
      }
    }
  }

  /** Deleting one element leaves a subsequence. */
  lemma {:induction false} DeleteIsSubsequence<T>(s: seq<T>, i: nat)
    requires i < |s|
    ensures IsSubsequence(s[..i] + s[i + 1..], s)
    decreases i
  {
    if i == 0 {
      assert s[..0] + s[1..] == s[1..];
      SubsequenceRefl(s[1..]);
    } else {
      var r := s[..i] + s[i + 1..];
      assert r[0] == s[0];
      assert r[1..] == s[1..][..i - 1] + s[1..][i..];
      DeleteIsSubsequence(s[1..], i - 1);
    }
  }

  /** The position of the first element equal to `x`. */
  function FirstIndex<T(==)>(s: seq<T>, x: T): (i: nat)
    requires x in s
    ensures i < |s| && s[i] == x && x !in s[..i]
  {
    if s[0] == x then 0 else 1 + FirstIndex(s[1..], x)
  }

  /** `list.remove(x)`: the first element equal to `x` is deleted; ValueError when
      there is none. */
  function RemoveFirst<T(==)>(s: seq<T>, x: T): (r: Result<seq<T>>)
    ensures r.Success? <==> x in s
    ensures r.Failure? ==> r.error == ValueError
  {
    if x in s then
      var i := FirstIndex(s, x);
      Success(s[..i] + s[i + 1..])
    else Failure(ValueError)
  }

  lemma RemoveFirstFacts<T>(s: seq<T>, x: T)
    requires x in s
    ensures RemoveFirst(s, x).Success?
    ensures multiset(RemoveFirst(s, x).value) == multiset(s) - multiset{x}
    ensures IsSubsequence(RemoveFirst(s, x).value, s)
  {
    var i := FirstIndex(s, x);
    assert s == s[..i] + [s[i]] + s[i + 1..];
    assert multiset(s) == multiset(s[..i]) + multiset{x} + multiset(s[i + 1..]);
    DeleteIsSubsequence(s, i);
  }

  /** Removing the elements of `xs` one after another, as a loop of `list.remove` does. */
  function RemoveAll<T(==)>(s: seq<T>, xs: seq<T>): Result<seq<T>>
    decreases |xs|
  {
    if |xs| == 0 then Success(s)
    else match RemoveFirst(s, xs[0])
      case Failure(e) => Failure(e)
      case Success(t) => RemoveAll(t, xs[1..])
  }

  lemma {:induction false} RemoveAllAppend<T>(s: seq<T>, xs: seq<T>, ys: seq<T>)
    ensures RemoveAll(s, xs + ys) ==
      match RemoveAll(s, xs) case Failure(e) => Failure(e) case Success(t) => RemoveAll(t, ys)
    decreases |xs|
  {
    if |xs| == 0 {
      assert xs + ys == ys;
    } else {
      assert (xs + ys)[0] == xs[0];
      assert (xs + ys)[1..] == xs[1..] + ys;
      match RemoveFirst(s, xs[0])
      case Failure(e) =>
      case Success(t) => RemoveAllAppend(t, xs[1..], ys);
    }
  }

  lemma SubMultisetShift<T>(a: multiset<T>, b: multiset<T>, x: T)
    requires x in b
    ensures (a <= b - multiset{x}) <==> (multiset{x} + a <= b)
  {
  }

  /** Removing a list of values succeeds exactly when every value is present as often as
      it is removed; ValueError is the only failure. */
  lemma {:induction false} RemoveAllSucceeds<T>(s: seq<T>, xs: seq<T>)
    ensures RemoveAll(s, xs).Success? <==> multiset(xs) <= multiset(s)
    ensures RemoveAll(s, xs).Failure? ==> RemoveAll(s, xs).error == ValueError
    decreases |xs|
  {
    if |xs| > 0 {
      var x := xs[0];
      assert xs == [x] + xs[1..];
      assert multiset(xs) == multiset{x} + multiset(xs[1..]);
      if x in s {
        RemoveFirstFacts(s, x);
        var t := RemoveFirst(s, x).value;
        RemoveAllSucceeds(t, xs[1..]);
        SubMultisetShift(multiset(xs[1..]), multiset(s), x);
      } else {
        assert multiset(s)[x] == 0;
        assert multiset(xs)[x] > 0;
      }
    }
  }

  /** What remains after removing a list of values is the multiset difference, in the
      original relative order. */
  lemma {:induction false} RemoveAllContents<T>(s: seq<T>, xs: seq<T>)
    requires RemoveAll(s, xs).Success?
    ensures multiset(RemoveAll(s, xs).value) == multiset(s) - multiset(xs)
    ensures IsSubsequence(RemoveAll(s, xs).value, s)
    decreases |xs|
  {
    if |xs| == 0 {
      SubsequenceRefl(s);
    } else {
      var x := xs[0];
      assert xs == [x] + xs[1..];
      assert multiset(xs) == multiset{x} + multiset(xs[1..]);
      RemoveFirstFacts(s, x);
      var t := RemoveFirst(s, x).value;
      RemoveAllContents(t, xs[1..]);
      SubsequenceTrans(RemoveAll(t, xs[1..]).value, t, s);
    }
  }

  /** `p` is a prefix of `q` (as sequences of any kind). */
  predicate IsSeqPrefix<T(==)>(p: seq<T>, q: seq<T>)
  {
    |p| <= |q| && q[..|p|] == p
  }

  /** Once a removal loop has failed, later removals do not matter. */
  lemma RemoveAllFailureExtends<T>(s: seq<T>, p: seq<T>, q: seq<T>)
    requires IsSeqPrefix(p, q) && RemoveAll(s, p).Failure?
    ensures RemoveAll(s, q) == RemoveAll(s, p)
  {
    assert q == p + q[|p|..];
    RemoveAllAppend(s, p, q[|p|..]);
  }
}
