/** The morph-to-word span finder `check_concatenations`: it strips every character
    outside `[0-9a-zA-Z]` from the words and the morphs of a sentence, then walks the
    morphs left to right, accumulating them until the accumulation equals the current
    word, and reports each word that took two or more morphs. */
module Concatenations {
  import opened Wrappers

  /** The characters the regular expression `[^0-9a-zA-Z]+` keeps. */
  predicate IsAlnum(c: char)
  {
    ('0' <= c <= '9') || ('a' <= c <= 'z') || ('A' <= c <= 'Z')
  }

  /** `re.sub("[^0-9a-zA-Z]+", '', x)`: every other character is deleted, accented
      letters and the middle dot included; case is kept. */
  function Normalize(x: string): (r: string)
    ensures |r| <= |x|
  {
    if |x| == 0 then ""
    else if IsAlnum(x[0]) then [x[0]] + Normalize(x[1..])
    else Normalize(x[1..])
  }

  /** Normalising keeps exactly the alphanumeric characters. */
  lemma {:induction false} NormalizeChars(x: string)
    ensures forall c :: c in Normalize(x) <==> c in x && IsAlnum(c)
  {
    if |x| > 0 {
      NormalizeChars(x[1..]);
      assert x == [x[0]] + x[1..];
    }
  }

  /** A string that is already alphanumeric is left as it is, so normalising twice is
      normalising once. */
  lemma {:induction false} NormalizeAlnum(x: string)
    requires forall i :: 0 <= i < |x| ==> IsAlnum(x[i])
    ensures Normalize(x) == x
  {
    if |x| > 0 {
      NormalizeAlnum(x[1..]);
    }
  }

  lemma NormalizeIdempotent(x: string)
    ensures Normalize(Normalize(x)) == Normalize(x)
  {
    var r := Normalize(x);
    NormalizeChars(x);
    assert forall i :: 0 <= i < |r| ==> IsAlnum(r[i]) by {
      forall i | 0 <= i < |r| ensures IsAlnum(r[i]) { assert r[i] in r; }
    }
    NormalizeAlnum(r);
  }

  /** The list comprehensions `[re.sub(...) for x in list]`. */
  function NormalizeAll(xs: seq<string>): (r: seq<string>)
    ensures |r| == |xs| && forall i :: 0 <= i < |xs| ==> r[i] == Normalize(xs[i])
  {
    seq(|xs|, i requires 0 <= i < |xs| => Normalize(xs[i]))
  }

  /** The morphs joined together. */
  function Concat(ms: seq<string>): string
  {
    if |ms| == 0 then "" else Concat(ms[..|ms| - 1]) + ms[|ms| - 1]
  }

  lemma ConcatSnoc(ms: seq<string>, m: string)
    ensures Concat(ms + [m]) == Concat(ms) + m
  {
    assert (ms + [m])[..|ms|] == ms;
  }

  /** Joining splits at any point. */
  lemma {:induction false} ConcatSplit(ms: seq<string>, i: nat)
    requires i <= |ms|
    ensures Concat(ms) == Concat(ms[..i]) + Concat(ms[i..])
    decreases |ms|
  {
    if i < |ms| {
      var n := |ms| - 1;
      var head, tail := ms[..i], ms[i..n];
      ConcatSplit(ms[..n], i);
      assert ms[..n][..i] == head && ms[..n][i..] == tail;
      assert ms[i..][..|ms[i..]| - 1] == tail;
      calc {
        Concat(ms);
        Concat(ms[..n]) + ms[n];
        (Concat(head) + Concat(tail)) + ms[n];
        Concat(head) + (Concat(tail) + ms[n]);
        Concat(head) + Concat(ms[i..]);
      }
    } else {
      assert ms[..i] == ms;
    }
  }

  /** One emitted triple `(t, i, j)`: word `t` (counted from 0) is spelled by the morphs
      `i` to `j` (counted from 1, both included). */
  datatype Span = Span(word: nat, first: nat, last: nat)

  /** The loop variables `word_y`, `morph_y`, `accumulated` and `tij`. */
  datatype Scan = Scan(word: nat, start: nat, acc: string, found: seq<Span>)

  /** One pass of the loop body for morph `j`; reading `words[word_y]` past the last
      word raises IndexError. */
  function Step(ws: seq<string>, st: Scan, m: string, j: nat): Result<Scan>
  {
    if st.word >= |ws| then Failure(IndexError)
    else
      var acc := st.acc + m;
      if acc == ws[st.word] then
        var found := if st.start != j then st.found + [Span(st.word, st.start + 1, j + 1)] else st.found;
        Success(Scan(st.word + 1, j + 1, "", found))
      else
        Success(st.(acc := acc))
  }

  /** The loop after its first `n` morphs. */
  function ScanFrom(ws: seq<string>, ms: seq<string>, n: nat): Result<Scan>
    requires n <= |ms|
  {
    if n == 0 then Success(Scan(0, 0, "", []))
    else
      match ScanFrom(ws, ms, n - 1)
      case Failure(e) => Failure(e)
      case Success(st) => Step(ws, st, ms[n - 1], n - 1)
  }

  /** What `check_concatenations` returns for the normalised lists. */
  function Spans(ws: seq<string>, ms: seq<string>): Result<seq<Span>>
  {
    match ScanFrom(ws, ms, |ms|)
    case Failure(e) => Failure(e)
    case Success(st) => Success(st.found)
  }

  method CheckConcatenations(listOfWords: seq<string>, listOfMorphs: seq<string>)
    returns (r: Result<seq<Span>>)
    ensures r == Spans(NormalizeAll(listOfWords), NormalizeAll(listOfMorphs))
  {
    var words := NormalizeAll(listOfWords);
    var morphs := NormalizeAll(listOfMorphs);
    var wordY := 0;
    var morphY := 0;
    var tij := [];
    var accumulated := "";
    for j := 0 to |morphs|
      invariant ScanFrom(words, morphs, j) == Success(Scan(wordY, morphY, accumulated, tij))
    {
      ghost var st := Scan(wordY, morphY, accumulated, tij);
      assert ScanFrom(words, morphs, j + 1) == Step(words, st, morphs[j], j);
      if wordY >= |words| {
        FailureSticks(words, morphs, j + 1, |morphs|);
        return Failure(IndexError);
      }
      accumulated := accumulated + morphs[j];
      if accumulated == words[wordY] {
        if morphY != j {
          tij := tij + [Span(wordY, morphY + 1, j + 1)];
        }
        morphY := j + 1;
        accumulated := "";
        wordY := wordY + 1;
        assert Step(words, st, morphs[j], j) == Success(Scan(wordY, morphY, accumulated, tij));
      } else {
        StepNoMatch(words, st, morphs[j], j);
      }
    }
    return Success(tij);
  }

  /** A morph that does not complete the current word only grows the accumulator. */
  lemma StepNoMatch(ws: seq<string>, st: Scan, m: string, j: nat)
    requires st.word < |ws| && st.acc + m != ws[st.word]
    ensures Step(ws, st, m, j) == Success(Scan(st.word, st.start, st.acc + m, st.found))
  {
  }

  /** Once the scan has failed it stays failed. */
  lemma {:induction false} FailureSticks(ws: seq<string>, ms: seq<string>, k: nat, n: nat)
    requires k <= n <= |ms| && ScanFrom(ws, ms, k).Failure?
    ensures ScanFrom(ws, ms, n) == Failure(IndexError)
    decreases n - k
  {
    if k < n {
      FailureSticks(ws, ms, k + 1, n);
    } else if k > 0 {
      match ScanFrom(ws, ms, k - 1)
      case Failure(e) =>
        FailureIsIndex(ws, ms, k - 1);
      case Success(st) =>
    }
  }

  /** The only error is IndexError. */
  lemma {:induction false} FailureIsIndex(ws: seq<string>, ms: seq<string>, n: nat)
    requires n <= |ms| && ScanFrom(ws, ms, n).Failure?
    ensures ScanFrom(ws, ms, n) == Failure(IndexError)
  {
    if n > 0 && ScanFrom(ws, ms, n - 1).Failure? {
      FailureIsIndex(ws, ms, n - 1);
    }
  }

  /** A triple names two or more morphs whose concatenation is its word. */
  ghost predicate SpanOk(ws: seq<string>, ms: seq<string>, sp: Span)
  {
    && 1 <= sp.first < sp.last <= |ms|
    && sp.word < |ws|
    && Concat(ms[sp.first - 1..sp.last]) == ws[sp.word]
  }

  /** Triples grow strictly in the word and their morph ranges are disjoint and in order. */
  ghost predicate Increasing(found: seq<Span>)
  {
    forall k :: 0 <= k < |found| - 1 ==>
      found[k].word < found[k + 1].word && found[k].last < found[k + 1].first
  }

  /** What holds after every morph that the scan takes without failing:
      the morphs before `start` spell exactly the words before `word`;
      `acc` is the concatenation of the morphs since `start`; that concatenation has
      not equalled the current word at any morph since `start` (the match is the
      earliest); and the triples are sound and ordered, and lie before `word` and `start`. */
  ghost predicate Sound(ws: seq<string>, ms: seq<string>, n: nat, st: Scan)
  {
    && st.start <= n <= |ms|
    && st.word <= |ws|
    && st.acc == Concat(ms[st.start..n])
    && Concat(ms[..st.start]) == Concat(ws[..st.word])
    && (st.word < |ws| ==> forall k :: st.start < k <= n ==> Concat(ms[st.start..k]) != ws[st.word])
    && (forall k :: 0 <= k < |st.found| ==>
          SpanOk(ws, ms, st.found[k]) && st.found[k].word < st.word && st.found[k].last <= st.start)
    && Increasing(st.found)
  }

  lemma SoundStart(ws: seq<string>, ms: seq<string>)
    ensures Sound(ws, ms, 0, Scan(0, 0, "", []))
  {
  }

  /** The accumulator after one more morph. */
  lemma AccStep(ms: seq<string>, start: nat, n: nat)
    requires start <= n < |ms|
    ensures Concat(ms[start..n + 1]) == Concat(ms[start..n]) + ms[n]
  {
    assert ms[start..n + 1] == ms[start..n] + [ms[n]];
    ConcatSnoc(ms[start..n], ms[n]);
  }

  /** A match extends the spelled prefix by one word. */
  lemma PrefixStep(ws: seq<string>, ms: seq<string>, st: Scan, n: nat)
    requires st.start <= n < |ms| && st.word < |ws|
    requires Concat(ms[..st.start]) == Concat(ws[..st.word])
    requires Concat(ms[st.start..n + 1]) == ws[st.word]
    ensures Concat(ms[..n + 1]) == Concat(ws[..st.word + 1])
  {
    ConcatSplit(ms[..n + 1], st.start);
    assert ms[..n + 1][..st.start] == ms[..st.start];
    assert ms[..n + 1][st.start..] == ms[st.start..n + 1];
    assert ws[..st.word + 1] == ws[..st.word] + [ws[st.word]];
    ConcatSnoc(ws[..st.word], ws[st.word]);
  }

  /** The triples after a match. */
  lemma FoundStep(ws: seq<string>, ms: seq<string>, st: Scan, n: nat, found: seq<Span>)
    requires st.start <= n < |ms| && st.word < |ws|
    requires Concat(ms[st.start..n + 1]) == ws[st.word]
    requires forall k :: 0 <= k < |st.found| ==>
      SpanOk(ws, ms, st.found[k]) && st.found[k].word < st.word && st.found[k].last <= st.start
    requires Increasing(st.found)
    requires found == if st.start != n then st.found + [Span(st.word, st.start + 1, n + 1)] else st.found
    ensures forall k :: 0 <= k < |found| ==>
      SpanOk(ws, ms, found[k]) && found[k].word < st.word + 1 && found[k].last <= n + 1
    ensures Increasing(found)
  {
    if st.start != n {
      var sp := Span(st.word, st.start + 1, n + 1);
      assert ms[sp.first - 1..sp.last] == ms[st.start..n + 1];
      assert SpanOk(ws, ms, sp);
      forall k | 0 <= k < |found|
        ensures SpanOk(ws, ms, found[k]) && found[k].word < st.word + 1 && found[k].last <= n + 1
      {
        if k < |st.found| {
          assert found[k] == st.found[k];
        }
      }
      forall k | 0 <= k < |found| - 1
        ensures found[k].word < found[k + 1].word && found[k].last < found[k + 1].first
      {
        assert found[k] == st.found[k];
        if k + 1 < |st.found| {
          assert found[k + 1] == st.found[k + 1];
        }
      }
    }
  }

  /** A morph that does not complete the current word keeps the scan sound. */
  lemma SoundNoMatch(ws: seq<string>, ms: seq<string>, n: nat, st: Scan)
    requires n < |ms| && Sound(ws, ms, n, st) && st.word < |ws| && st.acc + ms[n] != ws[st.word]
    ensures Sound(ws, ms, n + 1, Scan(st.word, st.start, st.acc + ms[n], st.found))
  {
    AccStep(ms, st.start, n);
  }

  /** A morph that completes the current word keeps the scan sound. */
  lemma SoundMatch(ws: seq<string>, ms: seq<string>, n: nat, st: Scan, found: seq<Span>)
    requires n < |ms| && Sound(ws, ms, n, st) && st.word < |ws| && st.acc + ms[n] == ws[st.word]
    requires found == if st.start != n then st.found + [Span(st.word, st.start + 1, n + 1)] else st.found
    ensures Sound(ws, ms, n + 1, Scan(st.word + 1, n + 1, "", found))
  {
    AccStep(ms, st.start, n);
    PrefixStep(ws, ms, st, n);
    FoundStep(ws, ms, st, n, found);
    assert ms[n + 1..n + 1] == [];
  }

  lemma {:induction false} SoundStep(ws: seq<string>, ms: seq<string>, n: nat, st: Scan)
    requires n < |ms| && Sound(ws, ms, n, st) && Step(ws, st, ms[n], n).Success?
    ensures Sound(ws, ms, n + 1, Step(ws, st, ms[n], n).value)
  {
    if st.acc + ms[n] == ws[st.word] {
      var found := if st.start != n then st.found + [Span(st.word, st.start + 1, n + 1)] else st.found;
      SoundMatch(ws, ms, n, st, found);
    } else {
      SoundNoMatch(ws, ms, n, st);
      StepNoMatch(ws, st, ms[n], n);
    }
  }

  /** Every state the scan reaches is sound. */
  lemma {:induction false} ScanSound(ws: seq<string>, ms: seq<string>, n: nat)
    requires n <= |ms| && ScanFrom(ws, ms, n).Success?
    ensures Sound(ws, ms, n, ScanFrom(ws, ms, n).value)
  {
    if n == 0 {
      SoundStart(ws, ms);
    } else {
      ScanSound(ws, ms, n - 1);
      SoundStep(ws, ms, n - 1, ScanFrom(ws, ms, n - 1).value);
    }
  }

  /** Each returned triple `(t, i, j)` has `i < j` and the normalised morphs `i..j` spell
      normalised word `t`; triples grow strictly in `t` and their morph ranges are
      disjoint and increasing. */
  lemma SpansSound(ws: seq<string>, ms: seq<string>)
    requires Spans(ws, ms).Success?
    ensures forall k :: 0 <= k < |Spans(ws, ms).value| ==> SpanOk(ws, ms, Spans(ws, ms).value[k])
    ensures Increasing(Spans(ws, ms).value)
  {
    ScanSound(ws, ms, |ms|);
  }

  /** The scan fails exactly when it reaches a morph after every word has been matched. */
  lemma {:induction false} FailureMeaning(ws: seq<string>, ms: seq<string>, n: nat)
    requires n <= |ms|
    ensures ScanFrom(ws, ms, n).Failure? <==>
      exists k :: 0 <= k < n && ScanFrom(ws, ms, k).Success? && ScanFrom(ws, ms, k).value.word == |ws|
  {
    if n > 0 {
      FailureMeaning(ws, ms, n - 1);
      var p := ScanFrom(ws, ms, n - 1);
      if p.Success? {
        ScanSound(ws, ms, n - 1);
        if p.value.word == |ws| {
          assert ScanFrom(ws, ms, n).Failure?;
        } else {
          assert ScanFrom(ws, ms, n).Success?;
        }
      }
    }
  }

  /** When the scan has matched every word, what it has read so far spells the whole
      sentence. */
  lemma AllWordsSpelled(ws: seq<string>, ms: seq<string>, n: nat)
    requires n <= |ms| && ScanFrom(ws, ms, n).Success? && ScanFrom(ws, ms, n).value.word == |ws|
    ensures Concat(ms[..ScanFrom(ws, ms, n).value.start]) == Concat(ws)
  {
    ScanSound(ws, ms, n);
    assert ws[..|ws|] == ws;
  }

  /** The first four morphs of the example spell its first two words. */
  lemma DocFirstHalf(ws: seq<string>, ms: seq<string>)
    requires ws == ["abc", "def", "ghijk", "lmn"]
    requires ms == ["ab", "c", "d", "ef", "g", "hi", "jk", "lmn"]
    ensures ScanFrom(ws, ms, 4) == Success(Scan(2, 4, "", [Span(0, 1, 2), Span(1, 3, 4)]))
  {
    var s0 := Scan(0, 0, "", []);
    assert "" + "ab" == "ab" && "ab" + "c" == "abc";
    var s1 := Scan(0, 0, "ab", []);
    assert Step(ws, s0, "ab", 0) == Success(s1);
    var s2 := Scan(1, 2, "", [Span(0, 1, 2)]);
    assert [] + [Span(0, 1, 2)] == [Span(0, 1, 2)];
    assert Step(ws, s1, "c", 1) == Success(s2);
    assert "" + "d" == "d" && "d" + "ef" == "def";
    var s3 := s2.(acc := "d");
    assert Step(ws, s2, "d", 2) == Success(s3);
    assert [Span(0, 1, 2)] + [Span(1, 3, 4)] == [Span(0, 1, 2), Span(1, 3, 4)];
    assert Step(ws, s3, "ef", 3) == Success(Scan(2, 4, "", [Span(0, 1, 2), Span(1, 3, 4)]));
    assert ScanFrom(ws, ms, 1) == Success(s1);
    assert ScanFrom(ws, ms, 2) == Success(s2);
    assert ScanFrom(ws, ms, 3) == Success(s3);
  }

  /** On the example the code returns `[(0,1,2), (1,3,4), (2,5,7)]`: word numbers count
      from 0 (the comment beside the function shows them counted from 1), and `lmn`,
      spelled by one morph, yields no triple. */
  lemma DocExample(ws: seq<string>, ms: seq<string>)
    requires ws == ["abc", "def", "ghijk", "lmn"]
    requires ms == ["ab", "c", "d", "ef", "g", "hi", "jk", "lmn"]
    ensures Spans(ws, ms) == Success([Span(0, 1, 2), Span(1, 3, 4), Span(2, 5, 7)])
  {
    var s4 := Scan(2, 4, "", [Span(0, 1, 2), Span(1, 3, 4)]);
    DocFirstHalf(ws, ms);
    assert "" + "g" == "g" && "g" + "hi" == "ghi" && "ghi" + "jk" == "ghijk";
    var s5 := s4.(acc := "g");
    assert Step(ws, s4, "g", 4) == Success(s5);
    var s6 := s4.(acc := "ghi");
    assert Step(ws, s5, "hi", 5) == Success(s6);
    var s7 := Scan(3, 7, "", [Span(0, 1, 2), Span(1, 3, 4), Span(2, 5, 7)]);
    assert [Span(0, 1, 2), Span(1, 3, 4)] + [Span(2, 5, 7)] == s7.found;
    assert Step(ws, s6, "jk", 6) == Success(s7);
    assert "" + "lmn" == "lmn";
    assert Step(ws, s7, "lmn", 7) == Success(Scan(4, 8, "", s7.found));
    assert ScanFrom(ws, ms, 5) == Success(s5);
    assert ScanFrom(ws, ms, 6) == Success(s6);
    assert ScanFrom(ws, ms, 7) == Success(s7);
    assert ScanFrom(ws, ms, 8) == Success(Scan(4, 8, "", s7.found));
  }

  /** Both lists of the example are already normalised, so the method returns the same. */
  lemma DocExampleNormalized(ws: seq<string>, ms: seq<string>)
    requires ws == ["abc", "def", "ghijk", "lmn"]
    requires ms == ["ab", "c", "d", "ef", "g", "hi", "jk", "lmn"]
    ensures NormalizeAll(ws) == ws && NormalizeAll(ms) == ms
  {
    forall i | 0 <= i < |ws| ensures Normalize(ws[i]) == ws[i] {
      NormalizeAlnum(ws[i]);
    }
    forall i | 0 <= i < |ms| ensures Normalize(ms[i]) == ms[i] {
      NormalizeAlnum(ms[i]);
    }
  }
}
