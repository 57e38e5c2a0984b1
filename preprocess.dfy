/** Section 1 of the converter: the CSV rows (a list of rows, each a list of cells) are
    rewritten in place before they are grouped into sentences. Columns, counted from 0:
    5 Analysis, 6 Rel, 7 Trans, 9 Meaning. Row 0 holds the column names. */
module Preprocess {
  import opened Strings

  /** preprocess_1 on one row: an empty analysis becomes `No_Features`. */
  function Pre1Row(row: seq<string>): (r: seq<string>)
    requires |row| > 5
    ensures |r| == |row|
  {
    if row[5] == "" then row[5 := "No_Features"] else row
  }

  /** preprocess_2 on one cell: an empty cell or `No` becomes `_`. */
  function Pre2Cell(c: string): string
  {
    if c == "" || c == "No" then "_" else c
  }

  function Pre2Row(row: seq<string>): (r: seq<string>)
    ensures |r| == |row|
  {
    seq(|row|, i requires 0 <= i < |row| => Pre2Cell(row[i]))
  }

  /** preprocess_3 on one row: a `Yes` in Rel appends `rel.` to the analysis unless
      `.rel.` is already there; Rel is cleared in every row. */
  function Pre3Row(row: seq<string>): (r: seq<string>)
    requires |row| > 6
    ensures |r| == |row|
  {
    var t := if row[6] == "Yes" && !IsSubstring(".rel.", row[5]) then row[5 := row[5] + "rel."] else row;
    t[6 := "_"]
  }

  /** preprocess_4 on one row: `trans.` or `intrans.` in Trans is appended to the
      analysis; Trans is cleared in every row. */
  function Pre4Row(row: seq<string>): (r: seq<string>)
    requires |row| > 7
    ensures |r| == |row|
  {
    var t := if row[7] == "trans." || row[7] == "intrans." then row[5 := row[5] + row[7]] else row;
    t[7 := "_"]
  }

  /** preprocess_5 on one cell: the first matching test removes one occurrence of its
      redundant phrase. Note that the test and the removed text differ for three of the
      four phrases. */
  function Pre5Cell(c: string): string
  {
    if IsSubstring("definite article", c) then ReplaceFirst(c, ", definite article", "")
    else if IsSubstring("that ; substantivizing particle", c) then ReplaceFirst(c, "that ; ", "")
    else if IsSubstring("; perfective augment", c) then ReplaceFirst(c, "; perfective augment", "")
    else if IsSubstring("the copula", c) then ReplaceFirst(c, ", the copula", "")
    else c
  }

  function Pre5Row(row: seq<string>): (r: seq<string>)
    ensures |r| == |row|
  {
    seq(|row|, i requires 0 <= i < |row| => Pre5Cell(row[i]))
  }

  /** preprocess_6 on one data row: key prefixes for the later key=value parsing. */
  function Pre6Row(row: seq<string>): (r: seq<string>)
    requires |row| > 9
    ensures |r| == |row|
  {
    row[5 := "Analysis=" + row[5]][9 := "Gloss=" + row[9]]
  }

  /** The whole of `preprocessing` on row number `r`; preprocess_6 skips the header. */
  function PreprocessRow(r: nat, row: seq<string>): seq<string>
    requires |row| > 7 && (r > 0 ==> |row| > 9)
  {
    var s := Pre5Row(Pre4Row(Pre3Row(Pre2Row(Pre1Row(row)))));
    if r == 0 then s else Pre6Row(s)
  }

  method Preprocess1(a: array<seq<string>>)
    requires forall r :: 0 <= r < a.Length ==> |a[r]| > 5
    modifies a
    ensures forall r :: 0 <= r < a.Length ==> a[r] == Pre1Row(old(a[r]))
  {
    for r := 0 to a.Length
      invariant forall k :: 0 <= k < r ==> a[k] == Pre1Row(old(a[k]))
      invariant forall k :: r <= k < a.Length ==> a[k] == old(a[k])
    {
      if a[r][5] == "" {
        a[r] := a[r][5 := "No_Features"];
      }
    }
  }

  method Preprocess2(a: array<seq<string>>)
    modifies a
    ensures forall r :: 0 <= r < a.Length ==> a[r] == Pre2Row(old(a[r]))
  {
    for r := 0 to a.Length
      invariant forall k :: 0 <= k < r ==> a[k] == Pre2Row(old(a[k]))
      invariant forall k :: r <= k < a.Length ==> a[k] == old(a[k])
    {
      ghost var row := a[r];
      for i := 0 to |a[r]|
        invariant |a[r]| == |row|
        invariant forall c :: 0 <= c < i ==> a[r][c] == Pre2Cell(row[c])
        invariant forall c :: i <= c < |row| ==> a[r][c] == row[c]
        invariant forall k :: 0 <= k < r ==> a[k] == Pre2Row(old(a[k]))
        invariant forall k :: r < k < a.Length ==> a[k] == old(a[k])
      {
        if a[r][i] == "" || a[r][i] == "No" {
          a[r] := a[r][i := "_"];
        }
      }
      assert a[r] == Pre2Row(row);
    }
  }

  method Preprocess3(a: array<seq<string>>)
    requires forall r :: 0 <= r < a.Length ==> |a[r]| > 6
    modifies a
    ensures forall r :: 0 <= r < a.Length ==> a[r] == Pre3Row(old(a[r]))
  {
    for r := 0 to a.Length
      invariant forall k :: 0 <= k < r ==> a[k] == Pre3Row(old(a[k]))
      invariant forall k :: r <= k < a.Length ==> a[k] == old(a[k])
    {
      if a[r][6] == "Yes" && !IsSubstring(".rel.", a[r][5]) {
        a[r] := a[r][5 := a[r][5] + "rel."];
      }
      a[r] := a[r][6 := "_"];
    }
  }

  method Preprocess4(a: array<seq<string>>)
    requires forall r :: 0 <= r < a.Length ==> |a[r]| > 7
    modifies a
    ensures forall r :: 0 <= r < a.Length ==> a[r] == Pre4Row(old(a[r]))
  {
    for r := 0 to a.Length
      invariant forall k :: 0 <= k < r ==> a[k] == Pre4Row(old(a[k]))
      invariant forall k :: r <= k < a.Length ==> a[k] == old(a[k])
    {
      if a[r][7] == "trans." || a[r][7] == "intrans." {
        a[r] := a[r][5 := a[r][5] + a[r][7]];
      }
      a[r] := a[r][7 := "_"];
    }
  }

  method Preprocess5(a: array<seq<string>>)
    modifies a
    ensures forall r :: 0 <= r < a.Length ==> a[r] == Pre5Row(old(a[r]))
  {
    for r := 0 to a.Length
      invariant forall k :: 0 <= k < r ==> a[k] == Pre5Row(old(a[k]))
      invariant forall k :: r <= k < a.Length ==> a[k] == old(a[k])
    {
      ghost var row := a[r];
      for i := 0 to |a[r]|
        invariant |a[r]| == |row|
        invariant forall c :: 0 <= c < i ==> a[r][c] == Pre5Cell(row[c])
        invariant forall c :: i <= c < |row| ==> a[r][c] == row[c]
        invariant forall k :: 0 <= k < r ==> a[k] == Pre5Row(old(a[k]))
        invariant forall k :: r < k < a.Length ==> a[k] == old(a[k])
      {
        a[r] := a[r][i := Pre5Cell(a[r][i])];
      }
      assert a[r] == Pre5Row(row);
    }
  }

  method Preprocess6(a: array<seq<string>>)
    requires forall r :: 1 <= r < a.Length ==> |a[r]| > 9
    modifies a
    ensures a.Length > 0 ==> a[0] == old(a[0])
    ensures forall r :: 1 <= r < a.Length ==> a[r] == Pre6Row(old(a[r]))
  {
    if a.Length == 0 {
      return;
    }
    for r := 1 to a.Length
      invariant a[0] == old(a[0])
      invariant forall k :: 1 <= k < r ==> a[k] == Pre6Row(old(a[k]))
      invariant forall k :: r <= k < a.Length ==> a[k] == old(a[k])
    {
      a[r] := a[r][5 := "Analysis=" + a[r][5]][9 := "Gloss=" + a[r][9]];
    }
  }

  /** `preprocessing`: the six passes in order. The rows must be as wide as the source
      indexes them (Python raises IndexError otherwise). */
  method Preprocessing(a: array<seq<string>>)
    requires forall r :: 0 <= r < a.Length ==> |a[r]| > 7
    requires forall r :: 1 <= r < a.Length ==> |a[r]| > 9
    modifies a
    ensures forall r :: 0 <= r < a.Length ==> a[r] == PreprocessRow(r, old(a[r]))
  {
    Preprocess1(a);
    Preprocess2(a);
    Preprocess3(a);
    Preprocess4(a);
    Preprocess5(a);
    Preprocess6(a);
  }

  /** preprocess_3 clears Rel and appends `rel.` exactly when Rel was `Yes` and `.rel.`
      was absent; nothing else changes. */
  lemma Pre3Effect(row: seq<string>)
    requires |row| > 6
    ensures |Pre3Row(row)| == |row| && Pre3Row(row)[6] == "_"
    ensures Pre3Row(row)[5] == if row[6] == "Yes" && !IsSubstring(".rel.", row[5]) then row[5] + "rel." else row[5]
    ensures forall i :: 0 <= i < |row| && i != 5 && i != 6 ==> Pre3Row(row)[i] == row[i]
  {
  }

  /** preprocess_4 clears Trans and appends its value exactly for `trans.` and
      `intrans.`; nothing else changes. */
  lemma Pre4Effect(row: seq<string>)
    requires |row| > 7
    ensures |Pre4Row(row)| == |row| && Pre4Row(row)[7] == "_"
    ensures Pre4Row(row)[5] == if row[7] in {"trans.", "intrans."} then row[5] + row[7] else row[5]
    ensures forall i :: 0 <= i < |row| && i != 5 && i != 7 ==> Pre4Row(row)[i] == row[i]
  {
  }

  /** Running preprocess_3 twice is the same as running it once. */
  lemma Pre3Idempotent(row: seq<string>)
    requires |row| > 6
    ensures Pre3Row(Pre3Row(row)) == Pre3Row(row)
  {
    assert Pre3Row(row)[6] != "Yes";
  }

  /** Running preprocess_4 twice is the same as running it once. */
  lemma Pre4Idempotent(row: seq<string>)
    requires |row| > 7
    ensures Pre4Row(Pre4Row(row)) == Pre4Row(row)
  {
    assert Pre4Row(row)[7] != "trans." && Pre4Row(row)[7] != "intrans.";
  }

  /** preprocess_2 leaves no empty or `No` cell, and running it again changes nothing. */
  lemma Pre2Effect(row: seq<string>)
    ensures forall i :: 0 <= i < |row| ==> Pre2Row(row)[i] != "" && Pre2Row(row)[i] != "No"
    ensures Pre2Row(Pre2Row(row)) == Pre2Row(row)
  {
  }

  /** What the first four passes do to the analysis of a row: the sentinel or the
      placeholder replaces an empty or `No` code, and the flags are folded in after it.
      The flags are cleared. */
  lemma FlagsFolded(row: seq<string>)
    requires |row| > 7
    ensures var s := Pre4Row(Pre3Row(Pre2Row(Pre1Row(row))));
      var a1 := if row[5] == "" then "No_Features" else Pre2Cell(row[5]);
      var a2 := if row[6] == "Yes" && !IsSubstring(".rel.", a1) then a1 + "rel." else a1;
      && |s| == |row|
      && s[5] == (if row[7] in {"trans.", "intrans."} then a2 + row[7] else a2)
      && s[6] == "_" && s[7] == "_"
  {
    var s1 := Pre1Row(row);
    var s2 := Pre2Row(s1);
    assert s1[6] == row[6] && s1[7] == row[7];
    assert s2[5] == if row[5] == "" then "No_Features" else Pre2Cell(row[5]);
    assert s2[6] == "Yes" <==> row[6] == "Yes";
    assert s2[7] in {"trans.", "intrans."} <==> row[7] in {"trans.", "intrans."};
    assert s2[7] in {"trans.", "intrans."} ==> s2[7] == row[7];
    Pre3Effect(s2);
    Pre4Effect(Pre3Row(s2));
  }

  /** After `preprocessing` every data row has a keyed analysis and gloss, with Rel and
      Trans cleared; the header keeps its analysis and gloss names. */
  lemma PreprocessedShape(r: nat, row: seq<string>)
    requires |row| > 7 && (r > 0 ==> |row| > 9)
    ensures |PreprocessRow(r, row)| == |row|
    ensures r > 0 ==> IsPrefix("Analysis=", PreprocessRow(r, row)[5]) && IsPrefix("Gloss=", PreprocessRow(r, row)[9])
    ensures PreprocessRow(r, row)[6] == "_" && PreprocessRow(r, row)[7] == "_"
  {
    var s := Pre5Row(Pre4Row(Pre3Row(Pre2Row(Pre1Row(row)))));
    FlagsFolded(row);
    Pre5Effect("_");
    if r > 0 {
      assert ("Analysis=" + s[5])[..9] == "Analysis=";
      assert ("Gloss=" + s[9])[..6] == "Gloss=";
    }
  }

  /** `x` occurs inside `y`, so wherever `y` occurs, `x` does too. */
  lemma SubstringInside(x: string, y: string, d: nat, s: string)
    requires d + |x| <= |y| && y[d..d + |x|] == x && IsSubstring(y, s)
    ensures IsSubstring(x, s)
  {
    SubstringAt(y, s);
    var i :| OccursAt(y, s, i);
    assert s[i..i + |y|] == y;
    forall k | 0 <= k < |x| ensures s[i + d + k] == x[k] {
      assert s[i..i + |y|][d + k] == y[d + k];
      assert y[d..d + |x|][k] == y[d + k];
    }
    assert s[i + d..i + d + |x|] == x;
    assert OccursAt(x, s, i + d);
    SubstringAt(x, s);
  }

  /** preprocess_5 on one cell: a cell containing none of the four tested phrases is
      unchanged; otherwise the first test that holds removes one occurrence of its
      phrase, if that occurs. A cell with `definite article` but without the comma
      before it passes the test and keeps its text. */
  lemma Pre5Effect(c: string)
    ensures (!IsSubstring("definite article", c) && !IsSubstring("that ; substantivizing particle", c)
             && !IsSubstring("; perfective augment", c) && !IsSubstring("the copula", c))
      ==> Pre5Cell(c) == c
    ensures IsSubstring(", definite article", c) ==> |Pre5Cell(c)| == |c| - 18
    ensures IsSubstring("definite article", c) && !IsSubstring(", definite article", c) ==> Pre5Cell(c) == c
    ensures (!IsSubstring("definite article", c) && IsSubstring("that ; substantivizing particle", c))
      ==> |Pre5Cell(c)| == |c| - 7
    ensures |Pre5Cell(c)| <= |c|
  {
    Pre5Shrinks(c);
    if IsSubstring(", definite article", c) {
      Pre5Article(c);
    }
    if !IsSubstring(", definite article", c) {
      ReplaceFirstLength(c, ", definite article", "");
    }
    if !IsSubstring("definite article", c) && IsSubstring("that ; substantivizing particle", c) {
      Pre5That(c);
    }
  }

  /** No replacement lengthens a cell. */
  lemma Pre5Shrinks(c: string)
    ensures |Pre5Cell(c)| <= |c|
  {
    if IsSubstring("definite article", c) {
      ReplaceFirstLength(c, ", definite article", "");
    } else if IsSubstring("that ; substantivizing particle", c) {
      ReplaceFirstLength(c, "that ; ", "");
    } else if IsSubstring("; perfective augment", c) {
      ReplaceFirstLength(c, "; perfective augment", "");
    } else if IsSubstring("the copula", c) {
      ReplaceFirstLength(c, ", the copula", "");
    }
  }

  /** `, definite article` passes the first test and is removed. */
  lemma Pre5Article(c: string)
    requires IsSubstring(", definite article", c)
    ensures |Pre5Cell(c)| == |c| - 18
  {
    ConcatParts(", ", "definite article");
    SubstringInside("definite article", ", definite article", 2, c);
    ReplaceFirstLength(c, ", definite article", "");
  }

  /** `that ; ` is removed from a cell that reaches the second test. */
  lemma Pre5That(c: string)
    requires !IsSubstring("definite article", c) && IsSubstring("that ; substantivizing particle", c)
    ensures |Pre5Cell(c)| == |c| - 7
  {
    ConcatParts("that ; ", "substantivizing particle");
    SubstringInside("that ; ", "that ; substantivizing particle", 0, c);
    ReplaceFirstLength(c, "that ; ", "");
  }

  /** Both halves of a concatenation can be read back by slicing. */
  lemma ConcatParts(a: string, b: string)
    ensures (a + b)[..|a|] == a && (a + b)[0..|a|] == a && (a + b)[|a|..|a| + |b|] == b
  {
  }
}
