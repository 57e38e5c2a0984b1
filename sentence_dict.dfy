/** Section 2 of the converter: the preprocessed rows are grouped into an ordered
    dictionary from text-unit id (column 1) to the list of that unit's word dicts. */
module SentenceDict {
  import opened Wrappers
  import opened Words

  /** An OrderedDict: the keys in insertion order and the mapping itself. */
  datatype Sentences = Sentences(order: seq<string>, groups: map<string, seq<Word>>)

  /** `dict(zip(names, values))`: pairs up to the shorter list; a repeated name keeps
      the later cell. */
  function Zip(names: seq<string>, values: seq<string>): (w: Word)
    ensures forall k :: k in w <==> exists i :: 0 <= i < |names| && i < |values| && names[i] == k
  {
    if |names| == 0 || |values| == 0 then map[]
    else
      var rest := Zip(names[1..], values[1..]);
      assert forall k :: k in rest ==> exists i :: 0 <= i < |names| && i < |values| && names[i] == k by {
        forall k | k in rest ensures exists i :: 0 <= i < |names| && i < |values| && names[i] == k {
          var j :| 0 <= j < |names[1..]| && j < |values[1..]| && names[1..][j] == k;
          assert names[j + 1] == k;
        }
      }
      assert forall i :: 1 <= i < |names| && i < |values| ==> names[i] in rest by {
        forall i | 1 <= i < |names| && i < |values| ensures names[i] in rest {
          assert names[1..][i - 1] == names[i];
        }
      }
      map[names[0] := values[0]] + rest
  }

  /** In `dict(zip(names, values))` a name holds the cell of its last paired occurrence:
      a name that occurs once maps to its own cell, and a repeated name keeps the later one. */
  lemma {:induction false} ZipLastWins(names: seq<string>, values: seq<string>, i: nat)
    requires i < |names| && i < |values| && names[i] !in names[i + 1..]
    ensures names[i] in Zip(names, values) && Zip(names, values)[names[i]] == values[i]
  {
    var rest := Zip(names[1..], values[1..]);
    if i == 0 {
      assert names[0] !in rest;
    } else {
      assert names[1..][i - 1] == names[i] && values[1..][i - 1] == values[i];
      assert names[1..][i - 1 + 1..] == names[i + 1..];
      ZipLastWins(names[1..], values[1..], i - 1);
    }
  }

  /** Every data row has the id column the source reads. */
  predicate WellFormedRows(rows: seq<seq<string>>)
  {
    forall i :: 0 <= i < |rows| ==> |rows[i]| > 1
  }

  /** The text-unit ids of the rows, in order. */
  function Ids(rows: seq<seq<string>>): (ids: seq<string>)
    requires WellFormedRows(rows)
    ensures |ids| == |rows| && forall i :: 0 <= i < |rows| ==> ids[i] == rows[i][1]
  {
    seq(|rows|, i requires 0 <= i < |rows| => rows[i][1])
  }

  /** The ids with every repetition after the first dropped. */
  function FirstAppearances(ids: seq<string>): seq<string>
  {
    if |ids| == 0 then []
    else
      var p := FirstAppearances(ids[..|ids| - 1]);
      if ids[|ids| - 1] in p then p else p + [ids[|ids| - 1]]
  }

  /** The word dicts of the rows whose id is `k`, in input order. */
  function RowsOf(names: seq<string>, rows: seq<seq<string>>, k: string): seq<Word>
    requires WellFormedRows(rows)
  {
    if |rows| == 0 then []
    else
      var p := RowsOf(names, rows[..|rows| - 1], k);
      if rows[|rows| - 1][1] == k then p + [Zip(names, rows[|rows| - 1])] else p
  }

  /** `make_dictionary_of_sentences_out_of`. An empty table or a data row without an id
      column raises IndexError. Otherwise the keys are the ids in order of first
      appearance and each key holds its rows, zipped with the header, in input order. */
  method MakeDictionaryOfSentences(data: seq<seq<string>>) returns (r: Result<Sentences>)
    ensures r.Failure? <==> |data| == 0 || !WellFormedRows(data[1..])
    ensures r.Failure? ==> r.error == IndexError
    ensures r.Success? ==>
      && r.value.order == FirstAppearances(Ids(data[1..]))
      && (forall k :: k in r.value.groups <==> k in r.value.order)
      && (forall k :: k in r.value.groups ==> r.value.groups[k] == RowsOf(data[0], data[1..], k))
  {
    if |data| == 0 {
      return Failure(IndexError);
    }
    var names := data[0];
    var rows := data[1..];
    var order: seq<string> := [];
    var groups: map<string, seq<Word>> := map[];
    for i := 0 to |rows|
      invariant WellFormedRows(rows[..i])
      invariant Grouped(names, rows[..i], order, groups)
    {
      if |rows[i]| < 2 {
        assert !WellFormedRows(rows);
        return Failure(IndexError);
      }
      var id := rows[i][1];
      var w := Zip(names, rows[i]);
      GroupedStep(names, rows, i, order, groups);
      if id in groups {
        groups := groups[id := groups[id] + [w]];
      } else {
        groups := groups[id := [w]];
        order := order + [id];
      }
    }
    assert rows[..|rows|] == rows;
    return Success(Sentences(order, groups));
  }

  /** The loop state of `make_dictionary_of_sentences_out_of` after the rows `rows`. */
  ghost predicate Grouped(names: seq<string>, rows: seq<seq<string>>, order: seq<string>, groups: map<string, seq<Word>>)
    requires WellFormedRows(rows)
  {
    && order == FirstAppearances(Ids(rows))
    && (forall k :: k in groups <==> k in order)
    && (forall k :: k in groups ==> groups[k] == RowsOf(names, rows, k))
  }

  /** One more row joins its id's group, opening the group when the id is new. */
  lemma GroupedStep(names: seq<string>, rows: seq<seq<string>>, i: nat, order: seq<string>, groups: map<string, seq<Word>>)
    requires i < |rows| && WellFormedRows(rows[..i]) && |rows[i]| > 1 && Grouped(names, rows[..i], order, groups)
    ensures WellFormedRows(rows[..i + 1])
    ensures var id := rows[i][1];
      var w := Zip(names, rows[i]);
      Grouped(names, rows[..i + 1],
        if id in groups then order else order + [id],
        groups[id := if id in groups then groups[id] + [w] else [w]])
  {
    var id := rows[i][1];
    var w := Zip(names, rows[i]);
    var order' := if id in groups then order else order + [id];
    var g := groups[id := if id in groups then groups[id] + [w] else [w]];
    assert id in groups <==> id in order;
    OrderStep(rows, i, order);
    assert order' == FirstAppearances(Ids(rows[..i + 1]));
    KeysStep(order, groups, id, g[id], order');
    assert rows[..i + 1][..i] == rows[..i];
    GroupsStep(names, rows, i, groups);
  }

  /** The keys and the order grow together. */
  lemma KeysStep<V>(order: seq<string>, groups: map<string, V>, id: string, v: V, order': seq<string>)
    requires forall k :: k in groups <==> k in order
    requires order' == if id in groups then order else order + [id]
    ensures forall k :: k in groups[id := v] <==> k in order'
  {
  }

  /** A new id joins the key order at its first appearance; a known one changes nothing. */
  lemma OrderStep(rows: seq<seq<string>>, i: nat, order: seq<string>)
    requires i < |rows| && WellFormedRows(rows[..i]) && |rows[i]| > 1
    requires order == FirstAppearances(Ids(rows[..i]))
    ensures WellFormedRows(rows[..i + 1])
    ensures FirstAppearances(Ids(rows[..i + 1])) == if rows[i][1] in order then order else order + [rows[i][1]]
  {
    assert rows[..i + 1][..i] == rows[..i];
    assert WellFormedRows(rows[..i + 1]);
    var ids := Ids(rows[..i + 1]);
    assert ids[..|ids| - 1] == Ids(rows[..i]);
    assert ids[|ids| - 1] == rows[i][1];
  }

  lemma GroupsStep(names: seq<string>, rows: seq<seq<string>>, i: nat, groups: map<string, seq<Word>>)
    requires i < |rows| && WellFormedRows(rows[..i + 1]) && rows[..i + 1][..i] == rows[..i]
    requires forall k :: k in groups ==> groups[k] == RowsOf(names, rows[..i], k)
    requires rows[i][1] !in groups ==> rows[i][1] !in FirstAppearances(Ids(rows[..i]))
    ensures var id := rows[i][1];
      var w := Zip(names, rows[i]);
      var g := groups[id := if id in groups then groups[id] + [w] else [w]];
      forall k :: k in g ==> g[k] == RowsOf(names, rows[..i + 1], k)
  {
    var id := rows[i][1];
    var w := Zip(names, rows[i]);
    var g := groups[id := if id in groups then groups[id] + [w] else [w]];
    assert rows[..i + 1][i] == rows[i];
    if id !in groups {
      FirstAppearancesOrder(Ids(rows[..i]));
      RowsOfAbsent(names, rows[..i], id);
    }
    forall k | k in g ensures g[k] == RowsOf(names, rows[..i + 1], k) {
      if k != id {
        assert RowsOf(names, rows[..i], k) == RowsOf(names, rows[..i + 1], k);
      }
    }
  }

  lemma FirstIndexPrefix(s: seq<string>, t: seq<string>, x: string)
    requires x in s
    ensures x in s + t && FirstIndex(s + t, x) == FirstIndex(s, x)
  {
    if s[0] != x {
      assert (s + t)[1..] == s[1..] + t;
      FirstIndexPrefix(s[1..], t, x);
    }
  }

  /** The keys are exactly the distinct ids, without repetition, ordered by where each
      id first appears. */
  lemma {:induction false} FirstAppearancesOrder(ids: seq<string>)
    ensures forall x :: x in FirstAppearances(ids) <==> x in ids
    ensures forall a, b :: 0 <= a < b < |FirstAppearances(ids)| ==> FirstAppearances(ids)[a] != FirstAppearances(ids)[b]
    ensures forall a, b :: 0 <= a < b < |FirstAppearances(ids)| ==>
      FirstIndex(ids, FirstAppearances(ids)[a]) < FirstIndex(ids, FirstAppearances(ids)[b])
  {
    if |ids| > 0 {
      var init := ids[..|ids| - 1];
      var x := ids[|ids| - 1];
      assert ids == init + [x];
      FirstAppearancesOrder(init);
      var p := FirstAppearances(init);
      forall y | y in init ensures FirstIndex(ids, y) == FirstIndex(init, y) {
        FirstIndexPrefix(init, [x], y);
      }
      if x !in init {
        assert FirstIndex(ids, x) == |init| by {
          assert x !in ids[..|init|];
        }
      }
    }
  }

  /** Sum of the group sizes over a key list. */
  function TotalRows(names: seq<string>, rows: seq<seq<string>>, keys: seq<string>): nat
    requires WellFormedRows(rows)
  {
    if |keys| == 0 then 0 else |RowsOf(names, rows, keys[0])| + TotalRows(names, rows, keys[1..])
  }

  lemma {:induction false} TotalRowsSnoc(names: seq<string>, rows: seq<seq<string>>, keys: seq<string>)
    requires |rows| > 0 && WellFormedRows(rows)
    requires forall a, b :: 0 <= a < b < |keys| ==> keys[a] != keys[b]
    ensures TotalRows(names, rows, keys) ==
      TotalRows(names, rows[..|rows| - 1], keys) + if rows[|rows| - 1][1] in keys then 1 else 0
    decreases |keys|
  {
    if |keys| > 0 {
      TotalRowsSnoc(names, rows, keys[1..]);
      if keys[0] == rows[|rows| - 1][1] {
        assert keys[0] !in keys[1..];
      }
    }
  }

  lemma {:induction false} TotalRowsAppend(names: seq<string>, rows: seq<seq<string>>, keys: seq<string>, k: string)
    requires WellFormedRows(rows)
    ensures TotalRows(names, rows, keys + [k]) == TotalRows(names, rows, keys) + |RowsOf(names, rows, k)|
    decreases |keys|
  {
    if |keys| == 0 {
      assert [k][1..] == [];
    } else {
      assert (keys + [k])[1..] == keys[1..] + [k];
      TotalRowsAppend(names, rows, keys[1..], k);
    }
  }

  lemma RowsOfAbsent(names: seq<string>, rows: seq<seq<string>>, k: string)
    requires WellFormedRows(rows) && k !in Ids(rows)
    ensures RowsOf(names, rows, k) == []
  {
    if |rows| > 0 {
      assert Ids(rows[..|rows| - 1]) == Ids(rows)[..|rows| - 1];
      RowsOfAbsent(names, rows[..|rows| - 1], k);
    }
  }

  /** The groups hold every data row exactly once: their sizes add up to `len(data) - 1`. */
  lemma {:induction false} TotalRowCount(names: seq<string>, rows: seq<seq<string>>)
    requires WellFormedRows(rows)
    ensures TotalRows(names, rows, FirstAppearances(Ids(rows))) == |rows|
    decreases |rows|
  {
    if |rows| > 0 {
      var init := rows[..|rows| - 1];
      var x := rows[|rows| - 1][1];
      assert Ids(rows)[..|rows| - 1] == Ids(init);
      assert Ids(rows)[|rows| - 1] == x;
      TotalRowCount(names, init);
      var p := FirstAppearances(Ids(init));
      FirstAppearancesOrder(Ids(rows));
      FirstAppearancesOrder(Ids(init));
      if x in p {
        TotalRowsSnoc(names, rows, p);
      } else {
        FirstAppearancesOrder(p + [x]);
        assert FirstAppearances(Ids(rows)) == p + [x];
        TotalRowsSnoc(names, rows, p + [x]);
        TotalRowsAppend(names, init, p, x);
        RowsOfAbsent(names, init, x);
      }
    }
  }
}
