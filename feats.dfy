/** The FEATS column of a CoNLL-U token as the `conllu` library hands it over: a Python
    dict, which keeps its keys in insertion order. It is modelled as an association list
    whose keys are unique; assigning an existing key updates it in place, assigning a new
    key appends it, and `del` removes it. */
module Feats {
  import opened Wrappers

  /** One `key=value` pair; a value of None is a key that carries no value. */
  datatype Entry = Entry(key: string, value: Option<string>)

  /** The keys in dict order. */
  function Keys(e: seq<Entry>): (ks: seq<string>)
    ensures |ks| == |e| && forall i :: 0 <= i < |e| ==> ks[i] == e[i].key
  {
    seq(|e|, i requires 0 <= i < |e| => e[i].key)
  }

  /** No key occurs twice, as in every Python dict. */
  predicate UniqueKeys(e: seq<Entry>)
  {
    forall i, j :: 0 <= i < j < |e| ==> e[i].key != e[j].key
  }

  /** `feats[k]` when `k in feats`, None otherwise. */
  function Lookup(e: seq<Entry>, k: string): Option<Option<string>>
    decreases |e|
  {
    if |e| == 0 then None
    else if e[0].key == k then Some(e[0].value)
    else Lookup(e[1..], k)
  }

  /** Python's truth value of `feats.get(k)`: the key is present with a non-empty string. */
  predicate Truthy(e: seq<Entry>, k: string)
  {
    match Lookup(e, k)
    case Some(Some(v)) => v != ""
    case _ => false
  }

  /** `feats[k] = v`. */
  function Set(e: seq<Entry>, k: string, v: string): (r: seq<Entry>)
    ensures Lookup(r, k) == Some(Some(v))
    decreases |e|
  {
    if |e| == 0 then [Entry(k, Some(v))]
    else if e[0].key == k then [Entry(k, Some(v))] + e[1..]
    else [e[0]] + Set(e[1..], k, v)
  }

  /** `del feats[k]` (the caller makes sure that `k` is present). */
  function Remove(e: seq<Entry>, k: string): (r: seq<Entry>)
    ensures |r| <= |e|
    decreases |e|
  {
    if |e| == 0 then []
    else if e[0].key == k then Remove(e[1..], k)
    else [e[0]] + Remove(e[1..], k)
  }

  /** Assigning a key changes that key and no other. */
  lemma {:induction false} LookupSet(e: seq<Entry>, k: string, v: string, k': string)
    ensures Lookup(Set(e, k, v), k') == if k' == k then Some(Some(v)) else Lookup(e, k')
    decreases |e|
  {
    if |e| > 0 && e[0].key != k {
      LookupSet(e[1..], k, v, k');
    }
  }

  /** Assigning a key that is not there appends it. */
  lemma {:induction false} SetAbsent(e: seq<Entry>, k: string, v: string)
    requires Lookup(e, k).None?
    ensures Set(e, k, v) == e + [Entry(k, Some(v))]
    decreases |e|
  {
    if |e| > 0 {
      SetAbsent(e[1..], k, v);
      assert e == [e[0]] + e[1..];
    }
  }

  /** Looking up a key in a dict with one more entry at the end. */
  lemma {:induction false} LookupAppend(e: seq<Entry>, x: Entry, k: string)
    ensures Lookup(e + [x], k) ==
      if Lookup(e, k).Some? then Lookup(e, k) else if x.key == k then Some(x.value) else None
    decreases |e|
  {
    if |e| > 0 {
      assert (e + [x])[1..] == e[1..] + [x];
      LookupAppend(e[1..], x, k);
    }
  }

  /** Deleting a key that is not there changes nothing. */
  lemma {:induction false} RemoveAbsent(e: seq<Entry>, k: string)
    requires Lookup(e, k).None?
    ensures Remove(e, k) == e
    decreases |e|
  {
    if |e| > 0 {
      RemoveAbsent(e[1..], k);
      assert e == [e[0]] + e[1..];
    }
  }

  /** A second assignment to the same key overrides the first. */
  lemma {:induction false} SetSet(e: seq<Entry>, k: string, v1: string, v2: string)
    ensures Set(Set(e, k, v1), k, v2) == Set(e, k, v2)
    decreases |e|
  {
    if |e| > 0 && e[0].key != k {
      SetSet(e[1..], k, v1, v2);
      assert Set(e, k, v1)[1..] == Set(e[1..], k, v1);
    }
  }

  /** A key is absent exactly when no entry carries it. */
  lemma {:induction false} LookupNone(e: seq<Entry>, k: string)
    ensures Lookup(e, k).None? <==> forall j :: 0 <= j < |e| ==> e[j].key != k
    decreases |e|
  {
    if |e| > 0 {
      LookupNone(e[1..], k);
      assert forall j :: 1 <= j < |e| ==> e[j] == e[1..][j - 1];
    }
  }

  /** A key is found exactly when it is one of the keys. */
  lemma LookupKeys(e: seq<Entry>, k: string)
    ensures Lookup(e, k).Some? <==> k in Keys(e)
  {
    LookupNone(e, k);
  }

  /** Assignment keeps the keys unique. */
  lemma {:induction false} SetUnique(e: seq<Entry>, k: string, v: string)
    requires UniqueKeys(e)
    ensures UniqueKeys(Set(e, k, v))
    decreases |e|
  {
    if |e| > 0 {
      var r := Set(e, k, v);
      if e[0].key == k {
        assert forall i :: 0 <= i < |r| ==> r[i].key == e[i].key;
      } else {
        var tail := Set(e[1..], k, v);
        assert UniqueKeys(e[1..]);
        SetUnique(e[1..], k, v);
        LookupNone(e[1..], e[0].key);
        LookupSet(e[1..], k, v, e[0].key);
        LookupNone(tail, e[0].key);
        assert r == [e[0]] + tail;
      }
    }
  }

  /** Deleting a key removes that key and no other. */
  lemma {:induction false} LookupRemove(e: seq<Entry>, k: string, k': string)
    ensures Lookup(Remove(e, k), k') == if k' == k then None else Lookup(e, k')
    decreases |e|
  {
    if |e| > 0 {
      LookupRemove(e[1..], k, k');
    }
  }
}
