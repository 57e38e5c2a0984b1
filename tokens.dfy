/** A CoNLL-U token as the `conllu` library parses it, and a parsed sentence
    (the library's TokenList) as a sequence of tokens with its metadata. */
module Tokens {
  import opened Wrappers
  import opened Strings
  import F = Feats

  /** A word line has an integer id; a multi-word token line has a range `a-b`. */
  datatype Id = Int(n: int) | Range(first: int, last: int)

  /** The FEATS field: `_` parses to None; the converter itself may store the string `'_'`;
      otherwise it is an ordered dict. */
  datatype FeatsField = NoFeats | Underscore | FMap(entries: seq<F.Entry>)

  datatype Token = Token(
    id: Id,
    form: string,
    lem: string,      // the LEMMA column (`lemma` is a Dafny keyword)
    upos: string,
    xpos: string,
    feats: FeatsField,
    head: Option<nat>,
    deprel: Option<string>,
    deps: string)

  /** A parsed sentence: its `# key = value` metadata and its token lines. */
  datatype TokenList = TokenList(metadata: map<string, string>, tokens: seq<Token>)

  /** A list of parsed sentences, each its own array of tokens. */
  predicate DistinctSentences(ss: seq<array<Token>>)
  {
    forall j, k :: 0 <= j < k < |ss| ==> ss[j] != ss[k]
  }

  /** `word['feats'][k]`, None when the key or the dict is absent. */
  function GetFeat(t: Token, k: string): Option<Option<string>>
  {
    if t.feats.FMap? then F.Lookup(t.feats.entries, k) else None
  }

  /** Python's truth value of `word['feats'].get(k)`. */
  predicate HasFeat(t: Token, k: string)
  {
    t.feats.FMap? && F.Truthy(t.feats.entries, k)
  }

  /** `word['feats'][k] = v`; the converter only does this on tokens whose feats is a dict. */
  function SetFeat(t: Token, k: string, v: string): (r: Token)
    ensures r.feats.FMap? == t.feats.FMap?
    ensures r.(feats := t.feats) == t
  {
    if t.feats.FMap? then t.(feats := FMap(F.Set(t.feats.entries, k, v))) else t
  }

  /** The raw analysis code `word['feats']['Analysis']` ("" where the key is absent). */
  function Analysis(t: Token): string
  {
    match GetFeat(t, "Analysis")
    case Some(Some(a)) => a
    case _ => ""
  }

  /** What the converter's feature rules rely on: every word line carries a dict of
      features with unique keys and an `Analysis` string (the interim file writes one
      for every morph). Python raises KeyError or TypeError otherwise. */
  predicate HasAnalysis(t: Token)
  {
    t.id.Int? ==>
      && t.feats.FMap?
      && F.UniqueKeys(t.feats.entries)
      && F.Lookup(t.feats.entries, "Analysis").Some?
      && F.Lookup(t.feats.entries, "Analysis").value.Some?
  }

  /** Setting a key other than `Analysis` keeps the analysis code readable. */
  lemma SetFeatKeepsAnalysis(t: Token, k: string, v: string)
    requires HasAnalysis(t) && k != "Analysis"
    ensures HasAnalysis(SetFeat(t, k, v)) && Analysis(SetFeat(t, k, v)) == Analysis(t)
  {
    if t.feats.FMap? {
      F.LookupSet(t.feats.entries, k, v, "Analysis");
      if t.id.Int? { F.SetUnique(t.feats.entries, k, v); }
    }
  }

  /** Reading a key after setting one. */
  lemma GetSetFeat(t: Token, k: string, v: string, k': string)
    requires t.feats.FMap?
    ensures GetFeat(SetFeat(t, k, v), k') == if k' == k then Some(Some(v)) else GetFeat(t, k')
  {
    F.LookupSet(t.feats.entries, k, v, k');
  }

  /** The shape of every per-token rule of the source: `for word in a_sentence: ...`,
      rewriting each token in place. */
  method ForEachToken(a: array<Token>, rule: Token -> Token)
    modifies a
    ensures forall i :: 0 <= i < a.Length ==> a[i] == rule(old(a[i]))
  {
    var i := 0;
    while i < a.Length
      invariant 0 <= i <= a.Length
      invariant forall k :: 0 <= k < i ==> a[k] == rule(old(a[k]))
      invariant forall k :: i <= k < a.Length ==> a[k] == old(a[k])
    {
      a[i] := rule(a[i]);
      i := i + 1;
    }
  }
}
