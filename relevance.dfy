/** `PaperRelevanceChecker`: the keyword gate. Both keyword lists are
    normalised (strip, lower-case, blanks dropped) into sets, and a paper is
    relevant when the sets share at least `min_match_threshold` keywords. */
module PaperRelevanceChecker {
  import opened Py
  import opened Text

  const DefaultMinMatchThreshold: int := 1

  /** The fields `__init__` sets once. */
  datatype Checker = Checker(
    metadata: Option<map<string, Value>>,
    requiredKeywords: seq<string>,
    minMatchThreshold: int,
    paperId: Value)

  /** `PaperRelevanceChecker(metadata, required_keywords, min_match_threshold)`. */
  function NewChecker(metadata: Option<map<string, Value>>, requiredKeywords: seq<string>,
                      minMatchThreshold: int): (c: Checker)
    ensures c.metadata == metadata && c.requiredKeywords == requiredKeywords
    ensures c.minMatchThreshold == minMatchThreshold
    ensures metadata.None? ==> c.paperId == Str("N/A")
    ensures metadata.Some? && "arxiv_id" !in metadata.value ==> c.paperId == Str("N/A")
    ensures metadata.Some? && "arxiv_id" in metadata.value ==> c.paperId == metadata.value["arxiv_id"]
  {
    var pid := if metadata.Some? then Get(metadata.value, "arxiv_id", Str("N/A")) else Str("N/A");
    Checker(metadata, requiredKeywords, minMatchThreshold, pid)
  }

  /** The normal form a keyword is compared in: `k.strip().lower()`. */
  function Key(k: string): string {
    Lower(Strip(k))
  }

  /** A keyword is dropped (`if k.strip()`) exactly when its normal form is empty. */
  lemma KeyBlank(k: string)
    ensures Key(k) == "" <==> Strip(k) == ""
  {
  }

  /** `{k.strip().lower() for k in ks if k.strip()}` over a list of strings. */
  function KeySet(ks: seq<string>): (r: set<string>)
    ensures forall i :: 0 <= i < |ks| && Strip(ks[i]) != "" ==> Key(ks[i]) in r
  {
    set i | 0 <= i < |ks| && Strip(ks[i]) != "" :: Key(ks[i])
  }

  /** Every member of a keyword set is the normal form of a non-blank keyword, so never empty. */
  lemma KeySetMembers(ks: seq<string>, x: string)
    requires x in KeySet(ks)
    ensures x != ""
    ensures exists i :: 0 <= i < |ks| && Strip(ks[i]) != "" && Key(ks[i]) == x
  {
    var i :| 0 <= i < |ks| && Strip(ks[i]) != "" && Key(ks[i]) == x;
    KeyBlank(ks[i]);
  }

  /** The required keywords, normalised (`required_keywords_set`). */
  function RequiredSet(required: seq<string>): set<string> {
    KeySet(required)
  }

  /** An item a comprehension guarded by `if k and k.strip()` fails on: truthy, so
      `k.strip()` is evaluated, but not a string. */
  predicate HasStrippableItem(xs: seq<Value>) {
    exists i :: 0 <= i < |xs| && Truthy(xs[i]) && !xs[i].Str?
  }

  /** The normal forms of the non-blank string items of a list. */
  function ItemKeySet(xs: seq<Value>): (r: set<string>)
    ensures forall i :: 0 <= i < |xs| && xs[i].Str? && Strip(xs[i].s) != "" ==> Key(xs[i].s) in r
  {
    set i | 0 <= i < |xs| && xs[i].Str? && Strip(xs[i].s) != "" :: Key(xs[i].s)
  }

  /** The paper's keyword value, normalised (`ai_keywords_set`). Falsy items are
      skipped by `if k`; a truthy item that is not a string has no `strip`.
      Iterating a string visits its characters and iterating a dictionary its keys;
      anything else is not iterable. */
  function PaperKeywordSet(v: Value): (r: Result<set<string>>)
    ensures v.List? && !HasStrippableItem(v.items) ==> r == Ok(ItemKeySet(v.items))
    ensures v.List? && HasStrippableItem(v.items) ==> r == Raise(AttributeError)
    ensures v.Null? || v.Int? || v.Bool? ==> r == Raise(TypeError)
    ensures r.Raise? ==> r.exc == AttributeError || r.exc == TypeError
  {
    match v
    case List(xs) =>
      if HasStrippableItem(xs) then Raise(AttributeError)
      else Ok(ItemKeySet(xs))
    case Str(s) => Ok(set i | 0 <= i < |s| && Strip([s[i]]) != "" :: Key([s[i]]))
    case Dict(m) => Ok(set k | k in m && Strip(k) != "" :: Key(k))
    case _ => Raise(TypeError)
  }

  /** `check_relevance()`: false without metadata or required keywords;
      otherwise whether the normalised sets share at least the threshold. */
  function CheckRelevance(c: Checker): (r: Result<bool>)
    ensures c.metadata.None? || c.metadata.value == map[] || c.requiredKeywords == [] ==> r == Ok(false)
    ensures c.metadata.Some? && c.metadata.value != map[] && c.requiredKeywords != [] ==>
      var paperSet := PaperKeywordSet(Get(c.metadata.value, "ai_keywords", List([])));
      (paperSet.Raise? ==> r == Raise(paperSet.exc)) &&
      (paperSet.Ok? ==> r == Ok(|paperSet.value * RequiredSet(c.requiredKeywords)| >= c.minMatchThreshold))
    ensures r.Raise? ==> r.exc == AttributeError || r.exc == TypeError
  {
    if c.metadata.None? || c.metadata.value == map[] || c.requiredKeywords == [] then Ok(false)
    else
      var paperSet :- PaperKeywordSet(Get(c.metadata.value, "ai_keywords", List([])));
      var requiredSet := RequiredSet(c.requiredKeywords);
      Ok(|paperSet * requiredSet| >= c.minMatchThreshold)
  }

  /** The decision for metadata whose `ai_keywords` is a list of strings. */
  function Decide(aiKeywords: seq<string>, required: seq<string>, threshold: int): bool {
    |KeySet(aiKeywords) * KeySet(required)| >= threshold
  }

  lemma ItemKeySetOfStrings(xs: seq<string>)
    ensures !HasStrippableItem(StrList(xs).items)
    ensures ItemKeySet(StrList(xs).items) == KeySet(xs)
  {
    var items := StrList(xs).items;
    forall x | x in KeySet(xs) ensures x in ItemKeySet(items) {
      var i :| 0 <= i < |xs| && Strip(xs[i]) != "" && Key(xs[i]) == x;
      assert items[i] == Str(xs[i]);
    }
  }

  /** With a list of string keywords, `check_relevance` is `Decide`. */
  lemma CheckRelevanceOfStrings(m: map<string, Value>, aiKeywords: seq<string>, required: seq<string>, threshold: int)
    requires m != map[] && required != []
    requires Get(m, "ai_keywords", List([])) == StrList(aiKeywords)
    ensures CheckRelevance(NewChecker(Some(m), required, threshold)) == Ok(Decide(aiKeywords, required, threshold))
  {
    ItemKeySetOfStrings(aiKeywords);
  }

  /** Missing metadata, empty metadata or no required keywords: not relevant. */
  lemma NoInputNotRelevant(c: Checker)
    requires c.metadata.None? || c.metadata == Some(map[]) || c.requiredKeywords == []
    ensures CheckRelevance(c) == Ok(false)
  {
  }

  /** Metadata without `ai_keywords` (or with an empty list) is never relevant for a positive threshold. */
  lemma MissingPaperKeywordsNotRelevant(m: map<string, Value>, required: seq<string>, threshold: int)
    requires threshold >= 1
    requires "ai_keywords" !in m || m["ai_keywords"] == List([])
    ensures CheckRelevance(NewChecker(Some(m), required, threshold)) == Ok(false)
  {
    if m != map[] && required != [] {
      assert ItemKeySet([]) == {};
    }
  }

  /** With the default threshold a paper is relevant exactly when one paper
      keyword and one required keyword, neither blank, agree after strip and lower. */
  lemma DefaultThresholdMeansCommonKeyword(aiKeywords: seq<string>, required: seq<string>)
    ensures Decide(aiKeywords, required, DefaultMinMatchThreshold) <==>
      exists i, j :: 0 <= i < |aiKeywords| && 0 <= j < |required| &&
        Strip(aiKeywords[i]) != "" && Key(aiKeywords[i]) == Key(required[j])
  {
    var common := KeySet(aiKeywords) * KeySet(required);
    if common != {} {
      var x :| x in common;
      KeySetMembers(aiKeywords, x);
      KeySetMembers(required, x);
      var i :| 0 <= i < |aiKeywords| && Strip(aiKeywords[i]) != "" && Key(aiKeywords[i]) == x;
      var j :| 0 <= j < |required| && Strip(required[j]) != "" && Key(required[j]) == x;
      assert Key(aiKeywords[i]) == Key(required[j]);
    }
    if exists i, j :: 0 <= i < |aiKeywords| && 0 <= j < |required| &&
        Strip(aiKeywords[i]) != "" && Key(aiKeywords[i]) == Key(required[j]) {
      var i, j :| 0 <= i < |aiKeywords| && 0 <= j < |required| &&
        Strip(aiKeywords[i]) != "" && Key(aiKeywords[i]) == Key(required[j]);
      KeyBlank(required[j]);
      KeyBlank(aiKeywords[i]);
      assert Key(aiKeywords[i]) in common;
    }
  }

  /** Two keyword lists that agree item by item up to case and surrounding whitespace. */
  predicate SameUpToCaseAndSpace(xs: seq<string>, ys: seq<string>) {
    |xs| == |ys| && forall i :: 0 <= i < |xs| ==> Key(xs[i]) == Key(ys[i])
  }

  lemma PartnerKeyPresent(xs: seq<string>, ys: seq<string>, i: int)
    requires SameUpToCaseAndSpace(xs, ys) && 0 <= i < |xs| && Strip(xs[i]) != ""
    ensures Key(xs[i]) in KeySet(ys)
  {
    KeyBlank(xs[i]);
    KeyBlank(ys[i]);
  }

  lemma KeySetIncluded(xs: seq<string>, ys: seq<string>)
    requires SameUpToCaseAndSpace(xs, ys)
    ensures KeySet(xs) <= KeySet(ys)
  {
    forall x | x in KeySet(xs) ensures x in KeySet(ys) {
      var i :| 0 <= i < |xs| && Strip(xs[i]) != "" && Key(xs[i]) == x;
      PartnerKeyPresent(xs, ys, i);
    }
  }

  /** Changing the case or the surrounding whitespace of any keyword, on either side, never changes the decision. */
  lemma DecisionIgnoresCaseAndSpace(ai1: seq<string>, ai2: seq<string>, req1: seq<string>, req2: seq<string>, threshold: int)
    requires SameUpToCaseAndSpace(ai1, ai2) && SameUpToCaseAndSpace(req1, req2)
    ensures Decide(ai1, req1, threshold) == Decide(ai2, req2, threshold)
  {
    KeySetSame(ai1, ai2);
    KeySetSame(req1, req2);
  }

  lemma KeySetSame(xs: seq<string>, ys: seq<string>)
    requires SameUpToCaseAndSpace(xs, ys)
    ensures KeySet(xs) == KeySet(ys)
  {
    KeySetIncluded(xs, ys);
    KeySetIncluded(ys, xs);
  }

  /** Padding a keyword with whitespace keeps its normal form. */
  lemma KeyOfPadded(w1: string, k: string, w2: string)
    requires AllSpace(w1) && AllSpace(w2)
    ensures Key(w1 + k + w2) == Key(k)
  {
    StripPadded(w1, k, w2);
  }

  /** The case of a keyword does not change its normal form: two keywords that
      lower-case to the same text have the same key. */
  lemma KeyIgnoresCase(k1: string, k2: string)
    requires Lower(k1) == Lower(k2)
    ensures Key(k1) == Key(k2)
  {
    KeyOfLower(k1);
    KeyOfLower(k2);
  }

  /** Lists whose items differ only in letter case are the same up to case and space,
      so `DecisionIgnoresCaseAndSpace` applies to them. */
  lemma CaseVariantsAgree(xs: seq<string>, ys: seq<string>)
    requires |xs| == |ys| && forall i :: 0 <= i < |xs| ==> Lower(xs[i]) == Lower(ys[i])
    ensures SameUpToCaseAndSpace(xs, ys)
  {
    forall i | 0 <= i < |xs| ensures Key(xs[i]) == Key(ys[i]) {
      KeyIgnoresCase(xs[i], ys[i]);
    }
  }

  lemma KeyOfLower(k: string)
    ensures Key(Lower(k)) == Key(k)
  {
    StripLower(k);
    LowerIdempotent(Strip(k));
  }

  lemma {:induction false} SubsetCardinality<T>(a: set<T>, b: set<T>)
    requires a <= b
    ensures |a| <= |b|
    decreases |b|
  {
    if b != {} {
      var x :| x in b;
      SubsetCardinality(a - {x}, b - {x});
    }
  }

  lemma KeySetAppend(xs: seq<string>, ys: seq<string>)
    ensures KeySet(xs) <= KeySet(xs + ys)
  {
    forall x | x in KeySet(xs) ensures x in KeySet(xs + ys) {
      var i :| 0 <= i < |xs| && Strip(xs[i]) != "" && Key(xs[i]) == x;
      assert (xs + ys)[i] == xs[i];
    }
  }

  /** Adding paper keywords or required keywords never lowers the match count,
      so a relevant paper stays relevant. */
  lemma DecisionMonotone(ai: seq<string>, moreAi: seq<string>, req: seq<string>, moreReq: seq<string>, threshold: int)
    requires Decide(ai, req, threshold)
    ensures Decide(ai + moreAi, req + moreReq, threshold)
  {
    KeySetAppend(ai, moreAi);
    KeySetAppend(req, moreReq);
    var small := KeySet(ai) * KeySet(req);
    var big := KeySet(ai + moreAi) * KeySet(req + moreReq);
    SubsetCardinality(small, big);
  }
}
