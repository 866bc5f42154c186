/** Bookkeeping of the paper index: a paper's text is cut into chunks, every
    chunk is stamped with the paper's source URL and the hash of its text, the
    chunks go into an append-only store in batches of twenty, and a search can
    be restricted to the chunks of one paper by that hash. The Markdown
    splitter, the sha256 digest and the similarity ranking are collaborators
    passed in as functions. */
module PaperRagProcessor {
  import opened Py

  const BatchSize: nat := 20
  const DefaultSearchK: nat := 4
  const UnknownUrl: string := "unknown_url"
  const SourceKey: string := "source"
  const HashKey: string := "article_hash"

  /** A chunk as the splitter produces it and the vector store keeps it. */
  datatype Document = Document(pageContent: string, metadata: map<string, Value>)

  /** The collaborators of indexing: the splitter (which may raise), the hex
      digest of a text, and the position of the first batch whose insertion
      into the store raises, if any. */
  datatype Indexer = Indexer(
    split: string -> Result<seq<Document>>,
    digest: string -> string,
    failingBatch: Option<nat>)

  function Min(a: int, b: int): int {
    if a <= b then a else b
  }

  /** The chunk carries the given source and hash in its metadata. */
  predicate HasStamp(d: Document, source: Value, hash: string) {
    SourceKey in d.metadata && d.metadata[SourceKey] == source &&
    HashKey in d.metadata && d.metadata[HashKey] == Str(hash)
  }

  /** The chunk belongs to the paper with this hash. */
  predicate HasHash(d: Document, hash: string) {
    HashKey in d.metadata && d.metadata[HashKey] == Str(hash)
  }

  /** Stamping sets `source` and `article_hash` and keeps the text and every other metadata entry. */
  function Stamp(d: Document, source: Value, hash: string): (r: Document)
    ensures HasStamp(r, source, hash)
    ensures r.pageContent == d.pageContent
    ensures r.metadata.Keys == d.metadata.Keys + {SourceKey, HashKey}
    ensures forall k :: k in d.metadata && k != SourceKey && k != HashKey ==> r.metadata[k] == d.metadata[k]
  {
    Document(d.pageContent, d.metadata[SourceKey := source][HashKey := Str(hash)])
  }

  /** Every chunk of the list, stamped. */
  function StampAll(chunks: seq<Document>, source: Value, hash: string): (r: seq<Document>)
    ensures |r| == |chunks|
    ensures forall i :: 0 <= i < |r| ==> HasStamp(r[i], source, hash)
    ensures forall i :: 0 <= i < |r| ==> r[i].pageContent == chunks[i].pageContent
  {
    seq(|chunks|, i requires 0 <= i < |chunks| => Stamp(chunks[i], source, hash))
  }

  /** The loop that writes the two metadata entries into every chunk. */
  method StampChunks(chunks: seq<Document>, source: Value, hash: string) returns (stamped: seq<Document>)
    ensures stamped == StampAll(chunks, source, hash)
  {
    stamped := chunks;
    var i := 0;
    while i < |stamped|
      invariant 0 <= i <= |stamped| == |chunks|
      invariant forall j :: 0 <= j < i ==> stamped[j] == Stamp(chunks[j], source, hash)
      invariant forall j :: i <= j < |stamped| ==> stamped[j] == chunks[j]
    {
      stamped := stamped[i := Stamp(stamped[i], source, hash)];
      i := i + 1;
    }
  }

  /** `xs[i : i + 20]` for `i` in `range(0, len(xs), 20)`. */
  function Batches<T>(xs: seq<T>): (r: seq<seq<T>>)
    decreases |xs|
  {
    if xs == [] then []
    else if |xs| <= BatchSize then [xs]
    else [xs[..BatchSize]] + Batches(xs[BatchSize..])
  }

  function Concat<T>(bs: seq<seq<T>>): seq<T> {
    if bs == [] then [] else bs[0] + Concat(bs[1..])
  }

  /** The batches, in order, make up exactly the chunk list. */
  lemma {:induction false} BatchesCover<T>(xs: seq<T>)
    ensures Concat(Batches(xs)) == xs
    decreases |xs|
  {
    if |xs| > BatchSize {
      BatchesCover(xs[BatchSize..]);
      assert xs == xs[..BatchSize] + xs[BatchSize..];
    }
  }

  /** No batch is empty and none holds more than twenty chunks. */
  lemma {:induction false} BatchesBounded<T>(xs: seq<T>)
    ensures forall j :: 0 <= j < |Batches(xs)| ==> 0 < |Batches(xs)[j]| <= BatchSize
    decreases |xs|
  {
    if |xs| > BatchSize {
      BatchesBounded(xs[BatchSize..]);
    }
  }

  /** There are ceil(n / 20) batches. */
  lemma {:induction false} BatchesCount<T>(xs: seq<T>)
    ensures |Batches(xs)| == (|xs| + BatchSize - 1) / BatchSize
    decreases |xs|
  {
    if |xs| > BatchSize {
      BatchesCount(xs[BatchSize..]);
    }
  }

  /** Batch j is the slice that starts at chunk 20 * j. */
  lemma {:induction false} BatchAt<T>(xs: seq<T>, j: nat)
    requires j < |Batches(xs)|
    ensures j * BatchSize < |xs|
    ensures Batches(xs)[j] == xs[j * BatchSize .. Min(j * BatchSize + BatchSize, |xs|)]
    decreases j
  {
    if j > 0 {
      var rest := xs[BatchSize..];
      BatchAt(rest, j - 1);
      assert Batches(xs)[j] == Batches(rest)[j - 1];
      var lo := (j - 1) * BatchSize;
      var hi := Min(lo + BatchSize, |rest|);
      assert BatchSize + lo == j * BatchSize;
      assert BatchSize + hi == Min(j * BatchSize + BatchSize, |xs|);
      SliceOfDrop(xs, BatchSize, lo, hi);
    }
  }

  lemma SliceOfDrop<T>(xs: seq<T>, k: nat, lo: nat, hi: nat)
    requires k <= |xs| && lo <= hi <= |xs| - k
    ensures xs[k..][lo..hi] == xs[k + lo..k + hi]
  {
  }

  /** The chunks of the store that belong to the paper with this hash, in store order. */
  function Matching(store: seq<Document>, hash: string): (r: seq<Document>)
    ensures |r| <= |store|
    ensures forall d :: d in r <==> d in store && HasHash(d, hash)
  {
    if store == [] then []
    else if HasHash(store[0], hash) then [store[0]] + Matching(store[1..], hash)
    else Matching(store[1..], hash)
  }

  lemma {:induction false} MatchingAppend(s: seq<Document>, t: seq<Document>, hash: string)
    ensures Matching(s + t, hash) == Matching(s, hash) + Matching(t, hash)
    decreases |s|
  {
    if s != [] {
      assert (s + t)[1..] == s[1..] + t;
      MatchingAppend(s[1..], t, hash);
    } else {
      assert s + t == t;
    }
  }

  lemma {:induction false} MatchingNone(chunks: seq<Document>, hash: string)
    requires forall i :: 0 <= i < |chunks| ==> !HasHash(chunks[i], hash)
    ensures Matching(chunks, hash) == []
    decreases |chunks|
  {
    if chunks != [] {
      MatchingNone(chunks[1..], hash);
    }
  }

  /** `if article_hash:` — only a non-empty hash restricts the search. */
  function Candidates(store: seq<Document>, articleHash: Option<string>): (r: seq<Document>)
    ensures articleHash.None? || articleHash.value == "" ==> r == store
    ensures articleHash.Some? && articleHash.value != "" ==> r == Matching(store, articleHash.value)
  {
    if articleHash.Some? && articleHash.value != "" then Matching(store, articleHash.value) else store
  }

  /** The first k candidates at the ranked positions. */
  function Pick(cands: seq<Document>, ranked: seq<nat>, k: nat): (r: seq<Document>)
    ensures |r| <= k
    ensures forall i :: 0 <= i < |r| ==> r[i] in cands
    decreases |ranked|
  {
    if ranked == [] || k == 0 then []
    else if ranked[0] < |cands| then [cands[ranked[0]]] + Pick(cands, ranked[1..], k - 1)
    else Pick(cands, ranked[1..], k)
  }

  /** Chunks of a paper indexed under another hash never enter a search for this one. */
  lemma IndexingIsolated(store: seq<Document>, chunks: seq<Document>, source: Value, other: string, hash: string)
    requires hash != other
    ensures Matching(store + StampAll(chunks, source, other), hash) == Matching(store, hash)
  {
    var added := StampAll(chunks, source, other);
    MatchingAppend(store, added, hash);
    MatchingNone(added, hash);
  }

  lemma {:induction false} MatchingAllStamped(chunks: seq<Document>, hash: string)
    requires forall i :: 0 <= i < |chunks| ==> HasHash(chunks[i], hash)
    ensures Matching(chunks, hash) == chunks
    decreases |chunks|
  {
    if chunks != [] {
      MatchingAllStamped(chunks[1..], hash);
    }
  }

  /** After indexing, a search by the paper's hash sees its earlier chunks followed by all new ones. */
  lemma IndexedRetrievable(store: seq<Document>, chunks: seq<Document>, source: Value, hash: string)
    ensures Matching(store + StampAll(chunks, source, hash), hash)
         == Matching(store, hash) + StampAll(chunks, source, hash)
  {
    var added := StampAll(chunks, source, hash);
    MatchingAppend(store, added, hash);
    MatchingAllStamped(added, hash);
  }

  /** The processor, holding the in-memory vector store. */
  class RagProcessor {
    var store: seq<Document>

    constructor()
      ensures store == []
    {
      store := [];
    }

    /** Index a paper given as a dictionary with `paper_url` and `text_content`.
        The ghost result is the list of batches handed to the store. */
    method ProcessPaper(paperData: map<string, Value>, env: Indexer)
      returns (r: Result<Option<string>>, ghost inserted: seq<seq<Document>>)
      modifies this
      ensures var text := Get(paperData, "text_content", Null);
        !Truthy(text) ==> r == Ok(None) && store == old(store)
      ensures var text := Get(paperData, "text_content", Null);
        Truthy(text) && !text.Str? ==> r == Raise(AttributeError) && store == old(store)
      ensures var text := Get(paperData, "text_content", Null);
        Truthy(text) && text.Str? && env.split(text.s).Raise? ==> r == Ok(None) && store == old(store)
      ensures var text := Get(paperData, "text_content", Null);
        Truthy(text) && text.Str? && env.split(text.s).Ok? ==>
          var chunks := StampAll(env.split(text.s).value,
                                 Get(paperData, "paper_url", Str(UnknownUrl)), env.digest(text.s));
          if env.failingBatch.Some? && env.failingBatch.value < |Batches(chunks)| then
            var b := env.failingBatch.value;
            r == Ok(None) && b * BatchSize < |chunks| &&
            store == old(store) + chunks[..b * BatchSize] && inserted == Batches(chunks)[..b]
          else
            r == Ok(Some(env.digest(text.s))) &&
            store == old(store) + chunks && inserted == Batches(chunks)
    {
      inserted := [];
      var paperUrl := Get(paperData, "paper_url", Str(UnknownUrl));
      var text := Get(paperData, "text_content", Null);
      if !Truthy(text) {
        return Ok(None), inserted;
      }
      if !text.Str? {
        return Raise(AttributeError), inserted;
      }
      var articleHash := env.digest(text.s);
      var split := env.split(text.s);
      if split.Raise? {
        return Ok(None), inserted;
      }
      var chunks := StampChunks(split.value, paperUrl, articleHash);
      var failed;
      failed, inserted := InsertBatches(chunks, env.failingBatch);
      if failed {
        return Ok(None), inserted;
      }
      return Ok(Some(articleHash)), inserted;
    }

    /** The `range(0, n, 20)` loop handing the batches to the store; it stops
        at the batch whose insertion raises. */
    method InsertBatches(chunks: seq<Document>, failingBatch: Option<nat>)
      returns (failed: bool, ghost inserted: seq<seq<Document>>)
      modifies this
      ensures failed <==> failingBatch.Some? && failingBatch.value < |Batches(chunks)|
      ensures failed ==>
        (failingBatch.value * BatchSize < |chunks| &&
         store == old(store) + chunks[..failingBatch.value * BatchSize] &&
         inserted == Batches(chunks)[..failingBatch.value])
      ensures !failed ==> store == old(store) + chunks && inserted == Batches(chunks)
    {
      inserted := [];
      var total := |chunks|;
      BatchesCount(chunks);
      var i := 0;
      while i < total
        invariant i % BatchSize == 0
        invariant 0 <= i / BatchSize <= |Batches(chunks)|
        invariant i < total ==> i / BatchSize < |Batches(chunks)|
        invariant i >= total ==> i / BatchSize == |Batches(chunks)|
        invariant store == old(store) + chunks[..Min(i, total)]
        invariant inserted == Batches(chunks)[..i / BatchSize]
        invariant failingBatch.Some? ==> i / BatchSize <= failingBatch.value
        decreases total - i
      {
        var batch := chunks[i .. Min(i + BatchSize, total)];
        BatchAt(chunks, i / BatchSize);
        if failingBatch == Some(i / BatchSize) {
          return true, inserted;
        }
        assert chunks[..Min(i + BatchSize, total)] == chunks[..i] + batch;
        store := store + batch;
        assert Batches(chunks)[..i / BatchSize + 1] == inserted + [batch];
        inserted := inserted + [batch];
        i := i + BatchSize;
      }
      assert chunks[..Min(i, total)] == chunks;
      return false, inserted;
    }

    /** Similarity search, restricted to one paper when its hash is given.
        `rank` orders the candidates by similarity to the query (it may raise). */
    function Search(query: string, k: nat, articleHash: Option<string>,
                    rank: (string, seq<Document>) -> Result<seq<nat>>): (r: seq<Document>)
      reads this
      ensures |r| <= k
      ensures forall i :: 0 <= i < |r| ==> r[i] in store
      ensures articleHash.Some? && articleHash.value != "" ==>
        forall i :: 0 <= i < |r| ==> HasHash(r[i], articleHash.value)
      ensures rank(query, Candidates(store, articleHash)).Raise? ==> r == []
    {
      var cands := Candidates(store, articleHash);
      match rank(query, cands)
      case Raise(_) => []
      case Ok(ranked) => Pick(cands, ranked, k)
    }
  }
}
