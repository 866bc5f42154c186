/** `PaperMetadataExtractor`: Hugging Face paper JSON flattened into the
    workflow's metadata dictionary, with the ArXiv API as a fallback.
    The HTTP exchanges and the XML parse are inputs: `HfResponse` is what
    `requests.get(...).json()` produced, `ArxivResponse` what the ArXiv query
    and `ElementTree` produced. */
module PaperMetadata {
  import opened Py
  import opened Text

  const HuggingfacePapersWebBaseUrl: string := "https://huggingface.co/papers/"
  const HuggingfaceSinglePaperApiBaseUrl: string := "https://huggingface.co/api/papers/"
  const ArxivPdfBaseUrl: string := "https://arxiv.org/pdf/"

  /** `self.api_url`, set by `__init__`. */
  function ApiUrl(paperId: string): (r: string)
    ensures StartsWith(r, HuggingfaceSinglePaperApiBaseUrl) && r[|HuggingfaceSinglePaperApiBaseUrl|..] == paperId
  {
    HuggingfaceSinglePaperApiBaseUrl + paperId
  }

  /** The Hugging Face exchange: a transport or HTTP-status error (`RequestException`),
      a body that is not JSON (`ValueError`), or the decoded JSON value. */
  datatype HfResponse = HfRequestFailed | HfNotJson | HfJson(body: Value)

  /** An element looked up with `find`: absent, present with `.text` None, or present with text. */
  datatype XmlText = Missing | NoText | Text(s: string)

  /** The parsed ArXiv feed: unparsable XML, no `entry`, or the first entry's fields. */
  datatype ArxivFeed =
    | Unparsable
    | NoEntry
    | Entry(title: XmlText, summary: XmlText, published: XmlText, authorNames: seq<XmlText>)

  /** The ArXiv exchange: a transport error, or the status code and the parsed body. */
  datatype ArxivResponse = ArxivRequestFailed | ArxivReply(statusCode: int, feed: ArxivFeed)

  /** The keys of the Hugging Face dictionary (step 2). */
  const HfKeys: set<string> := {
    "id", "title", "publishedAt", "submittedOnDailyAt", "hf_paper_url", "arxiv_pdf_url",
    "github_repo", "upvotes", "authors_names", "ai_summary", "ai_keywords", "summary",
    "submitter_fullname", "submitter_username", "submitter_isPro", "submitter_followerCount"}

  /** The keys of the ArXiv fallback dictionary. */
  const FallbackKeys: set<string> := {
    "id", "title", "publishedAt", "hf_paper_url", "arxiv_pdf_url", "github_repo", "upvotes",
    "authors_names", "ai_summary", "ai_keywords", "summary", "source"}

  // ---------------------------------------------------------------- authors

  /** `[a.get("name") for a in authors if a.get("name")]`. */
  function NamedAuthors(authors: seq<Value>): (r: Result<seq<Value>>)
    ensures r.Ok? <==> forall i :: 0 <= i < |authors| ==> authors[i].Dict?
    ensures r.Ok? ==> forall j :: 0 <= j < |r.value| ==> Truthy(r.value[j])
    ensures r.Ok? ==> |r.value| <= |authors|
    decreases |authors|
    ensures r.Raise? ==> r.exc == AttributeError || r.exc == TypeError
  {
    if authors == [] then Ok([])
    else
      var name :- GetOn(authors[0], "name", Null);
      var rest :- NamedAuthors(authors[1..]);
      assert forall i :: 1 <= i < |authors| ==> authors[i] == authors[1..][i - 1];
      Ok(if Truthy(name) then [name] + rest else rest)
  }

  /** `", ".join(vs)`: every item must be a string. */
  function JoinValues(sep: string, vs: seq<Value>): (r: Result<string>)
    ensures r.Ok? <==> forall i :: 0 <= i < |vs| ==> vs[i].Str?
    ensures r.Ok? && |vs| == 1 ==> r.value == vs[0].s
    decreases |vs|
    ensures r.Raise? ==> r.exc == AttributeError || r.exc == TypeError
  {
    if vs == [] then Ok("")
    else if !vs[0].Str? then Raise(TypeError)
    else
      var rest :- JoinValues(sep, vs[1..]);
      assert forall i :: 1 <= i < |vs| ==> vs[i] == vs[1..][i - 1];
      Ok(if |vs| == 1 then vs[0].s else vs[0].s + sep + rest)
  }

  /** The names of a list of authors, when every author is a dictionary whose name is a string or absent. */
  function NamesOf(authors: seq<map<string, Value>>): seq<string>
  {
    if authors == [] then []
    else
      var name := Get(authors[0], "name", Null);
      (if name.Str? && name.s != "" then [name.s] else []) + NamesOf(authors[1..])
  }

  predicate WellFormedAuthor(a: map<string, Value>) {
    var name := Get(a, "name", Null);
    name.Str? || !Truthy(name)
  }

  function Dicts(authors: seq<map<string, Value>>): (r: seq<Value>)
    ensures |r| == |authors| && forall i :: 0 <= i < |authors| ==> r[i] == Dict(authors[i])
  {
    seq(|authors|, i requires 0 <= i < |authors| => Dict(authors[i]))
  }

  /** For well-formed authors, `authors_names` is the ", "-join, in order, of the non-empty names. */
  lemma {:induction false} AuthorsNamesJoin(authors: seq<map<string, Value>>)
    requires forall i :: 0 <= i < |authors| ==> WellFormedAuthor(authors[i])
    ensures NamedAuthors(Dicts(authors)).Ok?
    ensures |NamedAuthors(Dicts(authors)).value| == |NamesOf(authors)|
    ensures JoinValues(", ", NamedAuthors(Dicts(authors)).value) == Ok(Join(", ", NamesOf(authors)))
  {
    if authors != [] {
      assert Dicts(authors)[1..] == Dicts(authors[1..]);
      AuthorsNamesJoin(authors[1..]);
      var name := Get(authors[0], "name", Null);
      var rest := NamedAuthors(Dicts(authors[1..])).value;
      assert Dicts(authors)[0] == Dict(authors[0]);
      if !Truthy(name) {
        assert NamedAuthors(Dicts(authors)).value == rest;
        assert NamesOf(authors) == NamesOf(authors[1..]);
      } else {
        assert NamedAuthors(Dicts(authors)).value == [name] + rest;
        assert ([name] + rest)[1..] == rest;
        var names := NamesOf(authors[1..]);
        assert NamesOf(authors) == [name.s] + names;
        assert ([name.s] + names)[1..] == names;
        if rest == [] {
          assert JoinValues(", ", [name] + rest) == Ok(name.s);
        } else {
          assert JoinValues(", ", [name] + rest) == Ok(name.s + ", " + JoinValues(", ", rest).value);
        }
      }
    }
  }

  // ---------------------------------------------------------- step 2 (HF)

  /** `x.get(k1) or y.get(k2) or 0` where `y.get` is only evaluated when the first is falsy. */
  function FollowerCount(submittedByRaw: Value, submitterDetail: Value): (r: Result<Value>)
    ensures r.Ok? ==> Truthy(r.value) || r.value == Int(0)
    ensures submittedByRaw.Dict? && submitterDetail.Dict? ==>
      r == Ok(Or(Or(Get(submittedByRaw.entries, "followerCount", Null),
                    Get(submitterDetail.entries, "followerCount", Null)), Int(0)))
    ensures r.Raise? ==> r.exc == AttributeError || r.exc == TypeError
  {
    var fromRaw :- GetOn(submittedByRaw, "followerCount", Null);
    if Truthy(fromRaw) then Ok(fromRaw)
    else
      var fromDetail :- GetOn(submitterDetail, "followerCount", Null);
      Ok(Or(fromDetail, Int(0)))
  }

  /** The dictionary literal of step 2. */
  function HfInfo(id: Value, title: Value, publishedAt: Value, submittedOnDailyAt: Value,
                  hfPaperUrl: Value, arxivPdfUrl: Value, githubRepo: Value, upvotes: Value,
                  authorsNames: Value, aiSummary: Value, aiKeywords: Value, summary: Value,
                  fullname: Value, username: Value, isPro: Value, followerCount: Value): (r: map<string, Value>)
    ensures r.Keys == HfKeys
    ensures r["id"] == id && r["title"] == title && r["publishedAt"] == publishedAt
    ensures r["submittedOnDailyAt"] == submittedOnDailyAt && r["hf_paper_url"] == hfPaperUrl
    ensures r["arxiv_pdf_url"] == arxivPdfUrl && r["github_repo"] == githubRepo && r["upvotes"] == upvotes
    ensures r["authors_names"] == authorsNames && r["ai_summary"] == aiSummary
    ensures r["ai_keywords"] == aiKeywords && r["summary"] == summary
    ensures r["submitter_fullname"] == fullname && r["submitter_username"] == username
    ensures r["submitter_isPro"] == isPro && r["submitter_followerCount"] == followerCount
  {
    map k | k in HfKeys :: HfField(k, id, title, publishedAt, submittedOnDailyAt, hfPaperUrl, arxivPdfUrl,
                                   githubRepo, upvotes, authorsNames, aiSummary, aiKeywords, summary,
                                   fullname, username, isPro, followerCount)
  }

  /** The value the dictionary literal of step 2 gives a key. */
  function HfField(k: string, id: Value, title: Value, publishedAt: Value, submittedOnDailyAt: Value,
                   hfPaperUrl: Value, arxivPdfUrl: Value, githubRepo: Value, upvotes: Value,
                   authorsNames: Value, aiSummary: Value, aiKeywords: Value, summary: Value,
                   fullname: Value, username: Value, isPro: Value, followerCount: Value): Value
  {
    if k == "id" then id
    else if k == "title" then title
    else if k == "publishedAt" then publishedAt
    else if k == "submittedOnDailyAt" then submittedOnDailyAt
    else if k == "hf_paper_url" then hfPaperUrl
    else if k == "arxiv_pdf_url" then arxivPdfUrl
    else if k == "github_repo" then githubRepo
    else if k == "upvotes" then upvotes
    else if k == "authors_names" then authorsNames
    else if k == "ai_summary" then aiSummary
    else if k == "ai_keywords" then aiKeywords
    else if k == "summary" then summary
    else if k == "submitter_fullname" then fullname
    else if k == "submitter_username" then username
    else if k == "submitter_isPro" then isPro
    else followerCount
  }

  /** Lines 61-66: the authors' names, ", "-joined. */
  function AuthorsString(paper: map<string, Value>): (r: Result<string>)
    ensures r.Raise? ==> r.exc == AttributeError || r.exc == TypeError
  {
    var authors :- IterForGet(Get(paper, "authors", List([])));
    var named :- NamedAuthors(authors);
    JoinValues(", ", named)
  }

  /** The four submitter fields of the dictionary. */
  datatype Submitter = Submitter(fullname: Value, username: Value, isPro: Value, followerCount: Value)

  /** Lines 72-80 and 97-101: the submitter record is `submittedOnDailyBy` when non-empty,
      else `submittedBy`; the follower count comes from either. */
  function SubmitterFields(raw: map<string, Value>, paper: map<string, Value>): (r: Result<Submitter>)
    ensures var detail := Get(paper, "submittedOnDailyBy", Dict(map[]));
      var byRaw := Get(raw, "submittedBy", Dict(map[]));
      detail.Dict? && byRaw.Dict? ==>
        var source := Or(detail, byRaw).entries;
        r == Ok(Submitter(Get(source, "fullname", Null),
                          Or(Get(source, "name", Null), Get(source, "user", Null)),
                          Get(source, "isPro", Null),
                          Or(Or(Get(byRaw.entries, "followerCount", Null),
                                Get(detail.entries, "followerCount", Null)), Int(0))))
    ensures r.Ok? ==> Truthy(r.value.followerCount) || r.value.followerCount == Int(0)
    ensures r.Raise? ==> r.exc == AttributeError || r.exc == TypeError
  {
    var submittedByRaw := Get(raw, "submittedBy", Dict(map[]));
    var submitterDetail := Get(paper, "submittedOnDailyBy", Dict(map[]));
    var submitterSource := Or(submitterDetail, submittedByRaw);
    var followers :- FollowerCount(submittedByRaw, submitterDetail);
    var fullname :- GetOn(submitterSource, "fullname", Null);
    // `fullname` succeeded, so the source is a dictionary and the next lookups cannot fail.
    var name := Get(submitterSource.entries, "name", Null);
    var user := Get(submitterSource.entries, "user", Null);
    var isPro := Get(submitterSource.entries, "isPro", Null);
    Ok(Submitter(fullname, Or(name, user), isPro, followers))
  }

  /** Step 2: the flattened dictionary, once `paper` is known to be a dictionary with an id. */
  function Flatten(paperId: string, raw: map<string, Value>, paper: map<string, Value>): (r: Result<map<string, Value>>)
    ensures r.Ok? <==> AuthorsString(paper).Ok? && SubmitterFields(raw, paper).Ok?
    ensures r.Ok? ==> r.value.Keys == HfKeys
    ensures r.Ok? ==> r.value["arxiv_pdf_url"] == Str(ArxivPdfBaseUrl + paperId)
    ensures r.Raise? ==> r.exc == AttributeError || r.exc == TypeError
  {
    var authorsString :- AuthorsString(paper);
    var sub :- SubmitterFields(raw, paper);
    Ok(HfInfo(
      Str(paperId),
      Get(paper, "title", Null),
      Get(paper, "publishedAt", Null),
      Or(Get(paper, "submittedOnDailyAt", Null), Get(raw, "submittedOnDailyAt", Null)),
      Str(HuggingfacePapersWebBaseUrl + paperId),
      Str(ArxivPdfBaseUrl + paperId),
      Get(paper, "githubRepo", Null),
      Get(paper, "upvotes", Null),
      Str(authorsString),
      Get(paper, "ai_summary", Null),
      Get(paper, "ai_keywords", List([])),
      Get(paper, "summary", Null),
      sub.fullname,
      sub.username,
      sub.isPro,
      sub.followerCount))
  }

  /** The fields of the flattened dictionary: the id and the two URLs built from
      it, the joined author names, the submitter record and the copied fields. */
  lemma FlattenFields(paperId: string, raw: map<string, Value>, paper: map<string, Value>)
    requires Flatten(paperId, raw, paper).Ok?
    ensures var md := Flatten(paperId, raw, paper).value;
      md["id"] == Str(paperId) &&
      md["hf_paper_url"] == Str(HuggingfacePapersWebBaseUrl + paperId) &&
      md["authors_names"] == Str(AuthorsString(paper).value)
    ensures var md := Flatten(paperId, raw, paper).value;
      var sub := SubmitterFields(raw, paper).value;
      md["submitter_fullname"] == sub.fullname && md["submitter_username"] == sub.username &&
      md["submitter_isPro"] == sub.isPro && md["submitter_followerCount"] == sub.followerCount
    ensures var md := Flatten(paperId, raw, paper).value;
      md["title"] == Get(paper, "title", Null) &&
      md["publishedAt"] == Get(paper, "publishedAt", Null) &&
      md["submittedOnDailyAt"] == Or(Get(paper, "submittedOnDailyAt", Null), Get(raw, "submittedOnDailyAt", Null)) &&
      md["github_repo"] == Get(paper, "githubRepo", Null) &&
      md["upvotes"] == Get(paper, "upvotes", Null) &&
      md["ai_summary"] == Get(paper, "ai_summary", Null) &&
      md["ai_keywords"] == Get(paper, "ai_keywords", List([])) &&
      md["summary"] == Get(paper, "summary", Null)
  {
  }

  /** `raw_data.get("paper", raw_data)`. */
  function PaperObject(raw: map<string, Value>): (r: Value)
    ensures "paper" in raw ==> r == raw["paper"]
    ensures "paper" !in raw ==> r == Dict(raw)
  {
    Get(raw, "paper", Dict(raw))
  }

  // ------------------------------------------------------------- fallback

  /** `.text.strip().replace("\n", " ")` of a found element: the stripped text with
      each newline turned into a space, so no newline is left and the length is kept.
      A missing element or a None `.text` has no `strip` (AttributeError). */
  function CleanText(t: XmlText): (r: Option<string>)
    ensures t.Text? ==> r == Some(Replace(Strip(t.s), "\n", " "))
    ensures t.Text? ==> '\n' !in r.value && |r.value| == |Strip(t.s)|
    ensures !t.Text? ==> r.None?
  {
    if t.Text? then
      ReplaceNewlines(Strip(t.s));
      Some(Replace(Strip(t.s), "\n", " "))
    else None
  }

  lemma {:induction false} ReplaceNewlines(s: string)
    ensures '\n' !in Replace(s, "\n", " ")
    ensures |Replace(s, "\n", " ")| == |s|
    decreases |s|
  {
    if s != [] {
      ReplaceNewlines(s[1..]);
    }
  }

  predicate AllText(ts: seq<XmlText>) {
    forall i :: 0 <= i < |ts| ==> ts[i].Text?
  }

  function Texts(ts: seq<XmlText>): (r: seq<string>)
    requires AllText(ts)
    ensures |r| == |ts| && forall i :: 0 <= i < |ts| ==> r[i] == ts[i].s
  {
    seq(|ts|, i requires 0 <= i < |ts| => ts[i].s)
  }

  /** The dictionary literal of the fallback. */
  function FallbackInfo(paperId: string, title: string, published: Value, authorsNames: string, summary: string): (r: map<string, Value>)
    ensures r.Keys == FallbackKeys
    ensures r["id"] == Str(paperId) && r["title"] == Str(title) && r["publishedAt"] == published
    ensures r["hf_paper_url"] == Null && r["arxiv_pdf_url"] == Str("https://arxiv.org/pdf/" + paperId + ".pdf")
    ensures r["github_repo"] == Null && r["upvotes"] == Int(0) && r["authors_names"] == Str(authorsNames)
    ensures r["ai_summary"] == Null && r["ai_keywords"] == List([]) && r["summary"] == Str(summary)
    ensures r["source"] == Str("arxiv_official")
  {
    map[
      "id" := Str(paperId), "title" := Str(title), "publishedAt" := published,
      "hf_paper_url" := Null, "arxiv_pdf_url" := Str("https://arxiv.org/pdf/" + paperId + ".pdf"),
      "github_repo" := Null, "upvotes" := Int(0), "authors_names" := Str(authorsNames),
      "ai_summary" := Null, "ai_keywords" := List([]), "summary" := Str(summary),
      "source" := Str("arxiv_official")]
  }

  /** A 200 reply whose entry has a title and a summary with text, a `published`
      element and a name text for every author: the lines of the fallback that
      raise nothing. */
  predicate CompleteEntry(response: ArxivResponse) {
    response.ArxivReply? && response.statusCode == 200 && response.feed.Entry? &&
    response.feed.title.Text? && response.feed.summary.Text? &&
    !response.feed.published.Missing? && AllText(response.feed.authorNames)
  }

  /** `_fetch_from_arxiv_fallback`: every failure, including an exception, is None;
      a complete entry gives the record of the paper id and the entry's fields. */
  function ArxivFallback(paperId: string, response: ArxivResponse): (r: Option<map<string, Value>>)
    ensures r.Some? <==> CompleteEntry(response)
    ensures r.Some? ==> r.value.Keys == FallbackKeys
    ensures r.Some? ==>
      var feed := response.feed;
      r.value["id"] == Str(paperId) &&
      r.value["title"] == Str(Replace(Strip(feed.title.s), "\n", " ")) &&
      r.value["summary"] == Str(Replace(Strip(feed.summary.s), "\n", " ")) &&
      r.value["publishedAt"] == (if feed.published.Text? then Str(feed.published.s) else Null) &&
      r.value["authors_names"] == Str(Join(", ", Texts(feed.authorNames)))
  {
    if response.ArxivRequestFailed? || response.statusCode != 200 then None
    else if !response.feed.Entry? then None
    else
      var Entry(title, summary, published, authorNames) := response.feed;
      if !title.Text? || !summary.Text? || published.Missing? || !AllText(authorNames) then None
      else
        var cleanTitle, cleanSummary := CleanText(title).value, CleanText(summary).value;
        var authorsNames := Join(", ", Texts(authorNames));
        Some(FallbackInfo(paperId, cleanTitle, if published.Text? then Str(published.s) else Null,
                          authorsNames, cleanSummary))
  }

  // ------------------------------------------------------------ top level

  /** `extract_metadata()`: Ok(None) is Python's None; a Raise is an exception that
      escapes (the `except` clause only catches request and decoding errors). */
  function ExtractMetadata(paperId: string, hf: HfResponse, arxiv: ArxivResponse): (r: Result<Option<map<string, Value>>>)
    ensures hf.HfJson? && !hf.body.Dict? ==> r == Raise(AttributeError)
    ensures !hf.HfJson? ==> r == Ok(ArxivFallback(paperId, arxiv))
    ensures r.Raise? ==> r.exc == AttributeError || r.exc == TypeError
  {
    match hf
    case HfRequestFailed => Ok(ArxivFallback(paperId, arxiv))
    case HfNotJson => Ok(ArxivFallback(paperId, arxiv))
    case HfJson(rawData) =>
      var paper :- GetOn(rawData, "paper", rawData);
      var id :- GetOn(paper, "id", Null);
      if !Truthy(id) then Ok(None)
      else
        var info :- Flatten(paperId, rawData.entries, paper.entries);
        Ok(Some(info))
  }

  // --------------------------------------------------------------- lemmas

  /** A paper object without a truthy `id` gives None, whatever ArXiv would say. */
  lemma NoIdGivesNone(paperId: string, raw: map<string, Value>, arxiv: ArxivResponse)
    requires PaperObject(raw).Dict? && !Truthy(Get(PaperObject(raw).entries, "id", Null))
    ensures ExtractMetadata(paperId, HfJson(Dict(raw)), arxiv) == Ok(None)
  {
  }

  /** Once Hugging Face answered with JSON, the ArXiv fallback is never consulted. */
  lemma HfJsonIgnoresArxiv(paperId: string, body: Value, a1: ArxivResponse, a2: ArxivResponse)
    ensures ExtractMetadata(paperId, HfJson(body), a1) == ExtractMetadata(paperId, HfJson(body), a2)
  {
  }

  /** A dictionary came back exactly when the paper object is a dictionary with a truthy
      `id` and flattening raised nothing; its fields are then those of `Flatten`. */
  lemma HfResult(paperId: string, raw: map<string, Value>, arxiv: ArxivResponse)
    ensures var r := ExtractMetadata(paperId, HfJson(Dict(raw)), arxiv);
      var paper := PaperObject(raw);
      (r.Ok? && r.value.Some?) <==>
        (paper.Dict? && Truthy(Get(paper.entries, "id", Null)) && Flatten(paperId, raw, paper.entries).Ok?)
    ensures var r := ExtractMetadata(paperId, HfJson(Dict(raw)), arxiv);
      r.Ok? && r.value.Some? ==> r.value.value == Flatten(paperId, raw, PaperObject(raw).entries).value
  {
  }

  /** The submitter is `submittedOnDailyBy` when that is non-empty, else `submittedBy`. */
  lemma SubmitterSource(detail: Value, byRaw: Value)
    ensures Truthy(detail) ==> Or(detail, byRaw) == detail
    ensures !Truthy(detail) ==> Or(detail, byRaw) == byRaw
  {
  }

  /** The follower count is the raw count if truthy, else the detail's if truthy, else 0. */
  lemma FollowerCountChain(byRaw: map<string, Value>, detail: map<string, Value>)
    ensures var r := FollowerCount(Dict(byRaw), Dict(detail)).value;
      var a := Get(byRaw, "followerCount", Null);
      var b := Get(detail, "followerCount", Null);
      (Truthy(a) ==> r == a) && (!Truthy(a) && Truthy(b) ==> r == b) && (!Truthy(a) && !Truthy(b) ==> r == Int(0))
  {
  }

  /** A well-shaped body never raises: a dictionary paper object with an id, a list of
      author dictionaries whose names are strings (or falsy), and dictionary submitters. */
  lemma WellShapedSucceeds(paperId: string, raw: map<string, Value>, authors: seq<map<string, Value>>, arxiv: ArxivResponse)
    requires PaperObject(raw).Dict?
    requires var paper := PaperObject(raw).entries;
      Truthy(Get(paper, "id", Null)) &&
      Get(paper, "authors", List([])) == List(Dicts(authors)) &&
      Get(paper, "submittedOnDailyBy", Dict(map[])).Dict? &&
      Get(raw, "submittedBy", Dict(map[])).Dict?
    requires forall i :: 0 <= i < |authors| ==> WellFormedAuthor(authors[i])
    ensures var r := ExtractMetadata(paperId, HfJson(Dict(raw)), arxiv);
      r.Ok? && r.value.Some? && r.value.value["authors_names"] == Str(Join(", ", NamesOf(authors)))
  {
    var paper := PaperObject(raw).entries;
    FlattenWellShaped(paperId, raw, paper, authors);
    HfResult(paperId, raw, arxiv);
  }

  lemma FlattenWellShaped(paperId: string, raw: map<string, Value>, paper: map<string, Value>, authors: seq<map<string, Value>>)
    requires Get(paper, "authors", List([])) == List(Dicts(authors))
    requires Get(paper, "submittedOnDailyBy", Dict(map[])).Dict? && Get(raw, "submittedBy", Dict(map[])).Dict?
    requires forall i :: 0 <= i < |authors| ==> WellFormedAuthor(authors[i])
    ensures Flatten(paperId, raw, paper).Ok?
    ensures Flatten(paperId, raw, paper).value["authors_names"] == Str(Join(", ", NamesOf(authors)))
  {
    WellShapedAuthors(paper, authors);
    WellShapedSubmitter(raw, paper);
    FlattenNames(paperId, raw, paper, Join(", ", NamesOf(authors)));
  }

  lemma FlattenNames(paperId: string, raw: map<string, Value>, paper: map<string, Value>, names: string)
    requires AuthorsString(paper) == Ok(names) && SubmitterFields(raw, paper).Ok?
    ensures Flatten(paperId, raw, paper).Ok?
    ensures Flatten(paperId, raw, paper).value["authors_names"] == Str(names)
  {
    FlattenFields(paperId, raw, paper);
  }

  lemma WellShapedAuthors(paper: map<string, Value>, authors: seq<map<string, Value>>)
    requires Get(paper, "authors", List([])) == List(Dicts(authors))
    requires forall i :: 0 <= i < |authors| ==> WellFormedAuthor(authors[i])
    ensures AuthorsString(paper) == Ok(Join(", ", NamesOf(authors)))
  {
    AuthorsNamesJoin(authors);
  }

  lemma WellShapedSubmitter(raw: map<string, Value>, paper: map<string, Value>)
    requires Get(paper, "submittedOnDailyBy", Dict(map[])).Dict? && Get(raw, "submittedBy", Dict(map[])).Dict?
    ensures SubmitterFields(raw, paper).Ok?
  {
  }

  /** The fallback dictionary: fixed placeholders, the PDF URL with ".pdf", and the
      title and summary as the entry's stripped texts with newlines turned to spaces. */
  lemma FallbackFields(paperId: string, response: ArxivResponse)
    requires ArxivFallback(paperId, response).Some?
    ensures var md := ArxivFallback(paperId, response).value;
      md["ai_keywords"] == List([]) && md["upvotes"] == Int(0) && md["source"] == Str("arxiv_official") &&
      md["hf_paper_url"] == Null && md["ai_summary"] == Null && md["github_repo"] == Null &&
      md["arxiv_pdf_url"] == Str(ArxivPdfBaseUrl + paperId + ".pdf") && md["id"] == Str(paperId)
    ensures var md := ArxivFallback(paperId, response).value;
      md["title"] == Str(Replace(Strip(response.feed.title.s), "\n", " ")) && '\n' !in md["title"].s &&
      md["summary"] == Str(Replace(Strip(response.feed.summary.s), "\n", " ")) && '\n' !in md["summary"].s
  {
  }

  /** A transport error, a non-200 status, a feed that does not parse or has no entry,
      or an entry whose title, summary, `published` element or author name is
      missing (or whose title or summary has no text) gives None. */
  lemma FallbackFailures(paperId: string, response: ArxivResponse)
    ensures response.ArxivRequestFailed? ==> ArxivFallback(paperId, response).None?
    ensures response.ArxivReply? && response.statusCode != 200 ==> ArxivFallback(paperId, response).None?
    ensures response.ArxivReply? && !response.feed.Entry? ==> ArxivFallback(paperId, response).None?
    ensures response.ArxivReply? && response.feed.Entry? ==>
      var feed := response.feed;
      (!feed.title.Text? || !feed.summary.Text? || feed.published.Missing?) ==>
        ArxivFallback(paperId, response).None?
    ensures response.ArxivReply? && response.feed.Entry? ==>
      forall i :: 0 <= i < |response.feed.authorNames| && !response.feed.authorNames[i].Text? ==>
        ArxivFallback(paperId, response).None?
  {
  }

  /** The two dictionaries share every field except the submitter details (HF only) and `source` (ArXiv only). */
  lemma KeySetsDiffer()
    ensures FallbackKeys - HfKeys == {"source"}
    ensures HfKeys - FallbackKeys ==
      {"submittedOnDailyAt", "submitter_fullname", "submitter_username", "submitter_isPro", "submitter_followerCount"}
  {
  }

  /** Whichever path produced it, the metadata's `arxiv_pdf_url` is the PDF base URL
      followed by the id, hence a non-empty string. */
  lemma PdfUrlAlwaysPresent(paperId: string, hf: HfResponse, arxiv: ArxivResponse)
    requires ExtractMetadata(paperId, hf, arxiv).Ok? && ExtractMetadata(paperId, hf, arxiv).value.Some?
    ensures var md := ExtractMetadata(paperId, hf, arxiv).value.value;
      "arxiv_pdf_url" in md && md["arxiv_pdf_url"].Str? && Truthy(md["arxiv_pdf_url"]) &&
      StartsWith(md["arxiv_pdf_url"].s, ArxivPdfBaseUrl + paperId)
  {
    if !hf.HfJson? {
      var md := ArxivFallback(paperId, arxiv).value;
      assert "https://arxiv.org/pdf/" + paperId + ".pdf" == ArxivPdfBaseUrl + paperId + ".pdf";
    }
  }
}
