# research-radar, modelled in Dafny

research-radar screens research papers (and YouTube videos) for a reader.
A LangGraph workflow runs four steps in order:

1. It fetches a paper's metadata from the Hugging Face papers API, falling back to the ArXiv API.
2. It decides whether the paper is relevant by comparing the paper's AI keywords with a list of required keywords.
3. It extracts the paper's text from the PDF.
4. It hands the text on to analysis and publishing stages, which are still stubs.

The retrieval-augmented analyser works alongside the workflow:

- It cuts a paper's text into chunks, stamps every chunk with the paper's URL and the hash of its text, and indexes the chunks in batches of twenty.
- It answers four fixed questions from the chunks that a search restricted to that hash returns.
- It formats the answers and asks the language model for a summary.

Two transcribers produce the text of a YouTube video from its English WebVTT subtitles:

- the content extractor the workflow uses, with at most four attempts;
- a stand-alone connector, with at most eleven attempts and its own rules for where captions start.

A web front end formats the analysis and the summary. It refuses a blank ID before running the workflow.

The model is written as follows:

- **Python runtime** (module `Py`). Dynamically typed JSON-like values, their truthiness, `or`, `dict.get`, and exceptions are all explicit. A call's outcome is `Result`: a value, or the exception that escapes the call.
- **Strings** (module `Text`). Python's `strip`, `lower`, `split`, `join`, `replace` and `in` are defined on `seq<char>`.
- **State.** The workflow record, the node functions and the graph runner are datatypes and functions. A node returns a `Command`, and the runner merges its update and follows its `goto`.
- **Mutable objects.** The graph builder and the processor's vector store are changed in place in the source, so they are classes with `modifies` clauses.
- **Loops.** The chunk stamping, batch insertion, question loop, formatting loops, subtitle line loops and retry loops are methods with loop invariants. Each is proved equal to a specification function, and the properties are proved about those functions.
- **Collaborators.** Everything that talks to the outside world is an input to the model:
  - HTTP responses and the parsed ArXiv feed;
  - yt-dlp and the subtitle files;
  - the PDF converter and the Markdown splitter;
  - the sha256 digest and the similarity ranking;
  - the prompt files and the language model.

## Model

| member | source | states |
|---|---|---|
| Text.Strip | src/research_radar/core/paper_relevance_checker.py:50 | Python's `str.strip()`. Its result is no longer than the input and neither starts nor ends with whitespace. `Text.AllSpaceStrip`: empty exactly for all-whitespace input. `Text.StripPadded`: surrounding whitespace is dropped. `Text.StripIdempotent`: stripping twice is stripping once. |
| Text.StripPadded | src/research_radar/core/paper_relevance_checker.py:50 | Whitespace on either side of a string does not change what `strip()` gives. |
| Text.Lower | src/research_radar/core/paper_relevance_checker.py:50 | Python's `str.lower()` on ASCII letters. It keeps the length and lowers every character in place. `Text.LowerIdempotent`: lowering twice is lowering once. |
| Text.StripLower | src/research_radar/core/paper_relevance_checker.py:50 | Stripping and lowering commute: `Strip(Lower(s)) == Lower(Strip(s))`. |
| Text.Join | src/research_radar/core/paper_metadata_extractor.py:66 | Python's `sep.join(parts)`. `Text.JoinLength`: its length is the parts' total length plus one separator between neighbours. `Text.JoinEmpty`: with a non-empty separator, it is empty exactly for no parts or a single empty part. `Text.JoinAppend`: appending a part appends the separator and the part. |
| Text.JoinEmpty | src/research_radar/core/paper_analyzer.py:71 | With a non-empty separator, the join is empty exactly when there are no parts or one empty part. |
| Text.Split | src/research_radar/core/youtube_content_extractor.py:98 | Python's `s.split(c)`. It always gives at least one piece. `Text.SplitPiecesFree`: no piece contains `c`. `Text.SplitJoin`: joining the pieces with `c` gives back `s`. |
| Text.SplitJoin | src/research_radar/core/youtube_content_extractor.py:98 | Splitting on a character and joining with that character gives back the string. |
| Text.Replace | src/research_radar/core/paper_metadata_extractor.py:128 | Python's `s.replace(pat, rep)` for a non-empty pattern. `Text.ReplaceAbsent`: a string without the pattern is unchanged. `Text.ReplaceLeavesNone`: when the replacement cannot form the pattern again, none is left. |
| Text.ReplaceAbsent | src/research_radar/core/paper_metadata_extractor.py:128 | A string without the pattern is unchanged by `replace`. |
| WorkflowState.StatusValueRoundTrip | src/research_radar/workflow/state.py:6-12 | Looking up a status by its string value gives that status back, so the four values are distinct. |
| WorkflowState.StatusOfExactlyFour | src/research_radar/workflow/state.py:6-12 | A string names a status exactly when it is one of "pending", "running", "completed", "failed". |
| WorkflowState.StatusOf | src/research_radar/workflow/state.py:6-12 | `WorkflowStatus(v)`: the member whose value is `v`, if any. `WorkflowState.StatusValueRoundTrip`: every status maps back from its value. `WorkflowState.StatusOfExactlyFour`: exactly the four values name a status. |
| WorkflowState.Merge | src/research_radar/workflow/state.py:15-25 | Applying a node's update overwrites exactly the keys present in the update. The ids and the required keywords never change. |
| WorkflowState.MergeNoUpdate | src/research_radar/workflow/state.py:15-25 | An empty update leaves the record unchanged. |
| WorkflowState.MergeIdempotent | src/research_radar/workflow/state.py:15-25 | Applying the same update twice is the same as applying it once. |
| WorkflowState.InitialState | workflow.py:41-68 | A new run is pending, with no metadata, content or error, and carries the given ids and required keywords. |
| WorkflowNodes.MetadataFailedError | src/research_radar/workflow/nodes.py:45 | The failure message is the fixed prefix, the paper id and a period, so the id can be read back from it. |
| WorkflowNodes.ExtractPaperInformationNode | src/research_radar/workflow/nodes.py:22-59 | No id: end with the error and no status. No metadata: end as failed, naming the paper. Metadata: go to the filter, running, with the metadata. A fetch exception escapes. The node never goes backwards. |
| WorkflowNodes.FilterPaperRelevanceNodeAsWritten | src/research_radar/workflow/nodes.py:62-125 | The filter as written. Missing or empty metadata fails the run, and no required keywords skips to content extraction. Otherwise the call with the state raises TypeError. |
| WorkflowNodes.FilterPaperRelevanceNode | src/research_radar/workflow/nodes.py:62-125 | The corrected filter has the same two guards. Otherwise the checker decides: relevant goes to content extraction while running, irrelevant ends the run as completed, and a checker exception escapes. |
| WorkflowNodes.ExtractPaperContentNode | src/research_radar/workflow/nodes.py:128-153 | No metadata raises AttributeError. A falsy PDF URL raises ValueError with the fixed message. Otherwise the converted text is stored and the run goes to analysis with its status unchanged. |
| WorkflowNodes.AnalyzePaperNode | src/research_radar/workflow/nodes.py:156-171 | The stub hands over to publishing and changes nothing. |
| WorkflowNodes.PublishResultsNode | src/research_radar/workflow/nodes.py:174-191 | The stub ends the run as completed. |
| WorkflowNodes.IrrelevantIsCompletedNotFailed | src/research_radar/workflow/nodes.py:78-125 | The filter writes "failed" exactly when the metadata is missing or empty. Any other end of the run at the filter is "completed". |
| WorkflowNodes.NoKeywordsSkipsChecker | src/research_radar/workflow/nodes.py:90-97 | Without required keywords the decision does not depend on the metadata, and the as-written filter behaves like the corrected one. |
| WorkflowNodes.AsWrittenFilterRaises | src/research_radar/workflow/nodes.py:104 | The as-written filter raises TypeError exactly when the checker would be consulted. In every other case it agrees with the corrected filter. |
| WorkflowGraph.StateGraph.constructor | src/research_radar/workflow/graph.py:26 | A new builder has no nodes, no entry point and no edges. |
| WorkflowGraph.StateGraph.AddNode | src/research_radar/workflow/graph.py:28-33 | Adding a node binds a new name and leaves the entry point and the edges alone. |
| WorkflowGraph.StateGraph.SetEntryPoint | src/research_radar/workflow/graph.py:35 | Setting the entry point changes only the entry point. |
| WorkflowGraph.Registry | src/research_radar/workflow/graph.py:28-33 | All six stages are registered, each to a different node function. |
| WorkflowGraph.RegistryCoversEveryStage | src/research_radar/workflow/graph.py:28-33 | Every stage has a node. |
| WorkflowGraph.NodesModuleNames | src/research_radar/workflow/nodes.py:3-191 | The names the nodes module binds include its five node functions but not `embed_paper_node`. |
| WorkflowGraph.ImportFrom | src/research_radar/workflow/graph.py:14-21 | `from m import ...` succeeds exactly when `m` binds every name. Otherwise it raises ImportError naming the first name it lacks. |
| WorkflowGraph.ImportThenRun | workflow.py:15 | Loading the graph module and then running succeeds exactly when the import does, and then gives the graph's run. |
| WorkflowGraph.NoRunAsWritten | src/research_radar/workflow/graph.py:18 | As written, importing the graph module raises ImportError on `embed_paper_node`, so no run starts, whatever the record. |
| WorkflowGraph.CorrectedImportRuns | src/research_radar/workflow/graph.py:18 | With `embed_paper_node` defined, the import succeeds and the run is the graph's run. The embed stage is registered but never reached. |
| WorkflowGraph.BuildGraph | src/research_radar/workflow/graph.py:24-37 | The compiled graph holds the registry and the entry stage, and has no static edges. |
| WorkflowGraph.RegistryBindsNodeOf | src/research_radar/workflow/graph.py:28-33 | The registry binds each stage to the node function that the runner dispatches to. |
| WorkflowGraph.Step | src/research_radar/workflow/nodes.py:22-191 | For each of the five stages whose node has a body, whatever the record and the collaborators: a node never sends the run backwards and never targets the embed stage. It writes a final status only when it ends the run. Every end except the missing-id exit carries a final status. |
| WorkflowGraph.RunFrom | src/research_radar/workflow/graph.py:35-37 | The invoke loop starts at the given stage and visits stages of strictly increasing rank. It never enters the embed stage and keeps the ids. |
| WorkflowGraph.Run | src/research_radar/workflow/graph.py:35-37 | A run starts at metadata extraction, visits at most five stages strictly forward, and never reaches the embed stage. |
| WorkflowGraph.ForwardRunsAreShort | src/research_radar/workflow/graph.py:28-35 | A forward sequence of stages from the entry that avoids the embed stage has at most five stages. |
| WorkflowGraph.RanksClimb | src/research_radar/workflow/graph.py:28-33 | Along such a sequence each step gains at least one rank, and steps past the embed stage's rank gain two. |
| WorkflowRuns.RunWithoutPaperId | src/research_radar/workflow/nodes.py:32-34 | An empty paper id ends the run after one stage, records the error and leaves the status unchanged. |
| WorkflowRuns.RunWithoutMetadata | src/research_radar/workflow/nodes.py:44-52 | When the fetch gives None, the run ends after one stage as failed, with the message naming the paper. |
| WorkflowRuns.RunWhenFetchRaises | src/research_radar/workflow/nodes.py:41-42 | An exception from the fetch ends the run in the first stage with that exception. |
| WorkflowRuns.RunWithEmptyMetadata | src/research_radar/workflow/nodes.py:78-89 | Empty metadata passes the first stage and fails the run at the filter. |
| WorkflowRuns.RunNotRelevant | src/research_radar/workflow/nodes.py:106-125 | An irrelevant paper ends the run at the filter as completed, with the metadata stored. |
| WorkflowRuns.RunFullPath | src/research_radar/workflow/nodes.py:22-191 | A relevant paper with a PDF URL runs through the filter, content extraction, analysis and publishing. It ends completed with metadata and content stored. |
| WorkflowRuns.FinishedRunsHaveFinalStatus | src/research_radar/workflow/nodes.py:22-191 | Except at the missing-id exit, a run that finishes without an exception ends completed or failed. |
| WorkflowRuns.RunEndsCompletedOrFailed | src/research_radar/workflow/nodes.py:22-191 | A finished run of a non-empty id is completed or failed, never pending or running. |
| WorkflowRuns.FailedOnlyForMissingMetadata | src/research_radar/workflow/nodes.py:44-89 | A run ends failed only when the fetch gave None or an empty dictionary. |
| WorkflowRuns.NoFailureAfterMetadata | src/research_radar/workflow/nodes.py:62-191 | A run that continues from the filter with non-empty metadata and finishes ends completed. |
| WorkflowRuns.ContentOnwardCompletes | src/research_radar/workflow/nodes.py:128-191 | A run that continues from content extraction and finishes ends completed. |
| WorkflowRuns.SmokeRun | tests/test_smoke.py:3-48 | As written, the smoke test stops at the import of the graph module with ImportError. With the import and the filter corrected, the scenario ends completed after the filter. The filter as written would raise TypeError there. |
| WorkflowRuns.ExtractorMetadataHasUrl | src/research_radar/workflow/nodes.py:141-143 | With the real metadata extractor, the content stage never raises its "arxiv url is missing" error. |
| WorkflowRuns.UrlKeepsContentStageQuiet | src/research_radar/workflow/nodes.py:62-171 | No node after the first rewrites the metadata, so a PDF URL that is present stays present. |
| WorkflowRuns.ArxivFallbackWithKeywordsEndsAtFilter | src/research_radar/core/paper_metadata_extractor.py:150 | The ArXiv fallback has no keywords, so with required keywords the run ends completed at the filter. |
| PaperRelevanceChecker.NewChecker | src/research_radar/core/paper_relevance_checker.py:13-30 | The checker keeps its inputs. Its paper id is the metadata's `arxiv_id` when that key is present, and "N/A" when it is absent or there is no metadata. |
| PaperRelevanceChecker.KeyBlank | src/research_radar/core/paper_relevance_checker.py:49-54 | A keyword normalises to the empty string exactly when it is blank, so the blank filter drops exactly those. |
| PaperRelevanceChecker.Key | src/research_radar/core/paper_relevance_checker.py:50 | `k.strip().lower()`. `PaperRelevanceChecker.KeyBlank`: empty exactly for a blank keyword. `PaperRelevanceChecker.KeyOfPadded`: padding does not change it. `PaperRelevanceChecker.KeyIgnoresCase` and `PaperRelevanceChecker.KeyOfLower`: case does not change it. |
| PaperRelevanceChecker.KeySet | src/research_radar/core/paper_relevance_checker.py:52-54 | Every non-blank keyword's normal form is in the set. |
| PaperRelevanceChecker.KeySetMembers | src/research_radar/core/paper_relevance_checker.py:52-54 | Every member of the set is non-empty and is the normal form of some non-blank keyword. |
| PaperRelevanceChecker.ItemKeySet | src/research_radar/core/paper_relevance_checker.py:49-51 | Every non-blank string item's normal form is in the set. |
| PaperRelevanceChecker.PaperKeywordSet | src/research_radar/core/paper_relevance_checker.py:47-51 | A list of strings and falsy items gives its keyword set. A truthy non-string item raises AttributeError. A non-iterable value raises TypeError. |
| PaperRelevanceChecker.CheckRelevance | src/research_radar/core/paper_relevance_checker.py:32-69 | False without metadata or required keywords. Otherwise: relevant exactly when the two normalised sets share at least the threshold. It raises only through the paper keywords. |
| PaperRelevanceChecker.ItemKeySetOfStrings | src/research_radar/core/paper_relevance_checker.py:49-51 | For a list of strings, the item set is the keyword set of those strings. |
| PaperRelevanceChecker.CheckRelevanceOfStrings | src/research_radar/core/paper_relevance_checker.py:47-59 | With string keywords, the check is the set-intersection decision and never raises. |
| PaperRelevanceChecker.NoInputNotRelevant | src/research_radar/core/paper_relevance_checker.py:39-43 | Missing or empty metadata, or no required keywords, means not relevant. |
| PaperRelevanceChecker.MissingPaperKeywordsNotRelevant | src/research_radar/core/paper_relevance_checker.py:47-59 | Metadata without AI keywords is never relevant for a positive threshold. |
| PaperRelevanceChecker.DefaultThresholdMeansCommonKeyword | src/research_radar/core/paper_relevance_checker.py:49-59 | With the default threshold, a paper is relevant exactly when some non-blank paper keyword equals some required keyword after strip and lower. Both directions are proved. |
| PaperRelevanceChecker.KeyOfPadded | src/research_radar/core/paper_relevance_checker.py:50 | Surrounding whitespace does not change a keyword's normal form. |
| PaperRelevanceChecker.KeyIgnoresCase | src/research_radar/core/paper_relevance_checker.py:50 | Keywords that are equal once lowered have the same normal form. |
| PaperRelevanceChecker.KeyOfLower | src/research_radar/core/paper_relevance_checker.py:50 | Lowering a keyword first does not change its normal form. |
| PaperRelevanceChecker.KeySetSame | src/research_radar/core/paper_relevance_checker.py:52-54 | Lists that agree item by item up to case and surrounding whitespace give the same set. |
| PaperRelevanceChecker.CaseVariantsAgree | src/research_radar/core/paper_relevance_checker.py:49-54 | Keyword lists that agree item by item once lowered agree up to case and whitespace. By `PaperRelevanceChecker.DecisionIgnoresCaseAndSpace`, they give the same decision. |
| PaperRelevanceChecker.DecisionIgnoresCaseAndSpace | src/research_radar/core/paper_relevance_checker.py:49-59 | Changing the case or padding of any keyword, on either side, never changes the decision. |
| PaperRelevanceChecker.DecisionMonotone | src/research_radar/core/paper_relevance_checker.py:49-59 | Adding paper or required keywords keeps a relevant paper relevant. |
| PaperMetadata.ApiUrl | src/research_radar/core/paper_metadata_extractor.py:21-23 | The API URL is the API base followed by exactly the paper id. |
| PaperMetadata.NamedAuthors | src/research_radar/core/paper_metadata_extractor.py:61-65 | Succeeds exactly when every author is a dictionary. It keeps only truthy names, never more than there are authors. |
| PaperMetadata.AuthorsString | src/research_radar/core/paper_metadata_extractor.py:61-66 | The authors' truthy names, joined with ", ". Only AttributeError or TypeError can escape it. `PaperMetadata.NamedAuthors` and `PaperMetadata.JoinValues`: exactly when each step succeeds. `PaperMetadata.AuthorsNamesJoin`: for well-formed authors, the two steps succeed and give the ", "-join of their names. |
| PaperMetadata.JoinValues | src/research_radar/core/paper_metadata_extractor.py:66 | Succeeds exactly when every item is a string. A single name is joined to itself. |
| PaperMetadata.AuthorsNamesJoin | src/research_radar/core/paper_metadata_extractor.py:61-66 | For well-formed authors, `authors_names` is the ", "-join, in order, of the non-empty names. |
| PaperMetadata.FollowerCount | src/research_radar/core/paper_metadata_extractor.py:76-80 | The follower count is truthy or 0, taken from the first of the two records that has a truthy one. |
| PaperMetadata.HfInfo | src/research_radar/core/paper_metadata_extractor.py:83-102 | The dictionary has exactly the sixteen Hugging Face keys, each holding its field. |
| PaperMetadata.SubmitterFields | src/research_radar/core/paper_metadata_extractor.py:72-101 | The submitter fields come from the daily submitter when non-empty, else from the raw submitter. The username is the name or else the user. |
| PaperMetadata.Flatten | src/research_radar/core/paper_metadata_extractor.py:55-104 | Succeeds exactly when the authors and the submitter can be read. The result has the sixteen keys and the PDF URL built from the id. |
| PaperMetadata.FlattenFields | src/research_radar/core/paper_metadata_extractor.py:83-102 | Field by field, the flattened record holds the id, both URLs, the joined names, the submitter and the copied paper fields. |
| PaperMetadata.PaperObject | src/research_radar/core/paper_metadata_extractor.py:39 | The paper object is the nested `paper` when present, else the whole body. |
| PaperMetadata.CleanText | src/research_radar/core/paper_metadata_extractor.py:127-128 | An element with text gives its stripped text with each newline replaced by a space, so no newline is left and the length is kept. A missing element or missing text gives nothing. |
| PaperMetadata.FallbackInfo | src/research_radar/core/paper_metadata_extractor.py:140-153 | The fallback dictionary has exactly its twelve keys, with the fixed placeholders and the ".pdf" URL. |
| PaperMetadata.ArxivFallback | src/research_radar/core/paper_metadata_extractor.py:106-157 | A record comes back exactly for a 200 reply whose entry has a title and a summary with text, a published element and a name text for every author. It has exactly the fallback keys. Its id is the paper id. Its title and summary are the cleaned entry texts, its date is the published text, and its authors are the names joined with ", ". |
| PaperMetadata.ExtractMetadata | src/research_radar/core/paper_metadata_extractor.py:25-104 | A failed request or a non-JSON body goes to the fallback. A JSON body that is not a dictionary raises AttributeError. Only AttributeError or TypeError escape. |
| PaperMetadata.NoIdGivesNone | src/research_radar/core/paper_metadata_extractor.py:41-46 | A paper object without a truthy id gives None. |
| PaperMetadata.HfJsonIgnoresArxiv | src/research_radar/core/paper_metadata_extractor.py:33-53 | Once Hugging Face answers with JSON, the ArXiv reply makes no difference. |
| PaperMetadata.HfResult | src/research_radar/core/paper_metadata_extractor.py:33-104 | A dictionary comes back exactly when the paper object is a dictionary with a truthy id and flattening succeeds. It is then the flattened record. |
| PaperMetadata.SubmitterSource | src/research_radar/core/paper_metadata_extractor.py:74 | The submitter is the daily submitter when truthy, else the raw submitter. |
| PaperMetadata.FollowerCountChain | src/research_radar/core/paper_metadata_extractor.py:76-80 | The follower count is the raw count if truthy, else the daily submitter's count if truthy, else 0. |
| PaperMetadata.WellShapedSucceeds | src/research_radar/core/paper_metadata_extractor.py:25-104 | A well-shaped body gives a record whose `authors_names` joins the non-empty names. |
| PaperMetadata.FallbackFields | src/research_radar/core/paper_metadata_extractor.py:127-153 | The fallback has no keywords, 0 upvotes, source "arxiv_official", the paper id and the ".pdf" URL. Its title and summary are the entry's stripped texts with newlines turned to spaces. |
| PaperMetadata.FallbackFailures | src/research_radar/core/paper_metadata_extractor.py:114-157 | Each of these gives None: a failed request, a status other than 200, a feed that does not parse or has no entry, a title or summary without text, a missing published element, or an author without a name text. |
| PaperMetadata.KeySetsDiffer | src/research_radar/core/paper_metadata_extractor.py:83-153 | The two schemas differ only in `source` (ArXiv only) and in the daily date and submitter fields (Hugging Face only). |
| PaperMetadata.PdfUrlAlwaysPresent | src/research_radar/core/paper_metadata_extractor.py:58 | On both paths the record's `arxiv_pdf_url` is a non-empty string that starts with the PDF base URL and the id. |
| YouTubeMetadata.VideoUrl | src/research_radar/core/youtube_metadata_extractor.py:14-18 | The video URL is the watch URL followed by exactly the video id. |
| YouTubeMetadata.VideoInfo | src/research_radar/core/youtube_metadata_extractor.py:72-93 | The video record is the paper schema's sixteen keys plus three video keys. |
| YouTubeMetadata.MapInfo | src/research_radar/core/youtube_metadata_extractor.py:55-93 | Field by field, the video record is filled from the info dictionary, with the listed defaults. |
| YouTubeMetadata.ChannelName | src/research_radar/core/youtube_metadata_extractor.py:56 | The channel is the uploader, else the channel, else "Unknown Channel". It is always truthy. |
| YouTubeMetadata.ExtractMetadata | src/research_radar/core/youtube_metadata_extractor.py:20-95 | A failed or empty fetch gives None. A truthy value that is not a dictionary raises AttributeError. A record comes only from a non-empty dictionary. |
| YouTubeMetadata.VideoMapping | src/research_radar/core/youtube_metadata_extractor.py:72-93 | The channel fills both author fields, and both URLs are the watch URL. Both dates are the upload date. |
| YouTubeMetadata.VideoKeysExtendPaperKeys | src/research_radar/core/youtube_metadata_extractor.py:71-93 | The video record has every Hugging Face key and exactly three more. |
| YouTubeMetadata.VideoDefaults | src/research_radar/core/youtube_metadata_extractor.py:59-65 | Without tags, description or likes, the record has keywords `[]`, summary `""` and upvotes 0. |
| PaperRagProcessor.Stamp | src/research_radar/core/paper_rag_processor.py:68-70 | Stamping sets the source and hash. It keeps the text and every other metadata entry. |
| PaperRagProcessor.StampAll | src/research_radar/core/paper_rag_processor.py:68-70 | Every chunk is stamped, and none changes its text or position. |
| PaperRagProcessor.StampChunks | src/research_radar/core/paper_rag_processor.py:68-70 | The stamping loop gives exactly the stamped chunks. |
| PaperRagProcessor.Batches | src/research_radar/core/paper_rag_processor.py:72-77 | The slices `xs[i : i + 20]` for `i` in `range(0, n, 20)`. `PaperRagProcessor.BatchesCover`: concatenated in order, they are `xs`. `PaperRagProcessor.BatchesBounded`: each has 1 to 20 chunks. `PaperRagProcessor.BatchesCount`: there are ceil(n / 20) of them. `PaperRagProcessor.BatchAt`: batch j is the slice `[20 j, min(20 j + 20, n))`. |
| PaperRagProcessor.BatchesCover | src/research_radar/core/paper_rag_processor.py:72-77 | The batches, concatenated in order, are exactly the chunk list. |
| PaperRagProcessor.BatchesBounded | src/research_radar/core/paper_rag_processor.py:75-76 | No batch is empty and none holds more than twenty chunks. |
| PaperRagProcessor.BatchesCount | src/research_radar/core/paper_rag_processor.py:75 | There are ceil(n / 20) batches. |
| PaperRagProcessor.BatchAt | src/research_radar/core/paper_rag_processor.py:75-76 | Batch j is the slice `[20 j, min(20 j + 20, n))`. |
| PaperRagProcessor.Matching | src/research_radar/core/paper_rag_processor.py:98-103 | A chunk is kept exactly when it is in the store and carries the hash. |
| PaperRagProcessor.Candidates | src/research_radar/core/paper_rag_processor.py:98-100 | Only a non-empty hash restricts the search. |
| PaperRagProcessor.Pick | src/research_radar/core/paper_rag_processor.py:103 | At most k results, each taken from the candidates. |
| PaperRagProcessor.IndexingIsolated | src/research_radar/core/paper_rag_processor.py:68-100 | Indexing another paper never changes what a search for this paper's hash can see. |
| PaperRagProcessor.IndexedRetrievable | src/research_radar/core/paper_rag_processor.py:68-100 | After indexing, a search by the paper's hash sees its earlier chunks followed by all the new ones. |
| PaperRagProcessor.RagProcessor.constructor | src/research_radar/core/paper_rag_processor.py:21-32 | The vector store starts empty. |
| PaperRagProcessor.RagProcessor.ProcessPaper | src/research_radar/core/paper_rag_processor.py:50-88 | No text: None, and the store is unchanged. Text that is not a string raises before the `try`. A failing split: None. Otherwise the stamped chunks are appended; a failing batch stops there with the earlier batches kept and None returned, and success returns the hash. |
| PaperRagProcessor.RagProcessor.InsertBatches | src/research_radar/core/paper_rag_processor.py:72-80 | The batch loop appends the chunks in order. It stops exactly at the first failing batch, with the earlier batches stored. |
| PaperRagProcessor.RagProcessor.Search | src/research_radar/core/paper_rag_processor.py:91-106 | At most k chunks, all from the store and all with the requested hash. A failing ranking gives none. |
| PaperAnalyzer.Assign | src/research_radar/core/paper_analyzer.py:75-85 | Key assignment keeps insertion order. A new key goes last and an existing key keeps its position, and the entry is present afterwards. |
| PaperAnalyzer.QuestionsDistinct | src/research_radar/core/paper_analyzer.py:20-25 | The four questions are distinct, so each gets its own entry. |
| PaperAnalyzer.AnswerFor | src/research_radar/core/paper_analyzer.py:73-85 | No context: "Data not found in paper.". A failing model: "Error generating answer.". Otherwise: the model's answer. |
| PaperAnalyzer.Analyzer.ContextFor | src/research_radar/core/paper_analyzer.py:68-71 | The page contents of the hash-restricted search, joined with blank lines. The context is empty, and so the answer is "Data not found in paper.", exactly when the search finds no chunk or a single chunk with empty text. |
| PaperAnalyzer.Analyzer.constructor | src/research_radar/core/paper_analyzer.py:18-25 | The analyser keeps the given processor. |
| PaperAnalyzer.Analyzer.AnswerAll | src/research_radar/core/paper_analyzer.py:68-87 | One entry per question, in question order, each holding that question's answer. |
| PaperAnalyzer.ChainBuilds | src/research_radar/core/paper_analyzer.py:37-52 | The chain builds exactly when the analysis template is present and non-empty, `PromptTemplate` accepts it and the client is created. |
| PaperAnalyzer.NonStringTemplateRaises | src/research_radar/core/paper_analyzer.py:37-87 | A present template that is not a string fails `PromptTemplate` validation: the chain is not built, so the analysis is empty, and `generate_summary` raises that error. |
| PaperAnalyzer.Analyzer.GenerateAnalysis | src/research_radar/core/paper_analyzer.py:54-87 | No chain: an empty result. Otherwise the question loop gives exactly the answers in question order. |
| PaperAnalyzer.BlocksFromFront | src/research_radar/core/paper_analyzer.py:99-101 | The text built from the left reads as the first block followed by the rest. |
| PaperAnalyzer.Block | src/research_radar/core/paper_analyzer.py:101 | One question's block: `Question: q`, `Answer: a`, then a blank line. `PaperAnalyzer.BlocksFromFront`: the formatted text is the blocks in insertion order. `PaperAnalyzer.FormattedNonEmpty`: a non-empty analysis opens with the first question's block. |
| PaperAnalyzer.FormattedAnalysis | src/research_radar/core/paper_analyzer.py:89-104 | An empty analysis gives the placeholder. Otherwise the text is the first entry's block followed by the other blocks. |
| PaperAnalyzer.FormatAnalysis | src/research_radar/core/paper_analyzer.py:89-104 | The `+=` loop builds exactly the formatted analysis. |
| PaperAnalyzer.FormattedNonEmpty | src/research_radar/core/paper_analyzer.py:96-104 | A non-empty analysis is never the placeholder; it opens with its first question. |
| PaperAnalyzer.GenerateSummary | src/research_radar/core/paper_analyzer.py:115-143 | A missing template gives its message, and a failing chain gives "Error generating summary". It raises exactly when the template is present and building the `PromptTemplate` or creating the client raises, which both happen outside the two `try` blocks. |
| UiApp.Parts | src/research_radar/ui/app.py:26-28 | Part i is entry i, numbered from 1 in insertion order. |
| UiApp.FormatAnalysis | src/research_radar/ui/app.py:13-30 | The enumerate loop and the join give the numbered parts, separated by rules. An empty analysis gives the placeholder. |
| UiApp.AnalysisLayout | src/research_radar/ui/app.py:26-30 | n entries give exactly n - 1 separators, and the first entry opens the text. |
| UiApp.PartNumbering | src/research_radar/ui/app.py:27-28 | Each part's number reads back as its position. |
| UiApp.FormatSummary | src/research_radar/ui/app.py:33-49 | An empty summary gives the placeholder. |
| UiApp.SummaryWithoutBreaks | src/research_radar/ui/app.py:48 | A summary without ". " or "; " is shown unchanged. |
| UiApp.SummaryBreaksEverySentence | src/research_radar/ui/app.py:46-48 | No ". " and no "; " is left after formatting. |
| UiApp.AnalyzePaper | src/research_radar/ui/app.py:63-74 | A blank ID is refused without consulting the workflow. Otherwise the workflow receives the stripped ID and the selected keywords. |
| UiApp.WorkflowSeesStrippedId | src/research_radar/ui/app.py:72-74 | The workflow only ever sees a non-empty ID without surrounding whitespace. |
| VttSentence.Group | src/research_radar/core/youtube_content_extractor.py:129 | The captured group is a non-empty suffix of the run; only a leading whitespace character is given to `\s?`. |
| VttSentence.Payloads | src/research_radar/core/youtube_content_extractor.py:129 | Every `<c>…</c>` payload is non-empty and free of '<'. |
| VttSentence.SentenceWithoutTags | src/research_radar/core/youtube_content_extractor.py:126-131 | A line without tags cleans to its strip, and a stripped line to itself. |
| VttSentence.SentenceHasNoTags | src/research_radar/core/youtube_content_extractor.py:126-131 | Cleaning leaves no '<' in the line. |
| VttSentence.PiecesHaveNoTags | src/research_radar/core/youtube_content_extractor.py:128-130 | The text before the first tag and every stripped payload are free of '<'. |
| VttSentence.ExtractSentence | src/research_radar/core/youtube_content_extractor.py:126-131 | The sentence opens with the stripped text before the first '<'. `VttSentence.SentenceWithoutTags`: a line without tags gives its stripped self. `VttSentence.SentenceHasNoTags`: no '<' is left. `VttCaptions.CaptionLine`: an automatic caption line gives its words. |
| VttCaptions.CaptionLine | src/research_radar/youtube_connector.py:45-54 | An automatic caption line, made of a word, a timestamp tag and a `<c>`-wrapped word, cleans to the two words. |
| VttCaptions.TaggedWord | src/research_radar/youtube_connector.py:50 | `<c> word</c>` yields the word without its leading space. |
| VttCaptions.PayloadsSkip | src/research_radar/youtube_connector.py:50 | Text in which no `<c>` starts contributes no payload. |
| YouTubeContentExtractor.TextLines | src/research_radar/core/youtube_content_extractor.py:104-116 | The caption-text lines are those that are not timing, blank or header lines. |
| YouTubeContentExtractor.Emitted | src/research_radar/core/youtube_content_extractor.py:102-116 | The sentences the line loop appends, given whether capturing is on. `YouTubeContentExtractor.CapturingEmitsText`: once capturing, every caption-text line is emitted, cleaned. `YouTubeContentExtractor.NothingBeforeTiming` and `YouTubeContentExtractor.AfterFirstTiming`: no line before the first timing line is emitted. `YouTubeContentExtractor.ParseVtt`: the loop computes it. |
| YouTubeContentExtractor.CapturingEmitsText | src/research_radar/core/youtube_content_extractor.py:102-116 | Once capturing, every caption-text line is emitted, cleaned, in order. |
| YouTubeContentExtractor.NothingBeforeTiming | src/research_radar/core/youtube_content_extractor.py:102-116 | Nothing is emitted before the first timing line. |
| YouTubeContentExtractor.AfterFirstTiming | src/research_radar/core/youtube_content_extractor.py:98-119 | The transcript is the caption-text lines after the first timing line. |
| YouTubeContentExtractor.NoTimingNoText | src/research_radar/core/youtube_content_extractor.py:98-119 | Subtitles without a timing line give no text. |
| YouTubeContentExtractor.ParseVtt | src/research_radar/core/youtube_content_extractor.py:92-124 | The line loop gives exactly the emitted sentences, space-separated. |
| YouTubeContentExtractor.GetVideoTranscript | src/research_radar/core/youtube_content_extractor.py:44-90 | The retry loop gives the outcome of the first attempt that did not raise, "" when there are no subtitles or the read failed, and "" after four raising attempts. |
| YouTubeContentExtractor.TranscriptFrom | src/research_radar/core/youtube_content_extractor.py:44-90 | The transcript from attempt k on. A raising attempt moves to the next one, and the first that does not raise decides the result. `YouTubeContentExtractor.GetVideoTranscript`: the retry loop computes it. `YouTubeContentExtractor.AttemptsAfterFourthIgnored`: attempts after the fourth do not matter. `YouTubeContentExtractor.AllAttemptsRaise`: four raising attempts give the empty transcript. |
| YouTubeContentExtractor.AttemptsAfterFourthIgnored | src/research_radar/core/youtube_content_extractor.py:17 | Only the first MAX_RETRIES + 1 = 4 attempts matter. |
| YouTubeContentExtractor.AllAttemptsRaise | src/research_radar/core/youtube_content_extractor.py:84-90 | Four raising attempts give the empty transcript. |
| YouTubeContentExtractor.ExtractContent | src/research_radar/core/youtube_content_extractor.py:25-42 | An empty transcript raises ValueError naming the video. Otherwise the transcript is returned, and it is never empty. |
| YouTubeConnector.ContentLines | src/research_radar/youtube_connector.py:135-150 | The kept lines are those that are not timing, blank or header lines. |
| YouTubeConnector.CapturingKeepsContent | src/research_radar/youtube_connector.py:135-150 | Once capturing, every non-skipped line is kept, cleaned and stripped, in order. |
| YouTubeConnector.AfterFirstSkipped | src/research_radar/youtube_connector.py:135-150 | Lines before the first skipped line are dropped. After it, every non-skipped line is kept. |
| YouTubeConnector.Emitted | src/research_radar/youtube_connector.py:135-150 | The lines the connector's line loop keeps, given whether capturing is on. `YouTubeConnector.CapturingKeepsContent`: once capturing, every non-skipped line is kept, cleaned. `YouTubeConnector.AfterFirstSkipped`: lines before the first skipped line are dropped. `YouTubeConnector.CaptureRulesDiffer`: after a header line it keeps a caption that the content extractor's loop drops. |
| YouTubeConnector.Transcript | src/research_radar/youtube_connector.py:119-171 | A subtitle file's transcript: its kept lines, space-separated. `YouTubeConnector.ParseVtt`: the line loop computes it. |
| YouTubeConnector.ParseVtt | src/research_radar/youtube_connector.py:119-171 | The line loop gives exactly the kept lines, space-separated. |
| YouTubeConnector.FinishAttempt | src/research_radar/youtube_connector.py:96-179 | An attempt that did not raise returns one of four things: the no-info message, the no-English message, the read-error message or the transcript. |
| YouTubeConnector.GetVideoTranscript | src/research_radar/youtube_connector.py:57-197 | The retry loop gives the outcome of the first attempt that did not raise. After eleven raising attempts it gives the failure message with the last error. |
| YouTubeConnector.TranscriptFrom | src/research_radar/youtube_connector.py:57-197 | The result of attempt k and the ones after it. The first attempt that does not raise decides the result. If the last attempt raises, the result is the retries-exhausted message with its error. `YouTubeConnector.GetVideoTranscript`: the retry loop computes it. `YouTubeConnector.AttemptsAfterEleventhIgnored` and `YouTubeConnector.AllAttemptsRaise`: later attempts are ignored, and eleven raising attempts give that message. |
| YouTubeConnector.MaxRetriesRendered | src/research_radar/youtube_connector.py:194 | The failure message prints the retry bound as "10". |
| YouTubeConnector.AttemptsAfterEleventhIgnored | src/research_radar/youtube_connector.py:12 | Only the first MAX_RETRIES + 1 = 11 attempts matter. |
| YouTubeConnector.AllAttemptsRaise | src/research_radar/youtube_connector.py:181-194 | Eleven raising attempts report the last attempt's error. |
| YouTubeConnector.CaptureRulesDiffer | src/research_radar/youtube_connector.py:138-144 | The two parsers disagree on a caption line that follows a header directly: the content extractor keeps nothing, the connector keeps the caption. |

## Left out

- HTTP, yt-dlp, reading and deleting subtitle files, `time.sleep` and logging are left out. Their outcomes are inputs to the model (`HfResponse`, `ArxivResponse`, `VideoFetch`, `Attempt`), and the file cleanup and the delays have no counterpart.
- JSON decoding and XML parsing are left out. The model starts from the decoded `Value` and the parsed feed.
- The LangGraph framework is not part of this model. Its invoke loop is modelled as `WorkflowGraph.RunFrom`: run a node, merge its update, follow its `goto`. Runtime validation of the state and of node names is not modelled.
- WorkflowGraph.Step and WorkflowGraph.RunFrom: they are stated for the five stages whose node has a body. The repository defines no `embed_paper_node`, so the embed stage has no behaviour in the model. `WorkflowGraph.Run` proves that a run from the entry never reaches it.
- Whether LangGraph passes `required_keywords` through, given that it is not a declared key of the state, is framework behaviour. The model keeps the key in the record.
- `src/research_radar/workflow/node_types.py` is not part of this model. Stage names are the `StageId` datatype.
- The PDF converter (`PaperContentExtractor`) is foreign code, and so is its error message. `WorkflowRuns.ExtractorMetadataHasUrl` assumes the converter never raises the content node's own "arxiv url is missing" ValueError.
- The Chroma store, the embeddings, the Markdown and recursive splitters, and sha256 are collaborators. They are functions passed in (`Indexer`, `rank`). The splitter's chunking rules (`_split_markdown`) are not modelled.
- PaperRagProcessor.RagProcessor.Search: the similarity ranking is modelled as positions into the candidates. Which chunks are most similar is not modelled.
- Chunks are values. The in-place metadata update of the splitter's document objects, and the aliasing between those objects and the store, are not modelled.
- Reading the prompt files and choosing the language-model provider are left out. The template lookup and the client creation are inputs to `PaperAnalyzer.Llm`, each of which may fail.
- PaperAnalyzer.ChainBuilds and PaperAnalyzer.GenerateSummary: `PromptTemplate` rejects a template that is not a string. Which string templates LangChain rejects, such as one with an unmatched brace, is the `templateError` input and is not modelled.
- The question-answering chain and the summary chain are oracles, and the answers' content is not modelled.
- UiApp.AnalyzePaper: only the guard and the call to the workflow are modelled. Reading `analysis` and `summary` from the workflow's result, and the exception handler, are part of the `runWorkflow` input.
- `create_ui`, `main`, the API server and the MCP server are front ends outside the core.
- `get_youtube_video_info` in the connector is not modelled. It is a metadata printout the transcript does not use.
- `str.lower` is modelled on ASCII letters only. Python's full Unicode case mapping is not modelled.
- YouTubeConnector.GetVideoTranscript and YouTubeContentExtractor.GetVideoTranscript: the checks on `info_dict` and `requested_subtitles` are folded into the `Attempt` oracle. A malformed dictionary that makes such a check raise is an attempt that raised.
- Three behaviours of the code that a reader might not expect are modelled as written:
  - `generate_summary` can raise, because `PromptTemplate` and the chat client are built outside both `try` blocks (src/research_radar/core/paper_analyzer.py:128-133).
  - `generate_summary` sends an empty analysis to the language model as the text "No analysis data available." (src/research_radar/core/paper_analyzer.py:97 and 119).
  - Content extraction goes straight to analysis (src/research_radar/workflow/nodes.py:149), and analysis is a stub, so the workflow never embeds anything.

## Findings

| source | as written | input that shows it | evidently intended | confidence | as-written member | corrected member |
|---|---|---|---|---|---|---|
| src/research_radar/workflow/graph.py:18 | `graph.py` imports `embed_paper_node` from the nodes module, which defines no such function, so importing `graph.py` raises ImportError and `build_graph()` is never reached | any run: `workflow.py` and tests/test_smoke.py import `build_graph` at module level | a nodes module that defines `embed_paper_node`, with the embed stage registered but never reached, since content extraction goes straight to analysis | not executed | WorkflowGraph.NoRunAsWritten | WorkflowGraph.CorrectedImportRuns |
| src/research_radar/workflow/nodes.py:104 | `checker.check_relevance(state)` passes an argument to a method that takes none, so the filter raises TypeError whenever both metadata and required keywords are present | non-empty metadata with required keywords `["LLM"]`, the smoke scenario of tests/test_smoke.py | `checker.check_relevance()`: relevant papers go on to content extraction, irrelevant ones end the run as completed | not executed | WorkflowNodes.FilterPaperRelevanceNodeAsWritten | WorkflowNodes.FilterPaperRelevanceNode |

The import failure is exhibited by `WorkflowGraph.NoRunAsWritten` and by `WorkflowRuns.SmokeRun`. The rest of the model runs the corrected graph. The filter discrepancy is exhibited by `WorkflowNodes.AsWrittenFilterRaises` and by `WorkflowRuns.SmokeRun`. The graph uses the corrected node.
