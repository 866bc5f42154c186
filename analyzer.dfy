/** The paper analyzer: four fixed questions are answered one after the other
    from the chunks that a search of the paper's index returns, with a
    placeholder answer when there is no context or the language model fails;
    the answers are formatted as plain text and summarised. The language model
    is an oracle that may fail. */
module PaperAnalyzer {
  import opened Py
  import opened Text
  import opened PaperRagProcessor

  /** The questions asked of every paper, in the order they are asked. */
  const Questions: seq<string> := [
    "What problem does the paper address?",
    "Why is this problem important?",
    "What is the main claim or conclusion?",
    "What is the key insight of the paper?"
  ]

  /** Chunks retrieved per question. */
  const SearchK: nat := 15
  const ContextSeparator: string := "\n\n"
  const DataNotFound: string := "Data not found in paper."
  const AnswerError: string := "Error generating answer."
  const NoAnalysisData: string := "No analysis data available."
  const SummaryPromptMissing: string := "Could not load summary prompt"
  const SummaryError: string := "Error generating summary"

  /** The validation error `PromptTemplate` raises for a template that is not a string. */
  const PromptNotString: string := "PromptTemplate: template is not a str"

  /** The language-model side: the two prompt templates as read from the
      prompt file (reading may raise), whether `PromptTemplate` rejects a string
      template (an unmatched brace, say), whether creating the chat client
      raises, and the two chains, each of which may raise. */
  datatype Llm = Llm(
    analysisTemplate: Result<Value>,
    summaryTemplate: Result<Value>,
    templateError: string -> Option<Exc>,
    clientError: Option<Exc>,
    answer: (string, string) -> Result<string>,
    summarize: string -> Result<string>)

  /** An insertion-ordered dictionary from strings to strings. */
  type Dict = seq<(string, string)>

  function Keys(d: Dict): (r: seq<string>)
    ensures |r| == |d|
    ensures forall i :: 0 <= i < |d| ==> r[i] == d[i].0
  {
    seq(|d|, i requires 0 <= i < |d| => d[i].0)
  }

  /** `d[k] = v`: an existing key keeps its place and takes the new value; a new key goes last. */
  function Assign(d: Dict, k: string, v: string): (r: Dict)
    ensures k !in Keys(d) ==> r == d + [(k, v)]
    ensures k in Keys(d) ==> Keys(r) == Keys(d)
    ensures k in Keys(d) ==> forall i :: 0 <= i < |d| && d[i].0 != k ==> r[i] == d[i]
    ensures (k, v) in r
    decreases |d|
  {
    if d == [] then [(k, v)]
    else if d[0].0 == k then
      KeysCons((k, v), d[1..]);
      KeysCons(d[0], d[1..]);
      assert d == [d[0]] + d[1..];
      [(k, v)] + d[1..]
    else
      var rest := Assign(d[1..], k, v);
      KeysCons(d[0], d[1..]);
      KeysCons(d[0], rest);
      assert d == [d[0]] + d[1..];
      [d[0]] + rest
  }

  /** The keys of an entry followed by a dictionary. */
  lemma KeysCons(e: (string, string), d: Dict)
    ensures Keys([e] + d) == [e.0] + Keys(d)
  {
  }

  lemma QuestionsDistinct()
    ensures forall i, j :: 0 <= i < j < |Questions| ==> Questions[i] != Questions[j]
  {
  }

  /** `PromptTemplate(input_variables=..., template=t)`: a template that is not a
      string fails validation; a string template is accepted unless LangChain
      rejects it. */
  function PromptError(t: Value, llm: Llm): Option<Exc> {
    if t.Str? then llm.templateError(t.s) else Some(ExternalError(PromptNotString))
  }

  /** `_build_llm_chain` succeeds: the analysis template is present and non-empty,
      `PromptTemplate` accepts it and the client is created. */
  predicate ChainBuilds(llm: Llm) {
    llm.analysisTemplate.Ok? && Truthy(llm.analysisTemplate.value) &&
    PromptError(llm.analysisTemplate.value, llm).None? && llm.clientError.None?
  }

  /** A template that is present but not a string (a YAML list or mapping) makes
      `PromptTemplate` raise: `generate_analysis` catches that and answers nothing,
      `generate_summary` does not catch it. */
  lemma NonStringTemplateRaises(results: Dict, llm: Llm)
    requires llm.analysisTemplate == llm.summaryTemplate
    requires llm.summaryTemplate.Ok? && Truthy(llm.summaryTemplate.value) && !llm.summaryTemplate.value.Str?
    ensures !ChainBuilds(llm)
    ensures GenerateSummary(results, llm) == Raise(ExternalError(PromptNotString))
  {
  }

  function Contents(docs: seq<Document>): (r: seq<string>)
    ensures |r| == |docs|
    ensures forall i :: 0 <= i < |docs| ==> r[i] == docs[i].pageContent
  {
    seq(|docs|, i requires 0 <= i < |docs| => docs[i].pageContent)
  }

  /** The answer recorded for one question given its retrieved context. */
  function AnswerFor(context: string, question: string, llm: Llm): (r: string)
    ensures context == "" ==> r == DataNotFound
    ensures context != "" && llm.answer(context, question).Raise? ==> r == AnswerError
    ensures context != "" && llm.answer(context, question).Ok? ==> r == llm.answer(context, question).value
  {
    if context == "" then DataNotFound
    else match llm.answer(context, question)
      case Ok(a) => a
      case Raise(_) => AnswerError
  }

  class Analyzer {
    const ragProcessor: RagProcessor
    const questions: seq<string> := Questions

    constructor(rag: RagProcessor)
      ensures ragProcessor == rag
    {
      ragProcessor := rag;
    }

    /** The joined page contents of the chunks found for a question. */
    function ContextFor(question: string, articleHash: string,
                        rank: (string, seq<Document>) -> Result<seq<nat>>): (r: string)
      reads ragProcessor
      ensures var docs := ragProcessor.Search(question, SearchK, Some(articleHash), rank);
        r == "" <==> docs == [] || (|docs| == 1 && docs[0].pageContent == "")
    {
      var docs := ragProcessor.Search(question, SearchK, Some(articleHash), rank);
      JoinEmpty(ContextSeparator, Contents(docs));
      assert Contents(docs) == [""] <==> |docs| == 1 && docs[0].pageContent == "";
      Join(ContextSeparator, Contents(docs))
    }

    /** The answers to the first questions of a list, in that order. */
    function AnswerAll(qs: seq<string>, articleHash: string, llm: Llm,
                       rank: (string, seq<Document>) -> Result<seq<nat>>): (r: Dict)
      reads ragProcessor
      ensures Keys(r) == qs
      ensures forall i :: 0 <= i < |qs| ==>
        r[i].1 == AnswerFor(ContextFor(qs[i], articleHash, rank), qs[i], llm)
      decreases |qs|
    {
      if qs == [] then []
      else
        var q := qs[|qs| - 1];
        AnswerAll(qs[..|qs| - 1], articleHash, llm, rank) + [(q, AnswerFor(ContextFor(q, articleHash, rank), q, llm))]
    }

    /** Answering one more question appends its entry. */
    lemma AnswerAllExtend(qs: seq<string>, i: nat, articleHash: string, llm: Llm,
                          rank: (string, seq<Document>) -> Result<seq<nat>>)
      requires i < |qs|
      ensures AnswerAll(qs[..i + 1], articleHash, llm, rank) ==
        AnswerAll(qs[..i], articleHash, llm, rank) + [(qs[i], AnswerFor(ContextFor(qs[i], articleHash, rank), qs[i], llm))]
    {
      assert qs[..i + 1][..i] == qs[..i];
    }

    /** `generate_analysis`: nothing when the chain cannot be built, otherwise
        one entry per question, in question order. */
    method GenerateAnalysis(articleHash: string, llm: Llm,
                            rank: (string, seq<Document>) -> Result<seq<nat>>) returns (results: Dict)
      ensures !ChainBuilds(llm) ==> results == []
      ensures ChainBuilds(llm) ==> results == AnswerAll(questions, articleHash, llm, rank)
    {
      results := [];
      if !ChainBuilds(llm) {
        return;
      }
      QuestionsDistinct();
      for i := 0 to |questions|
        invariant results == AnswerAll(questions[..i], articleHash, llm, rank)
      {
        var question := questions[i];
        var chunks := ragProcessor.Search(question, SearchK, Some(articleHash), rank);
        var contextText := Join(ContextSeparator, Contents(chunks));
        assert question !in Keys(results);
        AnswerAllExtend(questions, i, articleHash, llm, rank);
        if contextText == "" {
          results := Assign(results, question, DataNotFound);
          continue;
        }
        var answer := llm.answer(contextText, question);
        if answer.Ok? {
          results := Assign(results, question, answer.value);
        } else {
          results := Assign(results, question, AnswerError);
        }
      }
      assert questions[..|questions|] == questions;
    }
  }

  /** One formatted entry. */
  function Block(e: (string, string)): string {
    "Question: " + e.0 + "\nAnswer: " + e.1 + "\n\n"
  }

  /** The entries' blocks, in order (built from the left, as the loop does). */
  function Blocks(d: Dict): string
    decreases |d|
  {
    if d == [] then "" else Blocks(d[..|d| - 1]) + Block(d[|d| - 1])
  }

  /** The same text read from the front: the first block, then the rest. */
  lemma {:induction false} BlocksFromFront(d: Dict)
    requires d != []
    ensures Blocks(d) == Block(d[0]) + Blocks(d[1..])
    decreases |d|
  {
    if |d| > 1 {
      var init := d[..|d| - 1];
      BlocksFromFront(init);
      assert init[1..] == d[1..][..|d[1..]| - 1];
      assert d[1..][|d[1..]| - 1] == d[|d| - 1];
    } else {
      assert d[..0] == [];
      assert d[1..] == [];
    }
  }

  /** `format_analysis`: the placeholder for an empty dictionary, otherwise the blocks in order. */
  function FormattedAnalysis(results: Dict): (r: string)
    ensures results == [] ==> r == NoAnalysisData
    ensures results != [] ==> r == Block(results[0]) + Blocks(results[1..])
  {
    if results == [] then NoAnalysisData
    else
      BlocksFromFront(results);
      Blocks(results)
  }

  /** The `+=` loop of `format_analysis`. */
  method FormatAnalysis(results: Dict) returns (formatted: string)
    ensures formatted == FormattedAnalysis(results)
  {
    if results == [] {
      return NoAnalysisData;
    }
    formatted := "";
    for i := 0 to |results|
      invariant formatted == Blocks(results[..i])
    {
      var (question, answer) := results[i];
      assert results[..i + 1][..i] == results[..i];
      formatted := formatted + "Question: " + question + "\nAnswer: " + answer + "\n\n";
    }
    assert results[..|results|] == results;
  }

  /** A non-empty analysis is never rendered as the placeholder. */
  lemma FormattedNonEmpty(results: Dict)
    requires results != []
    ensures FormattedAnalysis(results) != NoAnalysisData
    ensures Text.StartsWith(FormattedAnalysis(results), "Question: " + results[0].0)
  {
    BlockOpens(results[0], Blocks(results[1..]));
    assert NoAnalysisData[0] == 'N';
  }

  /** A text that opens with an entry's block starts with its question line. */
  lemma BlockOpens(e: (string, string), rest: string)
    ensures Text.StartsWith(Block(e) + rest, "Question: " + e.0)
    ensures (Block(e) + rest)[0] == 'Q'
  {
    var head := "Question: " + e.0;
    var tail := "\nAnswer: " + e.1 + "\n\n" + rest;
    assert Block(e) + rest == head + tail;
    PrefixStartsWith(head, tail);
  }

  /** `generate_summary`: a missing summary template and a failing chain give
      their messages; building the prompt and creating the chat client are
      outside both `try` blocks, so their exceptions escape. */
  function GenerateSummary(results: Dict, llm: Llm): (r: Result<string>)
    ensures !(llm.summaryTemplate.Ok? && Truthy(llm.summaryTemplate.value)) ==> r == Ok(SummaryPromptMissing)
    ensures llm.summaryTemplate.Ok? && Truthy(llm.summaryTemplate.value) ==>
      var promptError := PromptError(llm.summaryTemplate.value, llm);
      if promptError.Some? then r == Raise(promptError.value)
      else if llm.clientError.Some? then r == Raise(llm.clientError.value)
      else if llm.summarize(FormattedAnalysis(results)).Raise? then r == Ok(SummaryError)
      else r == llm.summarize(FormattedAnalysis(results))
    ensures r.Raise? <==>
      llm.summaryTemplate.Ok? && Truthy(llm.summaryTemplate.value) &&
      (PromptError(llm.summaryTemplate.value, llm).Some? || llm.clientError.Some?)
  {
    var contextString := FormattedAnalysis(results);
    if !(llm.summaryTemplate.Ok? && Truthy(llm.summaryTemplate.value)) then Ok(SummaryPromptMissing)
    else if PromptError(llm.summaryTemplate.value, llm).Some? then Raise(PromptError(llm.summaryTemplate.value, llm).value)
    else if llm.clientError.Some? then Raise(llm.clientError.value)
    else match llm.summarize(contextString)
      case Ok(summary) => Ok(summary)
      case Raise(_) => Ok(SummaryError)
  }
}
