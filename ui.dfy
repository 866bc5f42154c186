/** The text formatting of the web front end: the analysis as numbered
    Markdown sections separated by rules, the summary with a paragraph break
    after each sentence or clause, and the guard that refuses a blank paper
    or video ID before the workflow runs. */
module UiApp {
  import opened Text
  import PaperAnalyzer

  const NoAnalysis: string := "*No analysis available*"
  const NoSummary: string := "*No summary available*"
  const PartSeparator: string := "\n\n---\n\n"
  const InvalidId: (string, string, string) := ("Error", "Please enter a valid ID", "")

  /** Entry i (counting from 1) of the analysis. */
  function Part(i: nat, question: string, answer: string): string {
    "#### " + NatToString(i) + ". " + question + "\n\n" + answer
  }

  /** The parts of the entries, numbered from 1 in insertion order. */
  function Parts(analysis: PaperAnalyzer.Dict): (r: seq<string>)
    ensures |r| == |analysis|
    ensures forall i :: 0 <= i < |r| ==> r[i] == Part(i + 1, analysis[i].0, analysis[i].1)
  {
    seq(|analysis|, i requires 0 <= i < |analysis| => Part(i + 1, analysis[i].0, analysis[i].1))
  }

  function FormattedAnalysis(analysis: PaperAnalyzer.Dict): string {
    if analysis == [] then NoAnalysis else Join(PartSeparator, Parts(analysis))
  }

  /** `format_analysis`: the enumerate loop collecting the parts, then the join. */
  method FormatAnalysis(analysis: PaperAnalyzer.Dict) returns (formatted: string)
    ensures formatted == FormattedAnalysis(analysis)
  {
    if analysis == [] {
      return NoAnalysis;
    }
    var formattedParts: seq<string> := [];
    for i := 0 to |analysis|
      invariant |formattedParts| == i
      invariant forall j :: 0 <= j < i ==> formattedParts[j] == Part(j + 1, analysis[j].0, analysis[j].1)
    {
      var (question, answer) := analysis[i];
      formattedParts := formattedParts + ["#### " + NatToString(i + 1) + ". " + question + "\n\n" + answer];
    }
    assert formattedParts == Parts(analysis);
    formatted := Join(PartSeparator, formattedParts);
  }

  /** n entries are rendered with exactly n - 1 separators between them, and
      the first entry opens the text. */
  lemma AnalysisLayout(analysis: PaperAnalyzer.Dict)
    requires analysis != []
    ensures |FormattedAnalysis(analysis)| == TotalLength(Parts(analysis)) + (|analysis| - 1) * |PartSeparator|
    ensures StartsWith(FormattedAnalysis(analysis), Part(1, analysis[0].0, analysis[0].1))
  {
    var ps := Parts(analysis);
    JoinLength(PartSeparator, ps);
    if |ps| > 1 {
      assert Join(PartSeparator, ps) == ps[0] + (PartSeparator + Join(PartSeparator, ps[1..]));
    }
  }

  /** An entry's number reads back as its position, counting from 1. */
  lemma PartNumbering(i: nat, question: string, answer: string)
    ensures var digits := NatToString(i);
      StartsWith(Part(i, question, answer), "#### " + digits) && DigitsValue(digits) == i
  {
    NatToStringValue(i);
    var digits := NatToString(i);
    var p := Part(i, question, answer);
    assert p == ("#### " + digits) + (". " + question + "\n\n" + answer);
  }

  /** `format_summary`: a paragraph break after every ". ", then after every "; ". */
  function FormatSummary(summary: string): (r: string)
    ensures summary == "" ==> r == NoSummary
  {
    if summary == "" then NoSummary
    else Replace(Replace(summary, ". ", ".\n\n"), "; ", ";\n\n")
  }

  /** A summary without sentence or clause boundaries is shown as it is. */
  lemma SummaryWithoutBreaks(summary: string)
    requires summary != ""
    requires !Contains(summary, ". ") && !Contains(summary, "; ")
    ensures FormatSummary(summary) == summary
  {
    ReplaceAbsent(summary, ". ", ".\n\n");
    ReplaceAbsent(summary, "; ", ";\n\n");
  }

  /** After formatting no ". " and no "; " is left. */
  lemma SummaryBreaksEverySentence(summary: string)
    requires summary != ""
    ensures !Contains(FormatSummary(summary), ". ")
    ensures !Contains(FormatSummary(summary), "; ")
  {
    var once := Replace(summary, ". ", ".\n\n");
    assert !Contains(".\n\n", ". ") by { NoPairIn(".\n\n", '.', ' '); }
    ReplaceLeavesNone(summary, ". ", ".\n\n");
    assert !Contains(";\n\n", ". ") by { NoPairIn(";\n\n", '.', ' '); }
    ReplaceKeepsAbsent(once, "; ", ";\n\n", ". ");
    assert !Contains(";\n\n", "; ") by { NoPairIn(";\n\n", ';', ' '); }
    ReplaceLeavesNone(once, "; ", ";\n\n");
  }

  /** A text without the second character holds no two-character pattern. */
  lemma {:induction false} NoPairIn(s: string, a: char, b: char)
    requires b !in s
    ensures !Contains(s, [a, b])
    decreases |s|
  {
    if s != [] {
      if |s| >= 2 {
        assert s[..2][1] == s[1];
      }
      NoPairIn(s[1..], a, b);
    }
  }

  /** The guard of `analyze_paper`: a blank ID is refused without running the
      workflow; otherwise the workflow receives the stripped ID. */
  function AnalyzePaper(paperId: string, selectedKeywords: seq<string>,
                        runWorkflow: (string, seq<string>) -> (string, string, string)): (r: (string, string, string))
    ensures Strip(paperId) == "" ==> r == InvalidId
    ensures Strip(paperId) != "" ==> r == runWorkflow(Strip(paperId), selectedKeywords)
  {
    if paperId == "" || Strip(paperId) == "" then InvalidId
    else runWorkflow(Strip(paperId), selectedKeywords)
  }

  /** The workflow only ever sees a non-empty ID without surrounding whitespace. */
  lemma WorkflowSeesStrippedId(paperId: string)
    requires Strip(paperId) != ""
    ensures IsStripped(Strip(paperId)) && Strip(Strip(paperId)) == Strip(paperId)
  {
    StripIdempotent(paperId);
  }
}
