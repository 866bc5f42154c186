/** The stand-alone transcriber: the same WebVTT cleaning as the content
    extractor, but every timing, blank or header line switches capturing on,
    each kept line is stripped once more, failures are reported as text, and
    up to eleven attempts are made. */
module YouTubeConnector {
  import opened Py
  import opened Text
  import opened VttSentence
  import YouTubeContentExtractor

  const MaxRetries: nat := 10
  /** `MAX_RETRIES` as the message prints it. */
  const MaxRetriesText: string := "10"
  const SkipPatterns: set<string> := {"WEBVTT", "Kind: captions", "Language: en-US", "Language: en"}

  function NoInfoMessage(videoId: string): string {
    "Failed to extract info for video " + videoId
  }
  function NoEnglishMessage(videoId: string): string {
    "No English subtitles found for video " + videoId
  }
  function ReadErrorMessage(error: string): string {
    "Error reading subtitle file: " + error
  }
  function RetriesExhaustedMessage(error: string): string {
    "Failed to transcribe the video after " + MaxRetriesText + " attempts: " + error
  }

  /** A timing line, a blank line or a header line: skipped, and capturing starts. */
  predicate StartsCapture(line: string) {
    Contains(line, TimingMarker) || Strip(line) == "" || Strip(line) in SkipPatterns
  }

  /** The kept lines of the line loop, given whether capturing is on. */
  function Emitted(lines: seq<string>, capture: bool): seq<string>
    decreases |lines|
  {
    if lines == [] then []
    else if StartsCapture(lines[0]) then Emitted(lines[1..], true)
    else if capture then [Strip(ExtractSentence(Strip(lines[0])))] + Emitted(lines[1..], true)
    else Emitted(lines[1..], false)
  }

  /** The lines that are not skipped. */
  function ContentLines(lines: seq<string>): (r: seq<string>)
    ensures forall i :: 0 <= i < |r| ==> !StartsCapture(r[i])
    decreases |lines|
  {
    if lines == [] then []
    else if StartsCapture(lines[0]) then ContentLines(lines[1..])
    else [lines[0]] + ContentLines(lines[1..])
  }

  /** Each line, stripped, cleaned and stripped again. */
  function Cleaned(lines: seq<string>): seq<string>
    decreases |lines|
  {
    if lines == [] then [] else [Strip(ExtractSentence(Strip(lines[0])))] + Cleaned(lines[1..])
  }

  /** Once capturing is on, every non-skipped line is kept, in order. */
  lemma {:induction false} CapturingKeepsContent(lines: seq<string>)
    ensures Emitted(lines, true) == Cleaned(ContentLines(lines))
    decreases |lines|
  {
    if lines != [] {
      CapturingKeepsContent(lines[1..]);
    }
  }

  /** Lines before the first skipped line are dropped; everything after it that is
      not skipped is kept. */
  lemma {:induction false} AfterFirstSkipped(pre: seq<string>, skipped: string, rest: seq<string>)
    requires forall i :: 0 <= i < |pre| ==> !StartsCapture(pre[i])
    requires StartsCapture(skipped)
    ensures Emitted(pre + [skipped] + rest, false) == Cleaned(ContentLines(rest))
    decreases |pre|
  {
    if pre == [] {
      assert pre + [skipped] + rest == [skipped] + rest;
      assert ([skipped] + rest)[1..] == rest;
      CapturingKeepsContent(rest);
    } else {
      assert (pre + [skipped] + rest)[1..] == pre[1..] + [skipped] + rest;
      AfterFirstSkipped(pre[1..], skipped, rest);
    }
  }

  /** The transcript of a subtitle file: its kept lines, space-separated. */
  function Transcript(content: string): string {
    Join(" ", Emitted(Split(content, '\n'), false))
  }

  /** The line loop inside `get_video_transcript`. */
  method ParseVtt(content: string) returns (transcript: string)
    ensures transcript == Transcript(content)
  {
    var lines := Split(content, '\n');
    var parts: seq<string> := [];
    var capture := false;
    for i := 0 to |lines|
      invariant parts + Emitted(lines[i..], capture) == Emitted(lines, false)
    {
      var line := lines[i];
      var stripped := Strip(line);
      assert lines[i..][1..] == lines[i + 1..];
      if Contains(line, TimingMarker) || stripped == "" || stripped in SkipPatterns {
        capture := true;
        continue;
      }
      if capture && stripped != "" {
        var parsedLine := ExtractSentence(stripped);
        KeptLine(lines[i..], parts);
        parts := parts + [Strip(parsedLine)];
      }
    }
    assert lines[|lines|..] == [];
    assert parts + [] == parts;
    transcript := Join(" ", parts);
  }

  /** One kept line moves from the unread lines to the kept ones. */
  lemma KeptLine(rest: seq<string>, parts: seq<string>)
    requires rest != [] && !StartsCapture(rest[0])
    ensures parts + Emitted(rest, true) == parts + [Strip(ExtractSentence(Strip(rest[0])))] + Emitted(rest[1..], true)
  {
    KeptStep(rest);
    AppendAssoc(parts, [Strip(ExtractSentence(Strip(rest[0])))], Emitted(rest[1..], true));
  }

  /** Regrouping stated on plain sequences, so that the solver proves it away from
      the cleaned-line terms of `KeptLine`, where it does not fit the resource limit. */
  lemma AppendAssoc(a: seq<string>, b: seq<string>, c: seq<string>)
    ensures a + (b + c) == a + b + c
  {
  }

  lemma KeptStep(rest: seq<string>)
    requires rest != [] && !StartsCapture(rest[0])
    ensures Emitted(rest, true) == [Strip(ExtractSentence(Strip(rest[0])))] + Emitted(rest[1..], true)
  {
  }

  /** What the subtitle file read gave. */
  datatype FileRead = ReadFailed(error: string) | Read(content: string)

  /** What one download attempt found. */
  datatype Attempt =
    | Raised(error: string)
    | NoInfo
    | NoEnglishSubtitles
    | Subtitles(file: FileRead)

  /** What an attempt that did not raise returns. */
  function AttemptOutcome(videoId: string, a: Attempt): string
    requires !a.Raised?
  {
    match a
    case NoInfo => NoInfoMessage(videoId)
    case NoEnglishSubtitles => NoEnglishMessage(videoId)
    case Subtitles(ReadFailed(e)) => ReadErrorMessage(e)
    case Subtitles(Read(content)) => Transcript(content)
  }

  /** The result of attempt k and those after it. */
  function TranscriptFrom(videoId: string, attempt: nat -> Attempt, k: nat): string
    requires k <= MaxRetries
    decreases MaxRetries - k
  {
    if !attempt(k).Raised? then AttemptOutcome(videoId, attempt(k))
    else if k + 1 <= MaxRetries then TranscriptFrom(videoId, attempt, k + 1)
    else RetriesExhaustedMessage(attempt(k).error)
  }

  /** The body of the `try` block, for an attempt that does not raise. */
  method FinishAttempt(videoId: string, a: Attempt) returns (transcript: string)
    requires !a.Raised?
    ensures transcript == AttemptOutcome(videoId, a)
  {
    match a
    case NoInfo =>
      return NoInfoMessage(videoId);
    case NoEnglishSubtitles =>
      return NoEnglishMessage(videoId);
    case Subtitles(ReadFailed(e)) =>
      return ReadErrorMessage(e);
    case Subtitles(Read(content)) =>
      transcript := ParseVtt(content);
  }

  /** `get_video_transcript`: the retry loop. */
  method GetVideoTranscript(videoId: string, attempt: nat -> Attempt) returns (transcript: string)
    ensures transcript == TranscriptFrom(videoId, attempt, 0)
  {
    var retries := 0;
    while retries <= MaxRetries
      invariant retries <= MaxRetries
      invariant TranscriptFrom(videoId, attempt, retries) == TranscriptFrom(videoId, attempt, 0)
      decreases MaxRetries - retries
    {
      var a := attempt(retries);
      if !a.Raised? {
        transcript := FinishAttempt(videoId, a);
        return;
      }
      retries := retries + 1;
      if retries <= MaxRetries {
        continue;
      }
      return RetriesExhaustedMessage(a.error);
    }
    assert false;
    return "Failed to transcribe the video after maximum retries.";
  }

  /** The message prints the retry bound in decimal. */
  lemma MaxRetriesRendered()
    ensures NatToString(MaxRetries) == MaxRetriesText
    ensures DigitsValue(MaxRetriesText) == MaxRetries
  {
    NatToStringValue(MaxRetries);
  }

  /** Only the first MaxRetries + 1 = 11 attempts are ever made. */
  lemma {:induction false} AttemptsAfterEleventhIgnored(videoId: string, a: nat -> Attempt, b: nat -> Attempt, k: nat)
    requires k <= MaxRetries
    requires forall j :: k <= j <= MaxRetries ==> a(j) == b(j)
    ensures TranscriptFrom(videoId, a, k) == TranscriptFrom(videoId, b, k)
    decreases MaxRetries - k
  {
    if k < MaxRetries {
      AttemptsAfterEleventhIgnored(videoId, a, b, k + 1);
    }
  }

  /** Eleven failed attempts report the last error. */
  lemma {:induction false} AllAttemptsRaise(videoId: string, a: nat -> Attempt, k: nat)
    requires k <= MaxRetries
    requires forall j :: k <= j <= MaxRetries ==> a(j).Raised?
    ensures TranscriptFrom(videoId, a, k) == RetriesExhaustedMessage(a(MaxRetries).error)
    decreases MaxRetries - k
  {
    if k < MaxRetries {
      AllAttemptsRaise(videoId, a, k + 1);
    }
  }

  /** A line without '-' is no timing line. */
  lemma {:induction false} NoDashNoTiming(s: string)
    requires '-' !in s
    ensures !Contains(s, TimingMarker)
    decreases |s|
  {
    if s != [] {
      assert !StartsWith(s, TimingMarker) by {
        if |TimingMarker| <= |s| {
          assert s[..|TimingMarker|][0] == s[0];
        }
      }
      NoDashNoTiming(s[1..]);
    }
  }

  /** The two parsers differ on a file whose caption line follows a header
      line directly (such as "WEBVTT" then "hello"): the content extractor
      waits for a timing line and keeps nothing, the connector starts after
      any skipped line and keeps the caption. */
  lemma CaptureRulesDiffer(header: string, caption: string)
    requires header in SkipPatterns && '-' !in header
    requires caption != [] && Strip(caption) == caption && caption !in SkipPatterns
    requires '-' !in caption && '<' !in caption
    ensures YouTubeContentExtractor.Emitted([header, caption], false) == []
    ensures Emitted([header, caption], false) == [caption]
  {
    ExtractorWaitsForTiming(header, caption);
    ConnectorStartsAfterHeader(header, caption);
  }

  lemma ExtractorWaitsForTiming(header: string, caption: string)
    requires '-' !in header && '-' !in caption
    ensures YouTubeContentExtractor.Emitted([header, caption], false) == []
  {
    NoDashNoTiming(header);
    NoDashNoTiming(caption);
    YouTubeContentExtractor.NoTimingNoText([header, caption]);
  }

  lemma ConnectorStartsAfterHeader(header: string, caption: string)
    requires header in SkipPatterns
    requires caption != [] && Strip(caption) == caption && caption !in SkipPatterns
    requires '-' !in caption && '<' !in caption
    ensures Emitted([header, caption], false) == [caption]
  {
    var lines := [header, caption];
    assert StartsCapture(header) by { HeaderStripped(header); }
    assert !StartsCapture(caption) by { NoDashNoTiming(caption); }
    SkippedStep(lines, false);
    assert lines[1..] == [caption];
    KeptStep([caption]);
    assert [caption][1..] == [];
    NoTagSentence(caption);
  }

  lemma SkippedStep(rest: seq<string>, capture: bool)
    requires rest != [] && StartsCapture(rest[0])
    ensures Emitted(rest, capture) == Emitted(rest[1..], true)
  {
  }

  lemma HeaderStripped(header: string)
    requires header in SkipPatterns
    ensures Strip(header) == header
  {
    assert !IsSpace('W') && !IsSpace('T') && !IsSpace('K') && !IsSpace('s') && !IsSpace('L')
        && !IsSpace('n') && !IsSpace('S');
    StripOfStripped(header);
  }

  lemma NoTagSentence(s: string)
    requires '<' !in s && Strip(s) == s
    ensures Strip(ExtractSentence(s)) == s
  {
    SentenceWithoutTags(s);
  }
}
