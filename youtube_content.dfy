/** The transcript of a YouTube video, from its English WebVTT subtitles:
    timing lines switch capturing on, blank and header lines are skipped, and
    every other captured line is cleaned and kept; the subtitles are fetched
    in at most four attempts. The download is an oracle that reports, per
    attempt, what it found. */
module YouTubeContentExtractor {
  import opened Py
  import opened Text
  import opened VttSentence

  const MaxRetries: nat := 3
  const Headers: seq<string> := ["WEBVTT", "Kind: captions", "Language: en", "Language: en-US"]
  const ExtractFailedPrefix: string := "Failed to extract transcript for video: "

  predicate IsTiming(line: string) {
    Contains(line, TimingMarker)
  }

  /** A blank line or one of the header lines. */
  predicate IsSkipped(line: string) {
    Strip(line) in Headers || Strip(line) == ""
  }

  /** The cleaned sentences the line loop appends, given whether capturing is on. */
  function Emitted(lines: seq<string>, capture: bool): seq<string>
    decreases |lines|
  {
    if lines == [] then []
    else if IsTiming(lines[0]) then Emitted(lines[1..], true)
    else if IsSkipped(lines[0]) then Emitted(lines[1..], capture)
    else if capture then [ExtractSentence(Strip(lines[0]))] + Emitted(lines[1..], capture)
    else Emitted(lines[1..], capture)
  }

  /** The lines that carry caption text: neither timing, nor blank, nor a header. */
  function TextLines(lines: seq<string>): (r: seq<string>)
    ensures forall i :: 0 <= i < |r| ==> !IsTiming(r[i]) && !IsSkipped(r[i])
    decreases |lines|
  {
    if lines == [] then []
    else if !IsTiming(lines[0]) && !IsSkipped(lines[0]) then [lines[0]] + TextLines(lines[1..])
    else TextLines(lines[1..])
  }

  /** Each line, stripped and cleaned. */
  function Sentences(lines: seq<string>): seq<string>
    decreases |lines|
  {
    if lines == [] then [] else [ExtractSentence(Strip(lines[0]))] + Sentences(lines[1..])
  }

  /** Once capturing is on, every caption-text line is emitted, in order. */
  lemma {:induction false} CapturingEmitsText(lines: seq<string>)
    ensures Emitted(lines, true) == Sentences(TextLines(lines))
    decreases |lines|
  {
    if lines != [] {
      CapturingEmitsText(lines[1..]);
    }
  }

  /** Nothing is emitted before the first timing line. */
  lemma {:induction false} NothingBeforeTiming(pre: seq<string>, rest: seq<string>)
    requires forall i :: 0 <= i < |pre| ==> !IsTiming(pre[i])
    ensures Emitted(pre + rest, false) == Emitted(rest, false)
    decreases |pre|
  {
    if pre == [] {
      assert pre + rest == rest;
    } else {
      assert (pre + rest)[1..] == pre[1..] + rest;
      NothingBeforeTiming(pre[1..], rest);
    }
  }

  /** The emitted lines are the caption-text lines after the first timing line. */
  lemma AfterFirstTiming(pre: seq<string>, timing: string, rest: seq<string>)
    requires forall i :: 0 <= i < |pre| ==> !IsTiming(pre[i])
    requires IsTiming(timing)
    ensures Emitted(pre + [timing] + rest, false) == Sentences(TextLines(rest))
  {
    assert pre + [timing] + rest == pre + ([timing] + rest);
    NothingBeforeTiming(pre, [timing] + rest);
    assert ([timing] + rest)[1..] == rest;
    CapturingEmitsText(rest);
  }

  /** Subtitles without any timing line give an empty transcript. */
  lemma NoTimingNoText(lines: seq<string>)
    requires forall i :: 0 <= i < |lines| ==> !IsTiming(lines[i])
    ensures Emitted(lines, false) == []
  {
    NothingBeforeTiming(lines, []);
    assert lines + [] == lines;
  }

  /** The loop of `_parse_vtt_file` over the lines of the file. */
  method ParseVtt(content: string) returns (transcript: string)
    ensures transcript == Join(" ", Emitted(Split(content, '\n'), false))
  {
    var lines := Split(content, '\n');
    var parts: seq<string> := [];
    var capture := false;
    for i := 0 to |lines|
      invariant parts + Emitted(lines[i..], capture) == Emitted(lines, false)
    {
      var line := lines[i];
      assert lines[i..][1..] == lines[i + 1..];
      if Contains(line, TimingMarker) {
        capture := true;
        continue;
      }
      if Strip(line) in Headers || Strip(line) == "" {
        continue;
      }
      if capture && Strip(line) != "" {
        var cleanLine := ExtractSentence(Strip(line));
        assert parts + [cleanLine] + Emitted(lines[i + 1..], capture) == parts + Emitted(lines[i..], capture);
        parts := parts + [cleanLine];
      }
    }
    assert lines[|lines|..] == [];
    assert parts + [] == parts;
    transcript := Join(" ", parts);
  }

  /** What one download attempt found: it raised, there were no English
      subtitles, or the subtitle file's text (absent when reading it raised). */
  datatype Attempt = Raised | NoEnglishSubtitles | Subtitles(file: Option<string>)

  /** The transcript from attempt k on. */
  function TranscriptFrom(attempt: nat -> Attempt, k: nat): string
    decreases MaxRetries + 1 - k
  {
    if k > MaxRetries then ""
    else match attempt(k)
      case Raised => TranscriptFrom(attempt, k + 1)
      case NoEnglishSubtitles => ""
      case Subtitles(None) => ""
      case Subtitles(Some(content)) => Join(" ", Emitted(Split(content, '\n'), false))
  }

  /** `_get_video_transcript`: the retry loop. */
  method GetVideoTranscript(attempt: nat -> Attempt) returns (transcript: string)
    ensures transcript == TranscriptFrom(attempt, 0)
  {
    var retries := 0;
    while retries <= MaxRetries
      invariant retries <= MaxRetries + 1
      invariant TranscriptFrom(attempt, retries) == TranscriptFrom(attempt, 0)
      decreases MaxRetries + 1 - retries
    {
      match attempt(retries)
      case Raised =>
        retries := retries + 1;
      case NoEnglishSubtitles =>
        return "";
      case Subtitles(None) =>
        return "";
      case Subtitles(Some(content)) =>
        transcript := ParseVtt(content);
        return;
    }
    return "";
  }

  /** Only the first MaxRetries + 1 = 4 attempts are ever made. */
  lemma {:induction false} AttemptsAfterFourthIgnored(a: nat -> Attempt, b: nat -> Attempt, k: nat)
    requires forall j :: k <= j <= MaxRetries ==> a(j) == b(j)
    ensures TranscriptFrom(a, k) == TranscriptFrom(b, k)
    decreases MaxRetries + 1 - k
  {
    if k <= MaxRetries {
      AttemptsAfterFourthIgnored(a, b, k + 1);
    }
  }

  /** Four failed attempts give the empty transcript. */
  lemma {:induction false} AllAttemptsRaise(a: nat -> Attempt, k: nat)
    requires forall j :: k <= j <= MaxRetries ==> a(j).Raised?
    ensures TranscriptFrom(a, k) == ""
    decreases MaxRetries + 1 - k
  {
    if k <= MaxRetries {
      AllAttemptsRaise(a, k + 1);
    }
  }

  /** `extract_content`: an empty transcript is an error. */
  method ExtractContent(videoId: string, attempt: nat -> Attempt) returns (r: Result<string>)
    ensures TranscriptFrom(attempt, 0) == "" ==> r == Raise(ValueError(ExtractFailedPrefix + videoId))
    ensures TranscriptFrom(attempt, 0) != "" ==> r == Ok(TranscriptFrom(attempt, 0))
    ensures r.Ok? ==> r.value != ""
  {
    var transcript := GetVideoTranscript(attempt);
    if transcript == "" {
      return Raise(ValueError(ExtractFailedPrefix + videoId));
    }
    return Ok(transcript);
  }
}
