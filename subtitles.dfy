/** Cleaning one WebVTT caption line: the text before the first tag, followed
    by the words wrapped in `<c>…</c>` tags, space-separated. Both the content
    extractor and the connector clean lines this way. */
module VttSentence {
  import opened Text

  const OpenTag: string := "<c>"
  const CloseTag: string := "</c>"
  /** What marks a WebVTT cue timing line ("00:00:01.000 --> 00:00:02.000"). */
  const TimingMarker: string := "-->"

  /** The length of the leading run of characters other than '<'. */
  function RunLength(s: string): (n: nat)
    ensures n <= |s|
    ensures forall i :: 0 <= i < n ==> s[i] != '<'
    ensures n < |s| ==> s[n] == '<'
  {
    if s == [] || s[0] == '<' then 0 else 1 + RunLength(s[1..])
  }

  /** The group `\s?([^<]+)` takes from a maximal run of non-'<' characters:
      a leading whitespace character is left to `\s?` unless it is the whole run. */
  function Group(run: string): (r: string)
    requires run != []
    ensures r != [] && |r| <= |run| && r == run[|run| - |r|..]
  {
    if |run| > 1 && IsSpace(run[0]) then run[1..] else run
  }

  /** `re.findall(r"<c>\s?([^<]+)</c>", s)`: scanning from the left, each
      `<c>` followed by a non-empty run of non-'<' characters and `</c>` yields
      that run's group, and scanning resumes after the `</c>`. */
  function Payloads(s: string): (r: seq<string>)
    ensures forall i :: 0 <= i < |r| ==> r[i] != [] && '<' !in r[i]
    decreases |s|
  {
    if |s| < |OpenTag| then []
    else if s[..3] == OpenTag then
      var rest := s[3..];
      var n := RunLength(rest);
      if n > 0 && StartsWith(rest[n..], CloseTag) then
        GroupFree(rest[..n]);
        [Group(rest[..n])] + Payloads(rest[n + 4..])
      else Payloads(s[1..])
    else Payloads(s[1..])
  }

  lemma GroupFree(run: string)
    requires run != []
    requires forall i :: 0 <= i < |run| ==> run[i] != '<'
    ensures '<' !in Group(run)
  {
    var g := Group(run);
    assert forall i :: 0 <= i < |g| ==> g[i] == run[|run| - |g| + i];
  }

  function StripEach(xs: seq<string>): (r: seq<string>)
    ensures |r| == |xs|
    ensures forall i :: 0 <= i < |xs| ==> r[i] == Strip(xs[i])
  {
    seq(|xs|, i requires 0 <= i < |xs| => Strip(xs[i]))
  }

  /** The pieces `_extract_sentence` joins: the stripped text before the first
      '<', then each stripped payload. */
  function Pieces(line: string): seq<string> {
    [Strip(Split(line, '<')[0])] + StripEach(Payloads(line))
  }

  /** `_extract_sentence`: the pieces, space-separated, so the sentence opens with
      the stripped text before the first tag. */
  function ExtractSentence(line: string): (r: string)
    ensures StartsWith(r, Strip(Split(line, '<')[0]))
  {
    var first, words := Strip(Split(line, '<')[0]), StripEach(Payloads(line));
    assert Pieces(line) == [first] + words;
    if words == [] then
      assert StartsWith(first, first) by { PrefixStartsWith(first, ""); assert first + "" == first; }
      Join(" ", Pieces(line))
    else
      assert ([first] + words)[1..] == words;
      PrefixStartsWith(first, " " + Join(" ", words));
      assert first + " " + Join(" ", words) == first + (" " + Join(" ", words));
      Join(" ", Pieces(line))
  }

  lemma {:induction false} NoTagNoPayloads(s: string)
    requires '<' !in s
    ensures Payloads(s) == []
    decreases |s|
  {
    if s != [] {
      assert !StartsWith(s, OpenTag) by { assert s[0] != '<'; }
      NoTagNoPayloads(s[1..]);
    }
  }

  lemma {:induction false} SplitWithoutSeparator(s: string, c: char)
    requires c !in s
    ensures Split(s, c) == [s]
    decreases |s|
  {
    if s != [] {
      SplitWithoutSeparator(s[1..], c);
      assert [s[0]] + s[1..] == s;
    }
  }

  /** The first piece of a split is the text before the first separator. */
  lemma {:induction false} SplitHead(a: string, c: char, b: string)
    requires c !in a
    ensures Split(a + [c] + b, c)[0] == a
    decreases |a|
  {
    var s := a + [c] + b;
    if a == [] {
      assert s[0] == c;
    } else {
      assert s[1..] == a[1..] + [c] + b;
      SplitHead(a[1..], c, b);
      assert [a[0]] + a[1..] == a;
    }
  }

  /** A line without tags cleans to its own strip; a stripped one to itself. */
  lemma SentenceWithoutTags(line: string)
    requires '<' !in line
    ensures ExtractSentence(line) == Strip(line)
    ensures IsStripped(line) ==> ExtractSentence(line) == line
  {
    SplitWithoutSeparator(line, '<');
    NoTagNoPayloads(line);
    if IsStripped(line) {
      StripOfStripped(line);
    }
  }

  lemma StripFree(s: string, c: char)
    requires c !in s
    ensures c !in Strip(s)
  {
    var l := StripLeft(s);
    assert l == s[|s| - |l|..];
    assert StripRight(l) == l[..|StripRight(l)|];
    assert forall i :: 0 <= i < |Strip(s)| ==> Strip(s)[i] == s[|s| - |l| + i];
  }

  lemma {:induction false} JoinFree(sep: string, parts: seq<string>, c: char)
    requires c !in sep
    requires forall i :: 0 <= i < |parts| ==> c !in parts[i]
    ensures c !in Join(sep, parts)
    decreases |parts|
  {
    if |parts| > 1 {
      JoinFree(sep, parts[1..], c);
    }
  }

  /** Cleaning removes every tag: no '<' is left. */
  lemma SentenceHasNoTags(line: string)
    ensures '<' !in ExtractSentence(line)
  {
    PiecesHaveNoTags(line);
    JoinFree(" ", Pieces(line), '<');
  }

  /** The text before the first tag and the payloads hold no '<'. */
  lemma PiecesHaveNoTags(line: string)
    ensures forall i :: 0 <= i < |Pieces(line)| ==> '<' !in Pieces(line)[i]
  {
    SplitPiecesFree(line, '<');
    StripFree(Split(line, '<')[0], '<');
    var ps := Payloads(line);
    forall i | 0 <= i < |ps|
      ensures '<' !in Strip(ps[i])
    {
      StripFree(ps[i], '<');
    }
  }
}

/** Worked cases of line cleaning: the automatic-caption layout with a
    timestamp tag and a `<c>`-wrapped word. */
module VttCaptions {
  import opened Text
  import opened VttSentence

  /** An automatic caption line — a first word, a timestamp tag `<stamp>` and a
      word tagged as `<c> word</c>` — cleans to the two words. */
  lemma {:induction false} CaptionLine(first: string, stamp: string, word: string)
    requires '<' !in first && IsStripped(first)
    requires '<' !in stamp && (stamp == [] || stamp[0] != 'c')
    requires word != [] && '<' !in word && IsStripped(word)
    ensures ExtractSentence(first + "<" + stamp + ">" + OpenTag + " " + word + CloseTag) == first + " " + word
  {
    var tag := "<" + stamp + ">";
    var t := OpenTag + " " + word + CloseTag;
    var line := first + tag + t;
    assert first + "<" + stamp + ">" + OpenTag + " " + word + CloseTag == line;
    FirstPiece(first, stamp, t);
    assert Payloads(line) == [word] by {
      assert line == first + (tag + t);
      PrefixSkipped(first, stamp, t);
      TaggedWord(word);
    }
    StripOfStripped(first);
    StripOfStripped(word);
    JoinOfStripped(first, word);
  }

  lemma FirstPiece(first: string, stamp: string, t: string)
    requires '<' !in first
    ensures Split(first + ("<" + stamp + ">") + t, '<')[0] == first
  {
    assert first + ("<" + stamp + ">") + t == first + ['<'] + (stamp + ">" + t);
    SplitHead(first, '<', stamp + ">" + t);
  }

  /** The joined pieces of a line whose head and only payload are already stripped. */
  lemma JoinOfStripped(first: string, word: string)
    requires Strip(first) == first && Strip(word) == word
    ensures Join(" ", [Strip(first)] + StripEach([word])) == first + " " + word
  {
    var ws := StripEach([word]);
    assert ws == [word] by {
      assert ws[0] == word;
    }
    JoinTwo(" ", first, word);
  }

  lemma JoinTwo(sep: string, a: string, b: string)
    ensures Join(sep, [a] + [b]) == a + sep + b
  {
    var ps := [a] + [b];
    assert |ps| == 2 && ps[0] == a;
    assert ps[1..] == [b];
  }

  lemma PrefixSkipped(first: string, stamp: string, t: string)
    requires '<' !in first
    requires '<' !in stamp && (stamp == [] || stamp[0] != 'c')
    ensures Payloads(first + ("<" + stamp + ">" + t)) == Payloads(t)
  {
    var tag := "<" + stamp + ">";
    assert NoTagStart(first);
    PayloadsSkip(first, tag + t);
    assert NoTagStart(tag) by {
      assert forall i :: 0 < i < |tag| ==> tag[i] != '<';
      assert tag[1] != 'c';
    }
    PayloadsSkip(tag, t);
  }

  /** `<c> word</c>` yields the word. */
  lemma TaggedWord(word: string)
    requires word != [] && '<' !in word
    ensures Payloads(OpenTag + " " + word + CloseTag) == [word]
  {
    var run := " " + word;
    var t := OpenTag + (run + CloseTag);
    assert OpenTag + " " + word + CloseTag == t;
    assert t[..3] == OpenTag;
    assert t[3..] == run + CloseTag;
    RunBeforeTag(run, CloseTag);
    assert (run + CloseTag)[..|run|] == run;
    assert (run + CloseTag)[|run|..] == CloseTag;
    assert IsSpace(' ');
    assert Group(run) == word;
    assert CloseTag[4..] == [];
  }

  lemma {:induction false} RunBeforeTag(run: string, tag: string)
    requires '<' !in run && tag != [] && tag[0] == '<'
    ensures RunLength(run + tag) == |run|
    decreases |run|
  {
    if run != [] {
      assert (run + tag)[1..] == run[1..] + tag;
      RunBeforeTag(run[1..], tag);
    } else {
      assert run + tag == tag;
    }
  }

  /** No `<c>` starts inside the text (a '<' in it is followed, within it, by another character than 'c'). */
  predicate NoTagStart(a: string) {
    forall i :: 0 <= i < |a| && a[i] == '<' ==> i + 1 < |a| && a[i + 1] != 'c'
  }

  /** Text in which no `<c>` starts is skipped by the scan. */
  lemma {:induction false} PayloadsSkip(a: string, t: string)
    requires NoTagStart(a)
    ensures Payloads(a + t) == Payloads(t)
    decreases |a|
  {
    if a != [] {
      var s := a + t;
      assert s[1..] == a[1..] + t;
      assert s[0] == a[0];
      if a[0] == '<' {
        assert 1 < |a| && a[1] != 'c';
        assert s[1] == a[1];
      }
      if |s| >= 3 {
        assert s[..3] != OpenTag by {
          assert s[..3][0] == s[0] && s[..3][1] == s[1];
        }
      }
      assert NoTagStart(a[1..]) by {
        forall i | 0 <= i < |a[1..]| && a[1..][i] == '<'
          ensures i + 1 < |a[1..]| && a[1..][i + 1] != 'c'
        {
          assert a[i + 1] == '<';
        }
      }
      PayloadsSkip(a[1..], t);
    } else {
      assert a + t == t;
    }
  }
}
