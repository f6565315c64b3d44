/** Cleaning, summarising and scanning e-mail bodies
    (tools/text_processing.py). */
module TextProcessing {
  import opened Wrappers
  import opened Text
  import opened Collections

  // ---------------------------------------------------------------------
  // clean_email_content

  /** A line the signature pattern `^--\s*$` starts at: "--" followed only
      by white space up to the end of the line. */
  predicate IsSignatureLine(line: string) {
    |line| >= 2 && line[..2] == "--" && AllSpace(line[2..])
  }

  /** A quoted line: its stripped text starts with '>'. */
  predicate IsQuoted(line: string) {
    StartsWith(Strip(line), ">")
  }

  predicate Unquoted(line: string) {
    !IsQuoted(line)
  }

  /** The first signature line, if any. */
  function FirstSignature(lines: seq<string>): (k: Option<nat>)
    ensures k.Some? ==> k.value < |lines| && IsSignatureLine(lines[k.value])
    ensures k.Some? ==> forall i :: 0 <= i < k.value ==> !IsSignatureLine(lines[i])
    ensures k.None? ==> forall i :: 0 <= i < |lines| ==> !IsSignatureLine(lines[i])
  {
    if lines == [] then None
    else if IsSignatureLine(lines[0]) then Some(0)
    else match FirstSignature(lines[1..])
      case None => None
      case Some(k) => Some(k + 1)
  }

  /** The lines of `re.sub(r'^--\s*$.*', '', content, flags=MULTILINE |
      DOTALL)`: the match starts at the first signature line and, through
      `.*` with DOTALL, runs to the end, so the text keeps the lines before
      it and the line break ending the last of them, which leaves an empty
      last line. */
  function CutSignature(lines: seq<string>): seq<string> {
    match FirstSignature(lines)
    case None => lines
    case Some(k) => lines[..k] + [""]
  }

  predicate NoTripleNewline(s: string) {
    forall i :: 0 <= i && i + 2 < |s| ==> !(s[i] == '\n' && s[i + 1] == '\n' && s[i + 2] == '\n')
  }

  /** The last line break before position e, or -1. */
  function LastNewline(s: string, e: nat): (j: int)
    requires e <= |s|
    ensures -1 <= j < e
    ensures j >= 0 ==> s[j] == '\n'
    ensures forall k :: j < k < e ==> s[k] != '\n'
  {
    if e == 0 then -1 else if s[e - 1] == '\n' then e - 1 else LastNewline(s, e - 1)
  }

  /** `re.sub(r'\n\s*\n', '\n\n', s)`: a match starts at a line break and,
      `\s*` being greedy, ends at the last line break of the same run of
      white space; it is replaced by two line breaks. A run with one line
      break is left alone. No three line breaks follow each other in the
      result. */
  function CollapseBlankRuns(s: string): (r: string)
    ensures NoTripleNewline(r)
    ensures s == [] <==> r == []
    ensures s != [] && s[0] != '\n' ==> r[0] == s[0]
    decreases |s|
  {
    if s == [] then []
    else if s[0] != '\n' then [s[0]] + CollapseBlankRuns(s[1..])
    else
      var j := LastNewline(s, SkipSpace(s, 0));
      if j > 0 then "\n\n" + CollapseBlankRuns(s[j + 1..])
      else "\n" + CollapseBlankRuns(s[1..])
  }

  /** What `clean_email_content` returns. */
  function CleanContent(content: string): string {
    if content == [] then []
    else Strip(CollapseBlankRuns(Join("\n", Filter(CutSignature(Split(content, {'\n'})), Unquoted))))
  }

  /** The loop of `clean_email_content` that drops the quoted lines. */
  method DropQuoted(lines: seq<string>) returns (cleaned: seq<string>)
    ensures cleaned == Filter(lines, Unquoted)
  {
    cleaned := [];
    var i := 0;
    while i < |lines|
      invariant 0 <= i <= |lines|
      invariant cleaned == Filter(lines[..i], Unquoted)
    {
      var line := lines[i];
      FilterSnoc(lines, i, Unquoted);
      if !IsQuoted(line) {
        cleaned := cleaned + [line];
      }
      i := i + 1;
    }
    assert lines[..i] == lines;
  }

  /** `clean_email_content`. */
  method CleanEmailContent(content: string) returns (r: string)
    ensures r == CleanContent(content)
  {
    if content == [] {
      return [];
    }
    var lines := CutSignature(Split(content, {'\n'}));
    var cleaned := DropQuoted(lines);
    r := Join("\n", cleaned);
    r := CollapseBlankRuns(r);
    r := Strip(r);
  }

  /** The signature cut keeps every line before the first signature line
      and leaves no signature line behind. */
  lemma SignatureCut(lines: seq<string>)
    ensures var cut := CutSignature(lines);
      && (FirstSignature(lines).None? ==> cut == lines)
      && (FirstSignature(lines).Some? ==>
            |cut| == FirstSignature(lines).value + 1 && cut[..|cut| - 1] == lines[..|cut| - 1])
      && forall i :: 0 <= i < |cut| ==> !IsSignatureLine(cut[i])
  {
    var cut := CutSignature(lines);
    if FirstSignature(lines).Some? {
      var k := FirstSignature(lines).value;
      assert cut[..k] == lines[..k];
      forall i | 0 <= i < |cut|
        ensures !IsSignatureLine(cut[i])
      {
        if i < k {
          assert cut[i] == lines[i];
        }
      }
    }
  }

  lemma {:induction false} SliceNoTriple(s: string, a: nat, b: nat)
    requires NoTripleNewline(s) && a <= b <= |s|
    ensures NoTripleNewline(s[a..b])
  {
    forall i | 0 <= i && i + 2 < b - a
      ensures !(s[a..b][i] == '\n' && s[a..b][i + 1] == '\n' && s[a..b][i + 2] == '\n')
    {
      assert s[a..b][i] == s[a + i] && s[a..b][i + 1] == s[a + i + 1] && s[a..b][i + 2] == s[a + i + 2];
    }
  }

  /** The cleaned text has no white space at either end and no three line
      breaks in a row; it is empty for empty content. */
  lemma CleanContentShape(content: string)
    ensures var r := CleanContent(content);
      && (content == [] ==> r == [])
      && (r != [] ==> !IsSpace(r[0]) && !IsSpace(r[|r| - 1]))
      && NoTripleNewline(r)
  {
    if content != [] {
      var c := CollapseBlankRuns(Join("\n", Filter(CutSignature(Split(content, {'\n'})), Unquoted)));
      var a := SkipSpace(c, 0);
      SliceNoTriple(c, a, a + |Strip(c)|);
    }
  }

  lemma CleanDashesAfterSpace()
    ensures CleanContent(" --") == "--"
  {
    SplitNoSeps(" --", {'\n'});
    assert " --"[..2] != "--";
    assert FirstSignature([" --"]) == None;
    assert Strip(" --") == "--" by {
      StripLeadingSpace(' ', "--");
      StripOfStripped("--");
      assert [' '] + "--" == " --";
    }
    assert Filter([" --"], Unquoted) == [" --"] by {
      assert "--"[..1] != ">";
    }
    assert Join("\n", [" --"]) == " --";
    assert CollapseBlankRuns(" --") == " --" by {
      assert " --"[1..] == "--" && "--"[1..] == "-" && "-"[1..] == [];
    }
  }

  lemma CleanDashes()
    ensures CleanContent("--") == ""
  {
    SplitNoSeps("--", {'\n'});
    assert "--"[..2] == "--";
    assert IsSignatureLine("--");
    assert CutSignature(["--"]) == [""];
    assert Filter([""], Unquoted) == [""];
  }

  /** Cleaning is not idempotent: the final strip can bring a "--" line to
      the start of the text, and a second cleaning then cuts it. */
  lemma CleanNotIdempotent()
    ensures CleanContent(CleanContent(" --")) != CleanContent(" --")
  {
    CleanDashesAfterSpace();
    CleanDashes();
  }

  // ---------------------------------------------------------------------
  // summarize_text

  const SentenceEnds: set<char> := {'.', '!', '?'}

  /** A sentence as `summarize_text` keeps it: not empty, no sentence end
      in it, no white space at its ends. */
  predicate IsSentence(s: string) {
    s != [] && !IsSpace(s[0]) && !IsSpace(s[|s| - 1])
    && forall i :: 0 <= i < |s| ==> s[i] !in SentenceEnds
  }

  /** `[s.strip() for s in parts if s.strip()]`. */
  function StrippedNonEmpty(parts: seq<string>): (r: seq<string>)
    ensures |r| <= |parts|
  {
    if parts == [] then []
    else
      var p := Strip(parts[0]);
      (if p != [] then [p] else []) + StrippedNonEmpty(parts[1..])
  }

  /** Pieces without sentence ends strip to sentences. */
  lemma {:induction false} StrippedAreSentences(parts: seq<string>)
    requires forall k, i :: 0 <= k < |parts| && 0 <= i < |parts[k]| ==> parts[k][i] !in SentenceEnds
    ensures forall k :: 0 <= k < |StrippedNonEmpty(parts)| ==> IsSentence(StrippedNonEmpty(parts)[k])
  {
    if parts != [] {
      StripAvoids(parts[0], SentenceEnds);
      StrippedAreSentences(parts[1..]);
    }
  }

  /** The sentences of `re.split(r'[.!?]+', text)` after stripping and
      dropping the empty ones. Splitting on single characters instead of
      runs only adds empty pieces, which are dropped. */
  function Sentences(text: string): (r: seq<string>)
    ensures forall k :: 0 <= k < |r| ==> IsSentence(r[k])
  {
    StrippedAreSentences(Split(text, SentenceEnds));
    StrippedNonEmpty(Split(text, SentenceEnds))
  }

  const IndexError: string := "list index out of range"

  /** `summarize_text`. A negative `max_sentences` with no sentence at all
      indexes an empty list and raises; a text within the limit is kept
      as it is. */
  function Summarize(text: string, maxSentences: int): (r: Result<string>)
    ensures r.Failure? <==> text != [] && Sentences(text) == [] && maxSentences < 0
    ensures |Sentences(text)| <= maxSentences || text == [] ==> r == Success(text)
  {
    if text == [] then Success([])
    else
      var ss := Sentences(text);
      if |ss| <= maxSentences then Success(text)
      else if ss == [] then Failure(IndexError)
      else if maxSentences == 1 then Success(ss[0] + ".")
      else if maxSentences == 2 then Success(ss[0] + ". " + ss[|ss| - 1] + ".")
      else Success(ss[0] + ". " + ss[|ss| / 2] + ". " + ss[|ss| - 1] + ".")
  }

  /** A piece free of sentence ends, then a full stop, splits off first. */
  lemma SplitPiece(a: string, rest: string)
    requires forall i :: 0 <= i < |a| ==> a[i] !in SentenceEnds
    ensures Split(a + "." + rest, SentenceEnds) == [a] + Split(rest, SentenceEnds)
  {
    SplitAppendSep(a, '.', rest, SentenceEnds);
    SplitNoSeps(a, SentenceEnds);
    assert a + ['.'] + rest == a + "." + rest;
  }

  lemma NoEndsSpaced(p: string)
    requires IsSentence(p)
    ensures forall i :: 0 <= i < |" " + p| ==> (" " + p)[i] !in SentenceEnds
  {
    assert forall i :: 1 <= i < |" " + p| ==> (" " + p)[i] == p[i - 1];
  }

  /** The pieces `" " + q` and the empty piece after the final full stop. */
  lemma SplitLast(q: string)
    requires IsSentence(q)
    ensures Split(" " + q + ".", SentenceEnds) == [" " + q, ""]
  {
    NoEndsSpaced(q);
    SplitPiece(" " + q, "");
    assert " " + q + "." + "" == " " + q + ".";
  }

  lemma SplitTwo(p: string, q: string)
    requires IsSentence(p) && IsSentence(q)
    ensures Split(p + ". " + q + ".", SentenceEnds) == [p, " " + q, ""]
  {
    var t := " " + q + ".";
    assert p + ". " + q + "." == p + "." + t;
    SplitLast(q);
    SplitPiece(p, t);
  }

  lemma SplitThree(p: string, m: string, q: string)
    requires IsSentence(p) && IsSentence(m) && IsSentence(q)
    ensures Split(p + ". " + m + ". " + q + ".", SentenceEnds) == [p, " " + m, " " + q, ""]
  {
    var t := " " + m + ". " + q + ".";
    assert p + ". " + m + ". " + q + "." == p + "." + t;
    assert Split(t, SentenceEnds) == [" " + m, " " + q, ""] by {
      var u := " " + q + ".";
      assert t == " " + m + "." + u;
      NoEndsSpaced(m);
      SplitLast(q);
      SplitPiece(" " + m, u);
    }
    SplitPiece(p, t);
  }

  lemma StrippedEmpty()
    ensures StrippedNonEmpty([""]) == []
  {
    assert [""][1..] == [];
  }

  lemma StrippedSentence(parts: seq<string>, p: string)
    requires |parts| >= 1 && parts[0] == p && IsSentence(p)
    ensures StrippedNonEmpty(parts) == [p] + StrippedNonEmpty(parts[1..])
  {
    StripOfStripped(p);
  }

  lemma StrippedSpaced(parts: seq<string>, p: string)
    requires |parts| >= 1 && parts[0] == " " + p && IsSentence(p)
    ensures StrippedNonEmpty(parts) == [p] + StrippedNonEmpty(parts[1..])
  {
    StripLeadingSpace(' ', p);
    StripOfStripped(p);
    assert [' '] + p == " " + p;
  }

  /** The last two pieces of a summary strip to its last sentence. */
  lemma StrippedLast(q: string)
    requires IsSentence(q)
    ensures StrippedNonEmpty([" " + q, ""]) == [q]
  {
    var parts := [" " + q, ""];
    StrippedSpaced(parts, q);
    assert parts[1..] == [""];
    StrippedEmpty();
  }

  lemma SentencesOfOne(p: string)
    requires IsSentence(p)
    ensures Sentences(p + ".") == [p]
  {
    var parts := [p, ""];
    assert Split(p + ".", SentenceEnds) == parts by {
      SplitPiece(p, "");
      assert p + "." + "" == p + ".";
    }
    StrippedSentence(parts, p);
    assert parts[1..] == [""];
    StrippedEmpty();
  }

  lemma SentencesOfTwo(p: string, q: string)
    requires IsSentence(p) && IsSentence(q)
    ensures Sentences(p + ". " + q + ".") == [p, q]
  {
    var parts := [p, " " + q, ""];
    SplitTwo(p, q);
    StrippedSentence(parts, p);
    assert parts[1..] == [" " + q, ""];
    StrippedLast(q);
  }

  /** The last three pieces of a three-sentence summary. */
  lemma StrippedLastTwo(m: string, q: string)
    requires IsSentence(m) && IsSentence(q)
    ensures StrippedNonEmpty([" " + m, " " + q, ""]) == [m, q]
  {
    var rest := [" " + m, " " + q, ""];
    StrippedSpaced(rest, m);
    assert rest[1..] == [" " + q, ""];
    StrippedLast(q);
  }

  lemma SentencesOfThree(p: string, m: string, q: string)
    requires IsSentence(p) && IsSentence(m) && IsSentence(q)
    ensures Sentences(p + ". " + m + ". " + q + ".") == [p, m, q]
  {
    var parts := [p, " " + m, " " + q, ""];
    SplitThree(p, m, q);
    assert parts[1..] == [" " + m, " " + q, ""];
    StrippedLastTwo(m, q);
    StrippedSentence(parts, p);
  }

  /** A summary is stable: its own sentences are exactly the ones picked, so
      summarising it again with the same limit gives it back. */
  lemma SummarizeStable(text: string, maxSentences: int)
    requires Summarize(text, maxSentences).Success?
    ensures Summarize(Summarize(text, maxSentences).value, maxSentences) == Summarize(text, maxSentences)
  {
    var ss := Sentences(text);
    if text != [] && |ss| > maxSentences {
      if maxSentences >= 1 {
        SummaryWithinLimit(text, maxSentences);
      } else {
        SummaryNonPositiveLimit(text, maxSentences);
        ResummarizeThree(ss[0], ss[|ss| / 2], ss[|ss| - 1], maxSentences);
      }
    }
  }

  /** A three-sentence summary under a limit of zero or less picks its
      own three sentences again. */
  lemma ResummarizeThree(p: string, m: string, q: string, maxSentences: int)
    requires maxSentences <= 0 && Sentences(p + ". " + m + ". " + q + ".") == [p, m, q]
    ensures Summarize(p + ". " + m + ". " + q + ".", maxSentences) == Success(p + ". " + m + ". " + q + ".")
  {
  }

  /** With a positive limit a summary has at most that many sentences,
      each of them a sentence of the text, it has sentences iff the text
      has, and then it starts with the text's first sentence. */
  lemma SummaryWithinLimit(text: string, maxSentences: int)
    requires maxSentences >= 1
    ensures Summarize(text, maxSentences).Success?
    ensures var ss, rs := Sentences(text), Sentences(Summarize(text, maxSentences).value);
      && |rs| <= maxSentences
      && (forall k :: 0 <= k < |rs| ==> rs[k] in ss)
      && (rs == [] <==> ss == [])
      && (rs != [] ==> rs[0] == ss[0])
  {
    var ss := Sentences(text);
    if text == [] {
      SentencesOfEmpty();
    } else if |ss| > maxSentences {
      var rs := PickedSentences(text, maxSentences);
      assert forall k :: 0 <= k < |rs| ==> rs[k] in ss;
    }
  }

  /** The sentences of a summary that cuts the text: the first; the first
      and the last; or the first, the middle and the last. */
  lemma PickedSentences(text: string, maxSentences: int) returns (rs: seq<string>)
    requires text != [] && Sentences(text) != [] && |Sentences(text)| > maxSentences
    ensures var ss := Sentences(text);
      && rs == Sentences(Summarize(text, maxSentences).value)
      && rs == if maxSentences == 1 then [ss[0]]
               else if maxSentences == 2 then [ss[0], ss[|ss| - 1]]
               else [ss[0], ss[|ss| / 2], ss[|ss| - 1]]
  {
    var ss := Sentences(text);
    var p, q := ss[0], ss[|ss| - 1];
    if maxSentences == 1 {
      SentencesOfOne(p);
      rs := [p];
    } else if maxSentences == 2 {
      SentencesOfTwo(p, q);
      rs := [p, q];
    } else {
      SentencesOfThree(p, ss[|ss| / 2], q);
      rs := [p, ss[|ss| / 2], q];
    }
  }

  /** With a limit of zero or less, a text that has sentences is cut to
      three of them: the first, the middle and the last. */
  lemma SummaryNonPositiveLimit(text: string, maxSentences: int)
    requires maxSentences <= 0 && Sentences(text) != []
    ensures Summarize(text, maxSentences).Success?
    ensures var ss := Sentences(text);
      Sentences(Summarize(text, maxSentences).value) == [ss[0], ss[|ss| / 2], ss[|ss| - 1]]
  {
    SentencesOfEmpty();
    var rs := PickedSentences(text, maxSentences);
  }

  lemma SentencesOfEmpty()
    ensures Sentences([]) == []
  {
    SplitNoSeps([], SentenceEnds);
    StrippedEmpty();
  }

  // ---------------------------------------------------------------------
  // detect_meeting_request

  const MeetingKeywords: seq<string> := [
    "meeting", "call", "conference", "appointment", "schedule",
    "calendar", "zoom", "teams", "available", "free time",
    "discuss", "catch up", "sync", "standup"]

  /** `any(keyword in text for keyword in keywords)`, keyword by keyword. */
  function AnyKeyword(text: string, keywords: seq<string>): (r: bool)
    ensures r <==> exists k :: 0 <= k < |keywords| && Contains(text, keywords[k])
  {
    if keywords == [] then false
    else Contains(text, keywords[0]) || AnyKeyword(text, keywords[1..])
  }

  /** `detect_meeting_request`: some keyword occurs in the lower-cased
      content; empty content is never a request. */
  function DetectMeetingRequest(content: string): (r: bool)
    ensures r <==> exists k :: 0 <= k < |MeetingKeywords| && Contains(Lower(content), MeetingKeywords[k])
    ensures content == [] ==> !r
  {
    if content == [] then false
    else AnyKeyword(Lower(content), MeetingKeywords)
  }

  lemma ContainsWithin(a: string, s: string, b: string, sub: string)
    requires Contains(s, sub)
    ensures Contains(a + s + b, sub)
  {
    var i :| 0 <= i <= |s| && StartsWith(s[i..], sub);
    var t := a + s + b;
    assert t[|a| + i..][..|sub|] == s[i..][..|sub|];
    ContainsAt(t, sub, |a| + i);
  }

  /** A meeting request stays one whatever text is put around it. */
  lemma DetectMeetingWithin(a: string, s: string, b: string)
    requires DetectMeetingRequest(s)
    ensures DetectMeetingRequest(a + s + b)
  {
    var k :| 0 <= k < |MeetingKeywords| && Contains(Lower(s), MeetingKeywords[k]);
    LowerAppend(a, s);
    LowerAppend(a + s, b);
    ContainsWithin(Lower(a), Lower(s), Lower(b), MeetingKeywords[k]);
  }
}
