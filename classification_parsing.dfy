/** How both classifiers read the language model's answer
    (`_parse_classification_response` in agents/thread_email_classifier.py
    and agents/email_classifier.py). The answer is searched, ignoring case,
    for three regular expressions: `Classification:\s*(.+)`,
    `Confidence:\s*([0-9.]+)` and `Reasoning:\s*(.+)`, the last with DOTALL
    in the thread classifier only. The one thing that can raise is
    `float()` on the confidence; it sends the answer to a keyword scan. */
module ClassificationParsing {
  import opened Wrappers
  import opened Text
  import opened EmailModels

  /** Whether the lower-case literal `key` occurs at position p of s,
      ignoring case. */
  predicate KeyAt(s: string, p: nat, key: string) {
    p + |key| <= |s| && Lower(s[p..p + |key|]) == key
  }

  /** What follows the literal: `\s*(.+)` without DOTALL, `\s*(.+)` with
      DOTALL, and `\s*([0-9.]+)`. */
  datatype Tail = RestOfLine | RestOfText | Number

  predicate IsNumberChar(c: char) {
    '0' <= c <= '9' || c == '.'
  }

  predicate IsDigitChar(c: char) {
    '0' <= c <= '9'
  }

  /** The end of the run of digits and dots that starts at k. */
  function NumberEnd(s: string, k: nat): (e: nat)
    requires k <= |s|
    ensures k <= e <= |s|
    ensures e == |s| || !IsNumberChar(s[e])
    ensures forall m :: k <= m < e ==> IsNumberChar(s[m])
    decreases |s| - k
  {
    if k == |s| || !IsNumberChar(s[k]) then k else NumberEnd(s, k + 1)
  }

  /** The last position of s[j..e] that is not a newline. */
  function LastNonNewline(s: string, j: nat, e: nat): (r: Option<nat>)
    requires j <= e <= |s|
    ensures r.Some? ==> j <= r.value < e && s[r.value] != '\n'
    ensures r.Some? ==> forall m :: r.value < m < e ==> s[m] == '\n'
    ensures r.None? ==> forall m :: j <= m < e ==> s[m] == '\n'
    decreases e
  {
    if e == j then None
    else if s[e - 1] != '\n' then Some(e - 1)
    else LastNonNewline(s, j, e - 1)
  }

  /** The group the tail captures when the literal ends at j, or None when
      the tail cannot match there. `\s*` first takes all the white space;
      when nothing is left for `(.+)`, the matcher gives white space back
      one character at a time, so the group is the last character of the
      run that `.` accepts. `[0-9.]` never accepts white space, so the number
      tail has nothing to gain by giving any back. */
  function MatchTail(tail: Tail, s: string, j: nat): (r: Option<string>)
    requires j <= |s|
    ensures r.Some? ==> r.value != []
    ensures tail == Number && r.Some? ==> forall i :: 0 <= i < |r.value| ==> IsNumberChar(r.value[i])
    ensures tail == RestOfLine && r.Some? ==> forall i :: 0 <= i < |r.value| ==> r.value[i] != '\n'
  {
    var k := SkipSpace(s, j);
    match tail
    case RestOfLine =>
      if k < |s| then Some(s[k..CharIndex(s, '\n', k)])
      else
        (match LastNonNewline(s, j, |s|)
         case None => None
         case Some(m) => Some([s[m]]))
    case RestOfText =>
      if k < |s| then Some(s[k..])
      else if j < |s| then Some([s[|s| - 1]])
      else None
    case Number =>
      if k < |s| && IsNumberChar(s[k]) then Some(s[k..NumberEnd(s, k)]) else None
  }

  /** The whole pattern matches at position p. */
  predicate MatchesAt(s: string, key: string, tail: Tail, p: nat) {
    KeyAt(s, p, key) && MatchTail(tail, s, p + |key|).Some?
  }

  /** The scan of `re.search` from position i on: the first position where
      the pattern matches. */
  function FirstMatch(s: string, key: string, tail: Tail, i: nat): (r: Option<nat>)
    requires i <= |s|
    ensures r.Some? ==> i <= r.value <= |s| && MatchesAt(s, key, tail, r.value)
    ensures r.Some? ==> forall q :: i <= q < r.value ==> !MatchesAt(s, key, tail, q)
    ensures r.None? ==> forall q :: i <= q <= |s| ==> !MatchesAt(s, key, tail, q)
    decreases |s| - i
  {
    if MatchesAt(s, key, tail, i) then Some(i)
    else if i == |s| then None
    else FirstMatch(s, key, tail, i + 1)
  }

  /** `re.search(...).group(1)`, or None when the search finds nothing. */
  function Group(s: string, key: string, tail: Tail): (r: Option<string>)
    ensures r.Some? <==> exists p :: 0 <= p <= |s| && MatchesAt(s, key, tail, p)
    ensures tail == Number && r.Some? ==> forall i :: 0 <= i < |r.value| ==> IsNumberChar(r.value[i])
    ensures tail == RestOfLine && r.Some? ==> forall i :: 0 <= i < |r.value| ==> r.value[i] != '\n'
  {
    match FirstMatch(s, key, tail, 0)
    case None => None
    case Some(p) => MatchTail(tail, s, p + |key|)
  }

  /** `"awaiting reply" in t` implies `"awaiting" in t`. */
  lemma ContainsPrefix(t: string, a: string, b: string)
    requires Contains(t, a + b)
    ensures Contains(t, a)
  {
    var i :| 0 <= i <= |t| && StartsWith(t[i..], a + b);
    assert t[i..][..|a|] == (a + b)[..|a|] == a;
  }

  lemma AwaitingReplyIsAwaiting(t: string)
    ensures Contains(t, "awaiting reply") ==> Contains(t, "awaiting")
  {
    if Contains(t, "awaiting reply") {
      ContainsPrefix(t, "awaiting", " reply");
    }
  }

  /** The label named by the stripped, lower-cased classification text: the
      first of the keyword tests that succeeds, and FYI when none does. */
  function LabelFromText(t: string): (l: EmailLabel)
    ensures var todo := Contains(t, "to do") || Contains(t, "todo");
            var awaiting := Contains(t, "awaiting");
            var fyi := Contains(t, "fyi");
            var done := Contains(t, "done");
            var spam := Contains(t, "spam");
            var history := Contains(t, "history");
            && (l == ToDo <==> todo)
            && (l == AwaitingReply <==> !todo && awaiting)
            && (l == Fyi <==> !todo && !awaiting && (fyi || (!done && !spam && !history)))
            && (l == Done <==> !todo && !awaiting && !fyi && done)
            && (l == Spam <==> !todo && !awaiting && !fyi && !done && spam)
            && (l == History <==> !todo && !awaiting && !fyi && !done && !spam && history)
  {
    AwaitingReplyIsAwaiting(t);
    if Contains(t, "to do") || Contains(t, "todo") then ToDo
    else if Contains(t, "awaiting reply") || Contains(t, "awaiting") then AwaitingReply
    else if Contains(t, "fyi") then Fyi
    else if Contains(t, "done") then Done
    else if Contains(t, "spam") then Spam
    else if Contains(t, "history") then History
    else Fyi
  }

  /** The keyword scan of the whole lower-cased answer after an error: spam
      is tested before done, and "fyi" is never looked for. */
  function FallbackLabel(t: string): (l: EmailLabel)
    ensures var todo := Contains(t, "to do") || Contains(t, "todo");
            var awaiting := Contains(t, "awaiting");
            var spam := Contains(t, "spam");
            var done := Contains(t, "done");
            var history := Contains(t, "history");
            && (l == ToDo <==> todo)
            && (l == AwaitingReply <==> !todo && awaiting)
            && (l == Spam <==> !todo && !awaiting && spam)
            && (l == Done <==> !todo && !awaiting && !spam && done)
            && (l == History <==> !todo && !awaiting && !spam && !done && history)
            && (l == Fyi <==> !todo && !awaiting && !spam && !done && !history)
  {
    if Contains(t, "to do") || Contains(t, "todo") then ToDo
    else if Contains(t, "awaiting") then AwaitingReply
    else if Contains(t, "spam") then Spam
    else if Contains(t, "done") then Done
    else if Contains(t, "history") then History
    else Fyi
  }

  /** The value of a string of decimal digits. */
  function DigitsValue(d: string): nat
    requires forall i :: 0 <= i < |d| ==> IsDigitChar(d[i])
  {
    if d == [] then 0
    else
      var c := d[|d| - 1];
      assert IsDigitChar(c);
      DigitsValue(d[..|d| - 1]) * 10 + (c as int - '0' as int)
  }

  function Pow10(n: nat): (r: nat)
    ensures r >= 1
  {
    if n == 0 then 1 else 10 * Pow10(n - 1)
  }

  /** At most one dot. */
  predicate OneDotAtMost(s: string) {
    forall i, j :: 0 <= i < j < |s| && s[i] == '.' ==> s[j] != '.'
  }

  /** `float(tok)` for a token of digits and dots. It succeeds exactly when
      the token has at most one dot and at least one digit; the value is
      exact (the nearest double is not modelled). */
  function ParseDecimal(tok: string): (r: Option<real>)
    requires forall i :: 0 <= i < |tok| ==> IsNumberChar(tok[i])
    ensures r.Some? <==> OneDotAtMost(tok) && exists i :: 0 <= i < |tok| && tok[i] != '.'
    ensures r.Some? ==> r.value >= 0.0
  {
    var d := CharIndex(tok, '.', 0);
    var whole := tok[..d];
    var frac := if d < |tok| then tok[d + 1..] else [];
    assert forall i :: 0 <= i < |frac| ==> frac[i] == tok[d + 1 + i];
    if (exists i :: 0 <= i < |frac| && frac[i] == '.') || |whole| + |frac| == 0 then
      assert |whole| + |frac| != 0 ==> !OneDotAtMost(tok);
      None
    else
      assert |whole| > 0 ==> tok[0] != '.';
      assert |whole| == 0 ==> tok[d + 1] != '.';
      assert forall i :: 0 <= i < |whole| ==> whole[i] == tok[i] && IsNumberChar(tok[i]) && tok[i] != '.';
      assert forall i :: 0 <= i < |frac| ==> IsNumberChar(tok[d + 1 + i]) && frac[i] != '.';
      Some(DigitsValue(whole) as real + DigitsValue(frac) as real / Pow10(|frac|) as real)
  }

  /** Reading back the digits of a natural number gives the number. */
  lemma {:induction false} DigitsOfNat(n: nat)
    ensures forall i :: 0 <= i < |NatToString(n)| ==> IsDigitChar(NatToString(n)[i])
    ensures DigitsValue(NatToString(n)) == n
  {
    var s := NatToString(n);
    if n < 10 {
      assert s[..0] == [];
    } else {
      var p := NatToString(n / 10);
      DigitsOfNat(n / 10);
      assert s[..|s| - 1] == p;
      assert DigitsValue(s) == DigitsValue(p) * 10 + n % 10;
    }
  }

  /** `float(str(n)) == n`. */
  lemma ParseNatRoundTrip(n: nat)
    ensures ParseDecimal(NatToString(n)) == Some(n as real)
  {
    var s := NatToString(n);
    DigitsOfNat(n);
    assert CharIndex(s, '.', 0) == |s|;
    assert s[..|s|] == s;
  }

  /** `max(0.0, min(1.0, v))`. */
  function Clamp(v: real): (c: real)
    ensures 0.0 <= c <= 1.0
    ensures 0.0 <= v <= 1.0 ==> c == v
    ensures v > 1.0 ==> c == 1.0
    ensures v < 0.0 ==> c == 0.0
  {
    var m := if 1.0 < v then 1.0 else v;
    if m < 0.0 then 0.0 else m
  }

  /** `s[:n] + "..." if len(s) > n else s`. */
  function Truncate(s: string, n: nat): (r: string)
    ensures |r| <= n + 3
    ensures |s| <= n ==> r == s
    ensures |s| > n ==> |r| == n + 3 && r[..n] == s[..n] && r[n..] == "..."
  {
    if |s| > n then s[..n] + "..." else s
  }

  /** What differs between the two parsers: whether the reasoning may span
      lines and has its white space collapsed, how long it may get, and the
      words in front of the error after a fallback. */
  datatype Style = Style(reasoningTail: Tail, collapse: bool, limit: nat, fallbackPrefix: string)

  const ThreadStyle: Style := Style(RestOfText, true, 400, "Fallback parsing: ")
  const EmailStyle: Style := Style(RestOfLine, false, 200, "Fallback parsing due to error: ")

  /** The triple the parser returns. */
  datatype Parsed = Parsed(emailLabel: EmailLabel, confidence: real, reasoning: string)

  const DefaultConfidence: real := 0.5
  const DefaultReasoning: string := "Unable to parse classification response"

  /** `str(e)` of the `ValueError` raised by `float(tok)`. */
  function FloatError(tok: string): string {
    "could not convert string to float: '" + tok + "'"
  }

  /** The reasoning group after stripping and, in the thread parser,
      `re.sub(r'\s+', ' ', ...)`. */
  function Tidy(x: string, collapse: bool): string {
    if collapse then CollapseSpace(Strip(x)) else Strip(x)
  }

  /** The confidence group, when the answer has one. */
  function ConfidenceToken(response: string): (r: Option<string>)
    ensures r.Some? ==> forall i :: 0 <= i < |r.value| ==> IsNumberChar(r.value[i])
  {
    Group(response, "confidence:", Number)
  }

  /** The answer names a confidence that `float` refuses. */
  predicate Malformed(response: string) {
    var tok := ConfidenceToken(response);
    tok.Some? && ParseDecimal(tok.value).None?
  }

  /** `_parse_classification_response`. */
  function ParseResponse(response: string, style: Style): (p: Parsed)
    ensures 0.0 <= p.confidence <= 1.0
  {
    var cls := Group(response, "classification:", RestOfLine);
    var tok := ConfidenceToken(response);
    var rsn := Group(response, "reasoning:", style.reasoningTail);
    if tok.Some? && ParseDecimal(tok.value).None? then
      Parsed(FallbackLabel(Lower(response)), DefaultConfidence, style.fallbackPrefix + FloatError(tok.value))
    else
      Parsed(
        if cls.Some? then LabelFromText(Lower(Strip(cls.value))) else Fyi,
        if tok.Some? then Clamp(ParseDecimal(tok.value).value) else DefaultConfidence,
        if rsn.Some? then Truncate(Tidy(rsn.value, style.collapse), style.limit) else DefaultReasoning)
  }

  /** A confidence token with two dots, or with no digit, sends the whole
      answer to the keyword scan: the label, the confidence and the
      reasoning found by the patterns are all discarded. */
  lemma MalformedFallsBack(response: string, style: Style)
    requires Malformed(response)
    ensures var p := ParseResponse(response, style);
            var tok := ConfidenceToken(response).value;
            && (!OneDotAtMost(tok) || forall i :: 0 <= i < |tok| ==> tok[i] == '.')
            && p.emailLabel == FallbackLabel(Lower(response))
            && p.confidence == DefaultConfidence
            && p.reasoning == style.fallbackPrefix + FloatError(tok)
  {
  }

  /** Otherwise the three patterns decide: the label from the first
      classification line (FYI when there is none or it names nothing), the
      clamped confidence (0.5 when there is none) and the reasoning cut to
      the style's limit plus three dots. */
  lemma {:induction false} WellFormedParses(response: string, style: Style)
    requires !Malformed(response)
    ensures var p := ParseResponse(response, style);
            var cls := Group(response, "classification:", RestOfLine);
            var tok := ConfidenceToken(response);
            var rsn := Group(response, "reasoning:", style.reasoningTail);
            && (cls.None? ==> p.emailLabel == Fyi)
            && (cls.Some? ==> p.emailLabel == LabelFromText(Lower(Strip(cls.value))))
            && (tok.None? ==> p.confidence == DefaultConfidence)
            && (tok.Some? ==> exists v :: ParseDecimal(tok.value) == Some(v) && p.confidence == Clamp(v))
            && (rsn.None? ==> p.reasoning == DefaultReasoning)
            && (rsn.Some? ==> |p.reasoning| <= style.limit + 3)
  {
  }

  /** Cutting a single-spaced text and appending dots keeps it single-spaced. */
  lemma TruncateKeepsSpacing(c: string, n: nat)
    requires forall i :: 0 <= i < |c| && IsSpace(c[i]) ==> c[i] == ' '
    requires forall i :: 0 <= i < |c| - 1 ==> !(c[i] == ' ' && c[i + 1] == ' ')
    ensures var r := Truncate(c, n);
            && (forall i :: 0 <= i < |r| && IsSpace(r[i]) ==> r[i] == ' ')
            && (forall i :: 0 <= i < |r| - 1 ==> !(r[i] == ' ' && r[i + 1] == ' '))
  {
    var r := Truncate(c, n);
    if |c| > n {
      assert forall i :: 0 <= i < n ==> r[i] == c[i];
      assert forall i :: n <= i < |r| ==> r[i] == '.';
    }
  }

  /** In the thread parser a found reasoning is one line with single
      spaces: the collapse runs before the cut, and the cut only appends
      dots. */
  lemma ThreadReasoningShape(response: string)
    requires !Malformed(response)
    requires Group(response, "reasoning:", RestOfText).Some?
    ensures var r := ParseResponse(response, ThreadStyle).reasoning;
            && |r| <= 403
            && (forall i :: 0 <= i < |r| && IsSpace(r[i]) ==> r[i] == ' ')
            && (forall i :: 0 <= i < |r| - 1 ==> !(r[i] == ' ' && r[i + 1] == ' '))
  {
    var c := Tidy(Group(response, "reasoning:", RestOfText).value, true);
    TruncateKeepsSpacing(c, 400);
    assert ParseResponse(response, ThreadStyle).reasoning == Truncate(c, 400);
  }

  /** In the single-e-mail parser the reasoning stays on the line where it
      starts. */
  lemma EmailReasoningOneLine(response: string)
    requires !Malformed(response)
    requires Group(response, "reasoning:", RestOfLine).Some?
    ensures var r := ParseResponse(response, EmailStyle).reasoning;
            |r| <= 203 && forall i :: 0 <= i < |r| ==> r[i] != '\n'
  {
    var g := Group(response, "reasoning:", RestOfLine).value;
    var s := Strip(g);
    assert forall i :: 0 <= i < |s| ==> s[i] != '\n' by {
      StripAvoids(g, {'\n'});
    }
    TruncateKeepsLine(s, 200);
    assert ParseResponse(response, EmailStyle).reasoning == Truncate(s, 200);
  }

  /** Cutting a line and appending dots keeps it one line. */
  lemma TruncateKeepsLine(s: string, n: nat)
    requires forall i :: 0 <= i < |s| ==> s[i] != '\n'
    ensures var r := Truncate(s, n); forall i :: 0 <= i < |r| ==> r[i] != '\n'
  {
    var r := Truncate(s, n);
    if |s| > n {
      assert forall i :: 0 <= i < n ==> r[i] == s[i];
      assert forall i :: n <= i < |r| ==> r[i] == '.';
    }
  }
}
