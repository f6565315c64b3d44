/** The single-e-mail classifier (agents/email_classifier.py). An e-mail
    older than the history threshold is History without asking the model;
    otherwise the model sees the e-mail, its content cut to 1000
    characters, and a one-line summary of up to five of the latest e-mails
    of its thread. Every error inside is caught and becomes FYI with
    confidence 0.3. */
module EmailClassifier {
  import opened Wrappers
  import opened Text
  import opened Sorting
  import opened EmailModels
  import DateUtils
  import opened TextProcessing
  import opened ThreadOrganizer
  import opened ClassificationParsing

  /** The fields `CLASSIFICATION_PROMPT_TEMPLATE.format` fills in. */
  datatype PromptFields = PromptFields(
    fromEmail: string,
    toEmails: string,
    subject: string,
    date: string,
    content: string,
    threadContext: string)

  /** What a classification depends on beyond the e-mail: the model's
      answer to a prompt (or the error it raises), the prompt template,
      `strftime('%Y-%m-%d %H:%M:%S')`, the current time on the UTC clock and
      `settings.HISTORY_DAYS_THRESHOLD`. */
  datatype World = World(
    model: string -> Result<string>,
    prompt: PromptFields -> string,
    formatDate: DateTime -> string,
    nowUtc: int,
    historyDays: int)

  /** The text says 5 days whatever the threshold is. */
  const HistoryReasoning: string :=
    "Email is older than 5 days threshold - automatically classified as History"

  const NoContext: string := "No thread context available"

  const ErrorConfidence: real := 0.3

  /** How many of the latest thread e-mails the context shows. */
  const ContextSize: nat := 5

  /** How much of the content the prompt shows. */
  const ContentLimit: nat := 1000

  function ErrorResponse(email: EmailMessage, message: string): (r: EmailClassificationResponse)
    ensures r.emailId == email.id && r.emailLabel == Fyi && r.confidence == ErrorConfidence
  {
    EmailClassificationResponse(email.id, Fyi, ErrorConfidence, "Classification error - defaulted to FYI: " + message)
  }

  /** A thread e-mail counts as the user's when it was sent by the first
      recipient of the e-mail being classified. */
  predicate FromUser(email: EmailMessage, msg: EmailMessage) {
    email.toEmails != [] && msg.fromEmail == email.toEmails[0]
  }

  /** The summary line of one thread e-mail. */
  function ContextLine(email: EmailMessage, msg: EmailMessage): (line: string)
    ensures StartsWith(line, "User: ") <==> FromUser(email, msg)
  {
    var sender := if FromUser(email, msg) then "User" else "Other";
    var line := sender + ": " + Take(msg.subject, 50) + "... - " + Summarize(msg.content, 1).value;
    assert !FromUser(email, msg) ==> line[..6] != "User: " by {
      if !FromUser(email, msg) {
        assert line[0] == 'O';
      }
    }
    line
  }

  /** `sorted_context[-5:]`. */
  function Latest(sorted: seq<EmailMessage>): (r: seq<EmailMessage>)
    ensures |r| == if |sorted| < ContextSize then |sorted| else ContextSize
    ensures r == sorted[|sorted| - |r|..]
  {
    if |sorted| <= ContextSize then sorted else sorted[|sorted| - ContextSize..]
  }

  /** The lines of the context, one per e-mail shown. */
  function ContextLines(email: EmailMessage, shown: seq<EmailMessage>): (lines: seq<string>)
    ensures |lines| == |shown|
    ensures forall i :: 0 <= i < |shown| ==> lines[i] == ContextLine(email, shown[i])
  {
    seq(|shown|, i requires 0 <= i < |shown| => ContextLine(email, shown[i]))
  }

  /** `_prepare_thread_context`: sorting dates that mix naive and aware
      raises. */
  function ThreadContextSummary(email: EmailMessage, context: Option<seq<EmailMessage>>): (r: Result<string>)
    ensures context.None? || context.value == [] ==> r == Success(NoContext)
    ensures r.Failure? <==> context.Some? && context.value != [] && !Comparable(context.value)
  {
    if context.None? || context.value == [] then Success(NoContext)
    else if !Comparable(context.value) then Failure(CompareError)
    else Success(Join(" | ", ContextLines(email, Latest(SortByDate(context.value)))))
  }

  /** The loop of `_prepare_thread_context`: one summary line per e-mail
      shown. */
  method ContextParts(email: EmailMessage, shown: seq<EmailMessage>) returns (parts: seq<string>)
    ensures parts == ContextLines(email, shown)
  {
    parts := [];
    var i := 0;
    while i < |shown|
      invariant 0 <= i <= |shown|
      invariant parts == ContextLines(email, shown[..i])
    {
      var msg := shown[i];
      var fromUser := if email.toEmails != [] then msg.fromEmail == email.toEmails[0] else false;
      var sender := if fromUser then "User" else "Other";
      var summary := sender + ": " + Take(msg.subject, 50) + "... - " + Summarize(msg.content, 1).value;
      assert summary == ContextLine(email, msg);
      assert shown[..i + 1] == shown[..i] + [msg];
      parts := parts + [summary];
      i := i + 1;
    }
    assert shown[..i] == shown;
  }

  /** `_prepare_thread_context`. */
  method PrepareThreadContext(email: EmailMessage, context: Option<seq<EmailMessage>>) returns (r: Result<string>)
    ensures r == ThreadContextSummary(email, context)
  {
    if context.None? || context.value == [] {
      return Success(NoContext);
    }
    if !Comparable(context.value) {
      return Failure(CompareError);
    }
    var parts := ContextParts(email, Latest(SortByDate(context.value)));
    r := Success(Join(" | ", parts));
  }

  /** The context shows the latest e-mails of the thread, at most five, in
      date order. */
  lemma ContextShowsLatest(context: seq<EmailMessage>)
    requires context != []
    ensures var sorted := SortByDate(context);
            var shown := Latest(sorted);
            && 1 <= |shown| <= ContextSize
            && multiset(shown) <= multiset(context)
            && (|context| <= ContextSize ==> multiset(shown) == multiset(context))
            && Sorted(shown, DateLe)
            && (forall i, e :: 0 <= i < |shown| && e in sorted[..|sorted| - |shown|] ==> Instant(e.date) <= Instant(shown[i].date))
  {
    SortByDateSortedStable(context, context[0]);
    LatestOfSorted(SortByDate(context));
  }

  /** The tail of a sorted list is sorted, and nothing before it is later. */
  lemma LatestOfSorted(sorted: seq<EmailMessage>)
    requires Sorted(sorted, DateLe)
    ensures var shown := Latest(sorted);
            && multiset(shown) <= multiset(sorted)
            && Sorted(shown, DateLe)
            && (forall i, e :: 0 <= i < |shown| && e in sorted[..|sorted| - |shown|] ==> Instant(e.date) <= Instant(shown[i].date))
  {
    var shown := Latest(sorted);
    var cut := |sorted| - |shown|;
    assert shown == sorted[cut..];
    SortedSuffix(sorted, cut);
    forall i, e | 0 <= i < |shown| && e in sorted[..cut]
      ensures Instant(e.date) <= Instant(shown[i].date)
    {
      assert shown[i] == sorted[cut..][i];
    }
  }

  lemma SortedSuffix(sorted: seq<EmailMessage>, cut: nat)
    requires Sorted(sorted, DateLe) && cut <= |sorted|
    ensures multiset(sorted[cut..]) <= multiset(sorted)
    ensures Sorted(sorted[cut..], DateLe)
    ensures forall i, e :: 0 <= i < |sorted| - cut && e in sorted[..cut] ==> Instant(e.date) <= Instant(sorted[cut..][i].date)
  {
    assert sorted == sorted[..cut] + sorted[cut..];
    assert multiset(sorted) == multiset(sorted[..cut]) + multiset(sorted[cut..]);
    SortedLater(sorted, cut);
  }

  lemma SortedLater(sorted: seq<EmailMessage>, cut: nat)
    requires Sorted(sorted, DateLe) && cut <= |sorted|
    ensures forall i, e :: 0 <= i < |sorted| - cut && e in sorted[..cut] ==> Instant(e.date) <= Instant(sorted[cut..][i].date)
  {
    forall i, e | 0 <= i < |sorted| - cut && e in sorted[..cut]
      ensures Instant(e.date) <= Instant(sorted[cut..][i].date)
    {
      var j :| 0 <= j < cut && sorted[..cut][j] == e;
      assert DateLe(sorted[j], sorted[cut + i]);
    }
  }

  /** `classify_email`. */
  function Classification(email: EmailMessage, context: Option<seq<EmailMessage>>, w: World): (r: EmailClassificationResponse)
    ensures r.emailId == email.id
    ensures 0.0 <= r.confidence <= 1.0
  {
    if DateUtils.IsOlderThanDays(email.date, w.historyDays, w.nowUtc) then
      EmailClassificationResponse(email.id, History, 1.0, HistoryReasoning)
    else
      match ThreadContextSummary(email, context)
      case Failure(message) => ErrorResponse(email, message)
      case Success(summary) =>
        var fields := PromptFields(email.fromEmail, Join(", ", email.toEmails), email.subject,
                                   w.formatDate(email.date), Truncate(email.content, ContentLimit), summary);
        match w.model(w.prompt(fields))
        case Failure(message) => ErrorResponse(email, message)
        case Success(answer) =>
          var p := ParseResponse(answer, EmailStyle);
          EmailClassificationResponse(email.id, p.emailLabel, p.confidence, p.reasoning)
  }

  /** `classify_email` as the method it is. */
  method ClassifyEmail(email: EmailMessage, context: Option<seq<EmailMessage>>, w: World) returns (r: EmailClassificationResponse)
    ensures r == Classification(email, context, w)
  {
    if DateUtils.IsOlderThanDays(email.date, w.historyDays, w.nowUtc) {
      return EmailClassificationResponse(email.id, History, 1.0, HistoryReasoning);
    }
    var summary := PrepareThreadContext(email, context);
    if summary.Failure? {
      return ErrorResponse(email, summary.error);
    }
    var content := Truncate(email.content, ContentLimit);
    var fields := PromptFields(email.fromEmail, Join(", ", email.toEmails), email.subject,
                               w.formatDate(email.date), content, summary.value);
    var answer := w.model(w.prompt(fields));
    if answer.Failure? {
      return ErrorResponse(email, answer.error);
    }
    var p := ParseResponse(answer.value, EmailStyle);
    r := EmailClassificationResponse(email.id, p.emailLabel, p.confidence, p.reasoning);
  }

  /** The answers of `classify_multiple_emails`: every e-mail classified
      on its own, without thread context, in order. */
  function ClassifiedAlone(emails: seq<EmailMessage>, w: World): (rs: seq<EmailClassificationResponse>)
    ensures |rs| == |emails|
    ensures forall i :: 0 <= i < |emails| ==> rs[i] == Classification(emails[i], None, w)
  {
    if emails == [] then []
    else ClassifiedAlone(emails[..|emails| - 1], w) + [Classification(emails[|emails| - 1], None, w)]
  }

  /** `classify_multiple_emails`. */
  method ClassifyMultipleEmails(emails: seq<EmailMessage>, w: World) returns (rs: seq<EmailClassificationResponse>)
    ensures rs == ClassifiedAlone(emails, w)
  {
    rs := [];
    var i := 0;
    while i < |emails|
      invariant 0 <= i <= |emails|
      invariant rs == ClassifiedAlone(emails[..i], w)
    {
      var r := ClassifyEmail(emails[i], None, w);
      assert emails[..i + 1][..i] == emails[..i];
      rs := rs + [r];
      i := i + 1;
    }
    assert emails[..i] == emails;
  }

  /** An old e-mail is History whatever the model and the thread say. */
  lemma OldEmailIsHistory(email: EmailMessage, context: Option<seq<EmailMessage>>, w: World,
                          otherContext: Option<seq<EmailMessage>>, otherModel: string -> Result<string>)
    requires DateUtils.IsOlderThanDays(email.date, w.historyDays, w.nowUtc)
    ensures var r := Classification(email, context, w);
            && r == EmailClassificationResponse(email.id, History, 1.0, HistoryReasoning)
            && r == Classification(email, otherContext, w.(model := otherModel))
  {
  }

  /** A recent e-mail without thread context is sent to the model with its
      content cut to 1000 characters plus three dots and with the words
      "No thread context available"; a model error becomes the error
      answer, and an answer is parsed with the single-e-mail style. This is
      the only path `classify_multiple_emails` takes. */
  lemma {:induction false} RecentEmailAsksModel(email: EmailMessage, w: World)
    requires !DateUtils.IsOlderThanDays(email.date, w.historyDays, w.nowUtc)
    ensures var fields := PromptFields(email.fromEmail, Join(", ", email.toEmails), email.subject,
                                       w.formatDate(email.date), Truncate(email.content, ContentLimit), NoContext);
            var answer := w.model(w.prompt(fields));
            var r := Classification(email, None, w);
            && |fields.content| <= ContentLimit + 3
            && StartsWith(email.content, fields.content[..if |email.content| < ContentLimit then |email.content| else ContentLimit])
            && (answer.Failure? ==> r == ErrorResponse(email, answer.error))
            && (answer.Success? ==>
                  var p := ParseResponse(answer.value, EmailStyle);
                  r == EmailClassificationResponse(email.id, p.emailLabel, p.confidence, p.reasoning))
  {
    var c := Truncate(email.content, ContentLimit);
    if |email.content| > ContentLimit {
      assert c[..ContentLimit] == email.content[..ContentLimit];
    }
  }
}
