/** The thread classifier (agents/thread_email_classifier.py): a whole
    thread gets one label. A thread whose latest e-mail is older than the
    history threshold is History without asking the model; otherwise the
    e-mails are laid out in date order for the model and its answer is
    parsed. Every error inside is caught and becomes FYI with confidence
    0.3. The model, the prompt template, the date format and the clock are
    parameters. */
module ThreadEmailClassifier {
  import opened Wrappers
  import opened Text
  import opened Sorting
  import opened EmailModels
  import DateUtils
  import opened TextProcessing
  import opened ThreadOrganizer
  import opened ClassificationParsing

  /** What a classification depends on beyond the e-mails: the model's
      answer to a prompt (or the error it raises), the prompt template
      filled with the context, the e-mail count and the thread id,
      `strftime('%Y-%m-%d %H:%M')`, the current time on the UTC clock and
      `settings.HISTORY_DAYS_THRESHOLD`. */
  datatype World = World(
    model: string -> Result<string>,
    prompt: (string, nat, string) -> string,
    formatDate: DateTime -> string,
    nowUtc: int,
    historyDays: int)

  const EmptyThreadResponse: ThreadClassificationResponse :=
    ThreadClassificationResponse("unknown", Fyi, 0.0, "No emails in thread", 0)

  /** The text says 5 days whatever the threshold is. */
  const HistoryReasoning: string :=
    "Entire thread is older than 5 days - automatically classified as History"

  const ErrorConfidence: real := 0.3

  /** The answer of the `except` clause: the id of the first e-mail as
      given, before sorting. */
  function ErrorResponse(emails: seq<EmailMessage>, message: string): (r: ThreadClassificationResponse)
    requires emails != []
    ensures r.emailLabel == Fyi && r.confidence == ErrorConfidence && r.emailCount == |emails|
  {
    ThreadClassificationResponse(emails[0].threadId, Fyi, ErrorConfidence, "Classification error: " + message, |emails|)
  }

  /** The content shown for one e-mail: cleaned, then cut to two sentences
      when still longer than 300 characters. */
  function ShownContent(content: string): string {
    var c := CleanContent(content);
    if |c| > 300 then Summarize(c, 2).value else c
  }

  /** The first e-mail started the thread; a later one was written by the
      same sender as the one before it, or by someone else. */
  function SenderTag(es: seq<EmailMessage>, i: nat): (tag: string)
    requires i < |es|
    ensures i == 0 ==> tag == "INITIATOR"
    ensures i > 0 ==> (tag == "SAME_SENDER" <==> es[i].fromEmail == es[i - 1].fromEmail)
    ensures i > 0 ==> (tag == "RESPONDER" <==> es[i].fromEmail != es[i - 1].fromEmail)
  {
    if i == 0 then "INITIATOR"
    else if es[i].fromEmail == es[i - 1].fromEmail then "SAME_SENDER"
    else "RESPONDER"
  }

  /** The block that shows an e-mail, given its position, its sender tag
      and the content to show. */
  function BlockText(i: nat, sender: string, e: EmailMessage, formatDate: DateTime -> string, content: string): string {
    "\nEMAIL " + NatToString(i + 1) + " (" + sender + "):\nFrom: " + e.fromEmail
    + "\nTo: " + Join(", ", e.toEmails) + "\nSubject: " + e.subject
    + "\nDate: " + formatDate(e.date) + "\nContent: " + content + "\n"
  }

  /** The block that shows the e-mail at position i. */
  function EmailBlock(es: seq<EmailMessage>, i: nat, formatDate: DateTime -> string): string
    requires i < |es|
  {
    BlockText(i, SenderTag(es, i), es[i], formatDate, ShownContent(es[i].content))
  }

  /** The line that follows the block of the e-mail at position i > 0. */
  function Relation(i: nat): string {
    "\n--- EMAIL " + NatToString(i + 1) + " builds upon EMAIL(S) 1-" + NatToString(i) + " ---\n"
  }

  /** The blocks of all the e-mails, in order. */
  function Blocks(es: seq<EmailMessage>, formatDate: DateTime -> string): (bs: seq<string>)
    ensures |bs| == |es|
    ensures forall k :: 0 <= k < |es| ==> bs[k] == EmailBlock(es, k, formatDate)
  {
    seq(|es|, k requires 0 <= k < |es| => EmailBlock(es, k, formatDate))
  }

  /** The parts `_build_thread_context` collects from the blocks: each
      block after the first is followed by the line relating it to the ones
      before. */
  function Interleave(bs: seq<string>): (r: seq<string>)
    ensures |r| == if bs == [] then 0 else 2 * |bs| - 1
  {
    if bs == [] then []
    else
      var i := |bs| - 1;
      Interleave(bs[..i]) + [bs[i]] + (if i > 0 then [Relation(i)] else [])
  }

  /** Position of block k among the parts. */
  function BlockIndex(k: nat): nat {
    if k == 0 then 0 else 2 * k - 1
  }

  /** The parts alternate: block k sits at `BlockIndex(k)` and the line
      relating block k to the ones before sits right after it. */
  lemma {:induction false} InterleaveLayout(bs: seq<string>)
    ensures forall k :: 0 <= k < |bs| ==> Interleave(bs)[BlockIndex(k)] == bs[k]
    ensures forall k :: 0 < k < |bs| ==> Interleave(bs)[2 * k] == Relation(k)
  {
    if bs != [] {
      var i := |bs| - 1;
      var p := bs[..i];
      var init := Interleave(p);
      InterleaveLayout(p);
      var tail := [bs[i]] + (if i > 0 then [Relation(i)] else []);
      var r := Interleave(bs);
      assert r == init + tail;
      forall k | 0 <= k < |bs|
        ensures r[BlockIndex(k)] == bs[k]
      {
        if k < i {
          assert r[BlockIndex(k)] == init[BlockIndex(k)] == p[k];
        } else {
          assert r[BlockIndex(k)] == tail[0];
        }
      }
      forall k | 0 < k < |bs|
        ensures r[2 * k] == Relation(k)
      {
        if k < i {
          assert r[2 * k] == init[2 * k] == Relation(k);
        } else {
          assert k == i && i > 0;
          assert tail == [bs[i], Relation(i)];
          assert r[2 * k] == tail[1];
        }
      }
    }
  }

  lemma InterleaveStep(bs: seq<string>, i: nat)
    requires i < |bs|
    ensures Interleave(bs[..i + 1]) == Interleave(bs[..i]) + [bs[i]] + (if i > 0 then [Relation(i)] else [])
  {
    assert bs[..i + 1][..i] == bs[..i];
  }

  /** `_build_thread_context`. */
  method BuildThreadContext(sorted: seq<EmailMessage>, formatDate: DateTime -> string) returns (context: string)
    ensures context == Join("\n", Interleave(Blocks(sorted, formatDate)))
  {
    ghost var blocks := Blocks(sorted, formatDate);
    var parts: seq<string> := [];
    var i := 0;
    while i < |sorted|
      invariant 0 <= i <= |sorted|
      invariant parts == Interleave(blocks[..i])
    {
      var email := sorted[i];
      var cleaned := CleanEmailContent(email.content);
      if |cleaned| > 300 {
        cleaned := Summarize(cleaned, 2).value;
      }
      var sender: string;
      if i == 0 {
        sender := "INITIATOR";
      } else if email.fromEmail == sorted[i - 1].fromEmail {
        sender := "SAME_SENDER";
      } else {
        sender := "RESPONDER";
      }
      assert cleaned == ShownContent(email.content);
      assert sender == SenderTag(sorted, i);
      var block := BlockText(i, sender, email, formatDate, cleaned);
      assert block == blocks[i];
      InterleaveStep(blocks, i);
      parts := parts + [block];
      if i > 0 {
        parts := parts + [Relation(i)];
      }
      i := i + 1;
    }
    assert blocks[..i] == blocks;
    context := Join("\n", parts);
  }

  /** Every e-mail of the thread is older than the threshold. */
  predicate AllOld(emails: seq<EmailMessage>, w: World) {
    forall e :: e in emails ==> DateUtils.IsOlderThanDays(e.date, w.historyDays, w.nowUtc)
  }

  /** `classify_thread`. */
  function Classification(emails: seq<EmailMessage>, w: World): (r: ThreadClassificationResponse)
    ensures r.emailCount == |emails|
    ensures 0.0 <= r.confidence <= 1.0
    ensures emails == [] ==> r.threadId == "unknown" && r.emailLabel == Fyi && r.confidence == 0.0
    ensures emails != [] && !Comparable(emails) ==> r.emailLabel == Fyi && r.confidence == ErrorConfidence
  {
    if emails == [] then EmptyThreadResponse
    else if !Comparable(emails) then ErrorResponse(emails, CompareError)
    else
      var sorted := SortByDate(emails);
      var n := |sorted|;
      if DateUtils.IsOlderThanDays(sorted[n - 1].date, w.historyDays, w.nowUtc) then
        ThreadClassificationResponse(sorted[0].threadId, History, 1.0, HistoryReasoning, n)
      else
        var context := Join("\n", Interleave(Blocks(sorted, w.formatDate)));
        match w.model(w.prompt(context, n, sorted[0].threadId))
        case Failure(message) => ErrorResponse(emails, message)
        case Success(answer) =>
          var p := ParseResponse(answer, ThreadStyle);
          ThreadClassificationResponse(sorted[0].threadId, p.emailLabel, p.confidence, p.reasoning, n)
  }

  /** `classify_thread` as the method it is: the context is built by the
      loop above, and the model is called once at most. */
  method ClassifyThread(emails: seq<EmailMessage>, w: World) returns (r: ThreadClassificationResponse)
    ensures r == Classification(emails, w)
  {
    if emails == [] {
      return EmptyThreadResponse;
    }
    if !Comparable(emails) {
      return ErrorResponse(emails, CompareError);
    }
    var sorted := SortByDate(emails);
    var latest := sorted[|sorted| - 1];
    if DateUtils.IsOlderThanDays(latest.date, w.historyDays, w.nowUtc) {
      return ThreadClassificationResponse(sorted[0].threadId, History, 1.0, HistoryReasoning, |sorted|);
    }
    var context := BuildThreadContext(sorted, w.formatDate);
    var answer := w.model(w.prompt(context, |sorted|, sorted[0].threadId));
    if answer.Failure? {
      return ErrorResponse(emails, answer.error);
    }
    var p := ParseResponse(answer.value, ThreadStyle);
    r := ThreadClassificationResponse(sorted[0].threadId, p.emailLabel, p.confidence, p.reasoning, |sorted|);
  }

  /** The classifications of the threads, in order. */
  function Classifications(threads: Threads, w: World): (rs: seq<ThreadClassificationResponse>)
    ensures |rs| == |threads|
  {
    seq(|threads|, i requires 0 <= i < |threads| => Classification(threads[i].emails, w))
  }

  /** `classify_multiple_threads`: one answer per thread, in dictionary
      order. */
  method ClassifyMultipleThreads(threads: Threads, w: World) returns (rs: seq<ThreadClassificationResponse>)
    ensures |rs| == |threads|
    ensures forall i :: 0 <= i < |threads| ==> rs[i] == Classification(threads[i].emails, w)
  {
    ghost var all := Classifications(threads, w);
    rs := [];
    var i := 0;
    while i < |threads|
      invariant 0 <= i <= |threads|
      invariant rs == all[..i]
    {
      var r := ClassifyThread(threads[i].emails, w);
      assert all[..i + 1] == all[..i] + [all[i]];
      rs := rs + [r];
      i := i + 1;
    }
  }

  /** After sorting by date the first e-mail is an earliest one and the
      last a latest one. */
  lemma SortedEnds(emails: seq<EmailMessage>)
    requires emails != []
    ensures var sorted := SortByDate(emails);
            && Sorted(sorted, DateLe) && multiset(sorted) == multiset(emails)
            && sorted[0] in emails && sorted[|sorted| - 1] in emails
            && (forall e :: e in emails ==> Instant(sorted[0].date) <= Instant(e.date) <= Instant(sorted[|sorted| - 1].date))
  {
    var sorted := SortByDate(emails);
    SortByDateSortedStable(emails, emails[0]);
    assert sorted[0] in multiset(emails);
    assert sorted[|sorted| - 1] in multiset(emails);
    forall e | e in emails
      ensures Instant(sorted[0].date) <= Instant(e.date) <= Instant(sorted[|sorted| - 1].date)
    {
      assert e in multiset(sorted);
      var k :| 0 <= k < |sorted| && sorted[k] == e;
    }
  }

  /** The latest e-mail is older than the threshold exactly when all of
      them are. */
  lemma LatestOldIffAllOld(emails: seq<EmailMessage>, w: World)
    requires emails != []
    ensures var sorted := SortByDate(emails);
            DateUtils.IsOlderThanDays(sorted[|sorted| - 1].date, w.historyDays, w.nowUtc) <==> AllOld(emails, w)
  {
    SortedEnds(emails);
  }

  /** A thread old as a whole is History: the answer carries the id of the
      earliest e-mail, and the model is not consulted. */
  lemma OldThreadIsHistory(emails: seq<EmailMessage>, w: World, other: string -> Result<string>)
    requires emails != [] && Comparable(emails)
    requires AllOld(emails, w)
    ensures var r := Classification(emails, w);
            var first := SortByDate(emails)[0];
            && r == ThreadClassificationResponse(first.threadId, History, 1.0, HistoryReasoning, |emails|)
            && first in emails && (forall e :: e in emails ==> Instant(first.date) <= Instant(e.date))
            && r == Classification(emails, w.(model := other))
  {
    SortedEnds(emails);
    LatestOldIffAllOld(emails, w);
  }

  /** A thread with a recent e-mail goes to the model with the context of
      all its e-mails in date order; a model error becomes the error
      answer, and an answer is parsed into the label, confidence and
      reasoning. */
  lemma RecentThreadAsksModel(emails: seq<EmailMessage>, w: World)
    requires emails != [] && Comparable(emails)
    requires !AllOld(emails, w)
    ensures var sorted := SortByDate(emails);
            var parts := Interleave(Blocks(sorted, w.formatDate));
            var answer := w.model(w.prompt(Join("\n", parts), |emails|, sorted[0].threadId));
            var r := Classification(emails, w);
            && Sorted(sorted, DateLe) && multiset(sorted) == multiset(emails)
            && (forall k :: 0 <= k < |emails| ==> parts[BlockIndex(k)] == EmailBlock(sorted, k, w.formatDate))
            && (answer.Failure? ==> r == ErrorResponse(emails, answer.error))
            && (answer.Success? ==>
                  var p := ParseResponse(answer.value, ThreadStyle);
                  r == ThreadClassificationResponse(sorted[0].threadId, p.emailLabel, p.confidence, p.reasoning, |emails|))
  {
    var sorted := SortByDate(emails);
    SortedEnds(emails);
    LatestOldIffAllOld(emails, w);
    InterleaveLayout(Blocks(sorted, w.formatDate));
  }
}
