/** The batch processor (enhanced_email_processor.py, `FixedEmailProcessor`):
    every thread gets one label, History when its latest e-mail is older
    than the processor's own threshold (7 days, on the UTC clock) and the
    thread classifier's answer otherwise; then every e-mail of the thread is
    labelled, and running totals are kept in `processing_stats`. Fetching
    e-mails, the clock, `isoformat` and `gmail_tools.apply_label` are
    parameters. */
module EnhancedEmailProcessor {
  import opened Wrappers
  import opened Text
  import opened Collections
  import opened EmailModels
  import DateUtils
  import opened ThreadOrganizer
  import ThreadEmailClassifier

  /** `history_days_threshold`. */
  const DefaultThreshold: int := 7

  /** The `OverflowError` of `astimezone` when the UTC time leaves the
      years 1 to 9999. */
  const OverflowError: string := "date value out of range"

  /** `normalize_datetime`: a naive datetime is tagged UTC as it stands; an
      aware one is converted to UTC, which raises when the result falls
      outside the representable years. */
  function NormalizeDatetime(dt: DateTime): (r: Result<DateTime>)
    ensures r.Success? ==> r.value.offset == Some(0) && Instant(r.value) == Instant(dt)
    ensures dt.offset.None? ==> r == Success(DateTime(dt.wall, Some(0)))
    ensures r.Failure? <==> dt.offset.Some? && !(0 <= Instant(dt) <= MaxWall)
  {
    if dt.offset.None? then Success(DateTime(dt.wall, Some(0)))
    else
      var utc := Instant(dt);
      if 0 <= utc <= MaxWall then Success(DateTime(utc, Some(0))) else Failure(OverflowError)
  }

  /** `classification_method`. The source also has a `'fallback'` method for
      an empty answer of `classify_multiple_threads`, which cannot happen:
      that method answers once per thread. */
  datatype Method = AutomaticHistory | ThreadContextAnalysis | ErrorFallback {
    function Value(): string {
      match this
      case AutomaticHistory => "automatic_history"
      case ThreadContextAnalysis => "thread_context_analysis"
      case ErrorFallback => "error_fallback"
    }
  }

  /** `date_range`: the ISO dates of the first and last e-mail. */
  datatype DateRange = DateRange(start: string, end: string)

  /** One entry of `thread_results`. */
  datatype ThreadResult = ThreadResult(
    threadId: string,
    emailLabel: EmailLabel,
    confidence: real,
    reasoning: string,
    emailCount: nat,
    classificationMethod: Method,
    threadEmails: seq<string>,
    participants: set<string>,
    dateRange: DateRange)

  /** `[email.id for email in thread_emails]`. */
  function EmailIds(es: seq<EmailMessage>): (r: seq<string>)
    ensures |r| == |es|
    ensures forall i :: 0 <= i < |es| ==> r[i] == es[i].id
  {
    seq(|es|, i requires 0 <= i < |es| => es[i].id)
  }

  /** The senders and the recipients (not the copies) of the e-mails. */
  function Senders(es: seq<EmailMessage>): (r: set<string>)
    ensures forall x :: x in r <==> exists e :: e in es && (x == e.fromEmail || x in e.toEmails)
  {
    if es == [] then {}
    else
      var rest := Senders(es[1..]);
      assert forall e :: e in es <==> e == es[0] || e in es[1..];
      {es[0].fromEmail} + (set x | x in es[0].toEmails) + rest
  }

  function HistoryReasoning(threshold: int): string {
    "Thread is older than " + IntToString(threshold) + " days - automatic History classification"
  }

  const DateErrorPrefix: string := "DateTime processing error - fallback classification: "

  /** What the processor makes of one thread: no result when the thread is
      empty or its dates cannot be sorted (the general error handler);
      otherwise a result whose method says which branch was taken. */
  function Decide(t: Thread, nowUtc: int, threshold: int, w: ThreadEmailClassifier.World, iso: DateTime -> string)
    : (r: Option<ThreadResult>)
    ensures r.None? <==> t.emails == [] || !Comparable(t.emails)
    ensures r.Some? ==> (r.value.threadId == t.id && r.value.emailCount == |t.emails|
      && r.value.threadEmails == EmailIds(t.emails))
  {
    if t.emails == [] || !Comparable(t.emails) then None
    else
      var sorted := SortByDate(t.emails);
      var latest := sorted[|sorted| - 1];
      var ids := EmailIds(t.emails);
      match NormalizeDatetime(latest.date)
      case Failure(e) =>
        Some(ThreadResult(t.id, Fyi, 0.3, DateErrorPrefix + e, |t.emails|, ErrorFallback, ids, {},
                          DateRange("unknown", "unknown")))
      case Success(normalized) =>
        var range := DateRange(iso(sorted[0].date), iso(latest.date));
        if Instant(normalized) < nowUtc - threshold * SecondsPerDay then
          Some(ThreadResult(t.id, History, 1.0, HistoryReasoning(threshold), |t.emails|, AutomaticHistory, ids,
                            Senders(t.emails), range))
        else
          var c := ThreadEmailClassifier.Classification(sorted, w);
          Some(ThreadResult(t.id, c.emailLabel, c.confidence, c.reasoning, |t.emails|, ThreadContextAnalysis, ids,
                            Senders(t.emails), range))
  }

  /** A thread is History by the processor's own rule exactly when its
      latest e-mail is older than the threshold by the instant rule of
      `is_older_than_days`; a thread that is not goes to the classifier,
      whose answer is copied. */
  lemma DecideFollowsInstantRule(t: Thread, nowUtc: int, threshold: int, w: ThreadEmailClassifier.World,
                                 iso: DateTime -> string)
    requires t.emails != [] && Comparable(t.emails)
    requires NormalizeDatetime(SortByDate(t.emails)[|t.emails| - 1].date).Success?
    ensures var r := Decide(t, nowUtc, threshold, w, iso).value;
            var latest := SortByDate(t.emails)[|t.emails| - 1];
            && (r.classificationMethod == AutomaticHistory <==> DateUtils.IsOlderThanDays(latest.date, threshold, nowUtc))
            && (r.classificationMethod == AutomaticHistory ==> r.emailLabel == History && r.confidence == 1.0)
            && (r.classificationMethod != AutomaticHistory ==>
                  r.classificationMethod == ThreadContextAnalysis
                  && r.emailLabel == ThreadEmailClassifier.Classification(SortByDate(t.emails), w).emailLabel
                  && r.confidence == ThreadEmailClassifier.Classification(SortByDate(t.emails), w).confidence)
  {
  }

  /** A date the processor cannot convert gives FYI with confidence 0.3. */
  lemma DecideDateError(t: Thread, nowUtc: int, threshold: int, w: ThreadEmailClassifier.World,
                        iso: DateTime -> string)
    requires t.emails != [] && Comparable(t.emails)
    ensures var r := Decide(t, nowUtc, threshold, w, iso).value;
            var latest := SortByDate(t.emails)[|t.emails| - 1];
            r.classificationMethod == ErrorFallback <==> NormalizeDatetime(latest.date).Failure?
    ensures var r := Decide(t, nowUtc, threshold, w, iso).value;
            r.classificationMethod == ErrorFallback ==>
              r.emailLabel == Fyi && r.confidence == 0.3 && r.participants == {}
  {
  }

  // ---------------------------------------------------------------------
  // _process_threads_fixed

  /** The results of the threads, in order; threads without a result are
      left out. */
  function Results(ts: Threads, nowUtc: int, threshold: int, w: ThreadEmailClassifier.World, iso: DateTime -> string)
    : (rs: seq<ThreadResult>)
    ensures |rs| <= |ts|
  {
    if ts == [] then []
    else
      var rest := Results(ts[..|ts| - 1], nowUtc, threshold, w, iso);
      match Decide(ts[|ts| - 1], nowUtc, threshold, w, iso)
      case None => rest
      case Some(r) => rest + [r]
  }

  /** How many threads count as processing errors: no result, or a date
      error. */
  function Failed(ts: Threads, nowUtc: int, threshold: int, w: ThreadEmailClassifier.World, iso: DateTime -> string)
    : (n: nat)
    ensures n <= |ts|
  {
    if ts == [] then 0
    else
      var d := Decide(ts[|ts| - 1], nowUtc, threshold, w, iso);
      Failed(ts[..|ts| - 1], nowUtc, threshold, w, iso)
        + (if d.None? || d.value.classificationMethod == ErrorFallback then 1 else 0)
  }

  /** One more for the label of each result. */
  function AddLabels(c: Counter<string>, rs: seq<ThreadResult>): (r: Counter<string>)
    requires c.Valid()
    ensures r.Valid()
    ensures Total(r) == Total(c) + |rs|
  {
    if rs == [] then c
    else
      var init := AddLabels(c, rs[..|rs| - 1]);
      AddTotal(init, rs[|rs| - 1].emailLabel.Value(), 1);
      Add(init, rs[|rs| - 1].emailLabel.Value(), 1)
  }

  /** How many results were taken by the given method. */
  function WithMethod(rs: seq<ThreadResult>, m: Method): (n: nat)
    ensures n <= |rs|
  {
    if rs == [] then 0
    else WithMethod(rs[..|rs| - 1], m) + (if rs[|rs| - 1].classificationMethod == m then 1 else 0)
  }

  /** Every thread is either a success (a result that is not a date error)
      or a processing error. */
  lemma {:induction false} ThreadsAccounted(ts: Threads, nowUtc: int, threshold: int, w: ThreadEmailClassifier.World,
                                            iso: DateTime -> string)
    ensures var rs := Results(ts, nowUtc, threshold, w, iso);
            (|rs| - WithMethod(rs, ErrorFallback)) + Failed(ts, nowUtc, threshold, w, iso) == |ts|
  {
    if ts != [] {
      var init := ts[..|ts| - 1];
      ThreadsAccounted(init, nowUtc, threshold, w, iso);
      var rest := Results(init, nowUtc, threshold, w, iso);
      var d := Decide(ts[|ts| - 1], nowUtc, threshold, w, iso);
      if d.Some? {
        assert (rest + [d.value])[..|rest|] == rest;
      }
    }
  }

  lemma ResultsSnoc(ts: Threads, i: nat, nowUtc: int, threshold: int, w: ThreadEmailClassifier.World,
                    iso: DateTime -> string)
    requires i < |ts|
    ensures var d := Decide(ts[i], nowUtc, threshold, w, iso);
            && Results(ts[..i + 1], nowUtc, threshold, w, iso)
               == Results(ts[..i], nowUtc, threshold, w, iso) + (if d.Some? then [d.value] else [])
            && Failed(ts[..i + 1], nowUtc, threshold, w, iso)
               == Failed(ts[..i], nowUtc, threshold, w, iso)
                  + (if d.None? || d.value.classificationMethod == ErrorFallback then 1 else 0)
  {
    assert ts[..i + 1][..i] == ts[..i];
  }

  lemma AddLabelsSnoc(c: Counter<string>, rs: seq<ThreadResult>, r: ThreadResult)
    requires c.Valid()
    ensures AddLabels(c, rs + [r]) == Add(AddLabels(c, rs), r.emailLabel.Value(), 1)
    ensures WithMethod(rs + [r], ErrorFallback) == WithMethod(rs, ErrorFallback) + (if r.classificationMethod == ErrorFallback then 1 else 0)
  {
    assert (rs + [r])[..|rs|] == rs;
  }

  // ---------------------------------------------------------------------
  // _apply_thread_labels_to_emails

  /** One entry of `label_details`. */
  datatype LabelDetail = LabelDetail(
    emailId: string,
    threadId: string,
    subject: string,
    fromEmail: string,
    labelApplied: string,
    confidence: real,
    appliedSuccessfully: bool)

  /** The dictionary `_apply_thread_labels_to_emails` returns. */
  datatype EmailResults = EmailResults(labeled: nat, skipped: nat, errors: nat, details: seq<LabelDetail>)

  /** The e-mail results together with `processing_stats['emails_by_label']`. */
  datatype Tally = Tally(results: EmailResults, emailsByLabel: Counter<string>)

  /** `{result['thread_id']: result for result in thread_results}[id]`: a
      later result for the same thread wins. */
  function Lookup(rs: seq<ThreadResult>, id: string): (r: Option<ThreadResult>)
    ensures r.Some? <==> exists k :: 0 <= k < |rs| && rs[k].threadId == id
    ensures r.Some? ==> r.value in rs && r.value.threadId == id
  {
    if rs == [] then None
    else if rs[|rs| - 1].threadId == id then Some(rs[|rs| - 1])
    else
      var r := Lookup(rs[..|rs| - 1], id);
      assert forall k :: 0 <= k < |rs| - 1 ==> rs[..|rs| - 1][k] == rs[k];
      r
  }

  /** One e-mail of a classified thread: labelled (or counted as labelled
      in a dry run), counted under its label whether or not the label call
      succeeded, and recorded with `applied_successfully` set to the mode,
      not to the outcome of the call. */
  function EmailStep(p: Tally, t: Thread, c: ThreadResult, e: EmailMessage, apply: bool,
                     applyLabel: (string, string) -> bool): (q: Tally)
    requires p.emailsByLabel.Valid()
    ensures q.emailsByLabel.Valid()
  {
    var value := c.emailLabel.Value();
    var ok := !apply || applyLabel(e.id, value);
    var er := p.results;
    Tally(EmailResults(er.labeled + (if ok then 1 else 0), er.skipped, er.errors + (if ok then 0 else 1),
                       er.details + [LabelDetail(e.id, t.id, e.subject, e.fromEmail, value, c.confidence, apply)]),
          Add(p.emailsByLabel, value, 1))
  }

  /** The e-mails `es` of thread t, classified as c, one after the other. */
  function EmailsPass(p: Tally, t: Thread, c: ThreadResult, es: seq<EmailMessage>, apply: bool,
                      applyLabel: (string, string) -> bool): (q: Tally)
    requires p.emailsByLabel.Valid()
    ensures q.emailsByLabel.Valid()
  {
    if es == [] then p
    else EmailStep(EmailsPass(p, t, c, es[..|es| - 1], apply, applyLabel), t, c, es[|es| - 1], apply, applyLabel)
  }

  lemma EmailsPassSnoc(p: Tally, t: Thread, c: ThreadResult, es: seq<EmailMessage>, j: nat, apply: bool,
                       applyLabel: (string, string) -> bool)
    requires p.emailsByLabel.Valid() && j < |es|
    ensures EmailsPass(p, t, c, es[..j + 1], apply, applyLabel)
         == EmailStep(EmailsPass(p, t, c, es[..j], apply, applyLabel), t, c, es[j], apply, applyLabel)
  {
    assert es[..j + 1][..j] == es[..j];
  }

  /** One thread: skipped whole when it has no result. */
  function ThreadPass(p: Tally, t: Thread, rs: seq<ThreadResult>, apply: bool,
                      applyLabel: (string, string) -> bool): (q: Tally)
    requires p.emailsByLabel.Valid()
    ensures q.emailsByLabel.Valid()
  {
    match Lookup(rs, t.id)
    case None => p.(results := p.results.(skipped := p.results.skipped + |t.emails|))
    case Some(c) => EmailsPass(p, t, c, t.emails, apply, applyLabel)
  }

  /** All threads, in order. */
  function LabelPass(p: Tally, ts: Threads, rs: seq<ThreadResult>, apply: bool,
                     applyLabel: (string, string) -> bool): (q: Tally)
    requires p.emailsByLabel.Valid()
    ensures q.emailsByLabel.Valid()
  {
    if ts == [] then p
    else ThreadPass(LabelPass(p, ts[..|ts| - 1], rs, apply, applyLabel), ts[|ts| - 1], rs, apply, applyLabel)
  }

  function Processed(er: EmailResults): nat {
    er.labeled + er.skipped + er.errors
  }

  /** Each e-mail of a classified thread adds one to labelled or to errors,
      one detail, and one to its label's count. */
  lemma {:induction false} EmailsPassCounts(p: Tally, t: Thread, c: ThreadResult, es: seq<EmailMessage>, apply: bool,
                                            applyLabel: (string, string) -> bool)
    requires p.emailsByLabel.Valid()
    ensures var q := EmailsPass(p, t, c, es, apply, applyLabel);
            && Processed(q.results) == Processed(p.results) + |es|
            && q.results.skipped == p.results.skipped
            && |q.results.details| == |p.results.details| + |es|
            && Total(q.emailsByLabel) == Total(p.emailsByLabel) + |es|
            && (!apply ==> q.results.errors == p.results.errors)
  {
    if es != [] {
      var mid := EmailsPass(p, t, c, es[..|es| - 1], apply, applyLabel);
      EmailsPassCounts(p, t, c, es[..|es| - 1], apply, applyLabel);
      AddTotal(mid.emailsByLabel, c.emailLabel.Value(), 1);
    }
  }

  /** Every e-mail of every thread is labelled, skipped or an error, so the
      three counts add up to the number of e-mails; the label counts grow
      by the number of details; a dry run has no errors. */
  lemma {:induction false} LabelPassCounts(p: Tally, ts: Threads, rs: seq<ThreadResult>, apply: bool,
                                           applyLabel: (string, string) -> bool)
    requires p.emailsByLabel.Valid()
    ensures var q := LabelPass(p, ts, rs, apply, applyLabel);
            && Processed(q.results) == Processed(p.results) + |Flatten(ts)|
            && Total(q.emailsByLabel) - Total(p.emailsByLabel) == |q.results.details| - |p.results.details|
            && |q.results.details| >= |p.results.details|
            && (!apply ==> q.results.errors == p.results.errors)
  {
    if ts != [] {
      var init := ts[..|ts| - 1];
      var t := ts[|ts| - 1];
      LabelPassCounts(p, init, rs, apply, applyLabel);
      var mid := LabelPass(p, init, rs, apply, applyLabel);
      assert Flatten(ts) == Flatten(init) + t.emails;
      match Lookup(rs, t.id)
      case None =>
      case Some(c) => EmailsPassCounts(mid, t, c, t.emails, apply, applyLabel);
    }
  }

  /** Over the threads of the fetched e-mails, starting from zero, every
      fetched e-mail is labelled, skipped or an error exactly once. */
  lemma FetchedAccounted(fetched: seq<EmailMessage>, c: Counter<string>, rs: seq<ThreadResult>, apply: bool,
                         applyLabel: (string, string) -> bool)
    requires Organized(fetched).Success? && c.Valid()
    ensures Processed(LabelPass(Tally(EmailResults(0, 0, 0, []), c), Organized(fetched).value, rs, apply, applyLabel).results)
            == |fetched|
  {
    LabelPassCounts(Tally(EmailResults(0, 0, 0, []), c), Organized(fetched).value, rs, apply, applyLabel);
    OrganizedPartition(fetched);
    assert |multiset(Flatten(Organized(fetched).value))| == |multiset(fetched)|;
  }

  /** A thread without a result has all its e-mails skipped and none
      labelled or recorded. */
  lemma SkippedThread(p: Tally, t: Thread, rs: seq<ThreadResult>, apply: bool, applyLabel: (string, string) -> bool)
    requires p.emailsByLabel.Valid()
    requires forall k :: 0 <= k < |rs| ==> rs[k].threadId != t.id
    ensures var q := ThreadPass(p, t, rs, apply, applyLabel);
            && q.results.skipped == p.results.skipped + |t.emails|
            && q.results.labeled == p.results.labeled && q.results.errors == p.results.errors
            && q.results.details == p.results.details && q.emailsByLabel == p.emailsByLabel
  {
  }

  /** In a dry run every e-mail of a classified thread counts as labelled
      and its detail says it was not applied; no label call is needed, so
      the result does not depend on the oracle. */
  lemma {:induction false} DryRunLabelsAll(p: Tally, t: Thread, c: ThreadResult, es: seq<EmailMessage>,
                                           applyLabel: (string, string) -> bool, other: (string, string) -> bool)
    requires p.emailsByLabel.Valid()
    ensures var q := EmailsPass(p, t, c, es, false, applyLabel);
            && q.results.labeled == p.results.labeled + |es|
            && q.results.errors == p.results.errors
            && q == EmailsPass(p, t, c, es, false, other)
            && forall k :: |p.results.details| <= k < |q.results.details| ==> !q.results.details[k].appliedSuccessfully
  {
    if es != [] {
      DryRunLabelsAll(p, t, c, es[..|es| - 1], applyLabel, other);
    }
  }

  // ---------------------------------------------------------------------
  // _generate_processing_report

  /** `processing_summary` and the rest of the report. */
  datatype Report = Report(
    totalThreadsProcessed: nat,
    totalEmailsProcessed: nat,
    emailsSuccessfullyLabeled: nat,
    emailsSkipped: nat,
    labelingErrors: nat,
    processingErrors: nat,
    successfulThreads: nat,
    byThreads: Counter<string>,
    byEmails: Counter<string>,
    threadStatistics: ThreadStatistics,
    classificationMethods: Counter<string>)

  /** One more for the method of each result. */
  function MethodCounts(rs: seq<ThreadResult>): (c: Counter<string>)
    ensures c.Valid()
    ensures Total(c) == |rs|
  {
    if rs == [] then Empty()
    else
      var init := MethodCounts(rs[..|rs| - 1]);
      AddTotal(init, rs[|rs| - 1].classificationMethod.Value(), 1);
      Add(init, rs[|rs| - 1].classificationMethod.Value(), 1)
  }

  /** Each method is counted once per result that took it. */
  lemma {:induction false} MethodCountsCount(rs: seq<ThreadResult>, m: Method)
    ensures Count(MethodCounts(rs), m.Value()) == WithMethod(rs, m)
  {
    if rs != [] {
      MethodCountsCount(rs[..|rs| - 1], m);
      AddTotal(MethodCounts(rs[..|rs| - 1]), rs[|rs| - 1].classificationMethod.Value(), 1);
      var n := rs[|rs| - 1].classificationMethod;
      assert n.Value() == m.Value() ==> n == m;
    }
  }

  lemma MethodCountsSnoc(rs: seq<ThreadResult>, i: nat)
    requires i < |rs|
    ensures MethodCounts(rs[..i + 1]) == Add(MethodCounts(rs[..i]), rs[i].classificationMethod.Value(), 1)
  {
    assert rs[..i + 1][..i] == rs[..i];
  }

  /** The `classification_methods` counter of `_generate_processing_report`. */
  method CountMethods(results: seq<ThreadResult>) returns (methods: Counter<string>)
    ensures methods == MethodCounts(results)
  {
    methods := Empty();
    var i := 0;
    while i < |results|
      invariant 0 <= i <= |results|
      invariant methods == MethodCounts(results[..i])
    {
      MethodCountsSnoc(results, i);
      methods := Add(methods, results[i].classificationMethod.Value(), 1);
      i := i + 1;
    }
    assert results[..i] == results;
  }

  /** The outcome of `process_all_emails`. */
  datatype Outcome =
    | Processed(threadResults: seq<ThreadResult>, emailResults: EmailResults, report: Report, appliedLabels: bool)
    | NotProcessed(error: string)

  /** The processor and its running `processing_stats`, which add up over
      every run of the same processor. */
  class FixedEmailProcessor {
    var totalEmails: nat
    var totalThreads: nat
    var emailsByLabel: Counter<string>
    var threadsByLabel: Counter<string>
    var processingErrors: nat
    var successfulThreads: nat
    var historyDaysThreshold: int

    ghost predicate Valid()
      reads this
    {
      emailsByLabel.Valid() && threadsByLabel.Valid()
    }

    constructor()
      ensures Valid()
      ensures totalEmails == 0 && totalThreads == 0 && processingErrors == 0 && successfulThreads == 0
      ensures emailsByLabel == Empty() && threadsByLabel == Empty()
      ensures historyDaysThreshold == DefaultThreshold
    {
      totalEmails, totalThreads := 0, 0;
      emailsByLabel, threadsByLabel := Empty(), Empty();
      processingErrors, successfulThreads := 0, 0;
      historyDaysThreshold := DefaultThreshold;
    }

    /** The body of the loop of `_process_threads_fixed` up to the update of
        the statistics. */
    method ProcessThread(t: Thread, nowUtc: int, w: ThreadEmailClassifier.World, iso: DateTime -> string)
      returns (d: Option<ThreadResult>)
      ensures d == Decide(t, nowUtc, historyDaysThreshold, w, iso)
    {
      if t.emails == [] || !Comparable(t.emails) {
        return None;
      }
      var sorted := SortByDate(t.emails);
      var latest := sorted[|sorted| - 1];
      var ids := EmailIds(t.emails);
      var normalized := NormalizeDatetime(latest.date);
      if normalized.Failure? {
        return Some(ThreadResult(t.id, Fyi, 0.3, DateErrorPrefix + normalized.error, |t.emails|, ErrorFallback, ids,
                                 {}, DateRange("unknown", "unknown")));
      }
      var range := DateRange(iso(sorted[0].date), iso(latest.date));
      if Instant(normalized.value) < nowUtc - historyDaysThreshold * SecondsPerDay {
        return Some(ThreadResult(t.id, History, 1.0, HistoryReasoning(historyDaysThreshold), |t.emails|,
                                 AutomaticHistory, ids, Senders(t.emails), range));
      }
      var cs := ThreadEmailClassifier.ClassifyMultipleThreads([Thread(t.id, sorted)], w);
      var c := cs[0];
      d := Some(ThreadResult(t.id, c.emailLabel, c.confidence, c.reasoning, |t.emails|, ThreadContextAnalysis, ids,
                             Senders(t.emails), range));
    }

    /** The statistics kept for one thread of `_process_threads_fixed`:
        an error for no result or a date error, a success otherwise, and one
        more under the label of any result. */
    method CountThread(d: Option<ThreadResult>)
      requires Valid()
      modifies this
      ensures Valid()
      ensures d.None? ==> threadsByLabel == old(threadsByLabel)
      ensures d.Some? ==> threadsByLabel == Add(old(threadsByLabel), d.value.emailLabel.Value(), 1)
      ensures successfulThreads == old(successfulThreads) + (if d.Some? && d.value.classificationMethod != ErrorFallback then 1 else 0)
      ensures processingErrors == old(processingErrors) + (if d.None? || d.value.classificationMethod == ErrorFallback then 1 else 0)
      ensures totalEmails == old(totalEmails) && totalThreads == old(totalThreads)
      ensures emailsByLabel == old(emailsByLabel) && historyDaysThreshold == old(historyDaysThreshold)
    {
      if d.None? {
        processingErrors := processingErrors + 1;
        return;
      }
      threadsByLabel := Add(threadsByLabel, d.value.emailLabel.Value(), 1);
      if d.value.classificationMethod == ErrorFallback {
        processingErrors := processingErrors + 1;
      } else {
        successfulThreads := successfulThreads + 1;
      }
    }

    /** `_process_threads_fixed`: one result per thread that has one; the
        label counts, the successes and the errors grow accordingly. */
    method ProcessThreadsFixed(threads: Threads, nowUtc: int, w: ThreadEmailClassifier.World, iso: DateTime -> string)
      returns (results: seq<ThreadResult>)
      requires Valid()
      modifies this
      ensures Valid()
      ensures results == Results(threads, nowUtc, historyDaysThreshold, w, iso)
      ensures threadsByLabel == AddLabels(old(threadsByLabel), results)
      ensures processingErrors == old(processingErrors) + Failed(threads, nowUtc, historyDaysThreshold, w, iso)
      ensures successfulThreads == old(successfulThreads) + |results| - WithMethod(results, ErrorFallback)
      ensures totalEmails == old(totalEmails) && totalThreads == old(totalThreads)
      ensures emailsByLabel == old(emailsByLabel) && historyDaysThreshold == old(historyDaysThreshold)
    {
      results := [];
      var i := 0;
      while i < |threads|
        invariant 0 <= i <= |threads|
        invariant Valid()
        invariant results == Results(threads[..i], nowUtc, historyDaysThreshold, w, iso)
        invariant threadsByLabel == AddLabels(old(threadsByLabel), results)
        invariant processingErrors == old(processingErrors) + Failed(threads[..i], nowUtc, historyDaysThreshold, w, iso)
        invariant successfulThreads == old(successfulThreads) + |results| - WithMethod(results, ErrorFallback)
        invariant totalEmails == old(totalEmails) && totalThreads == old(totalThreads)
        invariant emailsByLabel == old(emailsByLabel) && historyDaysThreshold == old(historyDaysThreshold)
      {
        var d := ProcessThread(threads[i], nowUtc, w, iso);
        ResultsSnoc(threads, i, nowUtc, historyDaysThreshold, w, iso);
        CountThread(d);
        if d.Some? {
          AddLabelsSnoc(old(threadsByLabel), results, d.value);
          results := results + [d.value];
        }
        i := i + 1;
      }
      assert threads[..i] == threads;
    }

    /** The inner loop of `_apply_thread_labels_to_emails`. */
    method LabelThreadEmails(er: EmailResults, t: Thread, c: ThreadResult, apply: bool,
                             applyLabel: (string, string) -> bool)
      returns (er': EmailResults)
      requires Valid()
      modifies this
      ensures Valid()
      ensures Tally(er', emailsByLabel) == EmailsPass(Tally(er, old(emailsByLabel)), t, c, t.emails, apply, applyLabel)
      ensures totalEmails == old(totalEmails) && totalThreads == old(totalThreads)
      ensures threadsByLabel == old(threadsByLabel) && historyDaysThreshold == old(historyDaysThreshold)
      ensures processingErrors == old(processingErrors) && successfulThreads == old(successfulThreads)
    {
      er' := er;
      var value := c.emailLabel.Value();
      var j := 0;
      while j < |t.emails|
        invariant 0 <= j <= |t.emails|
        invariant Valid()
        invariant Tally(er', emailsByLabel) == EmailsPass(Tally(er, old(emailsByLabel)), t, c, t.emails[..j], apply, applyLabel)
        invariant totalEmails == old(totalEmails) && totalThreads == old(totalThreads)
        invariant threadsByLabel == old(threadsByLabel) && historyDaysThreshold == old(historyDaysThreshold)
        invariant processingErrors == old(processingErrors) && successfulThreads == old(successfulThreads)
      {
        var email := t.emails[j];
        ghost var before := Tally(er', emailsByLabel);
        EmailsPassSnoc(Tally(er, old(emailsByLabel)), t, c, t.emails, j, apply, applyLabel);
        if apply {
          var ok := applyLabel(email.id, value);
          if ok {
            er' := er'.(labeled := er'.labeled + 1);
          } else {
            er' := er'.(errors := er'.errors + 1);
          }
        } else {
          er' := er'.(labeled := er'.labeled + 1);
        }
        emailsByLabel := Add(emailsByLabel, value, 1);
        er' := er'.(details := er'.details + [LabelDetail(email.id, t.id, email.subject, email.fromEmail, value,
                                                          c.confidence, apply)]);
        assert Tally(er', emailsByLabel) == EmailStep(before, t, c, email, apply, applyLabel);
        j := j + 1;
      }
      assert t.emails[..j] == t.emails;
    }

    /** `_apply_thread_labels_to_emails`. */
    method ApplyThreadLabelsToEmails(threads: Threads, results: seq<ThreadResult>, apply: bool,
                                     applyLabel: (string, string) -> bool)
      returns (er: EmailResults)
      requires Valid()
      modifies this
      ensures Valid()
      ensures Tally(er, emailsByLabel) == LabelPass(Tally(EmailResults(0, 0, 0, []), old(emailsByLabel)), threads, results, apply, applyLabel)
      ensures totalEmails == old(totalEmails) && totalThreads == old(totalThreads)
      ensures threadsByLabel == old(threadsByLabel) && historyDaysThreshold == old(historyDaysThreshold)
      ensures processingErrors == old(processingErrors) && successfulThreads == old(successfulThreads)
    {
      ghost var start := Tally(EmailResults(0, 0, 0, []), old(emailsByLabel));
      er := EmailResults(0, 0, 0, []);
      var i := 0;
      while i < |threads|
        invariant 0 <= i <= |threads|
        invariant Valid()
        invariant Tally(er, emailsByLabel) == LabelPass(start, threads[..i], results, apply, applyLabel)
        invariant totalEmails == old(totalEmails) && totalThreads == old(totalThreads)
        invariant threadsByLabel == old(threadsByLabel) && historyDaysThreshold == old(historyDaysThreshold)
        invariant processingErrors == old(processingErrors) && successfulThreads == old(successfulThreads)
      {
        var t := threads[i];
        assert threads[..i + 1][..i] == threads[..i];
        var c := Lookup(results, t.id);
        if c.None? {
          er := er.(skipped := er.skipped + |t.emails|);
        } else {
          er := LabelThreadEmails(er, t, c.value, apply, applyLabel);
        }
        i := i + 1;
      }
      assert threads[..i] == threads;
    }

    /** `_generate_processing_report`. */
    method GenerateProcessingReport(results: seq<ThreadResult>, er: EmailResults, stats: ThreadStatistics)
      returns (report: Report)
      ensures report.totalEmailsProcessed == er.labeled + er.skipped + er.errors
      ensures report.totalThreadsProcessed == |results|
      ensures report.classificationMethods == MethodCounts(results)
      ensures report.processingErrors == processingErrors && report.successfulThreads == successfulThreads
      ensures report.byThreads == threadsByLabel && report.byEmails == emailsByLabel
      ensures report.threadStatistics == stats
      ensures report.emailsSuccessfullyLabeled == er.labeled && report.emailsSkipped == er.skipped
      ensures report.labelingErrors == er.errors
    {
      var methods := CountMethods(results);
      report := Report(|results|, er.labeled + er.skipped + er.errors, er.labeled, er.skipped, er.errors,
                       processingErrors, successfulThreads, threadsByLabel, emailsByLabel, stats, methods);
    }

    /** `process_all_emails`: `authenticated` says whether the user has
        credentials, `fetched` is what `fetch_emails` returned. */
    method ProcessAllEmails(authenticated: bool, fetched: seq<EmailMessage>, apply: bool, nowUtc: int,
                            w: ThreadEmailClassifier.World, iso: DateTime -> string,
                            applyLabel: (string, string) -> bool)
      returns (o: Outcome)
      requires Valid()
      modifies this
      ensures Valid()
      ensures !authenticated ==> o == NotProcessed("User not authenticated")
      ensures authenticated && fetched == [] ==> o == NotProcessed("No emails fetched")
      ensures authenticated && fetched != [] && Organized(fetched).Failure? ==> o == NotProcessed(CompareError)
      ensures o.Processed? <==> authenticated && fetched != [] && Organized(fetched).Success?
      ensures historyDaysThreshold == old(historyDaysThreshold)
      ensures totalEmails == if authenticated && fetched != [] then |fetched| else old(totalEmails)
      ensures !o.Processed? ==> (totalThreads == old(totalThreads) && threadsByLabel == old(threadsByLabel)
        && emailsByLabel == old(emailsByLabel) && processingErrors == old(processingErrors)
        && successfulThreads == old(successfulThreads))
      ensures o.Processed? ==>
        var threads := Organized(fetched).value;
        && totalThreads == |threads|
        && o.threadResults == Results(threads, nowUtc, historyDaysThreshold, w, iso)
        && threadsByLabel == AddLabels(old(threadsByLabel), o.threadResults)
        && processingErrors == old(processingErrors) + Failed(threads, nowUtc, historyDaysThreshold, w, iso)
        && successfulThreads == old(successfulThreads) + |o.threadResults| - WithMethod(o.threadResults, ErrorFallback)
        && Tally(o.emailResults, emailsByLabel)
           == LabelPass(Tally(EmailResults(0, 0, 0, []), old(emailsByLabel)), threads, o.threadResults, apply, applyLabel)
        && o.report.totalEmailsProcessed == |fetched|
        && o.report.totalThreadsProcessed == |o.threadResults|
        && o.report.classificationMethods == MethodCounts(o.threadResults)
        && o.report.threadStatistics == Statistics(threads)
        && o.report.processingErrors == processingErrors && o.report.successfulThreads == successfulThreads
        && o.report.byThreads == threadsByLabel && o.report.byEmails == emailsByLabel
        && o.appliedLabels == apply
    {
      if !authenticated {
        return NotProcessed("User not authenticated");
      }
      if fetched == [] {
        return NotProcessed("No emails fetched");
      }
      totalEmails := |fetched|;
      var organized := OrganizeEmailsByThread(fetched);
      if organized.Failure? {
        return NotProcessed(organized.error);
      }
      o := ProcessThreads(organized.value, apply, nowUtc, w, iso, applyLabel);
      FetchedAccounted(fetched, old(emailsByLabel), o.threadResults, apply, applyLabel);
    }

    /** Steps 2 to 5 of `process_all_emails`, once the e-mails are
        organised into threads. */
    method ProcessThreads(threads: Threads, apply: bool, nowUtc: int, w: ThreadEmailClassifier.World,
                          iso: DateTime -> string, applyLabel: (string, string) -> bool)
      returns (o: Outcome)
      requires Valid()
      modifies this
      ensures Valid() && o.Processed?
      ensures totalEmails == old(totalEmails) && historyDaysThreshold == old(historyDaysThreshold)
      ensures totalThreads == |threads|
      ensures o.threadResults == Results(threads, nowUtc, historyDaysThreshold, w, iso)
      ensures threadsByLabel == AddLabels(old(threadsByLabel), o.threadResults)
      ensures processingErrors == old(processingErrors) + Failed(threads, nowUtc, historyDaysThreshold, w, iso)
      ensures successfulThreads == old(successfulThreads) + |o.threadResults| - WithMethod(o.threadResults, ErrorFallback)
      ensures Tally(o.emailResults, emailsByLabel)
              == LabelPass(Tally(EmailResults(0, 0, 0, []), old(emailsByLabel)), threads, o.threadResults, apply, applyLabel)
      ensures o.report.totalEmailsProcessed == o.emailResults.labeled + o.emailResults.skipped + o.emailResults.errors
      ensures o.report.totalThreadsProcessed == |o.threadResults|
      ensures o.report.classificationMethods == MethodCounts(o.threadResults)
      ensures o.report.threadStatistics == Statistics(threads)
      ensures o.report.processingErrors == processingErrors && o.report.successfulThreads == successfulThreads
      ensures o.report.byThreads == threadsByLabel && o.report.byEmails == emailsByLabel
      ensures o.appliedLabels == apply
    {
      var stats := Statistics(threads);
      totalThreads := |threads|;
      var results := ProcessThreadsFixed(threads, nowUtc, w, iso);
      var er := ApplyThreadLabelsToEmails(threads, results, apply, applyLabel);
      var report := GenerateProcessingReport(results, er, stats);
      o := Processed(results, er, report, apply);
    }
  }
}
