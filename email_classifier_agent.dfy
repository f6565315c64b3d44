/** The classification agent that fans thread labels out to e-mails
    (agents/email_classifier_agent.py; not the class of the same name in
    agents/email_classifier.py). Its results are dictionaries; here they
    are records whose `label` and `confidence` may be missing, since the
    statistics and filters take any list of such dictionaries and read
    them with `.get` and `in`. */
module EmailClassifierAgent {
  import opened Wrappers
  import opened Collections
  import opened EmailModels
  import opened ThreadOrganizer
  import opened ThreadEmailClassifier

  /** One classification dictionary. */
  datatype Record = Record(
    emailId: string,
    threadId: string,
    subject: string,
    fromEmail: string,
    emailLabel: Option<string>,
    confidence: Option<real>,
    reasoning: string,
    threadEmailCount: nat)

  /** The dictionary `classify_emails` returns; `success` is missing for an
      empty input, and `error` is there only after a failure. */
  datatype Outcome = Outcome(
    totalEmails: nat,
    classifications: seq<Record>,
    labelDistribution: Counter<string>,
    threadsProcessed: nat,
    success: Option<bool>,
    error: Option<string>)

  /** The record of one e-mail of thread t, which was classified as c. */
  function RecordFor(t: Thread, e: EmailMessage, c: ThreadClassificationResponse): Record {
    Record(e.id, t.id, e.subject, e.fromEmail, Some(c.emailLabel.Value()), Some(c.confidence), c.reasoning, |t.emails|)
  }

  /** The records of the e-mails of one thread, in order. */
  function ThreadRecords(t: Thread, c: ThreadClassificationResponse): (rs: seq<Record>)
    ensures |rs| == |t.emails|
    ensures forall j :: 0 <= j < |t.emails| ==> rs[j] == RecordFor(t, t.emails[j], c)
  {
    seq(|t.emails|, j requires 0 <= j < |t.emails| => RecordFor(t, t.emails[j], c))
  }

  /** The records of all the threads, thread after thread. */
  function Records(ts: Threads, w: World): seq<Record> {
    if ts == [] then []
    else
      var t := ts[|ts| - 1];
      Records(ts[..|ts| - 1], w) + ThreadRecords(t, Classification(t.emails, w))
  }

  /** `c.get('label', 'unknown')`. */
  function LabelOf(r: Record): string {
    r.emailLabel.GetOr("unknown")
  }

  /** The label counts: one more for the label of each record, in order. */
  function Tally(rs: seq<Record>): (c: Counter<string>)
    ensures c.Valid()
    ensures Total(c) == |rs|
  {
    if rs == [] then Empty()
    else
      var init := Tally(rs[..|rs| - 1]);
      AddTotal(init, LabelOf(rs[|rs| - 1]), 1);
      Add(init, LabelOf(rs[|rs| - 1]), 1)
  }

  lemma TallySnoc(rs: seq<Record>, r: Record)
    ensures Tally(rs + [r]) == Add(Tally(rs), LabelOf(r), 1)
  {
    assert (rs + [r])[..|rs|] == rs;
  }

  /** The counts c0 with the labels of `rs` counted on top. */
  function TallyOnto(c0: Counter<string>, rs: seq<Record>): (c: Counter<string>)
    requires c0.Valid()
    ensures c.Valid()
  {
    if rs == [] then c0 else Add(TallyOnto(c0, rs[..|rs| - 1]), LabelOf(rs[|rs| - 1]), 1)
  }

  /** Counting more records goes on from the counts of the earlier ones. */
  lemma {:induction false} TallyAppend(acc: seq<Record>, rs: seq<Record>)
    ensures Tally(acc + rs) == TallyOnto(Tally(acc), rs)
  {
    if rs == [] {
      assert acc + rs == acc;
    } else {
      var n := |rs| - 1;
      TallyAppend(acc, rs[..n]);
      AppendStep(acc, rs, n);
      assert rs[..n + 1] == rs;
      TallySnoc(acc + rs[..n], rs[n]);
    }
  }

  lemma TallyOntoSnoc(c0: Counter<string>, rs: seq<Record>, j: nat)
    requires c0.Valid() && j < |rs|
    ensures TallyOnto(c0, rs[..j + 1]) == Add(TallyOnto(c0, rs[..j]), LabelOf(rs[j]), 1)
  {
    assert rs[..j + 1][..j] == rs[..j];
  }

  /** How many of the records carry label k. */
  function Carrying(rs: seq<Record>, k: string): (n: nat)
    ensures n <= |rs|
  {
    if rs == [] then 0 else Carrying(rs[..|rs| - 1], k) + (if LabelOf(rs[|rs| - 1]) == k then 1 else 0)
  }

  /** Each label is counted as often as records carry it. */
  lemma {:induction false} TallyCounts(rs: seq<Record>, k: string)
    ensures Count(Tally(rs), k) == Carrying(rs, k)
  {
    if rs != [] {
      TallyCounts(rs[..|rs| - 1], k);
      AddTotal(Tally(rs[..|rs| - 1]), LabelOf(rs[|rs| - 1]), 1);
    }
  }

  /** `classify_emails`. Grouping raises when one thread mixes naive and
      aware dates; `classify_thread` catches everything itself, so no
      thread takes the per-thread fallback. */
  function ClassifyEmailsSpec(emails: seq<EmailMessage>, w: World): Outcome {
    if emails == [] then Outcome(0, [], Empty(), 0, None, None)
    else
      match Organized(emails)
      case Failure(message) => Outcome(|emails|, [], Empty(), 0, Some(false), Some(message))
      case Success(ts) =>
        var rs := Records(ts, w);
        Outcome(|emails|, rs, Tally(rs), |ts|, Some(true), None)
  }

  lemma AppendStep(acc: seq<Record>, rs: seq<Record>, j: nat)
    requires j < |rs|
    ensures acc + rs[..j + 1] == (acc + rs[..j]) + [rs[j]]
  {
    PrefixSnoc(rs, j);
  }

  /** The inner loop of `classify_emails`: the records of one thread are
      appended and counted. */
  method AppendThreadRecords(acc: seq<Record>, counts: Counter<string>, t: Thread, c: ThreadClassificationResponse)
    returns (acc': seq<Record>, counts': Counter<string>)
    requires counts == Tally(acc)
    ensures acc' == acc + ThreadRecords(t, c)
    ensures counts' == Tally(acc')
  {
    ghost var rs := ThreadRecords(t, c);
    acc', counts' := acc, counts;
    var j := 0;
    while j < |t.emails|
      invariant 0 <= j <= |t.emails|
      invariant acc' == acc + rs[..j]
      invariant counts' == TallyOnto(counts, rs[..j])
    {
      var record := RecordFor(t, t.emails[j], c);
      assert acc' + [record] == acc + rs[..j + 1] by {
        assert record == rs[j];
        AppendStep(acc, rs, j);
      }
      assert Add(counts', c.emailLabel.Value(), 1) == TallyOnto(counts, rs[..j + 1]) by {
        assert LabelOf(rs[j]) == c.emailLabel.Value();
        TallyOntoSnoc(counts, rs, j);
      }
      acc' := acc' + [record];
      counts' := Add(counts', c.emailLabel.Value(), 1);
      j := j + 1;
    }
    assert rs[..j] == rs;
    TallyAppend(acc, rs);
  }

  lemma RecordsSnoc(ts: Threads, i: nat, w: World)
    requires i < |ts|
    ensures Records(ts[..i + 1], w) == Records(ts[..i], w) + ThreadRecords(ts[i], Classification(ts[i].emails, w))
  {
    assert ts[..i + 1][..i] == ts[..i];
  }

  /** `classify_emails` as the nested loops it is. */
  method ClassifyEmails(emails: seq<EmailMessage>, w: World) returns (r: Outcome)
    ensures r == ClassifyEmailsSpec(emails, w)
  {
    if emails == [] {
      return Outcome(0, [], Empty(), 0, None, None);
    }
    var organized := OrganizeEmailsByThread(emails);
    if organized.Failure? {
      return Outcome(|emails|, [], Empty(), 0, Some(false), Some(organized.error));
    }
    var threads := organized.value;
    var classifications: seq<Record> := [];
    var labelCounts: Counter<string> := Empty();
    var i := 0;
    while i < |threads|
      invariant 0 <= i <= |threads|
      invariant classifications == Records(threads[..i], w)
      invariant labelCounts == Tally(classifications)
    {
      var t := threads[i];
      var c := ClassifyThread(t.emails, w);
      RecordsSnoc(threads, i, w);
      classifications, labelCounts := AppendThreadRecords(classifications, labelCounts, t, c);
      i := i + 1;
    }
    assert threads[..i] == threads;
    r := Outcome(|emails|, classifications, labelCounts, |threads|, Some(true), None);
  }

  /** The records line up with the e-mails of the threads: record k is
      about the k-th e-mail and carries the classification of its thread. */
  lemma {:induction false} RecordsShape(ts: Threads, w: World)
    ensures |Records(ts, w)| == |Flatten(ts)|
    ensures forall k :: 0 <= k < |Flatten(ts)| ==>
      (exists i :: 0 <= i < |ts| && Flatten(ts)[k] in ts[i].emails
         && Records(ts, w)[k] == RecordFor(ts[i], Flatten(ts)[k], Classification(ts[i].emails, w)))
  {
    if ts != [] {
      var n := |ts| - 1;
      var init := ts[..n];
      RecordsShape(init, w);
      var rs0 := Records(init, w);
      var tail := ThreadRecords(ts[n], Classification(ts[n].emails, w));
      assert Records(ts, w) == rs0 + tail;
      assert Flatten(ts) == Flatten(init) + ts[n].emails;
      forall k | 0 <= k < |Flatten(ts)|
        ensures exists i :: (0 <= i < |ts| && Flatten(ts)[k] in ts[i].emails
          && Records(ts, w)[k] == RecordFor(ts[i], Flatten(ts)[k], Classification(ts[i].emails, w)))
      {
        if k < |rs0| {
          var i :| 0 <= i < |init| && Flatten(init)[k] in init[i].emails
            && rs0[k] == RecordFor(init[i], Flatten(init)[k], Classification(init[i].emails, w));
          assert ts[i] == init[i];
          assert Flatten(ts)[k] == Flatten(init)[k];
        } else {
          assert Records(ts, w)[k] == tail[k - |rs0|];
          assert Flatten(ts)[k] == ts[n].emails[k - |rs0|];
        }
      }
    }
  }

  /** A successful run emits one record per input e-mail and counts every
      record's label once. */
  lemma ClassifyEmailsTotals(emails: seq<EmailMessage>, w: World)
    requires emails != [] && Organized(emails).Success?
    ensures var r := ClassifyEmailsSpec(emails, w);
            && r.success == Some(true) && r.error.None?
            && r.totalEmails == |emails| && r.threadsProcessed == |Organized(emails).value|
            && |r.classifications| == |emails|
            && Total(r.labelDistribution) == |emails|
  {
    var ts := Organized(emails).value;
    OrganizedPartition(emails);
    assert |multiset(Flatten(ts))| == |multiset(emails)|;
    RecordsShape(ts, w);
  }

  /** Record k of a successful run is about the k-th e-mail of the threads
      and carries the label of that e-mail's own thread. */
  lemma ClassifyEmailsLabels(emails: seq<EmailMessage>, w: World, k: nat)
    requires emails != [] && Organized(emails).Success?
    requires k < |ClassifyEmailsSpec(emails, w).classifications|
    ensures var r := ClassifyEmailsSpec(emails, w).classifications[k];
            var ts := Organized(emails).value;
            && k < |Flatten(ts)| && r.emailId == Flatten(ts)[k].id
            && exists i :: 0 <= i < |ts| && r.threadId == ts[i].id && Flatten(ts)[k] in ts[i].emails
                 && r.emailLabel == Some(Classification(ts[i].emails, w).emailLabel.Value())
  {
    var ts := Organized(emails).value;
    var rs := Records(ts, w);
    assert ClassifyEmailsSpec(emails, w).classifications == rs;
    RecordsShape(ts, w);
    var i :| 0 <= i < |ts| && Flatten(ts)[k] in ts[i].emails
      && rs[k] == RecordFor(ts[i], Flatten(ts)[k], Classification(ts[i].emails, w));
  }

  /** The dictionary `classify_single_email` returns: a record and its
      `success` flag. */
  datatype SingleResult = SingleResult(record: Record, success: bool)

  /** `classify_single_email`: the e-mail is classified with its context
      as the thread, or, without a (non-empty) context, as a thread of
      one; the record carries that thread's label, confidence and
      reasoning. */
  function ClassifySingleEmail(email: EmailMessage, context: Option<seq<EmailMessage>>, w: World): (r: SingleResult)
    ensures r.success
    ensures r.record.emailId == email.id && r.record.threadId == email.threadId
    ensures r.record.subject == email.subject && r.record.fromEmail == email.fromEmail
    ensures var thread := if context.Some? && context.value != [] then context.value else [email];
      && r.record.threadEmailCount == |thread|
      && r.record.emailLabel == Some(Classification(thread, w).emailLabel.Value())
      && r.record.confidence == Some(Classification(thread, w).confidence)
      && r.record.reasoning == Classification(thread, w).reasoning
  {
    var threadEmails := if context.Some? && context.value != [] then context.value else [email];
    var c := Classification(threadEmails, w);
    SingleResult(Record(email.id, email.threadId, email.subject, email.fromEmail, Some(c.emailLabel.Value()),
                        Some(c.confidence), c.reasoning, |threadEmails|), true)
  }

  /** The confidence buckets of `get_classification_stats`. */
  datatype ConfidenceRanges = ConfidenceRanges(high: nat, medium: nat, low: nat)

  /** The dictionary `get_classification_stats` returns; the confidence
      distribution is the empty dictionary for an empty input. */
  datatype Stats = Stats(
    totalClassifications: nat,
    averageConfidence: real,
    labelDistribution: Counter<string>,
    confidenceDistribution: Option<ConfidenceRanges>)

  /** The confidences of the records that have one. */
  function Confidences(cs: seq<Record>): (r: seq<real>)
    ensures |r| <= |cs|
  {
    if cs == [] then []
    else
      var c := cs[|cs| - 1];
      Confidences(cs[..|cs| - 1]) + (if c.confidence.Some? then [c.confidence.value] else [])
  }

  function SumReals(xs: seq<real>): real {
    if xs == [] then 0.0 else SumReals(xs[..|xs| - 1]) + xs[|xs| - 1]
  }

  /** The bucket of one confidence. */
  function Bump(r: ConfidenceRanges, conf: real): ConfidenceRanges {
    if conf >= 0.8 then r.(high := r.high + 1)
    else if conf >= 0.5 then r.(medium := r.medium + 1)
    else r.(low := r.low + 1)
  }

  function Ranges(confs: seq<real>): ConfidenceRanges {
    if confs == [] then ConfidenceRanges(0, 0, 0)
    else Bump(Ranges(confs[..|confs| - 1]), confs[|confs| - 1])
  }

  /** How many of the confidences are at least t. */
  function AtLeast(confs: seq<real>, t: real): (n: nat)
    ensures n <= |confs|
  {
    if confs == [] then 0
    else AtLeast(confs[..|confs| - 1], t) + (if confs[|confs| - 1] >= t then 1 else 0)
  }

  /** The buckets split the confidences: high counts those of at least 0.8,
      medium those from 0.5 up to 0.8, low the rest. */
  lemma {:induction false} RangesSplit(confs: seq<real>)
    ensures var r := Ranges(confs);
            && r.high == AtLeast(confs, 0.8)
            && r.medium == AtLeast(confs, 0.5) - AtLeast(confs, 0.8)
            && r.low == |confs| - AtLeast(confs, 0.5)
            && r.high + r.medium + r.low == |confs|
  {
    if confs != [] {
      RangesSplit(confs[..|confs| - 1]);
      AtLeastMonotone(confs[..|confs| - 1]);
    }
  }

  lemma {:induction false} AtLeastMonotone(confs: seq<real>)
    ensures AtLeast(confs, 0.8) <= AtLeast(confs, 0.5)
  {
    if confs != [] {
      AtLeastMonotone(confs[..|confs| - 1]);
    }
  }

  /** `get_classification_stats`; the average is not rounded to three
      places. */
  function StatsOf(cs: seq<Record>): Stats {
    if cs == [] then Stats(0, 0.0, Empty(), None)
    else
      var confs := Confidences(cs);
      var average := if confs == [] then 0.0 else SumReals(confs) / |confs| as real;
      Stats(|cs|, average, Tally(cs), Some(Ranges(confs)))
  }

  lemma ConfidencesSnoc(cs: seq<Record>, i: nat)
    requires i < |cs|
    ensures Confidences(cs[..i + 1]) ==
      Confidences(cs[..i]) + (if cs[i].confidence.Some? then [cs[i].confidence.value] else [])
  {
    assert cs[..i + 1][..i] == cs[..i];
  }

  lemma RangesSnoc(confs: seq<real>, k: nat)
    requires k < |confs|
    ensures Ranges(confs[..k + 1]) == Bump(Ranges(confs[..k]), confs[k])
    ensures SumReals(confs[..k + 1]) == SumReals(confs[..k]) + confs[k]
  {
    assert confs[..k + 1][..k] == confs[..k];
  }

  lemma TallyAt(rs: seq<Record>, i: nat)
    requires i < |rs|
    ensures Tally(rs[..i + 1]) == Add(Tally(rs[..i]), LabelOf(rs[i]), 1)
  {
    assert rs[..i + 1][..i] == rs[..i];
  }

  /** `[c['confidence'] for c in classifications if 'confidence' in c]`. */
  method CollectConfidences(cs: seq<Record>) returns (confidences: seq<real>)
    ensures confidences == Confidences(cs)
  {
    confidences := [];
    var i := 0;
    while i < |cs|
      invariant 0 <= i <= |cs|
      invariant confidences == Confidences(cs[..i])
    {
      ConfidencesSnoc(cs, i);
      if cs[i].confidence.Some? {
        confidences := confidences + [cs[i].confidence.value];
      }
      i := i + 1;
    }
    assert cs[..i] == cs;
  }

  /** The label loop of `get_classification_stats`. */
  method CountLabels(cs: seq<Record>) returns (labelCounts: Counter<string>)
    ensures labelCounts == Tally(cs)
  {
    labelCounts := Empty();
    var i := 0;
    while i < |cs|
      invariant 0 <= i <= |cs|
      invariant labelCounts == Tally(cs[..i])
    {
      TallyAt(cs, i);
      var key := cs[i].emailLabel.GetOr("unknown");
      labelCounts := Add(labelCounts, key, 1);
      i := i + 1;
    }
    assert cs[..i] == cs;
  }

  /** `sum(confidences)` and the bucket loop of `get_classification_stats`. */
  method SumAndBucket(confidences: seq<real>) returns (total: real, ranges: ConfidenceRanges)
    ensures total == SumReals(confidences) && ranges == Ranges(confidences)
  {
    total := 0.0;
    ranges := ConfidenceRanges(0, 0, 0);
    var k := 0;
    while k < |confidences|
      invariant 0 <= k <= |confidences|
      invariant total == SumReals(confidences[..k])
      invariant ranges == Ranges(confidences[..k])
    {
      var conf := confidences[k];
      RangesSnoc(confidences, k);
      total := total + conf;
      if conf >= 0.8 {
        ranges := ranges.(high := ranges.high + 1);
      } else if conf >= 0.5 {
        ranges := ranges.(medium := ranges.medium + 1);
      } else {
        ranges := ranges.(low := ranges.low + 1);
      }
      k := k + 1;
    }
    assert confidences[..k] == confidences;
  }

  /** `get_classification_stats` as the loops it is. */
  method GetClassificationStats(cs: seq<Record>) returns (s: Stats)
    ensures s == StatsOf(cs)
  {
    if cs == [] {
      return Stats(0, 0.0, Empty(), None);
    }
    var confidences := CollectConfidences(cs);
    var labels := CountLabels(cs);
    var total, ranges := SumAndBucket(confidences);
    var average := if confidences == [] then 0.0 else total / |confidences| as real;
    s := Stats(|cs|, average, labels, Some(ranges));
  }

  /** The statistics of a non-empty list: the label counts add up to the
      number of records, and the three confidence buckets to the number of
      records that have a confidence. */
  lemma StatsTotals(cs: seq<Record>)
    requires cs != []
    ensures var s := StatsOf(cs);
            var r := s.confidenceDistribution.value;
            && s.totalClassifications == |cs|
            && Total(s.labelDistribution) == |cs|
            && r.high + r.medium + r.low == |Confidences(cs)| <= |cs|
  {
    RangesSplit(Confidences(cs));
  }

  /** `c.get('label') == name`. */
  predicate HasLabel(c: Record, name: string) {
    c.emailLabel == Some(name)
  }

  /** `c.get('label') in ['to do', 'awaiting reply']`. */
  predicate Actionable(c: Record) {
    HasLabel(c, "to do") || HasLabel(c, "awaiting reply")
  }

  /** `filter_by_label`. */
  function FilterByLabel(cs: seq<Record>, name: string): (r: seq<Record>)
    ensures forall c :: c in r <==> c in cs && c.emailLabel == Some(name)
  {
    Filter(cs, (c: Record) => HasLabel(c, name))
  }

  /** `get_actionable_emails`: the records labelled to do or awaiting reply. */
  function ActionableEmails(cs: seq<Record>): (r: seq<Record>)
    ensures forall c :: c in r <==> c in cs && (c.emailLabel == Some("to do") || c.emailLabel == Some("awaiting reply"))
  {
    Filter(cs, Actionable)
  }

  /** `get_inbox_emails`: only the records labelled to do. */
  function InboxEmails(cs: seq<Record>): (r: seq<Record>)
    ensures forall c :: c in r <==> c in cs && c.emailLabel == Some("to do")
  {
    Filter(cs, (c: Record) => HasLabel(c, "to do"))
  }

  /** The actionable records are the to-do records and the awaiting-reply
      records, nothing else; the inbox ones are among them. */
  lemma ActionableSplit(cs: seq<Record>)
    ensures |ActionableEmails(cs)| == |FilterByLabel(cs, "to do")| + |FilterByLabel(cs, "awaiting reply")|
    ensures InboxEmails(cs) == FilterByLabel(cs, "to do")
    ensures forall c :: c in InboxEmails(cs) ==> c in ActionableEmails(cs)
  {
    FilterSplit(cs, Actionable, (c: Record) => HasLabel(c, "to do"), (c: Record) => HasLabel(c, "awaiting reply"));
  }
}
