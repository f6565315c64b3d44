/** The day-count rule for the age of an e-mail
    (agents/history_checker_agent.py): the offset of an aware date is
    dropped without conversion, the age is counted in whole days rounded
    down, and an e-mail is history when that count reaches the threshold.
    The local wall clock `nowLocal` is a parameter. */
module HistoryChecker {
  import opened Wrappers
  import opened Text
  import opened Collections
  import opened EmailModels
  import DateUtils

  /** The dictionary `check_email_age` returns. */
  datatype AgeCheck = AgeCheck(
    emailId: string,
    subject: string,
    emailDate: DateTime,
    daysOld: int,
    isHistory: bool,
    thresholdDays: int,
    reasoning: string)

  /** The dictionary `check_multiple_emails` returns. */
  datatype MultipleCheck = MultipleCheck(
    totalEmails: nat,
    historyEmails: nat,
    recentEmails: nat,
    historyEmailIds: seq<string>,
    recentEmailIds: seq<string>,
    ageResults: seq<AgeCheck>,
    thresholdDays: int)

  /** The six buckets of `age_distribution`. */
  datatype AgeDistribution = AgeDistribution(
    zeroToOne: nat, twoToThree: nat, fourToSeven: nat,
    eightToFourteen: nat, fifteenToThirty: nat, overThirty: nat)

  /** The dictionary `get_age_statistics` returns; the average is exact. */
  datatype AgeStatistics = AgeStatistics(
    totalEmails: nat,
    distribution: AgeDistribution,
    averageAgeDays: real,
    oldestEmailDays: int,
    newestEmailDays: int)

  /** The day-count rule: at least `threshold` whole days old. */
  predicate IsHistoryAt(e: EmailMessage, nowLocal: int, threshold: int) {
    DaysSince(nowLocal, e.date) >= threshold
  }

  /** `_get_age_reasoning`. */
  function AgeReasoning(daysOld: int, isHistory: bool, threshold: int): string {
    if isHistory then
      "Email is " + IntToString(daysOld) + " days old, which exceeds the " + IntToString(threshold)
      + "-day threshold. Automatically classified as 'history'."
    else
      "Email is " + IntToString(daysOld) + " days old, which is within the " + IntToString(threshold)
      + "-day threshold. Eligible for AI classification."
  }

  function HistoryOf(emails: seq<EmailMessage>, nowLocal: int, threshold: int): seq<EmailMessage> {
    Filter(emails, (e: EmailMessage) => IsHistoryAt(e, nowLocal, threshold))
  }

  function RecentOf(emails: seq<EmailMessage>, nowLocal: int, threshold: int): seq<EmailMessage> {
    Filter(emails, (e: EmailMessage) => !IsHistoryAt(e, nowLocal, threshold))
  }

  lemma HistoryOfSnoc(es: seq<EmailMessage>, i: nat, nowLocal: int, threshold: int)
    requires i < |es|
    ensures HistoryOf(es[..i + 1], nowLocal, threshold)
         == HistoryOf(es[..i], nowLocal, threshold) + (if IsHistoryAt(es[i], nowLocal, threshold) then [es[i]] else [])
    ensures RecentOf(es[..i + 1], nowLocal, threshold)
         == RecentOf(es[..i], nowLocal, threshold) + (if IsHistoryAt(es[i], nowLocal, threshold) then [] else [es[i]])
  {
    FilterSnoc(es, i, (e: EmailMessage) => IsHistoryAt(e, nowLocal, threshold));
    FilterSnoc(es, i, (e: EmailMessage) => !IsHistoryAt(e, nowLocal, threshold));
  }

  function EmailIds(es: seq<EmailMessage>): seq<string> {
    seq(|es|, i requires 0 <= i < |es| => es[i].id)
  }

  /** The ages in whole days, in input order. */
  function Ages(emails: seq<EmailMessage>, nowLocal: int): seq<int> {
    seq(|emails|, i requires 0 <= i < |emails| => DaysSince(nowLocal, emails[i].date))
  }

  /** The bucket of the `if`/`elif` chain an age falls into, 0 to 5. */
  function Bucket(age: int): (b: nat)
    ensures b <= 5
    ensures b == 0 <==> age <= 1
    ensures b == 1 <==> 1 < age <= 3
    ensures b == 2 <==> 3 < age <= 7
    ensures b == 3 <==> 7 < age <= 14
    ensures b == 4 <==> 14 < age <= 30
    ensures b == 5 <==> 30 < age
  {
    if age <= 1 then 0
    else if age <= 3 then 1
    else if age <= 7 then 2
    else if age <= 14 then 3
    else if age <= 30 then 4
    else 5
  }

  function Tally(d: AgeDistribution, b: nat): AgeDistribution {
    if b == 0 then d.(zeroToOne := d.zeroToOne + 1)
    else if b == 1 then d.(twoToThree := d.twoToThree + 1)
    else if b == 2 then d.(fourToSeven := d.fourToSeven + 1)
    else if b == 3 then d.(eightToFourteen := d.eightToFourteen + 1)
    else if b == 4 then d.(fifteenToThirty := d.fifteenToThirty + 1)
    else d.(overThirty := d.overThirty + 1)
  }

  function Distribution(ages: seq<int>): AgeDistribution {
    if ages == [] then AgeDistribution(0, 0, 0, 0, 0, 0)
    else Tally(Distribution(ages[..|ages| - 1]), Bucket(ages[|ages| - 1]))
  }

  function BucketTotal(d: AgeDistribution): nat {
    d.zeroToOne + d.twoToThree + d.fourToSeven + d.eightToFourteen + d.fifteenToThirty + d.overThirty
  }

  function SumAges(ages: seq<int>): int {
    if ages == [] then 0 else SumAges(ages[..|ages| - 1]) + ages[|ages| - 1]
  }

  /** What `get_age_statistics` returns for the given ages. */
  function AgeStatisticsOf(ages: seq<int>): AgeStatistics {
    if ages == [] then AgeStatistics(0, AgeDistribution(0, 0, 0, 0, 0, 0), 0.0, 0, 0)
    else AgeStatistics(|ages|, Distribution(ages), SumAges(ages) as real / |ages| as real,
                       Max(ages), Min(ages))
  }

  /** `check_email_age` for a given threshold. No step of it can raise on
      dates within Python's range, so its error branch is not modelled. */
  function CheckAge(e: EmailMessage, nowLocal: int, threshold: int): (r: AgeCheck)
    ensures r.emailId == e.id && r.subject == e.subject && r.emailDate == e.date
    ensures r.daysOld == DaysSince(nowLocal, e.date) && r.thresholdDays == threshold
    ensures r.isHistory <==> IsHistoryAt(e, nowLocal, threshold)
    ensures r.reasoning == AgeReasoning(r.daysOld, r.isHistory, threshold)
  {
    var daysOld := DaysSince(nowLocal, e.date);
    var isHistory := daysOld >= threshold;
    AgeCheck(e.id, e.subject, e.date, daysOld, isHistory, threshold, AgeReasoning(daysOld, isHistory, threshold))
  }

  /** The `age_results` list: one check per e-mail, in input order. */
  function AgeChecks(emails: seq<EmailMessage>, nowLocal: int, threshold: int): seq<AgeCheck> {
    if emails == [] then []
    else AgeChecks(emails[..|emails| - 1], nowLocal, threshold) + [CheckAge(emails[|emails| - 1], nowLocal, threshold)]
  }

  lemma {:induction false} AgeChecksPointwise(emails: seq<EmailMessage>, nowLocal: int, threshold: int)
    ensures |AgeChecks(emails, nowLocal, threshold)| == |emails|
    ensures forall i :: 0 <= i < |emails| ==>
      AgeChecks(emails, nowLocal, threshold)[i] == CheckAge(emails[i], nowLocal, threshold)
  {
    if emails != [] {
      var init := emails[..|emails| - 1];
      AgeChecksPointwise(init, nowLocal, threshold);
      forall i | 0 <= i < |init|
        ensures AgeChecks(emails, nowLocal, threshold)[i] == CheckAge(emails[i], nowLocal, threshold)
      {
        assert emails[i] == init[i];
      }
    }
  }

  class HistoryCheckerAgent {
    var historyThresholdDays: int

    constructor ()
      ensures historyThresholdDays == 7
    {
      historyThresholdDays := 7;
    }

    /** `check_email_age` with the agent's current threshold. */
    function CheckEmailAge(e: EmailMessage, nowLocal: int): AgeCheck
      reads this
    {
      CheckAge(e, nowLocal, historyThresholdDays)
    }

    /** `check_multiple_emails`. */
    method CheckMultipleEmails(emails: seq<EmailMessage>, nowLocal: int) returns (r: MultipleCheck)
      ensures r.totalEmails == |emails| && r.thresholdDays == historyThresholdDays
      ensures r.historyEmailIds == EmailIds(HistoryOf(emails, nowLocal, historyThresholdDays))
      ensures r.recentEmailIds == EmailIds(RecentOf(emails, nowLocal, historyThresholdDays))
      ensures r.historyEmails == |r.historyEmailIds| && r.recentEmails == |r.recentEmailIds|
      ensures r.ageResults == AgeChecks(emails, nowLocal, historyThresholdDays)
    {
      var th := historyThresholdDays;
      var history: seq<EmailMessage> := [];
      var recent: seq<EmailMessage> := [];
      var results: seq<AgeCheck> := [];
      var i := 0;
      while i < |emails|
        invariant 0 <= i <= |emails|
        invariant history == HistoryOf(emails[..i], nowLocal, th)
        invariant recent == RecentOf(emails[..i], nowLocal, th)
        invariant results == AgeChecks(emails[..i], nowLocal, th)
      {
        var e := emails[i];
        var check := CheckAge(e, nowLocal, th);
        assert results + [check] == AgeChecks(emails[..i + 1], nowLocal, th) by {
          assert emails[..i + 1][..i] == emails[..i];
        }
        results := results + [check];
        HistoryOfSnoc(emails, i, nowLocal, th);
        if check.isHistory {
          history := history + [e];
        } else {
          recent := recent + [e];
        }
        i := i + 1;
      }
      assert emails[..i] == emails;
      r := MultipleCheck(|emails|, |history|, |recent|, EmailIds(history), EmailIds(recent), results, th);
    }

    /** `get_history_emails`. */
    method GetHistoryEmails(emails: seq<EmailMessage>, nowLocal: int) returns (r: seq<EmailMessage>)
      ensures r == HistoryOf(emails, nowLocal, historyThresholdDays)
    {
      r := [];
      var i := 0;
      while i < |emails|
        invariant 0 <= i <= |emails|
        invariant r == HistoryOf(emails[..i], nowLocal, historyThresholdDays)
      {
        var e := emails[i];
        HistoryOfSnoc(emails, i, nowLocal, historyThresholdDays);
        if CheckEmailAge(e, nowLocal).isHistory {
          r := r + [e];
        }
        i := i + 1;
      }
      assert emails[..i] == emails;
    }

    /** `get_recent_emails`. */
    method GetRecentEmails(emails: seq<EmailMessage>, nowLocal: int) returns (r: seq<EmailMessage>)
      ensures r == RecentOf(emails, nowLocal, historyThresholdDays)
    {
      r := [];
      var i := 0;
      while i < |emails|
        invariant 0 <= i <= |emails|
        invariant r == RecentOf(emails[..i], nowLocal, historyThresholdDays)
      {
        var e := emails[i];
        HistoryOfSnoc(emails, i, nowLocal, historyThresholdDays);
        if !CheckEmailAge(e, nowLocal).isHistory {
          r := r + [e];
        }
        i := i + 1;
      }
      assert emails[..i] == emails;
    }

    /** `set_history_threshold`: every later check uses the new value. */
    method SetHistoryThreshold(days: int)
      modifies this
      ensures historyThresholdDays == days
    {
      historyThresholdDays := days;
    }

    /** `get_age_statistics`. */
    method GetAgeStatistics(emails: seq<EmailMessage>, nowLocal: int) returns (r: AgeStatistics)
      ensures r == AgeStatisticsOf(Ages(emails, nowLocal))
    {
      if emails == [] {
        return AgeStatistics(0, AgeDistribution(0, 0, 0, 0, 0, 0), 0.0, 0, 0);
      }
      var ages: seq<int> := [];
      var dist := AgeDistribution(0, 0, 0, 0, 0, 0);
      var i := 0;
      while i < |emails|
        invariant 0 <= i <= |emails|
        invariant ages == Ages(emails[..i], nowLocal)
        invariant dist == Distribution(ages)
      {
        var daysOld := DaysSince(nowLocal, emails[i].date);
        assert Ages(emails[..i + 1], nowLocal) == ages + [daysOld];
        ages := ages + [daysOld];
        assert ages[..|ages| - 1] == Ages(emails[..i], nowLocal);
        if daysOld <= 1 {
          dist := dist.(zeroToOne := dist.zeroToOne + 1);
        } else if daysOld <= 3 {
          dist := dist.(twoToThree := dist.twoToThree + 1);
        } else if daysOld <= 7 {
          dist := dist.(fourToSeven := dist.fourToSeven + 1);
        } else if daysOld <= 14 {
          dist := dist.(eightToFourteen := dist.eightToFourteen + 1);
        } else if daysOld <= 30 {
          dist := dist.(fifteenToThirty := dist.fifteenToThirty + 1);
        } else {
          dist := dist.(overThirty := dist.overThirty + 1);
        }
        i := i + 1;
      }
      assert emails[..i] == emails;
      r := AgeStatistics(|emails|, dist, SumAges(ages) as real / |ages| as real, Max(ages), Min(ages));
    }
  }

  /** `days_old` is the age rounded down to whole days. */
  lemma DaysSinceFloor(nowLocal: int, d: DateTime)
    ensures DaysSince(nowLocal, d) * SecondsPerDay <= nowLocal - d.wall < (DaysSince(nowLocal, d) + 1) * SecondsPerDay
  {
  }

  /** The offset is dropped, not converted: two dates with the same wall
      clock are judged alike whatever their offsets. */
  lemma OffsetIgnored(e: EmailMessage, offset: Option<int>, nowLocal: int, threshold: int)
    ensures IsHistoryAt(e, nowLocal, threshold)
        == IsHistoryAt(e.(date := DateTime(e.date.wall, offset)), nowLocal, threshold)
  {
  }

  /** An e-mail exactly `threshold` days old is history; one second
      younger, it is not. */
  lemma DayCountBoundary(e: EmailMessage, nowLocal: int, threshold: int)
    requires e.date.wall == nowLocal - threshold * SecondsPerDay
    ensures IsHistoryAt(e, nowLocal, threshold)
    ensures !IsHistoryAt(e.(date := DateTime(e.date.wall + 1, e.date.offset)), nowLocal, threshold)
  {
  }

  /** The two age rules disagree on a date exactly N days old on the UTC
      clock: the day-count rule calls it history, the instant rule in
      utils/date_utils.py does not. */
  lemma RulesDisagreeAtBoundary(e: EmailMessage, nowUtc: int, threshold: int)
    requires e.date.offset.None? && e.date.wall == nowUtc - threshold * SecondsPerDay
    ensures IsHistoryAt(e, nowUtc, threshold)
    ensures !DateUtils.IsOlderThanDays(e.date, threshold, nowUtc)
  {
  }

  /** Every e-mail lands in exactly one of the history and recent lists,
      which keep input order and together have all the e-mails. */
  lemma HistoryRecentPartition(emails: seq<EmailMessage>, nowLocal: int, threshold: int)
    ensures |HistoryOf(emails, nowLocal, threshold)| + |RecentOf(emails, nowLocal, threshold)| == |emails|
    ensures forall e :: e in emails ==>
      (e in HistoryOf(emails, nowLocal, threshold) <==> IsHistoryAt(e, nowLocal, threshold))
      && (e in RecentOf(emails, nowLocal, threshold) <==> !IsHistoryAt(e, nowLocal, threshold))
  {
    FilterComplement(emails, (e: EmailMessage) => IsHistoryAt(e, nowLocal, threshold),
                     (e: EmailMessage) => !IsHistoryAt(e, nowLocal, threshold));
  }

  /** Each age is counted in exactly one bucket. */
  lemma {:induction false} DistributionTotal(ages: seq<int>)
    ensures BucketTotal(Distribution(ages)) == |ages|
  {
    if ages != [] {
      DistributionTotal(ages[..|ages| - 1]);
    }
  }

  /** The buckets add up to the number of e-mails. */
  lemma AgeStatisticsTotal(emails: seq<EmailMessage>, nowLocal: int)
    ensures AgeStatisticsOf(Ages(emails, nowLocal)).totalEmails == |emails|
    ensures BucketTotal(AgeStatisticsOf(Ages(emails, nowLocal)).distribution) == |emails|
  {
    DistributionTotal(Ages(emails, nowLocal));
  }

  /** The oldest age is at least the newest, and together they bound the age
      of every e-mail. */
  lemma AgeStatisticsRange(emails: seq<EmailMessage>, nowLocal: int)
    ensures var st := AgeStatisticsOf(Ages(emails, nowLocal));
      && st.newestEmailDays <= st.oldestEmailDays
      && (forall i :: 0 <= i < |emails| ==>
            st.newestEmailDays <= DaysSince(nowLocal, emails[i].date) <= st.oldestEmailDays)
  {
    var ages := Ages(emails, nowLocal);
    if ages != [] {
      var lo, hi := Min(ages), Max(ages);
      assert lo <= ages[0] <= hi;
      forall i | 0 <= i < |emails|
        ensures lo <= DaysSince(nowLocal, emails[i].date) <= hi
      {
        assert ages[i] == DaysSince(nowLocal, emails[i].date);
      }
    }
  }
}
