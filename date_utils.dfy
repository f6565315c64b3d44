/** The instant rule for the age of an e-mail (utils/date_utils.py): a date is
    older than d days when it lies strictly before the moment d days before
    now. The current time is a parameter, `nowUtc`, on the UTC clock. */
module DateUtils {
  import opened Wrappers
  import opened EmailModels

  /** `get_days_ago(days)`: the aware UTC datetime `days` days before now. */
  function GetDaysAgo(days: int, nowUtc: int): (r: DateTime)
    ensures IsAware(r) && r.offset == Some(0)
    ensures nowUtc - Instant(r) == days * SecondsPerDay
  {
    DateTime(nowUtc - days * SecondsPerDay, Some(0))
  }

  /** `is_older_than_days(date, days)`: a naive date is read as UTC. */
  function IsOlderThanDays(date: DateTime, days: int, nowUtc: int): (r: bool)
    ensures r <==> nowUtc - Instant(date) > days * SecondsPerDay
  {
    var threshold := GetDaysAgo(days, nowUtc);
    var d := if date.offset.None? then DateTime(date.wall, Some(0)) else date;
    Instant(d) < Instant(threshold)
  }

  /** The rule is the comparison against `get_days_ago` taken at the same
      moment. */
  lemma OlderIffBeforeDaysAgo(date: DateTime, days: int, nowUtc: int)
    ensures IsOlderThanDays(date, days, nowUtc) <==> Instant(date) < Instant(GetDaysAgo(days, nowUtc))
  {
  }

  /** A date exactly d days old is not older than d days: the comparison is
      strict. One second more is. */
  lemma ExactlyDaysOldIsNotOlder(date: DateTime, days: int, nowUtc: int)
    requires Instant(date) == nowUtc - days * SecondsPerDay
    ensures !IsOlderThanDays(date, days, nowUtc)
    ensures IsOlderThanDays(DateTime(date.wall - 1, date.offset), days, nowUtc)
  {
  }

  /** Older than d days implies older than any fewer days. */
  lemma OlderMonotone(date: DateTime, days: int, fewer: int, nowUtc: int)
    requires IsOlderThanDays(date, days, nowUtc) && fewer <= days
    ensures IsOlderThanDays(date, fewer, nowUtc)
  {
  }

  /** A naive date is judged as the same wall time in UTC. */
  lemma NaiveReadAsUtc(wall: int, days: int, nowUtc: int)
    ensures IsOlderThanDays(DateTime(wall, None), days, nowUtc)
         == IsOlderThanDays(DateTime(wall, Some(0)), days, nowUtc)
  {
  }
}
