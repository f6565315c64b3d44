/** The records every component shares: the six labels, an e-mail message,
    the result of classifying a thread and the summary of a thread
    (models/email_models.py, models/response_models.py). */
module EmailModels {
  import opened Wrappers

  /** The six labels, each with its string value. */
  datatype EmailLabel = ToDo | AwaitingReply | Fyi | Done | Spam | History {
    function Value(): string {
      match this
      case ToDo => "to do"
      case AwaitingReply => "awaiting reply"
      case Fyi => "fyi"
      case Done => "done"
      case Spam => "spam"
      case History => "history"
    }
  }

  const AllLabels: seq<EmailLabel> := [ToDo, AwaitingReply, Fyi, Done, Spam, History]

  /** `EmailLabel(v)`: the member whose value is v, if there is one. */
  function LabelFromValue(v: string): (r: Option<EmailLabel>)
    ensures r.Some? ==> r.value.Value() == v
    ensures forall l: EmailLabel :: l.Value() == v ==> r == Some(l)
  {
    if v == "to do" then Some(ToDo)
    else if v == "awaiting reply" then Some(AwaitingReply)
    else if v == "fyi" then Some(Fyi)
    else if v == "done" then Some(Done)
    else if v == "spam" then Some(Spam)
    else if v == "history" then Some(History)
    else None
  }

  /** There are exactly six labels and their values are distinct. */
  lemma LabelsDistinct()
    ensures |AllLabels| == 6
    ensures forall l: EmailLabel :: l in AllLabels
    ensures forall i, j :: 0 <= i < j < |AllLabels| ==> AllLabels[i].Value() != AllLabels[j].Value()
  {
    forall l: EmailLabel
      ensures l in AllLabels
    {
      match l
      case ToDo => assert AllLabels[0] == l;
      case AwaitingReply => assert AllLabels[1] == l;
      case Fyi => assert AllLabels[2] == l;
      case Done => assert AllLabels[3] == l;
      case Spam => assert AllLabels[4] == l;
      case History => assert AllLabels[5] == l;
    }
  }

  /** A date and time, counted in seconds from 0001-01-01 00:00 on the wall
      clock it was written in. A naive datetime has no offset; an aware one
      carries its offset from UTC in seconds. */
  datatype DateTime = DateTime(wall: int, offset: Option<int>)

  /** The last second of the year 9999 (3652059 days after 0001-01-01). */
  const MaxWall: int := 3652059 * 86400 - 1

  const SecondsPerDay: int := 86400

  predicate IsAware(d: DateTime) {
    d.offset.Some?
  }

  /** The moment a datetime denotes, in seconds on the UTC clock; a naive
      datetime is read as UTC. */
  function Instant(d: DateTime): int {
    d.wall - d.offset.GetOr(0)
  }

  /** `(datetime.now() - d).days` where `nowLocal` is the local wall clock in
      seconds and d is naive or has had its offset dropped: whole days,
      rounded down (Dafny's division by a positive number rounds down, as
      `timedelta.days` does). */
  function DaysSince(nowLocal: int, d: DateTime): int {
    (nowLocal - d.wall) / SecondsPerDay
  }

  /** An e-mail; `cc_emails` and `bcc_emails` may be `None`. */
  datatype EmailMessage = EmailMessage(
    id: string,
    threadId: string,
    fromEmail: string,
    toEmails: seq<string>,
    ccEmails: Option<seq<string>>,
    bccEmails: Option<seq<string>>,
    subject: string,
    content: string,
    date: DateTime,
    labels: seq<string>,
    isThreadLatest: bool)

  /** `EmailMessage(id=..., ...)` given only the fields that have no default. */
  function NewEmailMessage(id: string, threadId: string, fromEmail: string, toEmails: seq<string>,
                           subject: string, content: string, date: DateTime): (e: EmailMessage)
    ensures e.id == id && e.threadId == threadId && e.fromEmail == fromEmail && e.toEmails == toEmails
    ensures e.subject == subject && e.content == content && e.date == date
    ensures e.ccEmails == Some([]) && e.bccEmails == Some([])
    ensures e.labels == [] && !e.isThreadLatest
  {
    EmailMessage(id, threadId, fromEmail, toEmails, Some([]), Some([]), subject, content, date, [], false)
  }

  /** Python refuses to order a naive datetime against an aware one
      (`TypeError`); a list of dates can be sorted, or its maximum taken,
      exactly when its dates are all naive or all aware. */
  predicate Comparable(s: seq<EmailMessage>) {
    forall i, j :: 0 <= i < |s| && 0 <= j < |s| ==> IsAware(s[i].date) == IsAware(s[j].date)
  }

  const CompareError: string := "can't compare offset-naive and offset-aware datetimes"

  /** The result of classifying one e-mail. */
  datatype EmailClassificationResponse = EmailClassificationResponse(
    emailId: string,
    emailLabel: EmailLabel,
    confidence: real,
    reasoning: string)

  /** The result of classifying one thread. */
  datatype ThreadClassificationResponse = ThreadClassificationResponse(
    threadId: string,
    emailLabel: EmailLabel,
    confidence: real,
    reasoning: string,
    emailCount: int)

  /** The summary of one thread; the two dates are ISO-8601 strings. */
  datatype ThreadInfo = ThreadInfo(
    threadId: string,
    emails: seq<EmailMessage>,
    participants: set<string>,
    subject: string,
    startDate: string,
    lastActivity: string,
    emailCount: int)
}
