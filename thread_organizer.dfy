/** Grouping e-mails into threads and summarising the threads
    (utils/thread_organizer.py). A dictionary of threads maps a thread id to
    its e-mails, in the order in which the thread ids were first seen. */
module ThreadOrganizer {
  import opened Wrappers
  import opened Text
  import opened Collections
  import opened Sorting
  import opened EmailModels

  /** One entry of a dictionary of threads. */
  datatype Thread = Thread(id: string, emails: seq<EmailMessage>)

  /** A dictionary of threads: its entries in insertion order. */
  type Threads = seq<Thread>

  /** The key of `sort(key=lambda x: x.date)`. */
  predicate DateLe(a: EmailMessage, b: EmailMessage) {
    Instant(a.date) <= Instant(b.date)
  }

  lemma DateLeTotalPreorder()
    ensures TotalPreorder(DateLe)
  {
  }

  function SortByDate(s: seq<EmailMessage>): (r: seq<EmailMessage>)
    ensures multiset(r) == multiset(s) && |r| == |s|
  {
    assert |multiset(SortBy(s, DateLe))| == |multiset(s)|;
    SortBy(s, DateLe)
  }

  /** The sorted list is ordered by date and keeps e-mails of equal date in
      their input order. */
  lemma SortByDateSortedStable(s: seq<EmailMessage>, y: EmailMessage)
    ensures Sorted(SortByDate(s), DateLe)
    ensures Ties(SortByDate(s), y, DateLe) == Ties(s, y, DateLe)
  {
    DateLeTotalPreorder();
    SortBySorted(s, DateLe);
    SortByStable(s, y, DateLe);
  }

  // ---------------------------------------------------------------------
  // organize_emails_by_thread

  /** The e-mails of thread t, in input order. */
  function ThreadEmails(s: seq<EmailMessage>, t: string): (r: seq<EmailMessage>)
    ensures |r| <= |s|
  {
    if s == [] then []
    else ThreadEmails(s[..|s| - 1], t) + (if s[|s| - 1].threadId == t then [s[|s| - 1]] else [])
  }

  /** A thread holds exactly the e-mails that carry its id. */
  lemma {:induction false} ThreadEmailsMembers(s: seq<EmailMessage>, t: string)
    ensures forall e :: e in ThreadEmails(s, t) <==> e in s && e.threadId == t
  {
    if s != [] {
      ThreadEmailsMembers(s[..|s| - 1], t);
      assert s == s[..|s| - 1] + [s[|s| - 1]];
    }
  }

  /** The distinct thread ids of s, in order of first occurrence. */
  function ThreadOrder(s: seq<EmailMessage>): (r: seq<string>)
    ensures Distinct(r)
  {
    if s == [] then []
    else
      var o := ThreadOrder(s[..|s| - 1]);
      var e := s[|s| - 1];
      if e.threadId in o then o else o + [e.threadId]
  }

  /** The order lists a thread id exactly when that thread has e-mails. */
  lemma {:induction false} ThreadOrderMembers(s: seq<EmailMessage>, t: string)
    ensures t in ThreadOrder(s) <==> ThreadEmails(s, t) != []
  {
    if s != [] {
      ThreadOrderMembers(s[..|s| - 1], t);
    }
  }

  /** The index of the first e-mail of thread t, or |s| if there is none. */
  function FirstIndex(s: seq<EmailMessage>, t: string): (f: nat)
    ensures f <= |s|
    ensures f < |s| ==> s[f].threadId == t
    ensures forall k :: 0 <= k < f ==> s[k].threadId != t
  {
    if s == [] then 0
    else
      var f := FirstIndex(s[..|s| - 1], t);
      if f < |s| - 1 || s[|s| - 1].threadId == t then f else |s|
  }

  /** The ids of the threads, in dictionary order. */
  function Ids(ts: Threads): (r: seq<string>)
    ensures |r| == |ts|
    ensures forall i :: 0 <= i < |ts| ==> r[i] == ts[i].id
  {
    if ts == [] then [] else [ts[0].id] + Ids(ts[1..])
  }

  /** Where thread t sits in the dictionary, if it is there. */
  function Find(ts: Threads, t: string): (r: Option<nat>)
    ensures r.Some? ==> r.value < |ts| && ts[r.value].id == t
    ensures r.None? ==> forall i :: 0 <= i < |ts| ==> ts[i].id != t
    ensures r.None? ==> t !in Ids(ts)
  {
    if ts == [] then None
    else if ts[|ts| - 1].id == t then Some(|ts| - 1)
    else Find(ts[..|ts| - 1], t)
  }

  /** The threads of s before their e-mails are sorted. */
  function Grouped(s: seq<EmailMessage>): (g: Threads)
    ensures Ids(g) == ThreadOrder(s)
  {
    var order := ThreadOrder(s);
    seq(|order|, i requires 0 <= i < |order| => Thread(order[i], ThreadEmails(s, order[i])))
  }

  predicate ThreadsComparable(ts: Threads) {
    forall i :: 0 <= i < |ts| ==> Comparable(ts[i].emails)
  }

  /** Every thread of ts sorted by date. */
  function SortThreads(ts: Threads): (r: Threads)
    ensures |r| == |ts|
    ensures forall i :: 0 <= i < |ts| ==> r[i] == Thread(ts[i].id, SortByDate(ts[i].emails))
  {
    seq(|ts|, i requires 0 <= i < |ts| => Thread(ts[i].id, SortByDate(ts[i].emails)))
  }

  /** What `organize_emails_by_thread` returns: the threads in order of first
      occurrence, each sorted by date, or the `TypeError` of a sort that
      meets a naive and an aware date in one thread. */
  function Organized(s: seq<EmailMessage>): (r: Result<Threads>)
    ensures r.Success? <==> ThreadsComparable(Grouped(s))
    ensures r.Failure? ==> r.error == CompareError
    ensures r.Success? ==> |r.value| == |Grouped(s)|
    ensures r.Success? ==> forall i :: 0 <= i < |r.value| ==>
      r.value[i].id == Grouped(s)[i].id && multiset(r.value[i].emails) == multiset(Grouped(s)[i].emails)
  {
    var g := Grouped(s);
    if ThreadsComparable(g) then Success(SortThreads(g)) else Failure(CompareError)
  }

  lemma ThreadEmailsSnoc(s: seq<EmailMessage>, e: EmailMessage, t: string)
    ensures ThreadEmails(s + [e], t) == ThreadEmails(s, t) + (if e.threadId == t then [e] else [])
  {
    assert (s + [e])[..|s + [e]| - 1] == s;
  }

  lemma ThreadOrderSnoc(s: seq<EmailMessage>, e: EmailMessage)
    ensures ThreadOrder(s + [e]) == if e.threadId in ThreadOrder(s) then ThreadOrder(s) else ThreadOrder(s) + [e.threadId]
  {
    assert (s + [e])[..|s + [e]| - 1] == s;
  }

  /** An e-mail of a thread already in the dictionary joins that thread. */
  lemma GroupedStepExisting(s: seq<EmailMessage>, e: EmailMessage, k: nat)
    requires k < |Grouped(s)| && Grouped(s)[k].id == e.threadId
    ensures Grouped(s + [e]) == Grouped(s)[k := Thread(e.threadId, Grouped(s)[k].emails + [e])]
  {
    var t0, o := e.threadId, ThreadOrder(s);
    var g, h := Grouped(s), Grouped(s + [e]);
    var g2 := g[k := Thread(t0, g[k].emails + [e])];
    assert Ids(g)[k] == t0;
    ThreadOrderSnoc(s, e);
    assert ThreadOrder(s + [e]) == o;
    forall i | 0 <= i < |h|
      ensures h[i] == g2[i]
    {
      ThreadEmailsSnoc(s, e, o[i]);
      assert i != k ==> o[i] != o[k];
    }
  }

  /** The first e-mail of a thread opens a new thread at the end. */
  lemma GroupedStepNew(s: seq<EmailMessage>, e: EmailMessage)
    requires e.threadId !in Ids(Grouped(s))
    ensures Grouped(s + [e]) == Grouped(s) + [Thread(e.threadId, [e])]
  {
    var t0, o := e.threadId, ThreadOrder(s);
    var g, h := Grouped(s), Grouped(s + [e]);
    var o' := o + [t0];
    ThreadOrderSnoc(s, e);
    ThreadOrderMembers(s, t0);
    assert ThreadOrder(s + [e]) == o';
    forall i | 0 <= i < |h|
      ensures h[i] == (g + [Thread(t0, [e])])[i]
    {
      assert h[i] == Thread(o'[i], ThreadEmails(s + [e], o'[i]));
      ThreadEmailsSnoc(s, e, o'[i]);
      if i < |g| {
        assert o'[i] == o[i] != t0;
      }
    }
  }

  /** One pass of the grouping loop: the e-mail joins its thread, which is
      created at the end of the dictionary if it is new. */
  lemma GroupedStep(s: seq<EmailMessage>, e: EmailMessage)
    ensures
      var g := Grouped(s);
      var g1 := if Find(g, e.threadId).None? then g + [Thread(e.threadId, [])] else g;
      var k := Find(g1, e.threadId).value;
      g1[k := Thread(e.threadId, g1[k].emails + [e])] == Grouped(s + [e])
  {
    var g := Grouped(s);
    match Find(g, e.threadId)
    case None =>
      var g1 := g + [Thread(e.threadId, [])];
      assert Find(g1, e.threadId) == Some(|g|);
      GroupedStepNew(s, e);
      assert g1[|g| := Thread(e.threadId, [e])] == g + [Thread(e.threadId, [e])];
    case Some(k) =>
      GroupedStepExisting(s, e, k);
  }

  lemma PrefixSnoc<T>(s: seq<T>, i: nat)
    requires i < |s|
    ensures s[..i] + [s[i]] == s[..i + 1]
  {
  }

  /** The first loop of `organize_emails_by_thread`: append each e-mail to
      its thread's list, creating the list on the thread's first e-mail. */
  method GroupEmails(emails: seq<EmailMessage>) returns (threads: Threads)
    ensures threads == Grouped(emails)
  {
    threads := [];
    var i := 0;
    while i < |emails|
      invariant 0 <= i <= |emails|
      invariant threads == Grouped(emails[..i])
    {
      var e := emails[i];
      GroupedStep(emails[..i], e);
      PrefixSnoc(emails, i);
      if Find(threads, e.threadId).None? {
        threads := threads + [Thread(e.threadId, [])];
      }
      var k := Find(threads, e.threadId).value;
      threads := threads[k := Thread(e.threadId, threads[k].emails + [e])];
      i := i + 1;
    }
    assert emails[..i] == emails;
  }

  /** The second loop of `organize_emails_by_thread`: sort every thread in
      place by date; a sort that meets a naive and an aware date raises. */
  method SortEachThread(g: Threads) returns (r: Result<Threads>)
    ensures r == if ThreadsComparable(g) then Success(SortThreads(g)) else Failure(CompareError)
  {
    var threads := g;
    var j := 0;
    while j < |threads|
      invariant 0 <= j <= |threads| == |g|
      invariant forall k :: 0 <= k < |g| ==>
        threads[k] == if k < j then Thread(g[k].id, SortByDate(g[k].emails)) else g[k]
      invariant forall k :: 0 <= k < j ==> Comparable(g[k].emails)
    {
      if !Comparable(threads[j].emails) {
        assert threads[j] == g[j];
        return Failure(CompareError);
      }
      threads := threads[j := Thread(threads[j].id, SortByDate(threads[j].emails))];
      j := j + 1;
    }
    assert forall k :: 0 <= k < |g| ==> threads[k] == SortThreads(g)[k];
    assert threads == SortThreads(g);
    assert ThreadsComparable(g);
    r := Success(threads);
  }

  /** `organize_emails_by_thread`: group, then sort each thread by date. */
  method OrganizeEmailsByThread(emails: seq<EmailMessage>) returns (r: Result<Threads>)
    ensures r == Organized(emails)
  {
    var threads := GroupEmails(emails);
    r := SortEachThread(threads);
  }

  // Properties of the grouping

  /** All the e-mails of the dictionary, thread after thread. */
  function Flatten(ts: Threads): seq<EmailMessage> {
    if ts == [] then [] else Flatten(ts[..|ts| - 1]) + ts[|ts| - 1].emails
  }

  lemma {:induction false} FlattenAppendTo(ts: Threads, k: nat, e: EmailMessage)
    requires k < |ts|
    ensures multiset(Flatten(ts[k := Thread(ts[k].id, ts[k].emails + [e])])) == multiset(Flatten(ts)) + multiset{e}
  {
    var ts' := ts[k := Thread(ts[k].id, ts[k].emails + [e])];
    assert ts'[..|ts'| - 1] == if k == |ts| - 1 then ts[..|ts| - 1] else ts[..|ts| - 1][k := Thread(ts[k].id, ts[k].emails + [e])];
    if k < |ts| - 1 {
      FlattenAppendTo(ts[..|ts| - 1], k, e);
    }
  }

  lemma FlattenNewThread(ts: Threads, t: string)
    ensures Flatten(ts + [Thread(t, [])]) == Flatten(ts)
  {
    assert (ts + [Thread(t, [])])[..|ts|] == ts;
  }

  lemma {:induction false} GroupedPartition(s: seq<EmailMessage>)
    ensures multiset(Flatten(Grouped(s))) == multiset(s)
  {
    if s != [] {
      var init, e := s[..|s| - 1], s[|s| - 1];
      assert init + [e] == s;
      GroupedPartition(init);
      GroupedStep(init, e);
      var g := Grouped(init);
      if Find(g, e.threadId).None? {
        FlattenNewThread(g, e.threadId);
      }
      var g1 := if Find(g, e.threadId).None? then g + [Thread(e.threadId, [])] else g;
      FlattenAppendTo(g1, Find(g1, e.threadId).value, e);
    }
  }

  lemma {:induction false} FlattenSortThreads(ts: Threads)
    ensures multiset(Flatten(SortThreads(ts))) == multiset(Flatten(ts))
  {
    if ts != [] {
      FlattenSortThreads(ts[..|ts| - 1]);
      assert SortThreads(ts)[..|ts| - 1] == SortThreads(ts[..|ts| - 1]);
    }
  }

  /** Grouping keeps every e-mail exactly once: the threads, one after the
      other, are a permutation of the input. */
  lemma OrganizedPartition(s: seq<EmailMessage>)
    requires Organized(s).Success?
    ensures multiset(Flatten(Organized(s).value)) == multiset(s)
  {
    GroupedPartition(s);
    FlattenSortThreads(Grouped(s));
  }

  /** The thread ids are distinct and appear in order of their first e-mail. */
  lemma {:induction false} ThreadOrderFirstSeen(s: seq<EmailMessage>)
    ensures forall i :: 0 <= i < |ThreadOrder(s)| ==> FirstIndex(s, ThreadOrder(s)[i]) < |s|
    ensures forall i, j :: 0 <= i < j < |ThreadOrder(s)| ==> FirstIndex(s, ThreadOrder(s)[i]) < FirstIndex(s, ThreadOrder(s)[j])
  {
    if s != [] {
      var init, e := s[..|s| - 1], s[|s| - 1];
      ThreadOrderFirstSeen(init);
      var o, r := ThreadOrder(init), ThreadOrder(s);
      assert forall i :: 0 <= i < |o| ==> FirstIndex(s, o[i]) == FirstIndex(init, o[i]);
      if e.threadId in o {
        assert r == o;
      } else {
        assert r == o + [e.threadId];
        assert FirstIndex(s, e.threadId) == |init| by {
          ThreadOrderMembers(init, e.threadId);
          ThreadEmailsMembers(init, e.threadId);
        }
        forall i, j | 0 <= i < j < |r|
          ensures FirstIndex(s, r[i]) < FirstIndex(s, r[j])
        {
          assert r[i] == o[i];
          if j < |o| {
            assert r[j] == o[j];
          }
        }
      }
    }
  }

  /** Every e-mail of a thread carries the thread's id, and every thread of
      the result has e-mails. */
  lemma OrganizedIds(s: seq<EmailMessage>)
    requires Organized(s).Success?
    ensures Ids(Organized(s).value) == ThreadOrder(s) && Distinct(ThreadOrder(s))
    ensures forall i, e :: 0 <= i < |Organized(s).value| && e in Organized(s).value[i].emails ==>
      e.threadId == Organized(s).value[i].id && e in s
    ensures forall i :: 0 <= i < |Organized(s).value| ==> Organized(s).value[i].emails != []
  {
    var r := Organized(s).value;
    var g := Grouped(s);
    forall i | 0 <= i < |r|
      ensures forall e :: e in r[i].emails ==> e.threadId == r[i].id && e in s
      ensures r[i].emails != []
    {
      ThreadEmailsMembers(s, g[i].id);
      ThreadOrderMembers(s, g[i].id);
      assert forall e :: e in r[i].emails ==> e in multiset(g[i].emails);
    }
  }

  /** Within a thread the e-mails are ordered by date, and e-mails of equal
      date keep their input order. */
  lemma OrganizedSortedStable(s: seq<EmailMessage>, i: nat, y: EmailMessage)
    requires Organized(s).Success? && i < |Organized(s).value|
    ensures Sorted(Organized(s).value[i].emails, DateLe)
    ensures Ties(Organized(s).value[i].emails, y, DateLe) == Ties(ThreadEmails(s, Organized(s).value[i].id), y, DateLe)
  {
    SortByDateSortedStable(Grouped(s)[i].emails, y);
  }

  /** A failure comes from two e-mails of one thread, one with a naive and
      one with an aware date ... */
  lemma OrganizedFailureWitness(s: seq<EmailMessage>) returns (i: nat, j: nat)
    requires Organized(s).Failure?
    ensures i < |s| && j < |s| && s[i].threadId == s[j].threadId
    ensures IsAware(s[i].date) != IsAware(s[j].date)
  {
    var g := Grouped(s);
    var k :| 0 <= k < |g| && !Comparable(g[k].emails);
    var es := g[k].emails;
    var a, b :| 0 <= a < |es| && 0 <= b < |es| && IsAware(es[a].date) != IsAware(es[b].date);
    ThreadEmailsMembers(s, g[k].id);
    assert es[a] in s && es[b] in s;
    i :| 0 <= i < |s| && s[i] == es[a];
    j :| 0 <= j < |s| && s[j] == es[b];
  }

  /** ... and two such e-mails always make the grouping fail. */
  lemma OrganizedFailsOnMixedThread(s: seq<EmailMessage>, i: nat, j: nat)
    requires i < |s| && j < |s| && s[i].threadId == s[j].threadId
    requires IsAware(s[i].date) != IsAware(s[j].date)
    ensures Organized(s).Failure?
  {
    var g := Grouped(s);
    var t := s[i].threadId;
    ThreadEmailsMembers(s, t);
    ThreadOrderMembers(s, t);
    assert s[i] in ThreadEmails(s, t);
    var k :| 0 <= k < |g| && g[k].id == t;
    var es := g[k].emails;
    assert s[i] in es && s[j] in es;
    var a :| 0 <= a < |es| && es[a] == s[i];
    var b :| 0 <= b < |es| && es[b] == s[j];
    assert !Comparable(es);
  }

  // ---------------------------------------------------------------------
  // get_thread_info

  /** Whether address x takes part in e-mail e: as its sender, a recipient
      or a copy recipient. Blind copies do not count. */
  predicate Involves(e: EmailMessage, x: string) {
    x == e.fromEmail || x in e.toEmails || (e.ccEmails.Some? && x in e.ccEmails.value)
  }

  /** The set of participants that the loop over a thread's e-mails gathers. */
  function Participants(es: seq<EmailMessage>): set<string> {
    if es == [] then {}
    else
      var e := es[|es| - 1];
      Participants(es[..|es| - 1]) + {e.fromEmail} + (set x | x in e.toEmails)
        + (if e.ccEmails.Some? && e.ccEmails.value != [] then set x | x in e.ccEmails.value else {})
  }

  lemma {:induction false} ParticipantsMembers(es: seq<EmailMessage>, x: string)
    ensures x in Participants(es) <==> exists i :: 0 <= i < |es| && Involves(es[i], x)
  {
    if es != [] {
      var init := es[..|es| - 1];
      ParticipantsMembers(init, x);
      if x in Participants(init) {
        var i :| 0 <= i < |init| && Involves(init[i], x);
        assert es[i] == init[i];
      }
      if exists i :: 0 <= i < |es| && Involves(es[i], x) {
        var i :| 0 <= i < |es| && Involves(es[i], x);
        if i < |init| {
          assert init[i] == es[i];
        }
      }
    }
  }

  /** The summary of one non-empty thread; `iso` renders a date as
      `isoformat()` does. */
  function ThreadInfoOf(t: Thread, iso: DateTime -> string): ThreadInfo
    requires t.emails != []
  {
    var sorted := SortByDate(t.emails);
    ThreadInfo(t.id, sorted, Participants(t.emails), CleanSubject(sorted[0].subject),
               iso(sorted[0].date), iso(sorted[|sorted| - 1].date), |t.emails|)
  }

  /** The summaries of the non-empty threads, in dictionary order. */
  function InfosOf(ts: Threads, iso: DateTime -> string): seq<ThreadInfo> {
    if ts == [] then []
    else
      var t := ts[|ts| - 1];
      InfosOf(ts[..|ts| - 1], iso) + (if t.emails == [] then [] else [ThreadInfoOf(t, iso)])
  }

  /** `sort(key=lambda x: x.last_activity, reverse=True)`: the ISO strings
      compared as strings, largest first. */
  predicate ActivityDesc(a: ThreadInfo, b: ThreadInfo) {
    StrLe(b.lastActivity, a.lastActivity)
  }

  lemma ActivityDescTotalPreorder()
    ensures TotalPreorder(ActivityDesc)
  {
    forall a: ThreadInfo, b: ThreadInfo
      ensures ActivityDesc(a, b) || ActivityDesc(b, a)
    {
      StrLeTotal(a.lastActivity, b.lastActivity);
    }
    forall a: ThreadInfo, b: ThreadInfo, c: ThreadInfo | ActivityDesc(a, b) && ActivityDesc(b, c)
      ensures ActivityDesc(a, c)
    {
      StrLeTransitive(c.lastActivity, b.lastActivity, a.lastActivity);
    }
  }

  /** What `get_thread_info` returns, or the `TypeError` of sorting a thread
      that mixes naive and aware dates. */
  function ThreadInfoResult(ts: Threads, iso: DateTime -> string): Result<seq<ThreadInfo>> {
    if ThreadsComparable(ts) then Success(SortBy(InfosOf(ts, iso), ActivityDesc)) else Failure(CompareError)
  }

  lemma InfosOfSnoc(ts: Threads, t: Thread, iso: DateTime -> string)
    ensures InfosOf(ts + [t], iso) == InfosOf(ts, iso) + (if t.emails == [] then [] else [ThreadInfoOf(t, iso)])
  {
    assert (ts + [t])[..|ts|] == ts;
  }

  lemma ThreadsComparableSnoc(ts: Threads, i: nat)
    requires i < |ts|
    ensures ts[..i + 1] == ts[..i] + [ts[i]]
    ensures ThreadsComparable(ts[..i + 1]) <==> ThreadsComparable(ts[..i]) && Comparable(ts[i].emails)
  {
    assert ts[..i + 1] == ts[..i] + [ts[i]];
    assert forall k :: 0 <= k < i ==> ts[..i + 1][k] == ts[..i][k];
  }

  lemma ThreadsComparableAt(ts: Threads, i: nat)
    requires i < |ts| && !Comparable(ts[i].emails)
    ensures !ThreadsComparable(ts)
  {
  }

  /** The participants loop of `get_thread_info` for one thread. */
  method CollectParticipants(emails: seq<EmailMessage>) returns (participants: set<string>)
    ensures participants == Participants(emails)
  {
    participants := {};
    var k := 0;
    while k < |emails|
      invariant 0 <= k <= |emails|
      invariant participants == Participants(emails[..k])
    {
      var e := emails[k];
      assert emails[..k + 1][..k] == emails[..k];
      participants := participants + {e.fromEmail};
      participants := participants + (set x | x in e.toEmails);
      if e.ccEmails.Some? && e.ccEmails.value != [] {
        participants := participants + (set x | x in e.ccEmails.value);
      }
      k := k + 1;
    }
    assert emails[..k] == emails;
  }

  /** The body of the loop of `get_thread_info` for one non-empty thread. */
  method SummarizeThread(t: Thread, iso: DateTime -> string) returns (info: ThreadInfo)
    requires t.emails != []
    ensures info == ThreadInfoOf(t, iso)
  {
    var sorted := SortByDate(t.emails);
    var participants := CollectParticipants(t.emails);
    var subject := CleanSubject(sorted[0].subject);
    info := ThreadInfo(t.id, sorted, participants, subject,
                       iso(sorted[0].date), iso(sorted[|sorted| - 1].date), |t.emails|);
  }

  /** `get_thread_info`. */
  method GetThreadInfo(threads: Threads, iso: DateTime -> string) returns (r: Result<seq<ThreadInfo>>)
    ensures r == ThreadInfoResult(threads, iso)
  {
    var infos: seq<ThreadInfo> := [];
    var i := 0;
    while i < |threads|
      invariant 0 <= i <= |threads|
      invariant infos == InfosOf(threads[..i], iso)
      invariant ThreadsComparable(threads[..i])
    {
      var t := threads[i];
      InfosOfSnoc(threads[..i], t, iso);
      ThreadsComparableSnoc(threads, i);
      if t.emails != [] {
        if !Comparable(t.emails) {
          ThreadsComparableAt(threads, i);
          return Failure(CompareError);
        }
        var info := SummarizeThread(t, iso);
        infos := infos + [info];
      }
      i := i + 1;
    }
    assert threads[..i] == threads;
    infos := SortBy(infos, ActivityDesc);
    r := Success(infos);
  }

  /** A summary describes its thread: all its e-mails sorted by date, the
      participants of any of them, the cleaned subject and the date of the
      earliest one, and the date of the latest one. */
  lemma ThreadInfoOfProperties(t: Thread, iso: DateTime -> string, x: string)
    requires t.emails != []
    ensures var info := ThreadInfoOf(t, iso);
      && info.threadId == t.id && info.emailCount == |t.emails| >= 1
      && multiset(info.emails) == multiset(t.emails) && Sorted(info.emails, DateLe)
      && (x in info.participants <==> exists i :: 0 <= i < |t.emails| && Involves(t.emails[i], x))
      && info.subject == CleanSubject(info.emails[0].subject)
      && info.startDate == iso(info.emails[0].date)
      && info.lastActivity == iso(info.emails[|info.emails| - 1].date)
      && (forall e :: e in t.emails ==> Instant(info.emails[0].date) <= Instant(e.date))
      && (forall e :: e in t.emails ==> Instant(e.date) <= Instant(info.emails[|info.emails| - 1].date))
  {
    var sorted := SortByDate(t.emails);
    SortByDateSortedStable(t.emails, t.emails[0]);
    ParticipantsMembers(t.emails, x);
    forall e | e in t.emails
      ensures Instant(sorted[0].date) <= Instant(e.date) <= Instant(sorted[|sorted| - 1].date)
    {
      assert e in multiset(sorted);
      var k :| 0 <= k < |sorted| && sorted[k] == e;
    }
  }

  /** The threads that have e-mails, in order. */
  function NonEmpty(ts: Threads): (r: Threads)
    ensures forall t :: t in r <==> t in ts && t.emails != []
  {
    if ts == [] then []
    else
      var t := ts[|ts| - 1];
      NonEmpty(ts[..|ts| - 1]) + (if t.emails == [] then [] else [t])
  }

  /** Empty threads are skipped; every other thread gets one summary, in
      dictionary order before the final sort. */
  lemma {:induction false} InfosOfSkipsEmpty(ts: Threads, iso: DateTime -> string)
    ensures |InfosOf(ts, iso)| == |NonEmpty(ts)|
    ensures forall k :: 0 <= k < |InfosOf(ts, iso)| ==>
      NonEmpty(ts)[k].emails != [] && InfosOf(ts, iso)[k] == ThreadInfoOf(NonEmpty(ts)[k], iso)
  {
    if ts != [] {
      var init, t := ts[..|ts| - 1], ts[|ts| - 1];
      InfosOfSkipsEmpty(init, iso);
      var a, n := InfosOf(init, iso), NonEmpty(init);
      if t.emails != [] {
        var x := ThreadInfoOf(t, iso);
        var a', n' := a + [x], n + [t];
        assert InfosOf(ts, iso) == a';
        assert NonEmpty(ts) == n';
        forall k | 0 <= k < |a'|
          ensures n'[k].emails != [] && a'[k] == ThreadInfoOf(n'[k], iso)
        {
          if k < |a| {
            assert n'[k] == n[k] && a'[k] == a[k];
          } else {
            assert n'[k] == t && a'[k] == x;
          }
        }
      } else {
        assert InfosOf(ts, iso) == a;
        assert NonEmpty(ts) == n;
      }
    }
  }

  /** The summaries come out ordered by their last-activity strings, largest
      first, with ties in dictionary order. */
  lemma ThreadInfoOrdered(ts: Threads, iso: DateTime -> string, y: ThreadInfo)
    requires ThreadInfoResult(ts, iso).Success?
    ensures Sorted(ThreadInfoResult(ts, iso).value, ActivityDesc)
    ensures multiset(ThreadInfoResult(ts, iso).value) == multiset(InfosOf(ts, iso))
    ensures Ties(ThreadInfoResult(ts, iso).value, y, ActivityDesc) == Ties(InfosOf(ts, iso), y, ActivityDesc)
  {
    ActivityDescTotalPreorder();
    SortBySorted(InfosOf(ts, iso), ActivityDesc);
    SortByStable(InfosOf(ts, iso), y, ActivityDesc);
  }

  // ---------------------------------------------------------------------
  // _clean_subject

  /** Whether s starts with p when upper-case letters are read as lower-case. */
  predicate StartsWithIgnoreCase(s: string, p: string) {
    |p| <= |s| && Lower(s[..|p|]) == p
  }

  /** The length of the reply/forward prefix `Re:`, `Fwd:` or `Fw:` (in any
      case) at the start of a subject, or 0. */
  function ReplyPrefixLength(subject: string): (n: nat)
    ensures n <= |subject|
  {
    if StartsWithIgnoreCase(subject, "re:") then 3
    else if StartsWithIgnoreCase(subject, "fwd:") then 4
    else if StartsWithIgnoreCase(subject, "fw:") then 3
    else 0
  }

  /** `_clean_subject`: drop one leading reply/forward prefix and the white
      space after it, make every run of white space a single blank, and
      strip. */
  function CleanSubject(subject: string): (r: string)
    ensures r == [] || (!IsSpace(r[0]) && !IsSpace(r[|r| - 1]))
    ensures forall i :: 0 <= i < |r| && IsSpace(r[i]) ==> r[i] == ' '
    ensures forall i :: 0 <= i < |r| - 1 ==> !(r[i] == ' ' && r[i + 1] == ' ')
  {
    var n := ReplyPrefixLength(subject);
    NormalizeSpace(if n > 0 then subject[SkipSpace(subject, n)..] else subject)
  }

  /** The six spellings the pattern names, and any other capitalisation. */
  predicate IsReplyPrefix(p: string) {
    Lower(p) == "re:" || Lower(p) == "fwd:" || Lower(p) == "fw:"
  }

  /** Exactly one prefix is removed: what follows it is only normalised,
      even when it starts with a prefix itself. */
  lemma CleanSubjectRemovesOnePrefix(p: string, x: string)
    requires IsReplyPrefix(p)
    ensures CleanSubject(p + x) == NormalizeSpace(x)
  {
    var s := p + x;
    var k := SkipSpace(s, |p|);
    assert CleanSubject(s) == NormalizeSpace(s[k..]) by {
      PrefixLength(p, x);
    }
    var d := k - |p|;
    assert s[k..] == x[d..];
    assert forall j :: 0 <= j < d ==> IsSpace(x[j]) by {
      forall j | 0 <= j < d ensures IsSpace(x[j]) {
        assert x[j] == s[|p| + j];
      }
    }
    NormalizeSkipsLeadingSpace(x, d);
  }

  /** The prefix pattern matches exactly the prefix p in front of x. */
  lemma PrefixLength(p: string, x: string)
    requires IsReplyPrefix(p)
    ensures ReplyPrefixLength(p + x) == |p|
  {
    var s := p + x;
    assert s[..|p|] == p;
    if Lower(p) == "fw:" {
      FwIsNotFwd(s, p);
    }
  }

  lemma FwIsNotFwd(s: string, p: string)
    requires |p| <= |s| && s[..|p|] == p && Lower(p) == "fw:"
    ensures !StartsWithIgnoreCase(s, "fwd:")
  {
    if |s| >= 4 {
      assert Lower(s[..4])[2] == LowerChar(s[2]) == Lower(p)[2];
    }
  }

  /** A subject without a prefix is only normalised. */
  lemma CleanSubjectWithoutPrefix(subject: string)
    requires ReplyPrefixLength(subject) == 0
    ensures CleanSubject(subject) == NormalizeSpace(subject)
  {
  }

  // ---------------------------------------------------------------------
  // filter_threads_by_criteria

  /** A Python `int` argument that may be `None` is truthy when it is
      present and not 0. */
  predicate Truthy(o: Option<int>) {
    o.Some? && o.value != 0
  }

  /** The arguments `min_emails`, `max_emails` and `days_old`. */
  datatype Criteria = Criteria(minEmails: int, maxEmails: Option<int>, daysOld: Option<int>)

  const EmptyMaxError: string := "max() arg is an empty sequence"

  const SubtractError: string := "can't subtract offset-naive and offset-aware datetimes"

  /** `max(emails, key=lambda x: x.date)`: the position of the first e-mail
      that no other e-mail is later than. */
  function LatestIndex(es: seq<EmailMessage>): (k: nat)
    requires es != []
    ensures k < |es|
    ensures forall i :: 0 <= i < |es| ==> Instant(es[i].date) <= Instant(es[k].date)
    ensures forall i :: 0 <= i < k ==> Instant(es[i].date) < Instant(es[k].date)
  {
    if |es| == 1 then 0
    else
      var k := LatestIndex(es[..|es| - 1]);
      if Instant(es[|es| - 1].date) > Instant(es[k].date) then |es| - 1 else k
  }

  /** What the loop does with one thread: keep it, skip it, or raise. */
  datatype Verdict = Keep | Skip | Raise(message: string)

  function Judge(t: Thread, c: Criteria, nowLocal: int): Verdict {
    var n := |t.emails|;
    if n < c.minEmails then Skip
    else if Truthy(c.maxEmails) && n > c.maxEmails.value then Skip
    else if !Truthy(c.daysOld) then Keep
    else if n == 0 then Raise(EmptyMaxError)
    else if !Comparable(t.emails) then Raise(CompareError)
    else
      var latest := t.emails[LatestIndex(t.emails)];
      if IsAware(latest.date) then Raise(SubtractError)
      else if DaysSince(nowLocal, latest.date) > c.daysOld.value then Skip
      else Keep
  }

  /** What `filter_threads_by_criteria` returns, or the first exception. */
  function FilterResult(ts: Threads, c: Criteria, nowLocal: int): Result<Threads> {
    if ts == [] then Success([])
    else
      match FilterResult(ts[..|ts| - 1], c, nowLocal)
      case Failure(m) => Failure(m)
      case Success(kept) =>
        var t := ts[|ts| - 1];
        match Judge(t, c, nowLocal)
        case Keep => Success(kept + [t])
        case Skip => Success(kept)
        case Raise(m) => Failure(m)
  }

  /** Once a prefix raises, the whole loop raises the same exception. */
  lemma {:induction false} FilterFailureSticks(ts: Threads, j: nat, c: Criteria, nowLocal: int)
    requires j <= |ts| && FilterResult(ts[..j], c, nowLocal).Failure?
    ensures FilterResult(ts, c, nowLocal) == FilterResult(ts[..j], c, nowLocal)
  {
    if j < |ts| {
      assert ts[..|ts| - 1][..j] == ts[..j];
      FilterFailureSticks(ts[..|ts| - 1], j, c, nowLocal);
    } else {
      assert ts[..j] == ts;
    }
  }

  /** `filter_threads_by_criteria`. */
  method FilterThreadsByCriteria(threads: Threads, c: Criteria, nowLocal: int) returns (r: Result<Threads>)
    ensures r == FilterResult(threads, c, nowLocal)
  {
    var kept: Threads := [];
    var i := 0;
    while i < |threads|
      invariant 0 <= i <= |threads|
      invariant FilterResult(threads[..i], c, nowLocal) == Success(kept)
    {
      var t := threads[i];
      assert threads[..i + 1][..i] == threads[..i];
      i := i + 1;
      var count := |t.emails|;
      if count < c.minEmails {
        continue;
      }
      if Truthy(c.maxEmails) && count > c.maxEmails.value {
        continue;
      }
      if Truthy(c.daysOld) {
        if count == 0 {
          FilterFailureSticks(threads, i, c, nowLocal);
          return Failure(EmptyMaxError);
        }
        if !Comparable(t.emails) {
          FilterFailureSticks(threads, i, c, nowLocal);
          return Failure(CompareError);
        }
        var latest := t.emails[LatestIndex(t.emails)];
        if IsAware(latest.date) {
          FilterFailureSticks(threads, i, c, nowLocal);
          return Failure(SubtractError);
        }
        if DaysSince(nowLocal, latest.date) > c.daysOld.value {
          continue;
        }
      }
      kept := kept + [t];
    }
    assert threads[..i] == threads;
    r := Success(kept);
  }

  /** What the criteria ask of a thread, stated over all its e-mails rather
      than the latest: a size within the bounds and, when an age is given,
      some e-mail at most that many days old. */
  predicate Meets(t: Thread, c: Criteria, nowLocal: int) {
    |t.emails| >= c.minEmails
    && (Truthy(c.maxEmails) ==> |t.emails| <= c.maxEmails.value)
    && (Truthy(c.daysOld) ==>
          exists i :: 0 <= i < |t.emails| && DaysSince(nowLocal, t.emails[i].date) <= c.daysOld.value)
  }

  /** A thread the loop can judge without raising: when its size is within
      the bounds and an age is given, it has e-mails and their dates are
      all naive. */
  predicate Judgeable(t: Thread, c: Criteria) {
    (|t.emails| >= c.minEmails && (Truthy(c.maxEmails) ==> |t.emails| <= c.maxEmails.value) && Truthy(c.daysOld))
    ==> t.emails != [] && forall i :: 0 <= i < |t.emails| ==> !IsAware(t.emails[i].date)
  }

  lemma DaysSinceMonotone(nowLocal: int, a: DateTime, b: DateTime)
    requires a.wall <= b.wall
    ensures DaysSince(nowLocal, b) <= DaysSince(nowLocal, a)
  {
  }

  /** The verdict on one thread: it raises exactly when the thread is not
      judgeable, and otherwise keeps the thread exactly when it meets the
      criteria. */
  lemma JudgeMeets(t: Thread, c: Criteria, nowLocal: int)
    ensures Judge(t, c, nowLocal).Raise? <==> !Judgeable(t, c)
    ensures Judgeable(t, c) ==> (Judge(t, c, nowLocal) == Keep <==> Meets(t, c, nowLocal))
  {
    var es := t.emails;
    if es != [] && Truthy(c.daysOld) {
      var k := LatestIndex(es);
      if Comparable(es) && !IsAware(es[k].date) {
        forall i | 0 <= i < |es|
          ensures !IsAware(es[i].date) && DaysSince(nowLocal, es[k].date) <= DaysSince(nowLocal, es[i].date)
        {
          DaysSinceMonotone(nowLocal, es[i].date, es[k].date);
        }
      }
      if !Comparable(es) {
        var i, j :| 0 <= i < |es| && 0 <= j < |es| && IsAware(es[i].date) != IsAware(es[j].date);
      }
    }
  }

  /** The filter raises exactly when some thread is not judgeable. */
  lemma {:induction false} FilterRaisesIffNotJudgeable(ts: Threads, c: Criteria, nowLocal: int)
    ensures FilterResult(ts, c, nowLocal).Success? <==> forall i :: 0 <= i < |ts| ==> Judgeable(ts[i], c)
  {
    if ts != [] {
      var init, t := ts[..|ts| - 1], ts[|ts| - 1];
      FilterRaisesIffNotJudgeable(init, c, nowLocal);
      JudgeMeets(t, c, nowLocal);
      if forall i :: 0 <= i < |ts| ==> Judgeable(ts[i], c) {
        assert forall i :: 0 <= i < |init| ==> Judgeable(init[i], c) by {
          forall i | 0 <= i < |init| ensures Judgeable(init[i], c) {
            assert init[i] == ts[i];
          }
        }
      }
    }
  }

  /** One step of the loop that does not raise: the last thread is kept
      exactly when it meets the criteria. */
  lemma FilterStep(ts: Threads, c: Criteria, nowLocal: int)
    requires ts != [] && FilterResult(ts, c, nowLocal).Success?
    ensures FilterResult(ts[..|ts| - 1], c, nowLocal).Success?
    ensures var t := ts[|ts| - 1];
            FilterResult(ts, c, nowLocal).value
            == FilterResult(ts[..|ts| - 1], c, nowLocal).value + (if Meets(t, c, nowLocal) then [t] else [])
  {
    JudgeMeets(ts[|ts| - 1], c, nowLocal);
  }

  /** Otherwise it keeps, in order, exactly the threads that meet the
      criteria. */
  lemma {:induction false} FilterKeepsMeeting(ts: Threads, c: Criteria, nowLocal: int)
    requires FilterResult(ts, c, nowLocal).Success?
    ensures FilterResult(ts, c, nowLocal).value == Filter(ts, (t: Thread) => Meets(t, c, nowLocal))
  {
    if ts != [] {
      var init, t := ts[..|ts| - 1], ts[|ts| - 1];
      var p := (t: Thread) => Meets(t, c, nowLocal);
      FilterStep(ts, c, nowLocal);
      FilterKeepsMeeting(init, c, nowLocal);
      FilterAppend(init, [t], p);
      assert Filter([t], p) == if p(t) then [t] else [];
      assert init + [t] == ts;
    }
  }

  // ---------------------------------------------------------------------
  // get_thread_statistics

  /** `thread_size_distribution`: how many threads have 1, 2-3, 4-5 and 6 or
      more e-mails. */
  datatype SizeDistribution = SizeDistribution(one: nat, twoToThree: nat, fourToFive: nat, sixPlus: nat)

  /** The dictionary `get_thread_statistics` returns; the distribution is
      absent when there are no threads. */
  datatype ThreadStatistics = ThreadStatistics(
    totalThreads: nat,
    totalEmails: nat,
    avgEmailsPerThread: real,
    singleEmailThreads: nat,
    multiEmailThreads: nat,
    longestThread: nat,
    distribution: Option<SizeDistribution>)

  function Sizes(ts: Threads): seq<nat> {
    seq(|ts|, i requires 0 <= i < |ts| => |ts[i].emails|)
  }

  function Sum(s: seq<nat>): nat {
    if s == [] then 0 else Sum(s[..|s| - 1]) + s[|s| - 1]
  }

  /** How many threads have between lo and hi e-mails. */
  function CountSized(sizes: seq<nat>, lo: nat, hi: nat): nat {
    |Filter(sizes, (n: nat) => lo <= n <= hi)|
  }

  function AtLeast(sizes: seq<nat>, lo: nat): nat {
    |Filter(sizes, (n: nat) => n >= lo)|
  }

  /** `get_thread_statistics`, with the average before rounding. */
  function Statistics(ts: Threads): ThreadStatistics {
    if ts == [] then ThreadStatistics(0, 0, 0.0, 0, 0, 0, None)
    else
      var sizes := Sizes(ts);
      var total := Sum(sizes);
      ThreadStatistics(|ts|, total, total as real / |ts| as real,
                       CountSized(sizes, 1, 1), AtLeast(sizes, 2), Max(sizes),
                       Some(SizeDistribution(CountSized(sizes, 1, 1), CountSized(sizes, 2, 3),
                                             CountSized(sizes, 4, 5), AtLeast(sizes, 6))))
  }

  lemma {:induction false} SumSizesFlatten(ts: Threads)
    ensures Sum(Sizes(ts)) == |Flatten(ts)|
  {
    if ts != [] {
      SumSizesFlatten(ts[..|ts| - 1]);
      assert Sizes(ts)[..|ts| - 1] == Sizes(ts[..|ts| - 1]);
    }
  }

  /** The totals: the e-mail count is the number of e-mails in all threads,
      and the average is that number over the number of threads (0 when
      there are none). */
  lemma StatisticsTotals(ts: Threads)
    ensures Statistics(ts).totalThreads == |ts|
    ensures Statistics(ts).totalEmails == |Flatten(ts)|
    ensures Statistics(ts).avgEmailsPerThread
            == if ts == [] then 0.0 else |Flatten(ts)| as real / |ts| as real
  {
    SumSizesFlatten(ts);
  }

  /** The longest thread is as long as any thread and as long as one of
      them. */
  lemma StatisticsLongest(ts: Threads)
    ensures forall i :: 0 <= i < |ts| ==> |ts[i].emails| <= Statistics(ts).longestThread
    ensures ts != [] ==> exists i :: 0 <= i < |ts| && |ts[i].emails| == Statistics(ts).longestThread
  {
    if ts != [] {
      var sizes := Sizes(ts);
      var m := Max(sizes);
      assert forall i :: 0 <= i < |ts| ==> sizes[i] == |ts[i].emails|;
      var i :| 0 <= i < |sizes| && sizes[i] == m;
      assert |ts[i].emails| == m;
    }
  }

  /** The counts: every thread is single, multi or empty; the four buckets
      of the distribution split the non-empty threads. */
  lemma StatisticsCounts(ts: Threads)
    requires ts != []
    ensures var st := Statistics(ts);
      && st.singleEmailThreads + st.multiEmailThreads + CountSized(Sizes(ts), 0, 0) == |ts|
      && st.distribution.Some?
      && st.distribution.value.one == st.singleEmailThreads
      && st.distribution.value.one + st.distribution.value.twoToThree
         + st.distribution.value.fourToFive + st.distribution.value.sixPlus
         == st.singleEmailThreads + st.multiEmailThreads
  {
    var sizes := Sizes(ts);
    FilterSplit(sizes, (n: nat) => n >= 2, (n: nat) => 2 <= n <= 3, (n: nat) => n >= 4);
    FilterSplit(sizes, (n: nat) => n >= 4, (n: nat) => 4 <= n <= 5, (n: nat) => n >= 6);
    FilterSplit(sizes, (n: nat) => n >= 1, (n: nat) => 1 <= n <= 1, (n: nat) => n >= 2);
    FilterComplement(sizes, (n: nat) => 0 <= n <= 0, (n: nat) => n >= 1);
  }
}
