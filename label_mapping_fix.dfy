/** The labelling script that reuses the existing emoji labels
    (label_mapping_fix.py): `FixedLabelManager` maps a classification to
    the display name of an existing label, falling back to a similar name,
    and never creates a label; `fixed_email_labeling` labels every thread,
    History by age and the classifier's label otherwise. The OAuth flow,
    the prompt for an e-mail count and fetching are parameters. */
module LabelMappingFix {
  import opened Wrappers
  import opened Text
  import opened Collections
  import opened EmailModels
  import DateUtils
  import opened ThreadOrganizer
  import ThreadEmailClassifier
  import opened GmailService
  import EnhancedEmailProcessor

  const SpamEmoji: string := "\U{1F5D1}\U{FE0F}"
  const HistoryName: string := "\U{1F4DC} History"

  /** `LABEL_MAPPING`. The spam label is "🗑️ SPAM". */
  const LabelMapping: map<string, string> := map[
    "to do" := "\U{1F4CB} To Do",
    "awaiting reply" := "\U{23F3} Awaiting Reply",
    "fyi" := "\U{2139}\U{FE0F} FYI",
    "done" := "\U{2705} Done",
    "spam" := SpamEmoji + " SPAM",
    "history" := HistoryName]

  /** The names the script requires before it labels anything, in order. */
  const RequiredNames: seq<string> := [
    "\U{1F4CB} To Do", "\U{23F3} Awaiting Reply", "\U{2139}\U{FE0F} FYI", "\U{2705} Done",
    SpamEmoji + " SPAM", HistoryName]

  /** Every classifier label is mapped, to one of the required names. */
  lemma EveryLabelMapped(l: EmailLabel)
    ensures l.Value() in LabelMapping && LabelMapping[l.Value()] in RequiredNames
  {
  }

  /** `existing_labels`: label ids by exact name; a later label of the
      same name overwrites the id. */
  type Existing = Dict<string, string>

  function ExistingOf(ls: seq<GmailLabel>): (r: Existing)
    ensures r.Valid()
    ensures r.values.Keys == NamesOf(ls)
  {
    if ls == [] then Empty()
    else Put(ExistingOf(ls[..|ls| - 1]), ls[|ls| - 1].name, ls[|ls| - 1].id)
  }

  /** The names of the labels. */
  function NamesOf(ls: seq<GmailLabel>): set<string> {
    if ls == [] then {} else NamesOf(ls[..|ls| - 1]) + {ls[|ls| - 1].name}
  }

  /** A name is stored iff some listed label has it. */
  lemma {:induction false} NamesOfListed(ls: seq<GmailLabel>, n: string)
    ensures n in NamesOf(ls) <==> exists j :: 0 <= j < |ls| && ls[j].name == n
  {
    if ls != [] {
      var m := |ls| - 1;
      NamesOfListed(ls[..m], n);
      if exists j :: 0 <= j < m && ls[..m][j].name == n {
        var j :| 0 <= j < m && ls[..m][j].name == n;
        assert ls[j].name == n;
      }
      if exists j :: 0 <= j < |ls| && ls[j].name == n {
        var j :| 0 <= j < |ls| && ls[j].name == n;
        if j < m {
          assert ls[..m][j].name == n;
        }
      }
    }
  }

  /** The id stored under a name is that of the last listed label with
      that name. */
  lemma {:induction false} ExistingLastWins(ls: seq<GmailLabel>, j: nat)
    requires j < |ls|
    requires forall k :: j < k < |ls| ==> ls[k].name != ls[j].name
    ensures Get(ExistingOf(ls), ls[j].name) == Some(ls[j].id)
  {
    var n := |ls| - 1;
    if j < n {
      forall k | j < k < n
        ensures ls[..n][k].name != ls[..n][j].name
      {
        assert ls[..n][k] == ls[k] && ls[..n][j] == ls[j];
      }
      ExistingLastWins(ls[..n], j);
      assert ls[..n][j] == ls[j];
      GetPutOther(ExistingOf(ls[..n]), ls[n].name, ls[n].id, ls[j].name);
    }
  }

  /** `_get_existing_labels`: empty when listing fails. */
  function ExistingLabels(listed: Result<seq<GmailLabel>>): (r: Existing)
    ensures r.Valid()
  {
    match listed
    case Failure(_) => Empty()
    case Success(ls) => ExistingOf(ls)
  }

  /** The keyword rule of `_find_similar_label` for a classification
      against an existing name: only a classification that lowercases to
      a mapped key has one. */
  predicate Similar(c: string, name: string)
    ensures Similar(c, name) ==> Lower(c) in LabelMapping
  {
    var cl, nl := Lower(c), Lower(name);
    (cl == "to do" && (Contains(nl, "to do") || Contains(nl, "todo")))
    || (cl == "awaiting reply" && Contains(nl, "awaiting"))
    || (cl == "fyi" && Contains(nl, "fyi"))
    || (cl == "done" && Contains(nl, "done") && !Contains(nl, "undone"))
    || (cl == "spam" && (Contains(nl, "spam") || Contains(name, SpamEmoji)))
    || (cl == "history" && Contains(nl, "history"))
  }

  lemma ContainsNonEmpty(s: string, sub: string)
    requires Contains(s, sub) && sub != []
    ensures s != []
  {
  }

  /** A similar name is never empty, so the source's truth test on the
      name it found is the same as a test for a name. */
  lemma SimilarNamesNonEmpty(c: string, name: string)
    requires Similar(c, name)
    ensures name != ""
  {
    var nl := Lower(name);
    if Contains(name, SpamEmoji) {
      ContainsNonEmpty(name, SpamEmoji);
    } else {
      assert Contains(nl, "to do") || Contains(nl, "todo") || Contains(nl, "awaiting") || Contains(nl, "fyi")
             || Contains(nl, "done") || Contains(nl, "spam") || Contains(nl, "history");
      assert nl != [];
    }
  }

  /** The position of the first name of `ks` similar to the
      classification. */
  function FirstSimilar(ks: seq<string>, c: string): (r: Option<nat>)
    ensures r.None? <==> forall j :: 0 <= j < |ks| ==> !Similar(c, ks[j])
    ensures r.Some? ==> (r.value < |ks| && Similar(c, ks[r.value]) && forall j :: 0 <= j < r.value ==> !Similar(c, ks[j]))
  {
    FirstWhere(ks, n => Similar(c, n))
  }

  /** `_find_similar_label`: the first existing name, in insertion order,
      that the keyword rule accepts. */
  function FindSimilar(e: Existing, c: string): (r: Option<string>)
    requires e.Valid()
    ensures r.Some? ==> r.value in e.values && Similar(c, r.value)
    ensures r.None? <==> forall n :: n in e.values ==> !Similar(c, n)
  {
    match FirstSimilar(e.keys, c)
    case None => None
    case Some(j) => Some(e.keys[j])
  }

  /** The name `apply_label_fixed` applies: the mapped name when it
      exists, and only then without a similarity search. */
  function Target(e: Existing, c: string): (t: Option<string>)
    requires e.Valid()
    ensures MapOrSelf(LabelMapping, c) in e.values ==> t == Some(MapOrSelf(LabelMapping, c))
    ensures t.Some? ==> t.value in e.values
    ensures t.None? <==> MapOrSelf(LabelMapping, c) !in e.values && forall n :: n in e.values ==> !Similar(c, n)
  {
    if MapOrSelf(LabelMapping, c) in e.values then Some(MapOrSelf(LabelMapping, c)) else FindSimilar(e, c)
  }

  /** The id of the label `apply_label_fixed` adds for the
      classification c, if it finds one: the mapped name's, or that of the
      first similar name from position i on. */
  function TargetId(e: Existing, c: string): Option<string>
    requires e.Valid()
  {
    if MapOrSelf(LabelMapping, c) in e.values then Some(e.values[MapOrSelf(LabelMapping, c)]) else SimilarIdFrom(e, c, 0)
  }

  function SimilarIdFrom(e: Existing, c: string, i: nat): Option<string>
    requires e.Valid()
    decreases |e.keys| - i
  {
    if i >= |e.keys| then None
    else if Similar(c, e.keys[i]) then Some(e.values[e.keys[i]])
    else SimilarIdFrom(e, c, i + 1)
  }

  lemma {:induction false} SimilarIdFromFirst(e: Existing, c: string, i: nat)
    requires e.Valid() && i <= |e.keys|
    requires forall j :: 0 <= j < i ==> !Similar(c, e.keys[j])
    ensures SimilarIdFrom(e, c, i) == match FirstSimilar(e.keys, c)
                                     case None => None
                                     case Some(j) => Some(e.values[e.keys[j]])
    decreases |e.keys| - i
  {
    if i < |e.keys| && !Similar(c, e.keys[i]) {
      SimilarIdFromFirst(e, c, i + 1);
    }
  }

  /** The label id is that of the target name, and there is one exactly
      when there is a target name. */
  lemma TargetIdOfTarget(e: Existing, c: string)
    requires e.Valid()
    ensures TargetId(e, c).None? <==> Target(e, c).None?
    ensures TargetId(e, c).Some? ==> TargetId(e, c).value == e.values[Target(e, c).value]
  {
    SimilarIdFromFirst(e, c, 0);
  }

  /** The request that adds the label id to an e-mail and removes
      nothing. */
  function LabelRequest(labelId: string, emailId: string): ModifyRequest {
    ModifyRequest(emailId, [labelId], [])
  }

  /** The requests the server accepts while the e-mails are labelled with
      the label id target, in order: none when there is no label. */
  function AcceptedRequests(fails: Call -> Option<string>, target: Option<string>,
                            emails: seq<EmailMessage>): (r: seq<ModifyRequest>)
    ensures |r| <= |emails|
    ensures target.None? ==> r == []
    ensures target.Some? ==> forall k :: 0 <= k < |r| ==> r[k].add == [target.value] && r[k].remove == []
  {
    if emails == [] || target.None? then []
    else
      var init := AcceptedRequests(fails, target, emails[..|emails| - 1]);
      var request := LabelRequest(target.value, emails[|emails| - 1].id);
      if fails(ModifyMessage(request)).None? then init + [request] else init
  }

  lemma AcceptedStep(fails: Call -> Option<string>, target: Option<string>, emails: seq<EmailMessage>, j: nat)
    requires j < |emails|
    ensures AcceptedRequests(fails, target, emails[..j + 1]) ==
      AcceptedRequests(fails, target, emails[..j])
      + (if target.Some? && fails(ModifyMessage(LabelRequest(target.value, emails[j].id))).None?
         then [LabelRequest(target.value, emails[j].id)] else [])
  {
    PrefixStep(emails, j);
  }

  /** With a label and a server that accepts every call, each e-mail gets
      exactly one request, in order. */
  lemma {:induction false} AcceptedAll(fails: Call -> Option<string>, target: Option<string>, emails: seq<EmailMessage>)
    requires target.Some?
    requires forall call :: fails(call).None?
    ensures |AcceptedRequests(fails, target, emails)| == |emails|
    ensures forall k :: 0 <= k < |emails| ==>
      AcceptedRequests(fails, target, emails)[k] == LabelRequest(target.value, emails[k].id)
  {
    if emails != [] {
      var n := |emails| - 1;
      AcceptedAll(fails, target, emails[..n]);
      assert forall k :: 0 <= k < n ==> emails[..n][k] == emails[k];
    }
  }

  /** What the script decides for a thread: the classification key and
      the display name it is counted under. */
  datatype Decision = Decision(classification: string, actualLabel: string)

  const HistoryDays: int := 7
  const EmptyMaxError: string := "max() arg is an empty sequence"

  /** The decision for a thread older than the cutoff. */
  const HistoryDecision: Decision := Decision("history", HistoryName)

  /** The decision for a recent thread: the classifier's label, counted
      under its mapped name. */
  function Classified(t: Thread, w: ThreadEmailClassifier.World): (d: Decision)
    ensures d.classification in LabelMapping && d.actualLabel == LabelMapping[d.classification]
    ensures d.classification == ThreadEmailClassifier.Classification(t.emails, w).emailLabel.Value()
  {
    var c := ThreadEmailClassifier.Classification(t.emails, w).emailLabel.Value();
    EveryLabelMapped(ThreadEmailClassifier.Classification(t.emails, w).emailLabel);
    Decision(c, LabelMapping[c])
  }

  /** One thread of `fixed_email_labeling`, up to the labelling: History
      when the latest e-mail, in UTC, is before the cutoff, the
      classifier's label otherwise. Errors raised here end the thread.
      The threads `fixed_email_labeling` passes in come from a successful
      `Organized`, so they are never empty and their dates always compare
      (`ThreadOrganizer.OrganizedIds`, `Organized`); there only a latest
      date that cannot be converted ends a thread. */
  function Decide(t: Thread, nowUtc: int, w: ThreadEmailClassifier.World): (r: Result<Decision>)
    ensures r.Success? ==> r.value.actualLabel in RequiredNames
  {
    if t.emails == [] then Failure(EmptyMaxError)
    else if !Comparable(t.emails) then Failure(CompareError)
    else
      var latest := t.emails[LatestIndex(t.emails)];
      match EnhancedEmailProcessor.NormalizeDatetime(latest.date)
      case Failure(e) => Failure(e)
      case Success(u) =>
        if Instant(u) < nowUtc - HistoryDays * SecondsPerDay then Success(HistoryDecision)
        else
          EveryLabelMapped(ThreadEmailClassifier.Classification(t.emails, w).emailLabel);
          Success(Classified(t, w))
  }

  /** A thread whose latest date converts is History exactly by the
      instant rule of `is_older_than_days` with 7 days; otherwise it takes
      the classifier's label under its mapped name. */
  lemma DecideByAge(t: Thread, nowUtc: int, w: ThreadEmailClassifier.World)
    requires t.emails != [] && Comparable(t.emails)
    requires EnhancedEmailProcessor.NormalizeDatetime(t.emails[LatestIndex(t.emails)].date).Success?
    ensures DateUtils.IsOlderThanDays(t.emails[LatestIndex(t.emails)].date, HistoryDays, nowUtc) ==>
              Decide(t, nowUtc, w) == Success(HistoryDecision)
    ensures !DateUtils.IsOlderThanDays(t.emails[LatestIndex(t.emails)].date, HistoryDays, nowUtc) ==>
              Decide(t, nowUtc, w) == Success(Classified(t, w))
  {
    var latest := t.emails[LatestIndex(t.emails)];
    var u := EnhancedEmailProcessor.NormalizeDatetime(latest.date).value;
    assert Instant(u) == Instant(latest.date);
  }

  /** A thread the script cannot date, order or convert is an error for
      all its e-mails. */
  lemma DecideErrors(t: Thread, nowUtc: int, w: ThreadEmailClassifier.World)
    ensures Decide(t, nowUtc, w).Failure? <==>
      (|| t.emails == []
       || !Comparable(t.emails)
       || EnhancedEmailProcessor.NormalizeDatetime(t.emails[LatestIndex(t.emails)].date).Failure?)
  {
  }

  /** What `fixed_email_labeling` ends with. */
  datatype ScriptOutcome =
    | MissingLabels(missing: seq<string>)
    | NoEmails
    | Crashed(error: string)
    | Finished(labeled: nat, errors: nat, threads: nat, labelStats: Counter<string>)

  class FixedLabelManager {
    const service: Mailbox
    /** `existing_labels`, read once when the manager is made. */
    const existingLabels: Existing

    constructor(service: Mailbox)
      ensures this.service == service
      ensures existingLabels ==
        ExistingLabels(if service.fails(ListLabels).Some? then Failure(service.fails(ListLabels).value) else Success(service.labels))
    {
      var listed := service.List();
      this.service := service;
      existingLabels := ExistingLabels(listed);
    }

    /** `_find_similar_label`. */
    method FindSimilarLabel(c: string) returns (r: Option<string>)
      requires existingLabels.Valid()
      ensures r == FindSimilar(existingLabels, c)
    {
      var ks := existingLabels.keys;
      var i := 0;
      while i < |ks|
        invariant 0 <= i <= |ks|
        invariant forall j :: 0 <= j < i ==> !Similar(c, ks[j])
      {
        if Similar(c, ks[i]) {
          return Some(ks[i]);
        }
        i := i + 1;
      }
      return None;
    }

    /** `apply_label_fixed`: no modify request at all when neither the
        mapped name nor a similar one exists; otherwise one request that
        adds the label, and true exactly when it succeeds. */
    method ApplyLabelFixed(emailId: string, c: string) returns (ok: bool)
      requires existingLabels.Valid()
      modifies service
      ensures service.labels == old(service.labels)
      ensures TargetId(existingLabels, c).None? ==> !ok && service.modified == old(service.modified)
      ensures TargetId(existingLabels, c).Some? ==>
        var request := LabelRequest(TargetId(existingLabels, c).value, emailId);
        && ok == service.fails(ModifyMessage(request)).None?
        && service.modified == old(service.modified) + (if ok then [request] else [])
    {
      TargetIdOfTarget(existingLabels, c);
      var name := MapOrSelf(LabelMapping, c);
      if name !in existingLabels.values {
        var similar := FindSimilarLabel(c);
        if similar.None? {
          return false;
        }
        SimilarNamesNonEmpty(c, similar.value);
        name := similar.value;
      }
      var err := service.Modify(ModifyRequest(emailId, [existingLabels.values[name]], []));
      return err.None?;
    }

    /** The inner loop of `fixed_email_labeling`: the accepted requests
        and how many e-mails of the thread were labelled. */
    method LabelThread(t: Thread, c: string) returns (success: nat)
      requires existingLabels.Valid()
      modifies service
      ensures service.labels == old(service.labels)
      ensures service.modified == old(service.modified) + AcceptedRequests(service.fails, TargetId(existingLabels, c), t.emails)
      ensures success == |AcceptedRequests(service.fails, TargetId(existingLabels, c), t.emails)|
    {
      ghost var target := TargetId(existingLabels, c);
      success := 0;
      var j := 0;
      while j < |t.emails|
        invariant 0 <= j <= |t.emails|
        invariant service.labels == old(service.labels)
        invariant service.modified == old(service.modified) + AcceptedRequests(service.fails, target, t.emails[..j])
        invariant success == |AcceptedRequests(service.fails, target, t.emails[..j])|
      {
        AcceptedStep(service.fails, target, t.emails, j);
        ghost var before := AcceptedRequests(service.fails, target, t.emails[..j]);
        var ok := ApplyLabelFixed(t.emails[j].id, c);
        if ok {
          SnocAssoc(old(service.modified), before, LabelRequest(target.value, t.emails[j].id));
          success := success + 1;
        }
        j := j + 1;
      }
      PrefixAll(t.emails);
    }
  }

  /** The required names that do not exist, in order. */
  function Missing(e: Existing): (r: seq<string>)
    ensures forall n :: n in r <==> n in RequiredNames && n !in e.values
  {
    Filter(RequiredNames, n => n !in e.values)
  }

  /** The requests the server accepts for one thread: none when its label
      cannot be decided. */
  function ThreadRequests(e: Existing, fails: Call -> Option<string>, t: Thread, nowUtc: int,
                          w: ThreadEmailClassifier.World): seq<ModifyRequest>
    requires e.Valid()
  {
    match Decide(t, nowUtc, w)
    case Failure(_) => []
    case Success(d) => AcceptedRequests(fails, TargetId(e, d.classification), t.emails)
  }

  /** The requests accepted over the threads, in order. */
  function ScriptRequests(e: Existing, fails: Call -> Option<string>, threads: Threads, nowUtc: int,
                          w: ThreadEmailClassifier.World): (r: seq<ModifyRequest>)
    requires e.Valid()
    ensures |r| <= |Flatten(threads)|
  {
    if threads == [] then []
    else
      var n := |threads| - 1;
      assert Flatten(threads) == Flatten(threads[..n]) + threads[n].emails;
      ScriptRequests(e, fails, threads[..n], nowUtc, w) + ThreadRequests(e, fails, threads[n], nowUtc, w)
  }

  /** `label_stats` over the threads: each decided thread adds its number
      of accepted requests under its display name, zero included. */
  function ScriptStats(e: Existing, fails: Call -> Option<string>, threads: Threads, nowUtc: int,
                       w: ThreadEmailClassifier.World): (r: Counter<string>)
    requires e.Valid()
    ensures r.Valid()
  {
    if threads == [] then Empty()
    else
      var n := |threads| - 1;
      var init := ScriptStats(e, fails, threads[..n], nowUtc, w);
      match Decide(threads[n], nowUtc, w)
      case Failure(_) => init
      case Success(d) => Add(init, d.actualLabel, |ThreadRequests(e, fails, threads[n], nowUtc, w)|)
  }

  lemma ScriptStep(e: Existing, fails: Call -> Option<string>, threads: Threads, i: nat, nowUtc: int,
                    w: ThreadEmailClassifier.World)
    requires e.Valid() && i < |threads|
    ensures Flatten(threads[..i + 1]) == Flatten(threads[..i]) + threads[i].emails
    ensures ScriptRequests(e, fails, threads[..i + 1], nowUtc, w)
         == ScriptRequests(e, fails, threads[..i], nowUtc, w) + ThreadRequests(e, fails, threads[i], nowUtc, w)
    ensures ScriptStats(e, fails, threads[..i + 1], nowUtc, w) ==
      match Decide(threads[i], nowUtc, w)
      case Failure(_) => ScriptStats(e, fails, threads[..i], nowUtc, w)
      case Success(d) => Add(ScriptStats(e, fails, threads[..i], nowUtc, w), d.actualLabel,
                             |ThreadRequests(e, fails, threads[i], nowUtc, w)|)
  {
    PrefixStep(threads, i);
  }

  /** The label statistics add up to the number of accepted requests. */
  lemma {:induction false} ScriptStatsTotal(e: Existing, fails: Call -> Option<string>, threads: Threads,
                                            nowUtc: int, w: ThreadEmailClassifier.World)
    requires e.Valid()
    ensures Total(ScriptStats(e, fails, threads, nowUtc, w)) == |ScriptRequests(e, fails, threads, nowUtc, w)|
  {
    if threads != [] {
      var n := |threads| - 1;
      ScriptStatsTotal(e, fails, threads[..n], nowUtc, w);
      var init := ScriptStats(e, fails, threads[..n], nowUtc, w);
      if Decide(threads[n], nowUtc, w).Success? {
        AddTotal(init, Decide(threads[n], nowUtc, w).value.actualLabel, |ThreadRequests(e, fails, threads[n], nowUtc, w)|);
      }
    }
  }

  /** Once every required name exists, each request of a thread adds the
      id of the name its label maps to, and with a server that accepts
      every call each of its e-mails gets one. */
  lemma ThreadLabelIsDecided(e: Existing, fails: Call -> Option<string>, t: Thread, nowUtc: int,
                             w: ThreadEmailClassifier.World)
    requires e.Valid() && Missing(e) == []
    requires Decide(t, nowUtc, w).Success?
    ensures var d := Decide(t, nowUtc, w).value;
      d.actualLabel in e.values
      && forall k :: 0 <= k < |ThreadRequests(e, fails, t, nowUtc, w)| ==>
           ThreadRequests(e, fails, t, nowUtc, w)[k].add == [e.values[d.actualLabel]]
    ensures (forall call :: fails(call).None?) ==> |ThreadRequests(e, fails, t, nowUtc, w)| == |t.emails|
  {
    var d := Decide(t, nowUtc, w).value;
    assert d.actualLabel in RequiredNames;
    assert d.actualLabel in e.values;
    assert MapOrSelf(LabelMapping, d.classification) == d.actualLabel;
    if forall call :: fails(call).None? {
      AcceptedAll(fails, TargetId(e, d.classification), t.emails);
    }
  }

  /** One pass of the thread loop: an undecidable thread counts all its
      e-mails as errors and sends nothing; otherwise its accepted requests
      are its labelled e-mails, counted under the thread's display name. */
  method LabelOneThread(m: FixedLabelManager, t: Thread, nowUtc: int, w: ThreadEmailClassifier.World,
                        labeled0: nat, errors0: nat, stats0: Counter<string>)
    returns (labeled: nat, errors: nat, stats: Counter<string>)
    requires m.existingLabels.Valid()
    requires stats0.Valid()
    modifies m.service
    ensures m.service.labels == old(m.service.labels)
    ensures m.service.modified == old(m.service.modified) + ThreadRequests(m.existingLabels, m.service.fails, t, nowUtc, w)
    ensures labeled == labeled0 + |ThreadRequests(m.existingLabels, m.service.fails, t, nowUtc, w)|
    ensures labeled + errors == labeled0 + errors0 + |t.emails|
    ensures stats == match Decide(t, nowUtc, w)
                     case Failure(_) => stats0
                     case Success(d) => Add(stats0, d.actualLabel, labeled - labeled0)
  {
    var d := Decide(t, nowUtc, w);
    if d.Failure? {
      return labeled0, errors0 + |t.emails|, stats0;
    }
    labeled, errors, stats := LabelDecided(m, t, d.value, labeled0, errors0, stats0);
  }

  /** The labelling of a thread once its label is decided: the e-mails
      labelled are those whose request was accepted, counted under the
      label's name; the others are errors. */
  method LabelDecided(m: FixedLabelManager, t: Thread, dec: Decision,
                      labeled0: nat, errors0: nat, stats0: Counter<string>)
    returns (labeled: nat, errors: nat, stats: Counter<string>)
    requires m.existingLabels.Valid()
    requires stats0.Valid()
    modifies m.service
    ensures m.service.labels == old(m.service.labels)
    ensures m.service.modified == old(m.service.modified)
      + AcceptedRequests(m.service.fails, TargetId(m.existingLabels, dec.classification), t.emails)
    ensures labeled == labeled0 + |AcceptedRequests(m.service.fails, TargetId(m.existingLabels, dec.classification), t.emails)|
    ensures labeled + errors == labeled0 + errors0 + |t.emails|
    ensures stats == Add(stats0, dec.actualLabel, labeled - labeled0)
  {
    var success := m.LabelThread(t, dec.classification);
    stats := Add(stats0, dec.actualLabel, success);
    labeled := labeled0 + success;
    errors := errors0 + (|t.emails| - success);
  }

  /** The thread loop of `fixed_email_labeling`: the accepted requests are
      those of the threads in order, every e-mail is counted once, as
      labelled or as an error, and the statistics are the per-label fold. */
  method LabelThreads(m: FixedLabelManager, threads: Threads, nowUtc: int, w: ThreadEmailClassifier.World)
    returns (labeled: nat, errors: nat, stats: Counter<string>)
    requires m.existingLabels.Valid()
    modifies m.service
    ensures m.service.labels == old(m.service.labels)
    ensures m.service.modified == old(m.service.modified) + ScriptRequests(m.existingLabels, m.service.fails, threads, nowUtc, w)
    ensures labeled == |ScriptRequests(m.existingLabels, m.service.fails, threads, nowUtc, w)|
    ensures labeled + errors == |Flatten(threads)|
    ensures stats == ScriptStats(m.existingLabels, m.service.fails, threads, nowUtc, w)
    ensures stats.Valid() && Total(stats) == labeled
  {
    ghost var e, fails := m.existingLabels, m.service.fails;
    labeled, errors := 0, 0;
    stats := Empty();
    var i := 0;
    while i < |threads|
      invariant 0 <= i <= |threads|
      invariant m.service.labels == old(m.service.labels)
      invariant m.service.modified == old(m.service.modified) + ScriptRequests(e, fails, threads[..i], nowUtc, w)
      invariant labeled == |ScriptRequests(e, fails, threads[..i], nowUtc, w)|
      invariant labeled + errors == |Flatten(threads[..i])|
      invariant stats == ScriptStats(e, fails, threads[..i], nowUtc, w)
    {
      ScriptStep(e, fails, threads, i, nowUtc, w);
      ghost var before := ScriptRequests(e, fails, threads[..i], nowUtc, w);
      labeled, errors, stats := LabelOneThread(m, threads[i], nowUtc, w, labeled, errors, stats);
      SnocAssocSeq(old(m.service.modified), before, ThreadRequests(e, fails, threads[i], nowUtc, w));
      i := i + 1;
    }
    PrefixAll(threads);
    ScriptStatsTotal(e, fails, threads, nowUtc, w);
  }

  /** `fixed_email_labeling` after authentication. `fetched` is what
      `fetch_emails` returned and `nowUtc` the clock. */
  method FixedEmailLabeling(m: FixedLabelManager, fetched: seq<EmailMessage>, nowUtc: int,
                            w: ThreadEmailClassifier.World)
    returns (o: ScriptOutcome)
    requires m.existingLabels.Valid()
    modifies m.service
    ensures o.MissingLabels? <==> Missing(m.existingLabels) != []
    ensures o.MissingLabels? ==> o.missing == Missing(m.existingLabels)
    ensures o.NoEmails? <==> Missing(m.existingLabels) == [] && fetched == []
    ensures o.Crashed? <==> Missing(m.existingLabels) == [] && fetched != [] && Organized(fetched).Failure?
    ensures o.Crashed? ==> o.error == CompareError
    ensures m.service.labels == old(m.service.labels)
    ensures !o.Finished? ==> m.service.modified == old(m.service.modified)
    ensures o.Finished? ==> (Organized(fetched).Success?
      && o.threads == |Organized(fetched).value|
      && m.service.modified == old(m.service.modified)
           + ScriptRequests(m.existingLabels, m.service.fails, Organized(fetched).value, nowUtc, w)
      && o.labeled == |ScriptRequests(m.existingLabels, m.service.fails, Organized(fetched).value, nowUtc, w)|
      && o.labeled + o.errors == |fetched|
      && o.labelStats == ScriptStats(m.existingLabels, m.service.fails, Organized(fetched).value, nowUtc, w)
      && o.labelStats.Valid() && Total(o.labelStats) == o.labeled)
  {
    var missing := Missing(m.existingLabels);
    if missing != [] {
      return MissingLabels(missing);
    }
    if fetched == [] {
      return NoEmails;
    }
    var organized := OrganizeEmailsByThread(fetched);
    if organized.Failure? {
      return Crashed(organized.error);
    }
    var labeled, errors, stats := LabelThreads(m, organized.value, nowUtc, w);
    OrganizedPartition(fetched);
    assert |multiset(Flatten(organized.value))| == |multiset(fetched)|;
    return Finished(labeled, errors, |organized.value|, stats);
  }
}
