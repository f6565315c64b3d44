/** The Gmail manager agent (agents/gmail_manager_agent.py): it turns a
    label key into a Gmail label id, finding or creating the label, applies
    labels with the inbox rule (only "to do" stays in the inbox), and keeps
    a log of what it applied so that it can be reverted. Building the Gmail
    service and looking up credentials are parameters. */
module GmailManagerAgent {
  import opened Wrappers
  import opened Text
  import opened EmailModels
  import opened Collections
  import opened GmailService

  const ToDoKey: string := "to do"
  const HistoryKey: string := "history"
  const SpamKey: string := "spam"
  const Inbox: string := "INBOX"

  /** The name this agent gives spam labels. */
  const Promotional: string := "\U{1F5D1}\U{FE0F} Promotional"

  /** `label_mapping`: the Gmail display name of each label key. */
  const LabelMapping: map<string, string> := map[
    "to do" := "\U{1F4CB} To Do",
    "awaiting reply" := "\U{23F3} Awaiting Reply",
    "fyi" := "\U{2139}\U{FE0F} FYI",
    "done" := "\U{2705} Done",
    "spam" := Promotional,
    "history" := "\U{1F4DC} History"]

  /** Every label the classifiers produce has a display name. */
  lemma EveryLabelMapped(l: EmailLabel)
    ensures l.Value() in LabelMapping
    ensures MapOrSelf(LabelMapping, l.Value()) != l.Value()
  {
  }

  /** `fallback_mapping.get(key, [])`. */
  function Fallbacks(key: string): seq<string> {
    if key == SpamKey then ["SPAM", "spam", Promotional, "promotional"] else []
  }

  /** Some name of fs equals lname once lowered. */
  predicate LowerAmong(lname: string, fs: seq<string>) {
    fs != [] && (lname == Lower(fs[0]) || LowerAmong(lname, fs[1..]))
  }

  /** Some fallback name equals the label's name, ignoring case. */
  predicate FallbackMatch(name: string, key: string) {
    LowerAmong(Lower(name), Fallbacks(key))
  }

  /** An existing label that stands for the key: its name is the display
      name or the key itself, or a fallback name in any case. */
  predicate Matches(l: GmailLabel, key: string) {
    l.name == MapOrSelf(LabelMapping, key) || l.name == key || FallbackMatch(l.name, key)
  }

  /** The position of the first label that stands for the key. */
  function Resolve(ls: seq<GmailLabel>, key: string): (r: Option<nat>)
    ensures r.Some? ==> r.value < |ls|
  {
    if ls == [] then None
    else if Matches(ls[0], key) then Some(0)
    else match Resolve(ls[1..], key)
      case None => None
      case Some(j) => Some(j + 1)
  }

  /** The label resolved is the first that stands for the key, and there
      is none only when no label stands for it. */
  lemma {:induction false} ResolveFinds(ls: seq<GmailLabel>, key: string)
    ensures Resolve(ls, key).None? <==> forall j :: 0 <= j < |ls| ==> !Matches(ls[j], key)
    ensures Resolve(ls, key).Some? ==> (Matches(ls[Resolve(ls, key).value], key)
      && forall j :: 0 <= j < Resolve(ls, key).value ==> !Matches(ls[j], key))
  {
    if ls != [] && !Matches(ls[0], key) {
      ResolveFinds(ls[1..], key);
      forall j | 0 <= j < |ls| && j != 0
        ensures ls[j] == ls[1..][j - 1]
      {
      }
    }
  }

  /** The first label that stands for the key is the one resolved. */
  lemma ResolveFirst(ls: seq<GmailLabel>, key: string, i: nat)
    requires i < |ls| && Matches(ls[i], key)
    requires forall j :: 0 <= j < i ==> !Matches(ls[j], key)
    ensures Resolve(ls, key) == Some(i)
  {
    ResolveFinds(ls, key);
  }

  /** What `_get_or_create_label` leaves behind: the label id it returns
      and the labels of the mailbox afterwards. */
  datatype LabelLookup = LabelLookup(id: string, labels: seq<GmailLabel>)

  /** `_get_or_create_label` on a mailbox holding the labels ls: the first
      label that stands for the key; otherwise a new user label under the
      display name; "INBOX" when listing or creating fails. */
  function GetOrCreate(ls: seq<GmailLabel>, fails: Call -> Option<string>, newId: string -> string,
                       key: string): (r: LabelLookup)
    ensures r.labels == ls || r.labels == ls + [GmailLabel(r.id, MapOrSelf(LabelMapping, key), Some("user"))]
  {
    if fails(ListLabels).Some? then LabelLookup(Inbox, ls)
    else match Resolve(ls, key)
      case Some(i) => LabelLookup(ls[i].id, ls)
      case None =>
        var name := MapOrSelf(LabelMapping, key);
        if fails(CreateLabel(name)).Some? then LabelLookup(Inbox, ls)
        else LabelLookup(newId(name), ls + [GmailLabel(newId(name), name, Some("user"))])
  }

  /** A label found first stays the first found when labels are appended. */
  lemma ResolvePrefix(ls: seq<GmailLabel>, ls': seq<GmailLabel>, key: string)
    requires Resolve(ls, key).Some? && ls <= ls'
    ensures Resolve(ls', key) == Resolve(ls, key)
  {
    ResolveFinds(ls, key);
    var i := Resolve(ls, key).value;
    assert ls'[i] == ls[i];
    forall j | 0 <= j < i
      ensures !Matches(ls'[j], key)
    {
      assert ls'[j] == ls[j];
    }
    ResolveFirst(ls', key, i);
  }

  /** Resolving the same key twice is resolving it once; once listing and
      creating work, the second time finds the label. */
  lemma GetOrCreateIdempotent(ls: seq<GmailLabel>, fails: Call -> Option<string>, newId: string -> string,
                              key: string)
    ensures GetOrCreate(GetOrCreate(ls, fails, newId, key).labels, fails, newId, key)
         == GetOrCreate(ls, fails, newId, key)
    ensures fails(ListLabels).None? && fails(CreateLabel(MapOrSelf(LabelMapping, key))).None? ==>
      Resolve(GetOrCreate(ls, fails, newId, key).labels, key).Some?
  {
    if fails(ListLabels).None? && Resolve(ls, key).None? && fails(CreateLabel(MapOrSelf(LabelMapping, key))).None? {
      var name := MapOrSelf(LabelMapping, key);
      var created := GmailLabel(newId(name), name, Some("user"));
      var ls' := ls + [created];
      ResolveFinds(ls, key);
      assert ls'[|ls|] == created;
      forall j | 0 <= j < |ls|
        ensures !Matches(ls'[j], key)
      {
        assert ls'[j] == ls[j];
      }
      ResolveFirst(ls', key, |ls|);
    }
  }

  /** Once the key's label exists, resolving the key on a mailbox that has
      only grown since gives the same id and creates nothing: reverting
      removes the very label that applying added. */
  lemma GetOrCreateStable(ls: seq<GmailLabel>, ls': seq<GmailLabel>, fails: Call -> Option<string>,
                          newId: string -> string, key: string)
    requires fails(ListLabels).None? && Resolve(ls, key).Some? && ls <= ls'
    ensures GetOrCreate(ls', fails, newId, key) == LabelLookup(GetOrCreate(ls, fails, newId, key).id, ls')
  {
    ResolvePrefix(ls, ls', key);
  }

  /** After the first search fails for "spam", the source looks once more
      for a label named exactly "SPAM"; that search never finds one, since
      such a label already matches the fallback "SPAM". */
  lemma SystemSpamAlreadyMatched(ls: seq<GmailLabel>)
    requires Resolve(ls, SpamKey).None?
    ensures forall j :: 0 <= j < |ls| ==> ls[j].name != "SPAM"
  {
    ResolveFinds(ls, SpamKey);
    forall j | 0 <= j < |ls|
      ensures ls[j].name != "SPAM"
    {
      assert LowerAmong(Lower("SPAM"), Fallbacks(SpamKey));
    }
  }

  /** The request that applies a label: the label is added, and the inbox
      is removed for every key except "to do". */
  function InboxRequest(emailId: string, labelId: string, key: string): (r: ModifyRequest)
    ensures r.emailId == emailId && r.add == [labelId]
    ensures Inbox in r.remove <==> key != ToDoKey
    ensures |r.remove| <= 1
  {
    ModifyRequest(emailId, [labelId], if key != ToDoKey then [Inbox] else [])
  }

  /** The outcome of `_apply_label_with_inbox_management`. */
  datatype Application = Applied(inboxModified: bool, labelApplied: string) | NotApplied(error: string)

  /** An entry of `applied_labels`; the time stamp is not modelled. */
  datatype AppliedLabel = AppliedLabel(emailId: string, labelKey: string, subject: string)

  /** One entry of the `classifications` argument: the keys may be
      missing. */
  datatype ClassificationItem = ClassificationItem(emailId: Option<string>, labelKey: Option<string>,
                                                   subject: Option<string>)

  /** The message of the `KeyError` a missing key raises, as
      `"Email {email_id or 'unknown'}: {e}"`. */
  function KeyErrorMessage(c: ClassificationItem): string {
    "Email " + c.emailId.GetOr("unknown") + ": '" + (if c.emailId.None? then "email_id" else "label") + "'"
  }

  /** How many records are for labels that leave the inbox. */
  function OutsideInbox(rs: seq<AppliedLabel>): (n: nat)
    ensures n <= |rs|
  {
    if rs == [] then 0 else OutsideInbox(rs[..|rs| - 1]) + (if rs[|rs| - 1].labelKey != ToDoKey then 1 else 0)
  }

  /** What `apply_labels_to_emails` returns. */
  datatype LabelingResult =
    | NothingToLabel
    | Labeled(labelsApplied: nat, emailsProcessed: nat, inboxModifications: nat, errors: seq<string>)
    | LabelingFailed(error: string)

  /** What `apply_history_labels` returns. */
  datatype HistoryResult =
    | NoHistory
    | HistoryApplied(applied: nat, totalEmails: nat, errors: seq<string>)
    | HistoryFailed(error: string)

  /** What `revert_all_labels` returns. */
  datatype RevertResult =
    | NothingToRevert
    | Reverted(revertedCount: nat, totalLabels: nat, errors: seq<string>, userEmail: string)
    | RevertFailed(error: string)

  const NoCredentials: string := "No credentials found for user"

  /** What a labelling loop has done so far: the labels of the mailbox,
      the log records it made, the requests the server accepted and the
      error messages it collected. */
  datatype Progress = Progress(labels: seq<GmailLabel>, records: seq<AppliedLabel>,
                               requests: seq<ModifyRequest>, errors: seq<string>)

  /** A classification that has both an e-mail id and a label. */
  predicate WellFormed(c: ClassificationItem) {
    c.emailId.Some? && c.labelKey.Some?
  }

  /** One classification of `apply_labels_to_emails`: resolve its label,
      send the inbox request, and log it if the server accepts it. */
  function LabelStep(p: Progress, fails: Call -> Option<string>, newId: string -> string,
                     c: ClassificationItem): Progress
  {
    if !WellFormed(c) then p.(errors := p.errors + [KeyErrorMessage(c)])
    else
      var emailId, key := c.emailId.value, c.labelKey.value;
      var l := GetOrCreate(p.labels, fails, newId, key);
      var request := InboxRequest(emailId, l.id, key);
      match fails(ModifyMessage(request))
      case None => Progress(l.labels, p.records + [AppliedLabel(emailId, key, c.subject.GetOr(""))],
                            p.requests + [request], p.errors)
      case Some(e) => p.(labels := l.labels, errors := p.errors + ["Email " + emailId + ": " + e])
  }

  /** The loop of `apply_labels_to_emails` over the classifications, on a
      mailbox that starts with the labels ls. Each accepted request adds
      one label and removes the inbox except for "to do", and is logged
      under its e-mail and key. */
  function LabelingPass(ls: seq<GmailLabel>, fails: Call -> Option<string>, newId: string -> string,
                        cs: seq<ClassificationItem>): (p: Progress)
    ensures |p.records| + |p.errors| == |cs| && |p.requests| == |p.records|
    ensures forall k :: 0 <= k < |p.records| ==>
      |p.requests[k].add| == 1
      && p.requests[k] == InboxRequest(p.records[k].emailId, p.requests[k].add[0], p.records[k].labelKey)
  {
    if cs == [] then Progress(ls, [], [], [])
    else LabelStep(LabelingPass(ls, fails, newId, cs[..|cs| - 1]), fails, newId, cs[|cs| - 1])
  }

  lemma LabelingPassStep(ls: seq<GmailLabel>, fails: Call -> Option<string>, newId: string -> string,
                         cs: seq<ClassificationItem>, i: nat)
    requires i < |cs|
    ensures LabelingPass(ls, fails, newId, cs[..i + 1])
         == LabelStep(LabelingPass(ls, fails, newId, cs[..i]), fails, newId, cs[i])
  {
    PrefixStep(cs, i);
  }

  /** With a server that accepts every call, each classification that has
      both keys is labelled and logged, in order, and only those. */
  lemma {:induction false} LabelingAllAccepted(ls: seq<GmailLabel>, fails: Call -> Option<string>,
                                               newId: string -> string, cs: seq<ClassificationItem>)
    requires forall c :: fails(c).None?
    ensures var p, wf := LabelingPass(ls, fails, newId, cs), Filter(cs, WellFormed);
      |p.records| == |wf|
      && forall k :: 0 <= k < |wf| ==>
           p.records[k] == AppliedLabel(wf[k].emailId.value, wf[k].labelKey.value, wf[k].subject.GetOr(""))
  {
    if cs != [] {
      var n := |cs| - 1;
      LabelingAllAccepted(ls, fails, newId, cs[..n]);
      FilterSnoc(cs, n, WellFormed);
      PrefixAll(cs);
    }
  }

  /** Every logged record's key resolves, on the labels p has reached, to
      a label whose id is the one its request added. */
  predicate IdsResolve(p: Progress) {
    |p.requests| == |p.records|
    && forall k :: 0 <= k < |p.records| ==>
         |p.requests[k].add| == 1 && Resolve(p.labels, p.records[k].labelKey).Some?
         && p.labels[Resolve(p.labels, p.records[k].labelKey).value].id == p.requests[k].add[0]
  }

  /** One classification keeps every logged key resolving to its id. */
  lemma LabelStepResolves(q: Progress, fails: Call -> Option<string>, newId: string -> string,
                          c: ClassificationItem)
    requires fails(ListLabels).None? && forall n :: fails(CreateLabel(n)).None?
    requires IdsResolve(q)
    ensures IdsResolve(LabelStep(q, fails, newId, c))
  {
    if WellFormed(c) {
      var p := LabelStep(q, fails, newId, c);
      var key := c.labelKey.value;
      var l := GetOrCreate(q.labels, fails, newId, key);
      assert q.labels <= p.labels;
      forall k | 0 <= k < |q.records|
        ensures Resolve(p.labels, q.records[k].labelKey) == Resolve(q.labels, q.records[k].labelKey)
      {
        ResolvePrefix(q.labels, p.labels, q.records[k].labelKey);
      }
      GetOrCreateIdempotent(q.labels, fails, newId, key);
    }
  }

  lemma {:induction false} LabelingResolves(ls: seq<GmailLabel>, fails: Call -> Option<string>,
                                            newId: string -> string, cs: seq<ClassificationItem>)
    requires fails(ListLabels).None? && forall n :: fails(CreateLabel(n)).None?
    ensures IdsResolve(LabelingPass(ls, fails, newId, cs))
  {
    if cs != [] {
      var n := |cs| - 1;
      LabelingResolves(ls, fails, newId, cs[..n]);
      LabelStepResolves(LabelingPass(ls, fails, newId, cs[..n]), fails, newId, cs[n]);
    }
  }

  /** While listing and creating labels succeed, the key of every logged
      record resolves, in the mailbox afterwards, to the label id its
      request added, and resolving it there creates nothing. */
  lemma LabelingIdsResolve(ls: seq<GmailLabel>, fails: Call -> Option<string>,
                           newId: string -> string, cs: seq<ClassificationItem>)
    requires fails(ListLabels).None? && forall n :: fails(CreateLabel(n)).None?
    ensures forall k :: 0 <= k < |LabelingPass(ls, fails, newId, cs).records| ==>
      GetOrCreate(LabelingPass(ls, fails, newId, cs).labels, fails, newId, LabelingPass(ls, fails, newId, cs).records[k].labelKey)
      == LabelLookup(LabelingPass(ls, fails, newId, cs).requests[k].add[0], LabelingPass(ls, fails, newId, cs).labels)
  {
    LabelingResolves(ls, fails, newId, cs);
  }

  /** A history request: add the history label, remove the inbox. */
  function HistoryRequest(emailId: string, labelId: string): ModifyRequest {
    ModifyRequest(emailId, [labelId], [Inbox])
  }

  /** The loop of `apply_history_labels` once the history label l has been
      resolved: each accepted request is logged as a historical e-mail. */
  function HistoryPass(l: LabelLookup, fails: Call -> Option<string>, emailIds: seq<string>): (p: Progress)
    ensures |p.records| + |p.errors| == |emailIds| && |p.requests| == |p.records|
    ensures p.labels == l.labels
    ensures forall k :: 0 <= k < |p.records| ==>
      p.requests[k] == HistoryRequest(p.records[k].emailId, l.id)
      && p.records[k] == AppliedLabel(p.records[k].emailId, HistoryKey, "Historical email")
  {
    if emailIds == [] then Progress(l.labels, [], [], [])
    else HistoryStep(HistoryPass(l, fails, emailIds[..|emailIds| - 1]), fails, l.id, emailIds[|emailIds| - 1])
  }

  /** One e-mail of `apply_history_labels`, with the history label id. */
  function HistoryStep(p: Progress, fails: Call -> Option<string>, labelId: string, emailId: string): Progress {
    var request := HistoryRequest(emailId, labelId);
    match fails(ModifyMessage(request))
    case None => p.(records := p.records + [AppliedLabel(emailId, HistoryKey, "Historical email")],
                    requests := p.requests + [request])
    case Some(err) => p.(errors := p.errors + ["Email " + emailId + ": " + err])
  }

  lemma HistoryPassStep(l: LabelLookup, fails: Call -> Option<string>, emailIds: seq<string>, i: nat)
    requires i < |emailIds|
    ensures HistoryPass(l, fails, emailIds[..i + 1]) == HistoryStep(HistoryPass(l, fails, emailIds[..i]), fails, l.id, emailIds[i])
  {
    PrefixStep(emailIds, i);
  }

  /** The e-mails logged as history are exactly those whose request the
      server accepted, in order. */
  lemma {:induction false} HistoryAccepted(l: LabelLookup, fails: Call -> Option<string>, emailIds: seq<string>)
    ensures var p, ok := HistoryPass(l, fails, emailIds),
                         Filter(emailIds, e => fails(ModifyMessage(HistoryRequest(e, l.id))).None?);
      |p.records| == |ok| && forall k :: 0 <= k < |ok| ==> p.records[k].emailId == ok[k]
  {
    if emailIds != [] {
      var n := |emailIds| - 1;
      HistoryAccepted(l, fails, emailIds[..n]);
      FilterSnoc(emailIds, n, e => fails(ModifyMessage(HistoryRequest(e, l.id))).None?);
      PrefixAll(emailIds);
    }
  }

  /** One record of `revert_all_labels`: resolve its label again, then
      remove it and restore the inbox. */
  function RevertStep(p: Progress, fails: Call -> Option<string>, newId: string -> string,
                      record: AppliedLabel): Progress
  {
    var l := GetOrCreate(p.labels, fails, newId, record.labelKey);
    var request := ModifyRequest(record.emailId, [Inbox], [l.id]);
    match fails(ModifyMessage(request))
    case None => Progress(l.labels, p.records + [record], p.requests + [request], p.errors)
    case Some(e) => p.(labels := l.labels, errors := p.errors + ["Failed to revert " + record.emailId + ": " + e])
  }

  /** The loop of `revert_all_labels` over the log, on a mailbox that
      starts with the labels ls; `records` are the records reverted. Each
      accepted request restores the inbox and removes one label. */
  function RevertPass(ls: seq<GmailLabel>, fails: Call -> Option<string>, newId: string -> string,
                      rs: seq<AppliedLabel>): (p: Progress)
    ensures |p.records| + |p.errors| == |rs| && |p.requests| == |p.records|
    ensures forall k :: 0 <= k < |p.records| ==>
      p.requests[k].emailId == p.records[k].emailId && p.requests[k].add == [Inbox] && |p.requests[k].remove| == 1
  {
    if rs == [] then Progress(ls, [], [], [])
    else RevertStep(RevertPass(ls, fails, newId, rs[..|rs| - 1]), fails, newId, rs[|rs| - 1])
  }

  lemma RevertPassStep(ls: seq<GmailLabel>, fails: Call -> Option<string>, newId: string -> string,
                       rs: seq<AppliedLabel>, i: nat)
    requires i < |rs|
    ensures RevertPass(ls, fails, newId, rs[..i + 1]) == RevertStep(RevertPass(ls, fails, newId, rs[..i]), fails, newId, rs[i])
  {
    PrefixStep(rs, i);
  }

  /** Reverting on a mailbox where every logged key already resolves to
      the id ids[k] creates no label and, with a server that accepts every
      call, sends for each record the request removing exactly that id. */
  lemma {:induction false} RevertResolved(ls: seq<GmailLabel>, fails: Call -> Option<string>, newId: string -> string,
                                          rs: seq<AppliedLabel>, ids: seq<string>)
    requires forall c :: fails(c).None?
    requires |ids| == |rs|
    requires forall k {:trigger GetOrCreate(ls, fails, newId, rs[k].labelKey)} :: 0 <= k < |rs| ==>
      GetOrCreate(ls, fails, newId, rs[k].labelKey) == LabelLookup(ids[k], ls)
    ensures var p := RevertPass(ls, fails, newId, rs);
      p.labels == ls && p.records == rs && p.errors == []
      && forall k :: 0 <= k < |rs| ==> p.requests[k] == ModifyRequest(rs[k].emailId, [Inbox], [ids[k]])
  {
    if rs != [] {
      var n := |rs| - 1;
      forall k | 0 <= k < n
        ensures GetOrCreate(ls, fails, newId, rs[..n][k].labelKey) == LabelLookup(ids[..n][k], ls)
      {
        assert rs[..n][k] == rs[k] && ids[..n][k] == ids[k];
      }
      RevertResolved(ls, fails, newId, rs[..n], ids[..n]);
      var q := RevertPass(ls, fails, newId, rs[..n]);
      assert GetOrCreate(ls, fails, newId, rs[n].labelKey) == LabelLookup(ids[n], ls);
      var request := ModifyRequest(rs[n].emailId, [Inbox], [ids[n]]);
      assert RevertPass(ls, fails, newId, rs) == Progress(ls, q.records + [rs[n]], q.requests + [request], []);
      ButLast(rs);
    }
  }

  /** Reverting right after labelling, with a server that accepts every
      call, undoes it: each logged e-mail loses exactly the label id it was
      given and gets the inbox back, and no label is created. */
  lemma ApplyThenRevert(ls: seq<GmailLabel>, fails: Call -> Option<string>, newId: string -> string,
                        cs: seq<ClassificationItem>)
    requires forall c :: fails(c).None?
    ensures var a := LabelingPass(ls, fails, newId, cs);
      var v := RevertPass(a.labels, fails, newId, a.records);
      v.labels == a.labels && v.records == a.records && v.errors == []
      && forall k :: 0 <= k < |a.records| ==>
           v.requests[k] == ModifyRequest(a.records[k].emailId, [Inbox], a.requests[k].add)
  {
    var a := LabelingPass(ls, fails, newId, cs);
    LabelingIdsResolve(ls, fails, newId, cs);
    var ids := seq(|a.records|, k requires 0 <= k < |a.records| => a.requests[k].add[0]);
    forall k | 0 <= k < |a.records|
      ensures GetOrCreate(a.labels, fails, newId, a.records[k].labelKey) == LabelLookup(ids[k], a.labels)
    {
      assert ids[k] == a.requests[k].add[0];
    }
    RevertResolved(a.labels, fails, newId, a.records, ids);
  }

  class GmailManager {
    /** `applied_labels`: what was applied, for reverting. */
    var appliedLabels: seq<AppliedLabel>

    constructor()
      ensures appliedLabels == []
    {
      appliedLabels := [];
    }

    /** `_get_or_create_label`: the first label that stands for the key;
        otherwise a new label under the display name; "INBOX" when listing
        or creating fails. */
    method GetOrCreateLabel(g: Mailbox, key: string) returns (id: string)
      modifies g
      ensures g.modified == old(g.modified)
      ensures id == GetOrCreate(old(g.labels), g.fails, g.newId, key).id
      ensures g.labels == GetOrCreate(old(g.labels), g.fails, g.newId, key).labels
    {
      var display := MapOrSelf(LabelMapping, key);
      var listed := g.List();
      if listed.Failure? {
        return Inbox;
      }
      var ls := listed.value;
      var i := 0;
      while i < |ls|
        invariant 0 <= i <= |ls|
        invariant forall j :: 0 <= j < i ==> !Matches(ls[j], key)
      {
        var name := ls[i].name;
        if name == display || name == key || FallbackMatch(name, key) {
          ResolveFirst(ls, key, i);
          return ls[i].id;
        }
        i := i + 1;
      }
      ResolveFinds(ls, key);
      var createName := if key == SpamKey then Promotional else display;
      var created := g.Create(createName);
      if created.Failure? {
        return Inbox;
      }
      return created.value;
    }

    /** `_apply_label_with_inbox_management`: resolve the label, then one
        modify request that adds it and, except for "to do", removes the
        inbox. */
    method ApplyLabelWithInboxManagement(g: Mailbox, emailId: string, key: string) returns (r: Application)
      modifies g
      ensures var l := GetOrCreate(old(g.labels), g.fails, g.newId, key);
        var request := InboxRequest(emailId, l.id, key);
        g.labels == l.labels
        && (g.fails(ModifyMessage(request)).None? ==>
              r == Applied(key != ToDoKey, key) && g.modified == old(g.modified) + [request])
        && (g.fails(ModifyMessage(request)).Some? ==>
              r == NotApplied(g.fails(ModifyMessage(request)).value) && g.modified == old(g.modified))
    {
      var labelId := GetOrCreateLabel(g, key);
      var request := InboxRequest(emailId, labelId, key);
      var err := g.Modify(request);
      if err.Some? {
        return NotApplied(err.value);
      }
      return Applied(key != ToDoKey, key);
    }

    /** `apply_labels_to_emails`. `buildError` is the exception building
        the service raises, if any. */
    method ApplyLabelsToEmails(g: Mailbox, buildError: Option<string>, cs: seq<ClassificationItem>)
      returns (r: LabelingResult)
      modifies this, g
      ensures cs == [] || buildError.Some? ==>
        appliedLabels == old(appliedLabels) && g.labels == old(g.labels) && g.modified == old(g.modified)
      ensures cs == [] ==> r == NothingToLabel
      ensures cs != [] && buildError.Some? ==> r == LabelingFailed(buildError.value)
      ensures cs != [] && buildError.None? ==>
        var p := LabelingPass(old(g.labels), g.fails, g.newId, cs);
        r == Labeled(|p.records|, |cs|, OutsideInbox(p.records), p.errors)
        && appliedLabels == old(appliedLabels) + p.records
        && g.modified == old(g.modified) + p.requests
        && g.labels == p.labels
    {
      if cs == [] {
        return NothingToLabel;
      }
      if buildError.Some? {
        return LabelingFailed(buildError.value);
      }
      ghost var log0, mods0, labels0 := appliedLabels, g.modified, g.labels;
      var applied, inbox := 0, 0;
      var errors: seq<string> := [];
      var i := 0;
      while i < |cs|
        invariant 0 <= i <= |cs|
        invariant Tracks(g, log0, mods0, LabelingPass(labels0, g.fails, g.newId, cs[..i]), applied, inbox, errors)
      {
        LabelingPassStep(labels0, g.fails, g.newId, cs, i);
        applied, inbox, errors :=
          LabelClassification(g, cs[i], log0, mods0, LabelingPass(labels0, g.fails, g.newId, cs[..i]), applied, inbox, errors);
        i := i + 1;
      }
      PrefixAll(cs);
      return Labeled(applied, |cs|, inbox, errors);
    }

    /** The counters, the log and the mailbox are what the progress p
        says, over the log log0 and the requests mods0 of the start. */
    ghost predicate Tracks(g: Mailbox, log0: seq<AppliedLabel>, mods0: seq<ModifyRequest>, p: Progress,
                           applied: nat, inbox: nat, errors: seq<string>)
      reads this, g
    {
      Logging(g, log0, mods0, p, applied, errors) && inbox == OutsideInbox(p.records)
    }

    /** The counter, the errors, the log and the mailbox are what the
        progress p says, over the log log0 and the requests mods0 of the
        start. */
    ghost predicate Logging(g: Mailbox, log0: seq<AppliedLabel>, mods0: seq<ModifyRequest>, p: Progress,
                            applied: nat, errors: seq<string>)
      reads this, g
    {
      applied == |p.records| && errors == p.errors
      && appliedLabels == log0 + p.records && g.modified == mods0 + p.requests && g.labels == p.labels
    }

    /** The body of the loop of `apply_labels_to_emails` on one
        classification. */
    method LabelClassification(g: Mailbox, c: ClassificationItem, ghost log0: seq<AppliedLabel>, ghost mods0: seq<ModifyRequest>,
                    ghost p: Progress, applied: nat, inbox: nat, errors: seq<string>)
      returns (applied': nat, inbox': nat, errors': seq<string>)
      requires Tracks(g, log0, mods0, p, applied, inbox, errors)
      modifies this, g
      ensures Tracks(g, log0, mods0, LabelStep(p, g.fails, g.newId, c), applied', inbox', errors')
    {
      applied', inbox', errors' := applied, inbox, errors;
      if c.emailId.None? || c.labelKey.None? {
        errors' := errors + [KeyErrorMessage(c)];
        return;
      }
      var emailId, key := c.emailId.value, c.labelKey.value;
      var res := ApplyLabelWithInboxManagement(g, emailId, key);
      if res.Applied? {
        applied' := applied + 1;
        if res.inboxModified {
          inbox' := inbox + 1;
        }
        var record := AppliedLabel(emailId, key, c.subject.GetOr(""));
        SnocFront(p.records, record);
        SnocAssoc(log0, p.records, record);
        SnocAssoc(mods0, p.requests, InboxRequest(emailId, GetOrCreate(p.labels, g.fails, g.newId, key).id, key));
        appliedLabels := appliedLabels + [record];
      } else {
        errors' := errors + ["Email " + emailId + ": " + res.error];
      }
    }

    /** `apply_history_labels`: one history label, resolved once, added to
        every message together with the removal of the inbox. */
    method ApplyHistoryLabels(g: Mailbox, buildError: Option<string>, emailIds: seq<string>)
      returns (r: HistoryResult)
      modifies this, g
      ensures emailIds == [] || buildError.Some? ==>
        appliedLabels == old(appliedLabels) && g.labels == old(g.labels) && g.modified == old(g.modified)
      ensures emailIds == [] ==> r == NoHistory
      ensures emailIds != [] && buildError.Some? ==> r == HistoryFailed(buildError.value)
      ensures emailIds != [] && buildError.None? ==>
        var p := HistoryPass(GetOrCreate(old(g.labels), g.fails, g.newId, HistoryKey), g.fails, emailIds);
        r == HistoryApplied(|p.records|, |emailIds|, p.errors)
        && appliedLabels == old(appliedLabels) + p.records
        && g.modified == old(g.modified) + p.requests
        && g.labels == p.labels
    {
      if emailIds == [] {
        return NoHistory;
      }
      if buildError.Some? {
        return HistoryFailed(buildError.value);
      }
      var historyId := GetOrCreateLabel(g, HistoryKey);
      var applied, errors := LabelHistory(g, historyId, emailIds);
      return HistoryApplied(applied, |emailIds|, errors);
    }

    /** The loop of `apply_history_labels` once the history label has the
        id historyId. */
    method LabelHistory(g: Mailbox, historyId: string, emailIds: seq<string>)
      returns (applied: nat, errors: seq<string>)
      modifies this, g
      ensures var p := HistoryPass(LabelLookup(historyId, old(g.labels)), g.fails, emailIds);
        applied == |p.records| && errors == p.errors
        && appliedLabels == old(appliedLabels) + p.records
        && g.modified == old(g.modified) + p.requests
        && g.labels == p.labels
    {
      ghost var l, log0, mods0 := LabelLookup(historyId, g.labels), appliedLabels, g.modified;
      applied, errors := 0, [];
      var i := 0;
      while i < |emailIds|
        invariant 0 <= i <= |emailIds|
        invariant Logging(g, log0, mods0, HistoryPass(l, g.fails, emailIds[..i]), applied, errors)
      {
        HistoryPassStep(l, g.fails, emailIds, i);
        applied, errors := LabelOneHistory(g, historyId, emailIds[i], log0, mods0, HistoryPass(l, g.fails, emailIds[..i]),
                                           applied, errors);
        i := i + 1;
      }
      PrefixAll(emailIds);
    }

    /** The body of the loop of `apply_history_labels` on one e-mail. */
    method LabelOneHistory(g: Mailbox, historyId: string, emailId: string, ghost log0: seq<AppliedLabel>,
                           ghost mods0: seq<ModifyRequest>, ghost p: Progress, applied: nat, errors: seq<string>)
      returns (applied': nat, errors': seq<string>)
      requires Logging(g, log0, mods0, p, applied, errors)
      modifies this, g
      ensures Logging(g, log0, mods0, HistoryStep(p, g.fails, historyId, emailId), applied', errors')
    {
      applied', errors' := applied, errors;
      var request := HistoryRequest(emailId, historyId);
      var err := g.Modify(request);
      if err.None? {
        var record := AppliedLabel(emailId, HistoryKey, "Historical email");
        SnocAssoc(log0, p.records, record);
        SnocAssoc(mods0, p.requests, request);
        applied' := applied + 1;
        appliedLabels := appliedLabels + [record];
      } else {
        errors' := errors + ["Email " + emailId + ": " + err.value];
      }
    }

    /** `revert_all_labels`: every logged label is resolved again (which
        may create it), removed, and the inbox restored; then the log is
        cleared. `hasCredentials` is whether the user's credentials were
        found. */
    method RevertAllLabels(g: Mailbox, hasCredentials: bool, buildError: Option<string>, userEmail: string)
      returns (r: RevertResult)
      modifies this, g
      ensures old(appliedLabels) == [] || !hasCredentials || buildError.Some? ==>
        appliedLabels == old(appliedLabels) && g.labels == old(g.labels) && g.modified == old(g.modified)
      ensures old(appliedLabels) == [] ==> r == NothingToRevert
      ensures old(appliedLabels) != [] && !hasCredentials ==> r == RevertFailed(NoCredentials)
      ensures old(appliedLabels) != [] && hasCredentials && buildError.Some? ==> r == RevertFailed(buildError.value)
      ensures old(appliedLabels) != [] && hasCredentials && buildError.None? ==>
        var p := RevertPass(old(g.labels), g.fails, g.newId, old(appliedLabels));
        r == Reverted(|p.records|, |old(appliedLabels)|, p.errors, userEmail)
        && appliedLabels == []
        && g.modified == old(g.modified) + p.requests
        && g.labels == p.labels
    {
      if appliedLabels == [] {
        return NothingToRevert;
      }
      if !hasCredentials {
        return RevertFailed(NoCredentials);
      }
      if buildError.Some? {
        return RevertFailed(buildError.value);
      }
      ghost var mods0, labels0 := g.modified, g.labels;
      var reverted := 0;
      var errors: seq<string> := [];
      var i := 0;
      while i < |appliedLabels|
        invariant 0 <= i <= |appliedLabels|
        invariant appliedLabels == old(appliedLabels)
        invariant Reverting(g, mods0, RevertPass(labels0, g.fails, g.newId, appliedLabels[..i]), reverted, errors)
      {
        RevertPassStep(labels0, g.fails, g.newId, appliedLabels, i);
        reverted, errors :=
          RevertOne(g, appliedLabels[i], mods0, RevertPass(labels0, g.fails, g.newId, appliedLabels[..i]), reverted, errors);
        i := i + 1;
      }
      PrefixAll(appliedLabels);
      var total := |appliedLabels|;
      appliedLabels := [];
      return Reverted(reverted, total, errors, userEmail);
    }

    /** The counters and the mailbox are what the progress p of a revert
        says, over the requests mods0 of the start. */
    ghost predicate Reverting(g: Mailbox, mods0: seq<ModifyRequest>, p: Progress, reverted: nat, errors: seq<string>)
      reads g
    {
      reverted == |p.records| && errors == p.errors && g.modified == mods0 + p.requests && g.labels == p.labels
    }

    /** The body of the loop of `revert_all_labels` on one record. */
    method RevertOne(g: Mailbox, record: AppliedLabel, ghost mods0: seq<ModifyRequest>, ghost p: Progress,
                     reverted: nat, errors: seq<string>)
      returns (reverted': nat, errors': seq<string>)
      requires Reverting(g, mods0, p, reverted, errors)
      modifies g
      ensures Reverting(g, mods0, RevertStep(p, g.fails, g.newId, record), reverted', errors')
    {
      reverted', errors' := reverted, errors;
      var labelId := GetOrCreateLabel(g, record.labelKey);
      var request := ModifyRequest(record.emailId, [Inbox], [labelId]);
      var err := g.Modify(request);
      if err.None? {
        reverted' := reverted + 1;
        SnocAssoc(mods0, p.requests, request);
      } else {
        errors' := errors + ["Failed to revert " + record.emailId + ": " + err.value];
      }
    }
  }
}
