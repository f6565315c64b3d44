/** The label set-up script (setup_labels.py, `GmailLabelManager`): it
    indexes the account's labels by lowercased name, reports which of the
    six required labels exist (by exact name, else by a similarity rule),
    creates the missing ones or updates the ones it recognises as its own,
    and checks the result. Colours and visibility settings are passed to
    the API unchanged and are not modelled. */
module SetupLabels {
  import opened Wrappers
  import opened Text
  import opened Collections
  import opened GmailService

  const ToDoEmoji: string := "\U{1F4CB}"
  const AwaitingEmoji: string := "\U{23F3}"
  const FyiEmoji: string := "\U{2139}\U{FE0F}"
  const DoneEmoji: string := "\U{2705}"
  const SpamEmoji: string := "\U{1F5D1}\U{FE0F}"
  const HistoryEmoji: string := "\U{1F4DC}"

  /** A required label: its key and its display name. */
  datatype Required = Required(key: string, name: string)

  /** `REQUIRED_LABELS`, in order. The spam label is called "🗑️ SPAM"
      here, unlike the agent's "🗑️ Promotional". */
  const RequiredLabels: seq<Required> := [
    Required("to do", ToDoEmoji + " To Do"),
    Required("awaiting reply", AwaitingEmoji + " Awaiting Reply"),
    Required("fyi", FyiEmoji + " FYI"),
    Required("done", DoneEmoji + " Done"),
    Required("spam", SpamEmoji + " SPAM"),
    Required("history", HistoryEmoji + " History")]

  predicate DistinctKeys(req: seq<Required>) {
    forall i, j :: 0 <= i < j < |req| ==> req[i].key != req[j].key
  }

  lemma RequiredKeysDistinct()
    ensures DistinctKeys(RequiredLabels) && |RequiredLabels| == 6
  {
  }

  /** The required names start with six different emoji. */
  lemma RequiredNamesDistinct()
    ensures forall i, j :: 0 <= i < j < |RequiredLabels| ==> RequiredLabels[i].name != RequiredLabels[j].name
  {
    forall i, j | 0 <= i < j < |RequiredLabels|
      ensures RequiredLabels[i].name != RequiredLabels[j].name
    {
      assert RequiredLabels[i].name[0] != RequiredLabels[j].name[0];
    }
  }

  /** `existing_labels`: label objects by lowercased name, in the order
      the names were first seen. */
  type Index = Dict<string, GmailLabel>

  /** The index after the labels `ls` were put into it, one by one. */
  function Indexed(d: Index, ls: seq<GmailLabel>): (r: Index)
    requires d.Valid()
    ensures r.Valid()
  {
    if ls == [] then d else Put(Indexed(d, ls[..|ls| - 1]), Lower(ls[|ls| - 1].name), ls[|ls| - 1])
  }

  /** The position of the last label whose lowercased name is k. */
  function LastNamed(ls: seq<GmailLabel>, k: string): (r: Option<nat>)
    ensures r.None? <==> forall j :: 0 <= j < |ls| ==> Lower(ls[j].name) != k
    ensures r.Some? ==> (r.value < |ls| && Lower(ls[r.value].name) == k
      && forall j :: r.value < j < |ls| ==> Lower(ls[j].name) != k)
  {
    if ls == [] then None
    else if Lower(ls[|ls| - 1].name) == k then Some(|ls| - 1)
    else
      assert forall j :: 0 <= j < |ls| - 1 ==> ls[..|ls| - 1][j] == ls[j];
      LastNamed(ls[..|ls| - 1], k)
  }

  /** Loading keeps what was indexed before (the index is never cleared)
      and, for each lowercased name, the last label listed under it. */
  lemma {:induction false} IndexedLastWins(d: Index, ls: seq<GmailLabel>, k: string)
    requires d.Valid()
    ensures Get(Indexed(d, ls), k) == if LastNamed(ls, k).Some? then Some(ls[LastNamed(ls, k).value]) else Get(d, k)
  {
    if ls != [] {
      var init, last := ls[..|ls| - 1], ls[|ls| - 1];
      IndexedLastWins(d, init, k);
      var prev := Indexed(d, init);
      assert Indexed(d, ls) == Put(prev, Lower(last.name), last);
      if Lower(last.name) == k {
        assert LastNamed(ls, k) == Some(|ls| - 1);
      } else {
        GetPutOther(prev, Lower(last.name), last, k);
        assert LastNamed(ls, k) == LastNamed(init, k);
        assert LastNamed(init, k).Some? ==> init[LastNamed(init, k).value] == ls[LastNamed(init, k).value];
      }
    }
  }

  lemma IndexedSnoc(d: Index, ls: seq<GmailLabel>, i: nat)
    requires d.Valid() && i < |ls|
    ensures Indexed(d, ls[..i + 1]) == Put(Indexed(d, ls[..i]), Lower(ls[i].name), ls[i])
  {
    assert ls[..i + 1][..i] == ls[..i];
  }

  /** The keys of the required labels. */
  const RequiredKeys: set<string> := {"to do", "awaiting reply", "fyi", "done", "spam", "history"}

  /** The similarity rule of `check_our_labels_status`, on a lowercased
      name. */
  predicate Similar(key: string, name: string, l: GmailLabel) {
    (key == "to do" && (Contains(name, "to do") || Contains(name, "todo")))
    || (key == "awaiting reply" && Contains(name, "awaiting"))
    || (key == "fyi" && Contains(name, "fyi"))
    || (key == "done" && Contains(name, "done") && !Contains(name, "undone"))
    || (key == "spam" && (Contains(name, "spam") || Contains(name, SpamEmoji)) && l.kind != Some("system"))
    || (key == "history" && Contains(name, "history"))
  }

  /** `_is_our_label`: only the six keys recognise a label, and a system
      label is never taken for spam. */
  predicate IsOurLabel(key: string, existingName: string, l: GmailLabel)
    ensures IsOurLabel(key, existingName, l) ==> key in RequiredKeys
    ensures IsOurLabel(key, existingName, l) && key == "spam" ==> l.kind != Some("system")
  {
    var lower := Lower(existingName);
    if key == "spam" && l.kind == Some("system") then false
    else if key == "to do" then Contains(lower, "to do") || Contains(lower, "todo") || Contains(existingName, ToDoEmoji)
    else if key == "awaiting reply" then
      (Contains(lower, "awaiting") && Contains(lower, "reply")) || Contains(existingName, AwaitingEmoji)
    else if key == "fyi" then lower == "fyi" || Contains(existingName, FyiEmoji)
    else if key == "done" then lower == "done" || Contains(existingName, DoneEmoji)
    else if key == "spam" then (Contains(lower, "spam") || Contains(existingName, SpamEmoji)) && l.kind != Some("system")
    else if key == "history" then Contains(lower, "history") || Contains(existingName, HistoryEmoji)
    else false
  }

  /** Only the six required keys have a similarity rule, and a system
      label is never similar to spam. */
  lemma SimilarOnlyRequiredKeys(key: string, name: string, l: GmailLabel)
    ensures Similar(key, name, l) ==> key in RequiredKeys
    ensures Similar(key, name, l) && key == "spam" ==> l.kind != Some("system")
  {
  }

  /** A system label is never taken for the spam label, by either rule. */
  lemma SystemLabelNeverSpam(name: string, l: GmailLabel)
    requires l.kind == Some("system")
    ensures !Similar("spam", name, l) && !IsOurLabel("spam", name, l)
  {
  }

  /** "done" is never matched by a name containing "undone" under the
      similarity rule; under `_is_our_label` it needs the exact name or
      the emoji, and so does "fyi". */
  lemma DoneAndFyiRules(name: string, l: GmailLabel)
    ensures Contains(name, "undone") ==> !Similar("done", name, l)
    ensures IsOurLabel("done", name, l) <==> Lower(name) == "done" || Contains(name, DoneEmoji)
    ensures IsOurLabel("fyi", name, l) <==> Lower(name) == "fyi" || Contains(name, FyiEmoji)
  {
  }

  /** Lowercasing keeps a prefix that has no capital letters. */
  lemma {:induction false} LowerKeepsPrefix(e: string, rest: string)
    requires forall i :: 0 <= i < |e| ==> !('A' <= e[i] <= 'Z')
    ensures Contains(Lower(e + rest), e)
  {
    var s := Lower(e + rest);
    assert s[..|e|] == e;
    ContainsAt(s, e, 0);
  }

  /** Every required display name, once created, is recognised as ours by
      `_is_our_label`, as long as it is not a system label: a second run
      of the set-up updates the labels the first one created. */
  lemma RequiredNamesAreOurs(i: nat, l: GmailLabel)
    requires i < |RequiredLabels| && l.kind != Some("system")
    ensures IsOurLabel(RequiredLabels[i].key, Lower(RequiredLabels[i].name), l)
  {
    var r := RequiredLabels[i];
    var (emoji, rest) :=
      if i == 0 then (ToDoEmoji, " To Do")
      else if i == 1 then (AwaitingEmoji, " Awaiting Reply")
      else if i == 2 then (FyiEmoji, " FYI")
      else if i == 3 then (DoneEmoji, " Done")
      else if i == 4 then (SpamEmoji, " SPAM")
      else (HistoryEmoji, " History");
    assert r.name == emoji + rest;
    OursByEmoji(r.key, emoji, rest, l);
  }

  /** A name starting with the emoji of its key is recognised by the emoji
      rule, whatever follows. */
  lemma OursByEmoji(key: string, emoji: string, rest: string, l: GmailLabel)
    requires l.kind != Some("system")
    requires || (key == "to do" && emoji == ToDoEmoji)
             || (key == "awaiting reply" && emoji == AwaitingEmoji)
             || (key == "fyi" && emoji == FyiEmoji)
             || (key == "done" && emoji == DoneEmoji)
             || (key == "spam" && emoji == SpamEmoji)
             || (key == "history" && emoji == HistoryEmoji)
    ensures IsOurLabel(key, Lower(emoji + rest), l)
  {
    LowerKeepsPrefix(emoji, rest);
  }

  /** The position of the first name of `ks` that passes the similarity
      rule. */
  function FirstSimilar(d: Index, key: string, ks: seq<string>): (r: Option<nat>)
    requires forall k :: k in ks ==> k in d.values
    ensures r.None? <==> forall j :: 0 <= j < |ks| ==> !Similar(key, ks[j], d.values[ks[j]])
    ensures r.Some? ==> (r.value < |ks| && Similar(key, ks[r.value], d.values[ks[r.value]])
      && forall j :: 0 <= j < r.value ==> !Similar(key, ks[j], d.values[ks[j]]))
  {
    FirstWhere(ks, k => k in d.values && Similar(key, k, d.values[k]))
  }

  /** The first label, in index order, that passes the similarity rule. */
  function SimilarIn(d: Index, key: string): (f: Option<GmailLabel>)
    requires d.Valid()
  {
    match FirstSimilar(d, key, d.keys)
    case None => None
    case Some(j) => Some(d.values[d.keys[j]])
  }

  /** How `check_our_labels_status` finds a required label: its exact
      lowercased name first, the similarity rule only when that is
      absent. */
  function FindOurs(d: Index, r: Required): (f: Option<GmailLabel>)
    requires d.Valid()
    ensures Lower(r.name) in d.values ==> f == Some(d.values[Lower(r.name)])
    ensures Lower(r.name) !in d.values ==>
      (f.Some? <==> exists j :: 0 <= j < |d.keys| && Similar(r.key, d.keys[j], d.values[d.keys[j]]))
    ensures f.Some? ==> f.value in d.values.Values
  {
    if Lower(r.name) in d.values then Some(d.values[Lower(r.name)]) else SimilarIn(d, r.key)
  }

  /** An entry of `status['found']`. */
  datatype FoundLabel = FoundLabel(id: string, name: string, kind: string)

  function FoundOf(l: GmailLabel): FoundLabel {
    FoundLabel(l.id, l.name, l.kind.GetOr("user"))
  }

  /** What `check_our_labels_status` returns. */
  datatype Status = Status(found: map<string, FoundLabel>, missing: seq<string>, totalRequired: nat, totalFound: nat)

  /** One required key recorded in the status: as found, with the label
      looked up for it, or as missing. */
  function Record(s: Status, k: string, f: Option<GmailLabel>): (s': Status)
    ensures s'.totalRequired == s.totalRequired
  {
    match f
    case None => s.(missing := s.missing + [k])
    case Some(l) => s.(found := s.found[k := FoundOf(l)], totalFound := s.totalFound + 1)
  }

  /** A key recorded for the first time is found exactly when it was
      looked up, and the counts grow by one. */
  lemma RecordNew(s: Status, k: string, f: Option<GmailLabel>)
    requires k !in s.found && k !in s.missing
    ensures var s' := Record(s, k, f);
            && (k in s'.found <==> f.Some?) && (k in s'.missing <==> f.None?)
            && (f.Some? ==> s'.found[k] == FoundOf(f.value))
            && s'.totalFound + |s'.missing| == s.totalFound + |s.missing| + 1
            && |s'.found.Keys| == |s.found.Keys| + (if f.Some? then 1 else 0)
  {
    if f.Some? {
      assert s.found[k := FoundOf(f.value)].Keys == s.found.Keys + {k};
    }
  }

  /** Recording one key leaves every other key where it was. */
  lemma RecordKeeps(s: Status, k: string, f: Option<GmailLabel>, other: string)
    requires other != k
    ensures var s' := Record(s, k, f);
            && (other in s'.found <==> other in s.found) && (other in s'.missing <==> other in s.missing)
            && (other in s.found ==> s'.found[other] == s.found[other])
  {
  }

  /** The status after the required labels `req` were looked up. */
  function StatusOf(d: Index, req: seq<Required>, total: nat): Status
    requires d.Valid()
  {
    if req == [] then Status(map[], [], total, 0)
    else Record(StatusOf(d, req[..|req| - 1], total), req[|req| - 1].key, FindOurs(d, req[|req| - 1]))
  }

  lemma StatusOfSnoc(d: Index, req: seq<Required>, i: nat, total: nat)
    requires d.Valid() && i < |req|
    ensures StatusOf(d, req[..i + 1], total) == Record(StatusOf(d, req[..i], total), req[i].key, FindOurs(d, req[i]))
  {
    assert req[..i + 1][..i] == req[..i];
  }

  /** Only required keys are reported, as found or as missing. */
  lemma {:induction false} StatusKeys(d: Index, req: seq<Required>, total: nat)
    requires d.Valid()
    ensures var s := StatusOf(d, req, total);
            && (forall k :: k in s.found ==> exists i :: 0 <= i < |req| && req[i].key == k)
            && (forall k :: k in s.missing ==> exists i :: 0 <= i < |req| && req[i].key == k)
  {
    if req != [] {
      var n := |req| - 1;
      var init, r := req[..n], req[n];
      StatusKeys(d, init, total);
      StatusOfSnoc(d, req, n, total);
      assert req[..n + 1] == req;
      var s, s' := StatusOf(d, init, total), StatusOf(d, req, total);
      forall k | k in s'.found || k in s'.missing
        ensures exists i :: 0 <= i < |req| && req[i].key == k
      {
        if k == r.key {
          assert req[n].key == k;
        } else {
          RecordKeeps(s, r.key, FindOurs(d, r), k);
          var i :| 0 <= i < |init| && init[i].key == k;
          assert req[i].key == k;
        }
      }
    }
  }

  /** A key of `init` is not the key of a later required label. */
  lemma KeyNotEarlier(d: Index, req: seq<Required>, total: nat)
    requires d.Valid() && DistinctKeys(req) && req != []
    ensures var s := StatusOf(d, req[..|req| - 1], total);
            req[|req| - 1].key !in s.found && req[|req| - 1].key !in s.missing
  {
    var n := |req| - 1;
    StatusKeys(d, req[..n], total);
    forall i | 0 <= i < n ensures req[..n][i].key != req[n].key {
      assert req[..n][i] == req[i];
    }
  }

  /** A required key is found, with the label looked up for it, exactly
      when the lookup succeeds, and missing exactly when it fails. */
  lemma {:induction false} StatusMembership(d: Index, req: seq<Required>, total: nat)
    requires d.Valid() && DistinctKeys(req)
    ensures var s := StatusOf(d, req, total);
            && (forall i :: 0 <= i < |req| ==> (req[i].key in s.found <==> FindOurs(d, req[i]).Some?))
            && (forall i :: 0 <= i < |req| ==> (req[i].key in s.missing <==> FindOurs(d, req[i]).None?))
            && (forall i :: 0 <= i < |req| && FindOurs(d, req[i]).Some? ==>
                  s.found[req[i].key] == FoundOf(FindOurs(d, req[i]).value))
  {
    if req != [] {
      var n := |req| - 1;
      var init, r := req[..n], req[n];
      assert DistinctKeys(init) by {
        assert forall i :: 0 <= i < n ==> init[i] == req[i];
      }
      StatusMembership(d, init, total);
      KeyNotEarlier(d, req, total);
      StatusOfSnoc(d, req, n, total);
      assert req[..n + 1] == req;
      var s, s' := StatusOf(d, init, total), StatusOf(d, req, total);
      var f := FindOurs(d, r);
      RecordNew(s, r.key, f);
      forall i | 0 <= i < n
        ensures req[i].key in s'.found <==> FindOurs(d, req[i]).Some?
        ensures req[i].key in s'.missing <==> FindOurs(d, req[i]).None?
        ensures FindOurs(d, req[i]).Some? ==> s'.found[req[i].key] == FoundOf(FindOurs(d, req[i]).value)
      {
        assert init[i] == req[i];
        RecordKeepsMembership(s, r.key, f, req[i].key, FindOurs(d, req[i]));
      }
    }
  }

  /** Recording one key keeps what the status says of another key. */
  lemma RecordKeepsMembership(s: Status, k: string, f: Option<GmailLabel>, other: string, g: Option<GmailLabel>)
    requires other != k
    requires (other in s.found <==> g.Some?) && (other in s.missing <==> g.None?)
    requires g.Some? ==> s.found[other] == FoundOf(g.value)
    ensures var s' := Record(s, k, f);
            && (other in s'.found <==> g.Some?) && (other in s'.missing <==> g.None?)
            && (g.Some? ==> s'.found[other] == FoundOf(g.value))
  {
    RecordKeeps(s, k, f, other);
  }

  /** The counts add up: found plus missing is the number of required
      labels, and the found count is the number of found keys. */
  lemma {:induction false} StatusCounts(d: Index, req: seq<Required>, total: nat)
    requires d.Valid() && DistinctKeys(req)
    ensures var s := StatusOf(d, req, total);
            && s.totalRequired == total
            && s.totalFound + |s.missing| == |req|
            && s.totalFound == |s.found.Keys|
  {
    if req != [] {
      var n := |req| - 1;
      var init, r := req[..n], req[n];
      assert DistinctKeys(init) by {
        assert forall i :: 0 <= i < n ==> init[i] == req[i];
      }
      StatusCounts(d, init, total);
      KeyNotEarlier(d, req, total);
      StatusOfSnoc(d, req, n, total);
      assert req[..n + 1] == req;
      RecordNew(StatusOf(d, init, total), r.key, FindOurs(d, r));
    }
  }

  /** Each required key ends up in exactly one of found and missing, and
      the counts add up. */
  lemma StatusAccounts(d: Index, req: seq<Required>, total: nat)
    requires d.Valid() && DistinctKeys(req)
    ensures var s := StatusOf(d, req, total);
            && s.totalRequired == total
            && s.totalFound + |s.missing| == |req|
            && s.totalFound == |s.found.Keys|
            && (forall k :: k in s.found ==> exists i :: 0 <= i < |req| && req[i].key == k)
            && (forall k :: k in s.missing ==> exists i :: 0 <= i < |req| && req[i].key == k)
            && (forall i :: 0 <= i < |req| ==> (req[i].key in s.found <==> FindOurs(d, req[i]).Some?))
            && (forall i :: 0 <= i < |req| ==> (req[i].key in s.missing <==> FindOurs(d, req[i]).None?))
  {
    StatusKeys(d, req, total);
    StatusMembership(d, req, total);
    StatusCounts(d, req, total);
  }

  /** Set-up is complete exactly when nothing is missing, that is when all
      six labels were found. */
  lemma AllFoundIffNothingMissing(d: Index)
    requires d.Valid()
    ensures var s := StatusOf(d, RequiredLabels, |RequiredLabels|);
            && (s.missing == [] <==> s.totalFound == s.totalRequired)
            && (s.missing == [] <==> forall i :: 0 <= i < |RequiredLabels| ==> FindOurs(d, RequiredLabels[i]).Some?)
  {
    RequiredKeysDistinct();
    StatusAccounts(d, RequiredLabels, |RequiredLabels|);
    var s := StatusOf(d, RequiredLabels, |RequiredLabels|);
    if s.missing != [] {
      var k := s.missing[0];
      assert k in s.missing;
    }
  }

  /** The first name of `ks` whose label `_is_our_label` accepts. */
  function FirstOurs(d: Index, key: string, ks: seq<string>): (r: Option<nat>)
    requires forall k :: k in ks ==> k in d.values
    ensures r.None? <==> forall j :: 0 <= j < |ks| ==> !IsOurLabel(key, ks[j], d.values[ks[j]])
    ensures r.Some? ==> (r.value < |ks| && IsOurLabel(key, ks[r.value], d.values[ks[r.value]])
      && forall j :: 0 <= j < r.value ==> !IsOurLabel(key, ks[j], d.values[ks[j]]))
  {
    FirstWhere(ks, k => k in d.values && IsOurLabel(key, k, d.values[k]))
  }

  /** The `(success, action, message)` triple of `create_or_update_label`. */
  datatype Outcome = Outcome(success: bool, action: string, message: string)

  function ErrorMessage(name: string, e: string): string {
    "Error with " + name + ": " + e
  }

  /** An entry of `results['actions']`. */
  datatype Action = Action(key: string, action: string, message: string, success: bool)

  /** What `create_or_update_label` leaves behind: its outcome and the
      mailbox's labels afterwards. */
  datatype LabelEffect = LabelEffect(outcome: Outcome, labels: seq<GmailLabel>)

  /** `create_or_update_label` for `r` with the index d, on a mailbox
      holding the labels ls: the first indexed label recognised as ours is
      renamed to the required name; when there is none, a user label is
      created; a failed call is an "error" outcome that changes nothing. */
  function CreateOrUpdate(d: Index, fails: Call -> Option<string>, newId: string -> string, r: Required,
                          ls: seq<GmailLabel>): LabelEffect
    requires d.Valid()
  {
    match FirstOurs(d, r.key, d.keys)
    case Some(t) =>
      var l := d.values[d.keys[t]];
      (match fails(UpdateLabel(l.id, r.name))
       case Some(e) => LabelEffect(Outcome(false, "error", ErrorMessage(r.name, e)), ls)
       case None => LabelEffect(Outcome(true, "updated", "Updated: " + r.name), Renamed(ls, l.id, r.name)))
    case None =>
      match fails(CreateLabel(r.name))
      case Some(e) => LabelEffect(Outcome(false, "error", ErrorMessage(r.name, e)), ls)
      case None => LabelEffect(Outcome(true, "created", "Created: " + r.name),
                               ls + [GmailLabel(newId(r.name), r.name, Some("user"))])
  }

  /** `CreateOrUpdate` by case: the label found decides between update and
      creation, and the server's answer decides success. */
  lemma CreateOrUpdateCases(d: Index, fails: Call -> Option<string>, newId: string -> string, r: Required,
                            ls: seq<GmailLabel>)
    requires d.Valid()
    ensures var t := FirstOurs(d, r.key, d.keys);
      t.Some? ==>
        var l := d.values[d.keys[t.value]];
        var e := fails(UpdateLabel(l.id, r.name));
        CreateOrUpdate(d, fails, newId, r, ls)
        == if e.Some? then LabelEffect(Outcome(false, "error", ErrorMessage(r.name, e.value)), ls)
           else LabelEffect(Outcome(true, "updated", "Updated: " + r.name), Renamed(ls, l.id, r.name))
    ensures var t := FirstOurs(d, r.key, d.keys);
      t.None? ==>
        var e := fails(CreateLabel(r.name));
        CreateOrUpdate(d, fails, newId, r, ls)
        == if e.Some? then LabelEffect(Outcome(false, "error", ErrorMessage(r.name, e.value)), ls)
           else LabelEffect(Outcome(true, "created", "Created: " + r.name), ls + [GmailLabel(newId(r.name), r.name, Some("user"))])
  {
  }

  /** An action is one of "created", "updated" and "error", and it
      succeeded exactly when it is not "error". */
  predicate WellKinded(a: Action) {
    (a.action == "created" || a.action == "updated" || a.action == "error") && (a.success <==> a.action != "error")
  }

  /** The action `setup_all_labels` records for an outcome. */
  function ActionOf(r: Required, o: Outcome): Action {
    Action(r.key, o.action, o.message, o.success)
  }

  /** Every outcome is well kinded; an error changes no label, an update
      renames only the label recognised as ours, a creation appends one
      user label under the required name. */
  lemma CreateOrUpdateShape(d: Index, fails: Call -> Option<string>, newId: string -> string, r: Required,
                            ls: seq<GmailLabel>)
    requires d.Valid()
    ensures var eff := CreateOrUpdate(d, fails, newId, r, ls);
      WellKinded(ActionOf(r, eff.outcome))
      && (eff.outcome.action == "error" ==> eff.labels == ls)
      && (eff.outcome.action == "updated" ==>
            var t := FirstOurs(d, r.key, d.keys);
            t.Some? && eff.labels == Renamed(ls, d.values[d.keys[t.value]].id, r.name))
      && (eff.outcome.action == "created" ==>
            FirstOurs(d, r.key, d.keys).None? && eff.labels == ls + [GmailLabel(newId(r.name), r.name, Some("user"))])
  {
  }

  /** The actions so far and the mailbox's labels during `setup_all_labels`. */
  datatype SetupState = SetupState(actions: seq<Action>, labels: seq<GmailLabel>)

  /** `setup_all_labels` over the required labels `req`, with the index d
      loaded once before and never refreshed, on a mailbox that starts with
      the labels ls. */
  function SetupPass(d: Index, fails: Call -> Option<string>, newId: string -> string, req: seq<Required>,
                     ls: seq<GmailLabel>): (s: SetupState)
    requires d.Valid()
    ensures |s.actions| == |req| && |ls| <= |s.labels|
    ensures forall k :: 0 <= k < |req| ==> s.actions[k].key == req[k].key && WellKinded(s.actions[k])
  {
    if req == [] then SetupState([], ls)
    else
      var n := |req| - 1;
      var prev := SetupPass(d, fails, newId, req[..n], ls);
      var eff := CreateOrUpdate(d, fails, newId, req[n], prev.labels);
      CreateOrUpdateShape(d, fails, newId, req[n], prev.labels);
      SetupState(prev.actions + [ActionOf(req[n], eff.outcome)], eff.labels)
  }

  lemma SetupPassStep(d: Index, fails: Call -> Option<string>, newId: string -> string, req: seq<Required>,
                      ls: seq<GmailLabel>, i: nat)
    requires d.Valid() && i < |req|
    ensures var prev := SetupPass(d, fails, newId, req[..i], ls);
      var eff := CreateOrUpdate(d, fails, newId, req[i], prev.labels);
      SetupPass(d, fails, newId, req[..i + 1], ls) == SetupState(prev.actions + [ActionOf(req[i], eff.outcome)], eff.labels)
  {
    PrefixStep(req, i);
  }

  /** How many actions are of the given kind. */
  function CountKind(actions: seq<Action>, kind: string): (n: nat)
    ensures n <= |actions|
  {
    if actions == [] then 0
    else CountKind(actions[..|actions| - 1], kind) + (if actions[|actions| - 1].action == kind then 1 else 0)
  }

  lemma CountKindSnoc(actions: seq<Action>, a: Action)
    ensures forall kind :: CountKind(actions + [a], kind) == CountKind(actions, kind) + (if a.action == kind then 1 else 0)
  {
    assert (actions + [a])[..|actions|] == actions;
  }

  /** Well-kinded actions are created, updated or errors, each once. */
  lemma {:induction false} CountKinds(actions: seq<Action>)
    requires forall k :: 0 <= k < |actions| ==> WellKinded(actions[k])
    ensures CountKind(actions, "created") + CountKind(actions, "updated") + CountKind(actions, "error") == |actions|
  {
    if actions != [] {
      var n := |actions| - 1;
      forall k | 0 <= k < n
        ensures WellKinded(actions[..n][k])
      {
        assert actions[..n][k] == actions[k];
      }
      CountKinds(actions[..n]);
      assert WellKinded(actions[n]);
    }
  }

  /** The index is read once, before any update: when the one label of
      the account is recognised by `_is_our_label` both as the to-do label
      and as the history label (and as no other), it is renamed to the
      to-do name and then to the history name, so after a set-up with a
      server that accepts every call no label carries the to-do name,
      although its action says "updated". `TodoHistoryIsOurs` shows that a
      label named "todo history" is such a label. */
  lemma StaleIndexRenamesTwice(fails: Call -> Option<string>, newId: string -> string, d: Index, l: GmailLabel,
                                r: seq<Required>)
    requires forall c :: fails(c).None?
    requires r == RequiredLabels
    requires d.Valid() && |d.keys| == 1 && d.values[d.keys[0]] == l
    requires FirstOurs(d, r[0].key, d.keys).Some? && FirstOurs(d, r[5].key, d.keys).Some?
    requires forall k :: 1 <= k < 5 ==> FirstOurs(d, r[k].key, d.keys).None?
    ensures var s := SetupPass(d, fails, newId, r, [l]);
      |s.actions| == 6 && s.actions[0].action == "updated" && s.actions[5].action == "updated"
      && s.labels[0] == l.(name := r[5].name)
      && forall j :: 0 <= j < |s.labels| ==> s.labels[j].name != r[0].name
  {
    assert r[..6] == r;
    RequiredNamesDistinct();
    UpToSpamKeepsOff(fails, newId, d, l, r);
    SetupUpdated(d, fails, newId, r, [l], 5);
  }

  /** Up to the spam label, the to-do rename is the only change to the
      label, and only it carries the to-do name. */
  lemma UpToSpamKeepsOff(fails: Call -> Option<string>, newId: string -> string, d: Index, l: GmailLabel,
                         req: seq<Required>)
    requires forall c :: fails(c).None?
    requires d.Valid() && |d.keys| == 1 && d.values[d.keys[0]] == l
    requires 5 <= |req| && FirstOurs(d, req[0].key, d.keys).Some?
    requires forall k :: 1 <= k < 5 ==> FirstOurs(d, req[k].key, d.keys).None? && req[k].name != req[0].name
    ensures KeepsOff(SetupPass(d, fails, newId, req[..5], [l]), l.(name := req[0].name), req[0].name)
  {
    var ls := [l];
    var todo := req[0].name;
    FirstStepKeepsOff(d, fails, newId, req, l);
    CreatedKeepsOff(d, fails, newId, req, ls, 1, l.(name := todo), todo);
    CreatedKeepsOff(d, fails, newId, req, ls, 2, l.(name := todo), todo);
    CreatedKeepsOff(d, fails, newId, req, ls, 3, l.(name := todo), todo);
    CreatedKeepsOff(d, fails, newId, req, ls, 4, l.(name := todo), todo);
  }

  lemma FirstStepKeepsOff(d: Index, fails: Call -> Option<string>, newId: string -> string, req: seq<Required>,
                          l: GmailLabel)
    requires forall c :: fails(c).None?
    requires d.Valid() && |d.keys| == 1 && d.values[d.keys[0]] == l
    requires 0 < |req| && FirstOurs(d, req[0].key, d.keys).Some?
    ensures KeepsOff(SetupPass(d, fails, newId, req[..1], [l]), l.(name := req[0].name), req[0].name)
  {
    assert req[..0] == [];
    SetupUpdated(d, fails, newId, req, [l], 0);
  }

  /** The first action was an update, the first label is `first`, and
      only labels with its id may carry the name n. */
  predicate KeepsOff(s: SetupState, first: GmailLabel, n: string) {
    |s.actions| >= 1 && s.actions[0].action == "updated" && |s.labels| >= 1 && s.labels[0] == first
    && forall j :: 0 <= j < |s.labels| ==> s.labels[j].id == first.id || s.labels[j].name != n
  }

  lemma CreatedKeepsOff(d: Index, fails: Call -> Option<string>, newId: string -> string, req: seq<Required>,
                        ls: seq<GmailLabel>, i: nat, first: GmailLabel, n: string)
    requires forall c :: fails(c).None?
    requires d.Valid() && i < |req|
    requires FirstOurs(d, req[i].key, d.keys).None? && req[i].name != n
    requires KeepsOff(SetupPass(d, fails, newId, req[..i], ls), first, n)
    ensures KeepsOff(SetupPass(d, fails, newId, req[..i + 1], ls), first, n)
  {
    SetupPassStep(d, fails, newId, req, ls, i);
  }

  /** A set-up step for a required label that an indexed label is ours
      for, with a server that accepts every call: an update of the first
      such label. */
  lemma SetupUpdated(d: Index, fails: Call -> Option<string>, newId: string -> string, req: seq<Required>,
                     ls: seq<GmailLabel>, i: nat)
    requires forall c :: fails(c).None?
    requires d.Valid() && i < |req| && FirstOurs(d, req[i].key, d.keys).Some?
    ensures var prev := SetupPass(d, fails, newId, req[..i], ls);
      SetupPass(d, fails, newId, req[..i + 1], ls)
      == SetupState(prev.actions + [Action(req[i].key, "updated", "Updated: " + req[i].name, true)],
                    Renamed(prev.labels, d.values[d.keys[FirstOurs(d, req[i].key, d.keys).value]].id, req[i].name))
  {
    SetupPassStep(d, fails, newId, req, ls, i);
  }

  /** A label named "todo history" is one such label: the index loaded
      from it alone holds it under one name and answers as required. */
  lemma TodoHistoryIsOurs(l: GmailLabel)
    requires l.name == "todo history"
    ensures var d := Indexed(Empty(), [l]);
      d.Valid() && |d.keys| == 1 && d.values[d.keys[0]] == l
      && FirstOurs(d, "to do", d.keys).Some? && FirstOurs(d, "history", d.keys).Some?
      && FirstOurs(d, "awaiting reply", d.keys).None? && FirstOurs(d, "fyi", d.keys).None?
      && FirstOurs(d, "done", d.keys).None? && FirstOurs(d, "spam", d.keys).None?
  {
    TodoHistoryLowercase(l.name);
    TodoHistoryHasTodo(l.name);
    TodoHistoryHasHistory(l.name);
    TodoHistoryMisses(l.name);
    OursForToDoAndHistory(l);
    IndexedSingle(l);
  }

  lemma IndexedSingle(l: GmailLabel)
    ensures Indexed(Empty(), [l]) == Put(Empty(), Lower(l.name), l)
  {
    assert [l][..0] == [];
  }

  /** What makes a lowercase name ours for the to-do and the history
      labels only. */
  lemma OursForToDoAndHistory(l: GmailLabel)
    requires NoCapitals(l.name) && Contains(l.name, "todo") && Contains(l.name, "history")
    requires !Contains(l.name, "awaiting") && !Contains(l.name, AwaitingEmoji)
    requires l.name != "fyi" && !Contains(l.name, FyiEmoji) && l.name != "done" && !Contains(l.name, DoneEmoji)
    requires !Contains(l.name, "spam") && !Contains(l.name, SpamEmoji)
    ensures IsOurLabel("to do", Lower(l.name), l) && IsOurLabel("history", Lower(l.name), l)
    ensures !IsOurLabel("awaiting reply", Lower(l.name), l) && !IsOurLabel("fyi", Lower(l.name), l)
    ensures !IsOurLabel("done", Lower(l.name), l) && !IsOurLabel("spam", Lower(l.name), l)
  {
    LowerIdentity(l.name);
  }

  lemma TodoHistoryLowercase(n: string)
    requires n == "todo history"
    ensures NoCapitals(n) && n != "fyi" && n != "done"
  {
  }

  lemma TodoHistoryHasTodo(n: string)
    requires n == "todo history"
    ensures Contains(n, "todo")
  {
    assert n[..4] == "todo";
    ContainsAt(n, "todo", 0);
  }

  lemma TodoHistoryHasHistory(n: string)
    requires n == "todo history"
    ensures Contains(n, "history")
  {
    assert n[5..][..7] == "history";
    ContainsAt(n, "history", 5);
  }

  lemma TodoHistoryMisses(n: string)
    requires n == "todo history"
    ensures !Contains(n, "awaiting") && !Contains(n, "spam")
    ensures !Contains(n, AwaitingEmoji) && !Contains(n, FyiEmoji) && !Contains(n, DoneEmoji) && !Contains(n, SpamEmoji)
  {
    NotContained(n, "awaiting", 0);
    NotContained(n, "spam", 1);
    NotContained(n, AwaitingEmoji, 0);
    NotContained(n, FyiEmoji, 0);
    NotContained(n, DoneEmoji, 0);
    NotContained(n, SpamEmoji, 0);
  }

  /** What `setup_all_labels` returns. */
  datatype SetupResult = SetupResult(created: nat, updated: nat, errors: nat, actions: seq<Action>,
                                     finalLabels: map<string, string>)

  /** `final_labels` after the actions taken so far: the name of every
      required label whose action succeeded. */
  function FinalOf(actions: seq<Action>, req: seq<Required>): map<string, string>
    requires |actions| <= |req|
  {
    if actions == [] then map[]
    else
      var m := FinalOf(actions[..|actions| - 1], req);
      var r := req[|actions| - 1];
      if actions[|actions| - 1].success then m[r.key := r.name] else m
  }

  lemma FinalOfSnoc(actions: seq<Action>, a: Action, req: seq<Required>)
    requires |actions| < |req|
    ensures FinalOf(actions + [a], req) ==
      if a.success then FinalOf(actions, req)[req[|actions|].key := req[|actions|].name] else FinalOf(actions, req)
  {
    assert (actions + [a])[..|actions|] == actions;
  }

  /** A key is in `final_labels` exactly when its action succeeded, with
      its required name, and the successes and errors add up. */
  lemma {:induction false} FinalLabelsIff(actions: seq<Action>, req: seq<Required>)
    requires |actions| <= |req| && DistinctKeys(req)
    ensures var m := FinalOf(actions, req);
            && (forall i :: 0 <= i < |actions| ==> (req[i].key in m <==> actions[i].success))
            && (forall i :: 0 <= i < |actions| && actions[i].success ==> m[req[i].key] == req[i].name)
            && (forall k :: k in m ==> exists i :: 0 <= i < |actions| && req[i].key == k)
  {
    if actions != [] {
      var init := actions[..|actions| - 1];
      FinalLabelsIff(init, req);
      assert forall i :: 0 <= i < |init| ==> init[i] == actions[i];
    }
  }

  /** After `setup_all_labels`, exactly the required keys whose action
      succeeded are in `final_labels`, each with its display name. */
  lemma SetupFinalLabels(res: SetupResult)
    requires |res.actions| == |RequiredLabels|
    requires res.finalLabels == FinalOf(res.actions, RequiredLabels)
    ensures forall i :: 0 <= i < |RequiredLabels| ==>
      (RequiredLabels[i].key in res.finalLabels <==> res.actions[i].success)
      && (res.actions[i].success ==> res.finalLabels[RequiredLabels[i].key] == RequiredLabels[i].name)
    ensures forall k :: k in res.finalLabels ==> exists i :: 0 <= i < |RequiredLabels| && RequiredLabels[i].key == k
  {
    RequiredKeysDistinct();
    FinalLabelsIff(res.actions, RequiredLabels);
  }

  /** What `verify_final_setup` returns. */
  datatype Verification = Verification(allLabelsFound: bool, foundCount: nat, requiredCount: nat,
                                       missingLabels: seq<string>, foundLabels: map<string, FoundLabel>)

  class GmailLabelManager {
    const service: Mailbox
    /** `existing_labels`. */
    var existingLabels: Index

    ghost predicate Valid()
      reads this
    {
      existingLabels.Valid()
    }

    /** `__init__`: an empty index, then the labels loaded into it. */
    constructor(service: Mailbox)
      ensures this.service == service && Valid()
      ensures existingLabels == if service.fails(ListLabels).Some? then Empty() else Indexed(Empty(), service.labels)
    {
      this.service := service;
      existingLabels := Empty();
      new;
      LoadExistingLabels();
    }

    /** `_load_existing_labels`: a failure to list leaves the index as it
        was; otherwise every listed label is put in under its lowercased
        name. */
    method LoadExistingLabels()
      requires Valid()
      modifies this
      ensures Valid()
      ensures existingLabels ==
        if service.fails(ListLabels).Some? then old(existingLabels) else Indexed(old(existingLabels), service.labels)
    {
      var listed := service.List();
      if listed.Failure? {
        return;
      }
      var ls := listed.value;
      var i := 0;
      while i < |ls|
        invariant 0 <= i <= |ls|
        invariant Valid()
        invariant existingLabels == Indexed(old(existingLabels), ls[..i])
      {
        IndexedSnoc(old(existingLabels), ls, i);
        existingLabels := Put(existingLabels, Lower(ls[i].name), ls[i]);
        i := i + 1;
      }
      assert ls[..i] == ls;
    }

    /** The similarity search of `check_our_labels_status`. */
    method SimilarLabel(key: string) returns (f: Option<GmailLabel>)
      requires Valid()
      ensures f == SimilarIn(existingLabels, key)
    {
      var d := existingLabels;
      var i := 0;
      while i < |d.keys|
        invariant 0 <= i <= |d.keys|
        invariant forall j :: 0 <= j < i ==> !Similar(key, d.keys[j], d.values[d.keys[j]])
      {
        var name := d.keys[i];
        if Similar(key, name, d.values[name]) {
          return Some(d.values[name]);
        }
        i := i + 1;
      }
      return None;
    }

    /** The lookup of one required label in `check_our_labels_status`. */
    method FindLabel(r: Required) returns (found: Option<GmailLabel>)
      requires Valid()
      ensures found == FindOurs(existingLabels, r)
    {
      var lower := Lower(r.name);
      if lower in existingLabels.values {
        found := Some(existingLabels.values[lower]);
      } else {
        found := SimilarLabel(r.key);
      }
    }

    /** `check_our_labels_status`. */
    method CheckOurLabelsStatus() returns (s: Status)
      requires Valid()
      ensures s == StatusOf(existingLabels, RequiredLabels, |RequiredLabels|)
    {
      s := Status(map[], [], |RequiredLabels|, 0);
      var i := 0;
      while i < |RequiredLabels|
        invariant 0 <= i <= |RequiredLabels|
        invariant s == StatusOf(existingLabels, RequiredLabels[..i], |RequiredLabels|)
      {
        var r := RequiredLabels[i];
        StatusOfSnoc(existingLabels, RequiredLabels, i, |RequiredLabels|);
        var found := FindLabel(r);
        if found.Some? {
          s := s.(found := s.found[r.key := FoundOf(found.value)], totalFound := s.totalFound + 1);
        } else {
          s := s.(missing := s.missing + [r.key]);
        }
        i := i + 1;
      }
      assert RequiredLabels[..i] == RequiredLabels;
    }

    /** `create_or_update_label`: the first indexed label recognised as
        ours is renamed to the required name; when there is none, a label
        is created. The index itself is not refreshed. */
    method CreateOrUpdateLabel(r: Required) returns (o: Outcome)
      requires Valid()
      modifies service
      ensures LabelEffect(o, service.labels)
        == CreateOrUpdate(existingLabels, service.fails, service.newId, r, old(service.labels))
      ensures service.modified == old(service.modified)
    {
      var d := existingLabels;
      CreateOrUpdateCases(d, service.fails, service.newId, r, service.labels);
      var existing: Option<GmailLabel> := None;
      var i := 0;
      while i < |d.keys|
        invariant 0 <= i <= |d.keys|
        invariant forall j :: 0 <= j < i ==> !IsOurLabel(r.key, d.keys[j], d.values[d.keys[j]])
      {
        var name := d.keys[i];
        if IsOurLabel(r.key, name, d.values[name]) {
          existing := Some(d.values[name]);
          break;
        }
        i := i + 1;
      }
      assert existing.Some? ==> FirstOurs(d, r.key, d.keys) == Some(i) && existing.value == d.values[d.keys[i]];
      assert existing.None? ==> FirstOurs(d, r.key, d.keys).None?;
      if existing.Some? {
        var e := service.Update(existing.value.id, r.name);
        if e.Some? {
          return Outcome(false, "error", ErrorMessage(r.name, e.value));
        }
        return Outcome(true, "updated", "Updated: " + r.name);
      }
      var created := service.Create(r.name);
      if created.Failure? {
        return Outcome(false, "error", ErrorMessage(r.name, created.error));
      }
      return Outcome(true, "created", "Created: " + r.name);
    }

    /** One entry of `results['actions']`: the outcome of creating or
        updating `r`, under its key. */
    method Attempt(r: Required) returns (a: Action)
      requires Valid()
      modifies service
      ensures var eff := CreateOrUpdate(existingLabels, service.fails, service.newId, r, old(service.labels));
        a == ActionOf(r, eff.outcome) && service.labels == eff.labels
      ensures service.modified == old(service.modified)
    {
      var o := CreateOrUpdateLabel(r);
      a := ActionOf(r, o);
    }

    /** `setup_all_labels`: every required label is created or updated in
        turn against the index loaded before, the outcomes are counted by
        kind, and the succeeded ones are listed in `final_labels`. */
    method SetupAllLabels() returns (res: SetupResult)
      requires Valid()
      modifies service
      ensures var s := SetupPass(existingLabels, service.fails, service.newId, RequiredLabels, old(service.labels));
        res.actions == s.actions && service.labels == s.labels
      ensures res.created == CountKind(res.actions, "created") && res.updated == CountKind(res.actions, "updated")
      ensures res.errors == CountKind(res.actions, "error")
      ensures res.created + res.updated + res.errors == |RequiredLabels|
      ensures res.finalLabels == FinalOf(res.actions, RequiredLabels)
      ensures service.modified == old(service.modified)
    {
      ghost var labels0 := service.labels;
      res := SetupResult(0, 0, 0, [], map[]);
      var i := 0;
      while i < |RequiredLabels|
        invariant 0 <= i <= |RequiredLabels|
        invariant Valid() && service.modified == old(service.modified)
        invariant SetupProgress(res, i, labels0)
      {
        res := SetupNext(res, i, labels0);
        i := i + 1;
      }
      assert RequiredLabels[..i] == RequiredLabels;
      CountKinds(res.actions);
    }

    /** After the first i required labels: the actions and the mailbox are
        the pass over them, and the counts and `final_labels` follow the
        actions. */
    ghost predicate SetupProgress(res: SetupResult, i: nat, labels0: seq<GmailLabel>)
      reads this, service
      requires Valid() && i <= |RequiredLabels|
    {
      && SetupState(res.actions, service.labels)
         == SetupPass(existingLabels, service.fails, service.newId, RequiredLabels[..i], labels0)
      && res.created == CountKind(res.actions, "created") && res.updated == CountKind(res.actions, "updated")
      && res.errors == CountKind(res.actions, "error")
      && res.finalLabels == FinalOf(res.actions, RequiredLabels)
    }

    /** One round of the loop of `setup_all_labels`. */
    method SetupNext(res: SetupResult, i: nat, ghost labels0: seq<GmailLabel>) returns (res': SetupResult)
      requires Valid() && i < |RequiredLabels| && SetupProgress(res, i, labels0)
      modifies service
      ensures Valid() && SetupProgress(res', i + 1, labels0)
      ensures service.modified == old(service.modified)
    {
      var r := RequiredLabels[i];
      SetupPassStep(existingLabels, service.fails, service.newId, RequiredLabels, labels0, i);
      var action := Attempt(r);
      FinalOfSnoc(res.actions, action, RequiredLabels);
      CountKindSnoc(res.actions, action);
      var created, updated, errors := res.created, res.updated, res.errors;
      var finalLabels := res.finalLabels;
      if action.success {
        if action.action == "created" {
          created := created + 1;
        } else if action.action == "updated" {
          updated := updated + 1;
        }
        finalLabels := finalLabels[r.key := r.name];
      } else {
        errors := errors + 1;
      }
      res' := SetupResult(created, updated, errors, res.actions + [action], finalLabels);
    }

    /** `verify_final_setup`: reload the index, then check; everything is
        found exactly when nothing is missing. */
    method VerifyFinalSetup() returns (v: Verification)
      requires Valid()
      modifies this
      ensures Valid()
      ensures existingLabels ==
        if service.fails(ListLabels).Some? then old(existingLabels) else Indexed(old(existingLabels), service.labels)
      ensures var st := StatusOf(existingLabels, RequiredLabels, |RequiredLabels|);
        v.missingLabels == st.missing && v.foundLabels == st.found && v.foundCount == st.totalFound
      ensures v.allLabelsFound <==> v.missingLabels == []
      ensures v.allLabelsFound <==> v.foundCount == v.requiredCount
      ensures v.requiredCount == |RequiredLabels| && v.foundCount + |v.missingLabels| == |RequiredLabels|
      ensures v.allLabelsFound <==> forall i :: 0 <= i < |RequiredLabels| ==> FindOurs(existingLabels, RequiredLabels[i]).Some?
    {
      LoadExistingLabels();
      var s := CheckOurLabelsStatus();
      RequiredKeysDistinct();
      StatusAccounts(existingLabels, RequiredLabels, |RequiredLabels|);
      AllFoundIffNothingMissing(existingLabels);
      v := Verification(|s.missing| == 0, s.totalFound, s.totalRequired, s.missing, s.found);
    }
  }
}
