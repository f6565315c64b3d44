/** The part of the Gmail API the label managers use: listing, creating
    and renaming labels, and modifying the labels of a message. The mailbox
    is a stateful object; which calls fail, with what message, and which id
    a new label gets are fixed functions supplied when the mailbox is made,
    since the network and the server are outside the model. */
module GmailService {
  import opened Wrappers

  /** A label as `labels().list` reports it; `type` may be absent. */
  datatype GmailLabel = GmailLabel(id: string, name: string, kind: Option<string>)

  /** The body of `messages().modify`. */
  datatype ModifyRequest = ModifyRequest(emailId: string, add: seq<string>, remove: seq<string>)

  /** A call to the API, as the failure oracle sees it. */
  datatype Call =
    | ListLabels
    | CreateLabel(name: string)
    | UpdateLabel(id: string, name: string)
    | ModifyMessage(request: ModifyRequest)

  /** The labels with the one of the given id renamed. */
  function Renamed(ls: seq<GmailLabel>, id: string, name: string): (r: seq<GmailLabel>)
    ensures |r| == |ls|
    ensures forall i :: 0 <= i < |ls| ==> r[i] == (if ls[i].id == id then ls[i].(name := name) else ls[i])
  {
    seq(|ls|, i requires 0 <= i < |ls| => if ls[i].id == id then ls[i].(name := name) else ls[i])
  }

  class Mailbox {
    /** The labels of the account, in the order `list` reports them. */
    var labels: seq<GmailLabel>
    /** The message modifications the server accepted, in order. */
    var modified: seq<ModifyRequest>
    /** The error a call raises, if it does. */
    const fails: Call -> Option<string>
    /** The id the server gives a new label. */
    const newId: string -> string

    constructor(labels0: seq<GmailLabel>, fails: Call -> Option<string>, newId: string -> string)
      ensures labels == labels0 && modified == []
      ensures this.fails == fails && this.newId == newId
    {
      labels := labels0;
      modified := [];
      this.fails := fails;
      this.newId := newId;
    }

    /** `labels().list(userId='me').execute().get('labels', [])`. */
    method List() returns (r: Result<seq<GmailLabel>>)
      ensures fails(ListLabels).Some? ==> r == Failure(fails(ListLabels).value)
      ensures fails(ListLabels).None? ==> r == Success(labels)
    {
      var e := fails(ListLabels);
      if e.Some? {
        return Failure(e.value);
      }
      return Success(labels);
    }

    /** `labels().create(...)`: a user label with the given name. */
    method Create(name: string) returns (r: Result<string>)
      modifies this
      ensures modified == old(modified)
      ensures fails(CreateLabel(name)).Some? ==> r == Failure(fails(CreateLabel(name)).value) && labels == old(labels)
      ensures fails(CreateLabel(name)).None? ==>
        (r == Success(newId(name)) && labels == old(labels) + [GmailLabel(newId(name), name, Some("user"))])
    {
      var e := fails(CreateLabel(name));
      if e.Some? {
        return Failure(e.value);
      }
      labels := labels + [GmailLabel(newId(name), name, Some("user"))];
      return Success(newId(name));
    }

    /** `labels().update(...)`: the label keeps its id and takes the name. */
    method Update(id: string, name: string) returns (err: Option<string>)
      modifies this
      ensures err == fails(UpdateLabel(id, name))
      ensures modified == old(modified)
      ensures labels == if err.Some? then old(labels) else Renamed(old(labels), id, name)
    {
      err := fails(UpdateLabel(id, name));
      if err.None? {
        labels := Renamed(labels, id, name);
      }
    }

    /** `messages().modify(...)`. */
    method Modify(request: ModifyRequest) returns (err: Option<string>)
      modifies this
      ensures err == fails(ModifyMessage(request))
      ensures labels == old(labels)
      ensures modified == if err.Some? then old(modified) else old(modified) + [request]
    {
      err := fails(ModifyMessage(request));
      if err.None? {
        modified := modified + [request];
      }
    }
  }
}
