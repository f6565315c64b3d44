/** Validation of push-notification webhook requests and the responses
    the handler builds (push_notification/monitoring/webhook_handlers.py).
    Request bodies are JSON objects; the JSON values that matter here are
    modelled by `Value`, with Python's truthiness. */
module WebhookHandlers {
  import opened Wrappers

  /** A JSON value. Lists and floats are not modelled: no request field is
      meant to hold one, and a float e-mail address, on which the source's
      `'@' in user_email` raises, cannot be expressed. */
  datatype Value = Null | Bool(b: bool) | Int(i: int) | Str(s: string) | Obj(fields: map<string, Value>)

  /** A JSON object. */
  type Dict = map<string, Value>

  /** `bool(v)`. */
  predicate Truthy(v: Value) {
    match v
    case Null => false
    case Bool(b) => b
    case Int(i) => i != 0
    case Str(s) => s != ""
    case Obj(m) => m != map[]
  }

  /** `d.get(k)`, with `None` as `Null`. */
  function GetField(d: Dict, k: string): Value {
    if k in d then d[k] else Null
  }

  /** `field in data and data[field]`. */
  predicate Present(data: Dict, field: string) {
    field in data && Truthy(data[field])
  }

  /** The first required field that is missing or empty. */
  function FirstMissing(data: Dict, fields: seq<string>): (r: Option<nat>)
    ensures r.None? <==> forall j :: 0 <= j < |fields| ==> Present(data, fields[j])
    ensures r.Some? ==> (r.value < |fields| && !Present(data, fields[r.value])
      && forall j :: 0 <= j < r.value ==> Present(data, fields[j]))
  {
    if fields == [] then None
    else if !Present(data, fields[0]) then Some(0)
    else match FirstMissing(data, fields[1..])
      case None => None
      case Some(j) => Some(j + 1)
  }

  /** The `(bool, str)` pair the validators return. */
  datatype Verdict = Verdict(valid: bool, message: string)

  function MissingMessage(field: string): string {
    "Missing required field: " + field
  }

  const InvalidEmail := "Invalid email format"
  const Valid := "Valid"

  /** `c in v`: a character of a string, a key of an object; any other
      value raises a `TypeError`. */
  function HasChar(v: Value, c: char): Result<bool> {
    match v
    case Str(s) => Success(c in s)
    case Obj(m) => Success([c] in m)
    case Int(_) => Failure("argument of type 'int' is not iterable")
    case Bool(_) => Failure("argument of type 'bool' is not iterable")
    case Null => Failure("argument of type 'NoneType' is not iterable")
  }

  /** `WebhookValidator.validate_gmail_notification`. An e-mail address
      that is neither a string nor an object makes the membership test
      raise, which is not caught. */
  function ValidateGmailNotification(data: Dict): (r: Result<Verdict>)
    ensures r.Success? && r.value.valid <==>
      Present(data, "user_email") && Present(data, "history_id")
      && HasChar(data["user_email"], '@') == Success(true)
      && HasChar(data["user_email"], '.') == Success(true)
  {
    var fields := ["user_email", "history_id"];
    assert fields[0] == "user_email" && fields[1] == "history_id";
    match FirstMissing(data, fields)
    case Some(j) => Success(Verdict(false, MissingMessage(fields[j])))
    case None =>
      var email := data["user_email"];
      match HasChar(email, '@')
      case Failure(e) => Failure(e)
      case Success(at) =>
        if !at then Success(Verdict(false, InvalidEmail))
        else match HasChar(email, '.')
          case Failure(e) => Failure(e)
          case Success(dot) => Success(Verdict(dot, if dot then Valid else InvalidEmail))
  }

  /** The fields are checked in order: a missing or empty `user_email` is
      reported whatever `history_id` holds, and `history_id` is reported
      only after `user_email` has passed. */
  lemma GmailNotificationMissing(data: Dict)
    ensures !Present(data, "user_email") ==>
      ValidateGmailNotification(data) == Success(Verdict(false, "Missing required field: user_email"))
    ensures Present(data, "user_email") && !Present(data, "history_id") ==>
      ValidateGmailNotification(data) == Success(Verdict(false, "Missing required field: history_id"))
  {
    var fields := ["user_email", "history_id"];
    assert fields[0] == "user_email" && fields[1] == "history_id";
    if !Present(data, "user_email") {
      assert FirstMissing(data, fields) == Some(0);
      assert MissingMessage(fields[0]) == "Missing required field: user_email";
    } else if !Present(data, "history_id") {
      assert FirstMissing(data, fields[1..]) == Some(0);
      assert FirstMissing(data, fields) == Some(1);
      assert MissingMessage(fields[1]) == "Missing required field: history_id";
    }
  }

  /** With both fields there, a string address is judged by its characters
      alone: valid iff it has an '@' and a '.'. */
  lemma GmailNotificationFormat(data: Dict, email: string)
    requires Present(data, "history_id") && "user_email" in data && data["user_email"] == Str(email) && email != ""
    ensures ValidateGmailNotification(data) ==
      Success(if '@' in email && '.' in email then Verdict(true, "Valid") else Verdict(false, "Invalid email format"))
  {
    var fields := ["user_email", "history_id"];
    assert fields[0] == "user_email" && fields[1] == "history_id";
    assert FirstMissing(data, fields) == None;
  }

  /** `WebhookValidator.validate_process_email_request`. */
  function ValidateProcessEmailRequest(data: Dict): (r: Verdict)
    ensures r.valid <==> Present(data, "user_email") && Present(data, "message_id")
    ensures r.valid ==> r.message == Valid
  {
    var fields := ["user_email", "message_id"];
    assert fields[0] == "user_email" && fields[1] == "message_id";
    match FirstMissing(data, fields)
    case Some(j) => Verdict(false, MissingMessage(fields[j]))
    case None => Verdict(true, Valid)
  }

  /** As for notifications, a missing or empty `user_email` is reported
      first, then a missing or empty `message_id`, each by name. */
  lemma ProcessEmailRequestMissing(data: Dict)
    ensures !Present(data, "user_email") ==>
      ValidateProcessEmailRequest(data) == Verdict(false, "Missing required field: user_email")
    ensures Present(data, "user_email") && !Present(data, "message_id") ==>
      ValidateProcessEmailRequest(data) == Verdict(false, "Missing required field: message_id")
  {
    var fields := ["user_email", "message_id"];
    assert fields[0] == "user_email" && fields[1] == "message_id";
    if !Present(data, "user_email") {
      assert FirstMissing(data, fields) == Some(0);
      assert MissingMessage(fields[0]) == "Missing required field: user_email";
    } else if !Present(data, "message_id") {
      assert FirstMissing(data, fields[1..]) == Some(0);
      assert FirstMissing(data, fields) == Some(1);
      assert MissingMessage(fields[1]) == "Missing required field: message_id";
    }
  }

  /** The dictionary `create_webhook_response` builds. Its `timestamp` is
      `json.loads(json.dumps({}))`, an empty object, whatever the clock
      says. */
  datatype Response = Response(success: bool, timestamp: Dict, data: Option<Dict>, error: Option<string>)

  /** `WebhookHandler.create_webhook_response(success, data, error)`;
      `None` arguments are the defaults. */
  function CreateWebhookResponse(success: bool, data: Option<Dict>, error: Option<string>): (r: Response)
    ensures r.success == success && r.timestamp == map[]
    ensures r.data.Some? <==> success && data.Some? && data.value != map[]
    ensures r.error.Some? <==> !success && error.Some? && error.value != ""
    ensures r.data.Some? ==> r.data == data
    ensures r.error.Some? ==> r.error == error
  {
    Response(success, map[],
             if success && data.Some? && data.value != map[] then data else None,
             if !success && error.Some? && error.value != "" then error else None)
  }

  const MissingIds := "Missing user_email or history_id"

  /** `WebhookHandler.handle_gmail_notification`. */
  function HandleGmailNotification(notification: Dict): (r: Response)
    ensures r.success <==> Truthy(GetField(notification, "user_email")) && Truthy(GetField(notification, "history_id"))
    ensures !r.success ==> r.error == Some(MissingIds) && r.data.None?
    ensures r.success ==> (r.error.None? && r.data.Some?
      && r.data.value.Keys == {"notification_received", "user_email", "history_id", "processing_status"}
      && r.data.value["user_email"] == notification["user_email"]
      && r.data.value["history_id"] == notification["history_id"]
      && r.data.value["processing_status"] == Str("queued")
      && r.data.value["notification_received"] == Bool(true))
  {
    var userEmail := GetField(notification, "user_email");
    var historyId := GetField(notification, "history_id");
    if !Truthy(userEmail) || !Truthy(historyId) then
      CreateWebhookResponse(false, None, Some(MissingIds))
    else
      var result := map["notification_received" := Bool(true), "user_email" := userEmail,
                        "history_id" := historyId, "processing_status" := Str("queued")];
      assert "processing_status" in result;
      CreateWebhookResponse(true, Some(result), None)
  }

  /** `WebhookHandler.parse_pubsub_message`. The base64 and JSON decoding of
      the message's `data` is the parameter `decode`, which gives `None`
      where decoding raises. */
  function ParsePubsubMessage(envelope: Dict, decode: Value -> Option<Dict>): (r: Option<Dict>)
    ensures envelope == map[] ==> r.None?
    ensures !Truthy(GetField(envelope, "message")) ==> r.None?
    ensures r.Some? <==> (Truthy(GetField(envelope, "message")) && envelope["message"].Obj?
                          && "data" in envelope["message"].fields && decode(envelope["message"].fields["data"]).Some?)
    ensures r.Some? ==>
      var m := envelope["message"].fields;
      var notification := decode(m["data"]).value;
      && r.value.Keys == {"user_email", "history_id", "message_id", "publish_time", "attributes"}
      && r.value["user_email"] == GetField(notification, "emailAddress")
      && r.value["history_id"] == GetField(notification, "historyId")
      && r.value["message_id"] == GetField(m, "messageId")
      && r.value["publish_time"] == GetField(m, "publishTime")
      && r.value["attributes"] == (if "attributes" in m then m["attributes"] else Obj(map[]))
  {
    if envelope == map[] then None
    else
      var message := GetField(envelope, "message");
      if !Truthy(message) then None
      else if !message.Obj? || "data" !in message.fields then None
      else
        var m := message.fields;
        match decode(m["data"])
        case None => None
        case Some(notification) =>
          Some(map["user_email" := GetField(notification, "emailAddress"),
                   "history_id" := GetField(notification, "historyId"),
                   "message_id" := GetField(m, "messageId"),
                   "publish_time" := GetField(m, "publishTime"),
                   "attributes" := if "attributes" in m then m["attributes"] else Obj(map[])])
  }
}
