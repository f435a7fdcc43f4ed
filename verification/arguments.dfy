/** Tool-call arguments as the protocol delivers them (loosely typed JSON),
    the typed request each tool name accepts, and the validation that
    turns the one into the other. */
module Arguments {
  import opened Errors

  datatype Json =
    | JNull
    | JBool(b: bool)
    | JNumber(n: real)
    | JString(s: string)
    | JArray(items: seq<Json>)
    | JObject(fields: map<string, Json>)

  /** The `arguments` object of a tool call. */
  type Args = map<string, Json>

  /** The tools the server lists. */
  datatype Tool =
    | ListEmailsTool | SendEmailTool | DeleteEmailTool | MarkAsReadTool | DeleteEmailsBatchTool
    | ArchiveEmailTool | ArchiveEmailsBatchTool | MarkAsReadBatchTool | ListLabelsTool
    | MoveToLabelTool | MoveToLabelBatchTool

  /** One variant per tool, carrying that tool's typed arguments. */
  datatype Request =
    | ListEmails(maxResults: real, query: string)
    | SendEmail(to: string, subject: string, body: string)
    | DeleteEmail(id: string)
    | MarkAsRead(id: string)
    | DeleteEmailsBatch(ids: seq<string>)
    | ArchiveEmail(id: string)
    | ArchiveEmailsBatch(ids: seq<string>)
    | MarkAsReadBatch(ids: seq<string>)
    | ListLabels
    | MoveToLabel(id: string, labelId: string)
    | MoveToLabelBatch(ids: seq<string>, labelId: string)

  function Name(t: Tool): string {
    match t
    case ListEmailsTool => "list_emails"
    case SendEmailTool => "send_email"
    case DeleteEmailTool => "delete_email"
    case MarkAsReadTool => "mark_as_read"
    case DeleteEmailsBatchTool => "delete_emails_batch"
    case ArchiveEmailTool => "archive_email"
    case ArchiveEmailsBatchTool => "archive_emails_batch"
    case MarkAsReadBatchTool => "mark_as_read_batch"
    case ListLabelsTool => "list_labels"
    case MoveToLabelTool => "move_to_label"
    case MoveToLabelBatchTool => "move_to_label_batch"
  }

  /** The `case` labels of the `switch` on the tool name. */
  function Lookup(name: string): (r: Option<Tool>)
    ensures r.Some? ==> Name(r.value) == name
    ensures r.None? <==> forall t :: Name(t) != name
  {
    if name == "list_emails" then Some(ListEmailsTool)
    else if name == "send_email" then Some(SendEmailTool)
    else if name == "delete_email" then Some(DeleteEmailTool)
    else if name == "mark_as_read" then Some(MarkAsReadTool)
    else if name == "delete_emails_batch" then Some(DeleteEmailsBatchTool)
    else if name == "archive_email" then Some(ArchiveEmailTool)
    else if name == "archive_emails_batch" then Some(ArchiveEmailsBatchTool)
    else if name == "mark_as_read_batch" then Some(MarkAsReadBatchTool)
    else if name == "list_labels" then Some(ListLabelsTool)
    else if name == "move_to_label" then Some(MoveToLabelTool)
    else if name == "move_to_label_batch" then Some(MoveToLabelBatchTool)
    else None
  }

  /** The tool a request is for. */
  function ToolOf(req: Request): Tool {
    match req
    case ListEmails(_, _) => ListEmailsTool
    case SendEmail(_, _, _) => SendEmailTool
    case DeleteEmail(_) => DeleteEmailTool
    case MarkAsRead(_) => MarkAsReadTool
    case DeleteEmailsBatch(_) => DeleteEmailsBatchTool
    case ArchiveEmail(_) => ArchiveEmailTool
    case ArchiveEmailsBatch(_) => ArchiveEmailsBatchTool
    case MarkAsReadBatch(_) => MarkAsReadBatchTool
    case ListLabels => ListLabelsTool
    case MoveToLabel(_, _) => MoveToLabelTool
    case MoveToLabelBatch(_, _) => MoveToLabelBatchTool
  }

  /** The batch tools whose only argument is `ids`. */
  predicate TakesIds(t: Tool) {
    t == DeleteEmailsBatchTool || t == ArchiveEmailsBatchTool || t == MarkAsReadBatchTool
  }

  /** The single tools whose only argument is `id`. */
  predicate TakesId(t: Tool) {
    t == DeleteEmailTool || t == MarkAsReadTool || t == ArchiveEmailTool
  }

  /** `typeof args[key] === 'string'` (a missing key is `undefined`). */
  predicate IsString(args: Args, key: string) {
    key in args && args[key].JString?
  }

  /** `Array.isArray(args[key]) && !args[key].some(x => typeof x !== 'string')` */
  predicate IsStringArray(args: Args, key: string) {
    key in args && args[key].JArray? && forall i :: 0 <= i < |args[key].items| ==> args[key].items[i].JString?
  }

  /** The strings of an array whose elements are all strings. */
  function Strings(items: seq<Json>): (r: Option<seq<string>>)
    ensures r.Some? <==> forall i :: 0 <= i < |items| ==> items[i].JString?
    ensures r.Some? ==> |r.value| == |items| && forall i :: 0 <= i < |items| ==> items[i] == JString(r.value[i])
    decreases |items|
  {
    if |items| == 0 then Some([])
    else if !items[0].JString? then None
    else
      match Strings(items[1..])
      case None => None
      case Some(rest) => Some([items[0].s] + rest)
  }

  /** The string under `key`, when there is one. */
  function StringOf(args: Args, key: string): (r: Option<string>)
    ensures r.Some? <==> IsString(args, key)
    ensures r.Some? ==> args[key] == JString(r.value)
  {
    if key in args && args[key].JString? then Some(args[key].s) else None
  }

  /** The strings under `key`, when it holds an array of strings. */
  function StringsOf(args: Args, key: string): (r: Option<seq<string>>)
    ensures r.Some? <==> IsStringArray(args, key)
    ensures r.Some? ==> |r.value| == |args[key].items| &&
                        forall i :: 0 <= i < |r.value| ==> args[key].items[i] == JString(r.value[i])
  {
    if key in args && args[key].JArray? then Strings(args[key].items) else None
  }

  /** Why a tool's arguments were refused: one reason per distinct check. */
  datatype Rejection = BadSend | BadId | BadIds | BadMove | BadMoveBatch

  /** The message each refusal carries. */
  function Reason(r: Rejection): string {
    match r
    case BadSend => "Parameters to, subject and body must be strings"
    case BadId => "Parameter id must be a string"
    case BadIds => "Parameter ids must be an array of strings"
    case BadMove => "Parameters id and labelId must be strings"
    case BadMoveBatch => "Parameter ids must be an array of strings and labelId must be a string"
  }

  /** The `McpError` a refusal is thrown as. */
  function Invalid(r: Rejection): Thrown {
    McpRaised(InvalidParams, Reason(r))
  }

  /** One tool's argument checks, in the source's order, up to the typed
      request handed to the operation; `list_emails` and `list_labels`
      refuse nothing. */
  function Validate(t: Tool, args: Args): (res: Result<Request, Rejection>)
    ensures res.Ok? ==> ToolOf(res.value) == t
    ensures t == ListEmailsTool || t == ListLabelsTool ==> res.Ok?
  {
    match t
    case ListEmailsTool =>
      var maxResults := if "maxResults" in args && args["maxResults"].JNumber? then args["maxResults"].n else 10.0;
      Ok(ListEmails(maxResults, StringOf(args, "query").GetOr("")))
    case ListLabelsTool => Ok(ListLabels)
    case SendEmailTool =>
      var to, subject, body := StringOf(args, "to"), StringOf(args, "subject"), StringOf(args, "body");
      if to.None? || subject.None? || body.None? then Err(BadSend)
      else Ok(SendEmail(to.value, subject.value, body.value))
    case DeleteEmailTool => WithId(t, args)
    case MarkAsReadTool => WithId(t, args)
    case ArchiveEmailTool => WithId(t, args)
    case DeleteEmailsBatchTool => WithIds(t, args)
    case ArchiveEmailsBatchTool => WithIds(t, args)
    case MarkAsReadBatchTool => WithIds(t, args)
    case MoveToLabelTool =>
      var id, labelId := StringOf(args, "id"), StringOf(args, "labelId");
      if id.None? || labelId.None? then Err(BadMove)
      else Ok(MoveToLabel(id.value, labelId.value))
    case MoveToLabelBatchTool =>
      var ids, labelId := StringsOf(args, "ids"), StringOf(args, "labelId");
      if ids.None? || labelId.None? then Err(BadMoveBatch)
      else Ok(MoveToLabelBatch(ids.value, labelId.value))
  }

  /** The checks shared by the single tools whose only argument is `id`. */
  function WithId(t: Tool, args: Args): (res: Result<Request, Rejection>)
    requires TakesId(t)
    ensures res.Ok? ==> ToolOf(res.value) == t
    ensures res.Err? ==> res.error == BadId
    ensures res.Ok? ==> "id" in args && args["id"] == JString(res.value.id)
  {
    match StringOf(args, "id")
    case None => Err(BadId)
    case Some(id) =>
      Ok(if t == DeleteEmailTool then DeleteEmail(id) else if t == MarkAsReadTool then MarkAsRead(id) else ArchiveEmail(id))
  }

  /** The checks shared by the batch tools whose only argument is `ids`. */
  function WithIds(t: Tool, args: Args): (res: Result<Request, Rejection>)
    requires TakesIds(t)
    ensures res.Ok? ==> ToolOf(res.value) == t
    ensures res.Err? ==> res.error == BadIds
    ensures res.Ok? ==> "ids" in args && args["ids"] == StringArray(res.value.ids)
  {
    match StringsOf(args, "ids")
    case None => Err(BadIds)
    case Some(ids) =>
      ArrayOfStrings(args["ids"], ids);
      Ok(if t == DeleteEmailsBatchTool then DeleteEmailsBatch(ids)
         else if t == ArchiveEmailsBatchTool then ArchiveEmailsBatch(ids)
         else MarkAsReadBatch(ids))
  }

  /** An array whose elements are the strings `ss`, in order, is `StringArray(ss)`. */
  lemma ArrayOfStrings(j: Json, ss: seq<string>)
    requires j.JArray? && |j.items| == |ss|
    requires forall i :: 0 <= i < |ss| ==> j.items[i] == JString(ss[i])
    ensures j == StringArray(ss)
  {
    assert j.items == StringArray(ss).items;
  }

  /** A batch tool taking only `ids` refuses exactly an `ids` that is not
      an array of strings, with the message about `ids`. */
  lemma ValidateIds(t: Tool, args: Args)
    requires TakesIds(t)
    ensures Validate(t, args).Ok? <==> IsStringArray(args, "ids")
    ensures Validate(t, args).Err? ==> Reason(Validate(t, args).error) == "Parameter ids must be an array of strings"
  {
  }

  /** A single tool taking only `id` refuses exactly an `id` that is not a
      string, with the message about `id`. */
  lemma ValidateId(t: Tool, args: Args)
    requires TakesId(t)
    ensures Validate(t, args).Ok? <==> IsString(args, "id")
    ensures Validate(t, args).Err? ==> Reason(Validate(t, args).error) == "Parameter id must be a string"
  {
  }

  /** `move_to_label_batch` refuses exactly a bad `ids` or a non-string
      `labelId`. */
  lemma ValidateMoveBatch(args: Args)
    ensures Validate(MoveToLabelBatchTool, args).Ok? <==> IsStringArray(args, "ids") && IsString(args, "labelId")
    ensures Validate(MoveToLabelBatchTool, args).Err? ==>
              Reason(Validate(MoveToLabelBatchTool, args).error) ==
                "Parameter ids must be an array of strings and labelId must be a string"
  {
  }

  /** `move_to_label` refuses exactly a non-string `id` or `labelId`. */
  lemma ValidateMove(args: Args)
    ensures Validate(MoveToLabelTool, args).Ok? <==> IsString(args, "id") && IsString(args, "labelId")
    ensures Validate(MoveToLabelTool, args).Err? ==>
              Reason(Validate(MoveToLabelTool, args).error) == "Parameters id and labelId must be strings"
  {
  }

  /** `send_email` refuses exactly a non-string `to`, `subject` or `body`. */
  lemma ValidateSend(args: Args)
    ensures Validate(SendEmailTool, args).Ok? <==> IsString(args, "to") && IsString(args, "subject") && IsString(args, "body")
    ensures Validate(SendEmailTool, args).Err? ==>
              Reason(Validate(SendEmailTool, args).error) == "Parameters to, subject and body must be strings"
  {
  }

  /** The `switch` on the tool name: a known name goes to its checks, whose
      refusal is thrown as an `InvalidParams` error; any other name is a
      `MethodNotFound` error. `arguments` absent reads as `{}`. */
  function Parse(name: string, arguments: Option<Args>): (res: Result<Request, Thrown>)
    ensures res.Ok? ==> Name(ToolOf(res.value)) == name
    ensures (forall t :: Name(t) != name) <==> res == Err(McpRaised(MethodNotFound, "Unknown tool: " + name))
  {
    match Lookup(name)
    case None => Err(McpRaised(MethodNotFound, "Unknown tool: " + name))
    case Some(t) =>
      match Validate(t, arguments.GetOr(map[]))
      case Err(r) => Err(Invalid(r))
      case Ok(req) => Ok(req)
  }

  /** A known tool's name leads to that tool's checks: the request they
      accept, or their refusal thrown as an `InvalidParams` error. */
  lemma ParseKnown(t: Tool, arguments: Option<Args>)
    ensures var v := Validate(t, arguments.GetOr(map[]));
            Parse(Name(t), arguments) == if v.Ok? then Ok(v.value) else Err(Invalid(v.error))
  {
    LookupName(t);
  }

  /** `list_emails` reads `maxResults` only when it is a number (else 10)
      and `query` only when it is a string (else ""). */
  lemma ListEmailsDefaults(arguments: Option<Args>)
    ensures var args := arguments.GetOr(map[]);
            Parse("list_emails", arguments) == Ok(ListEmails(
              if "maxResults" in args && args["maxResults"].JNumber? then args["maxResults"].n else 10.0,
              if "query" in args && args["query"].JString? then args["query"].s else ""))
  {
  }

  /** The arguments a well-behaved client sends for a request. */
  function Render(req: Request): Args {
    match req
    case ListEmails(m, q) => map["maxResults" := JNumber(m), "query" := JString(q)]
    case SendEmail(to, subject, body) => map["to" := JString(to), "subject" := JString(subject), "body" := JString(body)]
    case DeleteEmail(id) => map["id" := JString(id)]
    case MarkAsRead(id) => map["id" := JString(id)]
    case DeleteEmailsBatch(ids) => map["ids" := StringArray(ids)]
    case ArchiveEmail(id) => map["id" := JString(id)]
    case ArchiveEmailsBatch(ids) => map["ids" := StringArray(ids)]
    case MarkAsReadBatch(ids) => map["ids" := StringArray(ids)]
    case ListLabels => map[]
    case MoveToLabel(id, l) => map["id" := JString(id), "labelId" := JString(l)]
    case MoveToLabelBatch(ids, l) => map["ids" := StringArray(ids), "labelId" := JString(l)]
  }

  function StringArray(ss: seq<string>): (j: Json)
    ensures j.JArray? && |j.items| == |ss|
    ensures forall i :: 0 <= i < |ss| ==> j.items[i] == JString(ss[i])
  {
    JArray(seq(|ss|, i requires 0 <= i < |ss| => JString(ss[i])))
  }

  /** Every request is accepted back from the arguments that describe it:
      validation rejects nothing a well-typed client sends. */
  lemma ParseRender(req: Request)
    ensures Parse(Name(ToolOf(req)), Some(Render(req))) == Ok(req)
  {
    LookupName(ToolOf(req));
    ValidateFromRendering(req, Render(req));
  }

  /** `args` holds every key of `want`, with the same value. */
  predicate Agrees(args: Args, want: Args) {
    forall k :: k in want ==> k in args && args[k] == want[k]
  }

  /** An accepted request is made of the argument values themselves: apart
      from `list_emails`, whose defaults stand in for absent or mistyped
      values, the arguments hold the request's rendering. */
  lemma ValidateCarries(t: Tool, args: Args)
    requires Validate(t, args).Ok? && !Validate(t, args).value.ListEmails?
    ensures Agrees(args, Render(Validate(t, args).value))
  {
    var req := Validate(t, args).value;
    match t
    case SendEmailTool =>
      assert StringOf(args, "to") == Some(req.to);
      assert StringOf(args, "subject") == Some(req.subject);
      assert StringOf(args, "body") == Some(req.body);
    case MoveToLabelTool =>
      assert StringOf(args, "id") == Some(req.id);
      assert StringOf(args, "labelId") == Some(req.labelId);
    case MoveToLabelBatchTool =>
      var ids := StringsOf(args, "ids").value;
      assert ids == req.ids;
      ArrayOfStrings(args["ids"], ids);
      assert StringOf(args, "labelId") == Some(req.labelId);
    case _ =>
  }

  /** Arguments that hold a request's rendering, whatever other keys they
      carry, are accepted as exactly that request. */
  lemma ValidateFromRendering(req: Request, args: Args)
    requires Agrees(args, Render(req))
    ensures Validate(ToolOf(req), args) == Ok(req)
  {
    match req
    case ListEmails(m, q) => FromListEmails(m, q, args);
    case SendEmail(to, subject, body) => FromSend(to, subject, body, args);
    case MoveToLabel(id, l) => FromMove(id, l, args);
    case MoveToLabelBatch(ids, l) => FromMoveBatch(ids, l, args);
    case ListLabels =>
    case _ =>
      if TakesId(ToolOf(req)) {
        FromId(req, args);
      } else {
        FromIds(req, args);
      }
  }

  lemma FromListEmails(m: real, q: string, args: Args)
    requires Agrees(args, Render(ListEmails(m, q)))
    ensures Validate(ListEmailsTool, args) == Ok(ListEmails(m, q))
  {
    assert args["maxResults"] == JNumber(m);
    assert StringOf(args, "query") == Some(q);
  }

  lemma FromSend(to: string, subject: string, body: string, args: Args)
    requires Agrees(args, Render(SendEmail(to, subject, body)))
    ensures Validate(SendEmailTool, args) == Ok(SendEmail(to, subject, body))
  {
    assert StringOf(args, "to") == Some(to);
    assert StringOf(args, "subject") == Some(subject);
    assert StringOf(args, "body") == Some(body);
  }

  lemma FromMove(id: string, l: string, args: Args)
    requires Agrees(args, Render(MoveToLabel(id, l)))
    ensures Validate(MoveToLabelTool, args) == Ok(MoveToLabel(id, l))
  {
    assert StringOf(args, "id") == Some(id);
    assert StringOf(args, "labelId") == Some(l);
  }

  lemma FromMoveBatch(ids: seq<string>, l: string, args: Args)
    requires Agrees(args, Render(MoveToLabelBatch(ids, l)))
    ensures Validate(MoveToLabelBatchTool, args) == Ok(MoveToLabelBatch(ids, l))
  {
    assert args["ids"] == StringArray(ids);
    StringsOfArray(ids);
    assert StringsOf(args, "ids") == Some(ids);
    assert StringOf(args, "labelId") == Some(l);
  }

  lemma FromId(req: Request, args: Args)
    requires TakesId(ToolOf(req)) && Agrees(args, Render(req))
    ensures Validate(ToolOf(req), args) == Ok(req)
  {
    assert Render(req) == map["id" := JString(req.id)];
    assert StringOf(args, "id") == Some(req.id);
  }

  lemma FromIds(req: Request, args: Args)
    requires TakesIds(ToolOf(req)) && Agrees(args, Render(req))
    ensures Validate(ToolOf(req), args) == Ok(req)
  {
    assert Render(req) == map["ids" := StringArray(req.ids)];
    assert args["ids"] == StringArray(req.ids);
    StringsOfArray(req.ids);
    assert StringsOf(args, "ids") == Some(req.ids);
  }

  lemma LookupName(t: Tool)
    ensures Lookup(Name(t)) == Some(t)
  {
  }

  lemma StringsOfArray(ss: seq<string>)
    ensures Strings(StringArray(ss).items) == Some(ss)
  {
    var r := Strings(StringArray(ss).items);
    assert r.Some?;
    assert r.value == ss;
  }
}
