/** The tool-call handler: validate the arguments, run the operation
    against the provider, and wrap whatever happens in the protocol's
    response envelope. Every error, from validation or from the provider,
    becomes an `isError` text response; nothing escapes the handler. */
module Dispatch {
  import opened Errors
  import opened Mailbox
  import opened Arguments
  import Operations
  import Email
  import Batch
  import Decimal

  /** The fields `list_labels` passes on for each label. */
  datatype LabelInfo = LabelInfo(
    id: LabelId, name: string, labelType: Option<string>,
    messageListVisibility: Option<string>, labelListVisibility: Option<string>)

  /** What a response's text carries, kept structured instead of serialised. */
  datatype Payload =
    | Text(text: string)
    | Emails(emails: seq<Email.EmailSummary>)
    | Labels(labels: seq<LabelInfo>)
    | BatchReport(report: Batch.Report)

  /** `{content: [{type: 'text', text}], isError?}` */
  datatype ToolResult = ToolResult(payload: Payload, isError: bool)

  // ---------------------------------------------------------------------
  // list_emails

  /** How the get for `id` rejects, if it does. */
  function FetchFailure(o: Oracle, box: Box, id: MessageId): Option<Thrown> {
    if o.reply(GetCall(id)).Failed? then Some(o.reply(GetCall(id)).thrown)
    else if id !in box then Some(o.notFound)
    else None
  }

  /** `Promise.all(messages.map(get …))`: every get is issued, in order,
      and nothing in the box changes. */
  function FetchAll(o: Oracle, r: Remote, ids: seq<MessageId>): (out: (Remote, Result<seq<Email.EmailSummary>, Thrown>))
    ensures out.0.box == r.box
    ensures out.0.log == r.log + seq(|ids|, i requires 0 <= i < |ids| => GetCall(ids[i]))
    decreases |ids|
  {
    if |ids| == 0 then (r, Ok([]))
    else
      var first := Fetch(o, r, ids[0]);
      var rest := FetchAll(o, first.0, ids[1..]);
      assert rest.0.log == r.log + seq(|ids|, i requires 0 <= i < |ids| => GetCall(ids[i]));
      match first.1
      case Err(t) => (rest.0, Err(t))
      case Ok(m) =>
        match rest.1
        case Err(t) => (rest.0, Err(t))
        case Ok(es) => (rest.0, Ok([Email.Summarize(ids[0], m)] + es))
  }

  /** The list resolves exactly when no get rejects, and then holds each
      id's summary in the order of the ids. */
  lemma {:induction false} FetchAllResolves(o: Oracle, r: Remote, ids: seq<MessageId>)
    ensures var res := FetchAll(o, r, ids).1;
            (res.Ok? <==> forall i :: 0 <= i < |ids| ==> FetchFailure(o, r.box, ids[i]).None?) &&
            (res.Ok? ==>
               |res.value| == |ids| &&
               forall i :: 0 <= i < |ids| ==> ids[i] in r.box && res.value[i] == Email.Summarize(ids[i], r.box[ids[i]]))
    decreases |ids|
  {
    if |ids| > 0 {
      var first := Fetch(o, r, ids[0]);
      FetchAllResolves(o, first.0, ids[1..]);
      var res := FetchAll(o, r, ids).1;
      var rest := FetchAll(o, first.0, ids[1..]).1;
      assert forall i :: 1 <= i < |ids| ==> ids[i] == ids[1..][i - 1];
      if res.Ok? {
        forall i | 0 <= i < |ids|
          ensures ids[i] in r.box && res.value[i] == Email.Summarize(ids[i], r.box[ids[i]])
        {
          if i > 0 {
            assert res.value[i] == rest.value[i - 1];
          }
        }
      }
    }
  }

  /** A rejected list carries the error of the first id, in list order,
      whose get rejects. */
  lemma {:induction false} FetchAllRejects(o: Oracle, r: Remote, ids: seq<MessageId>)
    requires FetchAll(o, r, ids).1.Err?
    ensures var t := FetchAll(o, r, ids).1.error;
            exists i :: 0 <= i < |ids| && FetchFailure(o, r.box, ids[i]) == Some(t) &&
                        forall j :: 0 <= j < i ==> FetchFailure(o, r.box, ids[j]).None?
    decreases |ids|
  {
    var t := FetchAll(o, r, ids).1.error;
    var first := Fetch(o, r, ids[0]);
    if first.1.Err? {
      assert FetchFailure(o, r.box, ids[0]) == Some(t);
    } else {
      FetchAllRejects(o, first.0, ids[1..]);
      var i :| 0 <= i < |ids| - 1 && FetchFailure(o, r.box, ids[1..][i]) == Some(t) &&
               forall j :: 0 <= j < i ==> FetchFailure(o, r.box, ids[1..][j]).None?;
      assert FetchFailure(o, r.box, ids[i + 1]) == Some(t);
      forall j | 0 <= j < i + 1 ensures FetchFailure(o, r.box, ids[j]).None? {
        if j > 0 {
          assert ids[j] == ids[1..][j - 1];
        }
      }
    }
  }

  /** `listEmails`: the search, then the summaries; a response without
      `messages` is an empty list. */
  function ListSummaries(o: Oracle, r: Remote, maxResults: real, query: string): (Remote, Result<seq<Email.EmailSummary>, Thrown>) {
    var listed: (Remote, Result<Option<seq<MessageId>>, Thrown>) := Query(o, r, ListCall(maxResults, query), o.search(maxResults, query));
    match listed.1
    case Err(t) => (listed.0, Err(t))
    case Ok(None) => (listed.0, Ok([]))
    case Ok(Some(ids)) => FetchAll(o, listed.0, ids)
  }

  // ---------------------------------------------------------------------
  // The operations behind the requests

  /** The item operation behind each single and batch request. */
  function KindOf(req: Request): Option<Operations.ItemKind> {
    match req
    case DeleteEmail(_) => Some(Operations.Trash)
    case DeleteEmailsBatch(_) => Some(Operations.Trash)
    case MarkAsRead(_) => Some(Operations.MarkRead)
    case MarkAsReadBatch(_) => Some(Operations.MarkRead)
    case ArchiveEmail(_) => Some(Operations.Archive)
    case ArchiveEmailsBatch(_) => Some(Operations.Archive)
    case MoveToLabel(_, l) => Some(Operations.Move(l))
    case MoveToLabelBatch(_, l) => Some(Operations.Move(l))
    case _ => None
  }

  predicate IsBatch(req: Request) {
    req.DeleteEmailsBatch? || req.ArchiveEmailsBatch? || req.MarkAsReadBatch? || req.MoveToLabelBatch?
  }

  predicate IsSingle(req: Request) {
    req.DeleteEmail? || req.MarkAsRead? || req.ArchiveEmail? || req.MoveToLabel?
  }

  /** The confirmation text of each single tool. */
  function Confirmation(k: Operations.ItemKind): string {
    match k
    case Trash => "Email deleted successfully"
    case MarkRead => "Email marked as read"
    case Archive => "Email archived successfully and verified"
    case Move(_) => "Email moved to label successfully"
  }

  /** `labels.map(label => ({id, name, type, messageListVisibility, labelListVisibility}))` */
  function Project(ls: seq<LabelResource>): (r: seq<LabelInfo>)
    ensures |r| == |ls|
    ensures forall i :: 0 <= i < |ls| ==>
              r[i].id == ls[i].id && r[i].name == ls[i].name && r[i].labelType == ls[i].labelType &&
              r[i].messageListVisibility == ls[i].messageListVisibility &&
              r[i].labelListVisibility == ls[i].labelListVisibility
  {
    seq(|ls|, i requires 0 <= i < |ls| =>
      LabelInfo(ls[i].id, ls[i].name, ls[i].labelType, ls[i].messageListVisibility, ls[i].labelListVisibility))
  }

  /** Runs a validated request. */
  function Execute(o: Oracle, r: Remote, req: Request): (Remote, Result<Payload, Thrown>) {
    match req
    case ListEmails(maxResults, query) =>
      var listed := ListSummaries(o, r, maxResults, query);
      (listed.0, match listed.1 case Err(t) => Err(t) case Ok(es) => Ok(Emails(es)))
    case SendEmail(to, subject, body) =>
      var sent := Query(o, r, SendCall(Email.RawMessage(to, subject, body)), ());
      (sent.0, match sent.1 case Err(t) => Err(t) case Ok(_) => Ok(Text("Email sent successfully")))
    case ListLabels =>
      var listed := Query(o, r, LabelsCall, o.catalogue.GetOr([]));
      (listed.0, match listed.1 case Err(t) => Err(t) case Ok(ls) => Ok(Labels(Project(ls))))
    case DeleteEmail(id) => Single(Operations.Trash, o, r, id)
    case MarkAsRead(id) => Single(Operations.MarkRead, o, r, id)
    case ArchiveEmail(id) => Single(Operations.Archive, o, r, id)
    case MoveToLabel(id, l) => Single(Operations.Move(l), o, r, id)
    case DeleteEmailsBatch(ids) => Many(Operations.Trash, o, r, ids)
    case MarkAsReadBatch(ids) => Many(Operations.MarkRead, o, r, ids)
    case ArchiveEmailsBatch(ids) => Many(Operations.Archive, o, r, ids)
    case MoveToLabelBatch(ids, l) => Many(Operations.Move(l), o, r, ids)
  }

  /** A single tool: the operation's throw propagates to the handler. */
  function Single(k: Operations.ItemKind, o: Oracle, r: Remote, id: MessageId): (Remote, Result<Payload, Thrown>) {
    var done := Operations.Perform(k, o, r, id);
    (done.0, match done.1 case Threw(t) => Err(t) case Done => Ok(Text(Confirmation(k))))
  }

  /** A batch tool: the report is the answer, whatever its items did. */
  function Many(k: Operations.ItemKind, o: Oracle, r: Remote, ids: seq<MessageId>): (Remote, Result<Payload, Thrown>) {
    var run := Operations.RunBatch(k, o, r, ids);
    (run.0, Ok(BatchReport(run.1)))
  }

  /** A single tool's throw reaches the caller as the error; it succeeds
      exactly when its item would, with the tool's confirmation. */
  lemma ExecuteSingle(o: Oracle, r: Remote, req: Request)
    requires IsSingle(req)
    ensures var out := Execute(o, r, req).1;
            var expected := Operations.Expected(KindOf(req).value, o, r.box, req.id);
            (out.Ok? <==> expected.Done?) &&
            (out.Ok? ==> out.value == Text(Confirmation(KindOf(req).value))) &&
            (out.Err? ==> expected == Threw(out.error))
  {
  }

  /** Each single tool confirms in its own words. */
  lemma SingleWording(o: Oracle, r: Remote, req: Request)
    requires IsSingle(req)
    ensures var out := Execute(o, r, req).1;
            (out.Ok? && req.DeleteEmail? ==> out.value == Text("Email deleted successfully")) &&
            (out.Ok? && req.MarkAsRead? ==> out.value == Text("Email marked as read")) &&
            (out.Ok? && req.ArchiveEmail? ==> out.value == Text("Email archived successfully and verified")) &&
            (out.Ok? && req.MoveToLabel? ==> out.value == Text("Email moved to label successfully"))
  {
    ExecuteSingle(o, r, req);
    SingleConfirmation(req);
  }

  /** The confirmation text of each single tool. */
  lemma SingleConfirmation(req: Request)
    requires IsSingle(req)
    ensures req.DeleteEmail? ==> Confirmation(KindOf(req).value) == "Email deleted successfully"
    ensures req.MarkAsRead? ==> Confirmation(KindOf(req).value) == "Email marked as read"
    ensures req.ArchiveEmail? ==> Confirmation(KindOf(req).value) == "Email archived successfully and verified"
    ensures req.MoveToLabel? ==> Confirmation(KindOf(req).value) == "Email moved to label successfully"
  {
  }

  /** A batch tool never throws, whatever its items do: every item is
      reported, in order, with the outcome it would have had on its own. */
  lemma ExecuteBatch(o: Oracle, r: Remote, req: Request)
    requires IsBatch(req)
    ensures KindOf(req).Some?
    ensures var out := Execute(o, r, req).1;
            out.Ok? && out.value.BatchReport? && |out.value.report.results| == |req.ids| &&
            forall i :: 0 <= i < |req.ids| ==>
              out.value.report.results[i] == Batch.Settle(req.ids[i], Operations.Expected(KindOf(req).value, o, r.box, req.ids[i]))
    ensures var rep := Execute(o, r, req).1.value.report;
            Batch.SuccessCount(rep.results) + Batch.FailedCount(rep.results) == |req.ids| &&
            Batch.ParseSummary(rep.message) == Some((Batch.SuccessCount(rep.results), Batch.FailedCount(rep.results)))
    ensures var rep := Execute(o, r, req).1.value.report;
            rep.message == Batch.Summary(Batch.SuccessCount(rep.results), Batch.FailedCount(rep.results), Operations.Verb(KindOf(req).value))
  {
  }

  /** Each batch tool words its summary line its own way:
      `<successes> emails <verb>, <failures> failed`. */
  lemma BatchWording(o: Oracle, r: Remote, req: Request)
    requires IsBatch(req)
    ensures var rep := Execute(o, r, req).1.value.report;
            var s, f := Batch.SuccessCount(rep.results), Batch.FailedCount(rep.results);
            (req.DeleteEmailsBatch? ==> rep.message == Batch.Summary(s, f, "deleted successfully")) &&
            (req.ArchiveEmailsBatch? ==> rep.message == Batch.Summary(s, f, "archived successfully and verified")) &&
            (req.MarkAsReadBatch? ==> rep.message == Batch.Summary(s, f, "marked as read")) &&
            (req.MoveToLabelBatch? ==> rep.message == Batch.Summary(s, f, "moved to label"))
  {
    ExecuteBatch(o, r, req);
    BatchVerb(req);
  }

  /** The verb of each batch tool's summary line. */
  lemma BatchVerb(req: Request)
    requires IsBatch(req)
    ensures req.DeleteEmailsBatch? ==> Operations.Verb(KindOf(req).value) == "deleted successfully"
    ensures req.ArchiveEmailsBatch? ==> Operations.Verb(KindOf(req).value) == "archived successfully and verified"
    ensures req.MarkAsReadBatch? ==> Operations.Verb(KindOf(req).value) == "marked as read"
    ensures req.MoveToLabelBatch? ==> Operations.Verb(KindOf(req).value) == "moved to label"
  {
  }

  /** A single or batch tool changes the messages it names, each by its
      kind's effect at most once, and no other message. */
  lemma ExecuteEffects(o: Oracle, r: Remote, req: Request, m: MessageId)
    requires IsBatch(req) || IsSingle(req)
    ensures View(Execute(o, r, req).0, m) ==
              if m in Targets(req) then Operations.After(KindOf(req).value, o, m, View(r, m)) else View(r, m)
  {
    if IsSingle(req) {
      assert m in Targets(req) <==> m == req.id;
    }
  }

  /** The tools that only read leave the box as it was. */
  lemma ExecuteReadOnly(o: Oracle, r: Remote, req: Request)
    requires req.ListEmails? || req.SendEmail? || req.ListLabels?
    ensures Execute(o, r, req).0.box == r.box
  {
    if req.ListEmails? {
      ListSummariesReadOnly(o, r, req.maxResults, req.query);
    }
  }

  lemma ListSummariesReadOnly(o: Oracle, r: Remote, maxResults: real, query: string)
    ensures ListSummaries(o, r, maxResults, query).0.box == r.box
  {
  }

  /** A search that names messages: one list call, then one get per id in
      order; the answer lists each message's summary, in the order of the
      ids, exactly when no get rejects. */
  lemma ListSummariesFound(o: Oracle, r: Remote, maxResults: real, query: string, ids: seq<MessageId>)
    requires !o.reply(ListCall(maxResults, query)).Failed? && o.search(maxResults, query) == Some(ids)
    ensures var out := ListSummaries(o, r, maxResults, query);
            out.0.box == r.box &&
            out.0.log == r.log + [ListCall(maxResults, query)] + seq(|ids|, i requires 0 <= i < |ids| => GetCall(ids[i])) &&
            (out.1.Ok? <==> forall i :: 0 <= i < |ids| ==> FetchFailure(o, r.box, ids[i]).None?) &&
            (out.1.Ok? ==>
               |out.1.value| == |ids| &&
               forall i :: 0 <= i < |ids| ==> ids[i] in r.box && out.1.value[i] == Email.Summarize(ids[i], r.box[ids[i]]))
  {
    var listed := Record(r, ListCall(maxResults, query));
    assert ListSummaries(o, r, maxResults, query) == FetchAll(o, listed, ids);
    FetchAllResolves(o, listed, ids);
  }

  /** `list_emails` answers the summaries of the messages its search found,
      fetched one get per id, and answers them exactly when no get rejects. */
  lemma ExecuteListEmails(o: Oracle, r: Remote, maxResults: real, query: string, ids: seq<MessageId>)
    requires !o.reply(ListCall(maxResults, query)).Failed? && o.search(maxResults, query) == Some(ids)
    ensures var out := Execute(o, r, ListEmails(maxResults, query));
            out.0.box == r.box &&
            out.0.log == r.log + [ListCall(maxResults, query)] + seq(|ids|, i requires 0 <= i < |ids| => GetCall(ids[i])) &&
            (out.1.Ok? <==> forall i :: 0 <= i < |ids| ==> FetchFailure(o, r.box, ids[i]).None?) &&
            (out.1.Ok? ==>
               out.1.value.Emails? && |out.1.value.emails| == |ids| &&
               forall i :: 0 <= i < |ids| ==> ids[i] in r.box && out.1.value.emails[i] == Email.Summarize(ids[i], r.box[ids[i]]))
  {
    ListSummariesFound(o, r, maxResults, query, ids);
    var listed := ListSummaries(o, r, maxResults, query);
    assert Execute(o, r, ListEmails(maxResults, query)) ==
           (listed.0, match listed.1 case Err(t) => Err(t) case Ok(es) => Ok(Emails(es)));
  }

  /** A rejected search throws before any get: `list_emails` has issued only
      the list call, changed nothing, and throws the search's error. */
  lemma ExecuteListEmailsRejected(o: Oracle, r: Remote, maxResults: real, query: string)
    ensures var c := ListCall(maxResults, query);
            o.reply(c).Failed? ==>
              Execute(o, r, ListEmails(maxResults, query)) == (Remote(r.box, r.log + [c]), Err(o.reply(c).thrown))
  {
  }

  /** `list_labels` issues one labels call and changes nothing; when it
      resolves, it answers every label of the catalogue in order, projected
      to its five fields, and no label when the response has none;
      otherwise it throws the call's error. */
  lemma ExecuteListLabels(o: Oracle, r: Remote)
    ensures var out := Execute(o, r, ListLabels);
            out.0 == Remote(r.box, r.log + [LabelsCall]) &&
            (out.1.Ok? <==> !o.reply(LabelsCall).Failed?) &&
            (out.1.Ok? ==> out.1.value == Labels(Project(o.catalogue.GetOr([])))) &&
            (out.1.Ok? && o.catalogue.None? ==> out.1.value == Labels([])) &&
            (out.1.Err? ==> out.1.error == o.reply(LabelsCall).thrown)
  {
  }

  /** `send_email` issues one send call, carrying the encoded message, and
      succeeds, with its confirmation, exactly when that call does. */
  lemma ExecuteSend(o: Oracle, r: Remote, to: string, subject: string, body: string)
    ensures var out := Execute(o, r, SendEmail(to, subject, body));
            var c := SendCall(Email.RawMessage(to, subject, body));
            out.0 == Remote(r.box, r.log + [c]) &&
            (out.1.Ok? <==> !o.reply(c).Failed?) &&
            (out.1.Ok? ==> out.1.value == Text("Email sent successfully")) &&
            (out.1.Err? ==> out.1.error == o.reply(c).thrown)
  {
  }

  /** The ids a single or batch request operates on. */
  function Targets(req: Request): seq<MessageId>
    requires IsBatch(req) || IsSingle(req)
  {
    if IsBatch(req) then req.ids else [req.id]
  }

  // ---------------------------------------------------------------------
  // The handler

  /** The `catch` of the handler: `Error: <message>`, flagged as an error. */
  function Failure(t: Thrown): (res: ToolResult)
    ensures res.isError && res.payload.Text? && "Error: " <= res.payload.text
    ensures t.Raised? ==> res.payload.text == "Error: " + t.message
    ensures t.NonError? ==> res.payload.text == "Error: An unknown error occurred"
    ensures t.McpRaised? ==> "Error: MCP error " <= res.payload.text
  {
    var m := MessageOr(t, "An unknown error occurred");
    ErrorText(m);
    UnknownErrorText();
    ToolResult(Text("Error: " + m), true)
  }

  /** An error answer's text is "Error: " followed by the message. */
  lemma ErrorText(m: string)
    ensures "Error: " <= "Error: " + m && ("Error: " + m)[7..] == m
    ensures "MCP error " <= m ==> "Error: MCP error " <= "Error: " + m
  {
    assert ("Error: " + m)[..7] == "Error: ";
  }

  /** Proof helper: the literal of the unknown-error answer, kept out of `Failure`. */
  lemma UnknownErrorText()
    ensures "Error: " + "An unknown error occurred" == "Error: An unknown error occurred"
  {
  }


  /** The `CallToolRequestSchema` handler. */
  function Handle(o: Oracle, r: Remote, name: string, arguments: Option<Args>): (out: (Remote, ToolResult))
    ensures out.1.isError ==> out.1.payload.Text? && "Error: " <= out.1.payload.text
    ensures Parse(name, arguments).Err? ==> out.0 == r && out.1 == Failure(Parse(name, arguments).error)
    ensures Parse(name, arguments).Ok? ==>
              var done := Execute(o, r, Parse(name, arguments).value);
              out.0 == done.0 &&
              (done.1.Ok? ==> out.1 == ToolResult(done.1.value, false)) &&
              (done.1.Err? ==> out.1 == Failure(done.1.error))
  {
    match Parse(name, arguments)
    case Err(t) => (r, Failure(t))
    case Ok(req) =>
      var done := Execute(o, r, req);
      match done.1
      case Err(t) => (done.0, Failure(t))
      case Ok(p) => (done.0, ToolResult(p, false))
  }

  /** Proof helper: the decimal texts of the two MCP error codes. */
  lemma CodeTexts()
    ensures Decimal.IntToString(MethodNotFound) == "-32601"
    ensures Decimal.IntToString(InvalidParams) == "-32602"
  {
    assert Decimal.NatToString(3) == "3";
    assert Decimal.NatToString(32) == "32";
    assert Decimal.NatToString(326) == "326";
    assert Decimal.NatToString(3260) == "3260";
    assert Decimal.NatToString(32601) == "32601";
    assert Decimal.NatToString(32602) == "32602";
  }

  /** Proof helper: the full text of a MethodNotFound answer. */
  lemma MethodNotFoundText(text: string)
    ensures Failure(McpRaised(MethodNotFound, text)) == ToolResult(Text("Error: MCP error -32601: " + text), true)
  {
    CodeTexts();
    var m := MessageOr(McpRaised(MethodNotFound, text), "An unknown error occurred");
    assert m == "MCP error " + "-32601" + ": " + text;
    assert "Error: " + m == ("Error: " + "MCP error " + "-32601" + ": ") + text;
    assert "Error: " + "MCP error " + "-32601" + ": " == "Error: MCP error -32601: ";
  }

  /** Proof helper: the full text of an InvalidParams answer. */
  lemma InvalidParamsText(text: string)
    ensures Failure(McpRaised(InvalidParams, text)) == ToolResult(Text("Error: MCP error -32602: " + text), true)
  {
    CodeTexts();
    var m := MessageOr(McpRaised(InvalidParams, text), "An unknown error occurred");
    assert m == "MCP error " + "-32602" + ": " + text;
    assert "Error: " + m == ("Error: " + "MCP error " + "-32602" + ": ") + text;
    assert "Error: " + "MCP error " + "-32602" + ": " == "Error: MCP error -32602: ";
  }

  /** An unknown tool name is a `MethodNotFound` error response, and the
      provider is never called. */
  lemma HandleUnknownTool(o: Oracle, r: Remote, name: string, arguments: Option<Args>)
    requires forall t :: Name(t) != name
    ensures Handle(o, r, name, arguments) == (r, ToolResult(Text("Error: MCP error -32601: Unknown tool: " + name), true))
  {
    var t := McpRaised(MethodNotFound, "Unknown tool: " + name);
    assert Handle(o, r, name, arguments) == (r, Failure(t)) by {
      assert Parse(name, arguments) == Err(t);
    }
    assert Failure(t) == ToolResult(Text("Error: MCP error -32601: Unknown tool: " + name), true) by {
      MethodNotFoundText("Unknown tool: " + name);
      UnknownToolPrefix(name);
    }
  }

  /** Proof helper: regrouping the unknown-tool answer's literal pieces. */
  lemma UnknownToolPrefix(name: string)
    ensures "Error: MCP error -32601: " + ("Unknown tool: " + name) == "Error: MCP error -32601: Unknown tool: " + name
  {
    assert "Error: MCP error -32601: " + ("Unknown tool: " + name) == ("Error: MCP error -32601: " + "Unknown tool: ") + name;
    assert "Error: MCP error -32601: " + "Unknown tool: " == "Error: MCP error -32601: Unknown tool: ";
  }

  /** Arguments of the wrong shape are an `InvalidParams` error response
      carrying the check's message, and the provider is never called. */
  lemma HandleInvalid(o: Oracle, r: Remote, t: Tool, arguments: Option<Args>)
    requires Validate(t, arguments.GetOr(map[])).Err?
    ensures var text := Reason(Validate(t, arguments.GetOr(map[])).error);
            Handle(o, r, Name(t), arguments) == (r, ToolResult(Text("Error: MCP error -32602: " + text), true))
  {
    var e := Invalid(Validate(t, arguments.GetOr(map[])).error);
    assert Handle(o, r, Name(t), arguments) == (r, Failure(e)) by {
      ParseKnown(t, arguments);
    }
    InvalidParamsText(e.text);
  }

  /** A batch tool with well-shaped arguments always answers with a report,
      never an error: its counts cover every id and its summary line
      states them. */
  lemma HandleBatch(o: Oracle, r: Remote, name: string, arguments: Option<Args>)
    requires Parse(name, arguments).Ok? && IsBatch(Parse(name, arguments).value)
    ensures var res := Handle(o, r, name, arguments).1;
            var req := Parse(name, arguments).value;
            !res.isError && res.payload.BatchReport? &&
            |res.payload.report.results| == |req.ids| &&
            Batch.SuccessCount(res.payload.report.results) + Batch.FailedCount(res.payload.report.results) == |req.ids| &&
            Batch.ParseSummary(res.payload.report.message) ==
              Some((Batch.SuccessCount(res.payload.report.results), Batch.FailedCount(res.payload.report.results)))
    ensures var req := Parse(name, arguments).value;
            Handle(o, r, name, arguments).1.payload == Execute(o, r, req).1.value
  {
    var req := Parse(name, arguments).value;
    ExecuteBatch(o, r, req);
    assert Handle(o, r, name, arguments).1 == ToolResult(Execute(o, r, req).1.value, false);
  }

  /** `list_emails` over a search that finds nothing answers an empty list,
      not an error. */
  lemma ListEmailsNothingFound(o: Oracle, r: Remote, arguments: Option<Args>)
    requires var req := Parse("list_emails", arguments).value;
             !o.reply(ListCall(req.maxResults, req.query)).Failed? &&
             (o.search(req.maxResults, req.query) == None || o.search(req.maxResults, req.query) == Some([]))
    ensures Handle(o, r, "list_emails", arguments).1 == ToolResult(Emails([]), false)
  {
    LookupName(ListEmailsTool);
  }
}
