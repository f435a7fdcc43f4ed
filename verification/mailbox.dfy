/** The remote mailbox the server talks to, reduced to what the tools use:
    each message's label set, its trash flag, its headers and snippet. The
    provider's own behaviour (network faults, search, the label catalogue)
    is an oracle; every call the server issues is recorded in a log. */
module Mailbox {
  import opened Errors

  type MessageId = string
  type LabelId = string

  /** The system labels the tools touch. */
  const Inbox: LabelId := "INBOX"
  const Unread: LabelId := "UNREAD"

  datatype Header = Header(name: string, value: string)

  datatype Message = Message(labels: set<LabelId>, trashed: bool, headers: seq<Header>, snippet: Option<string>)

  type Box = map<MessageId, Message>

  /** A label as `users.labels.list` returns it; `messagesTotal` stands for
      the fields the server does not pass on. */
  datatype LabelResource = LabelResource(
    id: LabelId, name: string, labelType: Option<string>,
    messageListVisibility: Option<string>, labelListVisibility: Option<string>,
    messagesTotal: Option<nat>)

  /** The remote calls the server issues. */
  datatype Call =
    | ListCall(maxResults: real, query: string)
    | GetCall(id: MessageId)
    | ModifyCall(id: MessageId, add: set<LabelId>, remove: set<LabelId>)
    | TrashCall(id: MessageId)
    | SendCall(raw: string)
    | LabelsCall

  /** How the provider answers one call: it carries it out, it acknowledges
      a change without applying it, or the call rejects. */
  datatype Reply = Performed | Dropped | Failed(thrown: Thrown)

  /** Everything about the provider the server cannot see: which calls
      fail, what a search returns (`messages` may be missing from the
      response), the label catalogue, and the error for an unknown id. */
  datatype Oracle = Oracle(
    reply: Call -> Reply,
    search: (real, string) -> Option<seq<MessageId>>,
    catalogue: Option<seq<LabelResource>>,
    notFound: Thrown)

  /** The provider's state: the messages, and the calls received so far. */
  datatype Remote = Remote(box: Box, log: seq<Call>)

  /** `users.messages.modify`: the labels become (labels ∪ add) \ remove. */
  function Relabel(m: Message, add: set<LabelId>, remove: set<LabelId>): Message {
    m.(labels := (m.labels + add) - remove)
  }

  /** What a carried-out change does to the message it names. */
  function Change(c: Call, m: Message): Message
    requires c.ModifyCall? || c.TrashCall?
  {
    if c.ModifyCall? then Relabel(m, c.add, c.remove) else m.(trashed := true)
  }

  function Record(r: Remote, c: Call): Remote {
    r.(log := r.log + [c])
  }

  /** Issue a call that changes one message: the oracle may reject it,
      an unknown id is rejected, a dropped call changes nothing. */
  function Mutate(o: Oracle, r: Remote, c: Call): (out: (Remote, Attempt))
    requires c.ModifyCall? || c.TrashCall?
  {
    var r' := Record(r, c);
    match o.reply(c)
    case Failed(t) => (r', Threw(t))
    case Dropped => if c.id in r.box then (r', Done) else (r', Threw(o.notFound))
    case Performed =>
      if c.id !in r.box then (r', Threw(o.notFound))
      else
        (r'.(box := r.box[c.id := Change(c, r.box[c.id])]), Done)
  }

  /** `users.messages.get`: the stored message, unless the call rejects. */
  function Fetch(o: Oracle, r: Remote, id: MessageId): (Remote, Result<Message, Thrown>) {
    var r' := Record(r, GetCall(id));
    match o.reply(GetCall(id))
    case Failed(t) => (r', Err(t))
    case _ => if id in r.box then (r', Ok(r.box[id])) else (r', Err(o.notFound))
  }

  /** A call that changes nothing and answers with `v` unless it rejects. */
  function Query<T>(o: Oracle, r: Remote, c: Call, v: T): (Remote, Result<T, Thrown>) {
    var r' := Record(r, c);
    match o.reply(c)
    case Failed(t) => (r', Err(t))
    case _ => (r', Ok(v))
  }

  /** A message as it stands in the box, `None` when there is no such id. */
  function View(r: Remote, id: MessageId): Option<Message> {
    if id in r.box then Some(r.box[id]) else None
  }
}
