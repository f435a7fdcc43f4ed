/** The four single-message operations (delete, mark as read, archive,
    move to label), each the body both of a single tool and of the item
    step of its batch tool, and the batch tools built from them. */
module Operations {
  import opened Errors
  import opened Mailbox
  import Batch

  datatype ItemKind = Trash | MarkRead | Archive | Move(labelId: LabelId)

  /** The error archive raises when the re-fetched message still has INBOX. */
  const StillInInbox: Thrown := Raised("Failed to archive email - still in inbox")

  /** The state-changing call each kind issues for `id`. */
  function ChangeCall(k: ItemKind, id: MessageId): (c: Call)
    ensures c.ModifyCall? || c.TrashCall?
    ensures c.id == id
    ensures c.TrashCall? <==> k.Trash?
    ensures c.ModifyCall? ==> c.remove == (if k.MarkRead? then {Unread} else {Inbox})
    ensures c.ModifyCall? ==> c.add == (if k.Move? then {k.labelId} else {})
  {
    match k
    case Trash => TrashCall(id)
    case MarkRead => ModifyCall(id, {}, {Unread})
    case Archive => ModifyCall(id, {}, {Inbox})
    case Move(l) => ModifyCall(id, {l}, {Inbox})
  }

  /** What a carried-out operation does to its message: delete only sets the
      trash flag; mark-read removes exactly UNREAD; archive removes exactly
      INBOX; move adds the label and removes INBOX. */
  function Effect(k: ItemKind, id: MessageId, m: Message): (r: Message)
    ensures r.headers == m.headers && r.snippet == m.snippet
    ensures k.Trash? ==> r.trashed && r.labels == m.labels
    ensures !k.Trash? ==> r.trashed == m.trashed
    ensures k.MarkRead? ==> r.labels == m.labels - {Unread}
    ensures k.Archive? ==> r.labels == m.labels - {Inbox}
    ensures k.Move? ==> Inbox !in r.labels && (k.labelId != Inbox ==> k.labelId in r.labels)
    ensures k.Move? ==> forall l :: l != Inbox && l != k.labelId ==> (l in r.labels <==> l in m.labels)
  {
    Change(ChangeCall(k, id), m)
  }

  /** Repeating an operation's change changes nothing more, which is why a
      duplicated id in a batch leaves the same mailbox as a single one. */
  lemma EffectIdempotent(k: ItemKind, id: MessageId, m: Message)
    ensures Effect(k, id, Effect(k, id, m)) == Effect(k, id, m)
  {
    if k.Move? {
      assert ((m.labels + {k.labelId}) - {Inbox} + {k.labelId}) - {Inbox} == (m.labels + {k.labelId}) - {Inbox};
    }
  }

  /** A message after one item: changed exactly when the provider performed
      the change on a message that exists. */
  function After(k: ItemKind, o: Oracle, id: MessageId, v: Option<Message>): Option<Message> {
    match v
    case None => None
    case Some(m) => if o.reply(ChangeCall(k, id)).Performed? then Some(Effect(k, id, m)) else Some(m)
  }

  lemma AfterIdempotent(k: ItemKind, o: Oracle, id: MessageId, v: Option<Message>)
    ensures After(k, o, id, After(k, o, id, v)) == After(k, o, id, v)
  {
    if v.Some? {
      EffectIdempotent(k, id, v.value);
    }
  }

  /** How the item for `id` completes, read off the provider's replies and
      the mailbox before the item runs: the change call's failure, then an
      unknown id, then (archive only) the re-fetch's failure, then the
      verification, which fails exactly when the provider dropped the
      change on a message that was in INBOX. */
  function Expected(k: ItemKind, o: Oracle, box: Box, id: MessageId): Attempt {
    var first := o.reply(ChangeCall(k, id));
    if first.Failed? then Threw(first.thrown)
    else if id !in box then Threw(o.notFound)
    else if !k.Archive? then Done
    else if o.reply(GetCall(id)).Failed? then Threw(o.reply(GetCall(id)).thrown)
    else if first.Dropped? && Inbox in box[id].labels then Threw(StillInInbox)
    else Done
  }

  /** The calls one item issues: its change call, once; archive then
      re-fetches the message unless the change rejected or named an unknown
      id. */
  function ItemCalls(k: ItemKind, o: Oracle, box: Box, id: MessageId): seq<Call> {
    if k.Archive? && !o.reply(ChangeCall(k, id)).Failed? && id in box then [ChangeCall(k, id), GetCall(id)]
    else [ChangeCall(k, id)]
  }

  /** The body of one operation: the change call, and for archive the
      re-fetch and the INBOX check that follow it. */
  function Perform(k: ItemKind, o: Oracle, r: Remote, id: MessageId): (out: (Remote, Attempt))
    ensures out.1 == Expected(k, o, r.box, id)
    ensures forall m :: View(out.0, m) == if m == id then After(k, o, id, View(r, m)) else View(r, m)
    ensures out.0.box.Keys == r.box.Keys
    ensures out.0.log == r.log + ItemCalls(k, o, r.box, id)
    ensures !k.Archive? ==> out.0.log == r.log + [ChangeCall(k, id)]
  {
    var changed := Mutate(o, r, ChangeCall(k, id));
    if !k.Archive? || changed.1.Threw? then changed
    else
      var fetched := Fetch(o, changed.0, id);
      match fetched.1
      case Err(t) => (fetched.0, Threw(t))
      case Ok(m) => if Inbox in m.labels then (fetched.0, Threw(StillInInbox)) else (fetched.0, Done)
  }

  /** One item leaves every id's expected outcome as it was. */
  lemma PerformKeepsExpected(k: ItemKind, o: Oracle, r: Remote, id: MessageId, m: MessageId)
    ensures Expected(k, o, Perform(k, o, r, id).0.box, m) == Expected(k, o, r.box, m)
  {
    var r' := Perform(k, o, r, id).0;
    assert View(r', m) == if m == id then After(k, o, id, View(r, m)) else View(r, m);
  }

  /** The summary verb of each batch tool. */
  function Verb(k: ItemKind): string {
    match k
    case Trash => "deleted successfully"
    case MarkRead => "marked as read"
    case Archive => "archived successfully and verified"
    case Move(_) => "moved to label"
  }

  /** Apart from archive, an item issues exactly its change call, so a
      batch issues one change call per id, in order. */
  lemma SingleCalls(k: ItemKind, o: Oracle, box: Box, ids: seq<MessageId>)
    ensures !k.Archive? ==> Batch.Concat(ids, (id: MessageId) => ItemCalls(k, o, box, id)) ==
                              seq(|ids|, i requires 0 <= i < |ids| => ChangeCall(k, ids[i]))
  {
    if !k.Archive? {
      Batch.ConcatSingles(ids, (id: MessageId) => ItemCalls(k, o, box, id), (id: MessageId) => ChangeCall(k, id));
    }
  }

  /** A batch tool: every id's item run in order, then the report. Each
      entry is the outcome its id would have had alone against the mailbox
      as it was before the batch; ids listed are changed once however often
      they appear; ids not listed are untouched. */
  function RunBatch(k: ItemKind, o: Oracle, r: Remote, ids: seq<MessageId>): (out: (Remote, Batch.Report))
    ensures |out.1.results| == |ids|
    ensures forall i :: 0 <= i < |ids| ==> out.1.results[i] == Batch.Settle(ids[i], Expected(k, o, r.box, ids[i]))
    ensures forall m :: View(out.0, m) == if m in ids then After(k, o, m, View(r, m)) else View(r, m)
    ensures out.1.message == Batch.Summary(Batch.SuccessCount(out.1.results), Batch.FailedCount(out.1.results), Verb(k))
    ensures Batch.ParseSummary(out.1.message) == Some((Batch.SuccessCount(out.1.results), Batch.FailedCount(out.1.results)))
    ensures Batch.SuccessCount(out.1.results) + Batch.FailedCount(out.1.results) == |ids|
    ensures out.0.log == r.log + Batch.Concat(ids, (id: MessageId) => ItemCalls(k, o, r.box, id))
    ensures !k.Archive? ==> out.0.log == r.log + seq(|ids|, i requires 0 <= i < |ids| => ChangeCall(k, ids[i]))
  {
    var step := (t: Remote, id: MessageId) => Perform(k, o, t, id);
    var run := Batch.Run(r, ids, step);
    var inv := (t: Remote) => forall m :: Expected(k, o, t.box, m) == Expected(k, o, r.box, m);
    forall t: Remote, id: MessageId | inv(t) ensures inv(step(t, id).0) && step(t, id).1 == Expected(k, o, r.box, id) {
      forall m ensures Expected(k, o, step(t, id).0.box, m) == Expected(k, o, r.box, m) {
        PerformKeepsExpected(k, o, t, id, m);
      }
    }
    Batch.RunIsolated(r, ids, step, inv, (id: MessageId) => Expected(k, o, r.box, id));
    var effect := (id: MessageId, v: Option<Message>) => After(k, o, id, v);
    forall id: MessageId, v: Option<Message> ensures effect(id, effect(id, v)) == effect(id, v) {
      AfterIdempotent(k, o, id, v);
    }
    Batch.RunEffects(r, ids, step, (t: Remote, m: MessageId) => View(t, m), effect);
    var calls := (id: MessageId) => ItemCalls(k, o, r.box, id);
    var sameIds := (t: Remote) => t.box.Keys == r.box.Keys;
    forall t: Remote, id: MessageId | sameIds(t) ensures sameIds(step(t, id).0) && step(t, id).0.log == t.log + calls(id) {
      assert ItemCalls(k, o, t.box, id) == calls(id);
    }
    Batch.RunTrace(r, ids, step, sameIds, (t: Remote) => t.log, calls);
    SingleCalls(k, o, r.box, ids);
    Batch.ReportCounts(run.1, Verb(k));
    (run.0, Batch.MakeReport(run.1, Verb(k)))
  }
}
