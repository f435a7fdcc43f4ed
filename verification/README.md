# gmail-mcp, modelled in Dafny

gmail-mcp is a Model Context Protocol server. It exposes eleven Gmail tools:

- `list_emails`, `send_email` and `list_labels`;
- `delete_email`, `mark_as_read`, `archive_email` and `move_to_label`;
- the batch forms `delete_emails_batch`, `mark_as_read_batch`, `archive_emails_batch` and `move_to_label_batch`.

Each tool call goes through one handler. The handler checks the arguments' shapes, dispatches on the tool name and issues the Gmail API calls. Every error is caught, so nothing escapes the handler as a protocol failure: it becomes an `isError` text response starting with `Error: `.

This project models that handler and the operations behind it.

- **The Gmail provider is an oracle.** It decides, for each distinct call, whether the call:
  - is carried out;
  - is acknowledged but has no effect (`Dropped`); or
  - rejects with an error.
- **The provider's state** is a map from message id to message, plus the log of calls it has received.
- **Batch tools** are modelled as an order-preserving walk over the ids. Each item's failure is caught at the item.
- **The outgoing message** is modelled down to its bytes:
  - the header lines;
  - the RFC 2047 encoded-word for the subject (the `B` encoding over UTF-8);
  - base64 per section 4 of RFC 4648, then the URL-safe alphabet of section 5 with the padding stripped.

Modules:

| file | module | what it holds |
|---|---|---|
| `bytes.dfy` | `Bytes` | octets, shared by the UTF-8 encoder and the base 64 codec |
| `errors.dfy` | `Errors` | `Option`, `Result`, thrown values, the MCP error codes and message format |
| `decimal.dfy` | `Decimal` | decimal rendering of counts and codes, and its inverse |
| `base64.dfy` | `Base64` | RFC 4648 base64 and its URL-safe, unpadded variant, with decoders |
| `utf8.dfy` | `Utf8` | the RFC 3629 UTF-8 encoder `Buffer.from(string)` applies, and the bit reading of one encoded character |
| `mailbox.dfy` | `Mailbox` | messages, labels, provider calls, the oracle, the provider's state |
| `batch.dfy` | `Batch` | per-item settling, counts, the summary line, generic batch lemmas |
| `operations.dfy` | `Operations` | trash / mark read / archive / move: one item, and a batch of them |
| `email.dfy` | `Email` | header lookup for `list_emails`; the raw message of `send_email` |
| `arguments.dfy` | `Arguments` | argument JSON, tool names, the per-tool argument checks |
| `dispatch.dfy` | `Dispatch` | running a validated request, and the catch-all handler |

`archive_emails_batch` re-fetches each message and fails the item when `INBOX` is still present, like `archive_email` (src/index.ts:608-619). `Operations.Expected` is the single reference outcome for both tools.

## Model

| member | source | states |
|---|---|---|
| Batch.Settle | src/index.ts:534-542 | an item succeeds exactly when its operation completes; a thrown `Error` gives its message; any other thrown value gives "Unknown error"; every failed entry carries the thrown value's message; the entry's error is present exactly when it failed |
| Errors.MessageOr | src/index.ts:394 | an `Error` yields its own message and a non-`Error` the fallback; an `McpError`'s message starts "MCP error " and ends with its text |
| Batch.Run | src/index.ts:532-544 | one entry per id, in the order of the ids, each with its own id |
| Batch.CountsCover | src/index.ts:546-547 | every result is counted as a success or a failure, exactly once |
| Batch.SuccessCountPositions | src/index.ts:546 | the success count is the number of positions whose entry succeeded |
| Batch.SummaryRoundTrip | src/index.ts:554 | the summary line determines both counts, whatever the verb |
| Batch.ReportCounts | src/index.ts:546-556 | a report's message reads back as its success and failure counts, and these add up to the number of results |
| Batch.RunIsolated | src/index.ts:532-544 | failure isolation: each entry is the settled outcome its own id would have alone, whatever the other items did |
| Batch.RunTrace | src/index.ts:532-544 | when each item appends its own calls to the log, the walk appends every id's calls in the order of the ids, one item's calls together (the sequential walk's order, not the interleaving `Promise.all` gives) |
| Batch.RunEffects | src/index.ts:532-544 | the final state applies an idempotent per-id effect once to every listed id, duplicates included, and leaves other ids untouched |
| Decimal.NatToString | src/index.ts:554 | a count renders as a non-empty digit string with no leading zero |
| Decimal.ParseNatToString | src/index.ts:554 | reading back a rendered count gives the count |
| Decimal.NatToStringInjective | src/index.ts:554 | distinct counts render differently |
| Base64.EncodeLength | src/index.ts:473-474 | the encoding has 4·⌈n/3⌉ characters |
| Base64.Unpadded | src/index.ts:474 | every character before the padding is in the base64 alphabet |
| Base64.DecodeEncode | src/index.ts:473-474 | decoding the encoding of any byte string gives back that byte string |
| Base64.UrlDecodeEncode | src/index.ts:473-477 | the URL-safe encoding holds only letters, digits, `-` and `_`; mapping `-` and `_` back and restoring the padding gives exactly the standard encoding; decoding that gives back the original bytes |
| Base64.UrlEncode | src/index.ts:473-477 | the `raw` encoding uses only the alphabet of section 5 of RFC 4648: no `+`, `/` or `=` is left |
| Base64.StripAfterAlphabet | src/index.ts:477 | stripping trailing `=` removes exactly the padding and no alphabet character |
| Utf8.EncodeChar | src/index.ts:460 | a character is 1 to 4 bytes by the ranges of section 3 of RFC 3629 (below 0x80, 0x800, 0x10000, and above): ASCII is one byte of its own value; otherwise a lead byte 0xC0..0xDF, 0xE0..0xEF or 0xF0..0xF7 for two, three or four bytes, then continuation bytes in 0x80..0xBF |
| Utf8.DecodeEncodeChar | src/index.ts:460 | reading the payload bits of the lead byte and six bits of each continuation byte back out gives the character's scalar value: every bit is in its place |
| Utf8.EncodeAppend | src/index.ts:460 | the encoding of a concatenation is the concatenation of the encodings |
| Utf8.EncodeAscii | src/index.ts:473 | ASCII text encodes byte for byte |
| Email.FindHeader | src/index.ts:435-437 | `find` is absent exactly when no header has the name, and otherwise gives the value of the first header with that name |
| Email.FindHeaderFirst | src/index.ts:435-437 | the first matching header is the one `find` returns |
| Email.Summarize | src/index.ts:434-445 | subject, sender and date are the first matching header's value; an absent or empty subject or sender value falls back to "(no subject)" / "(unknown sender)" as `\|\|` does; a missing date is ""; the id and snippet are carried over |
| Email.EncodedSubjectRoundTrip | src/index.ts:460 | the encoded-word decodes back to the subject's UTF-8 bytes |
| Email.EncodedSubjectSafe | src/index.ts:460-464 | the encoded subject is ASCII and holds no line break, so it cannot split the header block |
| Email.RawMessage | src/index.ts:459-477 | the `raw` field of the send request is base64url: letters, digits, `-` and `_` only |
| Email.RawMessageDecodes | src/index.ts:461-477 | `raw` is the standard base64 of the joined message's UTF-8 bytes with `-` and `_` for `+` and `/` and no padding, so re-padding and decoding it gives those bytes |
| Email.SplitMessageText | src/index.ts:461-471 | when the recipient holds no line break, the first blank line of the message separates exactly the six header lines from the body |
| Email.JoinAppend | src/index.ts:468-471 | joining the header lines, an empty line and the body puts a blank line between headers and body |
| Email.FindBlankLine | src/index.ts:468-471 | finds the first blank line, and none before it |
| Operations.ChangeCall | src/index.ts:496-529 | delete is a trash call; mark as read is a modify removing UNREAD; archive a modify removing INBOX (lines 564-569); move a modify adding the label and removing INBOX (lines 703-709); each names its id |
| Operations.Effect | src/index.ts:496-720 | trash marks the message trashed and keeps its labels; mark-as-read removes UNREAD; archive removes INBOX; move adds the label and removes INBOX, with every other label kept |
| Operations.EffectIdempotent | src/index.ts:702-710 | applying an operation's effect twice is the same as applying it once |
| Operations.AfterIdempotent | src/index.ts:726-733 | the provider-side outcome of repeating an operation on the same id equals doing it once |
| Operations.Perform | src/index.ts:562-593 | the outcome is the reference outcome (for archive, the re-fetch fails the item if INBOX is still there); only the named message can change; the provider receives exactly the change call, once, and for archive then the re-fetch, which is skipped when the change rejected or the id is unknown |
| Operations.SingleCalls | src/index.ts:644-660 | for every kind but archive, the calls of a batch are one change call per id, in order |
| Operations.PerformKeepsExpected | src/index.ts:595-626 | running one item never changes the reference outcome of any item, which is why items are independent |
| Operations.RunBatch | src/index.ts:595-642 | one result per id, each the settled reference outcome of its own id; each listed message takes the operation's effect, others none; the summary line is "<successes> emails <verb>, <failures> failed" with the operation's verb, and reads back as the counts, which cover all ids; the provider receives each id's item calls in the order of the ids, repeats included, which for every kind but archive is one change call per id; for archive the model's log interleaves each modify with its own get, whereas the source issues every modify before any re-fetch |
| Arguments.Lookup | src/index.ts:288 | a name selects the tool of that name, and no tool exactly when it is not one of the eleven |
| Arguments.Strings | src/index.ts:324 | an array's strings exist exactly when every element is a string, and they are those elements in order |
| Arguments.StringOf | src/index.ts:312 | a string is read exactly when the key holds a string |
| Arguments.StringsOf | src/index.ts:324 | a string array is read exactly when the key holds an array of strings, and it is that array's strings in order |
| Arguments.Validate | src/index.ts:286-385 | an accepted request is for the tool whose checks ran; `list_emails` and `list_labels` accept anything |
| Arguments.WithId | src/index.ts:310-322 | the single-id tools build their own request, carrying the argument's `id` itself, from a string `id`, and otherwise refuse with the `id` message |
| Arguments.WithIds | src/index.ts:323-331 | the batch tools build their own request, carrying exactly the strings of the `ids` argument, from an all-string `ids` array, and otherwise refuse with the `ids` message |
| Arguments.ValidateCarries | src/index.ts:310-383 | every accepted request other than `list_emails` is made of the argument values themselves: `{ id: args.id }`, `{ ids: args.ids }`, and so on |
| Arguments.ValidateFromRendering | src/index.ts:286-385 | arguments holding a request's values are accepted as exactly that request, whatever other keys they carry; with Arguments.ValidateCarries this is an if-and-only-if |
| Arguments.ValidateIds | src/index.ts:323-329 | the batch tools taking `ids` accept exactly an array of strings, and reject with "Parameter ids must be an array of strings" |
| Arguments.ValidateId | src/index.ts:310-317 | the single tools taking `id` accept exactly a string, and reject with "Parameter id must be a string" |
| Arguments.ValidateMoveBatch | src/index.ts:376-382 | `move_to_label_batch` accepts exactly string-array `ids` and string `labelId`, and otherwise rejects with its message |
| Arguments.ValidateMove | src/index.ts:366-372 | `move_to_label` accepts exactly string `id` and `labelId`, and otherwise rejects with its message |
| Arguments.ValidateSend | src/index.ts:296-302 | `send_email` accepts exactly string `to`, `subject` and `body`, and otherwise rejects with its message |
| Arguments.Parse | src/index.ts:286-390 | an accepted request is for the tool named; an unknown name, and only an unknown name, is MethodNotFound "Unknown tool: <name>" |
| Arguments.ParseKnown | src/index.ts:286-385 | a known name runs exactly its tool's checks, and their refusal is thrown as an InvalidParams error carrying its message |
| Arguments.ListEmailsDefaults | src/index.ts:290-293 | `maxResults` is read only when it is a number (else 10), and `query` only when it is a string (else "") |
| Arguments.ParseRender | src/index.ts:286-385 | every request, rendered as arguments, parses back to itself under its tool's name |
| Dispatch.FetchAll | src/index.ts:427-432 | every get is issued, in order, and the messages are not changed |
| Dispatch.FetchAllResolves | src/index.ts:427-447 | the list resolves exactly when no get rejects, and then holds each id's summary in order |
| Dispatch.FetchAllRejects | src/index.ts:427-447 | a rejected list carries the error of the first id whose get rejects |
| Dispatch.ListSummariesFound | src/index.ts:408-447 | after a successful search, the provider receives the list call and then one get per found id, in order; the messages are unchanged; the list resolves exactly when no get rejects, and then holds each found message's summary in order |
| Dispatch.ExecuteListEmails | src/index.ts:408-457 | `list_emails` with a found id list answers exactly the summaries of those messages, in order, after issuing the list call and one get per id; any rejected get makes it throw |
| Dispatch.ExecuteListEmailsRejected | src/index.ts:408-413 | a rejected search issues no get, changes nothing, and throws the search's error to the handler's `catch` |
| Dispatch.Project | src/index.ts:683-690 | one label out per label in, in order, each with its id, name, type and both visibilities |
| Dispatch.ExecuteListLabels | src/index.ts:678-700 | `list_labels` issues one labels call and changes nothing; it answers the projected catalogue exactly when that call resolves, an empty list when the response has no labels, and otherwise throws the call's error |
| Dispatch.ExecuteSend | src/index.ts:459-494 | `send_email` issues exactly one send call carrying the raw encoding of the joined message, leaves the messages as they were, answers "Email sent successfully" when the send resolves, and otherwise throws the provider's error |
| Dispatch.ExecuteSingle | src/index.ts:496-593 | a single tool succeeds, with its confirmation text, exactly when its item's reference outcome completes; otherwise it throws that outcome's error |
| Dispatch.ExecuteBatch | src/index.ts:531-560 | a batch tool never throws: it reports every id in order, each with the outcome it would have had alone; its summary line carries its operation's verb and reads back as counts that cover every id |
| Dispatch.BatchWording | src/index.ts:554 | the four batch tools word their summaries "deleted successfully", "archived successfully and verified", "marked as read" and "moved to label" (lines 554, 636, 670 and 749) |
| Dispatch.SingleWording | src/index.ts:496-720 | the single tools confirm with "Email deleted successfully", "Email marked as read", "Email archived successfully and verified" and "Email moved to label successfully" (lines 506, 525, 589 and 716) |
| Dispatch.ExecuteEffects | src/index.ts:496-755 | single and batch tools change only the messages they name, each by its operation's effect |
| Dispatch.ExecuteReadOnly | src/index.ts:408-700 | listing, sending and listing labels leave the messages as they were |
| Dispatch.Failure | src/index.ts:392-404 | the `catch` answers text flagged as an error: "Error: " and an `Error`'s message, "Error: An unknown error occurred" for any other thrown value, and "Error: MCP error …" for an `McpError` |
| Dispatch.Handle | src/index.ts:284-404 | a rejected call never reaches the provider and answers its error through the `catch`; an accepted call's provider error also goes through the `catch`, and its success answers the payload unflagged |
| Dispatch.HandleUnknownTool | src/index.ts:386-390 | an unknown tool answers "Error: MCP error -32601: Unknown tool: <name>", flagged as an error, with no provider call |
| Dispatch.HandleInvalid | src/index.ts:286-404 | badly shaped arguments answer "Error: MCP error -32602: <check's message>", flagged as an error, with no provider call |
| Dispatch.HandleBatch | src/index.ts:343-352 | a well-shaped batch call answers the tool's own report, not an error, whose counts cover its ids and whose message states them |
| Dispatch.ListEmailsNothingFound | src/index.ts:415-425 | a search with no messages answers an empty list, not an error |

## Left out

- The OAuth scripts (`get-refresh-token`) are not modelled: they are interactive set-up outside the server.
- The googleapis client is not modelled. Its behaviour is the oracle's: which calls reject, what a search returns, and the label catalogue.
- The oracle answers equal calls the same way every time. Repeated ids in a batch therefore always settle alike, and transient provider failures that differ between occurrences are not modelled.
- Operations.RunBatch: the log is stated in the walk's sequential order. For `archive_emails_batch` the source issues every modify before any re-fetch, because `Promise.all` starts all items before any awaits; the model puts each item's get right after its modify.
- `Promise.all` concurrency is modelled as a sequential, order-preserving walk. Every item still runs. A rejected `list_emails` reports the first failing get in list order, not the first in time.
- The MCP server object, the stdio transport, SIGINT handling, environment variables, `console.error` logging and the `ListTools` schema list are not modelled.
- `JSON.stringify` of the responses is not modelled: payloads are kept as structured values.
- UTF-8 decoding of whole byte strings is not modelled (only one character's bits are read back), and neither are lone UTF-16 surrogates: Dafny characters are Unicode scalar values.
- `maxResults` is passed to the provider as a real number. A non-integer value is not rounded, since that happens inside the provider.
- A message with no `payload.headers` makes the source throw a `TypeError`. Messages here always carry a (possibly empty) header list.
- A sent message is not added to the provider's messages.
- Gmail's TRASH label is modelled as a `trashed` flag on the message.
- The RFC 2047 limit of 75 characters per encoded-word is not enforced, as in the source.
- Email.SplitMessageText: requires a recipient without a line break. A line break in `to` would let a blank line appear inside the header block, and the source does not check for it.
- Dispatch.FetchAll: states the provider calls and the unchanged messages; the resolved list itself is stated by Dispatch.FetchAllResolves and Dispatch.FetchAllRejects.
