/** The two pieces of message handling in the server: building the raw
    message `send_email` hands to the provider, and projecting a fetched
    message onto the summary `list_emails` returns. */
module Email {
  import opened Errors
  import opened Mailbox
  import Base64
  import Bytes
  import Utf8

  // ---------------------------------------------------------------------
  // Header projection (`list_emails`)

  /** `headers.find(h => h.name === name)?.value`: the value of the first
      header whose name matches exactly. */
  function FindHeader(hs: seq<Header>, name: string): (r: Option<string>)
    ensures r.None? <==> forall i :: 0 <= i < |hs| ==> hs[i].name != name
    ensures r.Some? ==> exists i :: 0 <= i < |hs| && IsFirst(hs, name, i) && hs[i].value == r.value
    decreases |hs|
  {
    if |hs| == 0 then None
    else if hs[0].name == name then (assert IsFirst(hs, name, 0); Some(hs[0].value))
    else
      var r := FindHeader(hs[1..], name);
      if r.Some? then
        var i :| 0 <= i < |hs| - 1 && IsFirst(hs[1..], name, i) && hs[1..][i].value == r.value;
        assert IsFirst(hs, name, i + 1);
        r
      else r
  }

  /** `i` is the position of the first header called `name`. */
  predicate IsFirst(hs: seq<Header>, name: string, i: nat) {
    i < |hs| && hs[i].name == name && forall j :: 0 <= j < i ==> hs[j].name != name
  }

  /** `…?.value || fallback`: JavaScript's `||` also replaces an empty value. */
  function HeaderOr(hs: seq<Header>, name: string, fallback: string): string {
    match FindHeader(hs, name)
    case Some(v) => if v != "" then v else fallback
    case None => fallback
  }

  datatype EmailSummary = EmailSummary(id: MessageId, subject: string, from: string, date: string, snippet: Option<string>)

  /** One element of the `list_emails` payload. */
  function Summarize(id: MessageId, m: Message): (s: EmailSummary)
    ensures s.id == id && s.snippet == m.snippet
    ensures forall i: nat :: IsFirst(m.headers, "Subject", i) && m.headers[i].value != "" ==> s.subject == m.headers[i].value
    ensures forall i: nat :: IsFirst(m.headers, "From", i) && m.headers[i].value != "" ==> s.from == m.headers[i].value
    ensures forall i: nat :: IsFirst(m.headers, "Subject", i) && m.headers[i].value == "" ==> s.subject == "(no subject)"
    ensures forall i: nat :: IsFirst(m.headers, "From", i) && m.headers[i].value == "" ==> s.from == "(unknown sender)"
    ensures forall i: nat :: IsFirst(m.headers, "Date", i) ==> s.date == m.headers[i].value
    ensures (forall i :: 0 <= i < |m.headers| ==> m.headers[i].name != "Subject") ==> s.subject == "(no subject)"
    ensures (forall i :: 0 <= i < |m.headers| ==> m.headers[i].name != "From") ==> s.from == "(unknown sender)"
    ensures (forall i :: 0 <= i < |m.headers| ==> m.headers[i].name != "Date") ==> s.date == ""
  {
    FindHeaderFirst(m.headers, "Subject");
    FindHeaderFirst(m.headers, "From");
    FindHeaderFirst(m.headers, "Date");
    EmailSummary(id,
      HeaderOr(m.headers, "Subject", "(no subject)"),
      HeaderOr(m.headers, "From", "(unknown sender)"),
      HeaderOr(m.headers, "Date", ""),
      m.snippet)
  }

  /** The lookup yields the value at the first matching position. */
  lemma FindHeaderFirst(hs: seq<Header>, name: string)
    ensures forall i: nat :: IsFirst(hs, name, i) ==> FindHeader(hs, name) == Some(hs[i].value)
  {
    forall i: nat | IsFirst(hs, name, i) ensures FindHeader(hs, name) == Some(hs[i].value) {
      var r := FindHeader(hs, name);
      assert hs[i].name == name;
      var j :| 0 <= j < |hs| && IsFirst(hs, name, j) && hs[j].value == r.value;
      assert j == i;
    }
  }

  // ---------------------------------------------------------------------
  // Message construction (`send_email`)

  /** The subject as an RFC 2047 encoded-word (section 2) in the "B"
      encoding (section 4.1) over its UTF-8 bytes. */
  function EncodedSubject(subject: string): string {
    "=?utf-8?B?" + Base64.Encode(Utf8.Encode(subject)) + "?="
  }

  /** A receiver's reading of an encoded-word in that form. */
  function DecodeWord(w: string): Option<seq<Bytes.byte>> {
    var prefix := "=?utf-8?B?";
    if |w| < |prefix| + 2 || w[..|prefix|] != prefix || w[|w| - 2..] != "?=" then None
    else Base64.Decode(w[|prefix|..|w| - 2])
  }

  /** The encoded subject gives back the subject's bytes. */
  lemma EncodedSubjectRoundTrip(subject: string)
    ensures DecodeWord(EncodedSubject(subject)) == Some(Utf8.Encode(subject))
  {
    var e := Base64.Encode(Utf8.Encode(subject));
    var w := EncodedSubject(subject);
    assert w[..10] == "=?utf-8?B?";
    assert w[|w| - 2..] == "?=";
    assert w[10..|w| - 2] == e;
    Base64.DecodeEncode(Utf8.Encode(subject));
  }

  /** The encoded subject is plain ASCII without line breaks, whatever the
      subject holds: it cannot break the header block. */
  lemma EncodedSubjectSafe(subject: string)
    ensures Utf8.IsAscii(EncodedSubject(subject))
    ensures '\n' !in EncodedSubject(subject)
  {
    var e := Base64.Encode(Utf8.Encode(subject));
    assert Safe("=?utf-8?B?") && Safe("?=");
    assert Safe(e) by {
      EncodingSafe(Utf8.Encode(subject));
    }
    SafeAppend("=?utf-8?B?", e);
    SafeAppend("=?utf-8?B?" + e, "?=");
  }

  /** ASCII characters other than the line break. */
  predicate Safe(s: string) {
    forall k :: 0 <= k < |s| ==> s[k] as int < 0x80 && s[k] != '\n'
  }

  lemma SafeAppend(a: string, b: string)
    requires Safe(a) && Safe(b)
    ensures Safe(a + b)
  {
    forall k | 0 <= k < |a + b| ensures (a + b)[k] as int < 0x80 && (a + b)[k] != '\n' {
      if k >= |a| {
        assert (a + b)[k] == b[k - |a|];
      }
    }
  }

  /** A base 64 encoding is made of safe characters only. */
  lemma EncodingSafe(bs: seq<Bytes.byte>)
    ensures Safe(Base64.Encode(bs))
  {
    var body := Base64.Unpadded(bs);
    var e := Base64.Encode(bs);
    forall k | 0 <= k < |e| ensures e[k] as int < 0x80 && e[k] != '\n' {
      if k < |body| {
        assert Base64.InAlphabet(body[k]);
      }
    }
  }

  /** `messageParts.join('\n')` */
  function Join(lines: seq<string>): string
    decreases |lines|
  {
    if |lines| == 0 then ""
    else if |lines| == 1 then lines[0]
    else lines[0] + "\n" + Join(lines[1..])
  }

  /** The header lines, in the order the source writes them. */
  function HeaderLines(to: string, subject: string): seq<string> {
    ["From: me",
     "To: " + to,
     "Subject: " + EncodedSubject(subject),
     "MIME-Version: 1.0",
     "Content-Type: text/plain; charset=utf-8",
     "Content-Transfer-Encoding: 7bit"]
  }

  /** The message text: the header lines, an empty line, the body. */
  function MessageText(to: string, subject: string, body: string): string {
    Join(HeaderLines(to, subject) + ["", body])
  }

  /** `requestBody.raw`: the message's UTF-8 bytes in the URL-safe base 64
      alphabet, padding stripped. */
  function RawMessage(to: string, subject: string, body: string): (raw: string)
    ensures forall k :: 0 <= k < |raw| ==> Base64.InUrlAlphabet(raw[k])
  {
    Base64.UrlEncode(Utf8.Encode(MessageText(to, subject, body)))
  }

  /** The provider, re-padding and decoding `raw`, gets the message bytes. */
  lemma RawMessageDecodes(to: string, subject: string, body: string)
    ensures Base64.UrlDecode(RawMessage(to, subject, body)) == Some(Utf8.Encode(MessageText(to, subject, body)))
    ensures var raw := RawMessage(to, subject, body);
            Base64.MapChars(raw, Base64.StandardChar) + Base64.Repad(|raw|) == Base64.Encode(Utf8.Encode(MessageText(to, subject, body)))
  {
    Base64.UrlDecodeEncode(Utf8.Encode(MessageText(to, subject, body)));
  }

  // A receiver splits the text at its first empty line.

  /** No two consecutive line breaks. */
  predicate NoBlankLine(s: string) {
    forall k :: 0 <= k < |s| - 1 ==> !(s[k] == '\n' && s[k + 1] == '\n')
  }

  /** The position of the first "\n\n", if any. */
  function FindBlankLine(t: string, from: nat): (r: Option<nat>)
    ensures r.Some? ==> from <= r.value && r.value + 1 < |t| && t[r.value] == '\n' && t[r.value + 1] == '\n'
    ensures r.Some? ==> forall k :: from <= k < r.value ==> !(t[k] == '\n' && t[k + 1] == '\n')
    ensures r.None? ==> forall k :: from <= k < |t| - 1 ==> !(t[k] == '\n' && t[k + 1] == '\n')
    decreases |t| - from
  {
    if from + 1 >= |t| then None
    else if t[from] == '\n' && t[from + 1] == '\n' then Some(from)
    else FindBlankLine(t, from + 1)
  }

  /** Header block and body, separated at the first empty line. */
  function SplitMessage(t: string): Option<(string, string)> {
    match FindBlankLine(t, 0)
    case None => None
    case Some(k) => Some((t[..k], t[k + 2..]))
  }

  /** The header block of the message text. */
  function HeaderBlock(to: string, subject: string): string {
    Join(HeaderLines(to, subject))
  }

  /** When the recipient holds no line break, a receiver finds the header
      block the source wrote and the body unchanged, whatever the body
      holds. */
  lemma SplitMessageText(to: string, subject: string, body: string)
    requires '\n' !in to
    ensures SplitMessage(MessageText(to, subject, body)) == Some((HeaderBlock(to, subject), body))
  {
    var hl := HeaderLines(to, subject);
    HeaderLinesPlain(to, subject);
    JoinNoBlankLine(hl);
    assert MessageText(to, subject, body) == Join(hl) + "\n\n" + body by {
      JoinAppend(hl, body);
    }
    BlankLineAfter(Join(hl), body);
  }

  /** Every header line is non-empty and, when the recipient holds no line
      break, free of line breaks. */
  lemma HeaderLinesPlain(to: string, subject: string)
    requires '\n' !in to
    ensures var hl := HeaderLines(to, subject);
            |hl| == 6 && forall i :: 0 <= i < |hl| ==> Plain(hl[i])
  {
    var w := EncodedSubject(subject);
    assert Plain("To: " + to) by {
      assert "To: " + to == ['T'] + ("o: " + to);
    }
    assert Plain("Subject: " + w) by {
      EncodedSubjectSafe(subject);
      assert "Subject: " + w == ['S'] + ("ubject: " + w);
    }
    FixedLinesPlain();
  }

  lemma FixedLinesPlain()
    ensures Plain("From: me") && Plain("MIME-Version: 1.0")
    ensures Plain("Content-Type: text/plain; charset=utf-8")
    ensures Plain("Content-Transfer-Encoding: 7bit")
  {
    ContentTypePlain();
    TransferEncodingPlain();
  }

  /** Proof helper: the Content-Type header line holds no line break. */
  lemma ContentTypePlain()
    ensures Plain("Content-Type: text/plain; charset=utf-8")
  {
    var l := "Content-Type: text/plain; charset=utf-8";
    assert forall k :: 0 <= k < |l| ==> l[k] != '\n';
  }

  /** Proof helper: the Content-Transfer-Encoding header line holds no line break. */
  lemma TransferEncodingPlain()
    ensures Plain("Content-Transfer-Encoding: 7bit")
  {
    var l := "Content-Transfer-Encoding: 7bit";
    assert forall k :: 0 <= k < |l| ==> l[k] != '\n';
  }

  /** A non-empty line without a line break. */
  predicate Plain(line: string) {
    |line| > 0 && '\n' !in line
  }

  /** Lines that are non-empty and hold no line break join into a string
      with no empty line that does not end in a line break. */
  lemma {:induction false} JoinNoBlankLine(lines: seq<string>)
    requires |lines| > 0
    requires forall i :: 0 <= i < |lines| ==> Plain(lines[i])
    ensures var j := Join(lines); |j| > 0 && NoBlankLine(j) && j[|j| - 1] != '\n'
    decreases |lines|
  {
    var l := lines[0];
    assert l[|l| - 1] in l;
    if |lines| == 1 {
      NoBreakNoBlankLine(l);
    } else {
      var rest := Join(lines[1..]);
      JoinNoBlankLine(lines[1..]);
      NoBreakNoBlankLine(l);
      NoBlankLineAppend(l, "\n");
      NoBlankLineAppend(l + "\n", rest);
      assert Join(lines) == l + "\n" + rest;
    }
  }

  lemma NoBreakNoBlankLine(s: string)
    requires '\n' !in s
    ensures NoBlankLine(s)
  {
    forall k | 0 <= k < |s| - 1 ensures s[k] != '\n' {
      assert s[k] in s;
    }
  }

  /** The first empty line of `h + "\n\n" + body` is the one after `h`. */
  lemma BlankLineAfter(h: string, body: string)
    requires |h| > 0 && NoBlankLine(h) && h[|h| - 1] != '\n'
    ensures SplitMessage(h + "\n\n" + body) == Some((h, body))
  {
    var t := h + "\n\n" + body;
    forall k | 0 <= k < |h| ensures !(t[k] == '\n' && t[k + 1] == '\n') {
      if k < |h| - 1 {
        assert t[k] == h[k] && t[k + 1] == h[k + 1];
      } else {
        assert t[k] == h[|h| - 1];
      }
    }
    FindBlankLineFirst(t, 0, |h|);
    assert t[..|h|] == h;
    assert t[|h| + 2..] == body;
  }

  lemma FindBlankLineFirst(t: string, from: nat, k: nat)
    requires from <= k && k + 1 < |t| && t[k] == '\n' && t[k + 1] == '\n'
    requires forall j :: from <= j < k ==> !(t[j] == '\n' && t[j + 1] == '\n')
    ensures FindBlankLine(t, from) == Some(k)
  {
    var r := FindBlankLine(t, from);
    assert r.Some?;
    assert r.value == k;
  }

  /** Joining the header lines, then an empty line and the body. */
  lemma {:induction false} JoinAppend(lines: seq<string>, body: string)
    requires |lines| > 0
    ensures Join(lines + ["", body]) == Join(lines) + "\n\n" + body
    decreases |lines|
  {
    if |lines| == 1 {
      assert lines + ["", body] == [lines[0], "", body];
      assert [lines[0], "", body][1..] == ["", body];
      assert ["", body][1..] == [body];
      assert Join([body]) == body;
      assert Join(["", body]) == "" + "\n" + body;
      assert Join([lines[0], "", body]) == lines[0] + "\n" + ("" + "\n" + body);
    } else {
      assert (lines + ["", body])[1..] == lines[1..] + ["", body];
      JoinAppend(lines[1..], body);
    }
  }

  /** Gluing two such strings makes no empty line unless the seam does. */
  lemma NoBlankLineAppend(a: string, b: string)
    requires NoBlankLine(a) && NoBlankLine(b)
    requires |a| == 0 || |b| == 0 || !(a[|a| - 1] == '\n' && b[0] == '\n')
    ensures NoBlankLine(a + b)
  {
    var s := a + b;
    forall k | 0 <= k < |s| - 1 ensures !(s[k] == '\n' && s[k + 1] == '\n') {
      if k + 1 < |a| {
        assert s[k] == a[k] && s[k + 1] == a[k + 1];
      } else if k >= |a| {
        assert s[k] == b[k - |a|] && s[k + 1] == b[k + 1 - |a|];
      }
    }
  }
}
