/** The body POSTed to a webhook. Text encodings (base64, JSON) are left to the transport. */
module Payloads {
  import opened Wrappers
  import opened Config
  import Mail

  /** `content` is absent when bodies are not included or the size cap is exceeded. */
  datatype Enclosure = Enclosure(filename: string, contentType: string, size: nat, content: Option<string>, truncated: bool)

  datatype Payload = Payload(
    messageId: string,
    receivedAt: int,
    route: string,
    sender: string,
    rcpt: seq<string>,
    subject: string,
    headers: map<string, string>,
    text: string,
    html: string,
    enclosures: seq<Enclosure>,
    raw: Option<string>)

  /** What becomes of one attachment under a route's rules. */
  ghost predicate Encloses(e: Enclosure, a: Mail.Attachment, rules: IncludeRules) {
    var tooBig := rules.maxAttachmentBytes > 0 && |a.content| > rules.maxAttachmentBytes;
    && e.filename == a.filename && e.contentType == a.contentType && e.size == |a.content|
    && (e.content == if rules.attachments && !tooBig then Some(a.content) else None)
    && (e.truncated <==> rules.attachments && tooBig)
  }

  /** The payload carries the message, under the route's name and rules, attachments in order. */
  ghost predicate Carries(p: Payload, messageId: string, receivedAt: int, route: Route, m: Mail.Letter) {
    && p.messageId == messageId && p.receivedAt == receivedAt && p.route == route.name
    && p.sender == m.sender && p.rcpt == m.rcpt && p.subject == m.subject && p.headers == m.headers
    && p.text == m.text && p.html == m.html
    && |p.enclosures| == |m.attachments|
    && (forall i :: 0 <= i < |p.enclosures| ==> Encloses(p.enclosures[i], m.attachments[i], route.rules))
    && p.raw == if route.rules.raw then Some(m.raw) else None
  }

  method BuildPayload(messageId: string, receivedAt: int, route: Route, m: Mail.Message) returns (p: Payload)
    ensures Carries(p, messageId, receivedAt, route, m.Value())
  {
    var enclosures: seq<Enclosure> := [];
    for i := 0 to |m.attachments|
      invariant |enclosures| == i
      invariant forall j :: 0 <= j < i ==> Encloses(enclosures[j], m.attachments[j], route.rules)
    {
      var a := m.attachments[i];
      var e := Enclosure(a.filename, a.contentType, |a.content|, None, false);
      if route.rules.attachments {
        if route.rules.maxAttachmentBytes > 0 && |a.content| > route.rules.maxAttachmentBytes {
          e := e.(truncated := true);
        } else {
          e := e.(content := Some(a.content));
        }
      }
      enclosures := enclosures + [e];
    }
    var raw := if route.rules.raw then Some(m.raw) else None;
    p := Payload(messageId, receivedAt, route.name, m.sender, m.rcpt, m.subject, m.headers, m.text, m.html, enclosures, raw);
  }
}
