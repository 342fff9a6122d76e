/**
 Reading an accepted message. A MIME entity is an abstract tree whose part
 lists already stop at the first read error; bytes are left as text.
 */
module Mail {
  import opened Wrappers

  /** A non-multipart entity, with its headers already decoded. */
  datatype Leaf = Leaf(kind: string, disposition: string, dispositionName: string, typeName: string, body: string)
  {
    function Filename(): string {
      if dispositionName == "" then typeName else dispositionName
    }
  }

  datatype Entity =
    | Multipart(parts: seq<Entity>)
    | Single(leaf: Leaf)

  datatype Attachment = Attachment(filename: string, contentType: string, content: string)

  datatype Field = Field(key: string, value: string)

  predicate HasPrefix(s: string, prefix: string) {
    |prefix| <= |s| && s[..|prefix|] == prefix
  }

  // --- the flat reading of a tree ---

  /** Leaves in document order. */
  function Leaves(e: Entity): seq<Leaf>
    decreases e, 0
  {
    match e
    case Single(leaf) => [leaf]
    case Multipart(parts) => LeavesOf(parts)
  }

  function LeavesOf(parts: seq<Entity>): seq<Leaf>
    decreases parts, 1
  {
    if parts == [] then [] else Leaves(parts[0]) + LeavesOf(parts[1..])
  }

  /** RFC 2183, section 2: disposed of as an attachment, or named and not a message body. */
  predicate IsAttachment(l: Leaf) {
    l.disposition == "attachment" || ((l.dispositionName != "" || l.typeName != "") && l.kind != "text/html" && l.kind != "text/plain")
  }

  predicate IsHtml(l: Leaf) {
    !IsAttachment(l) && l.kind == "text/html"
  }

  predicate IsText(l: Leaf) {
    !IsAttachment(l) && (l.kind == "text/plain" || l.kind == "")
  }

  function AttachmentOf(l: Leaf): Attachment {
    Attachment(if l.dispositionName != "" then l.dispositionName else l.typeName, l.kind, l.body)
  }

  /** The qualifying leaves, all of them and in order. */
  function Attached(leaves: seq<Leaf>): seq<Attachment> {
    if leaves == [] then []
    else (if IsAttachment(leaves[0]) then [AttachmentOf(leaves[0])] else []) + Attached(leaves[1..])
  }

  /** `body` is that of the first leaf that qualifies and is not empty, or "" when there is none. */
  ghost predicate FirstBody(leaves: seq<Leaf>, qualifies: Leaf -> bool, body: string) {
    if forall i :: 0 <= i < |leaves| && qualifies(leaves[i]) ==> leaves[i].body == "" then body == ""
    else exists i :: 0 <= i < |leaves| && TakenFrom(leaves, qualifies, i, body)
  }

  ghost predicate TakenFrom(leaves: seq<Leaf>, qualifies: Leaf -> bool, i: nat, body: string)
    requires i < |leaves|
  {
    && qualifies(leaves[i]) && leaves[i].body == body && body != ""
    && forall j :: 0 <= j < i && qualifies(leaves[j]) ==> leaves[j].body == ""
  }

  /** What a message has collected from a tree. */
  datatype Parsed = Parsed(text: string, html: string, attachments: seq<Attachment>)

  const NOTHING := Parsed("", "", [])

  function Keep(have: string, qualifies: bool, body: string): string {
    if have == "" && qualifies then body else have
  }

  function Collect(m: Parsed, l: Leaf): Parsed {
    Parsed(
      Keep(m.text, IsText(l), l.body),
      Keep(m.html, IsHtml(l), l.body),
      if IsAttachment(l) then m.attachments + [AttachmentOf(l)] else m.attachments)
  }

  function CollectAll(m: Parsed, leaves: seq<Leaf>): Parsed
    decreases leaves
  {
    if leaves == [] then m else CollectAll(Collect(m, leaves[0]), leaves[1..])
  }

  lemma {:induction false} CollectAppends(m: Parsed, a: seq<Leaf>, b: seq<Leaf>)
    ensures CollectAll(m, a + b) == CollectAll(CollectAll(m, a), b)
    decreases a
  {
    if a == [] {
      assert a + b == b;
    } else {
      assert (a + b)[1..] == a[1..] + b;
      CollectAppends(Collect(m, a[0]), a[1..], b);
    }
  }

  lemma {:induction false} AttachmentsInOrder(m: Parsed, leaves: seq<Leaf>)
    ensures CollectAll(m, leaves).attachments == m.attachments + Attached(leaves)
    decreases leaves
  {
    if leaves != [] {
      AttachmentsInOrder(Collect(m, leaves[0]), leaves[1..]);
    }
  }

  /** Once found, a body stays; before that, the first non-empty qualifying one is taken. */
  lemma {:induction false} BodiesAreFirst(m: Parsed, leaves: seq<Leaf>)
    ensures var r := CollectAll(m, leaves);
      && (if m.text != "" then r.text == m.text else FirstBody(leaves, IsText, r.text))
      && (if m.html != "" then r.html == m.html else FirstBody(leaves, IsHtml, r.html))
    decreases leaves
  {
    if leaves != [] {
      var next := Collect(m, leaves[0]);
      BodiesAreFirst(next, leaves[1..]);
      var r := CollectAll(m, leaves);
      FirstBodyStep(leaves, IsText, m.text, r.text);
      FirstBodyStep(leaves, IsHtml, m.html, r.html);
    }
  }

  lemma FirstBodyStep(leaves: seq<Leaf>, qualifies: Leaf -> bool, have: string, body: string)
    requires leaves != []
    requires
      var next := Keep(have, qualifies(leaves[0]), leaves[0].body);
      if next != "" then body == next else FirstBody(leaves[1..], qualifies, body)
    ensures if have != "" then body == have else FirstBody(leaves, qualifies, body)
  {
    var rest := leaves[1..];
    assert forall i :: 0 < i < |leaves| ==> leaves[i] == rest[i - 1];
    if have == "" && Keep(have, qualifies(leaves[0]), leaves[0].body) == "" {
      if i :| 0 <= i < |rest| && qualifies(rest[i]) && rest[i].body != "" {
        var k :| 0 <= k < |rest| && TakenFrom(rest, qualifies, k, body);
        assert leaves[i + 1] == rest[i];
        assert TakenFrom(leaves, qualifies, k + 1, body);
      }
    } else if have == "" {
      assert TakenFrom(leaves, qualifies, 0, body);
    }
  }

  /** The whole flat specification of a tree. */
  lemma WalkMeaning(leaves: seq<Leaf>)
    ensures var r := CollectAll(NOTHING, leaves);
      && FirstBody(leaves, IsText, r.text)
      && FirstBody(leaves, IsHtml, r.html)
      && r.attachments == Attached(leaves)
  {
    BodiesAreFirst(NOTHING, leaves);
    AttachmentsInOrder(NOTHING, leaves);
  }

  // --- headers ---

  /** `value` is that of the last field with this key. */
  ghost predicate LastValue(fields: seq<Field>, key: string, value: string) {
    exists i :: 0 <= i < |fields| && LastAt(fields, key, i) && fields[i].value == value
  }

  ghost predicate LastAt(fields: seq<Field>, key: string, i: nat)
    requires i < |fields|
  {
    fields[i].key == key && forall j :: i < j < |fields| ==> fields[j].key != key
  }

  /** Exactly the keys that occur, each with its last value. */
  ghost predicate Flattened(fields: seq<Field>, headers: map<string, string>) {
    && (forall i :: 0 <= i < |fields| ==> fields[i].key in headers)
    && (forall k :: k in headers ==> LastValue(fields, k, headers[k]))
  }

  lemma FlattenOne(fields: seq<Field>, headers: map<string, string>, f: Field)
    requires Flattened(fields, headers)
    ensures Flattened(fields + [f], headers[f.key := f.value])
  {
    var all, more := fields + [f], headers[f.key := f.value];
    assert forall i :: 0 <= i < |fields| ==> all[i] == fields[i];
    forall k | k in more
      ensures LastValue(all, k, more[k])
    {
      if k == f.key {
        assert LastAt(all, k, |fields|);
      } else {
        var i :| 0 <= i < |fields| && LastAt(fields, k, i) && fields[i].value == headers[k];
        assert LastAt(all, k, i);
      }
    }
  }

  /** Flattens the header fields; the last value wins. */
  method Flatten(fields: seq<Field>) returns (headers: map<string, string>)
    ensures Flattened(fields, headers)
  {
    headers := map[];
    for i := 0 to |fields|
      invariant Flattened(fields[..i], headers)
    {
      FlattenOne(fields[..i], headers, fields[i]);
      headers := headers[fields[i].key := fields[i].value];
      assert fields[..i + 1] == fields[..i] + [fields[i]];
    }
    assert fields[..|fields|] == fields;
  }

  /** A message as a value. */
  datatype Letter = Letter(
    sender: string,
    rcpt: seq<string>,
    raw: string,
    subject: string,
    headers: map<string, string>,
    text: string,
    html: string,
    attachments: seq<Attachment>)

  /** What a letter says is what its fields and its tree say; an unreadable body says nothing. */
  ghost predicate Reads(l: Letter, decoded: Option<(seq<Field>, Entity)>) {
    var content := Parsed(l.text, l.html, l.attachments);
    match decoded
    case None => l.headers == map[] && l.subject == "" && content == NOTHING
    case Some((fields, tree)) =>
      && Flattened(fields, l.headers)
      && l.subject == (if "Subject" in l.headers then l.headers["Subject"] else "")
      && content == CollectAll(NOTHING, Leaves(tree))
  }

  class Message {
    const sender: string
    const rcpt: seq<string>
    const raw: string
    var subject: string
    var headers: map<string, string>
    var text: string
    var html: string
    var attachments: seq<Attachment>

    ghost function Value(): Letter
      reads this
    {
      Letter(sender, rcpt, raw, subject, headers, text, html, attachments)
    }

    ghost function Content(): Parsed
      reads this
    {
      Parsed(text, html, attachments)
    }

    /** Keeps envelope and raw bytes; `decoded` is None when the body cannot be read at all. */
    constructor Parse(sender: string, rcpt: seq<string>, raw: string, decoded: Option<(seq<Field>, Entity)>)
      ensures this.sender == sender && this.rcpt == rcpt && this.raw == raw
      ensures Reads(Value(), decoded)
    {
      this.sender, this.rcpt, this.raw := sender, rcpt, raw;
      subject, headers, text, html, attachments := "", map[], "", "", [];
      new;
      if decoded.Some? {
        headers := Flatten(decoded.value.0);
        subject := if "Subject" in headers then headers["Subject"] else "";
        Walk(decoded.value.1);
      }
    }

    /** Descends the tree, part by part, collecting into this message. */
    method Walk(e: Entity)
      modifies this`text, this`html, this`attachments
      ensures Content() == CollectAll(old(Content()), Leaves(e))
      decreases e
    {
      if e.Multipart? {
        var parts := e.parts;
        ghost var start := Content();
        for i := 0 to |parts|
          invariant Content() == CollectAll(start, LeavesOf(parts[..i]))
        {
          Walk(parts[i]);
          LeavesSnoc(parts[..i], parts[i]);
          assert parts[..i + 1] == parts[..i] + [parts[i]];
          CollectAppends(start, LeavesOf(parts[..i]), Leaves(parts[i]));
        }
        assert parts[..|parts|] == parts;
        return;
      }
      var l := e.leaf;
      assert Leaves(e) == [l];
      assert CollectAll(Content(), [l]) == Collect(Content(), l);
      var filename := l.Filename();
      if l.disposition == "attachment" || (filename != "" && !HasPrefix(l.kind, "text/")) {
        attachments := attachments + [Attachment(filename, l.kind, l.body)];
      } else if l.kind == "text/html" {
        if html == "" { html := l.body; }
      } else if l.kind == "text/plain" || l.kind == "" {
        if text == "" { text := l.body; }
      } else if filename != "" {
        attachments := attachments + [Attachment(filename, l.kind, l.body)];
      }
    }
  }

  lemma {:induction false} LeavesSnoc(parts: seq<Entity>, last: Entity)
    ensures LeavesOf(parts + [last]) == LeavesOf(parts) + Leaves(last)
  {
    if parts == [] {
      assert parts + [last] == [last];
      assert [last][1..] == [];
    } else {
      assert (parts + [last])[1..] == parts[1..] + [last];
      LeavesSnoc(parts[1..], last);
    }
  }
}
