/**
 * The document normaliser of `build_retrieval_chain`: every mail becomes one
 * text document with four labelled fields, Subject, From, Received and Body,
 * in that order, with fixed placeholders for keys the mail lacks.
 */
module Normalizer {
  import opened Wrappers
  import opened MailRecord

  const NoSubject := "No Subject"
  const Unknown := "Unknown"

  /** The four rendered field values of a mail, placeholders already applied. */
  datatype Fields = Fields(subject: string, sender: string, received: string, body: string)

  /** `mail.get('from', {}).get('emailAddress', {}).get('address', 'Unknown')`. */
  function SenderAddress(m: Mail): (a: string)
    ensures m.from.None? ==> a == Unknown
    ensures m.from.Some? && m.from.value.emailAddress.None? ==> a == Unknown
    ensures m.from.Some? && m.from.value.emailAddress.Some? ==>
              a == m.from.value.emailAddress.value.address.GetOr(Unknown)
  {
    match m.from
    case None => Unknown
    case Some(f) =>
      match f.emailAddress
      case None => Unknown
      case Some(e) => e.address.GetOr(Unknown)
  }

  /** The values that are substituted into the document, each defaulted as the source does. */
  function FieldsOf(m: Mail): (f: Fields)
    ensures f.subject == (if m.subject.Some? then m.subject.value else NoSubject)
    ensures f.received == (if m.receivedDateTime.Some? then m.receivedDateTime.value else Unknown)
    ensures f.body == (if m.bodyPreview.Some? then m.bodyPreview.value else "")
    ensures f.sender == SenderAddress(m)
  {
    Fields(m.subject.GetOr(NoSubject), SenderAddress(m), m.receivedDateTime.GetOr(Unknown), BodyText(m))
  }

  /** The document layout: three one-line fields, a blank line, then the body. */
  function Render(f: Fields): (r: string)
    ensures "Subject: " + f.subject + "\n" <= r
    ensures |"\n\nBody: " + f.body| <= |r|
    ensures r[|r| - |"\n\nBody: " + f.body|..] == "\n\nBody: " + f.body
  {
    "Subject: " + f.subject + "\nFrom: " + f.sender + "\nReceived: " + f.received + "\n\nBody: " + f.body
  }

  /** The page content of the document built for one mail. */
  function Normalize(m: Mail): (content: string)
    ensures "Subject: " <= content
    ensures |content| >= |BodyText(m)| + 8
    ensures content[|content| - |BodyText(m)|..] == BodyText(m)
    ensures content[|content| - |BodyText(m)| - 8..|content| - |BodyText(m)|] == "\n\nBody: "
  {
    Render(FieldsOf(m))
  }

  function BodyText(m: Mail): string {
    m.bodyPreview.GetOr("")
  }

  // ---------------------------------------------------------------------
  // Reading a document back: the inverse of Render.
  // ---------------------------------------------------------------------

  /** Splits `s` at its first line break: the text before it and the text after it. */
  function SplitLine(s: string): (r: Option<(string, string)>)
    ensures r.None? <==> '\n' !in s
    ensures r.Some? ==> '\n' !in r.value.0 && s == r.value.0 + "\n" + r.value.1
  {
    if s == [] then None
    else if s[0] == '\n' then Some(([], s[1..]))
    else
      match SplitLine(s[1..])
      case None => None
      case Some(p) => Some(([s[0]] + p.0, p.1))
  }

  /** `s` without the prefix `p`, when `s` starts with `p`. */
  function DropPrefix(p: string, s: string): (r: Option<string>)
    ensures r.Some? <==> p <= s
    ensures r.Some? ==> s == p + r.value
  {
    if p <= s then Some(s[|p|..]) else None
  }

  /** Reads the four labelled fields out of a document laid out as Render lays it out. */
  function ParseContent(c: string): Option<Fields> {
    match DropPrefix("Subject: ", c)
    case None => None
    case Some(c1) =>
      match SplitLine(c1)
      case None => None
      case Some(l1) =>
        match DropPrefix("From: ", l1.1)
        case None => None
        case Some(c2) =>
          match SplitLine(c2)
          case None => None
          case Some(l2) =>
            match DropPrefix("Received: ", l2.1)
            case None => None
            case Some(c3) =>
              match SplitLine(c3)
              case None => None
              case Some(l3) =>
                match DropPrefix("\nBody: ", l3.1)
                case None => None
                case Some(body) => Some(Fields(l1.0, l2.0, l3.0, body))
  }

  predicate OneLine(s: string) {
    '\n' !in s
  }

  lemma {:induction false} SplitLineAt(p: string, rest: string)
    requires OneLine(p)
    ensures SplitLine(p + "\n" + rest) == Some((p, rest))
  {
    if p == [] {
      assert p + "\n" + rest == ['\n'] + rest;
    } else {
      SplitLineAt(p[1..], rest);
      assert (p + "\n" + rest)[1..] == p[1..] + "\n" + rest;
      assert [p[0]] + p[1..] == p;
    }
  }

  /** Rendering then reading back gives the same fields, when the first three are single lines. */
  lemma RenderRoundTrip(f: Fields)
    requires OneLine(f.subject) && OneLine(f.sender) && OneLine(f.received)
    ensures ParseContent(Render(f)) == Some(f)
  {
    var tail3 := "\nBody: " + f.body;
    var tail2 := "Received: " + (f.received + "\n" + tail3);
    var tail1 := "From: " + (f.sender + "\n" + tail2);
    RenderShape(f);
    DropLabel("Subject: ", f.subject + "\n" + tail1);
    SplitLineAt(f.subject, tail1);
    DropLabel("From: ", f.sender + "\n" + tail2);
    SplitLineAt(f.sender, tail2);
    DropLabel("Received: ", f.received + "\n" + tail3);
    SplitLineAt(f.received, tail3);
    DropLabel("\nBody: ", f.body);
  }

  lemma DropLabel(p: string, s: string)
    ensures DropPrefix(p, p + s) == Some(s)
  {
    assert p <= p + s;
    assert (p + s)[|p|..] == s;
  }

  lemma RenderShape(f: Fields)
    ensures Render(f) == "Subject: " + (f.subject + "\n" + ("From: " + (f.sender + "\n" +
                         ("Received: " + (f.received + "\n" + ("\nBody: " + f.body))))))
  {
    assert "\nFrom: " == "\n" + "From: ";
    assert "\nReceived: " == "\n" + "Received: ";
    assert "\n\nBody: " == "\n" + "\nBody: ";
  }

  /**
   * A document determines the mail's subject, sender, received time and body:
   * the normaliser keeps every field, in its place, when the first three fields
   * are single lines.
   */
  lemma NormalizeRoundTrip(m: Mail)
    requires OneLine(FieldsOf(m).subject) && OneLine(FieldsOf(m).sender) && OneLine(FieldsOf(m).received)
    ensures ParseContent(Normalize(m)) == Some(FieldsOf(m))
  {
    RenderRoundTrip(FieldsOf(m));
  }

  /** Two such mails give the same document only if their rendered fields agree. */
  lemma NormalizeInjective(a: Mail, b: Mail)
    requires OneLine(FieldsOf(a).subject) && OneLine(FieldsOf(a).sender) && OneLine(FieldsOf(a).received)
    requires OneLine(FieldsOf(b).subject) && OneLine(FieldsOf(b).sender) && OneLine(FieldsOf(b).received)
    ensures Normalize(a) == Normalize(b) <==> FieldsOf(a) == FieldsOf(b)
  {
    NormalizeRoundTrip(a);
    NormalizeRoundTrip(b);
  }

  /** A mail with every key missing still yields all four labels, with the placeholders. */
  lemma EmptyMailPlaceholders()
    ensures Normalize(Mail(None, None, None, None)) ==
            "Subject: No Subject\nFrom: Unknown\nReceived: Unknown\n\nBody: "
  {
    var f := Fields(NoSubject, Unknown, Unknown, "");
    assert FieldsOf(Mail(None, None, None, None)) == f;
    assert "Subject: " + f.subject == "Subject: No Subject";
    assert "Subject: No Subject" + "\nFrom: " + f.sender == "Subject: No Subject\nFrom: Unknown";
    assert "Subject: No Subject\nFrom: Unknown" + "\nReceived: " + f.received
        == "Subject: No Subject\nFrom: Unknown\nReceived: Unknown";
    assert "Subject: No Subject\nFrom: Unknown\nReceived: Unknown" + "\n\nBody: " + f.body
        == "Subject: No Subject\nFrom: Unknown\nReceived: Unknown\n\nBody: ";
  }

  /** Each missing key reads back as its placeholder; a missing body reads back empty. */
  lemma MissingKeysReadBack(m: Mail)
    requires OneLine(FieldsOf(m).subject) && OneLine(FieldsOf(m).sender) && OneLine(FieldsOf(m).received)
    ensures ParseContent(Normalize(m)).Some?
    ensures m.subject.None? ==> ParseContent(Normalize(m)).value.subject == "No Subject"
    ensures m.from.None? ==> ParseContent(Normalize(m)).value.sender == "Unknown"
    ensures m.from.Some? && m.from.value.emailAddress.None? ==> ParseContent(Normalize(m)).value.sender == "Unknown"
    ensures m.from.Some? && m.from.value.emailAddress.Some? && m.from.value.emailAddress.value.address.None? ==>
              ParseContent(Normalize(m)).value.sender == "Unknown"
    ensures m.receivedDateTime.None? ==> ParseContent(Normalize(m)).value.received == "Unknown"
    ensures m.bodyPreview.None? ==> ParseContent(Normalize(m)).value.body == ""
  {
    NormalizeRoundTrip(m);
  }
}
