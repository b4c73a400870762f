/**
 The hand-written HTTP responses of the FAULT and HTTP_503 policies (server.py), and a reference
 parser for responses under RFC 9112: status line (section 4), field lines (section 5) and the body
 length given by Content-Length (section 6.3).
 */
module Framing {
  import opened Common
  import opened Octets

  // ----- The serialisers -----

  function Line(text: string): Bytes { Ascii(text) + CRLF }

  /** What _send_fault_response sends for an encoded payload. */
  function FaultResponse(body: Bytes): Bytes {
    Line("HTTP/1.1 200 OK") + Line("Content-Type: text/xml")
    + (Ascii("Content-Length: ") + Decimal(|body|) + CRLF) + Line("Connection: close") + CRLF + body
  }

  function UnavailableBody(): Bytes { Ascii("Service Unavailable") }

  /** What _send_503_response sends. */
  function UnavailableResponse(): Bytes {
    Line("HTTP/1.1 503 Service Unavailable") + Line("Content-Type: text/plain")
    + (Ascii("Content-Length: ") + Decimal(|UnavailableBody()|) + CRLF)
    + Line("Retry-After: 1") + Line("Connection: close") + CRLF + UnavailableBody()
  }

  // ----- The parser -----

  datatype Field = Field(name: Bytes, value: Bytes)

  datatype Response = Response(status: nat, reason: Bytes, fields: seq<Field>, body: Bytes)

  datatype Split = Split(before: Bytes, after: Bytes)

  /** Splits at the first CRLF. */
  function SplitLine(m: Bytes): (r: Option<Split>)
    ensures r.Some? ==> m == r.value.before + CRLF + r.value.after
  {
    if |m| < 2 then None
    else if m[0] == CR && m[1] == LF then Some(Split([], m[2..]))
    else
      var r := SplitLine(m[1..]);
      if r.None? then None else Some(Split([m[0]] + r.value.before, r.value.after))
  }

  /** Splits at the first byte equal to b. */
  function SplitByte(m: Bytes, b: byte): (r: Option<Split>)
    ensures r.Some? ==> m == r.value.before + [b] + r.value.after
  {
    if m == [] then None
    else if m[0] == b then Some(Split([], m[1..]))
    else
      var r := SplitByte(m[1..], b);
      if r.None? then None else Some(Split([m[0]] + r.value.before, r.value.after))
  }

  predicate IsSpace(b: byte) { b == SP || b == HTAB }

  /** Removes optional white space on both sides. */
  function Trim(v: Bytes): Bytes {
    if v == [] then v
    else if IsSpace(v[0]) then Trim(v[1..])
    else if IsSpace(v[|v| - 1]) then Trim(v[..|v| - 1])
    else v
  }

  /** HTTP-version SP 3DIGIT SP reason-phrase. */
  function ParseStatusLine(line: Bytes): Option<(nat, Bytes)> {
    var version := SplitByte(line, SP);
    if version.None? || version.value.before != Ascii("HTTP/1.1") then None
    else
      var code := SplitByte(version.value.after, SP);
      if code.None? || |code.value.before| != 3 || !AllDigits(code.value.before) then None
      else Some((Value(code.value.before), code.value.after))
  }

  /** field-name ":" OWS field-value OWS, with no white space before the colon. */
  function ParseField(line: Bytes): Option<Field> {
    var f := SplitByte(line, COLON);
    if f.None? || f.value.before == [] then None
    else if exists i :: 0 <= i < |f.value.before| && IsSpace(f.value.before[i]) then None
    else Some(Field(f.value.before, Trim(f.value.after)))
  }

  /** Field lines up to the empty line; `after` is what follows it. */
  function ParseFields(m: Bytes): Option<(seq<Field>, Bytes)>
    decreases |m|
  {
    var line := SplitLine(m);
    if line.None? then None
    else if line.value.before == [] then Some(([], line.value.after))
    else
      var field := ParseField(line.value.before);
      var rest := ParseFields(line.value.after);
      if field.None? || rest.None? then None else Some(([field.value] + rest.value.0, rest.value.1))
  }

  /** The values of the fields of that name (given in lower case), in order. */
  function ValuesOf(fields: seq<Field>, name: Bytes): seq<Bytes> {
    if fields == [] then []
    else (if Lower(fields[0].name) == name then [fields[0].value] else []) + ValuesOf(fields[1..], name)
  }

  /** One response at the front of m, and the bytes that follow it. A body without a single valid
      Content-Length, or with a transfer coding, is not understood here. */
  function ParseResponse(m: Bytes): Option<(Response, Bytes)> {
    var first := SplitLine(m);
    if first.None? then None
    else
      var status := ParseStatusLine(first.value.before);
      var fields := ParseFields(first.value.after);
      if status.None? || fields.None? then None
      else
        var lengths := ValuesOf(fields.value.0, Ascii("content-length"));
        if ValuesOf(fields.value.0, Ascii("transfer-encoding")) != [] then None
        else if |lengths| != 1 || !IsLength(lengths[0]) then None
        else
          var n := Value(lengths[0]);
          if |fields.value.1| < n then None
          else
            var rest := fields.value.1;
            Some((Response(status.value.0, status.value.1, fields.value.0, rest[..n]), rest[n..]))
  }

  // ----- Round trips -----

  lemma {:induction false} SplitLineAt(line: Bytes, after: Bytes)
    requires CR !in line
    ensures SplitLine(line + CRLF + after) == Some(Split(line, after))
  {
    var m := line + CRLF + after;
    if line == [] {
      assert m[2..] == after;
    } else {
      assert m[1..] == line[1..] + CRLF + after;
      SplitLineAt(line[1..], after);
      assert [line[0]] + line[1..] == line;
    }
  }

  lemma {:induction false} SplitByteAt(before: Bytes, b: byte, after: Bytes)
    requires b !in before
    ensures SplitByte(before + [b] + after, b) == Some(Split(before, after))
  {
    var m := before + [b] + after;
    if before == [] {
      assert m[1..] == after;
    } else {
      assert m[1..] == before[1..] + [b] + after;
      SplitByteAt(before[1..], b, after);
      assert [before[0]] + before[1..] == before;
    }
  }

  /** Names and values that survive being printed as "name: value". */
  predicate Printable(f: Field) {
    && f.name != [] && COLON !in f.name && CR !in f.name && SP !in f.name && HTAB !in f.name
    && CR !in f.value
    && (f.value != [] ==> !IsSpace(f.value[0]) && !IsSpace(f.value[|f.value| - 1]))
  }

  function PrintField(f: Field): Bytes { f.name + [COLON] + ([SP] + f.value) }

  lemma FieldRoundTrip(f: Field)
    requires Printable(f)
    ensures ParseField(PrintField(f)) == Some(f) && CR !in PrintField(f) && PrintField(f) != []
  {
    SplitByteAt(f.name, COLON, [SP] + f.value);
    assert PrintField(f) == f.name + [COLON] + ([SP] + f.value);
    assert ([SP] + f.value)[1..] == f.value;
    assert Trim([SP] + f.value) == Trim(f.value) == f.value;
  }

  function PrintFields(fields: seq<Field>): Bytes {
    if fields == [] then CRLF else PrintField(fields[0]) + CRLF + PrintFields(fields[1..])
  }

  lemma {:induction false} FieldsRoundTrip(fields: seq<Field>, after: Bytes)
    requires forall i :: 0 <= i < |fields| ==> Printable(fields[i])
    ensures ParseFields(PrintFields(fields) + after) == Some((fields, after))
  {
    hide PrintField, ParseField, SplitLine, Printable;
    if fields == [] {
      assert PrintFields(fields) + after == [] + CRLF + after;
      SplitLineAt([], after);
    } else {
      FieldsRoundTrip(fields[1..], after);
      FieldRoundTrip(fields[0]);
      var rest := PrintFields(fields[1..]) + after;
      assert PrintFields(fields) + after == PrintField(fields[0]) + CRLF + rest;
      SplitLineAt(PrintField(fields[0]), rest);
      assert [fields[0]] + fields[1..] == fields;
    }
  }

  /** Any response whose only length field tells the length of its body. */
  predicate WellFormed(r: Response) {
    && 100 <= r.status <= 999
    && CR !in r.reason
    && (forall i :: 0 <= i < |r.fields| ==> Printable(r.fields[i]))
    && ValuesOf(r.fields, Ascii("content-length")) == [Decimal(|r.body|)]
    && ValuesOf(r.fields, Ascii("transfer-encoding")) == []
  }

  function StatusLine(status: nat, reason: Bytes): Bytes {
    Ascii("HTTP/1.1") + [SP] + (Decimal(status) + [SP] + reason)
  }

  function Print(r: Response): Bytes {
    StatusLine(r.status, r.reason) + CRLF + (PrintFields(r.fields) + r.body)
  }

  lemma StatusLineRoundTrip(status: nat, reason: Bytes)
    requires 100 <= status <= 999 && CR !in reason
    ensures ParseStatusLine(StatusLine(status, reason)) == Some((status, reason))
    ensures CR !in StatusLine(status, reason)
  {
    SplitByteAt(Ascii("HTTP/1.1"), SP, Decimal(status) + [SP] + reason);
    assert |Decimal(status / 100)| == 1 && |Decimal(status / 10)| == 2;
    SplitByteAt(Decimal(status), SP, reason);
    DecimalRoundTrip(status);
  }

  /** Framing round trip: a well-formed response is read back exactly, body included, and whatever
      follows it on the connection is left over untouched. */
  lemma ResponseRoundTrip(r: Response, after: Bytes)
    requires WellFormed(r)
    ensures ParseResponse(Print(r) + after) == Some((r, after))
  {
    var tail := r.body + after;
    StatusLineRoundTrip(r.status, r.reason);
    assert Print(r) + after == StatusLine(r.status, r.reason) + CRLF + (PrintFields(r.fields) + tail);
    SplitLineAt(StatusLine(r.status, r.reason), PrintFields(r.fields) + tail);
    FieldsRoundTrip(r.fields, tail);
    DecimalRoundTrip(|r.body|);
    assert tail[..|r.body|] == r.body && tail[|r.body|..] == after;
  }

  // ----- The two responses -----

  function TextField(name: string, value: string): Field
  {
    Field(Ascii(name), Ascii(value))
  }

  function FaultFields(body: Bytes): seq<Field> {
    [TextField("Content-Type", "text/xml"), Field(Ascii("Content-Length"), Decimal(|body|)),
     TextField("Connection", "close")]
  }

  function UnavailableFields(): seq<Field> {
    [TextField("Content-Type", "text/plain"), Field(Ascii("Content-Length"), Decimal(|UnavailableBody()|)),
     TextField("Retry-After", "1"), TextField("Connection", "close")]
  }

  lemma AsciiConcat(s: string, t: string)
    ensures Ascii(s + t) == Ascii(s) + Ascii(t)
  {
  }

  /** A printed text field is its line in the source. */
  lemma PrintText(name: string, value: string, text: string)
    requires text == name + ": " + value
    ensures PrintField(TextField(name, value)) + CRLF == Line(text)
  {
    AsciiConcat(name + ": ", value);
    AsciiConcat(name, ": ");
    assert Ascii(": ") == [COLON] + [SP];
  }

  lemma StatusText(status: nat, code: string, reason: string, text: string)
    requires text == "HTTP/1.1" + " " + (code + " " + reason) && Ascii(code) == Decimal(status)
    ensures Line(text) == StatusLine(status, Ascii(reason)) + CRLF
  {
    AsciiConcat("HTTP/1.1" + " ", code + " " + reason);
    AsciiConcat("HTTP/1.1", " ");
    AsciiConcat(code + " ", reason);
    AsciiConcat(code, " ");
    assert Ascii(" ") == [SP];
  }

  lemma PrintLength(n: nat)
    ensures PrintField(Field(Ascii("Content-Length"), Decimal(n))) + CRLF
            == Ascii("Content-Length: ") + Decimal(n) + CRLF
  {
    AsciiConcat("Content-Length", ": ");
    assert "Content-Length" + ": " == "Content-Length: ";
    assert Ascii(": ") == [COLON] + [SP];
  }

  lemma ValuesOfCons(f: Field, rest: seq<Field>, name: Bytes)
    ensures ValuesOf([f] + rest, name)
            == (if Lower(f.name) == name then [f.value] else []) + ValuesOf(rest, name)
    ensures |f.name| != |name| ==> ValuesOf([f] + rest, name) == ValuesOf(rest, name)
  {
    assert ([f] + rest)[1..] == rest;
  }

  lemma LengthFieldFound(fields: seq<Field>, n: nat)
    requires ValuesOf(fields, Ascii("content-length")) == [] && ValuesOf(fields, Ascii("transfer-encoding")) == []
    ensures var all := [Field(Ascii("Content-Length"), Decimal(n))] + fields;
            ValuesOf(all, Ascii("content-length")) == [Decimal(n)] && ValuesOf(all, Ascii("transfer-encoding")) == []
  {
    var f := Field(Ascii("Content-Length"), Decimal(n));
    assert Lower(f.name) == Ascii("content-length");
    ValuesOfCons(f, fields, Ascii("content-length"));
    ValuesOfCons(f, fields, Ascii("transfer-encoding"));
  }

  /** Neither name: told apart by its length. */
  lemma OtherField(f: Field, fields: seq<Field>)
    requires |f.name| != 14 && |f.name| != 17
    ensures ValuesOf([f] + fields, Ascii("content-length")) == ValuesOf(fields, Ascii("content-length"))
    ensures ValuesOf([f] + fields, Ascii("transfer-encoding")) == ValuesOf(fields, Ascii("transfer-encoding"))
  {
    ValuesOfCons(f, fields, Ascii("content-length"));
    ValuesOfCons(f, fields, Ascii("transfer-encoding"));
  }

  lemma LengthPrintable(n: nat)
    ensures Printable(Field(Ascii("Content-Length"), Decimal(n)))
  {
  }

  lemma TypeFieldsPrintable()
    ensures Printable(TextField("Content-Type", "text/xml")) && Printable(TextField("Content-Type", "text/plain"))
  {
  }

  lemma OtherFieldsPrintable()
    ensures Printable(TextField("Connection", "close")) && Printable(TextField("Retry-After", "1"))
  {
  }

  lemma FaultFieldsWellFormed(body: Bytes)
    ensures WellFormed(Response(200, Ascii("OK"), FaultFields(body), body))
  {
    var kind := TextField("Content-Type", "text/xml");
    var length := Field(Ascii("Content-Length"), Decimal(|body|));
    var last := TextField("Connection", "close");
    OtherField(last, []);
    assert [last] + [] == [last];
    LengthFieldFound([last], |body|);
    OtherField(kind, [length] + [last]);
    assert [kind] + ([length] + [last]) == FaultFields(body);
    LengthPrintable(|body|);
    TypeFieldsPrintable();
    OtherFieldsPrintable();
  }

  lemma PrintFieldsCons(f: Field, rest: seq<Field>)
    ensures PrintFields([f] + rest) == (PrintField(f) + CRLF) + PrintFields(rest)
    ensures rest == [] ==> PrintFields([f]) == (PrintField(f) + CRLF) + CRLF
  {
    assert ([f] + rest)[1..] == rest;
    if rest == [] { assert [f] + rest == [f]; }
  }

  lemma PrintThree(r: Response, a: Field, b: Field, c: Field)
    requires r.fields == [a, b, c]
    ensures Print(r) == (StatusLine(r.status, r.reason) + CRLF) + (PrintField(a) + CRLF) + (PrintField(b) + CRLF)
                        + (PrintField(c) + CRLF) + CRLF + r.body
  {
    PrintFieldsCons(c, []);
    PrintFieldsCons(b, [c]);
    PrintFieldsCons(a, [b, c]);
  }

  lemma PrintFour(r: Response, a: Field, b: Field, c: Field, d: Field)
    requires r.fields == [a, b, c, d]
    ensures Print(r) == (StatusLine(r.status, r.reason) + CRLF) + (PrintField(a) + CRLF) + (PrintField(b) + CRLF)
                        + (PrintField(c) + CRLF) + (PrintField(d) + CRLF) + CRLF + r.body
  {
    PrintFieldsCons(d, []);
    PrintFieldsCons(c, [d]);
    PrintFieldsCons(b, [c, d]);
    PrintFieldsCons(a, [b, c, d]);
  }

  lemma FaultResponsePrinted(body: Bytes)
    ensures FaultResponse(body) == Print(Response(200, Ascii("OK"), FaultFields(body), body))
  {
    var f := FaultFields(body);
    assert Decimal(2) == Ascii("2") && Decimal(20) == Ascii("20");
    assert Decimal(200) == Ascii("200");
    StatusText(200, "200", "OK", "HTTP/1.1 200 OK");
    PrintText("Content-Type", "text/xml", "Content-Type: text/xml");
    PrintText("Connection", "close", "Connection: close");
    PrintLength(|body|);
    PrintThree(Response(200, Ascii("OK"), f, body), f[0], f[1], f[2]);
  }

  /** Whatever the payload, a client that reads the FAULT response gets status 200, these three header
      fields and exactly the payload, with nothing left over. */
  lemma FaultResponseRoundTrip(body: Bytes)
    ensures ParseResponse(FaultResponse(body))
            == Some((Response(200, Ascii("OK"),
                              [Field(Ascii("Content-Type"), Ascii("text/xml")),
                               Field(Ascii("Content-Length"), Decimal(|body|)),
                               Field(Ascii("Connection"), Ascii("close"))], body), []))
  {
    var r := Response(200, Ascii("OK"), FaultFields(body), body);
    FaultFieldsWellFormed(body);
    FaultResponsePrinted(body);
    assert FaultResponse(body) == Print(r) + [];
    ResponseRoundTrip(r, []);
  }

  lemma UnavailableFieldsWellFormed()
    ensures WellFormed(Response(503, Ascii("Service Unavailable"), UnavailableFields(), UnavailableBody()))
  {
    var kind := TextField("Content-Type", "text/plain");
    var length := Field(Ascii("Content-Length"), Decimal(|UnavailableBody()|));
    var retry := TextField("Retry-After", "1");
    var last := TextField("Connection", "close");
    OtherField(last, []);
    assert [last] + [] == [last];
    OtherField(retry, [last]);
    LengthFieldFound([retry] + [last], |UnavailableBody()|);
    OtherField(kind, [length] + ([retry] + [last]));
    assert [kind] + ([length] + ([retry] + [last])) == UnavailableFields();
    LengthPrintable(|UnavailableBody()|);
    TypeFieldsPrintable();
    OtherFieldsPrintable();
  }

  lemma Decimal503()
    ensures Ascii("503") == Decimal(503)
  {
    assert Decimal(5) == Ascii("5") && Decimal(50) == Ascii("50");
  }

  lemma UnavailableStatusText()
    ensures Line("HTTP/1.1 503 Service Unavailable") == StatusLine(503, Ascii("Service Unavailable")) + CRLF
  {
    hide Decimal, StatusLine, Line, Ascii;
    Decimal503();
    StatusText(503, "503", "Service Unavailable", "HTTP/1.1 503 Service Unavailable");
  }

  lemma UnavailableResponsePrinted()
    ensures UnavailableResponse()
            == Print(Response(503, Ascii("Service Unavailable"), UnavailableFields(), UnavailableBody()))
  {
    hide Decimal, Print, PrintField, StatusLine, Line, Ascii;
    var f := UnavailableFields();
    UnavailableStatusText();
    PrintText("Content-Type", "text/plain", "Content-Type: text/plain");
    PrintText("Retry-After", "1", "Retry-After: 1");
    PrintText("Connection", "close", "Connection: close");
    PrintLength(|UnavailableBody()|);
    assert f == [f[0], f[1], f[2], f[3]];
    PrintFour(Response(503, Ascii("Service Unavailable"), f, UnavailableBody()), f[0], f[1], f[2], f[3]);
  }

  lemma Decimal19()
    ensures Decimal(|UnavailableBody()|) == Ascii("19")
  {
    assert Decimal(1) == Ascii("1");
  }

  /** A client that reads the HTTP_503 response gets status 503, these header fields and the body. */
  lemma UnavailableResponseRoundTrip()
    ensures ParseResponse(UnavailableResponse())
            == Some((Response(503, Ascii("Service Unavailable"),
                              [Field(Ascii("Content-Type"), Ascii("text/plain")),
                               Field(Ascii("Content-Length"), Ascii("19")),
                               Field(Ascii("Retry-After"), Ascii("1")),
                               Field(Ascii("Connection"), Ascii("close"))], Ascii("Service Unavailable")), []))
  {
    var r := Response(503, Ascii("Service Unavailable"), UnavailableFields(), UnavailableBody());
    UnavailableFieldsWellFormed();
    UnavailableResponsePrinted();
    Decimal19();
    assert UnavailableResponse() == Print(r) + [];
    ResponseRoundTrip(r, []);
  }

  /** Lines are ended by carriage return and line feed. */
  lemma LineEnds(text: string)
    ensures Line(text) == Ascii(text) + [13, 10] && CRLF == [13, 10]
  {
  }
}
