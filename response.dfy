/** The fixed HTTP/1.1 response `generateHttpResponse` writes: a status line,
    three header fields (Content-Length is the body's length in decimal, as
    section 3.3.2 of RFC 7230 asks) and the body; and a parser that reads such
    a response back. */
module Response {
  import opened Text

  const StatusOk := "200 OK"
  const StatusNotFound := "404 Not Found"
  const StatusMethodNotAllowed := "405 Method Not Allowed"

  const CRLF := "\r\n"
  /** Text written before the status. */
  const VersionPrefix := "HTTP/1.1 "
  /** Text between the status and the length digits: the end of the status
      line, the Content-Type field and the name of the Content-Length field. */
  const LengthLead := CRLF + "Content-Type: text/html" + CRLF + "Content-Length: "
  /** Text between the length digits and the body: the end of the Content-Length
      field, the Connection field and the blank line. */
  const HeaderEnd := CRLF + "Connection: close" + CRLF + CRLF

  predicate IsDigit(c: char) {
    '0' <= c <= '9'
  }

  predicate NotCR(c: char) {
    c != '\r'
  }

  /** None of the three status texts holds a carriage return. */
  lemma StatusesFreeOfCR()
    ensures All(StatusOk, NotCR) && All(StatusNotFound, NotCR) && All(StatusMethodNotAllowed, NotCR)
  {
    OkFreeOfCR();
    NotFoundFreeOfCR();
    NotAllowedFreeOfCR();
  }

  lemma OkFreeOfCR()
    ensures All(StatusOk, NotCR)
  {
    forall i | 0 <= i < |StatusOk| ensures StatusOk[i] != '\r' { }
  }

  lemma NotFoundFreeOfCR()
    ensures All(StatusNotFound, NotCR)
  {
    forall i | 0 <= i < |StatusNotFound| ensures StatusNotFound[i] != '\r' { }
  }

  lemma NotAllowedFreeOfCR()
    ensures All(StatusMethodNotAllowed, NotCR)
  {
    forall i | 0 <= i < |StatusMethodNotAllowed| ensures StatusMethodNotAllowed[i] != '\r' { }
  }

  function DigitChar(d: nat): (c: char)
    requires d < 10
    ensures IsDigit(c) && c as int - '0' as int == d
  {
    (d + '0' as int) as char
  }

  /** `operator<<` on a `size_t`: the decimal digits of `n`, most significant first. */
  function Decimal(n: nat): (d: string)
    ensures d != [] && All(d, IsDigit)
    ensures |d| > 1 ==> d[0] != '0'
  {
    if n < 10 then [DigitChar(n)] else Decimal(n / 10) + [DigitChar(n % 10)]
  }

  /** The value of a string of decimal digits. */
  function DecimalValue(d: string): nat
    requires All(d, IsDigit)
  {
    if d == [] then 0
    else DecimalValue(d[..|d| - 1]) * 10 + (d[|d| - 1] as int - '0' as int)
  }

  /** Reading the Content-Length digits gives back the length that was written. */
  lemma {:induction false} DecimalRoundTrip(n: nat)
    ensures DecimalValue(Decimal(n)) == n
  {
    var d := Decimal(n);
    if n >= 10 {
      DecimalRoundTrip(n / 10);
      assert d[..|d| - 1] == Decimal(n / 10);
    }
  }

  /** `generateHttpResponse(content, status)`. */
  function GenerateHttpResponse(content: string, status: string): (response: string)
    ensures |response| >= |content| && response[|response| - |content|..] == content
  {
    var head := VersionPrefix + status + LengthLead + Decimal(|content|) + HeaderEnd;
    assert (head + content)[|head|..] == content;
    head + content
  }

  datatype Parsed = Parsed(status: string, contentLength: nat, body: string)

  /** Reads a response of the shape above: the status runs to the first carriage
      return, then come the header fields and the body. */
  function ParseResponse(response: string): Option<Parsed>
  {
    match Expect(response, VersionPrefix)
    case None => None
    case Some(afterVersion) =>
      var n := SpanLength(afterVersion, NotCR);
      var status := afterVersion[..n];
      match ParseHeaders(afterVersion[n..])
      case None => None
      case Some(framed) => Some(Parsed(status, framed.contentLength, framed.body))
  }

  datatype Framed = Framed(contentLength: nat, body: string)

  /** Reads the header fields: the length is the run of digits after
      "Content-Length: ", and the body is everything after the blank line. */
  function ParseHeaders(afterStatus: string): Option<Framed>
  {
    match Expect(afterStatus, LengthLead)
    case None => None
    case Some(afterLead) =>
      var n := SpanLength(afterLead, IsDigit);
      var digits := afterLead[..n];
      if n == 0 then None
      else
        match Expect(afterLead[n..], HeaderEnd)
        case None => None
        case Some(body) => Some(Framed(DecimalValue(digits), body))
  }

  lemma {:induction false} ParseGeneratedHeaders(content: string)
    ensures ParseHeaders(LengthLead + Decimal(|content|) + HeaderEnd + content)
         == Some(Framed(|content|, content))
  {
    var digits := Decimal(|content|);
    var afterLead := digits + (HeaderEnd + content);
    assert LengthLead + digits + HeaderEnd + content == LengthLead + afterLead;
    ExpectLiteral(LengthLead, afterLead);
    assert (HeaderEnd + content)[0] == '\r';
    SpanLengthOf(digits, HeaderEnd + content, IsDigit);
    assert afterLead[..|digits|] == digits;
    assert afterLead[|digits|..] == HeaderEnd + content;
    ExpectLiteral(HeaderEnd, content);
    DecimalRoundTrip(|content|);
  }

  /** Parsing a generated response recovers its status and body, and its
      Content-Length value is the length of the body. */
  lemma {:induction false} ParseGenerated(content: string, status: string)
    requires All(status, NotCR)
    ensures ParseResponse(GenerateHttpResponse(content, status))
         == Some(Parsed(status, |content|, content))
  {
    var afterStatus := LengthLead + Decimal(|content|) + HeaderEnd + content;
    var afterVersion := status + afterStatus;
    assert GenerateHttpResponse(content, status) == VersionPrefix + afterVersion;
    ExpectLiteral(VersionPrefix, afterVersion);
    assert afterStatus[0] == '\r';
    SpanLengthOf(status, afterStatus, NotCR);
    assert afterVersion[..|status|] == status;
    assert afterVersion[|status|..] == afterStatus;
    ParseGeneratedHeaders(content);
  }

  /** A generated response declares exactly the length of its body. */
  lemma {:induction false} DeclaredLengthIsBodyLength(content: string, status: string)
    requires All(status, NotCR)
    ensures var p := ParseResponse(GenerateHttpResponse(content, status));
            p.Some? && p.value.contentLength == |p.value.body|
  {
    ParseGenerated(content, status);
  }
}
