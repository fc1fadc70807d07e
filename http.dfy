/**
 * The HTTP transport as the clients see it. HttpHelper.ExecuteRequest either
 * returns no response (null) or a response with a status, its description,
 * a Content-Length, a body and the headers the clients read. The connection
 * itself, TLS and the text encodings are not modelled: the body is given
 * both as the text ReadBody decodes and as what XmlDocument.LoadXml makes of it.
 */
module Http {
  import opened Text
  import opened Xml

  /** HttpStatusCode.OK */
  const OK: int := 200

  datatype Response = Response(
    status: int,               // (int)response.StatusCode
    statusName: string,        // response.StatusCode.ToString(), the enumeration's name
    description: string,       // response.StatusDescription
    contentLength: int,        // response.ContentLength, -1 when unknown
    text: string,              // the body as ReadBody decodes it
    xml: Option<Doc>,          // LoadXml of that text, None when it is not well-formed
    setCookie: Option<string>) // response.Headers["Set-Cookie"]

  /** What ExecuteRequest returns: None is the null it gives when no response was obtained. */
  type Reply = Option<Response>

  /** ReadBody reads while the length is unknown (-1) or not yet reached: nothing when it is 0. */
  predicate ReadsBody(r: Response) {
    r.contentLength == -1 || r.contentLength > 0
  }

  /** HttpHelper.ReadBody(response, encoding). */
  function ReadBody(r: Response): string {
    if ReadsBody(r) then r.text else ""
  }

  /** HttpHelper.ReadBodyAsXml: an empty body is not a document. */
  function ReadBodyAsXml(r: Response): Option<Doc> {
    if ReadsBody(r) then r.xml else None
  }

  /**
   * The body the web-form clients keep: read only when the Content-Length is
   * positive, then stripped of leading and trailing CR and LF.
   */
  function FormReplyBody(r: Response): string {
    if r.contentLength > 0 then Trimmed(ReadBody(r)) else ""
  }

  /**
   * The kept body is "" when the Content-Length is not positive; otherwise it
   * is the body read with only CR and LF removed from both ends: a
   * contiguous piece of it, neither of whose ends is a line break.
   */
  lemma FormReplyBodyShape(r: Response)
    ensures var b := FormReplyBody(r);
      (r.contentLength <= 0 ==> b == "")
      && (r.contentLength > 0 ==>
            (|b| == 0 || (!IsLineBreak(b[0]) && !IsLineBreak(b[|b| - 1])))
            && exists k :: 0 <= k && k + |b| <= |r.text| && r.text[k..k + |b|] == b
                           && AllLineBreaks(r.text[..k]) && AllLineBreaks(r.text[k + |b|..]))
  {
    if r.contentLength > 0 {
      TrimmedSlice(r.text);
      TrimmedEnds(r.text);
      var k := |r.text| - |DropLeadingBreaks(r.text)|;
      assert 0 <= k && k + |Trimmed(r.text)| <= |r.text|;
    }
  }

  /** What a client call returns, and what it leaves in _lastError. */
  datatype Answer<T> = Answer(value: T, lastError: string)

  /** int.ToString() in decimal. */
  function NatToString(n: nat): (s: string)
    ensures |s| >= 1
    decreases n
  {
    if n < 10 then [DigitChar(n)] else NatToString(n / 10) + [DigitChar(n % 10)]
  }

  function IntToString(i: int): string {
    if i < 0 then "-" + NatToString(-i) else NatToString(i)
  }

  /** int.ToString() of a non-negative value is all decimal digits. */
  lemma {:induction false} NatToStringDigits(n: nat)
    ensures AllDigits(NatToString(n))
    decreases n
  {
    if n >= 10 {
      NatToStringDigits(n / 10);
    }
  }

  /** The text of any status code opens with a digit or a minus sign, never a letter. */
  lemma IntToStringHead(i: int)
    ensures |IntToString(i)| >= 1
    ensures IntToString(i)[0] == '-' || IsDigit(IntToString(i)[0])
  {
    if i >= 0 {
      NatToStringDigits(i);
    }
  }
}
