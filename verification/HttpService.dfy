/**
 What a client gets: the status line read back, and the answer to a request as the client wrote it.
 */
module HttpService {
  import opened Basics
  import opened HttpText
  import opened HttpServer
  import opened RequestLine
  import B = Buffer
  import Req = HttpRequest
  import Res = HttpResponse

  // ---------------------------------------------------------- status line

  /** The message of a response: its own, or the one for its code. */
  function Message(r: Res.Response): string {
    if r.message == "" then Res.StatusMessageForCode(r.code) else r.message
  }

  /** The status line as it is meant. */
  function FullStatus(r: Res.Response): string { "HTTP/1.0 " + Res.Decimal(r.code) + " " + Message(r) + Res.CRLF }

  /** A client reads a status line: two words, and the message behind one blank up to the line end. */
  function ReadStatus(s: string): (string, string, string) {
    var (version, rest) := Req.NextWord(s);
    var (code, rest2) := Req.NextWord(rest);
    var end := FindCrlf(rest2, 0);
    (version, code, if 0 < end then rest2[1..end] else "")
  }

  lemma {:induction false} DigitsAreWord(n: nat)
    ensures IsWord(Res.Decimal(n))
  {
    if n >= 10 { DigitsAreWord(n / 10); }
  }

  lemma MessageEnds(message: string, behind: string)
    requires '\r' !in message
    ensures FindCrlf(" " + message + Res.CRLF + behind, 0) == 1 + |message|
    ensures (" " + message + Res.CRLF + behind)[1..1 + |message|] == message
  {
    var s := " " + message + Res.CRLF + behind;
    assert forall q :: 0 <= q < 1 + |message| ==> s[q] != '\r';
    assert B.CrlfAt(s, 1 + |message|);
  }

  /** Exactly when the status line is printed whole: when it fits the line buffer. Then a client reads back the
      version, the digits of the code, and the message. */
  lemma StatusReadsBack(r: Res.Response, behind: string)
    requires '\0' !in Message(r)
    ensures Res.StatusLine(r) == FullStatus(r) <==> |FullStatus(r)| < Res.LINE_BUFFER
    ensures |FullStatus(r)| < Res.LINE_BUFFER && '\r' !in Message(r) ==>
              ReadStatus(Res.StatusLine(r) + behind) == ("HTTP/1.0", Res.Decimal(r.code), Message(r))
  {
    var full := FullStatus(r);
    Res.PlainCString(Message(r));
    assert Res.StatusLine(r) == Res.Snprintf(full);
    assert full[..|full|] == full;
    if |full| < Res.LINE_BUFFER && '\r' !in Message(r) {
      FullReadsBack(Res.Decimal(r.code), Message(r), r.code, behind);
    }
  }

  lemma FullReadsBack(digits: string, message: string, code: nat, behind: string)
    requires digits == Res.Decimal(code) && '\r' !in message
    ensures ReadStatus(("HTTP/1.0 " + digits + " " + message + Res.CRLF) + behind) == ("HTTP/1.0", digits, message)
  {
    var tail := " " + message + Res.CRLF + behind;
    DigitsAreWord(code);
    assert IsWord("HTTP/1.0");
    NextWordIs("", "HTTP/1.0", " " + (digits + tail));
    NextWordIs(" ", digits, tail);
    MessageEnds(message, behind);
    Regroup(digits, message, Res.CRLF, behind);
  }

  lemma Regroup(digits: string, message: string, crlf: string, behind: string)
    ensures ("HTTP/1.0 " + digits + " " + message + crlf) + behind ==
            "" + ("HTTP/1.0" + (" " + (digits + (" " + message + crlf + behind))))
  {
  }

  /** The messages of the codes the server knows. */
  lemma KnownMessages(r: Res.Response)
    requires r.message == ""
    ensures r.code == 200 ==> Message(r) == "OK"
    ensures r.code == 400 ==> Message(r) == "Bad Request"
    ensures r.code == 404 ==> Message(r) == "Not Found"
    ensures r.code == 500 ==> Message(r) == "Internal Server Error"
  {
  }

  // --------------------------------------------------------------- answers

  /** The answer for a file that opens, with this content. */
  predicate IsFile(r: Res.Response, content: string, mimeType: string) {
    && r.code == 200 && r.message == "" && r.body == content && r.close
    && r.headers == [Res.Header("Content-Type", mimeType)]
  }

  /** The answer for a file that does not. */
  predicate IsNotFound(r: Res.Response) {
    && r.code == 404 && r.message == "" && r.body == NOT_FOUND_BODY && r.close
    && r.headers == [Res.Header("Content-Type", "text/html")]
  }

  /** A path is answered from the file of that name under the document root: with 200 and its content as the body if it
      opens, and with 404 and the page that says so if it does not. */
  lemma AnswerIs(site: Site, path: string)
    ensures var r := Answer(site, path);
            match site.open(site.docRoot + path)
            case Some(content) => IsFile(r, content, site.mimeType(path))
            case None => IsNotFound(r)
  {
  }

  /** What the client reads of the answer: the code, its message, and behind the headers the body. */
  lemma AnswerOnTheWire(site: Site, path: string)
    requires Res.Printable(Res.Header("Content-Type", site.mimeType(path)))
    requires |Answer(site, path).body| < 0x1_0000_0000_0000_0000
    ensures var s, r := Res.Print(Answer(site, path)), Answer(site, path);
            && r.code == (if site.open(site.docRoot + path).Some? then 200 else 404)
            && ReadStatus(s) == ("HTTP/1.0", Res.Decimal(r.code), if r.code == 200 then "OK" else "Not Found")
            && |r.body| <= |s| && s[|s| - |r.body|..] == r.body
            && (site.open(site.docRoot + path).Some? ==> r.body == site.open(site.docRoot + path).value)
  {
    var r := Answer(site, path);
    AnswerCode(site, path);
    AnswerReads(site, path);
    PrintStarts(r);
  }

  lemma AnswerCode(site: Site, path: string)
    ensures var r, file := Answer(site, path), site.open(site.docRoot + path);
            r.message == "" && r.code == (if file.Some? then 200 else 404) && (file.Some? ==> r.body == file.value)
  {
  }

  lemma StatusFits(r: Res.Response)
    requires r.message == "" && (r.code == 200 || r.code == 404)
    ensures Message(r) == (if r.code == 200 then "OK" else "Not Found")
    ensures '\0' !in Message(r) && '\r' !in Message(r) && |FullStatus(r)| < Res.LINE_BUFFER
  {
    assert |Res.Decimal(r.code / 100)| == 1 && |Res.Decimal(r.code / 10)| == 2;
  }

  lemma PrintStarts(r: Res.Response)
    requires r.message == "" && (r.code == 200 || r.code == 404)
    ensures ReadStatus(Res.Print(r)) ==
            ("HTTP/1.0", Res.Decimal(r.code), if r.code == 200 then "OK" else "Not Found")
  {
    var headers := Res.Flat(Res.Lines(Res.Printed(r)));
    StatusFits(r);
    StatusReadsBack(r, headers + Res.CRLF + r.body);
    FirstOfFour(Res.StatusLine(r), headers, Res.CRLF, r.body);
  }

  lemma FirstOfFour(a: string, b: string, c: string, d: string)
    ensures a + b + c + d == a + (b + c + d)
  {
  }

  /** From the client's request to its answer: a GET for any path that does not climb, with any query, version numbers
      and headers, is received as a request for that document, and answered with the file if it opens and with 404 if
      not. */
  lemma GetIsServed(site: Site, path: string, query: Option<string>, a: string, b: string, plain: char -> bool,
                    hs: seq<Res.Header>, behind: string)
    requires Askable(path, query) && MayBePlain(plain) && !Req.HasDots(path)
    requires NoSpace(a) && NoSpace(b) && '.' !in a && site.stoi(a).Some? && site.stoi(b).Some?
    requires forall i :: 0 <= i < |hs| ==> Readable(hs[i].key, hs[i].value)
    ensures var request := Received(site, RequestText(path, query, a, b, plain, hs, behind));
            && request.Some? && request.value.path == Document(path)
            && request.value.query == (if query.Some? then query.value else "")
            && request.value.headers == Res.ToMap(hs)
    ensures var r := Answer(site, Document(path));
            match site.open(site.docRoot + Document(path))
            case Some(content) => IsFile(r, content, site.mimeType(Document(path)))
            case None => IsNotFound(r)
  {
    RequestRoundTrip(path, query, a, b, plain, hs, behind, site.stoi);
    ReceivedIs(site, RequestText(path, query, a, b, plain, hs, behind),
               Asked(path, query, site.stoi(a).value, site.stoi(b).value).(headers := Res.ToMap(hs)));
    AnswerIs(site, Document(path));
  }

  lemma ReceivedIs(site: Site, text: string, fields: Req.Fields)
    requires Req.RequestResult(Req.FRESH, text, site.stoi) == (fields, Req.Parsed)
    ensures Received(site, text) == Some(fields)
  {
  }
}
