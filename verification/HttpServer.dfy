/**
 The message callback of the HTTP server in main.cpp: parse what has arrived, consume one
 request, answer it. The file system and the table of MIME types are parameters.
 */
module HttpServer {
  import opened Basics
  import opened Buffer
  import opened HttpText
  import Req = HttpRequest
  import Res = HttpResponse

  const NOT_FOUND_BODY := "<html><head><title>404 Not Found</title></head>"
    + "<body><h1>404 Not Found</h1><p>"
    + "The requested URL was not found on this server."
    + "</p></body></html>"

  /** What the server needs besides the connection. */
  datatype Site = Site(
    docRoot: string, open: string -> Option<string>, mimeType: string -> string, stoi: string -> Option<int>)

  function Answer(site: Site, path: string): Res.Response {
    match site.open(site.docRoot + path)
    case Some(content) => Res.Response(200, "", [Res.Header("Content-Type", site.mimeType(path))], content, true)
    case None => Res.Response(404, "", [Res.Header("Content-Type", "text/html")], NOT_FOUND_BODY, true)
  }

  /** The request in a text, if it holds a complete one. */
  function Received(site: Site, text: string): Option<Req.Fields> {
    var (fields, outcome) := Req.RequestResult(Req.FRESH, text, site.stoi);
    if outcome.Parsed? then Some(fields) else None
  }

  /** `std::stoi` throws on the version of the first line. */
  predicate Raises(site: Site, text: string) { Req.RequestResult(Req.FRESH, text, site.stoi).1.Threw? }

  /** The consuming part of `onMessage`, which searches for the empty line again. */
  method Consume(buf: Buffer)
    requires buf.Valid()
    modifies buf`readIndex, buf`writeIndex
    ensures buf.Valid()
    ensures var b := FindBlank(old(buf.Contents()), 0);
            if b < |old(buf.Contents())|
            then b + 4 <= |old(buf.Contents())| && buf.Contents() == old(buf.Contents())[b + 4..]
            else buf.Contents() == ""
  {
    var text := buf.data[buf.readIndex..buf.writeIndex];
    var headerEnd := FindBlank(text, 0);
    if headerEnd != |text| {
      var consumed := headerEnd + 4;
      assert BlankAt(text, headerEnd);
      buf.Retrieve(consumed);
    } else {
      buf.RetrieveAll();
    }
  }

  /** The same behind a successful parse, where the search cannot fail. */
  method ConsumeRequest(site: Site, buf: Buffer)
    requires buf.Valid() && Received(site, buf.Contents()).Some?
    modifies buf`readIndex, buf`writeIndex
    ensures buf.Valid() && FindBlank(old(buf.Contents()), 0) + 4 <= |old(buf.Contents())|
    ensures buf.Contents() == old(buf.Contents())[FindBlank(old(buf.Contents()), 0) + 4..]
  {
    BlankIsThere(site, buf.Contents());
    Consume(buf);
  }

  /** The answer, as text. */
  method Respond(site: Site, path: string) returns (text: string)
    ensures text == Res.Print(Answer(site, path))
  {
    var response := new Res.HttpResponse(true);
    var file := site.open(site.docRoot + path);
    match file {
      case Some(content) =>
        response.statusCode := 200;
        response.AddHeader("Content-Type", site.mimeType(path));
        response.body := content;
      case None =>
        response.statusCode := 404;
        response.AddHeader("Content-Type", "text/html");
        response.body := NOT_FOUND_BODY;
    }
    assert response.View() == Answer(site, path);
    var responseBuf := new Buffer(INITIAL_SIZE);
    response.AppendToBuffer(responseBuf);
    text := responseBuf.RetrieveAllAsString();
  }

  /** The parsing part of `onMessage`, with a fresh request each time. */
  method RequestedPath(site: Site, buf: Buffer) returns (outcome: Req.Outcome, path: string)
    requires buf.Valid()
    ensures outcome.Parsed? <==> Received(site, buf.Contents()).Some?
    ensures outcome.Threw? <==> Raises(site, buf.Contents())
    ensures outcome.Parsed? ==> path == Received(site, buf.Contents()).value.path
  {
    var req := new Req.HttpRequest();
    outcome := req.ParseRequest(buf.data[buf.readIndex..buf.writeIndex], site.stoi);
    path := req.path;
  }

  /** `onMessage`: without a complete request nothing happens, and an exception is passed on with the buffer as it
      was; otherwise exactly the bytes up to and including the empty line leave the buffer, whatever is behind them
      stays, and the answer to this request is sent before the shutdown. */
  method OnMessage(site: Site, buf: Buffer) returns (outcome: Req.Outcome, sent: Option<string>, shutdown: bool)
    requires buf.Valid()
    modifies buf`readIndex, buf`writeIndex
    ensures buf.Valid()
    ensures outcome.Threw? <==> Raises(site, old(buf.Contents()))
    ensures outcome.Parsed? <==> Received(site, old(buf.Contents())).Some?
    ensures Handled(site, old(buf.Contents()), buf.Contents(), sent, shutdown)
  {
    ghost var text := buf.Contents();
    var path;
    outcome, path := RequestedPath(site, buf);
    if !outcome.Parsed? {
      return outcome, None, false;
    }
    ConsumeRequest(site, buf);
    ghost var rest := buf.Contents();
    var answer := Respond(site, path);
    HandledRequest(site, text, rest, answer);
    return outcome, Some(answer), true;
  }

  /** What a call does, by the buffer before and after it. */
  ghost predicate Handled(site: Site, before: string, after: string, sent: Option<string>, shutdown: bool) {
    match Received(site, before)
    case None => sent.None? && !shutdown && after == before
    case Some(fields) =>
      var end := FindBlank(before, 0) + 4;
      sent == Some(Res.Print(Answer(site, fields.path))) && shutdown && end <= |before| && after == before[end..]
  }

  lemma HandledRequest(site: Site, before: string, after: string, answer: string)
    requires Received(site, before).Some? && answer == Res.Print(Answer(site, Received(site, before).value.path))
    requires FindBlank(before, 0) + 4 <= |before| && after == before[FindBlank(before, 0) + 4..]
    ensures Handled(site, before, after, Some(answer), true)
  {
  }

  /** The search for the empty line cannot fail once parsing has succeeded: the buffer is never emptied for that
      reason. */
  lemma BlankIsThere(site: Site, text: string)
    requires Received(site, text).Some?
    ensures FindBlank(text, 0) + 4 <= |text|
  {
    Req.ParsedEnd(Req.FRESH, text, site.stoi);
  }

  function Concat(chunks: seq<string>): string { if chunks == [] then "" else chunks[0] + Concat(chunks[1..]) }

  /** How the server first reacts: not at all, by answering a request with the `n`-th chunk, or by an exception that
      leaves `onMessage` there. */
  datatype Reaction = Waiting | Answered(fields: Req.Fields, n: nat) | Raised(n: nat)

  function Later(r: Reaction): Reaction {
    match r
    case Waiting => Waiting
    case Answered(fields, n) => Answered(fields, n + 1)
    case Raised(n) => Raised(n + 1)
  }

  /** The first reaction when `chunks` arrive one after the other behind what is pending already, `onMessage` being
      called for each. */
  function FirstReaction(site: Site, pending: string, chunks: seq<string>): Reaction
    decreases |chunks|
  {
    if chunks == [] then Waiting
    else
      var next := pending + chunks[0];
      if Received(site, next).Some? then Answered(Received(site, next).value, 1)
      else if Raises(site, next) then Raised(1)
      else Later(FirstReaction(site, next, chunks[1..]))
  }

  function LaterBy(r: Reaction, n: nat): Reaction {
    match r
    case Waiting => Waiting
    case Answered(fields, k) => Answered(fields, k + n)
    case Raised(k) => Raised(k + n)
  }

  /** What a server has done when it has reacted as `r` says to what was pending and `chunks`: the outcome of its last
      `onMessage`, what it has sent, and what is left in the buffer. */
  ghost predicate HasReacted(site: Site, pending: string, chunks: seq<string>, r: Reaction,
                             outcome: Req.Outcome, sent: Option<string>, left: string) {
    match r
    case Waiting => !outcome.Parsed? && !outcome.Threw? && sent.None? && left == pending + Concat(chunks)
    case Answered(fields, n) =>
      && n <= |chunks| && outcome.Parsed? && sent == Some(Res.Print(Answer(site, fields.path)))
      && var text := pending + Concat(chunks[..n]);
         var end := FindBlank(text, 0) + 4;
         end <= |text| && left == text[end..]
    case Raised(n) => n <= |chunks| && outcome.Threw? && sent.None? && left == pending + Concat(chunks[..n])
  }

  lemma ConcatNext(pending: string, chunks: seq<string>, i: nat)
    requires i < |chunks|
    ensures pending + Concat(chunks[..i + 1]) == (pending + Concat(chunks[..i])) + chunks[i]
  {
    ConcatLast(chunks[..i], chunks[i]);
    assert chunks[..i + 1] == chunks[..i] + [chunks[i]];
  }

  lemma {:induction false} ConcatLast(chunks: seq<string>, chunk: string)
    ensures Concat(chunks + [chunk]) == Concat(chunks) + chunk
  {
    if chunks == [] {
      assert chunks + [chunk] == [chunk] && [chunk][1..] == [];
    } else {
      ConcatLast(chunks[1..], chunk);
      assert (chunks + [chunk])[1..] == chunks[1..] + [chunk];
    }
  }

  /** One chunk arrives: what `onMessage` does with it is the first reaction, or none. */
  method ReceiveOne(site: Site, buf: Buffer, chunk: string) returns (outcome: Req.Outcome, sent: Option<string>)
    requires buf.Valid()
    modifies buf, buf.data
    ensures buf.Valid() && (fresh(buf.data) || buf.data == old(buf.data))
    ensures var text := old(buf.Contents()) + chunk;
            && (outcome.Threw? <==> Raises(site, text)) && (outcome.Parsed? <==> Received(site, text).Some?)
            && Handled(site, text, buf.Contents(), sent, outcome.Parsed?)
  {
    var shutdown;
    buf.Append(chunk);
    outcome, sent, shutdown := OnMessage(site, buf);
  }

  /** The first `i` chunks have made the text `text`, without a reaction. */
  ghost predicate Unreacted(site: Site, pending: string, chunks: seq<string>, i: nat, text: string) {
    && i <= |chunks| && text == pending + Concat(chunks[..i])
    && FirstReaction(site, pending, chunks) == LaterBy(FirstReaction(site, text, chunks[i..]), i)
  }

  lemma UnreactedStart(site: Site, pending: string, chunks: seq<string>)
    ensures Unreacted(site, pending, chunks, 0, pending)
  {
    assert chunks[..0] == [] && chunks[0..] == chunks;
  }

  /** The next chunk. */
  lemma Onward(site: Site, pending: string, chunks: seq<string>, i: nat, text: string, outcome: Req.Outcome,
               sent: Option<string>, left: string)
    requires i < |chunks| && Unreacted(site, pending, chunks, i, text)
    requires outcome.Threw? <==> Raises(site, text + chunks[i])
    requires outcome.Parsed? <==> Received(site, text + chunks[i]).Some?
    requires Handled(site, text + chunks[i], left, sent, outcome.Parsed?)
    ensures if outcome.NotParsed? then Unreacted(site, pending, chunks, i + 1, left) && sent.None?
            else HasReacted(site, pending, chunks, FirstReaction(site, pending, chunks), outcome, sent, left)
  {
    ConcatNext(pending, chunks, i);
    NextReaction(site, pending, chunks, i, text);
    if !outcome.NotParsed? {
      if outcome.Parsed? {
        AnswersNow(site, pending, chunks, i + 1, text + chunks[i], outcome, sent, left);
      } else {
        RaisesNow(site, pending, chunks, i + 1, text + chunks[i], outcome, sent, left);
      }
    }
  }

  lemma AnswersNow(site: Site, pending: string, chunks: seq<string>, n: nat, next: string, outcome: Req.Outcome,
                   sent: Option<string>, left: string)
    requires n <= |chunks| && next == pending + Concat(chunks[..n])
    requires outcome.Parsed? && Received(site, next).Some? && Handled(site, next, left, sent, true)
    ensures HasReacted(site, pending, chunks, Answered(Received(site, next).value, n), outcome, sent, left)
  {
  }

  lemma RaisesNow(site: Site, pending: string, chunks: seq<string>, n: nat, next: string, outcome: Req.Outcome,
                  sent: Option<string>, left: string)
    requires n <= |chunks| && next == pending + Concat(chunks[..n])
    requires outcome.Threw? && Received(site, next).None? && Handled(site, next, left, sent, false)
    ensures HasReacted(site, pending, chunks, Raised(n), outcome, sent, left)
  {
  }

  lemma NextReaction(site: Site, pending: string, chunks: seq<string>, i: nat, text: string)
    requires i < |chunks| && Unreacted(site, pending, chunks, i, text)
    ensures var next := text + chunks[i];
            FirstReaction(site, pending, chunks) ==
            if Received(site, next).Some? then Answered(Received(site, next).value, i + 1)
            else if Raises(site, next) then Raised(i + 1)
            else LaterBy(FirstReaction(site, next, chunks[i + 1..]), i + 1)
  {
    assert chunks[i..][0] == chunks[i] && chunks[i..][1..] == chunks[i + 1..];
  }

  lemma NoReaction(site: Site, pending: string, chunks: seq<string>, text: string)
    requires Unreacted(site, pending, chunks, |chunks|, text)
    ensures HasReacted(site, pending, chunks, FirstReaction(site, pending, chunks), Req.NotParsed, None, text)
  {
    assert chunks[..|chunks|] == chunks && chunks[|chunks|..] == [];
  }

  /** The reaction does not depend on the cutting. */
  lemma ReactionToWhole(site: Site, pending: string, chunks: seq<string>, outcome: Req.Outcome, sent: Option<string>,
                        left: string)
    requires Received(site, pending).None? && !Raises(site, pending)
    requires HasReacted(site, pending, chunks, FirstReaction(site, pending, chunks), outcome, sent, left)
    ensures AsToWhole(site, pending + Concat(chunks), outcome, sent)
  {
    ChunksDoNotMatter(site, pending, chunks);
  }

  ghost predicate AsToWhole(site: Site, whole: string, outcome: Req.Outcome, sent: Option<string>) {
    && (outcome.Parsed? <==> Received(site, whole).Some?) && (outcome.Threw? <==> Raises(site, whole))
    && match Received(site, whole)
       case Some(fields) => sent == Some(Res.Print(Answer(site, fields.path)))
       case None => sent.None?
  }

  /** Chunks arrive in a real buffer, with `onMessage` called for each, until the server reacts: it reacts as
      `FirstReaction` says, and that is how it reacts to the whole text, however it is cut. */
  method Receive(site: Site, buf: Buffer, chunks: seq<string>)
    returns (outcome: Req.Outcome, sent: Option<string>)
    requires buf.Valid() && Received(site, buf.Contents()).None? && !Raises(site, buf.Contents())
    modifies buf, buf.data
    ensures buf.Valid()
    ensures HasReacted(site, old(buf.Contents()), chunks, FirstReaction(site, old(buf.Contents()), chunks),
                       outcome, sent, buf.Contents())
    ensures AsToWhole(site, old(buf.Contents()) + Concat(chunks), outcome, sent)
  {
    ghost var pending := buf.Contents();
    outcome, sent := ReceiveAll(site, buf, chunks);
    ReactionToWhole(site, pending, chunks, outcome, sent, buf.Contents());
  }

  method ReceiveAll(site: Site, buf: Buffer, chunks: seq<string>)
    returns (outcome: Req.Outcome, sent: Option<string>)
    requires buf.Valid()
    modifies buf, buf.data
    ensures buf.Valid()
    ensures HasReacted(site, old(buf.Contents()), chunks, FirstReaction(site, old(buf.Contents()), chunks),
                       outcome, sent, buf.Contents())
  {
    ghost var pending := buf.Contents();
    UnreactedStart(site, pending, chunks);
    outcome, sent := Req.NotParsed, None;
    for i := 0 to |chunks|
      invariant buf.Valid() && (fresh(buf.data) || buf.data == old(buf.data))
      invariant Unreacted(site, pending, chunks, i, buf.Contents()) && sent.None? && outcome.NotParsed?
    {
      ghost var text := buf.Contents();
      outcome, sent := ReceiveOne(site, buf, chunks[i]);
      Onward(site, pending, chunks, i, text, outcome, sent, buf.Contents());
      if !outcome.NotParsed? {
        return outcome, sent;
      }
    }
    NoReaction(site, pending, chunks, buf.Contents());
  }

  lemma NextText(pending: string, chunks: seq<string>)
    requires chunks != []
    ensures pending + Concat(chunks) == (pending + chunks[0]) + Concat(chunks[1..])
  {
  }

  lemma ReceivedExtends(site: Site, s: string, t: string)
    requires Received(site, s).Some?
    ensures Received(site, s + t) == Received(site, s)
  {
    Req.ParsedExtends(Req.FRESH, s, t, site.stoi);
  }

  lemma RaisesExtends(site: Site, s: string, t: string)
    requires Raises(site, s)
    ensures Raises(site, s + t) && Received(site, s + t).None?
  {
    FindCrlfExtends(s, t, 0);
    assert (s + t)[..FindCrlf(s, 0)] == s[..FindCrlf(s, 0)];
  }

  /** How a request is cut into chunks does not matter: the first request answered is the one in the whole text, there
      is one exactly if the whole text holds one, and an exception comes exactly if the whole text raises it. */
  lemma {:induction false} ChunksDoNotMatter(site: Site, pending: string, chunks: seq<string>)
    requires Received(site, pending).None? && !Raises(site, pending)
    ensures var r, whole := FirstReaction(site, pending, chunks), pending + Concat(chunks);
            && (r.Answered? <==> Received(site, whole).Some?) && (r.Raised? <==> Raises(site, whole))
            && (r.Answered? ==> r.fields == Received(site, whole).value)
    decreases |chunks|
  {
    if chunks == [] {
      assert pending + Concat(chunks) == pending;
    } else {
      var next, later := pending + chunks[0], Concat(chunks[1..]);
      NextText(pending, chunks);
      if Received(site, next).Some? {
        ReceivedExtends(site, next, later);
      } else if Raises(site, next) {
        RaisesExtends(site, next, later);
      } else {
        ChunksDoNotMatter(site, next, chunks[1..]);
      }
    }
  }

  /** It is answered with the very chunk that completes the empty line, not before and not later. */
  lemma {:induction false} AnsweredWhenComplete(site: Site, pending: string, chunks: seq<string>)
    requires Received(site, pending).None? && FirstReaction(site, pending, chunks).Answered?
    ensures var whole, n := pending + Concat(chunks), FirstReaction(site, pending, chunks).n;
            0 < n <= |chunks| && FindBlank(whole, 0) < |whole|
            && |pending + Concat(chunks[..n - 1])| < FindBlank(whole, 0) + 4 <= |pending + Concat(chunks[..n])|
    decreases |chunks|
  {
    var next, whole := pending + chunks[0], pending + Concat(chunks);
    NextText(pending, chunks);
    if Received(site, next).Some? {
      CompletedBy(site, pending, chunks[0], Concat(chunks[1..]));
      assert chunks[..1] == [chunks[0]] && chunks[..0] == [];
    } else {
      AnsweredWhenComplete(site, next, chunks[1..]);
      var m := FirstReaction(site, next, chunks[1..]).n;
      FirstChunk(pending, chunks, m);
      FirstChunk(pending, chunks, m - 1);
    }
  }

  lemma FirstChunk(pending: string, chunks: seq<string>, m: nat)
    requires chunks != [] && m < |chunks|
    ensures pending + Concat(chunks[..m + 1]) == (pending + chunks[0]) + Concat(chunks[1..][..m])
  {
    assert chunks[..m + 1][1..] == chunks[1..][..m];
    NextText(pending, chunks[..m + 1]);
  }

  /** A chunk that makes a request complete reaches over the end of its empty line. */
  lemma CompletedBy(site: Site, pending: string, chunk: string, later: string)
    requires Received(site, pending).None? && Received(site, pending + chunk).Some?
    ensures var whole := (pending + chunk) + later;
            FindBlank(whole, 0) < |whole| && |pending| < FindBlank(whole, 0) + 4 <= |pending + chunk|
  {
    var text := pending + chunk;
    assert text[..|pending|] == pending;
    BlankIsThere(site, text);
    Req.ParsedExtends(Req.FRESH, text, later, site.stoi);
    Req.ParsedInPrefixIff(Req.FRESH, text, |pending|, site.stoi);
  }

  /** A client reads the answer back: the headers are the three that are meant, and the body is as long as announced. */
  lemma AnswerReads(site: Site, path: string)
    requires Res.Printable(Res.Header("Content-Type", site.mimeType(path)))
    requires |Answer(site, path).body| < 0x1_0000_0000_0000_0000
    ensures var r := Answer(site, path);
            var s := Res.Print(r);
            ParseFrom(s, |Res.StatusLine(r)|, map[]) == Complete(Res.Expected(r), |s| - |r.body|)
            && s[|s| - |r.body|..] == r.body
            && "Content-Length" in Res.Expected(r) && Res.Expected(r)["Content-Length"] == Res.Decimal(|r.body|)
  {
    var r := Answer(site, path);
    HtmlPrintable();
    Res.PrintThenRead(r);
    Res.OneHeader(r.headers[0]);
    assert r.headers == [r.headers[0]];
  }

  lemma HtmlPrintable()
    ensures Res.Printable(Res.Header("Content-Type", "text/html"))
  {
  }
}
