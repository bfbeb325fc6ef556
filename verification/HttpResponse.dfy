/**
 The response printer of HttpResponse.cpp, and the round trip: what it prints (section 6 of RFC
 1945) is read back by the header parser.
 */
module HttpResponse {
  import opened Basics
  import opened Buffer
  import opened HttpText

  const CRLF := "\r\n"
  const LINE_BUFFER: nat := 256

  datatype Header = Header(key: string, value: string)

  datatype Response = Response(code: nat, message: string, headers: seq<Header>, body: string, close: bool)

  /** The order in which `std::map` keeps its string keys. */
  predicate Less(a: string, b: string) {
    b != "" && (a == "" || a[0] < b[0] || (a[0] == b[0] && Less(a[1..], b[1..])))
  }

  lemma {:induction false} LessTotal(a: string, b: string)
    ensures Less(a, b) || Less(b, a) || a == b
    ensures !(Less(a, b) && Less(b, a))
  {
    if a != "" && b != "" && a[0] == b[0] {
      LessTotal(a[1..], b[1..]);
      assert a == [a[0]] + a[1..] && b == [b[0]] + b[1..];
    }
  }

  lemma {:induction false} LessTransitive(a: string, b: string, c: string)
    requires Less(a, b) && Less(b, c)
    ensures Less(a, c)
  {
    if a != "" && a[0] == b[0] && b[0] == c[0] { LessTransitive(a[1..], b[1..], c[1..]); }
  }

  /** The entries of a map, in order of their keys. */
  predicate Ascending(hs: seq<Header>) { |hs| < 2 || (Less(hs[0].key, hs[1].key) && Ascending(hs[1..])) }

  function ToMap(hs: seq<Header>): Headers {
    if hs == [] then map[] else map[hs[0].key := hs[0].value] + ToMap(hs[1..])
  }

  /** `headers_[key] = value` */
  function Stored(hs: seq<Header>, h: Header): seq<Header> {
    if hs == [] then [h]
    else if h.key == hs[0].key then [h] + hs[1..]
    else if Less(h.key, hs[0].key) then [h] + hs
    else [hs[0]] + Stored(hs[1..], h)
  }

  lemma {:induction false} BelowAll(hs: seq<Header>, key: string)
    requires Ascending(hs) && (hs != [] ==> Less(key, hs[0].key))
    ensures key !in ToMap(hs)
  {
    if hs != [] {
      LessTotal(key, hs[0].key);
      if |hs| > 1 { LessTransitive(key, hs[0].key, hs[1].key); }
      BelowAll(hs[1..], key);
    }
  }

  lemma {:induction false} StoredFirst(hs: seq<Header>, h: Header)
    ensures Stored(hs, h) != [] && Stored(hs, h)[0].key in {h.key} + if hs == [] then {} else {hs[0].key}
  {
  }

  lemma {:induction false} StoredAscending(hs: seq<Header>, h: Header)
    requires Ascending(hs)
    ensures Ascending(Stored(hs, h))
  {
    if hs != [] {
      var r := Stored(hs, h);
      LessTotal(h.key, hs[0].key);
      if h.key == hs[0].key {
        assert r[1..] == hs[1..];
      } else if Less(h.key, hs[0].key) {
        assert r[1..] == hs;
      } else {
        assert r[1..] == Stored(hs[1..], h);
        StoredAscending(hs[1..], h);
        StoredFirst(hs[1..], h);
      }
    }
  }

  lemma MapOf(h: Header, hs: seq<Header>)
    ensures ToMap([h] + hs) == map[h.key := h.value] + ToMap(hs)
  {
    assert ([h] + hs)[1..] == hs;
  }

  lemma OneHeader(h: Header)
    ensures ToMap([h]) == map[h.key := h.value]
  {
    MapOf(h, []);
    assert [h] + [] == [h];
  }

  lemma MapReplace(k: string, v: string, w: string, m: Headers)
    requires k !in m
    ensures map[k := v] + m == (map[k := w] + m)[k := v] && map[k := v] + m == m[k := v]
  {
  }

  lemma MapThrough(k: string, v: string, m: Headers, n: Headers)
    ensures m + n[k := v] == (m + n)[k := v]
  {
  }

  lemma MapBetween(k: string, v: string, m: Headers, n: Headers)
    ensures m[k := v] + n == m + (map[k := v] + n)
  {
  }

  /** Storing stores: any other key keeps its value. */
  lemma {:induction false} StoredIs(hs: seq<Header>, h: Header)
    requires Ascending(hs)
    ensures ToMap(Stored(hs, h)) == ToMap(hs)[h.key := h.value]
  {
    if hs == [] {
      MapOf(h, []);
    } else {
      var m := ToMap(hs[1..]);
      LessTotal(h.key, hs[0].key);
      if h.key == hs[0].key {
        MapOf(h, hs[1..]);
        BelowRest(hs);
        MapReplace(h.key, h.value, hs[0].value, m);
      } else if Less(h.key, hs[0].key) {
        MapOf(h, hs);
        BelowAll(hs, h.key);
        MapReplace(h.key, h.value, h.value, ToMap(hs));
      } else {
        MapOf(hs[0], Stored(hs[1..], h));
        StoredIs(hs[1..], h);
        MapThrough(h.key, h.value, map[hs[0].key := hs[0].value], m);
      }
    }
  }

  lemma BelowRest(hs: seq<Header>)
    requires Ascending(hs) && hs != []
    ensures hs[0].key !in ToMap(hs[1..])
  {
    BelowAll(hs[1..], hs[0].key);
  }

  /** `c_str()` of a string, as `%s` prints it. */
  function CString(s: string): string { s[..FindChar(s, '\0')] }

  /** What `snprintf` leaves in the line buffer: one character less than fits is kept. */
  function Snprintf(text: string): string { text[..Min(|text|, LINE_BUFFER - 1)] }

  function Decimal(n: nat): string {
    if n < 10 then [('0' as int + n) as char] else Decimal(n / 10) + [('0' as int + n % 10) as char]
  }

  function StatusMessageForCode(code: nat): string {
    if code == 200 then "OK"
    else if code == 400 then "Bad Request"
    else if code == 404 then "Not Found"
    else if code == 500 then "Internal Server Error"
    else "Unknown"
  }

  function StatusLine(r: Response): string {
    var msg := if r.message == "" then StatusMessageForCode(r.code) else r.message;
    Snprintf("HTTP/1.0 " + Decimal(r.code) + " " + CString(msg) + CRLF)
  }

  function HeaderText(h: Header): string { h.key + ": " + h.value }

  function HeaderLine(h: Header): string { Snprintf(HeaderText(Header(CString(h.key), CString(h.value))) + CRLF) }

  function Lines(hs: seq<Header>): (ls: seq<string>)
    ensures |ls| == |hs| && forall i :: 0 <= i < |hs| ==> ls[i] == HeaderLine(hs[i])
  {
    seq(|hs|, i requires 0 <= i < |hs| => HeaderLine(hs[i]))
  }

  function Flat(ls: seq<string>): string { if ls == [] then "" else ls[0] + Flat(ls[1..]) }

  const CONNECTION_CLOSE := Header("Connection", "close")

  function ContentLength(r: Response): Header { Header("Content-Length", Decimal(|r.body|)) }

  function Defaults(r: Response): seq<Header> {
    (if r.close then [CONNECTION_CLOSE] else []) + [ContentLength(r)]
  }

  /** The header lines in the order they are printed. */
  function Printed(r: Response): seq<Header> { Defaults(r) + r.headers }

  function Print(r: Response): string { StatusLine(r) + Flat(Lines(Printed(r))) + CRLF + r.body }

  /** The headers a reader should find: the two defaults, overridden by the custom ones. */
  function Expected(r: Response): Headers {
    (if r.close then map["Connection" := "close"] else map[])
    + map["Content-Length" := Decimal(|r.body|)] + ToMap(r.headers)
  }

  /** The line of a header, with its end, fits the line buffer. */
  predicate Fits(h: Header) { |HeaderText(h)| + 2 < LINE_BUFFER }

  /** A header that could be read, and that C strings carry. */
  predicate Plain(h: Header) { Readable(h.key, h.value) && '\0' !in h.key && '\0' !in h.value }

  /** A header that survives printing. */
  predicate Printable(h: Header) { Plain(h) && Fits(h) }

  lemma PlainCString(s: string)
    requires '\0' !in s
    ensures CString(s) == s
  {
  }

  lemma PrintableLine(h: Header)
    requires Printable(h)
    ensures HeaderLine(h) == HeaderText(h) + CRLF
  {
    PlainCString(h.key);
    PlainCString(h.value);
  }

  /** Joining the parts of a header line makes no line end. */
  lemma TextNoCrlf(h: Header)
    requires Readable(h.key, h.value)
    ensures NoCrlf(HeaderText(h) + "\r") && NoCrlf(HeaderText(h))
  {
    var k := |h.key|;
    var text := HeaderText(h) + "\r";
    forall p | 0 <= p < |text| ensures !CrlfAt(text, p) {
      if p + 1 < k { assert !CrlfAt(h.key, p); }
      else if p >= k + 2 && p + 1 < |text| - 1 { assert !CrlfAt(h.value, p - k - 2); }
    }
    forall p | 0 <= p < |text| - 1 ensures !CrlfAt(HeaderText(h), p) {
      assert !CrlfAt(text, p);
    }
  }

  lemma FindCharIs(s: string, c: char, p: nat)
    requires p < |s| && s[p] == c && forall q :: 0 <= q < p ==> s[q] != c
    ensures FindChar(s, c) == p
  {
  }

  lemma SplitText(h: Header)
    requires ':' !in h.key
    ensures var line, k := HeaderText(h), |h.key|;
            FindChar(line, ':') == k && line[..k] == h.key && line[k + 1..] == " " + h.value
  {
    FindCharIs(HeaderText(h), ':', |h.key|);
  }

  lemma TrimParts(h: Header)
    requires Trimmed(h.key) && Trimmed(h.value)
    ensures Trim(h.key) == h.key && Trim(" " + h.value) == h.value
  {
    assert "" + h.key + "" == h.key && " " + h.value + "" == " " + h.value;
    TrimOf("", h.key, "");
    TrimOf(" ", h.value, "");
  }

  /** The parser takes a header line apart where the printer put it together. */
  lemma AddHeaderText(headers: Headers, h: Header)
    requires Readable(h.key, h.value)
    ensures AddLine(headers, HeaderText(h)) == headers[h.key := h.value]
  {
    SplitText(h);
    TrimParts(h);
  }

  lemma LineEnd(s: string, current: nat, line: string, rest: string)
    requires current <= |s| && s[current..] == line + CRLF + rest && NoCrlf(line)
    ensures FindCrlf(s, current) == current + |line|
  {
    var end := current + |line|;
    forall i | 0 <= i < |line| + 2 ensures s[current + i] == (line + CRLF)[i] {
      assert s[current + i] == s[current..][i];
    }
    assert CrlfAt(s, end) by {
      assert s[end] == (line + CRLF)[|line|] && s[end + 1] == (line + CRLF)[|line| + 1];
    }
    forall p | current <= p < end ensures !CrlfAt(s, p) {
      assert !CrlfAt(line, p - current);
      assert s[p] == (line + CRLF)[p - current] && s[p + 1] == (line + CRLF)[p + 1 - current];
    }
  }

  lemma SliceOfSuffix(s: string, current: nat, line: string, rest: string)
    requires current <= |s| && s[current..] == line + CRLF + rest
    ensures s[current..current + |line|] == line && s[current + |line| + 2..] == rest
  {
    assert s[current + |line| + 2..] == s[current..][|line| + 2..];
    assert s[current..current + |line|] == s[current..][..|line|];
  }

  lemma ReadBlank<A>(s: string, current: nat, result: A, add: (A, string) -> A, rest: string)
    requires current <= |s| && s[current..] == CRLF + rest
    ensures ScanLines(s, current, result, add) == Complete(result, |s| - |rest|) && s[|s| - |rest|..] == rest
  {
    assert s[current..] == "" + CRLF + rest;
    LineEnd(s, current, "", rest);
    assert s[current + 2..] == s[current..][2..];
  }

  function Joined(ls: seq<string>): string { if ls == [] then "" else (ls[0] + CRLF) + Joined(ls[1..]) }

  function Fold<A>(result: A, ls: seq<string>, add: (A, string) -> A): A {
    if ls == [] then result else Fold(add(result, ls[0]), ls[1..], add)
  }

  lemma Associate(a: string, b: string, c: string)
    ensures (a + b) + c == a + (b + c)
  {
  }

  lemma JoinedStep(ls: seq<string>, rest: string)
    requires ls != []
    ensures Joined(ls) + rest == ls[0] + CRLF + (Joined(ls[1..]) + rest)
  {
    Associate(ls[0] + CRLF, Joined(ls[1..]), rest);
  }

  predicate IsLine(l: string) { l != "" && NoCrlf(l) }

  predicate AllLines(ls: seq<string>) { ls == [] || (IsLine(ls[0]) && AllLines(ls[1..])) }

  /** At this position the text has this line, not empty and properly ended. */
  predicate LineAt(s: string, current: nat, line: string) {
    && current <= |s| && FindCrlf(s, current) == current + |line| < |s|
    && line != "" && s[current..current + |line|] == line
  }

  predicate LinesAt(s: string, current: nat, ls: seq<string>)
    decreases |ls|
  {
    current <= |s| && (ls == [] || (LineAt(s, current, ls[0]) && LinesAt(s, current + |ls[0]| + 2, ls[1..])))
  }

  function LinesEnd(current: nat, ls: seq<string>): nat
    decreases |ls|
  {
    if ls == [] then current else LinesEnd(current + |ls[0]| + 2, ls[1..])
  }

  lemma FirstLineAt(s: string, current: nat, line: string, rest: string)
    requires current <= |s| && s[current..] == line + CRLF + rest && IsLine(line)
    ensures LineAt(s, current, line) && current + |line| + 2 <= |s| && s[current + |line| + 2..] == rest
  {
    LineEnd(s, current, line, rest);
    SliceOfSuffix(s, current, line, rest);
  }

  /** Lines joined are lines one after the other. */
  lemma {:induction false} JoinedLinesAt(s: string, current: nat, ls: seq<string>, rest: string)
    requires current <= |s| && s[current..] == Joined(ls) + rest && AllLines(ls)
    ensures LinesAt(s, current, ls) && LinesEnd(current, ls) == |s| - |rest|
    decreases |ls|
  {
    if ls != [] {
      JoinedStep(ls, rest);
      FirstLineAt(s, current, ls[0], Joined(ls[1..]) + rest);
      JoinedLinesAt(s, current + |ls[0]| + 2, ls[1..], rest);
    }
  }

  /** Reading goes over lines one after the other. */
  lemma {:induction false} ReadLines<A>(s: string, current: nat, result: A, add: (A, string) -> A, ls: seq<string>)
    requires LinesAt(s, current, ls)
    ensures LinesEnd(current, ls) <= |s|
    ensures ScanLines(s, current, result, add) == ScanLines(s, LinesEnd(current, ls), Fold(result, ls, add), add)
    decreases |ls|
  {
    if ls != [] {
      ReadLines(s, current + |ls[0]| + 2, add(result, ls[0]), add, ls[1..]);
    }
  }

  function Texts(hs: seq<Header>): (ts: seq<string>)
    ensures |ts| == |hs| && forall i :: 0 <= i < |hs| ==> ts[i] == HeaderText(hs[i])
  {
    seq(|hs|, i requires 0 <= i < |hs| => HeaderText(hs[i]))
  }

  predicate AllPrintable(hs: seq<Header>) { forall i :: 0 <= i < |hs| ==> Printable(hs[i]) }

  lemma {:induction false} FlatIsJoined(ls: seq<string>, ts: seq<string>)
    requires |ls| == |ts| && forall i :: 0 <= i < |ls| ==> ls[i] == ts[i] + CRLF && IsLine(ts[i])
    ensures Flat(ls) == Joined(ts) && AllLines(ts)
  {
    if ls != [] { FlatIsJoined(ls[1..], ts[1..]); }
  }

  lemma PrintableLines(hs: seq<Header>)
    requires AllPrintable(hs)
    ensures Flat(Lines(hs)) == Joined(Texts(hs)) && AllLines(Texts(hs))
  {
    forall i | 0 <= i < |hs| ensures Lines(hs)[i] == Texts(hs)[i] + CRLF && IsLine(Texts(hs)[i]) {
      PrintableLine(hs[i]);
      TextNoCrlf(hs[i]);
    }
    FlatIsJoined(Lines(hs), Texts(hs));
  }

  /** Later headers override earlier ones, as storing them one by one does. */
  lemma {:induction false} FoldHeaders(headers: Headers, hs: seq<Header>, ts: seq<string>,
                                    add: (Headers, string) -> Headers)
    requires |ts| == |hs|
    requires forall g, i :: 0 <= i < |hs| ==> add(g, ts[i]) == g[hs[i].key := hs[i].value]
    ensures Fold(headers, ts, add) == headers + ToMap(hs)
    decreases |hs|
  {
    if hs == [] {
      assert headers + ToMap(hs) == headers;
    } else {
      var next := headers[hs[0].key := hs[0].value];
      assert add(headers, ts[0]) == next;
      FoldHeaders(next, hs[1..], ts[1..], add);
      MapBetween(hs[0].key, hs[0].value, headers, ToMap(hs[1..]));
    }
  }

  lemma FoldReadable(headers: Headers, hs: seq<Header>, ts: seq<string>)
    requires |ts| == |hs|
    requires forall i :: 0 <= i < |hs| ==> Readable(hs[i].key, hs[i].value) && ts[i] == HeaderText(hs[i])
    ensures Fold(headers, ts, AddLine) == headers + ToMap(hs)
  {
    forall g, i | 0 <= i < |hs| ensures AddLine(g, ts[i]) == g[hs[i].key := hs[i].value] {
      AddHeaderText(g, hs[i]);
    }
    FoldHeaders(headers, hs, ts, AddLine);
  }

  predicate Digits(s: string) { s != "" && forall i :: 0 <= i < |s| ==> '0' <= s[i] <= '9' }

  function DecimalValue(s: string): nat
    requires forall i :: 0 <= i < |s| ==> '0' <= s[i] <= '9'
  {
    if s == "" then 0 else 10 * DecimalValue(s[..|s| - 1]) + (s[|s| - 1] as int - '0' as int)
  }

  lemma DecimalLonger(n: nat)
    ensures |Decimal(n)| <= |Decimal(n / 1000)| + 3
  {
    assert n / 10 / 10 / 10 == n / 1000;
    assert |Decimal(n)| <= |Decimal(n / 10)| + 1;
    assert |Decimal(n / 10)| <= |Decimal(n / 10 / 10)| + 1;
    assert |Decimal(n / 10 / 10)| <= |Decimal(n / 10 / 10 / 10)| + 1;
  }

  /** A `size_t` takes few digits. */
  lemma DecimalShort(n: nat)
    requires n < 0x1_0000_0000_0000_0000
    ensures |Decimal(n)| <= 22
  {
    var a := n / 1000;
    var b, c := a / 1000, a / 1000 / 1000;
    var d, e := c / 1000, c / 1000 / 1000;
    DecimalLonger(n);
    DecimalLonger(a);
    DecimalLonger(b);
    DecimalLonger(c);
    DecimalLonger(d);
    DecimalLonger(e);
    assert e / 1000 < 100;
  }

  /** `%zu` prints digits, and they are those of the number. */
  lemma {:induction false} DecimalIs(n: nat)
    ensures Digits(Decimal(n)) && DecimalValue(Decimal(n)) == n
  {
    var d := Decimal(n);
    if n < 10 {
      assert d[..|d| - 1] == "";
    } else {
      DecimalIs(n / 10);
      assert d[..|d| - 1] == Decimal(n / 10);
    }
  }

  lemma ClosePrintable()
    ensures Printable(CONNECTION_CLOSE)
  {
  }

  lemma DigitsPrintable(key: string, d: string)
    requires Digits(d) && |key| + |d| < 200 && Printable(Header(key, ""))
    ensures Printable(Header(key, d))
  {
  }

  lemma LengthPrintable(r: Response)
    requires |r.body| < 0x1_0000_0000_0000_0000
    ensures Printable(ContentLength(r))
  {
    assert Printable(Header("Content-Length", ""));
    DecimalShort(|r.body|);
    DecimalIs(|r.body|);
    DigitsPrintable("Content-Length", Decimal(|r.body|));
  }

  lemma DefaultsPrintable(r: Response)
    requires |r.body| < 0x1_0000_0000_0000_0000
    ensures AllPrintable(Defaults(r))
  {
    ClosePrintable();
    LengthPrintable(r);
  }

  lemma MapAssociate(a: Headers, b: Headers, c: Headers)
    ensures a + (b + c) == (a + b) + c
  {
  }

  lemma {:induction false} ToMapConcat(a: seq<Header>, b: seq<Header>)
    ensures ToMap(a + b) == ToMap(a) + ToMap(b)
  {
    if a == [] {
      assert a + b == b;
      assert ToMap(a) + ToMap(b) == ToMap(b);
    } else {
      var first := map[a[0].key := a[0].value];
      ToMapConcat(a[1..], b);
      assert a + b == [a[0]] + (a[1..] + b);
      MapOf(a[0], a[1..] + b);
      MapAssociate(first, ToMap(a[1..]), ToMap(b));
    }
  }

  lemma PrintedMeans(r: Response)
    ensures ToMap(Printed(r)) == Expected(r)
  {
    var first := if r.close then [CONNECTION_CLOSE] else [];
    ToMapConcat(Defaults(r), r.headers);
    ToMapConcat(first, [ContentLength(r)]);
  }

  /** The length of the body, as a reader finds it when no custom header overrides it. */
  lemma ExpectedLength(r: Response)
    requires "Content-Length" !in ToMap(r.headers)
    ensures "Content-Length" in Expected(r) && Digits(Expected(r)["Content-Length"])
    ensures DecimalValue(Expected(r)["Content-Length"]) == |r.body|
  {
    DecimalIs(|r.body|);
  }

  lemma Behind(a: string, b: string, c: string, d: string)
    ensures (a + b + c + d)[|a|..] == b + (c + d) && (a + b + c + d)[|a| + |b|..] == c + d
    ensures |a + b + c + d| == |a| + |b| + |c| + |d|
  {
  }

  /** Reading lines that are joined behind a start, up to the empty line before a body. */
  lemma ReadJoined<A>(start: string, ts: seq<string>, body: string, result: A, add: (A, string) -> A)
    requires AllLines(ts)
    ensures var s := start + Joined(ts) + CRLF + body;
            ScanLines(s, |start|, result, add) == Complete(Fold(result, ts, add), |s| - |body|)
            && s[|s| - |body|..] == body
  {
    var s := start + Joined(ts) + CRLF + body;
    Behind(start, Joined(ts), CRLF, body);
    JoinedLinesAt(s, |start|, ts, CRLF + body);
    ReadLines(s, |start|, result, add, ts);
    ReadBlank(s, |start| + |Joined(ts)|, Fold(result, ts, add), add, body);
  }

  lemma AllPrinted(r: Response)
    requires |r.body| < 0x1_0000_0000_0000_0000 && AllPrintable(r.headers)
    ensures AllPrintable(Printed(r))
  {
    DefaultsPrintable(r);
  }

  lemma PrintableAre(hs: seq<Header>) returns (ts: seq<string>)
    requires AllPrintable(hs)
    ensures AllLines(ts) && Flat(Lines(hs)) == Joined(ts) && Fold(map[], ts, AddLine) == ToMap(hs)
  {
    ts := Texts(hs);
    PrintableLines(hs);
    FoldReadable(map[], hs, ts);
    assert map[] + ToMap(hs) == ToMap(hs);
  }

  /** What is printed behind the status line are joined lines, and taking them apart gives the expected headers. */
  lemma PrintedAre(r: Response) returns (ts: seq<string>)
    requires |r.body| < 0x1_0000_0000_0000_0000 && AllPrintable(r.headers)
    ensures AllLines(ts) && Flat(Lines(Printed(r))) == Joined(ts) && Fold(map[], ts, AddLine) == Expected(r)
  {
    AllPrinted(r);
    PrintedMeans(r);
    ts := PrintableAre(Printed(r));
  }

  /** Printing, then reading from behind the status line: the headers come back, and what follows them is the body,
      whatever the body contains. */
  lemma PrintThenRead(r: Response)
    requires |r.body| < 0x1_0000_0000_0000_0000 && AllPrintable(r.headers)
    ensures var s := Print(r);
            ParseFrom(s, |StatusLine(r)|, map[]) == Complete(Expected(r), |s| - |r.body|)
            && s[|s| - |r.body|..] == r.body
  {
    var ts := PrintedAre(r);
    var start: string, body: string := StatusLine(r), r.body;
    ReadJoined(start, ts, body, map[], AddLine);
  }

  lemma {:induction false} FlatConcat(a: seq<string>, b: seq<string>)
    ensures Flat(a + b) == Flat(a) + Flat(b)
  {
    if a == [] {
      assert a + b == b;
    } else {
      FlatConcat(a[1..], b);
      assert (a + b)[0] == a[0] && (a + b)[1..] == a[1..] + b;
      assert (a[0] + Flat(a[1..])) + Flat(b) == a[0] + (Flat(a[1..]) + Flat(b));
    }
  }

  lemma LinesConcat(a: seq<Header>, b: seq<Header>)
    ensures Flat(Lines(a + b)) == Flat(Lines(a)) + Flat(Lines(b))
  {
    assert Lines(a + b) == Lines(a) + Lines(b);
    FlatConcat(Lines(a), Lines(b));
  }

  lemma LinesAppend(hs: seq<Header>, h: Header)
    ensures Flat(Lines(hs + [h])) == Flat(Lines(hs)) + HeaderLine(h)
  {
    LinesConcat(hs, [h]);
    assert Lines([h])[1..] == [];
  }

  lemma LengthLine(r: Response)
    ensures HeaderLine(ContentLength(r)) == Snprintf(HeaderText(ContentLength(r)) + CRLF)
  {
    DecimalIs(|r.body|);
    PlainCString(Decimal(|r.body|));
    PlainCString("Content-Length");
  }

  lemma SingleLine(h: Header)
    ensures Flat(Lines([h])) == HeaderLine(h)
  {
    assert Lines([h])[1..] == [];
  }

  function CloseText(r: Response): string { if r.close then HeaderText(CONNECTION_CLOSE) + CRLF else "" }

  function LengthText(r: Response): string { Snprintf(HeaderText(ContentLength(r)) + CRLF) }

  /** The lines the printer writes for the defaults, the first one without going through the line buffer. */
  lemma DefaultLines(r: Response)
    ensures Flat(Lines(Defaults(r))) == CloseText(r) + LengthText(r)
  {
    LengthLine(r);
    SingleLine(ContentLength(r));
    if r.close {
      ClosePrintable();
      PrintableLine(CONNECTION_CLOSE);
      SingleLine(CONNECTION_CLOSE);
      LinesConcat([CONNECTION_CLOSE], [ContentLength(r)]);
    } else {
      assert Defaults(r) == [ContentLength(r)];
    }
  }

  class HttpResponse {
    var statusCode: nat
    var statusMessage: string
    var headers: seq<Header>     // the entries of the map, in order
    var body: string
    var closeConnection: bool

    ghost function View(): Response
      reads this
    {
      Response(statusCode, statusMessage, headers, body, closeConnection)
    }

    constructor (close: bool)
      ensures View() == Response(200, "", [], "", close)
    {
      statusCode, statusMessage, headers, body, closeConnection := 200, "", [], "", close;
    }

    /** `addHeader`, for one key the last value counts. */
    method AddHeader(key: string, value: string)
      requires Ascending(headers)
      modifies this`headers
      ensures Ascending(headers) && headers == Stored(old(headers), Header(key, value))
      ensures ToMap(headers) == ToMap(old(headers))[key := value]
    {
      StoredAscending(headers, Header(key, value));
      StoredIs(headers, Header(key, value));
      headers := Stored(headers, Header(key, value));
    }

    /** `appendToBuffer` */
    method AppendToBuffer(output: Buffer)
      requires output.Valid()
      modifies output, output.data
      ensures output.Valid() && (fresh(output.data) || output.data == old(output.data))
      ensures output.Contents() == old(output.Contents()) + Print(View())
    {
      ghost var was, r := output.Contents(), View();
      AppendStatusLine(output);
      ghost var lines := AppendLines(output);
      output.Append(CRLF);
      output.Append(body);
      assert View() == r;
      Reassociate(was, StatusLine(r), lines, CRLF, body, Print(r));
    }

    /** All the header lines. */
    method AppendLines(output: Buffer) returns (ghost lines: string)
      requires output.Valid()
      modifies output, output.data
      ensures output.Valid() && (fresh(output.data) || output.data == old(output.data))
      ensures lines == Flat(Lines(Printed(View()))) && output.Contents() == old(output.Contents()) + lines
    {
      ghost var was, r := output.Contents(), View();
      ghost var defaults, custom := Flat(Lines(Defaults(r))), Flat(Lines(headers));
      lines := defaults + custom;
      LinesConcat(Defaults(r), headers);
      Associate(was, defaults, custom);
      AppendDefaults(output);
      assert View() == r && output.Contents() == was + defaults;
      AppendHeaders(headers, output);
      assert View() == r && output.Contents() == (was + defaults) + custom;
    }

    method AppendStatusLine(output: Buffer)
      requires output.Valid()
      modifies output, output.data
      ensures output.Valid() && (fresh(output.data) || output.data == old(output.data))
      ensures output.Contents() == old(output.Contents()) + StatusLine(View())
    {
      var msg := if statusMessage == "" then StatusMessageForCode(statusCode) else statusMessage;
      output.Append(Snprintf("HTTP/1.0 " + Decimal(statusCode) + " " + CString(msg) + CRLF));
    }

    method AppendDefaults(output: Buffer)
      requires output.Valid()
      modifies output, output.data
      ensures output.Valid() && (fresh(output.data) || output.data == old(output.data))
      ensures output.Contents() == old(output.Contents()) + Flat(Lines(Defaults(View())))
    {
      ghost var was, r := output.Contents(), View();
      AppendClose(output);
      AppendLength(output);
      DefaultLines(r);
      Associate(was, CloseText(r), LengthText(r));
    }

    method AppendClose(output: Buffer)
      requires output.Valid()
      modifies output, output.data
      ensures output.Valid() && (fresh(output.data) || output.data == old(output.data))
      ensures output.Contents() == old(output.Contents()) + CloseText(View())
    {
      if closeConnection {
        output.Append(HeaderText(CONNECTION_CLOSE) + CRLF);
      }
    }

    method AppendLength(output: Buffer)
      requires output.Valid()
      modifies output, output.data
      ensures output.Valid() && (fresh(output.data) || output.data == old(output.data))
      ensures output.Contents() == old(output.Contents()) + LengthText(View())
    {
      output.Append(Snprintf("Content-Length" + ": " + Decimal(|body|) + CRLF));
    }
  }

  lemma Reassociate(a: string, b: string, c: string, d: string, e: string, printed: string)
    requires printed == b + c + d + e
    ensures (((a + b) + c) + d) + e == a + printed
  {
  }

  /** The loop of `appendToBuffer` over the custom headers. */
  method AppendHeaders(headers: seq<Header>, output: Buffer)
    requires output.Valid()
    modifies output, output.data
    ensures output.Valid() && (fresh(output.data) || output.data == old(output.data))
    ensures output.Contents() == old(output.Contents()) + Flat(Lines(headers))
  {
    for i := 0 to |headers|
      invariant output.Valid() && (fresh(output.data) || output.data == old(output.data))
      invariant output.Contents() == old(output.Contents()) + Flat(Lines(headers[..i]))
    {
      var line := Snprintf(CString(headers[i].key) + ": " + CString(headers[i].value) + CRLF);
      assert line == HeaderLine(headers[i]);
      output.Append(line);
      LinesAppend(headers[..i], headers[i]);
      assert headers[..i + 1] == headers[..i] + [headers[i]];
      Associate(old(output.Contents()), Flat(Lines(headers[..i])), line);
    }
    assert headers[..|headers|] == headers;
  }
}
