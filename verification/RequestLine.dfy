/**
 Requests as a client writes them, read back: the words of the request line, the path and the query, the version, and
 the header lines behind it.
 */
module RequestLine {
  import opened Basics
  import opened Buffer
  import opened HttpText
  import opened HttpRequest
  import Res = HttpResponse

  // ---------------------------------------------------------------- words

  /** What `operator>>` reads in one piece. */
  predicate IsWord(w: string) { w != "" && NoSpace(w) }

  predicate NoSpace(w: string) { forall i :: 0 <= i < |w| ==> !IsSpace(w[i]) }

  predicate AllSpace(b: string) { forall i :: 0 <= i < |b| ==> IsSpace(b[i]) }

  /** The text ends here, or the word does. */
  predicate EndsWord(rest: string) { rest == "" || IsSpace(rest[0]) }

  lemma {:induction false} SkipBlanks(b: string, w: string)
    requires AllSpace(b) && (w == "" || !IsSpace(w[0]))
    ensures SkipSpaces(b + w) == w
  {
    if b == "" {
      assert b + w == w;
    } else {
      assert (b + w)[1..] == b[1..] + w;
      SkipBlanks(b[1..], w);
    }
  }

  lemma {:induction false} WordEnds(w: string, rest: string)
    requires NoSpace(w) && EndsWord(rest)
    ensures WordLength(w + rest) == |w|
  {
    if w == "" {
      assert w + rest == rest;
    } else {
      assert (w + rest)[1..] == w[1..] + rest;
      WordEnds(w[1..], rest);
    }
  }

  lemma NextWordIs(b: string, w: string, rest: string)
    requires AllSpace(b) && IsWord(w) && EndsWord(rest)
    ensures NextWord(b + (w + rest)) == (w, rest)
  {
    SkipBlanks(b, w + rest);
    WordEnds(w, rest);
    assert (w + rest)[..|w|] == w && (w + rest)[|w|..] == rest;
  }

  lemma NoMoreWords(b: string)
    requires AllSpace(b)
    ensures NextWord(b) == ("", "")
  {
    SkipBlanks(b, "");
    assert b + "" == b;
  }

  /** The words of a line are what stands between its blanks, however many there are. */
  lemma WordsAre(b: string, m: string, b1: string, t: string, b2: string, v: string, rest: string)
    requires IsWord(m) && IsWord(t) && IsWord(v) && AllSpace(b) && AllSpace(b1) && AllSpace(b2) && b1 != "" && b2 != ""
    requires EndsWord(rest)
    ensures Words(b + (m + (b1 + (t + (b2 + (v + rest)))))) == (m, t, v)
  {
    NextWordIs(b2, v, rest);
    NextWordIs(b1, t, b2 + (v + rest));
    NextWordIs(b, m, b1 + (t + (b2 + (v + rest))));
  }

  /** A line of fewer than three words is refused. */
  lemma TooFewWords(f: Fields, m: string, t: string, b1: string, b2: string, stoi: string -> Option<int>)
    requires IsWord(m) && IsWord(t) && AllSpace(b1) && b1 != "" && AllSpace(b2)
    ensures LineResult(f, m + b1, stoi) == (f, NotParsed)
    ensures LineResult(f, m + (b1 + (t + b2)), stoi) == (f, NotParsed)
  {
    assert "" + (m + b1) == m + b1 && "" + (m + (b1 + (t + b2))) == m + (b1 + (t + b2));
    NextWordIs("", m, b1);
    NextWordIs("", m, b1 + (t + b2));
    NextWordIs(b1, t, b2);
    NoMoreWords(b1);
    NoMoreWords(b2);
    NoMoreWords("");
  }

  // ------------------------------------------------------- path and query

  /** The characters a client may leave plain in a path, so that it stays one word and ends at the question mark. */
  predicate MayBePlain(plain: char -> bool) {
    forall c: char :: plain(c) ==> c != '%' && c != '+' && c != '?' && !IsSpace(c)
  }

  lemma {:induction false} EncodedClean(path: string, plain: char -> bool)
    requires IsBytes(path) && MayBePlain(plain)
    ensures var e := UrlEncoded(path, plain); NoSpace(e) && '?' !in e && (e == "" <==> path == "")
  {
    if path != "" {
      EncodedClean(path[1..], plain);
      var e, rest := UrlEncoded(path, plain), UrlEncoded(path[1..], plain);
      if plain(path[0]) {
        assert e == [path[0]] + rest;
      } else {
        var h, l := HexDigit(path[0] as int / 16), HexDigit(path[0] as int % 16);
        assert e == ['%', h, l] + rest;
        assert !IsSpace(h) && !IsSpace(l) && h != '?' && l != '?';
      }
    }
  }

  lemma {:induction false} FoundAt(s: string, c: char, p: nat)
    requires p <= |s| && (p < |s| ==> s[p] == c) && forall q :: 0 <= q < p ==> s[q] != c
    ensures FindChar(s, c) == p
  {
    if p > 0 { FoundAt(s[1..], c, p - 1); }
  }

  /** A target splits at its first question mark, and the path in front of it is decoded. */
  lemma TargetIs(f: Fields, path: string, query: string, plain: char -> bool)
    requires IsBytes(path) && MayBePlain(plain)
    ensures Target(f, UrlEncoded(path, plain) + "?" + query) == f.(path := path, query := query)
    ensures Target(f, UrlEncoded(path, plain)) == f.(path := path)
  {
    var e := UrlEncoded(path, plain);
    EncodedClean(path, plain);
    DecodeUndoesEncode(path, plain);
    var t := e + "?" + query;
    FoundAt(t, '?', |e|);
    FoundAt(e, '?', |e|);
    assert t[..|e|] == e && t[|e| + 1..] == query && e[..|e|] == e;
  }

  /** A plus sign stands for a blank, and an escape that is none for itself. */
  lemma PlusIsBlank(s: string)
    ensures UrlDecoded("+" + s) == " " + UrlDecoded(s)
    ensures !Escape("%" + s) ==> UrlDecoded("%" + s) == "%" + UrlDecoded(s)
  {
    assert ("+" + s)[1..] == s && ("%" + s)[1..] == s;
  }

  /** Digits of either case count. */
  lemma HexValues(h: nat)
    ensures h < 10 ==> HexToInt(('0' as int + h) as char) == h
    ensures h < 6 ==> HexToInt(('a' as int + h) as char) == 10 + h == HexToInt(('A' as int + h) as char)
  {
  }

  // -------------------------------------------------------------- version

  function Version(a: string, b: string): string { "HTTP/" + a + "." + b }

  lemma VersionWord(a: string, b: string)
    requires NoSpace(a) && NoSpace(b)
    ensures IsWord(Version(a, b))
  {
  }

  /** The numbers of a version are read from both sides of its first dot; if one is none, the exception goes out. */
  lemma VersionIs(f: Fields, a: string, b: string, stoi: string -> Option<int>)
    requires '.' !in a
    ensures var (g, outcome) := VersionResult(f, Version(a, b), stoi);
            if stoi(a).None? then g == f && outcome == Threw
            else if stoi(b).None? then g == f.(major := stoi(a).value) && outcome == Threw
            else g == f.(major := stoi(a).value, minor := stoi(b).value) && outcome == Parsed
  {
    var v, n := Version(a, b), a + "." + b;
    assert v[..5] == "HTTP/" && v[5..] == n;
    FoundAt(n, '.', |a|);
    assert n[..|a|] == a && n[|a| + 1..] == b;
  }

  /** Any other third word is accepted and says nothing. */
  lemma OtherVersion(f: Fields, v: string, stoi: string -> Option<int>)
    requires |v| < 5 || v[..5] != "HTTP/" || '.' !in v[5..]
    ensures VersionResult(f, v, stoi) == (f, Parsed)
  {
  }

  // ------------------------------------------------------ the request line

  /** The default document stands for the bare root. */
  function Document(path: string): string { if path == "/" then "/index.html" else path }

  /** The line as a client writes it. */
  function Line(path: string, query: Option<string>, version: string, plain: char -> bool): string
    requires IsBytes(path)
  {
    "GET" + (" " + (WrittenTarget(path, query, plain) + (" " + (version + ""))))
  }

  function WrittenTarget(path: string, query: Option<string>, plain: char -> bool): string
    requires IsBytes(path)
  {
    UrlEncoded(path, plain) + match query case Some(q) => "?" + q case None => ""
  }

  /** A path and a query that fit into a line. */
  predicate Askable(path: string, query: Option<string>) {
    IsBytes(path) && (query.None? ==> path != "") && (query.Some? ==> NoSpace(query.value))
  }

  lemma LineWords(path: string, query: Option<string>, version: string, plain: char -> bool)
    requires Askable(path, query) && MayBePlain(plain) && IsWord(version)
    ensures IsWord(WrittenTarget(path, query, plain))
    ensures Words(Line(path, query, version, plain)) == ("GET", WrittenTarget(path, query, plain), version)
  {
    EncodedClean(path, plain);
    var t := WrittenTarget(path, query, plain);
    assert IsWord("GET");
    WordsAre("", "GET", " ", t, " ", version, "");
    assert "" + Line(path, query, version, plain) == Line(path, query, version, plain);
  }

  /** The round trip of the request line: whatever path, query and version a client writes, the parser takes exactly
      this path and this query, with the default document for the bare root, unless the path climbs; then the line is
      refused. */
  lemma LineRoundTrip(f: Fields, path: string, query: Option<string>, version: string, plain: char -> bool,
                      stoi: string -> Option<int>)
    requires Askable(path, query) && MayBePlain(plain) && IsWord(version)
    ensures var asked := f.(meth := Get, path := Document(path), query := if query.Some? then query.value else f.query);
            if HasDots(path) then LineResult(f, Line(path, query, version, plain), stoi).1 == NotParsed
            else LineResult(f, Line(path, query, version, plain), stoi) == VersionResult(asked, version, stoi)
  {
    LineWords(path, query, version, plain);
    WrittenTargetIs(f.(meth := Get), path, query, plain);
  }

  lemma WrittenTargetIs(f: Fields, path: string, query: Option<string>, plain: char -> bool)
    requires IsBytes(path) && MayBePlain(plain)
    ensures Target(f, WrittenTarget(path, query, plain)) ==
            f.(path := path, query := if query.Some? then query.value else f.query)
  {
    var e := UrlEncoded(path, plain);
    TargetIs(f, path, if query.Some? then query.value else "", plain);
    WithQuery(e, query);
  }

  lemma WithQuery(e: string, query: Option<string>)
    ensures e + (match query case Some(q) => "?" + q case None => "") ==
            if query.Some? then e + "?" + query.value else e
  {
  }

  /** With the numbers of the version. */
  lemma GetRoundTrip(path: string, query: Option<string>, a: string, b: string, plain: char -> bool,
                     stoi: string -> Option<int>)
    requires Askable(path, query) && MayBePlain(plain) && !HasDots(path)
    requires NoSpace(a) && NoSpace(b) && '.' !in a && stoi(a).Some? && stoi(b).Some?
    ensures LineResult(FRESH, Line(path, query, Version(a, b), plain), stoi) ==
            (Asked(path, query, stoi(a).value, stoi(b).value), Parsed)
  {
    var version := Version(a, b);
    VersionWord(a, b);
    LineRoundTrip(FRESH, path, query, version, plain, stoi);
    var asked := FRESH.(meth := Get, path := Document(path), query := if query.Some? then query.value else "");
    VersionIs(asked, a, b, stoi);
  }

  /** The request as it is meant, before its headers. */
  function Asked(path: string, query: Option<string>, major: int, minor: int): Fields {
    Fields(Get, Document(path), if query.Some? then query.value else "", map[], major, minor)
  }

  /** Which lines are accepted: of those with three words, exactly the ones that ask with GET for a path that does not
      climb when decoded, and whose version, if it has numbers, has numbers that can be read. */
  lemma AcceptedIff(f: Fields, line: string, m: string, t: string, v: string, stoi: string -> Option<int>)
    requires Words(line) == (m, t, v) && v != ""
    ensures LineResult(f, line, stoi).1 == NotParsed <==> m != "GET" || HasDots(UrlDecoded(BeforeQuery(t)))
    ensures LineResult(f, line, stoi).1 == Threw <==>
              m == "GET" && !HasDots(UrlDecoded(BeforeQuery(t))) && BadNumbers(v, stoi)
  {
    var g := Target(f.(meth := Get), t);
    FoundAt(t, '?', |BeforeQuery(t)|);
    assert t[..|BeforeQuery(t)|] == BeforeQuery(t);
    VersionOutcome(if g.path == "/" then g.(path := "/index.html") else g, v, stoi);
  }

  lemma VersionOutcome(f: Fields, v: string, stoi: string -> Option<int>)
    ensures VersionResult(f, v, stoi).1 == if BadNumbers(v, stoi) then Threw else Parsed
  {
    if Numbered(v) {
      var n := v[5..];
      var a := FirstPart(n);
      assert v == "HTTP/" + a + "." + n[|a| + 1..];
      VersionIs(f, a, n[|a| + 1..], stoi);
    } else {
      OtherVersion(f, v, stoi);
    }
  }

  /** A text up to the first question mark, or all of it. */
  function BeforeQuery(t: string): (p: string)
    ensures p <= t && '?' !in p && (|p| < |t| ==> t[|p|] == '?')
  {
    if t == "" || t[0] == '?' then "" else [t[0]] + BeforeQuery(t[1..])
  }

  function FirstPart(n: string): (a: string)
    ensures a <= n && '.' !in a && (|a| < |n| <==> '.' in n) && (|a| < |n| ==> n[|a|] == '.')
  {
    if n == "" || n[0] == '.' then "" else [n[0]] + FirstPart(n[1..])
  }

  predicate Numbered(v: string) { |v| >= 5 && v[..5] == "HTTP/" && '.' in v[5..] }

  predicate BadNumbers(v: string, stoi: string -> Option<int>) {
    Numbered(v) && (stoi(FirstPart(v[5..])).None? || stoi(v[5..][|FirstPart(v[5..])| + 1..]).None?)
  }

  // ------------------------------------------------------ the whole request

  lemma WordsNoCrlf(path: string, query: Option<string>, version: string, plain: char -> bool)
    requires Askable(path, query) && MayBePlain(plain) && IsWord(version)
    ensures '\r' !in Line(path, query, version, plain) && Line(path, query, version, plain) != ""
  {
    LineWords(path, query, version, plain);
    var t := WrittenTarget(path, query, plain);
    assert NoSpace("GET") && NoSpace(t) && NoSpace(version);
    assert forall i :: 0 <= i < |t| ==> t[i] != '\r';
    assert forall i :: 0 <= i < |version| ==> version[i] != '\r';
  }

  lemma LineIsFirst(line: string, rest: string)
    requires '\r' !in line
    ensures FindCrlf(line + Res.CRLF + rest, 0) == |line| && (line + Res.CRLF + rest)[..|line|] == line
  {
    var s := line + Res.CRLF + rest;
    assert CrlfAt(s, |line|);
    assert forall q :: 0 <= q < |line| ==> s[q] != '\r';
  }

  /** A whole request as a client writes it, with header lines and any text behind: exactly these fields and headers. */
  lemma RequestRoundTrip(path: string, query: Option<string>, a: string, b: string, plain: char -> bool,
                         hs: seq<Res.Header>, behind: string, stoi: string -> Option<int>)
    requires Askable(path, query) && MayBePlain(plain) && !HasDots(path)
    requires NoSpace(a) && NoSpace(b) && '.' !in a && stoi(a).Some? && stoi(b).Some?
    requires forall i :: 0 <= i < |hs| ==> Readable(hs[i].key, hs[i].value)
    ensures RequestResult(FRESH, RequestText(path, query, a, b, plain, hs, behind), stoi) ==
            (Asked(path, query, stoi(a).value, stoi(b).value).(headers := Res.ToMap(hs)), Parsed)
  {
    var version := Version(a, b);
    VersionWord(a, b);
    WordsNoCrlf(path, query, version, plain);
    GetRoundTrip(path, query, a, b, plain, stoi);
    var line := Line(path, query, version, plain);
    HeadersBehind(line, Asked(path, query, stoi(a).value, stoi(b).value), hs, behind, stoi);
    assert RequestText(path, query, a, b, plain, hs, behind) ==
           (line + Res.CRLF) + Res.Joined(Res.Texts(hs)) + Res.CRLF + behind;
  }

  lemma HeadersBehind(line: string, g: Fields, hs: seq<Res.Header>, behind: string, stoi: string -> Option<int>)
    requires '\r' !in line && LineResult(FRESH, line, stoi) == (g, Parsed) && g.headers == map[]
    requires forall i :: 0 <= i < |hs| ==> Readable(hs[i].key, hs[i].value)
    ensures RequestResult(FRESH, (line + Res.CRLF) + Res.Joined(Res.Texts(hs)) + Res.CRLF + behind, stoi) ==
            (g.(headers := Res.ToMap(hs)), Parsed)
  {
    var joined := Res.Joined(Res.Texts(hs));
    var s := (line + Res.CRLF) + joined + Res.CRLF + behind;
    HeadersScan(line + Res.CRLF, hs, behind);
    Reshape(line, Res.CRLF, joined, behind);
    LineIsFirst(line, joined + Res.CRLF + behind);
    assert |line + Res.CRLF| == |line| + 2 <= |s|;
    LineThenHeaders(s, line, g, Res.ToMap(hs), stoi);
  }

  lemma HeadersScan(start: string, hs: seq<Res.Header>, behind: string)
    requires forall i :: 0 <= i < |hs| ==> Readable(hs[i].key, hs[i].value)
    ensures var s := start + Res.Joined(Res.Texts(hs)) + Res.CRLF + behind;
            && ParseFrom(s, |start|, map[]).Complete? && ParseFrom(s, |start|, map[]).result == Res.ToMap(hs)
  {
    HeaderLines(hs);
    Res.ReadJoined(start, Res.Texts(hs), behind, map[], AddLine);
    HeadersFold(hs);
  }

  lemma HeadersFold(hs: seq<Res.Header>)
    requires forall i :: 0 <= i < |hs| ==> Readable(hs[i].key, hs[i].value)
    ensures Res.Fold(map[], Res.Texts(hs), AddLine) == Res.ToMap(hs)
  {
    var none: Headers := map[];
    Res.FoldReadable(none, hs, Res.Texts(hs));
    NoneBefore(Res.ToMap(hs));
  }

  lemma NoneBefore(headers: Headers)
    ensures map[] + headers == headers
  {
  }

  lemma Reshape(line: string, crlf: string, joined: string, behind: string)
    ensures (line + crlf) + joined + crlf + behind == line + crlf + (joined + crlf + behind)
  {
  }

  lemma LineThenHeaders(s: string, line: string, g: Fields, headers: Headers, stoi: string -> Option<int>)
    requires FindCrlf(s, 0) == |line| && |line| + 2 <= |s| && s[..|line|] == line
    requires LineResult(FRESH, line, stoi) == (g, Parsed) && g.headers == map[]
    requires ParseFrom(s, |line| + 2, map[]).Complete? && ParseFrom(s, |line| + 2, map[]).result == headers
    ensures RequestResult(FRESH, s, stoi) == (g.(headers := headers), Parsed)
  {
  }

  function RequestText(path: string, query: Option<string>, a: string, b: string, plain: char -> bool,
                   hs: seq<Res.Header>, behind: string): string
    requires IsBytes(path)
  {
    (Line(path, query, Version(a, b), plain) + Res.CRLF) + Res.Joined(Res.Texts(hs)) + Res.CRLF + behind
  }

  lemma {:induction false} HeaderLines(hs: seq<Res.Header>)
    requires forall i :: 0 <= i < |hs| ==> Readable(hs[i].key, hs[i].value)
    ensures Res.AllLines(Res.Texts(hs))
  {
    if hs != [] {
      HeaderLines(hs[1..]);
      Res.TextNoCrlf(hs[0]);
      assert Res.Texts(hs)[1..] == Res.Texts(hs[1..]);
    }
  }
}
