/**
 The HTTP/1.0 request parser of HttpRequest.cpp, on the text of a whole buffer. `std::stoi` is a
 parameter: it yields a number or, where it throws, nothing.
 */
module HttpRequest {
  import opened Basics
  import opened Buffer
  import opened HttpText

  datatype Method = Invalid | Get

  /** How parsing ends: with a complete request, without one, or with an exception. */
  datatype Outcome = Parsed | NotParsed | Threw

  /** The fields of the request object. */
  datatype Fields = Fields(meth: Method, path: string, query: string, headers: Headers, major: int, minor: int)

  const FRESH := Fields(Invalid, "", "", map[], 1, 0)

  function HexToInt(c: char): (h: int)
    ensures -1 <= h < 16
  {
    if '0' <= c <= '9' then c as int - '0' as int
    else if 'a' <= c <= 'f' then c as int - 'a' as int + 10
    else if 'A' <= c <= 'F' then c as int - 'A' as int + 10
    else -1
  }

  /** `%XX` at the start of a text, with two hexadecimal digits. */
  predicate Escape(s: string) { |s| > 2 && s[0] == '%' && HexToInt(s[1]) >= 0 && HexToInt(s[2]) >= 0 }

  function EscapedChar(s: string): char
    requires Escape(s)
  {
    (16 * HexToInt(s[1]) + HexToInt(s[2])) as char
  }

  /** What a text means with its escapes and plus signs taken as they are meant. */
  function UrlDecoded(s: string): string {
    if s == "" then ""
    else if Escape(s) then [EscapedChar(s)] + UrlDecoded(s[3..])
    else [if s[0] == '+' then ' ' else s[0]] + UrlDecoded(s[1..])
  }

  function HexDigit(h: int): (c: char)
    requires 0 <= h < 16
    ensures HexToInt(c) == h
  {
    if h < 10 then ('0' as int + h) as char else ('A' as int + h - 10) as char
  }

  predicate IsBytes(s: string) { forall i :: 0 <= i < |s| ==> s[i] as int < 256 }

  /** Percent encoding, by a client that leaves some characters plain. */
  function UrlEncoded(s: string, plain: char -> bool): string
    requires IsBytes(s)
  {
    if s == "" then ""
    else if plain(s[0]) then [s[0]] + UrlEncoded(s[1..], plain)
    else ['%', HexDigit(s[0] as int / 16), HexDigit(s[0] as int % 16)] + UrlEncoded(s[1..], plain)
  }

  /** Decoding undoes encoding, whatever is left plain besides the percent and the plus sign. */
  lemma {:induction false} DecodeUndoesEncode(s: string, plain: char -> bool)
    requires IsBytes(s) && !plain('%') && !plain('+')
    ensures UrlDecoded(UrlEncoded(s, plain)) == s
  {
    if s != "" {
      var rest, e := UrlEncoded(s[1..], plain), UrlEncoded(s, plain);
      DecodeUndoesEncode(s[1..], plain);
      if plain(s[0]) {
        assert e[0] == s[0] && e[1..] == rest;
      } else {
        assert e[0] == '%' && e[3..] == rest;
        assert EscapedChar(e) == s[0];
      }
      assert s == [s[0]] + s[1..];
    }
  }

  /** `isspace` in the C locale, which is where `operator>>` splits. */
  predicate IsSpace(c: char) { c == ' ' || 9 <= c as int <= 13 }

  function SkipSpaces(s: string): string { if s != "" && IsSpace(s[0]) then SkipSpaces(s[1..]) else s }

  function WordLength(s: string): (n: nat)
    ensures n <= |s| && forall i :: 0 <= i < n ==> !IsSpace(s[i])
    ensures n < |s| ==> IsSpace(s[n])
  {
    if s == "" || IsSpace(s[0]) then 0 else 1 + WordLength(s[1..])
  }

  /** `operator>>`: the next word, empty if there is none, and what is behind it. */
  function NextWord(s: string): (string, string) {
    var t := SkipSpaces(s);
    (t[..WordLength(t)], t[WordLength(t)..])
  }

  function Words(line: string): (string, string, string) {
    var (meth, rest) := NextWord(line);
    var (path, rest2) := NextWord(rest);
    (meth, path, NextWord(rest2).0)
  }

  /** `find("..") != npos` */
  predicate HasDots(s: string) { exists i, j :: 0 <= i && j == i + 1 < |s| && s[i] == '.' && s[j] == '.' }

  /** The version part of the request line: nothing but an exception, the second number included, stops the parsing. */
  function VersionResult(f: Fields, version: string, stoi: string -> Option<int>): (Fields, Outcome) {
    if |version| < 5 || version[..5] != "HTTP/" then (f, Parsed)
    else
      var verStr := version[5..];
      var dotPos := FindChar(verStr, '.');
      if dotPos == |verStr| then (f, Parsed)
      else if stoi(verStr[..dotPos]).None? then (f, Threw)
      else
        var g := f.(major := stoi(verStr[..dotPos]).value);
        if stoi(verStr[dotPos + 1..]).None? then (g, Threw)
        else (g.(minor := stoi(verStr[dotPos + 1..]).value), Parsed)
  }

  function Target(f: Fields, target: string): Fields {
    var queryPos := FindChar(target, '?');
    var query := if queryPos == |target| then f.query else target[queryPos + 1..];
    f.(path := UrlDecoded(target[..queryPos]), query := query)
  }

  /** `parseRequestLine`: what a line does to the request. */
  function LineResult(f: Fields, line: string, stoi: string -> Option<int>): (Fields, Outcome) {
    var (meth, target, version) := Words(line);
    if version == "" then (f, NotParsed)
    else if meth != "GET" then (f.(meth := Invalid), NotParsed)
    else
      var g := Target(f.(meth := Get), target);
      if HasDots(g.path) then (g, NotParsed)
      else VersionResult(if g.path == "/" then g.(path := "/index.html") else g, version, stoi)
  }

  /** `parseRequest` on a text: the request line up to the first line end, then header lines up to an empty one. */
  function RequestResult(f: Fields, s: string, stoi: string -> Option<int>): (Fields, Outcome) {
    var crlf := FindCrlf(s, 0);
    if crlf == |s| then (f, NotParsed)
    else
      var (g, outcome) := LineResult(f, s[..crlf], stoi);
      if !outcome.Parsed? then (g, outcome)
      else
        var scan := ParseFrom(s, crlf + 2, g.headers);
        (g.(headers := scan.result), if scan.Complete? then Parsed else NotParsed)
  }

  /** A request that is accepted asks, with GET, for a decoded path that does not climb and is not the bare root. */
  lemma AcceptedPath(f: Fields, line: string, stoi: string -> Option<int>)
    requires LineResult(f, line, stoi).1.Parsed?
    ensures LineResult(f, line, stoi).0.meth.Get?
    ensures !HasDots(LineResult(f, line, stoi).0.path) && LineResult(f, line, stoi).0.path != "/"
  {
    var g := Target(f.(meth := Get), Words(line).1);
    var h := if g.path == "/" then g.(path := "/index.html") else g;
    assert !HasDots("/index.html");
    assert VersionResult(h, Words(line).2, stoi).0.path == h.path;
  }

  /** A text holds a complete request exactly if its first line is accepted and the framing search finds an empty
      line. */
  lemma ParsedIff(f: Fields, s: string, stoi: string -> Option<int>)
    ensures RequestResult(f, s, stoi).1.Parsed? <==>
            FindBlank(s, 0) < |s| && LineResult(f, s[..FindCrlf(s, 0)], stoi).1.Parsed?
  {
    LineBeforeBlank(s);
    var crlf := FindCrlf(s, 0);
    if crlf < |s| {
      var g := LineResult(f, s[..crlf], stoi).0;
      StopsAtFirstBlank(s, crlf + 2, g.headers, AddLine);
      FindBlankLater(s, 0, crlf);
    }
  }

  /** Where header parsing stops is just behind the empty line that the framing search finds. */
  lemma ParsedEnd(f: Fields, s: string, stoi: string -> Option<int>)
    requires RequestResult(f, s, stoi).1.Parsed?
    ensures var crlf := FindCrlf(s, 0);
            var scan := ParseFrom(s, crlf + 2, LineResult(f, s[..crlf], stoi).0.headers);
            scan.Complete? && scan.end == FindBlank(s, 0) + 4 <= |s|
  {
    var crlf := FindCrlf(s, 0);
    var g := LineResult(f, s[..crlf], stoi).0;
    LineBeforeBlank(s);
    StopsAtFirstBlank(s, crlf + 2, g.headers, AddLine);
    FindBlankLater(s, 0, crlf);
  }

  /** Bytes behind a complete request never change what was parsed. */
  lemma ParsedExtends(f: Fields, s: string, t: string, stoi: string -> Option<int>)
    requires RequestResult(f, s, stoi).1.Parsed?
    ensures RequestResult(f, s + t, stoi) == RequestResult(f, s, stoi)
    ensures FindBlank(s + t, 0) == FindBlank(s, 0)
  {
    var crlf := FindCrlf(s, 0);
    FindCrlfExtends(s, t, 0);
    assert (s + t)[..crlf] == s[..crlf];
    var g := LineResult(f, s[..crlf], stoi).0;
    ScanExtends(s, t, crlf + 2, g.headers, AddLine);
    ParsedEnd(f, s, stoi);
    ParsedEnd(f, s + t, stoi);
  }

  /** Of a text with a complete request, a prefix holds a complete request exactly if it reaches the end of the empty
      line. */
  lemma ParsedInPrefixIff(f: Fields, s: string, m: nat, stoi: string -> Option<int>)
    requires RequestResult(f, s, stoi).1.Parsed? && m <= |s|
    ensures RequestResult(f, s[..m], stoi).1.Parsed? <==> FindBlank(s, 0) + 4 <= m
  {
    ParsedIff(f, s, stoi);
    ParsedIff(f, s[..m], stoi);
    FindBlankInPrefix(s, m);
    LineBeforeBlank(s);
    if FindBlank(s, 0) + 4 <= m {
      LineInPrefix(s, m);
      assert s[..m][..FindCrlf(s, 0)] == s[..FindCrlf(s, 0)];
    }
  }

  lemma Rejoined(s: string, m: nat)
    requires m <= |s|
    ensures s[..m] + s[m..] == s
  {
  }

  /** And then it is the same request. */
  lemma ParsedInPrefix(f: Fields, s: string, m: nat, stoi: string -> Option<int>)
    requires RequestResult(f, s, stoi).1.Parsed? && FindBlank(s, 0) + 4 <= m <= |s|
    ensures RequestResult(f, s[..m], stoi) == RequestResult(f, s, stoi)
  {
    ParsedInPrefixIff(f, s, m, stoi);
    Rejoined(s, m);
    ParsedExtends(f, s[..m], s[m..], stoi);
  }

  lemma LineInPrefix(s: string, m: nat)
    requires m <= |s| && FindCrlf(s, 0) + 2 <= m
    ensures FindCrlf(s[..m], 0) == FindCrlf(s, 0)
  {
    var crlf := FindCrlf(s, 0);
    assert CrlfAt(s[..m], crlf);
    assert forall q :: 0 <= q < crlf ==> CrlfAt(s[..m], q) == CrlfAt(s, q);
  }

  /** One turn of the loop of `urlDecode`: with `result` already decoded, `piece` comes next, for the first `k`
      characters of `rest`. */
  lemma DecodeOne(result: string, piece: string, rest: string, k: nat)
    requires rest != "" && if Escape(rest) then k == 3 && piece == [EscapedChar(rest)]
                           else k == 1 && piece == [if rest[0] == '+' then ' ' else rest[0]]
    ensures (result + piece) + UrlDecoded(rest[k..]) == result + UrlDecoded(rest)
  {
    var d := UrlDecoded(rest[k..]);
    assert UrlDecoded(rest) == piece + d;
    assert (result + piece) + d == result + (piece + d);
  }

  /** The loop of `urlDecode`. */
  method UrlDecode(input: string) returns (result: string)
    ensures result == UrlDecoded(input)
  {
    result := "";
    var i := 0;
    while i < |input|
      invariant i <= |input| && result + UrlDecoded(input[i..]) == UrlDecoded(input)
      decreases |input| - i
    {
      ghost var start, before, rest := i, result, input[i..];
      if input[i] == '%' && i + 2 < |input| {
        var h, l := HexToInt(input[i + 1]), HexToInt(input[i + 2]);
        if h >= 0 && l >= 0 {
          result := result + [(16 * h + l) as char];
          i := i + 2;
        } else {
          result := result + "%";
        }
      } else if input[i] == '+' {
        result := result + " ";
      } else {
        result := result + [input[i]];
      }
      i := i + 1;
      DecodeOne(before, [result[|result| - 1]], rest, i - start);
      assert rest[i - start..] == input[i..];
    }
  }

  class HttpRequest {
    var meth: Method
    var path: string
    var query: string
    var headers: Headers
    var majorVersion: int
    var minorVersion: int

    ghost function View(): Fields
      reads this
    {
      Fields(meth, path, query, headers, majorVersion, minorVersion)
    }

    constructor ()
      ensures View() == FRESH
    {
      meth, path, query, headers, majorVersion, minorVersion := Invalid, "", "", map[], 1, 0;
    }

    /** `parseHeaders`, on the text from `begin` on. */
    method ParseHeaders(s: string, begin: nat) returns (ok: bool)
      requires begin <= |s|
      modifies this`headers
      ensures ok == ParseFrom(s, begin, old(headers)).Complete? && headers == ParseFrom(s, begin, old(headers)).result
    {
      var current := begin;
      while current < |s|
        invariant begin <= current <= |s| && ParseFrom(s, current, headers) == ParseFrom(s, begin, old(headers))
        decreases |s| - current
      {
        var crlf := FindCrlf(s, current);
        if crlf == |s| {
          return false;
        }
        if crlf == current {
          return true;
        }
        var line := s[current..crlf];
        ParseHeaderLine(line);
        current := crlf + 2;
      }
      ok := false;
    }

    /** The part of the loop of `parseHeaders` that stores one line. */
    method ParseHeaderLine(line: string)
      modifies this`headers
      ensures headers == AddLine(old(headers), line)
    {
      var colonPos := FindChar(line, ':');
      ghost var before, after := headers, AddLine(headers, line);
      if colonPos < |line| {
        var key, value := Trim(line[..colonPos]), Trim(line[colonPos + 1..]);
        assert after == before[key := value];
        headers := headers[key := value];
      } else {
        assert after == before;
      }
    }

    method ParseRequestLine(line: string, stoi: string -> Option<int>) returns (outcome: Outcome)
      modifies this`meth, this`path, this`query, this`majorVersion, this`minorVersion
      ensures (View(), outcome) == LineResult(old(View()), line, stoi)
    {
      var (word, target, version) := Words(line);
      if version == "" {
        return NotParsed;
      }
      if word == "GET" {
        meth := Get;
      } else {
        meth := Invalid;
        return NotParsed;
      }
      ParseTarget(target);
      if HasTwoDots(path) {
        return NotParsed;
      }
      if path == "/" {
        path := "/index.html";
      }
      outcome := ParseVersion(version, stoi);
    }

    /** The query and the decoded path. */
    method ParseTarget(target: string)
      modifies this`path, this`query
      ensures View() == Target(old(View()), target)
    {
      var queryPos := FindChar(target, '?');
      if queryPos < |target| {
        query := target[queryPos + 1..];
        path := target[..queryPos];
      } else {
        path := target;
      }
      path := UrlDecode(path);
      assert queryPos == |target| ==> target[..queryPos] == target;
    }

    method ParseVersion(version: string, stoi: string -> Option<int>) returns (outcome: Outcome)
      modifies this`majorVersion, this`minorVersion
      ensures (View(), outcome) == VersionResult(old(View()), version, stoi)
    {
      if |version| >= 5 && version[..5] == "HTTP/" {
        var verStr := version[5..];
        var dotPos := FindChar(verStr, '.');
        if dotPos < |verStr| {
          if stoi(verStr[..dotPos]).None? {
            return Threw;
          }
          majorVersion := stoi(verStr[..dotPos]).value;
          if stoi(verStr[dotPos + 1..]).None? {
            return Threw;
          }
          minorVersion := stoi(verStr[dotPos + 1..]).value;
        }
      }
      outcome := Parsed;
    }

    /** `parseRequest` */
    method ParseRequest(s: string, stoi: string -> Option<int>) returns (outcome: Outcome)
      modifies this
      ensures (View(), outcome) == RequestResult(old(View()), s, stoi)
    {
      var crlf := FindCrlf(s, 0);
      if crlf == |s| {
        return NotParsed;
      }
      outcome := ParseRequestLine(s[..crlf], stoi);
      if !outcome.Parsed? {
        return outcome;
      }
      var ok := ParseHeaders(s, crlf + 2);
      outcome := if ok then Parsed else NotParsed;
    }
  }

  predicate HasTwoDots(s: string)
    ensures HasTwoDots(s) <==> HasDots(s)
  {
    |s| >= 2 && ((s[0] == '.' && s[1] == '.') || HasTwoDots(s[1..]))
  }
}
