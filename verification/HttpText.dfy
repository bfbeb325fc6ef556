/**
 Header lines as `HttpRequest::parseHeaders` reads them, and the framing search of
 `HttpServer::onMessage`. HTTP/1.0 (section 5 of RFC 1945) ends a header section with an empty line.
 */
module HttpText {
  import opened Buffer

  type Headers = map<string, string>

  /** `std::search` for a line end, from a position on; the length of the text if there is none. */
  function FindCrlf(s: string, from: nat): (p: nat)
    requires from <= |s|
    ensures from <= p <= |s| && (p < |s| ==> CrlfAt(s, p))
    ensures forall q :: from <= q < p ==> !CrlfAt(s, q)
    decreases |s| - from
  {
    if from == |s| || CrlfAt(s, from) then from else FindCrlf(s, from + 1)
  }

  predicate BlankAt(s: string, p: nat) { CrlfAt(s, p) && CrlfAt(s, p + 2) }

  /** `std::search` for two line ends in a row. */
  function FindBlank(s: string, from: nat): (p: nat)
    requires from <= |s|
    ensures from <= p <= |s| && (p < |s| ==> BlankAt(s, p))
    ensures forall q :: from <= q < p ==> !BlankAt(s, q)
    decreases |s| - from
  {
    if from == |s| || BlankAt(s, from) then from else FindBlank(s, from + 1)
  }

  function FindChar(s: string, c: char): (p: nat)
    ensures p <= |s| && (p < |s| ==> s[p] == c)
    ensures forall q :: 0 <= q < p ==> s[q] != c
  {
    if s == "" || s[0] == c then 0 else 1 + FindChar(s[1..], c)
  }

  predicate Blank(c: char) { c == ' ' || c == '\t' }

  function TrimLeft(s: string): (t: string)
    ensures t != "" ==> !Blank(t[0])
  {
    if s != "" && Blank(s[0]) then TrimLeft(s[1..]) else s
  }

  function TrimRight(s: string): (t: string)
    ensures t != "" ==> !Blank(t[|t| - 1])
    ensures t != "" ==> s != "" && t[0] == s[0]
  {
    if s != "" && Blank(s[|s| - 1]) then TrimRight(s[..|s| - 1]) else s
  }

  function Trim(s: string): string { TrimRight(TrimLeft(s)) }

  predicate Trimmed(s: string) { s != "" ==> !Blank(s[0]) && !Blank(s[|s| - 1]) }

  lemma TrimIsTrimmed(s: string)
    ensures Trimmed(Trim(s))
  {
  }

  lemma {:induction false} TrimLeftOf(a: string, t: string)
    requires (t != "" ==> !Blank(t[0])) && forall i :: 0 <= i < |a| ==> Blank(a[i])
    ensures TrimLeft(a + t) == t
  {
    if a == "" {
      assert a + t == t;
    } else {
      assert (a + t)[0] == a[0] && (a + t)[1..] == a[1..] + t;
      TrimLeftOf(a[1..], t);
    }
  }

  lemma {:induction false} TrimRightOf(t: string, b: string)
    requires (t != "" ==> !Blank(t[|t| - 1])) && forall i :: 0 <= i < |b| ==> Blank(b[i])
    ensures TrimRight(t + b) == t
  {
    if b == "" {
      assert t + b == t;
    } else {
      assert (t + b)[|t + b| - 1] == b[|b| - 1] && (t + b)[..|t + b| - 1] == t + b[..|b| - 1];
      TrimRightOf(t, b[..|b| - 1]);
    }
  }

  /** Trimming takes away exactly the blanks in front and behind. */
  lemma TrimOf(a: string, t: string, b: string)
    requires Trimmed(t) && (forall i :: 0 <= i < |a| ==> Blank(a[i])) && forall i :: 0 <= i < |b| ==> Blank(b[i])
    ensures Trim(a + t + b) == t
  {
    if t == "" {
      assert a + t + b == (a + b) + "";
      TrimLeftOf(a + b, "");
    } else {
      assert a + t + b == a + (t + b);
      TrimLeftOf(a, t + b);
      TrimRightOf(t, b);
    }
  }

  /** One header line: what is before the first colon is the key; a line without a colon is skipped. */
  function AddLine(headers: Headers, line: string): (r: Headers) {
    var colon := FindChar(line, ':');
    if colon == |line| then headers else headers[Trim(line[..colon]) := Trim(line[colon + 1..])]
  }

  /** How reading lines ends: without an empty line, or just behind one. */
  datatype Scan<A> = Incomplete(result: A) | Complete(result: A, end: nat)

  /** The loop of `parseHeaders` over the lines from position `current` on, up to an empty one; `add` is what a line
      does. */
  function ScanLines<A>(s: string, current: nat, result: A, add: (A, string) -> A): Scan<A>
    requires current <= |s|
    decreases |s| - current
  {
    if current == |s| then Incomplete(result)
    else
      var crlf := FindCrlf(s, current);
      if crlf == |s| then Incomplete(result)
      else if crlf == current then Complete(result, crlf + 2)
      else ScanLines(s, crlf + 2, add(result, s[current..crlf]), add)
  }

  /** `parseHeaders` */
  function ParseFrom(s: string, current: nat, headers: Headers): Scan<Headers>
    requires current <= |s|
  {
    ScanLines(s, current, headers, AddLine)
  }

  lemma FindBlankIs(s: string, from: nat, p: nat)
    requires from <= p && BlankAt(s, p) && forall q :: from <= q < p ==> !BlankAt(s, q)
    ensures FindBlank(s, from) == p
  {
  }

  /** Skipping positions where no empty line starts does not change the search. */
  lemma FindBlankLater(s: string, from: nat, later: nat)
    requires from <= later <= |s| && forall q :: from <= q < later ==> !BlankAt(s, q)
    ensures FindBlank(s, from) == FindBlank(s, later)
  {
    var p := FindBlank(s, later);
    if p < |s| { FindBlankIs(s, from, p); }
  }

  /** From the start of a line on, header parsing stops at the first empty line that the framing search finds, or,
      if that finds none, not at all. */
  lemma {:induction false} StopsAtFirstBlank<A>(s: string, current: nat, result: A, add: (A, string) -> A)
    requires 2 <= current <= |s| && CrlfAt(s, current - 2)
    ensures ScanLines(s, current, result, add).Complete? <==> FindBlank(s, current - 2) < |s|
    ensures ScanLines(s, current, result, add).Complete? ==>
              ScanLines(s, current, result, add).end == FindBlank(s, current - 2) + 4
    decreases |s| - current
  {
    var crlf := FindCrlf(s, current);
    assert s[current - 1] == '\n';
    if crlf == |s| {
      NoLineNoBlank(s, current);
    } else if crlf == current {
      FindBlankIs(s, current - 2, current - 2);
    } else {
      StopsAtFirstBlank(s, crlf + 2, add(result, s[current..crlf]), add);
      FindBlankLater(s, current - 2, crlf);
    }
  }

  lemma NoLineNoBlank(s: string, current: nat)
    requires 2 <= current <= |s| && CrlfAt(s, current - 2) && FindCrlf(s, current) == |s|
    ensures FindBlank(s, current - 2) == |s|
  {
    var p := FindBlank(s, current - 2);
    if p < |s| {
      assert false;
    }
  }

  /** Bytes behind a line end do not change where it is found. */
  lemma FindCrlfExtends(s: string, t: string, from: nat)
    requires from <= |s| && FindCrlf(s, from) < |s|
    ensures FindCrlf(s + t, from) == FindCrlf(s, from)
  {
    var p := FindCrlf(s, from);
    assert CrlfAt(s + t, p);
    assert forall q :: from <= q < p ==> CrlfAt(s + t, q) == CrlfAt(s, q);
  }

  /** Bytes behind a complete header section do not change what is read. */
  lemma {:induction false} ScanExtends<A>(s: string, t: string, current: nat, result: A, add: (A, string) -> A)
    requires current <= |s| && ScanLines(s, current, result, add).Complete?
    ensures ScanLines(s + t, current, result, add) == ScanLines(s, current, result, add)
    decreases |s| - current
  {
    var crlf := FindCrlf(s, current);
    FindCrlfExtends(s, t, current);
    if crlf != current {
      assert (s + t)[current..crlf] == s[current..crlf];
      ScanExtends(s, t, crlf + 2, add(result, s[current..crlf]), add);
    }
  }

  /** The framing search in a prefix: the empty line is found there exactly if the prefix covers it. */
  lemma FindBlankInPrefix(s: string, m: nat)
    requires m <= |s| && FindBlank(s, 0) < |s|
    ensures FindBlank(s[..m], 0) < m <==> FindBlank(s, 0) + 4 <= m
    ensures FindBlank(s, 0) + 4 <= m ==> FindBlank(s[..m], 0) == FindBlank(s, 0)
  {
    var b, p := FindBlank(s, 0), FindBlank(s[..m], 0);
    if p < m { assert BlankAt(s, p); }
    if b + 4 <= m {
      assert BlankAt(s[..m], b);
      assert forall q :: 0 <= q < b ==> BlankAt(s[..m], q) == BlankAt(s, q);
    }
  }

  lemma LineBeforeBlank(s: string)
    ensures FindCrlf(s, 0) <= FindBlank(s, 0)
  {
    if FindBlank(s, 0) < |s| { assert CrlfAt(s, FindBlank(s, 0)); }
  }

  predicate NoCrlf(s: string) { forall p :: 0 <= p < |s| ==> !CrlfAt(s, p) }

  /** What reading can produce at all: keys without colon, neither keys nor values with a line end or surrounding
      blanks. */
  predicate Readable(key: string, value: string) {
    Trimmed(key) && Trimmed(value) && ':' !in key && NoCrlf(key) && NoCrlf(value)
  }

  lemma SliceNoCrlf(s: string, lo: nat, hi: nat)
    requires NoCrlf(s) && lo <= hi <= |s|
    ensures NoCrlf(s[lo..hi])
  {
    forall p | 0 <= p < hi - lo ensures !CrlfAt(s[lo..hi], p) {
      assert !CrlfAt(s, lo + p);
    }
  }

  /** What trimming leaves is a part of the text. */
  lemma {:induction false} TrimLeftNoCrlf(s: string, colons: bool)
    requires NoCrlf(s) && (colons || ':' !in s)
    ensures NoCrlf(TrimLeft(s)) && (colons || ':' !in TrimLeft(s))
  {
    if s != "" && Blank(s[0]) {
      SliceNoCrlf(s, 1, |s|);
      assert s[1..|s|] == s[1..];
      TrimLeftNoCrlf(s[1..], colons);
    }
  }

  lemma {:induction false} TrimRightNoCrlf(s: string, colons: bool)
    requires NoCrlf(s) && (colons || ':' !in s)
    ensures NoCrlf(TrimRight(s)) && (colons || ':' !in TrimRight(s))
  {
    if s != "" && Blank(s[|s| - 1]) {
      SliceNoCrlf(s, 0, |s| - 1);
      assert s[0..|s| - 1] == s[..|s| - 1];
      TrimRightNoCrlf(s[..|s| - 1], colons);
    }
  }

  lemma TrimNoCrlf(s: string, colons: bool)
    requires NoCrlf(s) && (colons || ':' !in s)
    ensures NoCrlf(Trim(s)) && (colons || ':' !in Trim(s))
  {
    TrimLeftNoCrlf(s, colons);
    TrimRightNoCrlf(TrimLeft(s), colons);
  }

  predicate AllReadable(headers: Headers) { forall k :: k in headers ==> Readable(k, headers[k]) }

  lemma LineReadable(line: string, colon: nat)
    requires NoCrlf(line) && colon == FindChar(line, ':') < |line|
    ensures Readable(Trim(line[..colon]), Trim(line[colon + 1..]))
  {
    var key, value := line[..colon], line[colon + 1..];
    SliceNoCrlf(line, 0, colon);
    SliceNoCrlf(line, colon + 1, |line|);
    assert value == line[colon + 1..|line|];
    TrimNoCrlf(key, false);
    TrimNoCrlf(value, true);
    TrimIsTrimmed(key);
    TrimIsTrimmed(value);
  }

  lemma PairReadable(headers: Headers, key: string, value: string)
    requires AllReadable(headers) && Readable(key, value)
    ensures AllReadable(headers[key := value])
  {
  }

  lemma AddLineReadable(headers: Headers, line: string)
    requires NoCrlf(line) && AllReadable(headers)
    ensures AllReadable(AddLine(headers, line))
  {
    var colon, next := FindChar(line, ':'), AddLine(headers, line);
    if colon == |line| {
      assert next == headers;
    } else {
      var key, value := Trim(line[..colon]), Trim(line[colon + 1..]);
      assert next == headers[key := value];
      LineReadable(line, colon);
      PairReadable(headers, key, value);
    }
  }

  /** What every line keeps is kept by the loop. */
  lemma {:induction false} ScanKeeps<A(!new)>(s: string, current: nat, result: A, add: (A, string) -> A,
                                        keeps: A -> bool)
    requires current <= |s| && keeps(result)
    requires forall r, line :: keeps(r) && NoCrlf(line) ==> keeps(add(r, line))
    ensures keeps(ScanLines(s, current, result, add).result)
    decreases |s| - current
  {
    if current < |s| {
      var crlf := FindCrlf(s, current);
      if crlf < |s| && crlf != current {
        LineNoCrlf(s, current);
        ScanKeeps(s, crlf + 2, add(result, s[current..crlf]), add, keeps);
      }
    }
  }

  /** Everything ever read is readable: a pair that is not cannot come back from any text. */
  lemma ReadIsReadable(s: string, current: nat, headers: Headers)
    requires current <= |s| && AllReadable(headers)
    ensures AllReadable(ParseFrom(s, current, headers).result)
  {
    forall r, line | AllReadable(r) && NoCrlf(line) ensures AllReadable(AddLine(r, line)) {
      AddLineReadable(r, line);
    }
    ScanKeeps(s, current, headers, AddLine, AllReadable);
  }

  lemma LineNoCrlf(s: string, current: nat)
    requires current <= |s|
    ensures NoCrlf(s[current..FindCrlf(s, current)])
  {
    var line := s[current..FindCrlf(s, current)];
    forall p | 0 <= p < |line| ensures !CrlfAt(line, p) {
      assert !CrlfAt(s, current + p);
    }
  }
}
