/**
 What the 256-byte line buffer of HttpResponse.cpp does to headers that do not fit. A line that is
 cut loses its end; the theorem says that nothing can make up for that.
 */
module HttpLongLines {
  import opened Buffer
  import opened HttpText
  import opened HttpResponse

  // --------------------------------------------------- counting line ends

  function CrlfCount(t: string): nat { if t == "" then 0 else (if CrlfAt(t, 0) then 1 else 0) + CrlfCount(t[1..]) }

  /** A line end arises where two texts meet. */
  predicate Meet(a: string, b: string) { a != "" && b != "" && a[|a| - 1] == '\r' && b[0] == '\n' }

  lemma {:induction false} CountConcat(a: string, b: string)
    ensures CrlfCount(b) <= CrlfCount(a + b) <= CrlfCount(a) + CrlfCount(b) + (if Meet(a, b) then 1 else 0)
  {
    if a == "" {
      assert a + b == b;
    } else {
      assert (a + b)[1..] == a[1..] + b && (a + b)[0] == a[0];
      CountConcat(a[1..], b);
      if |a| > 1 { assert (a + b)[1] == a[1]; }
    }
  }

  lemma {:induction false} CountNone(t: string)
    requires NoCrlf(t)
    ensures CrlfCount(t) == 0
  {
    if t != "" {
      SliceNoCrlf(t, 1, |t|);
      assert t[1..|t|] == t[1..];
      CountNone(t[1..]);
    }
  }

  lemma CountLine(t: string)
    requires NoCrlf(t)
    ensures CrlfCount(t + CRLF) <= 1
  {
    CountNone(t);
    CountConcat(t, CRLF);
    assert CRLF[1..] == "\n" && "\n"[1..] == "";
  }

  lemma CountBehind(a: string, b: string)
    ensures CrlfCount(a + CRLF + b) >= 1 + CrlfCount(b)
  {
    CountConcat(a, CRLF + b);
    assert a + CRLF + b == a + (CRLF + b);
    assert (CRLF + b)[1..] == "\n" + b;
    CountConcat("\n", b);
  }

  /** A scan that completes has read no more lines than there are line ends, the one of the empty line not counted. */
  lemma {:induction false} ScanCount<A(!new)>(s: string, current: nat, result: A, add: (A, string) -> A, size: A -> nat)
    requires current <= |s| && ScanLines(s, current, result, add).Complete?
    requires forall r, line :: size(add(r, line)) <= size(r) + 1
    ensures var scan := ScanLines(s, current, result, add);
            current <= scan.end <= |s| && size(scan.result) + 1 <= size(result) + CrlfCount(s[current..scan.end])
    decreases |s| - current
  {
    var crlf := FindCrlf(s, current);
    if crlf == current {
      assert s[current..crlf + 2] == "" + CRLF + "";
      CountBehind("", "");
    } else {
      var next := add(result, s[current..crlf]);
      ScanCount(s, crlf + 2, next, add, size);
      ThreeParts(s, current, crlf, ScanLines(s, crlf + 2, next, add).end);
    }
  }

  lemma ThreeParts(s: string, lo: nat, crlf: nat, hi: nat)
    requires lo <= crlf && crlf + 2 <= hi <= |s| && CrlfAt(s, crlf)
    ensures CrlfCount(s[lo..hi]) >= 1 + CrlfCount(s[crlf + 2..hi])
  {
    assert s[lo..hi] == s[lo..crlf] + CRLF + s[crlf + 2..hi];
    CountBehind(s[lo..crlf], s[crlf + 2..hi]);
  }

  // ---------------------------------------------------------------- pieces

  /** A printed line: whole, or cut and open at its end. */
  predicate Whole(p: string) { |p| > 2 && p[|p| - 2..] == CRLF && NoCrlf(p[..|p| - 2]) }

  predicate Open(p: string) { |p| > 2 && NoCrlf(p) }

  predicate Piece(p: string) { Whole(p) || Open(p) }

  /** A cut piece that gets a line end from the piece behind it. */
  predicate Mended(ls: seq<string>, i: nat)
    requires i < |ls|
  {
    Whole(ls[i]) || (i + 1 < |ls| && Meet(ls[i], ls[i + 1]))
  }

  lemma CountPiece(p: string)
    requires Piece(p)
    ensures CrlfCount(p) <= if Whole(p) then 1 else 0
  {
    if Whole(p) {
      assert p == p[..|p| - 2] + CRLF;
      CountLine(p[..|p| - 2]);
    } else {
      CountNone(p);
    }
  }

  function Tail(ls: seq<string>, m: nat): string
    requires m <= |ls|
  {
    Flat(ls[m..]) + CRLF
  }

  lemma TailStep(ls: seq<string>, m: nat)
    requires m < |ls| && forall i :: 0 <= i < |ls| ==> Piece(ls[i])
    ensures Tail(ls, m) == ls[m] + Tail(ls, m + 1)
    ensures Meet(ls[m], Tail(ls, m + 1)) <==> m + 1 < |ls| && Meet(ls[m], ls[m + 1])
  {
    assert ls[m..][1..] == ls[m + 1..];
    assert Tail(ls, m) == ls[m] + Tail(ls, m + 1);
    if m + 1 < |ls| { assert Tail(ls, m + 1)[0] == ls[m + 1][0]; }
  }

  /** There is at most one line end for each piece, and one more; and one less if a cut piece is not mended. */
  lemma {:induction false} PiecesCount(ls: seq<string>, m: nat)
    requires m <= |ls| && forall i :: 0 <= i < |ls| ==> Piece(ls[i])
    ensures CrlfCount(Tail(ls, m)) <= |ls| - m + 1
    ensures (exists i :: m <= i < |ls| && !Mended(ls, i)) ==> CrlfCount(Tail(ls, m)) <= |ls| - m
    decreases |ls| - m
  {
    if m == |ls| {
      assert Tail(ls, m) == "" + CRLF;
      CountLine("");
    } else {
      PiecesCount(ls, m + 1);
      TailStep(ls, m);
      CountPiece(ls[m]);
      CountConcat(ls[m], Tail(ls, m + 1));
    }
  }

  /** The line that a piece holds when all cut pieces are mended; `shifted` says that the piece before it was cut. */
  function LineOf(p: string, shifted: bool): (line: string) {
    if |p| <= 2 then p
    else
      var to := if Whole(p) then |p| - 2 else |p| - 1;
      if shifted then p[1..to] else p[..to]
  }

  function LinesOf(ls: seq<string>, shifted: bool): (ts: seq<string>)
    ensures |ts| == |ls|
    ensures forall i :: 0 <= i < |ls| ==> ts[i] == LineOf(ls[i], if i == 0 then shifted else !Whole(ls[i - 1]))
  {
    if ls == [] then [] else [LineOf(ls[0], shifted)] + LinesOf(ls[1..], !Whole(ls[0]))
  }

  predicate AllMended(ls: seq<string>) {
    ls == [] || (Piece(ls[0]) && (Whole(ls[0]) || (|ls| > 1 && Meet(ls[0], ls[1]))) && AllMended(ls[1..]))
  }

  lemma {:induction false} MendedAll(ls: seq<string>, m: nat)
    requires m <= |ls| && forall i :: 0 <= i < |ls| ==> Piece(ls[i]) && Mended(ls, i)
    ensures AllMended(ls[m..])
    decreases |ls| - m
  {
    if m < |ls| {
      MendedAll(ls, m + 1);
      assert Piece(ls[m]) && Mended(ls, m);
      assert ls[m..][1..] == ls[m + 1..];
    }
  }

  lemma WholeJoined(p: string, shifted: bool, rest: string)
    requires Whole(p)
    ensures (LineOf(p, shifted) + CRLF) + rest == (p + rest)[if shifted then 1 else 0..]
  {
    assert p == p[..|p| - 2] + CRLF;
  }

  lemma CutJoined(p: string, shifted: bool, rest: string)
    requires Open(p) && !Whole(p) && Meet(p, rest)
    ensures (LineOf(p, shifted) + CRLF) + rest[1..] == (p + rest)[if shifted then 1 else 0..]
  {
    assert p == p[..|p| - 1] + "\r" && rest == "\n" + rest[1..];
  }

  /** When all cut pieces are mended, the pieces are lines joined. */
  lemma {:induction false} MendedJoined(ls: seq<string>, shifted: bool)
    requires AllMended(ls) && (shifted ==> ls != [])
    ensures ls != [] ==> Flat(ls) != "" && Flat(ls)[0] == ls[0][0]
    ensures shifted ==> Flat(ls) != ""
    ensures Joined(LinesOf(ls, shifted)) == Flat(ls)[if shifted then 1 else 0..]
  {
    if ls != [] {
      var p, rest, cut := ls[0], Flat(ls[1..]), !Whole(ls[0]);
      MendedJoined(ls[1..], cut);
      JoinedFirst(ls, shifted);
      if cut { CutJoined(p, shifted, rest); } else { WholeJoined(p, shifted, rest); }
    }
  }

  lemma JoinedFirst(ls: seq<string>, shifted: bool)
    requires ls != []
    ensures Joined(LinesOf(ls, shifted)) == (LineOf(ls[0], shifted) + CRLF) + Joined(LinesOf(ls[1..], !Whole(ls[0])))
  {
    assert LinesOf(ls, shifted)[1..] == LinesOf(ls[1..], !Whole(ls[0]));
  }

  // --------------------------------------------------------------- headers

  predicate AllPlain(hs: seq<Header>) { forall i :: 0 <= i < |hs| ==> Plain(hs[i]) }

  predicate DistinctKeys(hs: seq<Header>) { forall i, j :: 0 <= i < j < |hs| ==> hs[i].key != hs[j].key }

  lemma WholeLine(h: Header)
    requires Plain(h) && Fits(h)
    ensures HeaderLine(h) == HeaderText(h) + CRLF && Whole(HeaderLine(h))
  {
    PrintableLine(h);
    TextNoCrlf(h);
    assert HeaderLine(h)[..|HeaderLine(h)| - 2] == HeaderText(h);
  }

  lemma CutLine(h: Header)
    requires Plain(h) && !Fits(h)
    ensures Open(HeaderLine(h)) && !Whole(HeaderLine(h))
    ensures |HeaderLine(h)| == LINE_BUFFER - 1 && |HeaderText(h)| >= LINE_BUFFER - 2
    ensures HeaderLine(h)[..LINE_BUFFER - 2] == HeaderText(h)[..LINE_BUFFER - 2]
  {
    var p := HeaderLine(h);
    PlainCString(h.key);
    PlainCString(h.value);
    TextNoCrlf(h);
    SliceNoCrlf(HeaderText(h) + "\r", 0, LINE_BUFFER - 1);
    assert p == (HeaderText(h) + "\r")[0..LINE_BUFFER - 1];
    NotWhole(p);
  }

  lemma WholeEnds(p: string)
    ensures Whole(p) ==> CrlfAt(p, |p| - 2)
  {
  }

  lemma NotWhole(p: string)
    requires |p| >= 2 && NoCrlf(p)
    ensures !Whole(p)
  {
    WholeEnds(p);
    assert !CrlfAt(p, |p| - 2);
  }

  lemma HeaderPieces(hs: seq<Header>)
    requires AllPlain(hs)
    ensures forall i :: 0 <= i < |hs| ==> Piece(Lines(hs)[i]) && (Whole(Lines(hs)[i]) <==> Fits(hs[i]))
  {
    forall i | 0 <= i < |hs| ensures Piece(Lines(hs)[i]) && (Whole(Lines(hs)[i]) <==> Fits(hs[i])) {
      if Fits(hs[i]) { WholeLine(hs[i]); } else { CutLine(hs[i]); }
    }
  }

  /** The key that a line stores, if it stores one. */
  predicate Gives(line: string, key: string) {
    FindChar(line, ':') < |line| && key == Trim(line[..FindChar(line, ':')])
  }

  /** What is left of a header in a line: it starts like the header, but for the first character if that has been used
      to mend the line before. */
  lemma PartOfText(h: Header, shifted: bool)
    requires Plain(h) && (shifted ==> h.key != "")
    ensures var line, from := LineOf(HeaderLine(h), shifted), if shifted then 1 else 0;
            IsLine(line) && from + |line| <= |HeaderText(h)| && line == HeaderText(h)[from..from + |line|]
  {
    var p, from := HeaderLine(h), if shifted then 1 else 0;
    TextNoCrlf(h);
    if Fits(h) {
      WholeLine(h);
      assert LineOf(p, shifted) == HeaderText(h)[from..|HeaderText(h)|];
      SliceNoCrlf(HeaderText(h), from, |HeaderText(h)|);
    } else {
      CutLine(h);
      assert LineOf(p, shifted) == HeaderText(h)[..LINE_BUFFER - 2][from..] == HeaderText(h)[from..LINE_BUFFER - 2];
      SliceNoCrlf(HeaderText(h), from, LINE_BUFFER - 2);
    }
  }

  /** So the only key it can store is that of the header, but for that character. */
  lemma PartGives(h: Header, shifted: bool, key: string)
    requires Plain(h) && (shifted ==> h.key != "") && Gives(LineOf(HeaderLine(h), shifted), key)
    ensures key == Trim(h.key[if shifted then 1 else 0..])
  {
    var line, from := LineOf(HeaderLine(h), shifted), if shifted then 1 else 0;
    PartOfText(h, shifted);
    GivenKey(h, from, line, key);
  }

  lemma GivenKey(h: Header, from: nat, line: string, key: string)
    requires ':' !in h.key && from <= |h.key| && from + |line| <= |HeaderText(h)|
    requires line == HeaderText(h)[from..from + |line|] && Gives(line, key)
    ensures key == Trim(h.key[from..])
  {
    FirstColon(h, from, line);
    assert line[..FindChar(line, ':')] == h.key[from..];
  }

  lemma FirstColon(h: Header, from: nat, line: string)
    requires ':' !in h.key && from <= |h.key| && from + |line| <= |HeaderText(h)|
    requires line == HeaderText(h)[from..from + |line|] && FindChar(line, ':') < |line|
    ensures from + FindChar(line, ':') == |h.key|
  {
    var c := FindChar(line, ':');
    forall q | 0 <= q < |h.key| ensures HeaderText(h)[q] != ':' {
      assert h.key[q] in h.key;
    }
    assert line[c] == HeaderText(h)[from + c];
    assert HeaderText(h)[|h.key|] == ':' == line[|h.key| - from];
  }

  lemma {:induction false} TrimLeftShorter(s: string)
    ensures |TrimLeft(s)| <= |s|
  {
    if s != "" && Blank(s[0]) { TrimLeftShorter(s[1..]); }
  }

  lemma {:induction false} TrimRightShorter(s: string)
    ensures |TrimRight(s)| <= |s|
  {
    if s != "" && Blank(s[|s| - 1]) { TrimRightShorter(s[..|s| - 1]); }
  }

  lemma TrimShorter(s: string)
    ensures |Trim(s)| <= |s|
  {
    TrimLeftShorter(s);
    TrimRightShorter(TrimLeft(s));
  }

  /** A key that no line stores is not stored. */
  lemma {:induction false} NotStored(headers: Headers, ts: seq<string>, add: (Headers, string) -> Headers, key: string)
    requires key !in headers
    requires forall h: Headers, i :: 0 <= i < |ts| && key !in h ==> key !in add(h, ts[i])
    ensures key !in Fold(headers, ts, add)
    decreases |ts|
  {
    if ts != [] {
      assert key !in add(headers, ts[0]);
      NotStored(add(headers, ts[0]), ts[1..], add, key);
    }
  }

  lemma NotGiven(headers: Headers, line: string, key: string)
    requires key !in headers && !Gives(line, key)
    ensures key !in AddLine(headers, line)
  {
    var colon, next := FindChar(line, ':'), AddLine(headers, line);
    if colon < |line| {
      var k, v := Trim(line[..colon]), Trim(line[colon + 1..]);
      assert next == headers[k := v];
    }
  }

  /** The first character of this header's key has been used to mend the line before. */
  predicate Shifted(hs: seq<Header>, m: nat)
    requires m < |hs|
  {
    m > 0 && !Fits(hs[m - 1])
  }

  /** Among the shifted headers one whose key is longest. */
  lemma {:induction false} LongestShifted(hs: seq<Header>, n: nat) returns (k: nat)
    requires n <= |hs| && exists m :: 0 <= m < n && Shifted(hs, m)
    ensures k < n && Shifted(hs, k)
    ensures forall m :: 0 <= m < n && Shifted(hs, m) ==> |hs[m].key| <= |hs[k].key|
  {
    if exists m :: 0 <= m < n - 1 && Shifted(hs, m) {
      k := LongestShifted(hs, n - 1);
      if Shifted(hs, n - 1) && |hs[n - 1].key| > |hs[k].key| { k := n - 1; }
    } else {
      k := n - 1;
    }
  }

  lemma MendedKey(hs: seq<Header>, m: nat)
    requires AllPlain(hs) && m < |hs| && Shifted(hs, m) && Mended(Lines(hs), m - 1)
    ensures hs[m].key != ""
  {
    CutLine(hs[m - 1]);
    FirstChar(hs[m]);
  }

  lemma FirstChar(h: Header)
    requires Plain(h)
    ensures HeaderLine(h) != "" && HeaderLine(h)[0] == if h.key == "" then ':' else h.key[0]
  {
    if Fits(h) {
      WholeLine(h);
    } else {
      CutLine(h);
      assert HeaderLine(h)[0] == HeaderLine(h)[..LINE_BUFFER - 2][0];
    }
  }

  /** The line of a header does not store the longest shifted key. */
  lemma LongestNotGiven(hs: seq<Header>, k: nat, m: nat)
    requires AllPlain(hs) && DistinctKeys(hs) && k < |hs| && m < |hs| && Shifted(hs, k)
    requires (Shifted(hs, m) ==> hs[m].key != "" && |hs[m].key| <= |hs[k].key|)
    ensures !Gives(LineOf(HeaderLine(hs[m]), Shifted(hs, m)), hs[k].key)
  {
    var key := hs[k].key;
    if Gives(LineOf(HeaderLine(hs[m]), Shifted(hs, m)), key) {
      PartGives(hs[m], Shifted(hs, m), key);
      if Shifted(hs, m) {
        TrimShorter(hs[m].key[1..]);
      } else {
        assert hs[m].key[0..] == hs[m].key;
        TrimParts(hs[m]);
      }
      assert false;
    }
  }

  /** When all cut lines are mended, some key is lost all the same. */
  lemma KeyLost(hs: seq<Header>) returns (k: nat)
    requires AllPlain(hs) && DistinctKeys(hs) && (exists i :: 0 <= i < |hs| && !Fits(hs[i]))
    requires forall i :: 0 <= i < |hs| ==> Mended(Lines(hs), i)
    ensures k < |hs| && hs[k].key !in Fold(map[], LinesOf(Lines(hs), false), AddLine)
  {
    SomeShifted(hs);
    k := LongestShifted(hs, |hs|);
    NotGivenAnywhere(hs, k);
    NoneGives(LinesOf(Lines(hs), false), hs[k].key);
  }

  lemma SomeShifted(hs: seq<Header>)
    requires AllPlain(hs) && (exists i :: 0 <= i < |hs| && !Fits(hs[i]))
    requires forall i :: 0 <= i < |hs| ==> Mended(Lines(hs), i)
    ensures exists m :: 0 <= m < |hs| && Shifted(hs, m)
  {
    HeaderPieces(hs);
    var i :| 0 <= i < |hs| && !Fits(hs[i]);
    assert Mended(Lines(hs), i);
    assert Shifted(hs, i + 1);
  }

  lemma NotGivenAnywhere(hs: seq<Header>, k: nat)
    requires AllPlain(hs) && DistinctKeys(hs) && k < |hs| && Shifted(hs, k)
    requires forall i :: 0 <= i < |hs| ==> Mended(Lines(hs), i)
    requires forall m :: 0 <= m < |hs| && Shifted(hs, m) ==> |hs[m].key| <= |hs[k].key|
    ensures forall m :: 0 <= m < |hs| ==> !Gives(LinesOf(Lines(hs), false)[m], hs[k].key)
  {
    HeaderPieces(hs);
    var ts, key := LinesOf(Lines(hs), false), hs[k].key;
    forall m | 0 <= m < |hs| ensures !Gives(ts[m], key) {
      ShiftedHasKey(hs, m);
      LongestNotGiven(hs, k, m);
    }
  }

  lemma ShiftedHasKey(hs: seq<Header>, m: nat)
    requires AllPlain(hs) && m < |hs| && forall i :: 0 <= i < |hs| ==> Mended(Lines(hs), i)
    ensures Shifted(hs, m) ==> hs[m].key != ""
  {
    if Shifted(hs, m) {
      assert Mended(Lines(hs), m - 1);
      MendedKey(hs, m);
    }
  }

  lemma NoneGives(ts: seq<string>, key: string)
    requires forall m :: 0 <= m < |ts| ==> !Gives(ts[m], key)
    ensures key !in Fold(map[], ts, AddLine)
  {
    forall h: Headers, m | 0 <= m < |ts| && key !in h ensures key !in AddLine(h, ts[m]) {
      NotGiven(h, ts[m], key);
    }
    NotStored(map[], ts, AddLine, key);
  }

  // -------------------------------------------------------------- theorems

  lemma AddsOneKey(headers: Headers, line: string)
    ensures |AddLine(headers, line)| <= |headers| + 1
  {
    var colon, next := FindChar(line, ':'), AddLine(headers, line);
    if colon == |line| {
      assert next == headers;
    } else {
      var k, v := Trim(line[..colon]), Trim(line[colon + 1..]);
      assert next == headers[k := v];
      assert next.Keys == headers.Keys + {k};
      assert |next| == |next.Keys| <= |headers.Keys| + 1;
    }
  }

  lemma {:induction false} KeysOf(hs: seq<Header>, key: string)
    ensures key in ToMap(hs) <==> exists i :: 0 <= i < |hs| && hs[i].key == key
  {
    if hs != [] {
      KeysOf(hs[1..], key);
      if i :| 0 <= i < |hs| - 1 && hs[1..][i].key == key { assert hs[i + 1].key == key; }
      if i :| 0 < i < |hs| && hs[i].key == key { assert hs[1..][i - 1].key == key; }
    }
  }

  lemma {:induction false} ManyKeys(hs: seq<Header>)
    requires DistinctKeys(hs)
    ensures |ToMap(hs)| == |hs|
  {
    if hs != [] {
      ManyKeys(hs[1..]);
      KeysOf(hs[1..], hs[0].key);
      assert ToMap(hs).Keys == {hs[0].key} + ToMap(hs[1..]).Keys;
      assert |ToMap(hs)| == |ToMap(hs).Keys| == 1 + |ToMap(hs[1..]).Keys|;
    }
  }

  lemma Region(start: string, lines: string, body: string)
    ensures var s := start + lines + CRLF + body;
            |start| <= |s| - |body| && s[|start|..|s| - |body|] == lines + CRLF
  {
  }

  /** With an unmended cut line there are too few line ends for the headers. */
  lemma TooFewLines(start: string, hs: seq<Header>, body: string, i: nat)
    requires AllPlain(hs) && DistinctKeys(hs) && i < |hs| && !Mended(Lines(hs), i)
    ensures var s := start + Flat(Lines(hs)) + CRLF + body;
            ParseFrom(s, |start|, map[]) != Complete(ToMap(hs), |s| - |body|)
  {
    var s := start + Flat(Lines(hs)) + CRLF + body;
    if ParseFrom(s, |start|, map[]) == Complete(ToMap(hs), |s| - |body|) {
      CompleteCount(s, |start|);
      Region(start, Flat(Lines(hs)), body);
      HeaderPieces(hs);
      PiecesCount(Lines(hs), 0);
      assert Lines(hs)[0..] == Lines(hs);
      ManyKeys(hs);
      assert false;
    }
  }

  lemma CompleteCount(s: string, current: nat)
    requires current <= |s| && ParseFrom(s, current, map[]).Complete?
    ensures var scan := ParseFrom(s, current, map[]);
            current <= scan.end <= |s| && |scan.result| + 1 <= CrlfCount(s[current..scan.end])
  {
    forall r: Headers, line ensures |AddLine(r, line)| <= |r| + 1 {
      AddsOneKey(r, line);
    }
    ScanCount(s, current, map[], AddLine, (h: Headers) => |h|);
  }

  lemma MendedLines(hs: seq<Header>)
    requires AllPlain(hs) && forall i :: 0 <= i < |hs| ==> Mended(Lines(hs), i)
    ensures Joined(LinesOf(Lines(hs), false)) == Flat(Lines(hs)) && AllLines(LinesOf(Lines(hs), false))
  {
    var ls, ts := Lines(hs), LinesOf(Lines(hs), false);
    HeaderPieces(hs);
    MendedAll(ls, 0);
    assert ls[0..] == ls;
    MendedJoined(ls, false);
    forall m | 0 <= m < |hs| ensures IsLine(ts[m]) {
      if Shifted(hs, m) {
        assert Mended(ls, m - 1);
        MendedKey(hs, m);
      }
      PartOfText(hs[m], Shifted(hs, m));
    }
    LinesAll(ts, 0);
    assert ts[0..] == ts;
  }

  lemma {:induction false} LinesAll(ts: seq<string>, m: nat)
    requires m <= |ts| && forall i :: 0 <= i < |ts| ==> IsLine(ts[i])
    ensures AllLines(ts[m..])
    decreases |ts| - m
  {
    if m < |ts| {
      LinesAll(ts, m + 1);
      assert ts[m..][1..] == ts[m + 1..];
    }
  }

  /** With all cut lines mended the lines are there, but a key is lost. */
  lemma MissingKey(start: string, hs: seq<Header>, body: string)
    requires AllPlain(hs) && DistinctKeys(hs) && (exists i :: 0 <= i < |hs| && !Fits(hs[i]))
    requires forall i :: 0 <= i < |hs| ==> Mended(Lines(hs), i)
    ensures var s := start + Flat(Lines(hs)) + CRLF + body;
            ParseFrom(s, |start|, map[]) != Complete(ToMap(hs), |s| - |body|)
  {
    var ts := LinesOf(Lines(hs), false);
    MendedLines(hs);
    ReadJoined(start, ts, body, map[], AddLine);
    var k := KeyLost(hs);
    KeysOf(hs, hs[k].key);
  }

  /** No text that is printed with a line that does not fit reads back as the headers that were meant, with the body
      behind. */
  lemma CutIsNotRead(start: string, hs: seq<Header>, body: string)
    requires AllPlain(hs) && DistinctKeys(hs) && (exists i :: 0 <= i < |hs| && !Fits(hs[i]))
    ensures var s := start + Flat(Lines(hs)) + CRLF + body;
            ParseFrom(s, |start|, map[]) != Complete(ToMap(hs), |s| - |body|)
  {
    if i :| 0 <= i < |hs| && !Mended(Lines(hs), i) {
      TooFewLines(start, hs, body, i);
    } else {
      MissingKey(start, hs, body);
    }
  }

  predicate NoDefault(hs: seq<Header>) {
    forall i :: 0 <= i < |hs| ==> hs[i].key != "Connection" && hs[i].key != "Content-Length"
  }

  lemma PrintedDistinct(r: Response)
    requires AllPlain(r.headers) && DistinctKeys(r.headers) && NoDefault(r.headers)
    requires |r.body| < 0x1_0000_0000_0000_0000
    ensures AllPlain(Printed(r)) && DistinctKeys(Printed(r))
  {
    DefaultsPrintable(r);
    assert |"Connection"| != |"Content-Length"|;
  }

  /** Printing, then reading from behind the status line, gives back the headers and leaves the body. */
  predicate RoundTrips(r: Response) {
    ParseFrom(Print(r), |StatusLine(r)|, map[]) == Complete(Expected(r), |Print(r)| - |r.body|)
  }

  predicate AllFit(hs: seq<Header>) { forall i :: 0 <= i < |hs| ==> Fits(hs[i]) }

  lemma CutBreaks(r: Response, i: nat)
    requires AllPlain(r.headers) && DistinctKeys(r.headers) && NoDefault(r.headers)
    requires |r.body| < 0x1_0000_0000_0000_0000
    requires i < |r.headers| && !Fits(r.headers[i])
    ensures !RoundTrips(r)
  {
    var hs := Printed(r);
    assert hs[|Defaults(r)| + i] == r.headers[i];
    PrintedDistinct(r);
    PrintedMeans(r);
    CutIsNotRead(StatusLine(r), hs, r.body);
  }

  /** Exactly when printing and reading is the identity, for readable headers with different keys that override no
      default, and any body: when every line fits the line buffer. */
  lemma LinesMustFit(r: Response)
    requires AllPlain(r.headers) && DistinctKeys(r.headers) && NoDefault(r.headers)
    requires |r.body| < 0x1_0000_0000_0000_0000
    ensures RoundTrips(r) <==> AllFit(r.headers)
  {
    if AllFit(r.headers) {
      PrintThenRead(r);
    } else {
      var i :| 0 <= i < |r.headers| && !Fits(r.headers[i]);
      CutBreaks(r, i);
    }
  }

  /** A scan ends behind two line ends, or behind one where it began. */
  lemma {:induction false} EndsBlank<A>(s: string, current: nat, result: A, add: (A, string) -> A)
    requires current <= |s| && ScanLines(s, current, result, add).Complete?
    ensures var e := ScanLines(s, current, result, add).end;
            current + 2 <= e <= |s| && CrlfAt(s, e - 2) && (e == current + 2 || (e >= current + 4 && CrlfAt(s, e - 4)))
    decreases |s| - current
  {
    var crlf := FindCrlf(s, current);
    if crlf != current {
      EndsBlank(s, crlf + 2, add(result, s[current..crlf]), add);
    }
  }

  /** Where a text with an open end meets the empty line, no empty line is left. */
  lemma OpenEnd(start: string, lines: string, p: string, body: string)
    requires |p| > 2 && NoCrlf(p)
    ensures var s := start + (lines + p) + CRLF + body;
            var scan := ParseFrom(s, |start|, map[]);
            scan.Complete? ==> scan.end != |s| - |body|
  {
    var s := start + (lines + p) + CRLF + body;
    var e := |s| - |body|;
    var at := |p| - 2;
    assert !CrlfAt(p, at);
    assert s[e - 4] == p[at] && s[e - 3] == p[at + 1];
    if ParseFrom(s, |start|, map[]).Complete? {
      EndsBlank(s, |start|, map[], AddLine);
    }
  }

  lemma LastOpen(start: string, front: seq<Header>, h: Header, body: string)
    requires Plain(h) && !Fits(h)
    ensures var s := start + Flat(Lines(front + [h])) + CRLF + body;
            var scan := ParseFrom(s, |start|, map[]);
            scan.Complete? ==> scan.end != |s| - |body|
  {
    var lines, p := Flat(Lines(front)), HeaderLine(h);
    LinesAppend(front, h);
    CutLine(h);
    OpenEnd(start, lines, p, body);
  }

  /** The last header must fit in any case, whatever the others are and whatever they override. */
  lemma LastMustFit(r: Response, h: Header)
    requires r.headers != [] && r.headers[|r.headers| - 1] == h && Plain(h) && RoundTrips(r)
    ensures Fits(h)
  {
    if !Fits(h) {
      LastBreaks(r, h);
    }
  }

  lemma LastBreaks(r: Response, h: Header)
    requires r.headers != [] && r.headers[|r.headers| - 1] == h && Plain(h) && !Fits(h)
    ensures !RoundTrips(r)
  {
    var hs := Printed(r);
    var front := hs[..|hs| - 1];
    assert hs == front + [h];
    LastOpen(StatusLine(r), front, h, r.body);
  }

  /** So for a single custom header, even one that overrides a default, and any body, the round trip is the identity
      exactly if the line fits. */
  lemma LineMustFit(r: Response, h: Header)
    requires r.headers == [h] && Plain(h) && |r.body| < 0x1_0000_0000_0000_0000
    ensures RoundTrips(r) <==> Fits(h)
  {
    if Fits(h) {
      assert AllPrintable(r.headers);
      PrintThenRead(r);
    } else if RoundTrips(r) {
      LastMustFit(r, h);
    }
  }

  function Repeat(c: char, n: nat): (s: string)
    ensures |s| == n && forall i :: 0 <= i < n ==> s[i] == c
  {
    seq(n, i => c)
  }

  function LongHeader(n: nat): Header { Header("A", Repeat('x', n)) }

  lemma LongHeaderIs(n: nat)
    ensures Plain(LongHeader(n)) && |HeaderText(LongHeader(n))| == n + 3
  {
    var h := LongHeader(n);
    assert |h.key| == 1;
    assert NoCrlf(h.value) && NoCrlf(h.key);
  }

  /** A header that does not survive, with any body: the value of 251 characters makes the line one too long. */
  lemma LongHeaderFails(body: string)
    requires |body| < 0x1_0000_0000_0000_0000
    ensures !RoundTrips(Response(200, "", [LongHeader(251)], body, true))
  {
    LongHeaderIs(251);
    LineMustFit(Response(200, "", [LongHeader(251)], body, true), LongHeader(251));
  }

  /** A header whose value ends like the header line behind it, so that cutting the one and running into the other
      leaves its line as it was. */
  function Swallowing(): Header { Header("A", Repeat('x', 252) + HeaderText(CONNECTION_CLOSE)) }

  function Swallowed(body: string): Response { Response(200, "", [Swallowing(), CONNECTION_CLOSE], body, true) }

  lemma SwallowedLines()
    ensures !Fits(Swallowing()) && Readable(Swallowing().key, Swallowing().value)
    ensures HeaderLine(Swallowing()) + (HeaderText(CONNECTION_CLOSE) + CRLF) == HeaderText(Swallowing()) + CRLF
  {
    ClosePrintable();
    TextNoCrlf(CONNECTION_CLOSE);
    assert !Blank(HeaderText(CONNECTION_CLOSE)[16]);
    SwallowedLine(Swallowing(), HeaderText(CONNECTION_CLOSE));
  }

  lemma SwallowedLine(h: Header, t: string)
    requires h == Header("A", Repeat('x', 252) + t) && |t| > 2 && NoCrlf(t) && '\0' !in t && !Blank(t[|t| - 1])
    ensures !Fits(h) && Readable(h.key, h.value) && HeaderLine(h) + (t + CRLF) == HeaderText(h) + CRLF
  {
    SwallowNoCrlf(t);
    PlainCString(h.key);
    PlainCString(h.value);
    var front := h.key + ": " + Repeat('x', 252);
    assert HeaderText(h) == front + t;
    assert (front + t + CRLF)[..255] == front;
    Associate(front, t, CRLF);
  }

  lemma SwallowNoCrlf(t: string)
    requires NoCrlf(t)
    ensures NoCrlf(Repeat('x', 252) + t)
  {
    var v := Repeat('x', 252) + t;
    forall p | 0 <= p < |v| ensures !CrlfAt(v, p) {
      if p >= 252 { assert !CrlfAt(t, p - 252); }
    }
  }

  lemma SwallowedText(d: seq<Header>, h: Header, c: Header, ts: seq<string>)
    requires AllPrintable(d) && Readable(h.key, h.value) && Printable(c) && ts == Texts(d) + [HeaderText(h)]
    requires HeaderLine(h) + (HeaderText(c) + CRLF) == HeaderText(h) + CRLF
    ensures Flat(Lines(d + [h] + [c])) == Joined(ts) && AllLines(ts)
  {
    TextNoCrlf(h);
    PrintableLines(d);
    PrintableLine(c);
    LinesAppend(d + [h], c);
    LinesAppend(d, h);
    Associate(Flat(Lines(d)), HeaderLine(h), HeaderLine(c));
    JoinedAppend(Texts(d), HeaderText(h));
  }

  lemma {:induction false} JoinedAppend(ls: seq<string>, l: string)
    requires AllLines(ls) && IsLine(l)
    ensures AllLines(ls + [l]) && Joined(ls + [l]) == Joined(ls) + (l + CRLF)
  {
    if ls == [] {
      assert (ls + [l])[1..] == [];
    } else {
      JoinedAppend(ls[1..], l);
      assert (ls + [l])[1..] == ls[1..] + [l];
      Associate(ls[0] + CRLF, Joined(ls[1..]), l + CRLF);
    }
  }

  lemma SwallowedHeaders(d: seq<Header>, h: Header, c: Header, ts: seq<string>)
    requires AllPrintable(d) && Readable(h.key, h.value) && ts == Texts(d) + [HeaderText(h)]
    requires c.key in ToMap(d) && ToMap(d)[c.key] == c.value && h.key != c.key
    ensures Fold(map[], ts, AddLine) == ToMap(d + [h] + [c])
  {
    FoldReadable(map[], d + [h], ts);
    ToMapConcat(d + [h], [c]);
    ToMapConcat(d, [h]);
    OneHeader(h);
    OneHeader(c);
    StoredAgain(ToMap(d), h.key, h.value, c.key, c.value);
  }

  lemma StoredAgain(m: Headers, k: string, v: string, k': string, v': string)
    requires k' in m && m[k'] == v' && k != k'
    ensures map[] + (m + map[k := v]) == m + map[k := v] + map[k' := v']
  {
  }

  lemma DefaultClose(r: Response)
    requires r.close
    ensures "Connection" in ToMap(Defaults(r)) && ToMap(Defaults(r))["Connection"] == "close"
  {
    ToMapConcat([CONNECTION_CLOSE], [ContentLength(r)]);
    OneHeader(CONNECTION_CLOSE);
    OneHeader(ContentLength(r));
    assert |"Connection"| != |"Content-Length"|;
  }

  lemma ReadsAs(r: Response, ts: seq<string>)
    requires Flat(Lines(Printed(r))) == Joined(ts) && AllLines(ts) && Fold(map[], ts, AddLine) == ToMap(Printed(r))
    ensures RoundTrips(r)
  {
    PrintedMeans(r);
    ReadJoined(StatusLine(r), ts, r.body, map[], AddLine);
  }

  lemma SwallowedRoundTrips(r: Response, d: seq<Header>, h: Header, c: Header)
    requires d == Defaults(r) && r.headers == [h, c] && AllPrintable(d) && Printable(c) && Readable(h.key, h.value)
    requires c.key in ToMap(d) && ToMap(d)[c.key] == c.value && h.key != c.key
    requires HeaderLine(h) + (HeaderText(c) + CRLF) == HeaderText(h) + CRLF
    ensures RoundTrips(r)
  {
    var ts := SwallowedTexts(d, h, c);
    PrintedTwo(r, h, c);
    ReadsAs(r, ts);
  }

  lemma PrintedTwo(r: Response, h: Header, c: Header)
    requires r.headers == [h, c]
    ensures Printed(r) == Defaults(r) + [h] + [c]
  {
  }

  lemma SwallowedTexts(d: seq<Header>, h: Header, c: Header) returns (ts: seq<string>)
    requires AllPrintable(d) && Printable(c) && Readable(h.key, h.value)
    requires c.key in ToMap(d) && ToMap(d)[c.key] == c.value && h.key != c.key
    requires HeaderLine(h) + (HeaderText(c) + CRLF) == HeaderText(h) + CRLF
    ensures Flat(Lines(d + [h] + [c])) == Joined(ts) && AllLines(ts)
    ensures Fold(map[], ts, AddLine) == ToMap(d + [h] + [c])
  {
    ts := Texts(d) + [HeaderText(h)];
    SwallowedText(d, h, c, ts);
    SwallowedHeaders(d, h, c, ts);
  }

  /** That no default is overridden matters: here a line does not fit, and the round trip is the identity all the
      same. */
  lemma OverrideHidesCut(body: string)
    requires |body| < 0x1_0000_0000_0000_0000
    ensures !AllFit(Swallowed(body).headers) && RoundTrips(Swallowed(body))
  {
    SwallowedLines();
    assert Swallowed(body).headers[0] == Swallowing();
    DefaultsPrintable(Swallowed(body));
    ClosePrintable();
    DefaultClose(Swallowed(body));
    SwallowedRoundTrips(Swallowed(body), Defaults(Swallowed(body)), Swallowing(), CONNECTION_CLOSE);
  }
}
