/** HTTP/1.1 messages, sections 3, 5 and 6 of RFC 9112: the request reader and the response writers. */
module HttpMessages {
  import opened Basics
  import opened PyBytes
  import opened PyInt
  import opened Streams
  import opened Chunked

  type Header = (Bytes, Bytes)

  const MAX_HTTP_HEADER_BYTES := 128 * 1024
  const CRLFCRLF: Bytes := CRLF + CRLF
  const SPACE: Bytes := [32]
  const COLON: Bytes := [58]
  const CONTENT_LENGTH: Bytes := Ascii("content-length")
  const TRANSFER_ENCODING: Bytes := Ascii("transfer-encoding")
  const CONNECTION: Bytes := Ascii("connection")
  const CHUNKED: Bytes := Ascii("chunked")
  const CLOSE: Bytes := Ascii("close")

  // ---- Reading header lines ----

  /** What the header loop has collected. */
  datatype Fields = Fields(headers: seq<Header>, contentLength: int, chunked: bool)

  const NoFields := Fields([], 0, false)

  predicate IsLength(h: Header) {
    Lower(h.0) == CONTENT_LENGTH
  }

  predicate IsChunked(h: Header) {
    Lower(h.0) == TRANSFER_ENCODING && Find(Lower(h.1), CHUNKED) >= 0
  }

  /** The header has that name, in any case. */
  ghost predicate Named(h: Header, name: string) {
    SameButCase(h.0, Ascii(name))
  }

  /** A Transfer-Encoding that says `chunked` somewhere, in any case. */
  ghost predicate SaysChunked(h: Header) {
    Named(h, "transfer-encoding") && Mentions(h.1, Ascii("chunked"))
  }

  lemma {:induction false} SmallLetters(s: Bytes)
    requires forall i :: 0 <= i < |s| ==> !(65 <= s[i] <= 90)
    ensures Lower(s) == s
  {
  }

  lemma {:induction false} IsLengthExactly(h: Header)
    ensures IsLength(h) <==> Named(h, "content-length")
  {
    SmallLetters(CONTENT_LENGTH);
    LowerIsCaseless(h.0, CONTENT_LENGTH);
    hide SameButCase;
  }

  lemma {:induction false} IsChunkedExactly(h: Header)
    ensures IsChunked(h) <==> SaysChunked(h)
  {
    SmallLetters(TRANSFER_ENCODING);
    SmallLetters(CHUNKED);
    LowerIsCaseless(h.0, TRANSFER_ENCODING);
    FindCaseless(h.1, CHUNKED);
    hide SameButCase, Mentions;
  }

  lemma {:induction false} NotBothFramings(h: Header)
    ensures !(Named(h, "content-length") && Named(h, "transfer-encoding"))
  {
  }

  function AddHeader(f: Fields, h: Header): Result<Fields, ReadError> {
    var f' := f.(headers := f.headers + [h]);
    if IsLength(h) then
      if ParseInt(h.1, 10).Some? then Ok(f'.(contentLength := ParseInt(h.1, 10).value)) else Err(Malformed)
    else Ok(f'.(chunked := f.chunked || IsChunked(h)))
  }

  function AddHeaders(f: Fields, headers: seq<Header>): Result<Fields, ReadError>
    decreases headers
  {
    if headers == [] then Ok(f)
    else if AddHeader(f, headers[0]).Err? then AddHeader(f, headers[0])
    else AddHeaders(AddHeader(f, headers[0]).value, headers[1..])
  }

  function ParseFields(f: Fields, lines: seq<Bytes>): Result<Fields, ReadError>
    decreases lines
  {
    if lines == [] then Ok(f)
    else if lines[0] == [] then ParseFields(f, lines[1..])
    else
      var colon := Find(lines[0], COLON);
      if colon < 0 then Err(Malformed)
      else
        var f' := AddHeader(f, (lines[0][..colon], StripLeft(lines[0][colon + 1..])));
        if f'.Err? then f' else ParseFields(f'.value, lines[1..])
  }

  // ---- Lists of headers that were picked from others ----

  ghost predicate Increasing(at: seq<int>) {
    forall i, j :: 0 <= i < j < |at| ==> at[i] < at[j]
  }

  /** The kept headers are those at the positions `at`, in order. */
  ghost predicate PickedAt(raw: seq<Header>, kept: seq<Header>, at: seq<int>) {
    && |at| == |kept| && Increasing(at)
    && forall i :: 0 <= i < |at| ==> 0 <= at[i] < |raw| && kept[i] == raw[at[i]]
  }

  lemma {:induction false} PicksGrow(raw: seq<Header>, kept: seq<Header>, at: seq<int>)
    requires raw != [] && PickedAt(Front(raw), kept, at)
    ensures PickedAt(raw, kept, at)
    ensures PickedAt(raw, kept + [Last(raw)], at + [|raw| - 1])
  {
  }

  // ---- _read_http_request ----

  datatype HttpRequest = HttpRequest(method_: Bytes, target: Bytes, version: Bytes, headers: seq<Header>, body: Bytes)

  datatype Received = Received(request: HttpRequest, rest: Bytes)

  datatype Head = Head(lines: seq<Bytes>, rest: Bytes)

  function SplitHead(data: Bytes): (head: Option<Head>)
    ensures head.Some? ==> head.value.lines != [] && |head.value.rest| <= |data|
  {
    var end := Find(data, CRLFCRLF);
    if end < 0 then None else Some(Head(Split(data[..end], CRLF), data[end + 4..]))
  }

  function ReadBody(f: Fields, data: Bytes, limit: int): Result<Body, ReadError> {
    if f.chunked then Dechunk(data, limit, []) else LengthDelimited(data, f.contentLength, limit)
  }

  /** What the reader makes of a stream: nothing if the head never ends. */
  function ParseRequest(data: Bytes, limit: int): Result<Option<Received>, ReadError> {
    var head := SplitHead(data);
    if head.None? then Ok(None)
    else if |data| - |head.value.rest| > MAX_HTTP_HEADER_BYTES then Err(TooLarge)
    else
      var parts := Split(head.value.lines[0], SPACE);
      if |parts| != 3 then Err(Malformed)
      else
        var fields := ParseFields(NoFields, head.value.lines[1..]);
        if fields.Err? then Err(fields.error)
        else
          var body := ReadBody(fields.value, head.value.rest, limit);
          if body.Err? then Err(body.error)
          else Ok(Some(Received(
            HttpRequest(parts[0], parts[1], parts[2], fields.value.headers, body.value.bytes), body.value.rest)))
  }

  method ReadHttpRequest(reader: StreamReader, limit: int) returns (r: Result<Option<HttpRequest>, ReadError>)
    modifies reader
    ensures match ParseRequest(old(reader.data), limit)
      case Ok(Some(Received(request, rest))) => r == Ok(Some(request)) && reader.data == rest
      case Ok(None) => r == Ok(None)
      case Err(e) => r == Err(e)
  {
    var headerBlock := reader.ReadUntil(CRLFCRLF);
    if headerBlock.None? {
      return Ok(None);
    }
    if |headerBlock.value| > MAX_HTTP_HEADER_BYTES {
      return Err(TooLarge);
    }
    ghost var data := old(reader.data);
    var headerLines := Split(headerBlock.value[..|headerBlock.value| - 4], CRLF);
    assert headerBlock.value[..|headerBlock.value| - 4] == data[..Find(data, CRLFCRLF)];
    var parts := Split(headerLines[0], SPACE);
    if |parts| != 3 {
      return Err(Malformed);
    }

    var headers, contentLength, chunked := [], 0, false;
    var i := 1;
    while i < |headerLines|
      invariant 1 <= i <= |headerLines|
      invariant ParseFields(Fields(headers, contentLength, chunked), headerLines[i..]) == ParseFields(NoFields, headerLines[1..])
    {
      var line := headerLines[i];
      assert headerLines[i..][0] == line && headerLines[i..][1..] == headerLines[i + 1..];
      i := i + 1;
      if line == [] {
        continue;
      }
      var colon := Find(line, COLON);
      if colon < 0 {
        return Err(Malformed);
      }
      var name, value := line[..colon], StripLeft(line[colon + 1..]);
      headers := headers + [(name, value)];
      if Lower(name) == CONTENT_LENGTH {
        var n := ParseInt(value, 10);
        if n.None? {
          return Err(Malformed);
        }
        contentLength := n.value;
      } else if Lower(name) == TRANSFER_ENCODING && Find(Lower(value), CHUNKED) >= 0 {
        chunked := true;
      }
    }
    assert headerLines[i..] == [];

    var body;
    if chunked {
      body := ReadChunkedBody(reader, limit);
    } else {
      body := ReadLengthDelimited(reader, contentLength, limit);
    }
    if body.Err? {
      return Err(body.error);
    }
    r := Ok(Some(HttpRequest(parts[0], parts[1], parts[2], headers, body.value)));
  }

  // ---- Printing a head ----

  function HeaderLine(h: Header): Bytes {
    h.0 + (COLON + SPACE) + h.1
  }

  function HeaderLines(headers: seq<Header>): seq<Bytes> {
    if headers == [] then [] else [HeaderLine(headers[0])] + HeaderLines(headers[1..])
  }

  function Terminated(lines: seq<Bytes>): Bytes {
    if lines == [] then [] else lines[0] + CRLF + Terminated(lines[1..])
  }

  function PrintHead(start: Bytes, headers: seq<Header>): Bytes {
    Terminated([start] + HeaderLines(headers)) + CRLF
  }

  // ---- A printed head is read back ----

  ghost predicate Line(s: Bytes) {
    s != [] && Without(s, CRLF)
  }

  /** No separator begins inside a line that is followed by one. */
  lemma {:induction false} NoneInside(line: Bytes, rest: Bytes)
    requires Without(line, CRLF)
    ensures forall i: nat :: i < |line| ==> !At(line + CRLF + rest, i, CRLF)
  {
    var s := line + CRLF + rest;
    forall i: nat | i < |line| ensures !At(s, i, CRLF) {
      if i + 2 <= |line| {
        AtLeft(line, CRLF + rest, i, CRLF);
        assert s == line + (CRLF + rest);
      } else {
        AtBytes(s, i, CRLF);
        assert s[i + 1] == CR && CRLF[1] == LF;
      }
    }
  }

  lemma {:induction false} BlankLineAt(s: Bytes, i: nat)
    ensures At(s, i, CRLFCRLF) <==> At(s, i, CRLF) && At(s, i + 2, CRLF)
  {
    AtBytes(s, i, CRLFCRLF);
    AtBytes(s, i, CRLF);
    AtBytes(s, i + 2, CRLF);
    assert forall k :: 0 <= k < 2 ==> CRLFCRLF[k] == CRLF[k] && CRLFCRLF[k + 2] == CRLF[k];
  }

  /** Inside and at the end of a line, a head ends only where the next line is empty. */
  lemma {:induction false} BlankLineAfter(line: Bytes, rest: Bytes, i: nat)
    requires Without(line, CRLF) && i < |line| + 2
    ensures At(line + CRLF + rest, i, CRLFCRLF) <==> i == |line| && At(rest, 0, CRLF)
  {
    var s := line + CRLF + rest;
    BlankLineAt(s, i);
    NoneInside(line, rest);
    if i == |line| {
      AtRight(line + CRLF, rest, i + 2, CRLF);
      assert s[i..i + 2] == CRLF;
    } else if i == |line| + 1 {
      AtBytes(s, i, CRLF);
      assert s[i] == LF && CRLF[0] == CR;
    }
  }

  /** A line does not end the head unless the next one is empty. */
  lemma {:induction false} HeadGoesOn(line: Bytes, rest: Bytes)
    requires Without(line, CRLF) && !At(rest, 0, CRLF) && Find(rest, CRLFCRLF) >= 0
    ensures Find(line + CRLF + rest, CRLFCRLF) == |line| + 2 + Find(rest, CRLFCRLF)
  {
    var s, n := line + CRLF + rest, Find(rest, CRLFCRLF);
    forall i: nat | i < |line| + 2 + n ensures !At(s, i, CRLFCRLF) {
      if i < |line| + 2 {
        BlankLineAfter(line, rest, i);
      } else {
        AtRight(line + CRLF, rest, i, CRLFCRLF);
      }
    }
    AtRight(line + CRLF, rest, |line| + 2 + n, CRLFCRLF);
    FindIs(s, CRLFCRLF, |line| + 2 + n);
  }

  lemma {:induction false} HeadEnds(line: Bytes, rest: Bytes)
    requires Without(line, CRLF)
    ensures Find(line + CRLF + (CRLF + rest), CRLFCRLF) == |line|
  {
    forall i: nat | i <= |line| ensures At(line + CRLF + (CRLF + rest), i, CRLFCRLF) <==> i == |line| {
      BlankLineAfter(line, CRLF + rest, i);
      assert (CRLF + rest)[0..2] == CRLF;
    }
    FindIs(line + CRLF + (CRLF + rest), CRLFCRLF, |line|);
  }

  lemma {:induction false} LastLineIsSplit(line: Bytes, rest: Bytes)
    requires Without(line, CRLF)
    ensures SplitHead(line + CRLF + (CRLF + rest)) == Some(Head([line], rest))
  {
    var data := line + CRLF + (CRLF + rest);
    HeadEnds(line, rest);
    assert data[..|line|] == line && data[|line| + 4..] == rest;
    assert Find(line, CRLF) < 0;
  }

  lemma {:induction false} LineIsSplit(line: Bytes, rest: Bytes)
    requires Without(line, CRLF) && !At(rest, 0, CRLF) && SplitHead(rest).Some?
    ensures SplitHead(line + CRLF + rest) == Some(Head([line] + SplitHead(rest).value.lines, SplitHead(rest).value.rest))
  {
    var data, end := line + CRLF + rest, Find(rest, CRLFCRLF);
    HeadGoesOn(line, rest);
    assert data[..|line| + 2 + end] == line + CRLF + rest[..end];
    assert data[|line| + 2 + end + 4..] == rest[end + 4..];
    NoneInside(line, rest[..end]);
    SplitFirst(line, CRLF, rest[..end]);
  }

  lemma {:induction false} HeadIsSplit(lines: seq<Bytes>, rest: Bytes)
    requires lines != [] && forall i :: 0 <= i < |lines| ==> Line(lines[i])
    ensures SplitHead(Terminated(lines) + CRLF + rest) == Some(Head(lines, rest))
  {
    var line, others := lines[0], lines[1..];
    var rest' := Terminated(others) + CRLF + rest;
    assert Line(line) && lines == [line] + others;
    assert Terminated(lines) + CRLF + rest == line + CRLF + rest';
    hide SplitHead;
    if others == [] {
      assert rest' == CRLF + rest && lines == [line];
      LastLineIsSplit(line, rest);
    } else {
      HeadIsSplit(others, rest);
      NextLine(others, rest);
      LineIsSplit(line, rest');
    }
  }

  lemma {:induction false} NextLine(lines: seq<Bytes>, rest: Bytes)
    requires lines != [] && Line(lines[0])
    ensures !At(Terminated(lines) + CRLF + rest, 0, CRLF)
  {
    var tail := Terminated(lines[1..]) + CRLF + rest;
    assert Terminated(lines) + CRLF + rest == lines[0] + CRLF + tail;
    NoneInside(lines[0], tail);
  }

  // ---- Printed header lines are read back ----

  ghost predicate WellFormedHeader(h: Header) {
    && Without(h.0, CRLF) && Without(h.1, CRLF)
    && Without(h.0, COLON)
    && (h.1 != [] ==> !Space(h.1[0]))
  }

  ghost predicate WellFormedHeaders(headers: seq<Header>) {
    forall i :: 0 <= i < |headers| ==> WellFormedHeader(headers[i])
  }

  lemma {:induction false} HeaderLineIsLine(h: Header)
    requires WellFormedHeader(h)
    ensures Line(HeaderLine(h))
    ensures Find(HeaderLine(h), COLON) == |h.0|
    ensures HeaderLine(h)[..|h.0|] == h.0 && StripLeft(HeaderLine(h)[|h.0| + 1..]) == h.1
  {
    var s := HeaderLine(h);
    forall i: nat ensures !At(s, i, CRLF) {
      if i + 2 <= |h.0| {
        AtLeft(h.0, COLON + SPACE + h.1, i, CRLF);
        assert s == h.0 + (COLON + SPACE + h.1);
      } else if i >= |h.0| + 2 {
        AtRight(h.0 + (COLON + SPACE), h.1, i, CRLF);
      } else {
        AtBytes(s, i, CRLF);
        assert s[|h.0|] == 58 && s[|h.0| + 1] == 32 && CRLF[0] == CR && CRLF[1] == LF;
      }
    }
    forall i: nat | i < |h.0| ensures !At(s, i, COLON) {
      AtLeft(h.0, COLON + SPACE + h.1, i, COLON);
      assert s == h.0 + (COLON + SPACE + h.1);
    }
    assert s[|h.0|..|h.0| + 1] == COLON;
    FindIs(s, COLON, |h.0|);
    var after := s[|h.0| + 1..];
    assert after == SPACE + h.1 && after[1..] == h.1;
  }

  lemma {:induction false} HeaderLinesAreRead(f: Fields, headers: seq<Header>)
    requires WellFormedHeaders(headers)
    ensures forall i :: 0 <= i < |HeaderLines(headers)| ==> Line(HeaderLines(headers)[i])
    ensures ParseFields(f, HeaderLines(headers)) == AddHeaders(f, headers)
    decreases headers
  {
    if headers != [] {
      var h := headers[0];
      var lines := HeaderLines(headers);
      HeaderLineIsLine(h);
      HeaderLinesAreRead(f, headers[1..]);
      assert lines[1..] == HeaderLines(headers[1..]);
      hide HeaderLine, Find, StripLeft;
      if AddHeader(f, h).Ok? {
        HeaderLinesAreRead(AddHeader(f, h).value, headers[1..]);
      }
    }
  }

  /** The header loop inverts the header writer. */
  lemma {:induction false} HeadRoundTrip(start: Bytes, headers: seq<Header>, rest: Bytes)
    requires Line(start) && WellFormedHeaders(headers)
    ensures var head := SplitHead(PrintHead(start, headers) + rest);
      && head.Some? && head.value.rest == rest && head.value.lines[0] == start
      && ParseFields(NoFields, head.value.lines[1..]) == AddHeaders(NoFields, headers)
  {
    var lines := [start] + HeaderLines(headers);
    HeaderLinesAreRead(NoFields, headers);
    assert PrintHead(start, headers) + rest == Terminated(lines) + CRLF + rest;
    HeadIsSplit(lines, rest);
    assert lines[1..] == HeaderLines(headers);
  }

  // ---- The head, byte by byte ----

  /** A head is its first line, then every header as its name, colon, space and value, each on a line
      of its own that CR LF ends, and an empty line. */
  lemma {:induction false} HeadIsSpelled(start: Bytes, headers: seq<Header>, h: Header)
    ensures PrintHead(start, []) == start + [13, 10] + [13, 10]
    ensures var shorter := PrintHead(start, headers);
      |shorter| >= 2 && PrintHead(start, headers + [h]) == shorter[..|shorter| - 2] + h.0 + [58, 32] + h.1 + [13, 10] + [13, 10]
  {
    var lines := [start] + HeaderLines(headers);
    HeaderLinesSnoc(headers, h);
    TerminatedSnoc(lines, HeaderLine(h));
    assert [start] + (HeaderLines(headers) + [HeaderLine(h)]) == lines + [HeaderLine(h)];
    assert PrintHead(start, headers)[..|Terminated(lines)|] == Terminated(lines);
    assert [start] + HeaderLines([]) == [start] && [start][1..] == [];
    assert Terminated([start]) == start + CRLF + [];
    hide Terminated, HeaderLines;
    assert Terminated(lines) + (HeaderLine(h) + CRLF) + CRLF
      == Terminated(lines) + h.0 + [58, 32] + h.1 + [13, 10] + [13, 10];
  }

  lemma {:induction false} TerminatedSnoc(lines: seq<Bytes>, line: Bytes)
    ensures Terminated(lines + [line]) == Terminated(lines) + (line + CRLF)
  {
    if lines == [] {
      assert [] + [line] == [line] && [line][1..] == [];
    } else {
      assert (lines + [line])[1..] == lines[1..] + [line];
      TerminatedSnoc(lines[1..], line);
    }
  }

  lemma {:induction false} HeaderLinesSnoc(headers: seq<Header>, h: Header)
    ensures HeaderLines(headers + [h]) == HeaderLines(headers) + [HeaderLine(h)]
  {
    if headers == [] {
      assert [] + [h] == [h] && [h][1..] == [];
    } else {
      assert (headers + [h])[1..] == headers[1..] + [h];
      HeaderLinesSnoc(headers[1..], h);
    }
  }

  /** However a client spaces it, a header line is read as what stands before its first colon and what
      stands behind that and any white space. */
  lemma {:induction false} AnyHeaderLineIsRead(f: Fields, name: Bytes, blank: Bytes, value: Bytes, lines: seq<Bytes>)
    requires 58 !in name && (forall i :: 0 <= i < |blank| ==> blank[i] in {9, 10, 11, 12, 13, 32})
    requires value != [] ==> value[0] !in {9, 10, 11, 12, 13, 32}
    ensures ParseFields(f, [name + [58] + blank + value] + lines) ==
      if SameButCase(name, Ascii("content-length")) then
        if ParseInt(value, 10).None? then Err(Malformed)
        else ParseFields(Fields(f.headers + [(name, value)], ParseInt(value, 10).value, f.chunked), lines)
      else
        ParseFields(Fields(f.headers + [(name, value)], f.contentLength, f.chunked || SaysChunked((name, value))), lines)
  {
    hide Find, StripLeft, IsLength, IsChunked, SaysChunked, SameButCase, ParseInt, At;
    var line := name + [58] + blank + value;
    assert ([line] + lines)[1..] == lines;
    assert line[|name|] == 58 && forall i :: 0 <= i < |name| ==> line[i] == name[i] != 58;
    forall i: nat | i < |name| ensures !At(line, i, COLON) {
      AtBytes(line, i, COLON);
    }
    AtBytes(line, |name|, COLON);
    FindIs(line, COLON, |name|);
    assert line[..|name|] == name && line[|name| + 1..] == blank + value;
    BlanksAreStripped(blank, value);
    IsLengthExactly((name, value));
    IsChunkedExactly((name, value));
  }

  /** A header line without a colon is refused. */
  lemma {:induction false} BadHeaderLineIsRefused(f: Fields, line: Bytes, lines: seq<Bytes>)
    requires line != [] && 58 !in line
    ensures ParseFields(f, [line] + lines) == Err(Malformed)
  {
    forall i: nat ensures !At(line, i, COLON) {
      AtBytes(line, i, COLON);
      assert i < |line| ==> line[i] in line;
    }
  }

  lemma {:induction false} BlanksAreStripped(blank: Bytes, value: Bytes)
    requires forall i :: 0 <= i < |blank| ==> blank[i] in {9, 10, 11, 12, 13, 32}
    requires value != [] ==> value[0] !in {9, 10, 11, 12, 13, 32}
    ensures StripLeft(blank + value) == value
  {
    if blank == [] {
      assert blank + value == value;
    } else {
      BlanksAreStripped(blank[1..], value);
      assert (blank + value)[1..] == blank[1..] + value;
    }
  }

  /** A head of more than 131072 bytes, its empty line included, is refused; one that never ends is no
      request at all. */
  lemma {:induction false} LongHeadIsRefused(data: Bytes, end: nat, limit: int)
    requires forall i: nat :: i < end ==> !At(data, i, [13, 10, 13, 10])
    ensures At(data, end, [13, 10, 13, 10]) && end + 4 > 131072 ==> ParseRequest(data, limit) == Err(TooLarge)
    ensures end == |data| ==> ParseRequest(data, limit) == Ok(None)
  {
    assert CRLFCRLF == [13, 10, 13, 10];
    if At(data, end, CRLFCRLF) {
      FindIs(data, CRLFCRLF, end);
    }
    if end == |data| {
      assert forall i: nat :: !At(data, i, CRLFCRLF);
    }
  }

  lemma {:induction false} SplitCount(s: Bytes)
    ensures |Split(s, SPACE)| == multiset(s)[32] + 1
    decreases |s|
  {
    var n := Find(s, SPACE);
    if n < 0 {
      forall i | 0 <= i < |s| ensures s[i] != 32 {
        AtBytes(s, i, SPACE);
        assert !At(s, i, SPACE);
      }
      assert 32 !in multiset(s);
    } else {
      SplitCount(s[n + 1..]);
      AtBytes(s, n, SPACE);
      forall i | 0 <= i < n ensures s[i] != 32 {
        AtBytes(s, i, SPACE);
        assert !At(s, i, SPACE);
      }
      assert s == s[..n] + [32] + s[n + 1..];
      assert 32 !in s[..n];
      assert multiset(s) == multiset(s[..n]) + multiset([32 as Byte]) + multiset(s[n + 1..]);
    }
  }

  /** A request line is refused unless it has exactly two spaces. */
  lemma {:induction false} BadRequestLineIsRefused(start: Bytes, headers: seq<Header>, rest: Bytes, limit: int)
    requires Line(start) && WellFormedHeaders(headers) && |PrintHead(start, headers)| <= 131072
    requires multiset(start)[32] != 2
    ensures ParseRequest(PrintHead(start, headers) + rest, limit) == Err(Malformed)
  {
    HeadRoundTrip(start, headers, rest);
    SplitCount(start);
    hide Split, PrintHead, ParseFields, ReadBody;
  }
}
