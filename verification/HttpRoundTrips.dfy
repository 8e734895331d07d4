/** The request reader inverts the printing of a request, and a client that reads by the same
    rules inverts the response writers. */
module HttpRoundTrips {
  import opened Basics
  import opened PyBytes
  import opened PyInt
  import opened Streams
  import opened Chunked
  import opened HttpMessages

  // ---- Which body the headers declare ----

  ghost predicate LengthsParse(headers: seq<Header>) {
    forall i :: 0 <= i < |headers| && Named(headers[i], "content-length") ==> ParseInt(headers[i].1, 10).Some?
  }

  ghost predicate DeclaresChunked(headers: seq<Header>) {
    exists i :: 0 <= i < |headers| && SaysChunked(headers[i])
  }

  /** The last Content-Length decides; without one there is no body. */
  ghost function DeclaredLength(headers: seq<Header>): int {
    if headers == [] then 0
    else if !Named(Last(headers), "content-length") then DeclaredLength(Front(headers))
    else if ParseInt(Last(headers).1, 10).Some? then ParseInt(Last(headers).1, 10).value
    else 0
  }

  lemma {:induction false} AddHeadersSnoc(f: Fields, headers: seq<Header>, h: Header)
    ensures AddHeaders(f, headers + [h]) ==
      if AddHeaders(f, headers).Err? then AddHeaders(f, headers) else AddHeader(AddHeaders(f, headers).value, h)
    decreases headers
  {
    hide AddHeader;
    if headers == [] {
      assert [] + [h] == [h];
    } else {
      assert (headers + [h])[0] == headers[0] && (headers + [h])[1..] == headers[1..] + [h];
      if AddHeader(f, headers[0]).Ok? {
        AddHeadersSnoc(AddHeader(f, headers[0]).value, headers[1..], h);
      }
    }
  }

  /** The header loop keeps every header in order, and finds the last Content-Length and any
      chunked coding; it fails exactly on a Content-Length that is no number. */
  lemma {:induction false} FramingOf(headers: seq<Header>)
    ensures AddHeaders(NoFields, headers) ==
      if LengthsParse(headers) then Ok(Fields(headers, DeclaredLength(headers), DeclaresChunked(headers))) else Err(Malformed)
    decreases |headers|
  {
    if headers != [] {
      var front, h := Front(headers), Last(headers);
      assert headers == front + [h];
      FramingOf(front);
      AddHeadersSnoc(NoFields, front, h);
      IsLengthExactly(h);
      IsChunkedExactly(h);
      NotBothFramings(h);
      hide IsChunked, IsLength, Named, SaysChunked;
      assert LengthsParse(headers) <==> LengthsParse(front) && (Named(h, "content-length") ==> ParseInt(h.1, 10).Some?);
      ChunkedSnoc(front, h);
    }
  }

  lemma {:induction false} ChunkedSnoc(headers: seq<Header>, h: Header)
    ensures DeclaresChunked(headers + [h]) <==> DeclaresChunked(headers) || SaysChunked(h)
  {
    hide SaysChunked;
    var all := headers + [h];
    assert all[|headers|] == h;
    forall i | 0 <= i < |headers| && SaysChunked(headers[i]) ensures DeclaresChunked(all) {
      assert SaysChunked(all[i]);
    }
    if DeclaresChunked(all) {
      var i :| 0 <= i < |all| && SaysChunked(all[i]);
      assert i < |headers| ==> SaysChunked(headers[i]);
    }
  }

  // ---- Requests ----

  function StartLine(request: HttpRequest): Bytes {
    request.method_ + SPACE + request.target + SPACE + request.version
  }

  function PrintRequestHead(request: HttpRequest): Bytes {
    PrintHead(StartLine(request), request.headers)
  }

  ghost predicate Word(s: Bytes) {
    Without(s, SPACE) && Without(s, CRLF)
  }

  ghost predicate WellFormed(request: HttpRequest) {
    Word(request.method_) && Word(request.target) && Word(request.version) && WellFormedHeaders(request.headers)
  }

  lemma {:induction false} JoinedWithout(a: Bytes, b: Bytes)
    ensures Without(a + SPACE + b, CRLF) <==> Without(a, CRLF) && Without(b, CRLF)
  {
    var s := a + SPACE + b;
    forall i: nat ensures At(s, i, CRLF) <==> if i >= |a| + 1 then At(b, i - |a| - 1, CRLF) else At(a, i, CRLF) {
      if i + 2 <= |a| {
        AtLeft(a, SPACE + b, i, CRLF);
        assert s == a + (SPACE + b);
      } else if i >= |a| + 1 {
        AtRight(a + SPACE, b, i, CRLF);
      } else {
        AtBytes(s, i, CRLF);
        assert s[|a|] == 32;
      }
    }
    forall i: nat ensures At(s, i + |a| + 1, CRLF) <==> At(b, i, CRLF) {
    }
  }

  lemma {:induction false} StartLineWithout(request: HttpRequest)
    ensures Without(StartLine(request), CRLF)
      <==> Without(request.method_, CRLF) && Without(request.target, CRLF) && Without(request.version, CRLF)
  {
    JoinedWithout(request.method_, request.target);
    JoinedWithout(request.method_ + SPACE + request.target, request.version);
  }

  lemma {:induction false} WordIsSplit(word: Bytes, rest: Bytes)
    requires Without(word, SPACE)
    ensures Split(word + SPACE + rest, SPACE) == [word] + Split(rest, SPACE)
  {
    forall i: nat | i < |word| ensures !At(word + SPACE + rest, i, SPACE) {
      AtLeft(word, SPACE + rest, i, SPACE);
      assert word + SPACE + rest == word + (SPACE + rest);
    }
    SplitFirst(word, SPACE, rest);
  }

  lemma {:induction false} StartLineIsSplit(request: HttpRequest)
    requires Without(request.method_, SPACE) && Without(request.target, SPACE) && Without(request.version, SPACE)
    ensures Split(StartLine(request), SPACE) == [request.method_, request.target, request.version]
  {
    var rest := request.target + SPACE + request.version;
    assert StartLine(request) == request.method_ + SPACE + rest;
    WordIsSplit(request.method_, rest);
    WordIsSplit(request.target, request.version);
    assert Find(request.version, SPACE) < 0;
  }

  /** A printed head comes back whole, and reading goes on with what its headers declare. */
  lemma {:induction false} PrintedRequestIsRead(request: HttpRequest, rest: Bytes, limit: int)
    requires WellFormed(request) && |PrintRequestHead(request)| <= 131072
    ensures ParseRequest(PrintRequestHead(request) + rest, limit) ==
      if !LengthsParse(request.headers) then Err(Malformed)
      else
        var body := if DeclaresChunked(request.headers) then Dechunk(rest, limit, [])
                    else LengthDelimited(rest, DeclaredLength(request.headers), limit);
        if body.Err? then Err(body.error)
        else Ok(Some(Received(request.(body := body.value.bytes), body.value.rest)))
  {
    StartLineWithout(request);
    StartLineIsSplit(request);
    HeadRoundTrip(StartLine(request), request.headers, rest);
    FramingOf(request.headers);
  }

  // ---- Exactly which requests come back ----

  lemma {:induction false} StripLeftIsSuffix(s: Bytes) returns (n: nat)
    ensures n <= |s| && StripLeft(s) == s[n..]
    ensures StripLeft(s) != [] ==> !Space(StripLeft(s)[0])
  {
    if s != [] && Space(s[0]) {
      n := StripLeftIsSuffix(s[1..]);
      assert s[1..][n..] == s[n + 1..];
      n := n + 1;
    } else {
      n := 0;
    }
  }

  lemma {:induction false} SliceWithout(s: Bytes, sep: Bytes, from: nat, to: nat)
    requires Without(s, sep) && from <= to <= |s|
    ensures Without(s[from..to], sep)
  {
    forall i: nat ensures !At(s[from..to], i, sep) {
      if from + i + |sep| <= to {
        AtBytes(s[from..to], i, sep);
        AtBytes(s, from + i, sep);
        assert !At(s, from + i, sep);
      }
    }
  }

  lemma {:induction false} ReadHeaderIsWellFormed(line: Bytes)
    requires Without(line, CRLF) && Find(line, COLON) >= 0
    ensures WellFormedHeader((line[..Find(line, COLON)], StripLeft(line[Find(line, COLON) + 1..])))
  {
    var colon := Find(line, COLON);
    var n := StripLeftIsSuffix(line[colon + 1..]);
    SliceWithout(line, CRLF, 0, colon);
    SliceWithout(line, CRLF, colon + 1 + n, |line|);
    assert line[colon + 1..][n..] == line[colon + 1 + n..|line|];
    assert line == line[..colon] + line[colon..];
    forall i: nat ensures !At(line[..colon], i, COLON) {
      if i < colon {
        AtLeft(line[..colon], line[colon..], i, COLON);
      }
    }
  }

  /** Whatever lines are read, the headers collected from them are well formed. */
  lemma {:induction false} ReadHeadersAreWellFormed(f: Fields, lines: seq<Bytes>)
    requires forall i :: 0 <= i < |lines| ==> Without(lines[i], CRLF)
    requires WellFormedHeaders(f.headers)
    ensures ParseFields(f, lines).Ok? ==> WellFormedHeaders(ParseFields(f, lines).value.headers)
    decreases lines
  {
    hide WellFormedHeader, AddHeader;
    if lines == [] {
    } else if lines[0] == [] {
      ReadHeadersAreWellFormed(f, lines[1..]);
    } else if Find(lines[0], COLON) >= 0 {
      var h := (lines[0][..Find(lines[0], COLON)], StripLeft(lines[0][Find(lines[0], COLON) + 1..]));
      ReadHeaderIsWellFormed(lines[0]);
      AddedIsLast(f, h);
      if AddHeader(f, h).Ok? {
        ReadHeadersAreWellFormed(AddHeader(f, h).value, lines[1..]);
      }
    }
  }

  lemma {:induction false} AddedIsLast(f: Fields, h: Header)
    ensures AddHeader(f, h).Ok? ==> AddHeader(f, h).value.headers == f.headers + [h]
  {
  }

  /** The reader only returns well-formed requests. */
  lemma {:induction false} ReadRequestIsWellFormed(data: Bytes, limit: int)
    requires ParseRequest(data, limit).Ok? && ParseRequest(data, limit).value.Some?
    ensures WellFormed(ParseRequest(data, limit).value.value.request)
  {
    var request := ParseRequest(data, limit).value.value.request;
    var lines := SplitHead(data).value.lines;
    SplitParts(data[..Find(data, CRLFCRLF)], CRLF);
    assert Without(lines[0], CRLF);
    ReadHeadersAreWellFormed(NoFields, lines[1..]);
    var parts := Split(lines[0], SPACE);
    SplitParts(lines[0], SPACE);
    assert parts == [request.method_, request.target, request.version];
    assert Without(parts[0], SPACE) && Without(parts[1], SPACE) && Without(parts[2], SPACE);
    JoinThree(parts[0], parts[1], parts[2]);
    StartLineWithout(request);
  }

  lemma {:induction false} JoinThree(a: Bytes, b: Bytes, c: Bytes)
    ensures Join([a, b, c], SPACE) == a + SPACE + b + SPACE + c
  {
    assert [a, b, c][1..] == [b, c] && [b, c][1..] == [c];
    assert Join([b, c], SPACE) == b + SPACE + c;
    assert a + SPACE + (b + SPACE + c) == a + SPACE + b + SPACE + c;
  }

  /** The body and what follows it are always shorter than the chunked data they were read from. */
  lemma {:induction false} DechunkShrinks(data: Bytes, limit: int, body: Bytes)
    ensures Dechunk(data, limit, body).Ok? ==>
      |Dechunk(data, limit, body).value.bytes| + |Dechunk(data, limit, body).value.rest| < |body| + |data|
    decreases |data|
  {
    var n := LineEnd(data);
    var size, rest := ChunkSize(data[..n]), data[n..];
    if data == [] {
      assert ChunkSize([]) == None;
    } else if size.Some? && 0 < size.value && size.value + 2 <= |rest| && |body| + size.value <= limit {
      DechunkShrinks(rest[size.value + 2..], limit, body + rest[..size.value]);
    }
  }

  /** A request within the limits, printed with its body and followed by anything, is read back as
      itself, the rest left unread, if and only if its parts have no space or CRLF in them, its
      header names no colon, its header values no leading white space, and its headers declare
      exactly its body. */
  lemma {:induction false} RequestRoundTrip(request: HttpRequest, suffix: Bytes, limit: int)
    requires |PrintRequestHead(request)| <= 131072 && |request.body| <= limit
    ensures ParseRequest(PrintRequestHead(request) + (request.body + suffix), limit) == Ok(Some(Received(request, suffix)))
      <==> && WellFormed(request) && LengthsParse(request.headers) && !DeclaresChunked(request.headers)
           && DeclaredLength(request.headers) == |request.body|
  {
    var data := request.body + suffix;
    if ParseRequest(PrintRequestHead(request) + data, limit) == Ok(Some(Received(request, suffix))) {
      ReadRequestIsWellFormed(PrintRequestHead(request) + data, limit);
    }
    if WellFormed(request) {
      PrintedRequestIsRead(request, data, limit);
      DechunkShrinks(data, limit, []);
      var n := DeclaredLength(request.headers);
      hide ParseRequest, Dechunk, WellFormed, DeclaredLength, DeclaresChunked, LengthsParse;
      if n == |request.body| {
        assert data[..n] == request.body && data[n..] == suffix;
      }
      assert request.(body := request.body) == request;
    }
  }

  /** With its own length as the last Content-Length, in decimal and with zeros in front or not, whatever
      the case of its name, every body can be sent. */
  lemma {:induction false} PrintedLengthIsRead(request: HttpRequest, name: Bytes, length: Bytes, suffix: Bytes, limit: int)
    requires WellFormed(request) && |request.body| <= limit
    requires SameButCase(name, Ascii("content-length")) && Spells(length, 10, |request.body|)
    requires forall i :: 0 <= i < |request.headers| ==>
      && (SameButCase(request.headers[i].0, Ascii("content-length")) ==> ParseInt(request.headers[i].1, 10).Some?)
      && !(SameButCase(request.headers[i].0, Ascii("transfer-encoding")) && Mentions(request.headers[i].1, Ascii("chunked")))
    ensures var sent := request.(headers := request.headers + [(name, length)]);
      |PrintRequestHead(sent)| <= 131072 ==>
      ParseRequest(PrintRequestHead(sent) + (request.body + suffix), limit) == Ok(Some(Received(sent, suffix)))
  {
    var h := (name, length);
    var sent := request.(headers := request.headers + [h]);
    assert LengthsParse(request.headers) && !DeclaresChunked(request.headers);
    LengthHeader(name, length, |request.body|);
    ChunkedSnoc(request.headers, h);
    assert Front(sent.headers) == request.headers && Last(sent.headers) == h;
    hide ParseRequest, Named, SaysChunked, WellFormedHeader, SameButCase, Mentions, Spells;
    assert WellFormed(sent);
    assert LengthsParse(sent.headers);
    if |PrintRequestHead(sent)| <= 131072 {
      RequestRoundTrip(sent, suffix, limit);
    }
  }

  lemma {:induction false} LengthHeader(name: Bytes, length: Bytes, n: nat)
    requires SameButCase(name, Ascii("content-length")) && Spells(length, 10, n)
    ensures var h := (name, length);
      WellFormedHeader(h) && Named(h, "content-length") && !SaysChunked(h) && ParseInt(h.1, 10) == Some(n)
  {
    hide Spells, ParseInt, Mentions, Without, Ascii;
    NumeralIsPlain(length, 10, n);
    NumeralIsParsed([], length, [], 10, n);
    assert [] + length + [] == length;
    PlainIsWithout(length);
    PlainIsWithout(name);
    NotBothFramings((name, length));
  }

  lemma {:induction false} PlainIsWithout(s: Bytes)
    requires forall i :: 0 <= i < |s| ==> s[i] != CR && s[i] != 58
    ensures Without(s, CRLF) && Without(s, COLON)
  {
    forall i: nat ensures !At(s, i, CRLF) && !At(s, i, COLON) {
      AtBytes(s, i, CRLF);
      AtBytes(s, i, COLON);
      assert CRLF[0] == CR && COLON[0] == 58;
    }
  }

  /** A chunked body, in any chunks, is read back whole if and only if it fits the limit, when some
      Transfer-Encoding says so, in any case, and whatever else the headers say about its length. */
  lemma {:induction false} ChunkedRequestRoundTrip(request: HttpRequest, chunks: seq<Bytes>, suffix: Bytes, limit: nat, i: nat)
    requires WellFormed(request) && |PrintRequestHead(request)| <= 131072
    requires forall j :: 0 <= j < |request.headers| && SameButCase(request.headers[j].0, Ascii("content-length")) ==>
      ParseInt(request.headers[j].1, 10).Some?
    requires i < |request.headers| && SameButCase(request.headers[i].0, Ascii("transfer-encoding"))
    requires Mentions(request.headers[i].1, Ascii("chunked"))
    ensures ParseRequest(PrintRequestHead(request) + (EncodeChunks(chunks) + LastChunk + suffix), limit) ==
      if |Concat(chunks)| <= limit then Ok(Some(Received(request.(body := Concat(chunks)), suffix))) else Err(TooLarge)
  {
    assert SaysChunked(request.headers[i]);
    assert LengthsParse(request.headers) && DeclaresChunked(request.headers);
    hide Named, SaysChunked, SameButCase, Mentions, LengthsParse, DeclaresChunked;
    PrintedRequestIsRead(request, EncodeChunks(chunks) + LastChunk + suffix, limit);
    ChunkedRoundTrip(chunks, suffix, limit, []);
    assert [] + Concat(chunks) == Concat(chunks);
  }
}
