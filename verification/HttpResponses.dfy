/** The response writers, and a client that reads by the rules of the request reader. */
module HttpResponses {
  import opened Basics
  import opened PyBytes
  import opened PyInt
  import opened Streams
  import opened Chunked
  import opened HttpMessages
  import opened HttpRoundTrips

  /** `phrase` is what the standard library calls the status. */
  datatype Response = Response(status: nat, phrase: Bytes, headers: seq<Header>)

  const HTTP: Bytes := Ascii("HTTP/1.1")

  function StatusLine(response: Response): Bytes {
    HTTP + SPACE + Print(response.status, 10) + SPACE + response.phrase
  }

  /** The first line of a response, word by word: the version, the status in decimal, and the phrase. */
  ghost predicate SaysStatus(start: Bytes, response: Response) {
    exists word ::
      && start == Ascii("HTTP/1.1") + [32] + word + [32] + response.phrase
      && SpellsPlainly(word, 10, response.status) && 32 !in word && ParseInt(word, 10) == Some(response.status)
  }

  lemma {:induction false} StatusLineSays(response: Response)
    ensures SaysStatus(StatusLine(response), response)
  {
    var word := Print(response.status, 10);
    PrintSpells(response.status, 10);
    NumeralIsPlain(word, 10, response.status);
    ParseIntInverts(response.status, 10, [], []);
    assert [] + word + [] == word;
    hide Print, SpellsPlainly, ParseInt;
    assert StatusLine(response) == Ascii("HTTP/1.1") + [32] + word + [32] + response.phrase;
  }

  const ChunkedCoding: Header := (TRANSFER_ENCODING, CHUNKED)
  const ClosesConnection: Header := (CONNECTION, CLOSE)

  function LengthOf(body: Bytes): Header {
    (CONTENT_LENGTH, Print(|body|, 10))
  }

  predicate FramesBody(h: Header) {
    Lower(h.0) in {CONTENT_LENGTH, TRANSFER_ENCODING, CONNECTION}
  }

  lemma {:induction false} FramesBodyExactly(h: Header)
    ensures FramesBody(h) <==> Named(h, "content-length") || Named(h, "transfer-encoding") || Named(h, "connection")
  {
    SmallLetters(CONTENT_LENGTH);
    SmallLetters(TRANSFER_ENCODING);
    SmallLetters(CONNECTION);
    LowerIsCaseless(h.0, CONTENT_LENGTH);
    LowerIsCaseless(h.0, TRANSFER_ENCODING);
    LowerIsCaseless(h.0, CONNECTION);
    hide SameButCase;
  }

  function WithoutFraming(headers: seq<Header>): seq<Header> {
    if headers == [] then []
    else WithoutFraming(Front(headers)) + if FramesBody(Last(headers)) then [] else [Last(headers)]
  }

  lemma {:induction false} WithoutFramingPicks(headers: seq<Header>) returns (at: seq<int>)
    ensures PickedAt(headers, WithoutFraming(headers), at)
    ensures forall j :: j in at <==> 0 <= j < |headers| && !FramesBody(headers[j])
  {
    hide FramesBody;
    if headers == [] {
      at := [];
    } else {
      var before := WithoutFramingPicks(Front(headers));
      at := before;
      PicksGrow(headers, WithoutFraming(Front(headers)), before);
      if !FramesBody(Last(headers)) {
        at := before + [|headers| - 1];
        forall j ensures j in at <==> j in before || j == |headers| - 1 {
          assert at[|before|] == |headers| - 1;
        }
      }
    }
  }

  /** All headers but those named Content-Length, Transfer-Encoding or Connection, in any case, in order
      and unchanged. */
  ghost predicate KeptBeside(headers: seq<Header>, kept: seq<Header>) {
    exists at ::
      && PickedAt(headers, kept, at)
      && forall j :: j in at <==>
        && 0 <= j < |headers| && !Named(headers[j], "content-length") && !Named(headers[j], "transfer-encoding")
        && !Named(headers[j], "connection")
  }

  lemma {:induction false} WithoutFramingKeeps(headers: seq<Header>)
    ensures KeptBeside(headers, WithoutFraming(headers))
  {
    hide Named, FramesBody, WithoutFraming, PickedAt;
    var at := WithoutFramingPicks(headers);
    forall j | 0 <= j < |headers| ensures FramesBody(headers[j]) <==>
      Named(headers[j], "content-length") || Named(headers[j], "transfer-encoding") || Named(headers[j], "connection")
    {
      FramesBodyExactly(headers[j]);
    }
  }

  function HeadSoFar(response: Response, headers: seq<Header>): Bytes {
    Terminated([StatusLine(response)] + HeaderLines(headers))
  }

  lemma {:induction false} OneMoreHeader(response: Response, headers: seq<Header>, h: Header)
    ensures HeadSoFar(response, headers + [h]) == HeadSoFar(response, headers) + (HeaderLine(h) + CRLF)
  {
    HeaderLinesSnoc(headers, h);
    TerminatedSnoc([StatusLine(response)] + HeaderLines(headers), HeaderLine(h));
    assert [StatusLine(response)] + (HeaderLines(headers) + [HeaderLine(h)]) == [StatusLine(response)] + HeaderLines(headers) + [HeaderLine(h)];
  }

  lemma {:induction false} NoHeaderYet(response: Response)
    ensures HeadSoFar(response, []) == StatusLine(response) + CRLF
  {
    TerminatedSnoc([], StatusLine(response));
    assert [] + [StatusLine(response)] == [StatusLine(response)] + HeaderLines([]);
  }

  /** `writer.write(name + b": " + value + b"\r\n")`. */
  method WriteHeader(writer: StreamWriter, h: Header, ghost response: Response, ghost written: seq<Header>, ghost before: Bytes)
    requires writer.data == before + HeadSoFar(response, written)
    modifies writer
    ensures writer.data == before + HeadSoFar(response, written + [h])
  {
    OneMoreHeader(response, written, h);
    writer.Write(HeaderLine(h) + CRLF);
  }

  /** A complete response of a known length: first line, the given headers, the length of the body, the
      notice that the connection is closed, and the body. */
  ghost predicate IsFixedResponse(written: Bytes, response: Response, body: Bytes) {
    exists start, length ::
      && SaysStatus(start, response) && SpellsPlainly(length, 10, |body|)
      && written == PrintHead(start, response.headers + [(Ascii("content-length"), length)] + [(Ascii("connection"), Ascii("close"))]) + body
  }

  lemma {:induction false} IsFixed(response: Response, body: Bytes)
    ensures IsFixedResponse(PrintHead(StatusLine(response), response.headers + [LengthOf(body)] + [ClosesConnection]) + body, response, body)
  {
    var start, length := StatusLine(response), Print(|body|, 10);
    StatusLineSays(response);
    PrintSpells(|body|, 10);
    hide StatusLine, SaysStatus, SpellsPlainly, Print, PrintHead;
    assert LengthOf(body) == (Ascii("content-length"), length) && ClosesConnection == (Ascii("connection"), Ascii("close"));
  }

  /** `_write_fixed_response`. */
  method WriteFixedResponse(writer: StreamWriter, response: Response, body: Bytes) returns (ghost written: Bytes)
    modifies writer
    ensures writer.data == old(writer.data) + written
    ensures IsFixedResponse(written, response, body)
  {
    written := PrintHead(StatusLine(response), response.headers + [LengthOf(body)] + [ClosesConnection]) + body;
    IsFixed(response, body);
    hide IsFixedResponse;
    ghost var before := writer.data;
    NoHeaderYet(response);
    writer.Write(StatusLine(response) + CRLF);
    var i := 0;
    while i < |response.headers|
      invariant 0 <= i <= |response.headers|
      invariant writer.data == before + HeadSoFar(response, response.headers[..i])
    {
      WriteHeader(writer, response.headers[i], response, response.headers[..i], before);
      assert response.headers[..i] + [response.headers[i]] == response.headers[..i + 1];
      i := i + 1;
    }
    assert response.headers[..i] == response.headers;
    WriteHeader(writer, LengthOf(body), response, response.headers, before);
    WriteHeader(writer, ClosesConnection, response, response.headers + [LengthOf(body)], before);
    writer.Write(CRLF);
    writer.Write(body);
    Associates(before, PrintHead(StatusLine(response), response.headers + [LengthOf(body)] + [ClosesConnection]), body);
  }

  method WriteStreamingHead(writer: StreamWriter, response: Response)
    modifies writer
    ensures writer.data == old(writer.data) + SentHead(response)
  {
    hide HeadSoFar, FramesBody, StatusLine;
    ghost var before := writer.data;
    NoHeaderYet(response);
    writer.Write(StatusLine(response) + CRLF);
    var i := 0;
    ghost var written: seq<Header> := [];
    while i < |response.headers|
      invariant 0 <= i <= |response.headers|
      invariant written == WithoutFraming(response.headers[..i])
      invariant writer.data == before + HeadSoFar(response, written)
    {
      var h := response.headers[i];
      assert Front(response.headers[..i + 1]) == response.headers[..i];
      i := i + 1;
      if FramesBody(h) {
        continue;
      }
      WriteHeader(writer, h, response, written, before);
      written := written + [h];
    }
    assert response.headers[..i] == response.headers;
    WriteHeader(writer, ChunkedCoding, response, written, before);
    WriteHeader(writer, ClosesConnection, response, written + [ChunkedCoding], before);
    EndOfHead(before, response, written + [ChunkedCoding] + [ClosesConnection]);
    writer.Write(CRLF);
  }

  lemma {:induction false} EndOfHead(before: Bytes, response: Response, headers: seq<Header>)
    ensures before + HeadSoFar(response, headers) + CRLF == before + PrintHead(StatusLine(response), headers)
  {
  }

  /** The head of a streaming response: first line, those of the given headers that do not speak of
      framing, and in their stead the chunked coding and the notice that the connection is closed. */
  ghost predicate IsStreamingHead(head: Bytes, response: Response) {
    exists start, kept ::
      && SaysStatus(start, response) && KeptBeside(response.headers, kept)
      && head == PrintHead(start, kept + [(Ascii("transfer-encoding"), Ascii("chunked"))] + [(Ascii("connection"), Ascii("close"))])
  }

  function SentHead(response: Response): Bytes {
    PrintHead(StatusLine(response), WithoutFraming(response.headers) + [ChunkedCoding] + [ClosesConnection])
  }

  lemma {:induction false} SentHeadIs(response: Response)
    ensures IsStreamingHead(SentHead(response), response)
  {
    var start, kept := StatusLine(response), WithoutFraming(response.headers);
    StatusLineSays(response);
    WithoutFramingKeeps(response.headers);
    hide StatusLine, WithoutFraming, SaysStatus, KeptBeside, PrintHead;
    assert ChunkedCoding == (Ascii("transfer-encoding"), Ascii("chunked")) && ClosesConnection == (Ascii("connection"), Ascii("close"));
  }

  /** `_write_streaming_response`; `raises` when the iterator fails after the given chunks. */
  method WriteStreamingResponse(writer: StreamWriter, response: Response, chunks: seq<Bytes>, raises: bool)
    returns (ghost coded: seq<Coded>)
    modifies writer
    ensures writer.data == old(writer.data) + SentHead(response) + EncodeChunks(chunks) + if raises then [] else LastChunk
    ensures IsStreamingHead(SentHead(response), response)
    ensures EncodeChunks(chunks) == Coding(coded) && Chunked.ChunksOf(coded) == NonEmpty(chunks)
    ensures forall i :: 0 <= i < |coded| ==> PlainlyCoded(coded[i])
    ensures LastChunk == [48, 13, 10, 13, 10]
  {
    SentHeadIs(response);
    hide IsStreamingHead, Coding, PlainlyCoded, NonEmpty;
    WriteStreamingHead(writer, response);
    coded := WriteBody(writer, chunks, raises);
  }

  // ---- A client ----

  datatype ReadBack = ReadBack(start: Bytes, headers: seq<Header>, body: Body)

  function ReadResponse(data: Bytes, limit: int): Result<Option<ReadBack>, ReadError> {
    var head := SplitHead(data);
    if head.None? then Ok(None)
    else
      var fields := ParseFields(NoFields, head.value.lines[1..]);
      if fields.Err? then Err(fields.error)
      else
        var body := ReadBody(fields.value, head.value.rest, limit);
        if body.Err? then Err(body.error)
        else Ok(Some(ReadBack(head.value.lines[0], fields.value.headers, body.value)))
  }

  lemma {:induction false} WordsAreLine(word: Bytes, phrase: Bytes)
    requires Without(word, CRLF) && Without(phrase, CRLF)
    ensures Line(Ascii("HTTP/1.1") + [32] + word + [32] + phrase)
  {
    PlainIsWithout(HTTP);
    hide Without;
    JoinedWithout(HTTP, word);
    JoinedWithout(HTTP + SPACE + word, phrase);
    assert HTTP == Ascii("HTTP/1.1") && SPACE == [32];
    hide Ascii;
  }

  lemma {:induction false} NumeralIsWithout(word: Bytes, n: nat)
    requires SpellsPlainly(word, 10, n)
    ensures Without(word, CRLF)
  {
    NumeralIsPlain(word, 10, n);
    PlainIsWithout(word);
  }

  lemma {:induction false} StatusLineIsLine(start: Bytes, response: Response)
    requires Without(response.phrase, CRLF) && SaysStatus(start, response)
    ensures Line(start)
  {
    hide SpellsPlainly, Without, Line, Ascii, ParseInt;
    var word :| start == Ascii("HTTP/1.1") + [32] + word + [32] + response.phrase && SpellsPlainly(word, 10, response.status);
    NumeralIsWithout(word, response.status);
    WordsAreLine(word, response.phrase);
  }

  lemma {:induction false} PrintedResponseIsRead(response: Response, start: Bytes, headers: seq<Header>, rest: Bytes, limit: int)
    requires Without(response.phrase, CRLF) && SaysStatus(start, response) && WellFormedHeaders(headers) && LengthsParse(headers)
    ensures ReadResponse(PrintHead(start, headers) + rest, limit) ==
      var body := if DeclaresChunked(headers) then Dechunk(rest, limit, []) else LengthDelimited(rest, DeclaredLength(headers), limit);
      if body.Err? then Err(body.error) else Ok(Some(ReadBack(start, headers, body.value)))
  {
    hide SaysStatus;
    StatusLineIsLine(start, response);
    HeadRoundTrip(start, headers, rest);
    FramingOf(headers);
  }

  lemma {:induction false} OwnHeaders()
    ensures WellFormedHeader(ChunkedCoding) && SaysChunked(ChunkedCoding) && !Named(ChunkedCoding, "content-length")
    ensures WellFormedHeader(ClosesConnection) && !SaysChunked(ClosesConnection) && !Named(ClosesConnection, "content-length")
  {
    PlainIsWithout(TRANSFER_ENCODING);
    PlainIsWithout(CHUNKED);
    PlainIsWithout(CONNECTION);
    PlainIsWithout(CLOSE);
    assert CHUNKED == [] + CHUNKED + [] && SameButCase(CHUNKED, CHUNKED);
    assert |CONNECTION| != |CONTENT_LENGTH| && |TRANSFER_ENCODING| != |CONTENT_LENGTH| && |CONNECTION| != |TRANSFER_ENCODING|;
  }

  lemma {:induction false} FixedHeaders(headers: seq<Header>, length: Bytes, n: nat)
    requires WellFormedHeaders(headers) && LengthsParse(headers) && !DeclaresChunked(headers) && Spells(length, 10, n)
    ensures var sent := headers + [(CONTENT_LENGTH, length)] + [ClosesConnection];
      WellFormedHeaders(sent) && LengthsParse(sent) && !DeclaresChunked(sent) && DeclaredLength(sent) == n
  {
    var h := (CONTENT_LENGTH, length);
    var declared := headers + [h];
    var sent := declared + [ClosesConnection];
    LengthHeader(CONTENT_LENGTH, length, n);
    OwnHeaders();
    ChunkedSnoc(headers, h);
    ChunkedSnoc(declared, ClosesConnection);
    assert Front(sent) == declared && Last(sent) == ClosesConnection && Last(declared) == h;
    hide Named, SaysChunked, WellFormedHeader, DeclaresChunked, Spells;
  }

  lemma {:induction false} FixedIsRead(
    start: Bytes, length: Bytes, response: Response, body: Bytes, suffix: Bytes, limit: int)
    requires Without(response.phrase, CRLF) && WellFormedHeaders(response.headers) && |body| <= limit
    requires LengthsParse(response.headers) && !DeclaresChunked(response.headers)
    requires SaysStatus(start, response) && Spells(length, 10, |body|)
    ensures var sent := response.headers + [(CONTENT_LENGTH, length)] + [ClosesConnection];
      ReadResponse(PrintHead(start, sent) + (body + suffix), limit) == Ok(Some(ReadBack(start, sent, Body(body, suffix))))
  {
    var sent := response.headers + [(CONTENT_LENGTH, length)] + [ClosesConnection];
    FixedHeaders(response.headers, length, |body|);
    hide ReadResponse, WellFormedHeaders, LengthsParse, DeclaresChunked, DeclaredLength, SaysStatus, Spells, PrintHead;
    PrintedResponseIsRead(response, start, sent, body + suffix, limit);
    assert (body + suffix)[..|body|] == body && (body + suffix)[|body|..] == suffix;
  }

  /** What `_write_fixed_response` wrote is read back: its status and phrase, its headers, its body, and
      nothing more. */
  lemma {:induction false} FixedResponseIsRead(written: Bytes, response: Response, body: Bytes, suffix: Bytes, limit: int)
    returns (back: ReadBack)
    requires Without(response.phrase, CRLF) && WellFormedHeaders(response.headers) && |body| <= limit
    requires LengthsParse(response.headers) && !DeclaresChunked(response.headers)
    requires IsFixedResponse(written, response, body)
    ensures ReadResponse(written + suffix, limit) == Ok(Some(back))
    ensures SaysStatus(back.start, response) && back.body == Body(body, suffix)
    ensures response.headers <= back.headers && |back.headers| == |response.headers| + 2
    ensures var length := back.headers[|response.headers|];
      length.0 == Ascii("content-length") && SpellsPlainly(length.1, 10, |body|)
    ensures Last(back.headers) == (Ascii("connection"), Ascii("close"))
  {
    hide ReadResponse, WellFormedHeaders, LengthsParse, DeclaresChunked, SaysStatus, Spells, PrintHead, Without, Ascii;
    var start, length :| SaysStatus(start, response) && SpellsPlainly(length, 10, |body|)
      && written == PrintHead(start, response.headers + [(Ascii("content-length"), length)] + [(Ascii("connection"), Ascii("close"))]) + body;
    FixedIsRead(start, length, response, body, suffix, limit);
    back := ReadBack(start, response.headers + [(CONTENT_LENGTH, length)] + [ClosesConnection], Body(body, suffix));
    Associates(PrintHead(start, back.headers), body, suffix);
  }

  lemma {:induction false} KeptIsWellFormed(headers: seq<Header>, kept: seq<Header>)
    requires WellFormedHeaders(headers) && KeptBeside(headers, kept)
    ensures WellFormedHeaders(kept) && forall i :: 0 <= i < |kept| ==> !Named(kept[i], "content-length")
  {
    hide WellFormedHeader, Named;
    var at :| PickedAt(headers, kept, at) && forall j :: j in at ==> 0 <= j < |headers| && !Named(headers[j], "content-length");
    forall i | 0 <= i < |kept| ensures WellFormedHeader(kept[i]) && !Named(kept[i], "content-length") {
      assert at[i] in at;
    }
  }

  lemma {:induction false} SentHeaders(headers: seq<Header>, kept: seq<Header>)
    requires WellFormedHeaders(headers) && KeptBeside(headers, kept)
    ensures var sent := kept + [ChunkedCoding] + [ClosesConnection];
      WellFormedHeaders(sent) && LengthsParse(sent) && DeclaresChunked(sent)
  {
    KeptIsWellFormed(headers, kept);
    OwnHeaders();
    ChunkedSnoc(kept, ChunkedCoding);
    ChunkedSnoc(kept + [ChunkedCoding], ClosesConnection);
    hide WellFormedHeader, Named, SaysChunked, KeptBeside, DeclaresChunked;
  }

  lemma {:induction false} StreamingIsRead(
    start: Bytes, kept: seq<Header>, response: Response, chunks: seq<Bytes>, suffix: Bytes, limit: nat)
    requires Without(response.phrase, CRLF) && WellFormedHeaders(response.headers)
    requires SaysStatus(start, response) && KeptBeside(response.headers, kept)
    ensures var sent := kept + [ChunkedCoding] + [ClosesConnection];
      && ReadResponse(PrintHead(start, sent) + (EncodeChunks(chunks) + LastChunk + suffix), limit) ==
           (if |Concat(chunks)| <= limit then Ok(Some(ReadBack(start, sent, Body(Concat(chunks), suffix)))) else Err(TooLarge))
      && ReadResponse(PrintHead(start, sent) + EncodeChunks(chunks), limit).Err?
  {
    var sent, all := kept + [ChunkedCoding] + [ClosesConnection], EncodeChunks(chunks);
    SentHeaders(response.headers, kept);
    hide ReadResponse, WellFormedHeaders, LengthsParse, DeclaresChunked, KeptBeside, SaysStatus, PrintHead, Without;
    PrintedResponseIsRead(response, start, sent, all + LastChunk + suffix, limit);
    ChunkedRoundTrip(chunks, suffix, limit, []);
    AddNothing(Concat(chunks));
    PrintedResponseIsRead(response, start, sent, all, limit);
    CutBodyIsRefused(chunks, |all|, limit, []);
    assert all[..|all|] == all;
  }

  /** What `_write_streaming_response` wrote is read back as the concatenated chunks, whatever the
      upstream's headers said about length, coding and connection: those are not passed on. */
  lemma {:induction false} StreamingResponseIsRead(head: Bytes, response: Response, chunks: seq<Bytes>, suffix: Bytes, limit: nat)
    returns (back: ReadBack)
    requires Without(response.phrase, CRLF) && WellFormedHeaders(response.headers) && IsStreamingHead(head, response)
    ensures ReadResponse(head + (EncodeChunks(chunks) + LastChunk + suffix), limit) ==
      if |Concat(chunks)| <= limit then Ok(Some(back)) else Err(TooLarge)
    ensures SaysStatus(back.start, response) && back.body == Body(Concat(chunks), suffix) && |back.headers| >= 2
    ensures KeptBeside(response.headers, back.headers[..|back.headers| - 2])
    ensures back.headers[|back.headers| - 2] == (Ascii("transfer-encoding"), Ascii("chunked"))
    ensures Last(back.headers) == (Ascii("connection"), Ascii("close"))
  {
    hide ReadResponse, WellFormedHeaders, KeptBeside, SaysStatus, PrintHead, Without, Ascii, Concat, EncodeChunks;
    var start, kept :| SaysStatus(start, response) && KeptBeside(response.headers, kept)
      && head == PrintHead(start, kept + [(Ascii("transfer-encoding"), Ascii("chunked"))] + [(Ascii("connection"), Ascii("close"))]);
    StreamingIsRead(start, kept, response, chunks, suffix, limit);
    var sent := kept + [ChunkedCoding] + [ClosesConnection];
    back := ReadBack(start, sent, Body(Concat(chunks), suffix));
    assert sent[..|sent| - 2] == kept;
  }

  /** A streaming response whose iterator raised is never taken for a complete one. */
  lemma {:induction false} CutStreamingResponseIsRefused(head: Bytes, response: Response, chunks: seq<Bytes>, limit: nat)
    requires Without(response.phrase, CRLF) && WellFormedHeaders(response.headers) && IsStreamingHead(head, response)
    ensures ReadResponse(head + EncodeChunks(chunks), limit).Err?
  {
    hide ReadResponse, WellFormedHeaders, KeptBeside, SaysStatus, PrintHead, Without, Ascii, Concat, EncodeChunks;
    var start, kept :| SaysStatus(start, response) && KeptBeside(response.headers, kept)
      && head == PrintHead(start, kept + [(Ascii("transfer-encoding"), Ascii("chunked"))] + [(Ascii("connection"), Ascii("close"))]);
    StreamingIsRead(start, kept, response, chunks, [], limit);
  }
}
