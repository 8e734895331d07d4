/** HTTP chunked coding, section 7.1 of RFC 9112: the writer, the reader and the body limits. */
module Chunked {
  import opened Basics
  import opened PyInt
  import opened Streams

  // ---- Writing ----

  function EncodeChunk(chunk: Bytes): Bytes {
    if chunk == [] then [] else Print(|chunk|, 16) + CRLF + chunk + CRLF
  }

  function EncodeChunks(chunks: seq<Bytes>): Bytes {
    if chunks == [] then [] else EncodeChunk(chunks[0]) + EncodeChunks(chunks[1..])
  }

  const LastChunk: Bytes := [48] + CRLF + CRLF

  /** The body loop of `_write_streaming_response`. When the iterator raises instead of ending,
      what was written is all there will be. It writes the chunks that are not empty, in order, each
      plainly coded. */
  method WriteBody(writer: StreamWriter, chunks: seq<Bytes>, raises: bool) returns (ghost coded: seq<Coded>)
    modifies writer
    ensures writer.data == old(writer.data) + EncodeChunks(chunks) + if raises then [] else LastChunk
    ensures EncodeChunks(chunks) == Coding(coded) && ChunksOf(coded) == NonEmpty(chunks)
    ensures forall i :: 0 <= i < |coded| ==> PlainlyCoded(coded[i])
    ensures LastChunk == [48, 13, 10, 13, 10]
  {
    coded := WrittenExactly(chunks);
    hide Coding, ChunksOf, NonEmpty, PlainlyCoded;
    var i := 0;
    ghost var before := writer.data;
    assert chunks[..0] == [] && before + [] == before;
    while i < |chunks|
      invariant 0 <= i <= |chunks|
      invariant writer.data == before + EncodeChunks(chunks[..i])
    {
      ghost var written := writer.data;
      if chunks[i] != [] {
        writer.Write(Print(|chunks[i]|, 16) + CRLF);
        writer.Write(chunks[i]);
        writer.Write(CRLF);
      }
      WroteOneMore(before, written, chunks, i);
      i := i + 1;
    }
    assert chunks[..|chunks|] == chunks;
    if !raises {
      writer.Write(LastChunk);
    }
  }

  lemma {:induction false} WroteOneMore(before: Bytes, written: Bytes, chunks: seq<Bytes>, i: nat)
    requires i < |chunks| && written == before + EncodeChunks(chunks[..i])
    ensures before + EncodeChunks(chunks[..i + 1]) ==
      if chunks[i] == [] then written else written + (Print(|chunks[i]|, 16) + CRLF) + chunks[i] + CRLF
  {
    var chunk, encoded := chunks[i], EncodeChunks(chunks[..i]);
    assert chunks[..i + 1] == chunks[..i] + [chunk];
    EncodeChunksAppend(chunks[..i], [chunk]);
    EncodeOne(chunk);
    hide EncodeChunks, EncodeChunk, Print;
    if chunk == [] {
      assert encoded + [] == encoded;
    } else {
      RegroupChunk(before, encoded, Print(|chunk|, 16), CRLF, chunk);
    }
  }

  lemma {:induction false} RegroupChunk(a: Bytes, b: Bytes, c: Bytes, eol: Bytes, d: Bytes)
    ensures a + (b + (c + eol + d + eol)) == a + b + (c + eol) + d + eol
  {
  }

  lemma {:induction false} EncodeOne(chunk: Bytes)
    ensures EncodeChunks([chunk]) == if chunk == [] then [] else Print(|chunk|, 16) + CRLF + chunk + CRLF
  {
    var none: seq<Bytes> := [];
    assert [chunk][1..] == none;
  }

  lemma {:induction false} EncodeChunksAppend(a: seq<Bytes>, b: seq<Bytes>)
    ensures EncodeChunks(a + b) == EncodeChunks(a) + EncodeChunks(b)
  {
    hide EncodeChunk;
    if a == [] {
      assert a + b == b;
    } else {
      EncodeChunksAppend(a[1..], b);
      assert (a + b)[0] == a[0] && (a + b)[1..] == a[1..] + b;
    }
  }

  // ---- Reading ----

  function BeforeSemicolon(line: Bytes): (r: Bytes)
    ensures |r| <= |line|
  {
    if line == [] || line[0] == 59 then [] else [line[0]] + BeforeSemicolon(line[1..])
  }

  function ChunkSize(line: Bytes): Option<int> {
    ParseInt(Strip(BeforeSemicolon(line)), 16)
  }

  /** The rest of the stream after the trailer section. */
  function AfterTrailers(data: Bytes): (rest: Bytes)
    ensures |rest| <= |data|
    decreases |data|
  {
    var n := LineEnd(data);
    if data[..n] in {CRLF, [LF], []} then data[n..] else AfterTrailers(data[n..])
  }

  datatype Body = Body(bytes: Bytes, rest: Bytes)

  /** The body that a reader finds in `data`, after it has already collected `body`. */
  function Dechunk(data: Bytes, limit: int, body: Bytes): Result<Body, ReadError>
    decreases |data|
  {
    var n := LineEnd(data);
    var size, rest := ChunkSize(data[..n]), data[n..];
    if size.None? || size.value < 0 then Err(Malformed)
    else if size.value == 0 then Ok(Body(body, AfterTrailers(rest)))
    else if size.value > |rest| then Err(Truncated)
    else
      var more := body + rest[..size.value];
      if |more| > limit then Err(TooLarge)
      else if size.value + 2 > |rest| then Err(Truncated)
      else Dechunk(rest[size.value + 2..], limit, more)
  }

  method SkipTrailers(reader: StreamReader)
    modifies reader
    ensures reader.data == AfterTrailers(old(reader.data))
  {
    while true
      invariant AfterTrailers(reader.data) == AfterTrailers(old(reader.data))
      decreases |reader.data|
    {
      var trailer := reader.ReadLine();
      if trailer in {CRLF, [LF], []} {
        return;
      }
    }
  }

  method ReadChunkedBody(reader: StreamReader, limit: int) returns (r: Result<Bytes, ReadError>)
    modifies reader
    ensures match Dechunk(old(reader.data), limit, [])
      case Ok(Body(bytes, rest)) => r == Ok(bytes) && reader.data == rest
      case Err(e) => r == Err(e)
  {
    var body: Bytes := [];
    while true
      invariant Dechunk(reader.data, limit, body) == Dechunk(old(reader.data), limit, [])
      decreases |reader.data|
    {
      var line := reader.ReadLine();
      var size := ChunkSize(line);
      if size.None? {
        return Err(Malformed);
      }
      if size.value == 0 {
        SkipTrailers(reader);
        return Ok(body);
      }
      var chunk := reader.ReadExactly(size.value);
      if chunk.Err? {
        return Err(chunk.error);
      }
      body := body + chunk.value;
      if |body| > limit {
        return Err(TooLarge);
      }
      var end := reader.ReadExactly(2);
      if end.Err? {
        return Err(end.error);
      }
    }
  }

  // ---- Reading what was written ----

  lemma {:induction false} SizeLineIsRead(size: nat, end: Bytes)
    requires end in {[], [CR], CRLF, [LF]}
    ensures ChunkSize(Print(size, 16) + end) == Some(size)
  {
    hide Print, Strip, ParseInt, BeforeSemicolon;
    var s := Print(size, 16);
    PrintsDigits(size, 16);
    NoSemicolon(s + end);
    StripKeepsDigits(s, [], end);
    ParseIntInverts(size, 16, [], []);
    assert [] + s + end == s + end && [] + s + [] == s;
  }

  lemma {:induction false} NoSemicolon(s: Bytes)
    requires forall i :: 0 <= i < |s| ==> s[i] != 59
    ensures BeforeSemicolon(s) == s
  {
    if s != [] {
      NoSemicolon(s[1..]);
    }
  }

  lemma {:induction false} PrintedLine(size: nat, rest: Bytes)
    ensures LineEnd(Print(size, 16) + CRLF + rest) == |Print(size, 16)| + 2
  {
    var s := Print(size, 16);
    PrintsDigits(size, 16);
    assert s + CRLF + rest == (s + [CR]) + [LF] + rest;
    LineEndOf(s + [CR], rest);
  }

  /** One written chunk is read as its bytes, if they still fit. */
  lemma {:induction false} ChunkIsRead(chunk: Bytes, rest: Bytes, limit: int, body: Bytes)
    requires chunk != []
    ensures Dechunk(EncodeChunk(chunk) + rest, limit, body)
      == if |body| + |chunk| > limit then Err(TooLarge) else Dechunk(rest, limit, body + chunk)
  {
    var s := Print(|chunk|, 16);
    var tail := chunk + (CRLF + rest);
    var data := s + CRLF + tail;
    assert EncodeChunk(chunk) + rest == data;
    PrintedLine(|chunk|, tail);
    SizeLineIsRead(|chunk|, CRLF);
    hide ChunkSize, LineEnd, Print;
    assert data[..|s| + 2] == s + CRLF && data[|s| + 2..] == tail;
    assert tail[..|chunk|] == chunk && tail[|chunk| + 2..] == rest;
  }

  lemma {:induction false} LastChunkIsRead(suffix: Bytes, limit: int, body: Bytes)
    ensures Dechunk(LastChunk + suffix, limit, body) == Ok(Body(body, suffix))
  {
    var tail := CRLF + suffix;
    assert Print(0, 16) == [48];
    assert LastChunk + suffix == Print(0, 16) + CRLF + tail;
    PrintedLine(0, tail);
    SizeLineIsRead(0, CRLF);
    assert tail == [CR] + [LF] + suffix;
    LineEndOf([CR], suffix);
    assert tail[..2] == CRLF && tail[2..] == suffix;
    assert (LastChunk + suffix)[..3] == Print(0, 16) + CRLF && (LastChunk + suffix)[3..] == tail;
  }

  lemma {:induction false} EmptyChunkIsSkipped(rest: Bytes)
    ensures EncodeChunk([]) + rest == rest
  {
  }

  /** Chunked coding round trip, for every list of chunks, empty ones included, every limit and
      whatever follows on the stream: the body comes back whole and the suffix is left unread if
      and only if it fits; otherwise it is refused. */
  lemma {:induction false} ChunkedRoundTrip(chunks: seq<Bytes>, suffix: Bytes, limit: int, body: Bytes)
    requires |body| <= limit
    ensures Dechunk(EncodeChunks(chunks) + LastChunk + suffix, limit, body)
      == if |body + Concat(chunks)| <= limit then Ok(Body(body + Concat(chunks), suffix)) else Err(TooLarge)
  {
    hide Dechunk, EncodeChunk;
    if chunks == [] {
      assert EncodeChunks(chunks) + LastChunk + suffix == LastChunk + suffix && body + Concat(chunks) == body;
      LastChunkIsRead(suffix, limit, body);
    } else {
      var rest := EncodeChunks(chunks[1..]) + LastChunk + suffix;
      assert EncodeChunks(chunks) + LastChunk + suffix == EncodeChunk(chunks[0]) + rest;
      if chunks[0] == [] {
        EmptyChunkIsSkipped(rest);
        assert body + chunks[0] == body;
      } else {
        ChunkIsRead(chunks[0], rest, limit, body);
      }
      if |body| + |chunks[0]| <= limit {
        ChunkedRoundTrip(chunks[1..], suffix, limit, body + chunks[0]);
      }
      assert body + Concat(chunks) == body + chunks[0] + Concat(chunks[1..]);
    }
  }

  // ---- Any chunked coding ----

  /** One chunk as section 7.1 of RFC 9112 spells it: its size line up to the LF, its bytes, and the
      two bytes behind them. */
  datatype Coded = Coded(line: Bytes, chunk: Bytes, end: Bytes)

  ghost predicate Blanks(s: Bytes) {
    forall i :: 0 <= i < |s| ==> s[i] in {9, 11, 12, 13, 32}
  }

  ghost predicate SizeParts(line: Bytes, n: nat, before: Bytes, size: Bytes, after: Bytes, extension: Bytes) {
    && line == before + size + after + extension
    && Blanks(before) && Spells(size, 16, n) && Blanks(after)
    && (extension != [] ==> extension[0] == 59) && 10 !in extension
  }

  /** A hexadecimal size in either case, white space around it, and any chunk extension behind it. */
  ghost predicate SizeLine(line: Bytes, n: nat) {
    exists before, size, after, extension :: SizeParts(line, n, before, size, after, extension)
  }

  ghost predicate WellCoded(c: Coded) {
    c.chunk != [] && SizeLine(c.line, |c.chunk|) && |c.end| == 2
  }

  ghost function Coding(coded: seq<Coded>): Bytes {
    if coded == [] then [] else coded[0].line + [10] + coded[0].chunk + coded[0].end + Coding(coded[1..])
  }

  ghost function ChunksOf(coded: seq<Coded>): seq<Bytes> {
    seq(|coded|, i requires 0 <= i < |coded| => coded[i].chunk)
  }

  ghost function Lines(lines: seq<Bytes>): Bytes {
    if lines == [] then [] else lines[0] + [10] + Lines(lines[1..])
  }

  /** A trailer line, up to its LF: not an empty line. */
  ghost predicate Trailer(line: Bytes) {
    line != [] && line != [13] && 10 !in line
  }

  lemma {:induction false} BeforeExtension(s: Bytes, rest: Bytes)
    requires 59 !in s && (rest != [] ==> rest[0] == 59)
    ensures BeforeSemicolon(s + rest) == s
  {
    if s != [] {
      assert (s + rest)[1..] == s[1..] + rest;
      BeforeExtension(s[1..], rest);
      assert s == [s[0]] + s[1..];
    }
  }

  lemma {:induction false} StrippedSize(before: Bytes, size: Bytes, after: Bytes, n: nat)
    requires Spells(size, 16, n) && Blanks(before)
    requires forall i :: 0 <= i < |after| ==> after[i] in {9, 10, 11, 12, 13, 32}
    ensures ParseInt(Strip(before + size + after), 16) == Some(n)
  {
    NumeralIsPlain(size, 16, n);
    StripLeftOf(before, size + after);
    assert before + size + after == before + (size + after);
    StripRightOf(size, after);
    NumeralIsParsed([], size, [], 16, n);
    assert [] + size + [] == size;
  }

  lemma {:induction false} AnySizeIsRead(line: Bytes, n: nat)
    requires SizeLine(line, n)
    ensures ChunkSize(line + [10]) == Some(n) && 10 !in line
  {
    var before, size, after, extension :| SizeParts(line, n, before, size, after, extension);
    NumeralIsPlain(size, 16, n);
    hide Spells, ParseInt, Strip;
    if extension == [] {
      var all := before + size + (after + [10]);
      assert line + [10] == all + [];
      BeforeExtension(all, []);
      StrippedSize(before, size, after + [10], n);
    } else {
      assert line + [10] == (before + size + after) + (extension + [10]);
      BeforeExtension(before + size + after, extension + [10]);
      StrippedSize(before, size, after, n);
    }
  }

  lemma {:induction false} AnyChunkIsRead(c: Coded, rest: Bytes, limit: int, body: Bytes)
    requires WellCoded(c)
    ensures Dechunk(c.line + [10] + c.chunk + c.end + rest, limit, body)
      == if |body| + |c.chunk| > limit then Err(TooLarge) else Dechunk(rest, limit, body + c.chunk)
  {
    var tail := c.chunk + c.end + rest;
    var data := c.line + [10] + tail;
    assert c.line + [10] + c.chunk + c.end + rest == data;
    AnySizeIsRead(c.line, |c.chunk|);
    LineEndOf(c.line, tail);
    hide ChunkSize, LineEnd, SizeLine;
    assert data[..|c.line| + 1] == c.line + [10] && data[|c.line| + 1..] == tail;
    assert tail[..|c.chunk|] == c.chunk && tail[|c.chunk| + 2..] == rest;
  }

  lemma {:induction false} TrailersAreSkipped(trailers: seq<Bytes>, end: Bytes, suffix: Bytes)
    requires (forall i :: 0 <= i < |trailers| ==> Trailer(trailers[i])) && end in {[10], [13, 10]}
    ensures AfterTrailers(Lines(trailers) + end + suffix) == suffix
  {
    var data := Lines(trailers) + end + suffix;
    if trailers == [] {
      var line: Bytes := if end == [10] then [] else [13];
      assert data == line + [10] + suffix;
      LineEndOf(line, suffix);
      assert data[..|end|] == end && data[|end|..] == suffix;
    } else {
      var line, rest := trailers[0], Lines(trailers[1..]) + end + suffix;
      assert data == line + [10] + rest;
      LineEndOf(line, rest);
      assert data[..|line| + 1] == line + [10] && data[|line| + 1..] == rest;
      assert (line + [10])[0] == line[0] && (|line| > 1 ==> |line + [10]| > 2);
      TrailersAreSkipped(trailers[1..], end, suffix);
    }
  }

  lemma {:induction false} EndIsRead(last: Bytes, trailers: seq<Bytes>, end: Bytes, suffix: Bytes, limit: int, body: Bytes)
    requires SizeLine(last, 0) && (forall i :: 0 <= i < |trailers| ==> Trailer(trailers[i])) && end in {[10], [13, 10]}
    ensures Dechunk(last + [10] + (Lines(trailers) + end + suffix), limit, body) == Ok(Body(body, suffix))
  {
    var tail := Lines(trailers) + end + suffix;
    var data := last + [10] + tail;
    AnySizeIsRead(last, 0);
    LineEndOf(last, tail);
    TrailersAreSkipped(trailers, end, suffix);
    hide ChunkSize, LineEnd, SizeLine, AfterTrailers, Lines;
    assert data[..|last| + 1] == last + [10] && data[|last| + 1..] == tail;
  }

  lemma {:induction false} CodingUnfolds(c: Coded, rest: seq<Coded>, behind: Bytes, body: Bytes)
    ensures Coding([c] + rest) + behind == c.line + [10] + c.chunk + c.end + (Coding(rest) + behind)
    ensures ChunksOf([c] + rest) == [c.chunk] + ChunksOf(rest)
    ensures body + Concat(ChunksOf([c] + rest)) == body + c.chunk + Concat(ChunksOf(rest))
  {
    assert ([c] + rest)[1..] == rest;
    assert ChunksOf([c] + rest) == [c.chunk] + ChunksOf(rest);
    assert ([c.chunk] + ChunksOf(rest))[1..] == ChunksOf(rest);
    hide Coding, Concat, ChunksOf;
  }

  /** Everything the coding may look like is read: sizes in either case with zeros in front, white
      space, chunk extensions, any trailers, and lines that end with LF alone. The body comes back
      whole and what follows is left unread if and only if it fits the limit. */
  lemma {:induction false} AnyCodingIsRead(
    coded: seq<Coded>, last: Bytes, trailers: seq<Bytes>, end: Bytes, suffix: Bytes, limit: int, body: Bytes)
    requires (forall i :: 0 <= i < |coded| ==> WellCoded(coded[i])) && SizeLine(last, 0) && |body| <= limit
    requires (forall i :: 0 <= i < |trailers| ==> Trailer(trailers[i])) && end in {[10], [13, 10]}
    ensures Dechunk(Coding(coded) + (last + [10] + (Lines(trailers) + end + suffix)), limit, body) ==
      var all := body + Concat(ChunksOf(coded)); if |all| <= limit then Ok(Body(all, suffix)) else Err(TooLarge)
    decreases |coded|
  {
    hide Dechunk, SizeLine, Lines, Trailer;
    var behind := last + [10] + (Lines(trailers) + end + suffix);
    if coded == [] {
      assert Coding(coded) + behind == behind && body + Concat(ChunksOf(coded)) == body;
      EndIsRead(last, trailers, end, suffix, limit, body);
    } else {
      hide WellCoded, Coding, Concat, ChunksOf;
      var c, rest := coded[0], coded[1..];
      assert coded == [c] + rest;
      CodingUnfolds(c, rest, behind, body);
      AnyChunkIsRead(c, Coding(rest) + behind, limit, body);
      if |body| + |c.chunk| <= limit {
        AnyCodingIsRead(rest, last, trailers, end, suffix, limit, body + c.chunk);
      }
    }
  }

  /** A chunk as the writer spells it: a plain lower-case size, CR LF, the bytes, CR LF. */
  ghost predicate PlainlyCoded(c: Coded) {
    && c.chunk != [] && c.end == [13, 10]
    && c.line != [] && Last(c.line) == 13 && SpellsPlainly(Front(c.line), 16, |c.chunk|)
  }

  ghost function NonEmpty(chunks: seq<Bytes>): seq<Bytes> {
    if chunks == [] then [] else (if chunks[0] == [] then [] else [chunks[0]]) + NonEmpty(chunks[1..])
  }

  lemma {:induction false} PlainlyCodedChunk(chunk: Bytes) returns (c: Coded)
    requires chunk != []
    ensures PlainlyCoded(c) && c.chunk == chunk && EncodeChunk(chunk) == c.line + [10] + c.chunk + c.end
  {
    var size := Print(|chunk|, 16);
    PrintSpells(|chunk|, 16);
    hide SpellsPlainly, Print;
    c := Coded(size + [13], chunk, [13, 10]);
    assert Front(c.line) == size;
  }

  /** What the writer writes, spelled out: the chunks that are not empty, in order, each plainly coded,
      and five bytes at the end. */
  lemma {:induction false} WrittenExactly(chunks: seq<Bytes>) returns (coded: seq<Coded>)
    ensures EncodeChunks(chunks) == Coding(coded) && ChunksOf(coded) == NonEmpty(chunks)
    ensures forall i :: 0 <= i < |coded| ==> PlainlyCoded(coded[i])
    ensures LastChunk == [48, 13, 10, 13, 10]
  {
    hide PlainlyCoded;
    if chunks == [] {
      coded := [];
    } else {
      var rest := WrittenExactly(chunks[1..]);
      if chunks[0] == [] {
        coded := rest;
      } else {
        hide EncodeChunk, ChunksOf, Coding;
        var c := PlainlyCodedChunk(chunks[0]);
        CodingUnfolds(c, rest, [], []);
        AddNothing(Coding([c] + rest));
        AddNothing(Coding(rest));
        coded := [c] + rest;
      }
    }
  }

  // ---- Truncation ----

  /** A chunk cut anywhere is never mistaken for a body. */
  lemma {:induction false} CutChunkIsRefused(chunk: Bytes, cut: nat, limit: int, body: Bytes)
    requires cut < |EncodeChunk(chunk)|
    ensures Dechunk(EncodeChunk(chunk)[..cut], limit, body).Err?
  {
    var s := Print(|chunk|, 16);
    var n := |s|;
    var data := EncodeChunk(chunk)[..cut];
    PrintsDigits(|chunk|, 16);
    if cut <= n + 1 {
      var line := s[..if cut <= n then cut else n] + if cut <= n then [] else [CR];
      assert data == line && line + [] == line;
      LineEndOf(line, []);
      assert data[..|line|] == line && data[|line|..] == [];
      CutSizeLine(|chunk|, line, cut);
    } else {
      var tail := (chunk + CRLF)[..cut - n - 2];
      assert data == s + CRLF + tail;
      PrintedLine(|chunk|, tail);
      SizeLineIsRead(|chunk|, CRLF);
      assert data[..n + 2] == s + CRLF && data[n + 2..] == tail;
    }
  }

  lemma {:induction false} CutSizeLine(size: nat, line: Bytes, cut: nat)
    requires size > 0 && cut <= |Print(size, 16)| + 1
    requires line == if cut <= |Print(size, 16)| then Print(size, 16)[..cut] else Print(size, 16) + [CR]
    ensures ChunkSize(line).Some? ==> ChunkSize(line).value > 0
  {
    var s := Print(size, 16);
    if cut > |s| {
      SizeLineIsRead(size, [CR]);
    } else {
      PrintsDigits(size, 16);
      NoSemicolon(line);
      if line != [] {
        StripKeepsDigits(line, [], []);
        assert [] + line + [] == line;
      }
      CutPrintIsPositive(size, 16, cut);
    }
  }

  lemma {:induction false} NothingIsRefused(limit: int, body: Bytes)
    ensures Dechunk([], limit, body).Err?
  {
    assert ChunkSize([]) == None;
  }

  lemma {:induction false} CutBodyIsRefused(chunks: seq<Bytes>, cut: nat, limit: int, body: Bytes)
    requires cut <= |EncodeChunks(chunks)|
    ensures Dechunk(EncodeChunks(chunks)[..cut], limit, body).Err?
  {
    if cut == 0 {
      NothingIsRefused(limit, body);
    } else {
      var first, rest := EncodeChunk(chunks[0]), EncodeChunks(chunks[1..]);
      hide Dechunk, EncodeChunk;
      if cut < |first| {
        assert EncodeChunks(chunks)[..cut] == first[..cut];
        CutChunkIsRefused(chunks[0], cut, limit, body);
      } else {
        var tail := rest[..cut - |first|];
        assert EncodeChunks(chunks)[..cut] == first + tail;
        if chunks[0] == [] {
          EmptyChunkIsSkipped(tail);
          assert first == [] by { EmptyChunkIsSkipped([]); assert first + [] == first; }
          assert first + tail == tail;
          CutBodyIsRefused(chunks[1..], cut, limit, body);
        } else {
          ChunkIsRead(chunks[0], tail, limit, body);
          CutBodyIsRefused(chunks[1..], cut - |first|, limit, body + chunks[0]);
        }
      }
    }
  }

  /** Truncation safety: what was written, cut at any byte, is taken for a body if and only if the
      final `0` is still there and the chunks fit the limit. In particular a response whose
      iterator raised is never taken for a complete one. */
  lemma {:induction false} TruncationSafety(chunks: seq<Bytes>, cut: nat, limit: nat)
    requires cut <= |EncodeChunks(chunks) + LastChunk|
    ensures Dechunk((EncodeChunks(chunks) + LastChunk)[..cut], limit, []).Ok?
      <==> cut > |EncodeChunks(chunks)| && |Concat(chunks)| <= limit
  {
    var all := EncodeChunks(chunks);
    if cut <= |all| {
      assert (all + LastChunk)[..cut] == all[..cut];
      CutBodyIsRefused(chunks, cut, limit, []);
    } else {
      var end := LastChunk[..cut - |all|];
      assert (all + LastChunk)[..cut] == all + end;
      CutAfterZero(chunks, end, limit, []);
      assert [] + Concat(chunks) == Concat(chunks);
    }
  }

  lemma {:induction false} ZeroEndsBody(end: Bytes, limit: int, body: Bytes)
    requires end != [] && end <= LastChunk
    ensures Dechunk(end, limit, body).Ok?
  {
    assert LastChunk == [48, CR, LF, CR, LF] && Print(0, 16) == [48];
    if |end| == 1 {
      assert end == [48] + [] && end + [] == end;
      ZeroLine(end, []);
    } else if |end| == 2 {
      assert end == [48] + [CR] && end + [] == end;
      ZeroLine(end, [CR]);
    } else {
      assert end == [48] + CRLF + end[3..];
      PrintedLine(0, end[3..]);
      SizeLineIsRead(0, CRLF);
      assert end[..3] == [48] + CRLF;
    }
  }

  lemma {:induction false} ZeroLine(line: Bytes, eol: Bytes)
    requires line == [48] + eol && eol in {[], [CR]}
    ensures LineEnd(line) == |line| && ChunkSize(line[..|line|]) == Some(0)
  {
    assert Print(0, 16) == [48] && line[..|line|] == line && line + [] == line;
    LineEndOf(line, []);
    SizeLineIsRead(0, eol);
  }

  lemma {:induction false} CutAfterZero(chunks: seq<Bytes>, end: Bytes, limit: int, body: Bytes)
    requires end != [] && end <= LastChunk && |body| <= limit
    ensures Dechunk(EncodeChunks(chunks) + end, limit, body).Ok? <==> |body + Concat(chunks)| <= limit
  {
    hide Dechunk, EncodeChunk;
    if chunks == [] {
      assert EncodeChunks(chunks) + end == end && body + Concat(chunks) == body;
      ZeroEndsBody(end, limit, body);
    } else {
      var rest := EncodeChunks(chunks[1..]) + end;
      assert EncodeChunks(chunks) + end == EncodeChunk(chunks[0]) + rest;
      if chunks[0] == [] {
        EmptyChunkIsSkipped(rest);
        assert body + chunks[0] == body;
      } else {
        ChunkIsRead(chunks[0], rest, limit, body);
      }
      if |body| + |chunks[0]| <= limit {
        CutAfterZero(chunks[1..], end, limit, body + chunks[0]);
      }
      assert body + Concat(chunks) == body + chunks[0] + Concat(chunks[1..]);
    }
  }

  // ---- The other body readers ----

  function LimitedBody(chunks: seq<Bytes>, limit: int): Result<Bytes, ReadError> {
    if forall i :: 0 <= i <= |chunks| ==> i == 0 || |Concat(chunks[..i])| <= limit then Ok(Concat(chunks)) else Err(TooLarge)
  }

  /** `read_limited_body`. */
  method ReadLimitedBody(stream: seq<Bytes>, limit: int) returns (r: Result<Bytes, ReadError>)
    ensures r == LimitedBody(stream, limit)
  {
    var size, chunks, i := 0, [], 0;
    while i < |stream|
      invariant 0 <= i <= |stream|
      invariant chunks == stream[..i] && size == |Concat(chunks)|
      invariant forall j :: 0 < j <= i ==> |Concat(stream[..j])| <= limit
    {
      size := size + |stream[i]|;
      ConcatSnoc(stream[..i], stream[i]);
      assert stream[..i + 1] == stream[..i] + [stream[i]];
      if size > limit {
        return Err(TooLarge);
      }
      chunks := chunks + [stream[i]];
      i := i + 1;
    }
    assert stream[..i] == stream;
    r := Ok(Concat(chunks));
  }

  /** The reader of a body whose length is declared. */
  method ReadLengthDelimited(reader: StreamReader, contentLength: int, limit: int) returns (r: Result<Bytes, ReadError>)
    modifies reader
    ensures match LengthDelimited(old(reader.data), contentLength, limit)
      case Ok(Body(bytes, rest)) => r == Ok(bytes) && reader.data == rest
      case Err(e) => r == Err(e)
    ensures contentLength > limit ==> r == Err(TooLarge)
    ensures contentLength <= limit && contentLength < 0 ==> r == Err(Malformed)
    ensures 0 <= contentLength <= limit && contentLength > |old(reader.data)| ==> r == Err(Truncated)
    ensures 0 <= contentLength <= limit && contentLength <= |old(reader.data)| ==>
      r == Ok(old(reader.data)[..contentLength]) && reader.data == old(reader.data)[contentLength..]
  {
    if contentLength > limit {
      return Err(TooLarge);
    }
    if contentLength != 0 {
      r := reader.ReadExactly(contentLength);
    } else {
      r := Ok([]);
    }
  }

  function LengthDelimited(data: Bytes, contentLength: int, limit: int): Result<Body, ReadError> {
    if contentLength > limit then Err(TooLarge)
    else if contentLength < 0 then Err(Malformed)
    else if contentLength > |data| then Err(Truncated)
    else Ok(Body(data[..contentLength], data[contentLength..]))
  }

  lemma {:induction false} ConcatPrefix(chunks: seq<Bytes>, i: nat)
    requires i <= |chunks|
    ensures Concat(chunks[..i]) <= Concat(chunks)
  {
    assert chunks == chunks[..i] + chunks[i..];
    ConcatAppend(chunks[..i], chunks[i..]);
  }

  /** The three body readers agree: on the same chunks they return the same bytes or all refuse. */
  lemma {:induction false} BodyReadersAgree(chunks: seq<Bytes>, suffix: Bytes, limit: nat)
    ensures var body := Concat(chunks);
      var chunked, delimited := Dechunk(EncodeChunks(chunks) + LastChunk + suffix, limit, []), LengthDelimited(body + suffix, |body|, limit);
      && chunked == delimited
      && LimitedBody(chunks, limit) == (if chunked.Ok? then Ok(chunked.value.bytes) else Err(chunked.error))
      && (chunked.Ok? <==> |body| <= limit)
  {
    var body := Concat(chunks);
    ChunkedRoundTrip(chunks, suffix, limit, []);
    assert [] + body == body && (body + suffix)[..|body|] == body && (body + suffix)[|body|..] == suffix;
    forall i | 0 <= i <= |chunks| ensures Concat(chunks[..i]) <= body {
      ConcatPrefix(chunks, i);
    }
    assert chunks[..|chunks|] == chunks;
  }
}
