/** The response from end to end: upstream messages become server-sent events, chunks and bytes,
    and a client turns the bytes back into events. */
module Pipeline {
  import opened Basics
  import opened PyBytes
  import opened PyInt
  import opened Streams
  import opened Chunked
  import opened HttpMessages
  import opened HttpResponses
  import Messages
  import Sse
  import Utf8

  type Message = Messages.Message

  // ---- stream_websocket_as_sse ----

  function FrameOf(m: Message): Sse.Frame
    requires m.Text?
  {
    Sse.Frame(Messages.EventType(m), m.text)
  }

  function Chunk(m: Message): Bytes
    requires m.Text?
  {
    Utf8.Encode(Sse.FormatSse(Messages.EventType(m), m.text))
  }

  /** The messages that are shown: up to the first one that ends the stream, or up to what cannot
      be decoded. */
  function ShownOf(received: seq<Message>): (shown: seq<Message>)
    ensures shown <= received && forall i :: 0 <= i < |shown| ==> shown[i].Text?
  {
    if received == [] || received[0].Undecodable? then []
    else if Messages.Terminal(received[0]) then [received[0]]
    else [received[0]] + ShownOf(received[1..])
  }

  predicate EndsProperly(received: seq<Message>) {
    ShownOf(received) != [] && Messages.Terminal(Last(ShownOf(received)))
  }

  function FramesOf(messages: seq<Message>): seq<Sse.Frame>
    requires forall i :: 0 <= i < |messages| ==> messages[i].Text?
  {
    if messages == [] then [] else [FrameOf(messages[0])] + FramesOf(messages[1..])
  }

  function ChunksOf(messages: seq<Message>): seq<Bytes>
    requires forall i :: 0 <= i < |messages| ==> messages[i].Text?
  {
    if messages == [] then [] else [Chunk(messages[0])] + ChunksOf(messages[1..])
  }

  /** Where the generator stops: at the first message that ends the stream or cannot be decoded. */
  ghost predicate StopsAt(received: seq<Message>, n: nat) {
    && n <= |received|
    && (forall i :: 0 <= i < n ==> received[i].Text? && !Messages.EndsStream(received[i]))
    && (n < |received| ==> received[n].Undecodable? || Messages.EndsStream(received[n]))
  }

  /** How many messages are shown: the one that ends the stream is, one that cannot be decoded not. */
  ghost function ShownUpTo(received: seq<Message>, stop: nat): nat {
    if stop < |received| && received[stop].Text? then stop + 1 else stop
  }

  lemma {:induction false} ShownExactly(received: seq<Message>) returns (stop: nat)
    ensures StopsAt(received, stop) && ShownUpTo(received, stop) <= |received|
    ensures ShownOf(received) == received[..ShownUpTo(received, stop)]
    ensures EndsProperly(received) <==> stop < |received| && Messages.EndsStream(received[stop])
  {
    hide Messages.Terminal, Messages.EndsStream;
    if received == [] {
      stop := 0;
    } else {
      var m, rest := received[0], received[1..];
      assert received == [m] + rest;
      Messages.TerminalExactly(m);
      EndsText(m);
      if m.Undecodable? || Messages.Terminal(m) {
        stop := 0;
        assert received[..1] == [m];
      } else {
        var n := ShownExactly(rest);
        stop := n + 1;
        assert ShownOf(received) == [m] + ShownOf(rest);
        hide ShownOf;
        StopsOneLater(m, rest, n);
        assert EndsProperly(received) <==> EndsProperly(rest) by { OneMessage(m, rest); }
      }
    }
  }

  lemma {:induction false} StopsOneLater(m: Message, rest: seq<Message>, n: nat)
    requires m.Text? && !Messages.EndsStream(m) && StopsAt(rest, n) && ShownUpTo(rest, n) <= |rest|
    ensures var received := [m] + rest;
      && StopsAt(received, n + 1) && ShownUpTo(received, n + 1) == ShownUpTo(rest, n) + 1
      && received[..ShownUpTo(rest, n) + 1] == [m] + rest[..ShownUpTo(rest, n)]
      && (n < |rest| ==> received[n + 1] == rest[n])
  {
    hide Messages.EndsStream;
  }

  lemma {:induction false} EndsText(m: Message)
    ensures Messages.EndsStream(m) ==> m.Text?
  {
  }

  lemma {:induction false} ChunksAt(messages: seq<Message>)
    requires forall i :: 0 <= i < |messages| ==> messages[i].Text?
    ensures |ChunksOf(messages)| == |messages|
    ensures forall i :: 0 <= i < |messages| ==> ChunksOf(messages)[i] == Chunk(messages[i])
  {
    hide Chunk;
    if messages != [] {
      ChunksAt(messages[1..]);
    }
  }

  /** The bytes of the frame of one message, under the type that its fields give it. */
  ghost predicate IsFrameOf(chunk: Bytes, m: Message) {
    m.Text? && exists t :: Messages.HasType(m, t) && chunk == Utf8.Encode(Sse.FormatSse(t, m.text))
  }

  lemma {:induction false} ChunkIsFrame(m: Message)
    requires m.Text?
    ensures IsFrameOf(Chunk(m), m)
  {
    Messages.EventTypeExactly(m, Messages.EventType(m));
    hide Sse.FormatSse, Messages.HasType;
  }

  /** What the generator did, read off the messages. */
  lemma {:induction false} GeneratedExactly(received: seq<Message>) returns (stop: nat)
    ensures StopsAt(received, stop) && ShownUpTo(received, stop) <= |received|
    ensures EndsProperly(received) <==> stop < |received| && Messages.EndsStream(received[stop])
    ensures var chunks := ChunksOf(ShownOf(received));
      |chunks| == ShownUpTo(received, stop) && forall i :: 0 <= i < |chunks| ==> IsFrameOf(chunks[i], received[i])
  {
    hide Chunk, Messages.EndsStream, IsFrameOf;
    stop := ShownExactly(received);
    ChunksAt(ShownOf(received));
    forall i | 0 <= i < ShownUpTo(received, stop) ensures IsFrameOf(Chunk(received[i]), received[i]) {
      assert ShownOf(received)[i] == received[i];
      ChunkIsFrame(received[i]);
    }
  }

  /** What one received message contributes. */
  lemma {:induction false} OneMessage(m: Message, rest: seq<Message>)
    ensures ChunksOf(ShownOf([m] + rest)) ==
      if m.Undecodable? then [] else [Chunk(m)] + if Messages.Terminal(m) then [] else ChunksOf(ShownOf(rest))
    ensures EndsProperly([m] + rest) <==> m.Text? && (Messages.Terminal(m) || EndsProperly(rest))
  {
    hide Chunk;
    var received := [m] + rest;
    assert received[1..] == rest;
    if m.Text? {
      var shown := ShownOf(received);
      assert shown[1..] == if Messages.Terminal(m) then [] else ShownOf(rest);
      assert EndsProperly(received) <==> Messages.Terminal(m) || EndsProperly(rest);
    }
  }

  /** One frame for every message up to where the generator stops, and a normal return if and only if that
      message ends the stream. */
  ghost predicate Generates(received: seq<Message>, stop: nat, chunks: seq<Bytes>, completed: bool) {
    && StopsAt(received, stop)
    && (completed <==> stop < |received| && Messages.EndsStream(received[stop]))
    && |chunks| == (if completed then stop + 1 else stop) <= |received|
    && forall i :: 0 <= i < |chunks| ==> IsFrameOf(chunks[i], received[i])
  }

  lemma {:induction false} AllIsGenerated(received: seq<Message>) returns (stop: nat)
    ensures Generates(received, stop, ChunksOf(ShownOf(received)), EndsProperly(received))
  {
    hide ChunksOf, ShownOf, EndsProperly, IsFrameOf, Messages.EndsStream;
    stop := GeneratedExactly(received);
    EndsTextIn(received, stop);
  }

  /** The generator: `first` was received with the request, `rest` is what `recv` returns before it
      raises. It stops at the first message that ends the stream, which it shows, or that cannot be
      decoded; each yielded chunk is the frame of one message. */
  method StreamWebsocketAsSse(first: Message, rest: seq<Message>)
    returns (chunks: seq<Bytes>, completed: bool, ghost stop: nat)
    ensures chunks == ChunksOf(ShownOf([first] + rest))
    ensures completed <==> EndsProperly([first] + rest)
    ensures Generates([first] + rest, stop, chunks, completed)
  {
    hide ChunksOf, ShownOf, Chunk, EndsProperly, Generates, Messages.EndsStream;
    stop := AllIsGenerated([first] + rest);
    var firstMessage, queue := Some(first), rest;
    chunks, completed := [], false;
    ghost var ahead := [first] + rest;
    while true
      invariant ahead == (if firstMessage.Some? then [firstMessage.value] else []) + queue
      invariant chunks + ChunksOf(ShownOf(ahead)) == ChunksOf(ShownOf([first] + rest))
      invariant EndsProperly(ahead) <==> EndsProperly([first] + rest)
      decreases |ahead|
    {
      var message;
      if firstMessage.Some? {
        message, firstMessage := firstMessage.value, None;
      } else if queue != [] {
        message, queue := queue[0], queue[1..];
      } else {
        NothingAhead();
        return;
      }
      assert ahead == [message] + queue;
      OneMessage(message, queue);
      if message.Undecodable? {
        return;
      }
      ghost var before := chunks;
      chunks := chunks + [Chunk(message)];
      if Messages.Terminal(message) {
        completed := true;
        return;
      }
      ahead := queue;
      assert before + ([Chunk(message)] + ChunksOf(ShownOf(ahead))) == chunks + ChunksOf(ShownOf(ahead));
    }
  }

  lemma {:induction false} EndsTextIn(received: seq<Message>, stop: nat)
    requires StopsAt(received, stop)
    ensures stop < |received| ==> (Messages.EndsStream(received[stop]) <==> received[stop].Text?)
  {
    hide Messages.EndsStream;
    if stop < |received| {
      EndsText(received[stop]);
    }
  }

  lemma {:induction false} NothingAhead()
    ensures ChunksOf(ShownOf([])) == [] && !EndsProperly([])
  {
  }

  // ---- From messages to events ----

  function EventsOf(messages: seq<Message>): seq<Sse.ServerEvent>
    requires forall i :: 0 <= i < |messages| ==> messages[i].Text?
  {
    Sse.Events(FramesOf(messages))
  }

  lemma {:induction false} ChunksSpellFrames(messages: seq<Message>)
    requires forall i :: 0 <= i < |messages| ==> messages[i].Text?
    ensures Concat(ChunksOf(messages)) == Utf8.Encode(Sse.Frames(FramesOf(messages)))
  {
    hide Sse.FormatSse, Messages.EventType;
    if messages != [] {
      var m, rest := messages[0], messages[1..];
      ChunksSpellFrames(rest);
      Utf8.EncodeAppend(Sse.FormatSse(Messages.EventType(m), m.text), Sse.Frames(FramesOf(rest)));
      assert ChunksOf(messages)[1..] == ChunksOf(rest);
      assert FramesOf(messages)[1..] == FramesOf(rest);
    }
  }

  lemma {:induction false} FrameTypes(messages: seq<Message>)
    requires forall i :: 0 <= i < |messages| ==> messages[i].Text?
    ensures |FramesOf(messages)| == |messages|
    ensures forall i :: 0 <= i < |messages| ==> FramesOf(messages)[i] == FrameOf(messages[i])
  {
    if messages != [] {
      FrameTypes(messages[1..]);
    }
  }

  ghost predicate PlainTypes(messages: seq<Message>)
    requires forall i :: 0 <= i < |messages| ==> messages[i].Text?
  {
    forall i :: 0 <= i < |messages| ==> Sse.PlainType(Messages.EventType(messages[i]))
  }

  /** What a client of the response sees: bytes off the wire, de-chunked, decoded, parsed. */
  function ClientEvents(body: Bytes): Option<seq<Sse.ServerEvent>> {
    var text := Utf8.Decode(body);
    if text.Some? then Some(Sse.ParseStream(text.value)) else None
  }

  lemma {:induction false} BodySpellsEvents(messages: seq<Message>)
    requires forall i :: 0 <= i < |messages| ==> messages[i].Text?
    ensures ClientEvents(Concat(ChunksOf(messages))) == Some(EventsOf(messages)) <==> PlainTypes(messages)
  {
    ChunksSpellFrames(messages);
    Utf8.DecodeInverts(Sse.Frames(FramesOf(messages)));
    Sse.StreamRoundTrip(FramesOf(messages));
    FrameTypes(messages);
  }

  /** Everything the proxy writes for the messages it received. */
  function Written(response: Response, received: seq<Message>): Bytes {
    SentHead(response) + EncodeChunks(ChunksOf(ShownOf(received))) + if EndsProperly(received) then LastChunk else []
  }

  /** The end of `_write_websocket_bridge_response`: the generator feeding the writer. */
  method WriteBridgeResponse(writer: StreamWriter, response: Response, first: Message, rest: seq<Message>)
    modifies writer
    ensures writer.data == old(writer.data) + Written(response, [first] + rest)
  {
    hide ChunksOf, EndsProperly, PrintHead, StatusLine, WithoutFraming, EncodeChunks, ShownOf;
    ghost var before := writer.data;
    var chunks, completed, _ := StreamWebsocketAsSse(first, rest);
    var _ := WriteStreamingResponse(writer, response, chunks, !completed);
    Regroup(before, SentHead(response), EncodeChunks(chunks), if completed then LastChunk else []);
  }

  /** End to end: when the upstream's messages come to their end, a client reads the response
      completely and sees exactly the list of (event type, line-normalised text), in order, if and
      only if every event type is non-empty and on one line. When they do not, the client can tell:
      the body is refused. */
  lemma {:induction false} EndToEnd(response: Response, received: seq<Message>, suffix: Bytes, limit: nat)
    requires Without(response.phrase, CRLF) && WellFormedHeaders(response.headers)
    requires |Concat(ChunksOf(ShownOf(received)))| <= limit
    ensures EndsProperly(received) ==>
      var r := ReadResponse(Written(response, received) + suffix, limit);
      && r.Ok? && r.value.Some? && SaysStatus(r.value.value.start, response) && r.value.value.body.rest == suffix
      && (ClientEvents(r.value.value.body.bytes) == Some(EventsOf(ShownOf(received))) <==> PlainTypes(ShownOf(received)))
    ensures !EndsProperly(received) ==> ReadResponse(Written(response, received), limit).Err?
  {
    hide PrintHead, StatusLine, WithoutFraming, ChunksOf, ShownOf, EncodeChunks, ReadResponse, ClientEvents, PlainTypes;
    var chunks, head := ChunksOf(ShownOf(received)), SentHead(response);
    SentHeadIs(response);
    hide IsStreamingHead, SentHead, SaysStatus, KeptBeside;
    if EndsProperly(received) {
      var _ := StreamingResponseIsRead(head, response, chunks, suffix, limit);
      Regroup(head, EncodeChunks(chunks), LastChunk, suffix);
      BodySpellsEvents(ShownOf(received));
    } else {
      CutStreamingResponseIsRefused(head, response, chunks, limit);
      assert head + EncodeChunks(chunks) + [] == head + EncodeChunks(chunks);
    }
  }
}
