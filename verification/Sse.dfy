/** Server-sent events: the frames the bridge writes, and how a client reads them. */
module Sse {
  import opened Basics

  // ---- Python's str.splitlines ----

  predicate LineBoundary(c: char) {
    c in {'\n', '\r', '\U{0B}', '\U{0C}', '\U{1C}', '\U{1D}', '\U{1E}', '\U{85}', '\U{2028}', '\U{2029}'}
  }

  /** The length of the first line, without its boundary. */
  function LineLength(s: string): (n: nat)
    ensures n <= |s|
    ensures forall i :: 0 <= i < n ==> !LineBoundary(s[i])
    ensures n < |s| ==> LineBoundary(s[n])
  {
    if s == "" || LineBoundary(s[0]) then 0 else 1 + LineLength(s[1..])
  }

  function BoundaryLength(s: string, n: nat): (b: nat)
    requires n < |s|
    ensures 1 <= b <= 2 && n + b <= |s|
  {
    if s[n] == '\r' && n + 1 < |s| && s[n + 1] == '\n' then 2 else 1
  }

  function SplitLines(s: string): seq<string>
    decreases |s|
  {
    if s == "" then []
    else
      var n := LineLength(s);
      if n == |s| then [s] else [s[..n]] + SplitLines(s[n + BoundaryLength(s, n)..])
  }

  function DataLines(text: string): seq<string> {
    if SplitLines(text) == [] then [""] else SplitLines(text)
  }

  // ---- _format_sse ----

  function DataFields(lines: seq<string>): string {
    if lines == [] then "" else "data: " + lines[0] + "\n" + DataFields(lines[1..])
  }

  function FormatSse(eventType: string, text: string): string {
    "event: " + eventType + "\n" + DataFields(DataLines(text)) + "\n"
  }

  // ---- A client, sections 9.2.5 and 9.2.6 of the WHATWG HTML Standard ----

  datatype ServerEvent = ServerEvent(eventType: string, data: string)

  predicate EndOfLine(c: char) {
    c == '\n' || c == '\r'
  }

  predicate OneLine(s: string) {
    forall i :: 0 <= i < |s| ==> !EndOfLine(s[i])
  }

  function FieldEnd(s: string): (n: nat)
    ensures n <= |s| && forall i :: 0 <= i < n ==> !EndOfLine(s[i])
    ensures n < |s| ==> EndOfLine(s[n])
  {
    if s == "" || EndOfLine(s[0]) then 0 else 1 + FieldEnd(s[1..])
  }

  function IndexOf(s: string, c: char): (n: nat)
    ensures n <= |s| && (forall i :: 0 <= i < n ==> s[i] != c) && (n < |s| ==> s[n] == c)
  {
    if s == "" || s[0] == c then 0 else 1 + IndexOf(s[1..], c)
  }

  function FieldValue(line: string, colon: nat): string
    requires colon < |line|
  {
    var value := line[colon + 1..];
    if value != "" && value[0] == ' ' then value[1..] else value
  }

  /** The buffers that a field line leaves; `id`, `retry` and unknown fields leave both alone. */
  function Field(line: string, eventType: string, data: string): (string, string) {
    var colon := IndexOf(line, ':');
    var name := line[..colon];
    var value := if colon < |line| then FieldValue(line, colon) else "";
    if name == "event" then (value, data)
    else if name == "data" then (eventType, data + value + "\n")
    else (eventType, data)
  }

  /** An empty line dispatches, unless there is no data. */
  function Dispatch(eventType: string, data: string): seq<ServerEvent> {
    if data == "" then []
    else [ServerEvent(if eventType == "" then "message" else eventType, if Last(data) == '\n' then Front(data) else data)]
  }

  /** An event that the stream does not end with an empty line is discarded. */
  function ParseLines(s: string, eventType: string, data: string): seq<ServerEvent>
    decreases |s|
  {
    var n := FieldEnd(s);
    if n == |s| then []
    else
      var rest := s[n + BoundaryLength(s, n)..];
      if n == 0 then Dispatch(eventType, data) + ParseLines(rest, "", "")
      else ParseLines(rest, Field(s[..n], eventType, data).0, Field(s[..n], eventType, data).1)
  }

  function ParseStream(s: string): seq<ServerEvent> {
    ParseLines(if s != "" && s[0] == '\U{FEFF}' then s[1..] else s, "", "")
  }

  // ---- What a client reads from a frame ----

  function JoinLines(lines: seq<string>): string {
    if lines == [] then "" else if |lines| == 1 then lines[0] else lines[0] + "\n" + JoinLines(lines[1..])
  }

  /** The text with every line boundary written as one LF, and a final one dropped. */
  function Normalised(text: string): string {
    JoinLines(DataLines(text))
  }

  lemma {:induction false} FieldEndOf(line: string, rest: string)
    requires OneLine(line)
    ensures FieldEnd(line + "\n" + rest) == |line|
  {
    var s := line + "\n" + rest;
    assert s[|line|] == '\n' && forall i :: 0 <= i < |line| ==> s[i] == line[i];
  }

  lemma {:induction false} ParseFieldLine(line: string, rest: string, eventType: string, data: string)
    requires OneLine(line) && line != ""
    ensures ParseLines(line + "\n" + rest, eventType, data)
      == ParseLines(rest, Field(line, eventType, data).0, Field(line, eventType, data).1)
  {
    var s := line + "\n" + rest;
    FieldEndOf(line, rest);
    assert s[..|line|] == line && s[|line| + 1..] == rest && s[|line|] == '\n';
  }

  lemma {:induction false} FieldOf(name: string, value: string, eventType: string, data: string)
    requires name == "event" || name == "data"
    ensures Field(name + ": " + value, eventType, data) == if name == "event" then (value, data) else (eventType, data + value + "\n")
  {
    var line := name + ": " + value;
    var n := IndexOf(line, ':');
    assert line[|name|] == ':' && forall i :: 0 <= i < |name| ==> line[i] == name[i];
    assert line[..n] == name;
    assert line[n + 1..] == " " + value;
  }

  /** The data buffer after the data fields of some lines. */
  function Buffered(lines: seq<string>): string {
    if lines == [] then "" else lines[0] + "\n" + Buffered(lines[1..])
  }

  lemma {:induction false} DataFieldsUnfold(lines: seq<string>, rest: string)
    requires lines != []
    ensures DataFields(lines) + rest == "data" + ": " + lines[0] + "\n" + (DataFields(lines[1..]) + rest)
  {
    assert "data: " == "data" + ": ";
  }

  lemma {:induction false} ParseDataFields(lines: seq<string>, rest: string, eventType: string, data: string)
    requires forall i :: 0 <= i < |lines| ==> OneLine(lines[i])
    ensures ParseLines(DataFields(lines) + rest, eventType, data) == ParseLines(rest, eventType, data + Buffered(lines))
  {
    hide ParseLines, Field;
    if lines == [] {
      assert DataFields(lines) + rest == rest && data + Buffered(lines) == data;
    } else {
      var line := "data" + ": " + lines[0];
      DataFieldsUnfold(lines, rest);
      assert OneLine(line);
      ParseFieldLine(line, DataFields(lines[1..]) + rest, eventType, data);
      FieldOf("data", lines[0], eventType, data);
      ParseDataFields(lines[1..], rest, eventType, data + lines[0] + "\n");
      assert data + lines[0] + "\n" + Buffered(lines[1..]) == data + Buffered(lines);
    }
  }

  lemma {:induction false} BufferedIsJoined(lines: seq<string>)
    requires lines != []
    ensures Buffered(lines) == JoinLines(lines) + "\n"
  {
    if |lines| > 1 {
      BufferedIsJoined(lines[1..]);
    } else {
      assert lines[1..] == [];
    }
  }

  lemma {:induction false} SplitLinesAreOneLine(s: string)
    ensures forall i :: 0 <= i < |SplitLines(s)| ==> OneLine(SplitLines(s)[i])
    decreases |s|
  {
    if s != "" && LineLength(s) < |s| {
      var n := LineLength(s);
      SplitLinesAreOneLine(s[n + BoundaryLength(s, n)..]);
    }
  }

  lemma {:induction false} ParseEmptyLine(rest: string, eventType: string, data: string)
    ensures ParseLines("\n" + rest, eventType, data) == Dispatch(eventType, data) + ParseLines(rest, "", "")
  {
    FieldEndOf("", rest);
    assert "" + "\n" + rest == "\n" + rest && ("\n" + rest)[1..] == rest;
  }

  lemma {:induction false} DispatchLines(lines: seq<string>, eventType: string)
    requires lines != []
    ensures Dispatch(eventType, Buffered(lines)) == [ServerEvent(if eventType == "" then "message" else eventType, JoinLines(lines))]
  {
    BufferedIsJoined(lines);
    assert Front(JoinLines(lines) + "\n") == JoinLines(lines);
  }

  lemma {:induction false} FrameShape(eventType: string, text: string, rest: string)
    ensures FormatSse(eventType, text) + rest
      == "event" + ": " + eventType + "\n" + (DataFields(DataLines(text)) + ("\n" + rest))
  {
    assert "event: " == "event" + ": ";
  }

  /** A frame is read as one event and leaves the reader ready for the next frame. */
  lemma {:induction false} ParseFrame(eventType: string, text: string, rest: string)
    requires OneLine(eventType)
    ensures ParseLines(FormatSse(eventType, text) + rest, "", "")
      == [ServerEvent(if eventType == "" then "message" else eventType, Normalised(text))] + ParseLines(rest, "", "")
  {
    hide ParseLines, Field, Dispatch, FormatSse, DataFields;
    var head, lines := "event" + ": " + eventType, DataLines(text);
    FrameShape(eventType, text, rest);
    assert OneLine(head);
    ParseFieldLine(head, DataFields(lines) + ("\n" + rest), "", "");
    FieldOf("event", eventType, "", "");
    SplitLinesAreOneLine(text);
    ParseDataFields(lines, "\n" + rest, eventType, "");
    assert "" + Buffered(lines) == Buffered(lines);
    ParseEmptyLine(rest, eventType, Buffered(lines));
    DispatchLines(lines, eventType);
  }

  datatype Frame = Frame(eventType: string, text: string)

  function Frames(frames: seq<Frame>): string {
    if frames == [] then "" else FormatSse(frames[0].eventType, frames[0].text) + Frames(frames[1..])
  }

  function Events(frames: seq<Frame>): seq<ServerEvent> {
    if frames == [] then [] else [ServerEvent(frames[0].eventType, Normalised(frames[0].text))] + Events(frames[1..])
  }

  ghost predicate PlainType(eventType: string) {
    eventType != "" && OneLine(eventType)
  }

  lemma {:induction false} ParseFrames(frames: seq<Frame>)
    requires forall i :: 0 <= i < |frames| ==> PlainType(frames[i].eventType)
    ensures ParseLines(Frames(frames), "", "") == Events(frames)
  {
    if frames != [] {
      ParseFrame(frames[0].eventType, frames[0].text, Frames(frames[1..]));
      ParseFrames(frames[1..]);
    }
  }

  // ---- What a frame looks like ----

  /** No character that ends a line: LF, VT, FF, CR, FS, GS, RS, NEL, LS or PS. */
  ghost predicate Unbroken(s: string) {
    forall i :: 0 <= i < |s| ==> s[i] as int !in {10, 11, 12, 13, 28, 29, 30, 133, 8232, 8233}
  }

  /** What ends a line before `rest`: one such character, or CR LF, which is one end and not two. */
  ghost predicate Ends(end: string, rest: string) {
    || (|end| == 1 && end[0] as int in {10, 11, 12, 13, 28, 29, 30, 133, 8232, 8233}
        && (end[0] as int == 13 && rest != "" ==> rest[0] as int != 10))
    || (|end| == 2 && end[0] as int == 13 && end[1] as int == 10)
  }

  lemma {:induction false} BoundaryExactly(c: char)
    ensures LineBoundary(c) <==> c as int in {10, 11, 12, 13, 28, 29, 30, 133, 8232, 8233}
  {
  }

  lemma {:induction false} UnbrokenLength(line: string, rest: string)
    requires Unbroken(line) && (rest != "" ==> LineBoundary(rest[0]))
    ensures LineLength(line + rest) == |line|
  {
    var s := line + rest;
    forall i | 0 <= i < |line| ensures !LineBoundary(s[i]) {
      BoundaryExactly(line[i]);
    }
    if rest != "" {
      assert s[|line|] == rest[0];
    }
  }

  lemma {:induction false} LineIsSplit(line: string, end: string, rest: string)
    requires Unbroken(line) && Ends(end, rest)
    ensures SplitLines(line + end + rest) == [line] + SplitLines(rest)
  {
    var s := line + end + rest;
    BoundaryExactly(end[0]);
    assert s == line + (end + rest) && (end + rest)[0] == end[0];
    UnbrokenLength(line, end + rest);
    assert s[|line|] == end[0] && (|s| > |line| + 1 ==> s[|line| + 1] == (end + rest)[1]);
    assert s[..|line|] == line && s[|line| + |end|..] == rest;
    assert BoundaryLength(s, |line|) == |end|;
    hide LineLength, BoundaryLength;
  }

  lemma {:induction false} OneLineIsSplit(line: string)
    requires Unbroken(line)
    ensures SplitLines(line) == if line == "" then [] else [line]
  {
    assert line + "" == line;
    UnbrokenLength(line, "");
  }

  /** A frame, byte by byte: a text without line ends is one data line; each further line of a text adds
      a data line before the rest; and a line end at the end of a text adds nothing. */
  lemma {:induction false} FrameIsSpelled(eventType: string, line: string, end: string, rest: string) returns (others: string)
    requires Unbroken(line) && Ends(end, rest)
    ensures FormatSse(eventType, line) == "event: " + eventType + "\n" + ("data: " + line + "\n" + "\n")
    ensures rest != "" ==>
      && FormatSse(eventType, rest) == "event: " + eventType + "\n" + others
      && FormatSse(eventType, line + end + rest) == "event: " + eventType + "\n" + ("data: " + line + "\n" + others)
    ensures rest == "" ==> FormatSse(eventType, line + end + rest) == FormatSse(eventType, line)
  {
    OneLineIsSplit(line);
    LineIsSplit(line, end, rest);
    OneData(line);
    FrameParts(eventType, line);
    FrameParts(eventType, rest);
    FrameParts(eventType, line + end + rest);
    MoreData(line, SplitLines(rest));
    others := DataFields(DataLines(rest)) + "\n";
    if rest != "" {
      SplitIsNotEmpty(rest);
      assert DataLines(line + end + rest) == [line] + DataLines(rest);
    }
    hide DataFields, SplitLines, Unbroken, Ends, FormatSse;
  }

  lemma {:induction false} FrameParts(eventType: string, text: string)
    ensures FormatSse(eventType, text) == "event: " + eventType + "\n" + (DataFields(DataLines(text)) + "\n")
  {
  }

  lemma {:induction false} SplitIsNotEmpty(s: string)
    requires s != ""
    ensures SplitLines(s) != []
  {
  }

  lemma {:induction false} OneData(line: string)
    ensures DataFields([line]) == "data: " + line + "\n"
  {
    assert [line][1..] == [];
    assert DataFields([]) == "";
  }

  lemma {:induction false} MoreData(line: string, lines: seq<string>)
    ensures DataFields([line] + lines) == "data: " + line + "\n" + DataFields(lines)
  {
    assert ([line] + lines)[1..] == lines;
  }

  /** The line-normalised text, by the same steps: one line is itself, a line before a rest is joined to
      it with LF whatever ended it, and a line end at the end is dropped. */
  lemma {:induction false} NormalisedIsSpelled(line: string, end: string, rest: string)
    requires Unbroken(line) && Ends(end, rest)
    ensures Normalised(line) == line
    ensures Normalised(line + end + rest) == if rest == "" then line else line + "\n" + Normalised(rest)
  {
    OneLineIsSplit(line);
    LineIsSplit(line, end, rest);
    if rest != "" {
      SplitIsNotEmpty(rest);
      JoinUnfolds(line, SplitLines(rest));
    }
    hide SplitLines, Unbroken, Ends;
  }

  // ---- Exactly when nothing is changed ----

  /** No event a client dispatches has a type with a line break in it. */
  lemma {:induction false} DispatchedTypesAreOneLine(s: string, eventType: string, data: string)
    requires OneLine(eventType)
    ensures forall i :: 0 <= i < |ParseLines(s, eventType, data)| ==> PlainType(ParseLines(s, eventType, data)[i].eventType)
    decreases |s|
  {
    var n := FieldEnd(s);
    if n < |s| {
      var rest := s[n + BoundaryLength(s, n)..];
      if n == 0 {
        DispatchedTypesAreOneLine(rest, "", "");
      } else {
        var line := s[..n];
        FieldStaysOneLine(line, eventType, data);
        DispatchedTypesAreOneLine(rest, Field(line, eventType, data).0, Field(line, eventType, data).1);
      }
    }
  }

  lemma {:induction false} FieldStaysOneLine(line: string, eventType: string, data: string)
    requires OneLine(line) && OneLine(eventType)
    ensures OneLine(Field(line, eventType, data).0)
  {
  }

  lemma {:induction false} EventsAt(frames: seq<Frame>, i: nat)
    requires i < |frames|
    ensures |Events(frames)| == |frames|
    ensures Events(frames)[i] == ServerEvent(frames[i].eventType, Normalised(frames[i].text))
  {
    hide Normalised;
    if |frames| > 1 {
      EventsAt(frames[1..], if i > 0 then i - 1 else 0);
    }
  }

  /** A client reads back every frame, in order, with its event type and its normalised text, if
      and only if no event type is empty or has a CR or LF in it. */
  lemma {:induction false} StreamRoundTrip(frames: seq<Frame>)
    ensures ParseStream(Frames(frames)) == Events(frames)
      <==> forall i :: 0 <= i < |frames| ==> PlainType(frames[i].eventType)
  {
    var s := Frames(frames);
    assert frames != [] ==> s[0] == 'e';
    if forall i :: 0 <= i < |frames| ==> PlainType(frames[i].eventType) {
      ParseFrames(frames);
    } else {
      var i :| 0 <= i < |frames| && !PlainType(frames[i].eventType);
      EventsAt(frames, i);
      DispatchedTypesAreOneLine(s, "", "");
      assert !PlainType(Events(frames)[i].eventType);
    }
  }

  ghost predicate OnlyInnerLineFeeds(text: string) {
    && (forall i :: 0 <= i < |text| && text[i] as int in {10, 11, 12, 13, 28, 29, 30, 133, 8232, 8233} ==> text[i] == '\n')
    && (text != "" ==> Last(text) != '\n')
  }

  lemma {:induction false} SplitUnfolds(text: string)
    requires LineLength(text) < |text|
    ensures var n := LineLength(text);
      var rest := text[n + BoundaryLength(text, n)..];
      SplitLines(text) == [text[..n]] + SplitLines(rest) && (SplitLines(rest) == [] <==> rest == "")
  {
  }

  lemma {:induction false} JoinUnfolds(line: string, lines: seq<string>)
    ensures JoinLines([line] + lines) == if lines == [] then line else line + "\n" + JoinLines(lines)
  {
    assert ([line] + lines)[1..] == lines;
  }

  lemma {:induction false} NormalisedUnfolds(text: string)
    requires text != ""
    ensures var n := LineLength(text);
      Normalised(text) ==
        if n == |text| then text
        else
          var rest := text[n + BoundaryLength(text, n)..];
          if rest == "" then text[..n] else text[..n] + "\n" + Normalised(rest)
  {
    var n := LineLength(text);
    if n < |text| {
      var rest := text[n + BoundaryLength(text, n)..];
      SplitUnfolds(text);
      JoinUnfolds(text[..n], SplitLines(rest));
      hide SplitLines, LineLength, BoundaryLength, JoinLines;
    }
  }

  lemma {:induction false} InnerLineFeedAt(text: string, n: nat)
    requires n + 1 < |text| && text[n] == '\n' && forall i :: 0 <= i < n ==> !LineBoundary(text[i])
    ensures OnlyInnerLineFeeds(text) <==> OnlyInnerLineFeeds(text[n + 1..])
  {
    var rest := text[n + 1..];
    assert forall i :: n + 1 <= i < |text| ==> text[i] == rest[i - n - 1];
  }

  lemma {:induction false} SameAfter(text: string, n: nat, c: char, tail: string)
    requires n < |text|
    ensures text[..n] + [c] + tail == text <==> text[n] == c && text[n + 1..] == tail
  {
    var s := text[..n] + [c] + tail;
    assert s[n] == c && s[n + 1..] == tail;
    assert text == text[..n] + [text[n]] + text[n + 1..];
  }

  /** The text itself comes back if and only if its only line boundaries are line feeds and it
      does not end with one. */
  lemma {:induction false} NormalisedExactly(text: string)
    ensures Normalised(text) == text <==> OnlyInnerLineFeeds(text)
    decreases |text|
  {
    if text != "" && LineLength(text) < |text| {
      var n := LineLength(text);
      var b := BoundaryLength(text, n);
      var rest := text[n + b..];
      NormalisedUnfolds(text);
      hide Normalised, LineBoundary;
      assert LineBoundary(text[n]);
      assert b == 2 ==> text[n] == '\r';
      if rest == "" {
        assert |text[..n]| < |text|;
        assert b == 1 ==> Last(text) == text[n];
      } else {
        SameAfter(text, n, '\n', Normalised(rest));
        if text[n] == '\n' {
          NormalisedExactly(rest);
          InnerLineFeedAt(text, n);
        }
      }
    }
  }
}
