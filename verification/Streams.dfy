/** The byte streams between client and proxy, as `asyncio` presents them to the code. */
module Streams {
  import opened Basics
  import opened PyBytes
  import opened PyInt

  // ---- Lines and fixed counts ----

  function LineEnd(data: Bytes): (n: nat)
    ensures n <= |data| && (data != [] ==> n > 0)
  {
    if data == [] then 0 else if data[0] == LF then 1 else 1 + LineEnd(data[1..])
  }

  lemma {:induction false} LineEndOf(line: Bytes, rest: Bytes)
    requires LF !in line
    ensures LineEnd(line + [LF] + rest) == |line| + 1
    ensures rest == [] ==> LineEnd(line + rest) == |line|
  {
    if line == [] {
      assert line + [LF] + rest == [LF] + rest;
    } else {
      LineEndOf(line[1..], rest);
      assert (line + [LF] + rest)[1..] == line[1..] + [LF] + rest;
      assert (line + rest)[1..] == line[1..] + rest;
    }
  }

  datatype ReadError = Malformed | Truncated | TooLarge

  /** What the other side has sent and will ever send, as far as it has not been read yet. */
  class StreamReader {
    var data: Bytes

    constructor (data: Bytes)
      ensures this.data == data
    {
      this.data := data;
    }

    /** Up to and including the next LF, or all that is left. */
    method ReadLine() returns (line: Bytes)
      modifies this
      ensures line == old(data)[..LineEnd(old(data))] && data == old(data)[LineEnd(old(data))..]
    {
      var n := LineEnd(data);
      line, data := data[..n], data[n..];
    }

    /** Up to and including the next separator, or nothing if the stream ends before one. */
    method ReadUntil(separator: Bytes) returns (block: Option<Bytes>)
      modifies this
      ensures var n := Find(old(data), separator);
        if n < 0 then block == None
        else block == Some(old(data)[..n + |separator|]) && data == old(data)[n + |separator|..]
    {
      var n := Find(data, separator);
      if n < 0 {
        block, data := None, [];
      } else {
        n := n + |separator|;
        block, data := Some(data[..n]), data[n..];
      }
    }

    /** A negative count is a ValueError; too few bytes an IncompleteReadError. */
    method ReadExactly(n: int) returns (r: Result<Bytes, ReadError>)
      modifies this
      ensures n < 0 ==> r == Err(Malformed) && data == old(data)
      ensures 0 <= n <= |old(data)| ==> r == Ok(old(data)[..n]) && data == old(data)[n..]
      ensures n > |old(data)| ==> r == Err(Truncated)
    {
      if n < 0 {
        r := Err(Malformed);
      } else if n <= |data| {
        r := Ok(data[..n]);
        data := data[n..];
      } else {
        r := Err(Truncated);
      }
    }
  }

  class StreamWriter {
    var data: Bytes

    constructor ()
      ensures data == []
    {
      data := [];
    }

    method Write(bytes: Bytes)
      modifies this
      ensures data == old(data) + bytes
    {
      data := data + bytes;
    }
  }
}
