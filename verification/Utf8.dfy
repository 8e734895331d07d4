/** UTF-8, as RFC 3629 defines it: what `str.encode` writes and a client decodes. */
module Utf8 {
  import opened Basics

  function EncodeChar(c: char): (r: Bytes)
    ensures 1 <= |r| <= 4
  {
    var n := c as int;
    if n < 0x80 then [n]
    else if n < 0x800 then [0xC0 + n / 64, 0x80 + n % 64]
    else if n < 0x10000 then [0xE0 + n / 4096, 0x80 + n / 64 % 64, 0x80 + n % 64]
    else [0xF0 + n / 262144, 0x80 + n / 4096 % 64, 0x80 + n / 64 % 64, 0x80 + n % 64]
  }

  function Encode(s: string): Bytes {
    if s == "" then [] else EncodeChar(s[0]) + Encode(s[1..])
  }

  predicate ScalarValue(n: int) {
    0 <= n < 0xD800 || 0xE000 <= n < 0x110000
  }

  /** The code point that the first bytes spell, whether or not they are well formed. */
  function Spelled(b: Bytes): int
    requires b != []
  {
    var lead: int := b[0];
    if lead < 0x80 then lead
    else if lead < 0xE0 && |b| >= 2 then (lead - 0xC0) * 64 + Continuation(b[1])
    else if lead < 0xF0 && |b| >= 3 then (lead - 0xE0) * 4096 + Continuation(b[1]) * 64 + Continuation(b[2])
    else if |b| >= 4 then (lead - 0xF0) * 262144 + Continuation(b[1]) * 4096 + Continuation(b[2]) * 64 + Continuation(b[3])
    else -1
  }

  function Continuation(b: Byte): int {
    b as int - 0x80
  }

  /** Strict decoding: each step reads the one scalar value whose encoding comes next. */
  function Decode(b: Bytes): Option<string>
    decreases |b|
  {
    if b == [] then Some("")
    else if !ScalarValue(Spelled(b)) then None
    else
      var c := Spelled(b) as char;
      if EncodeChar(c) <= b then
        var rest := Decode(b[|EncodeChar(c)|..]);
        if rest.Some? then Some([c] + rest.value) else None
      else None
  }

  ghost predicate Tail(b: Byte) {
    0x80 <= b <= 0xBF
  }

  /** The table of section 3 of RFC 3629: the shortest form, its lead byte, and the bits of each byte. */
  lemma {:induction false} EncodesByTable(c: char)
    ensures var n, r := c as int, EncodeChar(c);
      if n <= 0x7F then r == [n]
      else if n <= 0x7FF then
        && |r| == 2 && 0xC2 <= r[0] <= 0xDF && Tail(r[1])
        && n == (r[0] as int - 0xC0) * 64 + (r[1] as int - 0x80)
      else if n <= 0xFFFF then
        && |r| == 3 && 0xE0 <= r[0] <= 0xEF && Tail(r[1]) && Tail(r[2])
        && n == (r[0] as int - 0xE0) * 4096 + (r[1] as int - 0x80) * 64 + (r[2] as int - 0x80)
      else
        && |r| == 4 && 0xF0 <= r[0] <= 0xF4 && Tail(r[1]) && Tail(r[2]) && Tail(r[3])
        && n == (r[0] as int - 0xF0) * 262144 + (r[1] as int - 0x80) * 4096 + (r[2] as int - 0x80) * 64 + (r[3] as int - 0x80)
    ensures Encode([c]) == EncodeChar(c)
  {
    var n := c as int;
    assert [c][1..] == [];
    AddNothing(EncodeChar(c));
    assert n / 4096 == n / 64 / 64 && n / 262144 == n / 64 / 64 / 64;
  }

  lemma {:induction false} SpelledInverts(c: char, rest: Bytes)
    ensures Spelled(EncodeChar(c) + rest) == c as int
  {
    var n, b := c as int, EncodeChar(c) + rest;
    if n < 0x80 {
    } else if n < 0x800 {
      assert b[0] == 0xC0 + n / 64 && b[1] == 0x80 + n % 64;
    } else if n < 0x10000 {
      assert b[0] == 0xE0 + n / 4096 && b[1] == 0x80 + n / 64 % 64 && b[2] == 0x80 + n % 64;
      assert n / 4096 == n / 64 / 64;
    } else {
      assert b[0] == 0xF0 + n / 262144 && b[1] == 0x80 + n / 4096 % 64 && b[2] == 0x80 + n / 64 % 64 && b[3] == 0x80 + n % 64;
      assert n / 4096 == n / 64 / 64 && n / 262144 == n / 64 / 64 / 64;
    }
  }

  lemma {:induction false} DecodeInverts(s: string)
    ensures Decode(Encode(s)) == Some(s)
  {
    if s != "" {
      var head, rest := EncodeChar(s[0]), Encode(s[1..]);
      SpelledInverts(s[0], rest);
      DecodeInverts(s[1..]);
      assert (head + rest)[|head|..] == rest;
      assert s == [s[0]] + s[1..];
    }
  }

  lemma {:induction false} DecodesTheEncoded(b: Bytes)
    requires Decode(b).Some?
    ensures Encode(Decode(b).value) == b
    decreases |b|
  {
    hide Decode, EncodeChar, Spelled;
    DecodeUnfolds(b);
    if b != [] {
      var c := Spelled(b) as char;
      var rest := b[|EncodeChar(c)|..];
      DecodesTheEncoded(rest);
      assert Decode(b).value[1..] == Decode(rest).value;
      assert b == EncodeChar(c) + rest;
    }
  }

  lemma {:induction false} DecodeUnfolds(b: Bytes)
    requires Decode(b).Some?
    ensures b == [] ==> Decode(b).value == ""
    ensures b != [] ==>
      && ScalarValue(Spelled(b))
      && var c := Spelled(b) as char;
      && EncodeChar(c) <= b && Decode(b[|EncodeChar(c)|..]).Some?
      && Decode(b).value == [c] + Decode(b[|EncodeChar(c)|..]).value
  {
    hide EncodeChar, Spelled;
  }

  /** Strict: a text is decoded from its own encoding and from no other bytes. */
  lemma {:induction false} DecodesExactly(b: Bytes, s: string)
    ensures Decode(b) == Some(s) <==> b == Encode(s)
  {
    DecodeInverts(s);
    if Decode(b).Some? {
      DecodesTheEncoded(b);
    }
  }

  lemma {:induction false} EncodeAppend(a: string, b: string)
    ensures Encode(a + b) == Encode(a) + Encode(b)
  {
    if a == "" {
      assert a + b == b;
    } else {
      EncodeAppend(a[1..], b);
      hide EncodeChar;
      Associates(EncodeChar(a[0]), Encode(a[1..]), Encode(b));
      assert (a + b)[0] == a[0] && (a + b)[1..] == a[1..] + b;
    }
  }
}
