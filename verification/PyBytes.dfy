/** Searching, splitting and lower-casing of byte strings, as Python does it. */
module PyBytes {
  import opened Basics

  /** A byte literal. */
  function Ascii(s: string): (b: Bytes)
    ensures |b| == |s| && forall i :: 0 <= i < |s| ==> b[i] == s[i] as int % 256
  {
    seq(|s|, i requires 0 <= i < |s| => s[i] as int % 256)
  }

  predicate At(s: Bytes, i: nat, sep: Bytes) {
    i + |sep| <= |s| && s[i..i + |sep|] == sep
  }

  /** `s.find(sep)`, which also is `partition` and `in`: the first place, or -1. */
  function Find(s: Bytes, sep: Bytes): (n: int)
    ensures n < 0 ==> n == -1 && forall i: nat :: !At(s, i, sep)
    ensures n >= 0 ==> At(s, n, sep) && forall i: nat :: i < n ==> !At(s, i, sep)
  {
    FindFrom(s, sep, 0)
  }

  function FindFrom(s: Bytes, sep: Bytes, from: nat): (n: int)
    ensures n < 0 ==> n == -1 && forall i: nat :: i >= from ==> !At(s, i, sep)
    ensures n >= 0 ==> n >= from && At(s, n, sep) && forall i: nat :: from <= i < n ==> !At(s, i, sep)
    decreases |s| - from
  {
    if from + |sep| > |s| then -1 else if At(s, from, sep) then from else FindFrom(s, sep, from + 1)
  }

  lemma {:induction false} FindIs(s: Bytes, sep: Bytes, n: nat)
    requires At(s, n, sep) && forall i: nat :: i < n ==> !At(s, i, sep)
    ensures Find(s, sep) == n
  {
  }

  lemma {:induction false} AtBytes(s: Bytes, i: nat, sep: Bytes)
    ensures At(s, i, sep) <==> i + |sep| <= |s| && forall k :: 0 <= k < |sep| ==> s[i + k] == sep[k]
  {
    if i + |sep| <= |s| && forall k :: 0 <= k < |sep| ==> s[i + k] == sep[k] {
      assert s[i..i + |sep|] == sep;
    }
  }

  lemma {:induction false} AtLeft(a: Bytes, b: Bytes, i: nat, sep: Bytes)
    requires i + |sep| <= |a|
    ensures At(a + b, i, sep) <==> At(a, i, sep)
  {
    assert (a + b)[i..i + |sep|] == a[i..i + |sep|];
  }

  lemma {:induction false} AtRight(a: Bytes, b: Bytes, i: nat, sep: Bytes)
    requires i >= |a|
    ensures At(a + b, i, sep) <==> At(b, i - |a|, sep)
  {
    if i + |sep| <= |a + b| {
      assert (a + b)[i..i + |sep|] == b[i - |a|..i - |a| + |sep|];
    }
  }

  /** `s.split(sep)`. */
  function Split(s: Bytes, sep: Bytes): (parts: seq<Bytes>)
    requires sep != []
    ensures parts != []
    decreases |s|
  {
    var n := Find(s, sep);
    if n < 0 then [s] else [s[..n]] + Split(s[n + |sep|..], sep)
  }

  function Join(parts: seq<Bytes>, sep: Bytes): Bytes
    requires parts != []
  {
    if |parts| == 1 then parts[0] else parts[0] + sep + Join(parts[1..], sep)
  }

  ghost predicate Without(s: Bytes, sep: Bytes) {
    forall i: nat :: !At(s, i, sep)
  }

  lemma {:induction false} JoinsOn(part: Bytes, parts: seq<Bytes>, sep: Bytes)
    requires parts != []
    ensures Join([part] + parts, sep) == part + sep + Join(parts, sep)
  {
    assert ([part] + parts)[1..] == parts;
  }

  /** The parts never contain the separator, and joined they are the text again. */
  lemma {:induction false} SplitParts(s: Bytes, sep: Bytes)
    requires sep != []
    ensures forall i :: 0 <= i < |Split(s, sep)| ==> Without(Split(s, sep)[i], sep)
    ensures Join(Split(s, sep), sep) == s
    decreases |s|
  {
    var n := Find(s, sep);
    if n >= 0 {
      SplitParts(s[n + |sep|..], sep);
      JoinsOn(s[..n], Split(s[n + |sep|..], sep), sep);
      hide Join, Split;
      assert s == s[..n] + s[n..];
      forall i: nat ensures !At(s[..n], i, sep) {
        if i + |sep| <= n {
          AtLeft(s[..n], s[n..], i, sep);
        }
      }
    }
  }

  /** The first separator after a part, when none can begin inside the part. */
  lemma {:induction false} SplitFirst(part: Bytes, sep: Bytes, rest: Bytes)
    requires sep != [] && forall i: nat :: i < |part| ==> !At(part + sep + rest, i, sep)
    ensures Split(part + sep + rest, sep) == [part] + Split(rest, sep)
  {
    var s := part + sep + rest;
    assert s[|part|..|part| + |sep|] == sep;
    FindIs(s, sep, |part|);
    assert s[..|part|] == part && s[|part| + |sep|..] == rest;
  }

  function LowerByte(b: Byte): Byte {
    if 65 <= b <= 90 then b + 32 else b
  }

  function Lower(s: Bytes): (r: Bytes)
    ensures |r| == |s| && forall i :: 0 <= i < |s| ==> r[i] == LowerByte(s[i])
  {
    seq(|s|, i requires 0 <= i < |s| => LowerByte(s[i]))
  }

  // ---- Equal up to the case of ASCII letters ----

  ghost predicate SameLetter(a: Byte, b: Byte) {
    || a == b
    || (65 <= a <= 90 && b == a + 32)
    || (97 <= a <= 122 && b == a - 32)
  }

  /** Equal but for the case of ASCII letters, `A` to `Z` being 65 to 90 and `a` to `z` 97 to 122. */
  ghost predicate SameButCase(a: Bytes, b: Bytes) {
    |a| == |b| && forall i :: 0 <= i < |a| ==> SameLetter(a[i], b[i])
  }

  lemma {:induction false} LowerIsCaseless(a: Bytes, b: Bytes)
    ensures Lower(a) == Lower(b) <==> SameButCase(a, b)
  {
    if Lower(a) == Lower(b) {
      forall i | 0 <= i < |a| ensures SameLetter(a[i], b[i]) {
        assert Lower(a)[i] == Lower(b)[i];
      }
    }
  }

  /** The word stands somewhere in the text, in any case. */
  ghost predicate Mentions(s: Bytes, word: Bytes) {
    exists before, token, after :: s == before + token + after && SameButCase(token, word)
  }

  lemma {:induction false} LowerParts(before: Bytes, token: Bytes, after: Bytes)
    ensures At(Lower(before + token + after), |before|, Lower(token))
  {
    var s := Lower(before + token + after);
    assert s[|before|..|before| + |token|] == Lower(token);
  }

  /** Looking for a lower-cased text in a lower-cased one. */
  lemma {:induction false} FindCaseless(s: Bytes, word: Bytes)
    requires Lower(word) == word
    ensures Find(Lower(s), word) >= 0 <==> Mentions(s, word)
  {
    hide SameButCase, Lower, At;
    var n := Find(Lower(s), word);
    if n >= 0 {
      assert n + |word| <= |s| && Lower(s)[n..n + |word|] == word by { AtSlice(Lower(s), n, word); }
      var before, token, after := s[..n], s[n..n + |word|], s[n + |word|..];
      assert s == before + token + after;
      LowerParts(before, token, after);
      AtSlice(Lower(s), n, Lower(token));
      LowerIsCaseless(token, word);
    }
    if Mentions(s, word) {
      var before, token, after :| s == before + token + after && SameButCase(token, word);
      LowerParts(before, token, after);
      LowerIsCaseless(token, word);
    }
  }

  lemma {:induction false} AtSlice(s: Bytes, i: nat, sep: Bytes)
    requires At(s, i, sep)
    ensures i + |sep| <= |s| && s[i..i + |sep|] == sep
  {
  }
}
