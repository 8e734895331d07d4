/** Which headers are passed on to the upstream, section 7.6.1 of RFC 9110. */
module HeaderFilter {
  import opened Basics
  import opened PyBytes
  import opened PyInt
  import opened HttpMessages

  const HOP_BY_HOP_HEADERS: set<Bytes> := {
    CONNECTION, Ascii("keep-alive"), Ascii("proxy-authenticate"), Ascii("proxy-authorization"),
    Ascii("proxy-connection"), Ascii("te"), Ascii("trailer"), TRANSFER_ENCODING, Ascii("upgrade")}
  const REQUEST_ONLY_HEADERS: set<Bytes> := {Ascii("host")}
  const COMMA: Bytes := Ascii(",")

  function NameOf(h: Header): Bytes {
    Lower(h.0)
  }

  function SplitHeaderTokens(value: Bytes): set<Bytes> {
    var parts := Split(value, COMMA);
    set i | 0 <= i < |parts| && Strip(parts[i]) != [] :: Lower(Strip(parts[i]))
  }

  // ---- Names and tokens, byte by byte ----

  /** A header for one connection only. */
  ghost predicate HopByHop(h: Header) {
    || Named(h, "connection") || Named(h, "keep-alive") || Named(h, "proxy-authenticate")
    || Named(h, "proxy-authorization") || Named(h, "proxy-connection") || Named(h, "te") || Named(h, "trailer")
    || Named(h, "transfer-encoding") || Named(h, "upgrade")
  }

  lemma {:induction false} NamedExactly(h: Header, name: string)
    requires forall i :: 0 <= i < |name| ==> 'a' <= name[i] <= 'z' || name[i] == '-'
    ensures NameOf(h) == Ascii(name) <==> Named(h, name)
  {
    SmallLetters(Ascii(name));
    LowerIsCaseless(h.0, Ascii(name));
    hide SameButCase;
  }

  lemma {:induction false} HopByHopExactly(h: Header)
    ensures NameOf(h) in HOP_BY_HOP_HEADERS <==> HopByHop(h)
    ensures NameOf(h) in REQUEST_ONLY_HEADERS <==> Named(h, "host")
    ensures NameOf(h) == CONNECTION <==> Named(h, "connection")
  {
    NamedExactly(h, "connection");
    NamedExactly(h, "keep-alive");
    NamedExactly(h, "proxy-authenticate");
    NamedExactly(h, "proxy-authorization");
    NamedExactly(h, "proxy-connection");
    NamedExactly(h, "te");
    NamedExactly(h, "trailer");
    NamedExactly(h, "transfer-encoding");
    NamedExactly(h, "upgrade");
    NamedExactly(h, "host");
    hide NameOf, Named, Ascii;
  }

  /** One of the parts between the commas. */
  ghost predicate PartOf(s: Bytes, before: Bytes, part: Bytes, after: Bytes) {
    && s == before + part + after && 44 !in part
    && (before != [] ==> Last(before) == 44) && (after != [] ==> after[0] == 44)
  }

  /** The value nominates the name: one of the parts between its commas is that name, in any case. */
  ghost predicate Lists(value: Bytes, name: Bytes) {
    exists before, left, word, right, after ::
      PartOf(value, before, left + word + right, after) && Trims(left + word + right, left, word, right) && SameButCase(word, name)
  }

  lemma {:induction false} FirstComma(s: Bytes, n: nat)
    requires n < |s| && s[n] == 44 && forall i :: 0 <= i < n ==> s[i] != 44
    ensures Find(s, COMMA) == n
  {
    assert COMMA == [44];
    AtBytes(s, n, COMMA);
    forall i: nat | i < n ensures !At(s, i, COMMA) {
      AtBytes(s, i, COMMA);
    }
    FindIs(s, COMMA, n);
  }

  lemma {:induction false} NoComma(s: Bytes)
    ensures Find(s, COMMA) < 0 <==> 44 !in s
    ensures Find(s, COMMA) >= 0 ==> s[Find(s, COMMA)] == 44 && 44 !in s[..Find(s, COMMA)]
    ensures forall i :: 0 <= i < Find(s, COMMA) ==> s[i] != 44
  {
    assert COMMA == [44];
    forall i: nat ensures At(s, i, COMMA) <==> i < |s| && s[i] == 44 {
      AtBytes(s, i, COMMA);
    }
  }

  lemma {:induction false} PartOneOn(s: Bytes, n: nat, before: Bytes, part: Bytes, after: Bytes)
    requires n < |s| && s[n] == 44 && PartOf(s[n + 1..], before, part, after)
    ensures PartOf(s, s[..n + 1] + before, part, after)
  {
    assert s == s[..n + 1] + s[n + 1..];
    assert s == s[..n + 1] + before + part + after;
    assert Last(s[..n + 1]) == 44;
    assert before != [] ==> Last(s[..n + 1] + before) == Last(before);
    AddNothing(s[..n + 1]);
  }

  lemma {:induction false} FirstPart(s: Bytes, n: nat)
    requires n <= |s| && 44 !in s[..n] && (n < |s| ==> s[n] == 44)
    ensures PartOf(s, [], s[..n], s[n..])
  {
    assert s == [] + s[..n] + s[n..];
  }

  lemma {:induction false} SplitGivesParts(s: Bytes, part: Bytes) returns (before: Bytes, after: Bytes)
    requires part in Split(s, COMMA)
    ensures PartOf(s, before, part, after)
    decreases |s|
  {
    hide PartOf;
    NoComma(s);
    var n := Find(s, COMMA);
    if n < 0 {
      assert part == s && s[..|s|] == s;
      before, after := [], s[|s|..];
      FirstPart(s, |s|);
    } else {
      assert Split(s, COMMA) == [s[..n]] + Split(s[n + 1..], COMMA);
      if part == s[..n] {
        before, after := [], s[n..];
        FirstPart(s, n);
      } else {
        before, after := SplitGivesParts(s[n + 1..], part);
        PartOneOn(s, n, before, part, after);
        before := s[..n + 1] + before;
      }
    }
  }

  lemma {:induction false} PartsAreSplit(s: Bytes, before: Bytes, part: Bytes, after: Bytes)
    requires PartOf(s, before, part, after)
    ensures part in Split(s, COMMA)
    decreases |s|
  {
    NoComma(s);
    var n := Find(s, COMMA);
    if before == [] {
      if after == [] {
        assert s == part;
      } else {
        assert s[|part|] == 44 && forall i :: 0 <= i < |part| ==> s[i] == part[i];
        FirstComma(s, |part|);
        assert s[..n] == part;
      }
    } else {
      assert s[|before| - 1] == 44;
      assert 0 <= n < |before|;
      var rest := before[n + 1..];
      assert s[n + 1..] == rest + part + after;
      assert rest != [] ==> Last(rest) == Last(before);
      PartsAreSplit(s[n + 1..], rest, part, after);
      assert Split(s, COMMA) == [s[..n]] + Split(s[n + 1..], COMMA);
    }
  }

  lemma {:induction false} TokensExactly(value: Bytes, name: Bytes)
    ensures Lower(name) in SplitHeaderTokens(value) <==> Lists(value, name)
  {
    hide Strip, Trims, PartOf, SameButCase, Lower;
    if Lower(name) in SplitHeaderTokens(value) {
      var i :| 0 <= i < |Split(value, COMMA)| && Strip(Split(value, COMMA)[i]) != [] && Lower(Strip(Split(value, COMMA)[i])) == Lower(name);
      var part := Split(value, COMMA)[i];
      var before, after := SplitGivesParts(value, part);
      var left, right := StripExactly(part);
      LowerIsCaseless(Strip(part), name);
    }
    if Lists(value, name) {
      var before, left, word, right, after :|
        PartOf(value, before, left + word + right, after) && Trims(left + word + right, left, word, right) && SameButCase(word, name);
      PartsAreSplit(value, before, left + word + right, after);
      TrimmedIsStripped(left + word + right, left, word, right);
      LowerIsCaseless(word, name);
      assert word != [] by { WordIsThere(left + word + right, left, word, right); }
    }
  }

  lemma {:induction false} WordIsThere(part: Bytes, left: Bytes, word: Bytes, right: Bytes)
    requires Trims(part, left, word, right)
    ensures word != []
  {
  }

  // ---- _filter_raw_headers ----

  /** Everything that some Connection header nominates. */
  function Nominations(raw: seq<Header>): set<Bytes> {
    if raw == [] then {}
    else Nominations(Front(raw)) + if NameOf(Last(raw)) == CONNECTION then SplitHeaderTokens(Last(raw).1) else {}
  }

  function Keep(raw: seq<Header>, skip: set<Bytes>): seq<Header> {
    if raw == [] then []
    else Keep(Front(raw), skip) + if NameOf(Last(raw)) in skip then [] else [Last(raw)]
  }

  function Filtered(raw: seq<Header>, extraSkip: set<Bytes>): seq<Header> {
    Keep(raw, HOP_BY_HOP_HEADERS + extraSkip + Nominations(raw))
  }

  method FilterRawHeaders(raw: seq<Header>, extraSkip: set<Bytes>) returns (kept: seq<Header>)
    ensures kept == Filtered(raw, extraSkip)
  {
    var skip := HOP_BY_HOP_HEADERS;
    skip := skip + extraSkip;
    var i := 0;
    while i < |raw|
      invariant 0 <= i <= |raw|
      invariant skip == HOP_BY_HOP_HEADERS + extraSkip + Nominations(raw[..i])
    {
      assert Front(raw[..i + 1]) == raw[..i];
      if NameOf(raw[i]) == CONNECTION {
        skip := skip + SplitHeaderTokens(raw[i].1);
      }
      i := i + 1;
    }
    assert raw[..i] == raw;
    kept := Keep(raw, skip);
  }

  // ---- What is kept ----

  ghost predicate IsNominated(raw: seq<Header>, name: Bytes) {
    exists i :: 0 <= i < |raw| && NameOf(raw[i]) == CONNECTION && name in SplitHeaderTokens(raw[i].1)
  }

  /** Some Connection header lists the name, both in any case. */
  ghost predicate Nominated(raw: seq<Header>, name: Bytes) {
    exists i :: 0 <= i < |raw| && Named(raw[i], "connection") && Lists(raw[i].1, name)
  }

  lemma {:induction false} NominatedExactly(raw: seq<Header>, h: Header)
    ensures IsNominated(raw, NameOf(h)) <==> Nominated(raw, h.0)
  {
    hide Lists, Named, SplitHeaderTokens, Lower;
    forall i | 0 <= i < |raw|
      ensures NameOf(raw[i]) == CONNECTION && NameOf(h) in SplitHeaderTokens(raw[i].1) <==> Named(raw[i], "connection") && Lists(raw[i].1, h.0)
    {
      HopByHopExactly(raw[i]);
      TokensExactly(raw[i].1, h.0);
    }
  }

  lemma {:induction false} NominationsAreExact(raw: seq<Header>, name: Bytes)
    ensures name in Nominations(raw) <==> IsNominated(raw, name)
  {
    hide SplitHeaderTokens;
    if raw != [] {
      var front, h := Front(raw), Last(raw);
      NominationsAreExact(front, name);
      if IsNominated(front, name) {
        var i :| 0 <= i < |front| && NameOf(front[i]) == CONNECTION && name in SplitHeaderTokens(front[i].1);
        assert raw[i] == front[i];
      }
      if IsNominated(raw, name) {
        var i :| 0 <= i < |raw| && NameOf(raw[i]) == CONNECTION && name in SplitHeaderTokens(raw[i].1);
        assert i < |front| ==> front[i] == raw[i];
      }
    }
  }

  lemma {:induction false} KeepPicks(raw: seq<Header>, skip: set<Bytes>) returns (at: seq<int>)
    ensures PickedAt(raw, Keep(raw, skip), at)
    ensures forall j :: j in at <==> 0 <= j < |raw| && NameOf(raw[j]) !in skip
  {
    hide NameOf;
    if raw == [] {
      at := [];
    } else {
      var before := KeepPicks(Front(raw), skip);
      at := before;
      PicksGrow(raw, Keep(Front(raw), skip), before);
      if NameOf(Last(raw)) !in skip {
        at := before + [|raw| - 1];
        forall j ensures j in at <==> j in before || j == |raw| - 1 {
          assert at[|before|] == |raw| - 1;
        }
      }
    }
  }

  /** Filtering keeps, in order and unchanged, exactly the headers that are neither skipped by name
      nor nominated by any Connection header, wherever that stands. */
  lemma {:induction false} FilterKeepsExactly(raw: seq<Header>, extraSkip: set<Bytes>) returns (at: seq<int>)
    ensures PickedAt(raw, Filtered(raw, extraSkip), at)
    ensures forall j :: j in at <==>
      && 0 <= j < |raw| && !HopByHop(raw[j]) && Lower(raw[j].0) !in extraSkip && !Nominated(raw, raw[j].0)
  {
    hide Nominations, HopByHop, Nominated, Lower;
    at := KeepPicks(raw, HOP_BY_HOP_HEADERS + extraSkip + Nominations(raw));
    forall j | 0 <= j < |raw|
      ensures NameOf(raw[j]) in Nominations(raw) <==> Nominated(raw, raw[j].0)
      ensures NameOf(raw[j]) in HOP_BY_HOP_HEADERS <==> HopByHop(raw[j])
    {
      NominationsAreExact(raw, NameOf(raw[j]));
      NominatedExactly(raw, raw[j]);
      HopByHopExactly(raw[j]);
    }
  }

  // ---- Filtering twice ----

  ghost predicate NoneIn(headers: seq<Header>, skip: set<Bytes>) {
    forall i :: 0 <= i < |headers| ==> NameOf(headers[i]) !in skip
  }

  lemma {:induction false} KeepLeavesNone(raw: seq<Header>, skip: set<Bytes>)
    ensures NoneIn(Keep(raw, skip), skip)
    ensures forall other :: NoneIn(raw, other) ==> NoneIn(Keep(raw, skip), other)
  {
    hide NameOf;
    if raw != [] {
      KeepLeavesNone(Front(raw), skip);
      forall other | NoneIn(raw, other) ensures NoneIn(Keep(raw, skip), other) {
        assert NoneIn(Front(raw), other);
      }
    }
  }

  /** A filter changes nothing if and only if there is nothing for it to remove. */
  lemma {:induction false} KeepsAll(raw: seq<Header>, skip: set<Bytes>)
    ensures Keep(raw, skip) == raw <==> NoneIn(raw, skip)
    ensures |Keep(raw, skip)| <= |raw|
  {
    hide NameOf;
    KeepLeavesNone(raw, skip);
    if raw != [] {
      KeepsAll(Front(raw), skip);
      assert NoneIn(raw, skip) ==> NoneIn(Front(raw), skip);
      assert raw == Front(raw) + [Last(raw)];
    }
  }

  lemma {:induction false} NothingNominated(raw: seq<Header>)
    requires NoneIn(raw, {CONNECTION})
    ensures Nominations(raw) == {}
  {
    hide SplitHeaderTokens;
    if raw != [] {
      NothingNominated(Front(raw));
    }
  }

  lemma {:induction false} ConnectionIsHopByHop(headers: seq<Header>, skip: set<Bytes>)
    requires HOP_BY_HOP_HEADERS <= skip && NoneIn(headers, skip)
    ensures NoneIn(headers, {CONNECTION})
  {
    assert CONNECTION in HOP_BY_HOP_HEADERS;
  }

  lemma {:induction false} FilteredIsClean(raw: seq<Header>, extraSkip: set<Bytes>)
    ensures NoneIn(Filtered(raw, extraSkip), HOP_BY_HOP_HEADERS + extraSkip)
    ensures NoneIn(Filtered(raw, extraSkip), {CONNECTION})
  {
    var skip := HOP_BY_HOP_HEADERS + extraSkip + Nominations(raw);
    KeepLeavesNone(raw, skip);
    ConnectionIsHopByHop(Filtered(raw, extraSkip), skip);
  }

  /** Filtering is idempotent. */
  lemma {:induction false} FilterIsIdempotent(raw: seq<Header>, extraSkip: set<Bytes>)
    ensures Filtered(Filtered(raw, extraSkip), extraSkip) == Filtered(raw, extraSkip)
  {
    var once := Filtered(raw, extraSkip);
    FilteredIsClean(raw, extraSkip);
    NothingNominated(once);
    assert HOP_BY_HOP_HEADERS + extraSkip + {} == HOP_BY_HOP_HEADERS + extraSkip;
    KeepsAll(once, HOP_BY_HOP_HEADERS + extraSkip);
  }

  // ---- filtered_request_headers_from_raw ----

  /** `key` is the configured key header, if a key is configured. */
  function RequestHeaders(raw: seq<Header>, key: Option<Header>): seq<Header> {
    var headers := Filtered(raw, REQUEST_ONLY_HEADERS);
    if key.None? then headers else Keep(headers, {NameOf(key.value)}) + [key.value]
  }

  /** The headers of the client that go on to the upstream. */
  ghost predicate PassesOn(raw: seq<Header>, key: Option<Header>, j: int) {
    && 0 <= j < |raw| && !HopByHop(raw[j]) && !Named(raw[j], "host") && !Nominated(raw, raw[j].0)
    && (key.Some? ==> !SameButCase(raw[j].0, key.value.0))
  }

  /** The client's part of the headers that are sent: all of them, or all but the key header. */
  function ClientPart(headers: seq<Header>, key: Option<Header>): seq<Header>
    requires key.Some? ==> headers != []
  {
    if key.Some? then Front(headers) else headers
  }

  lemma {:induction false} KeepTwice(raw: seq<Header>, skip: set<Bytes>, more: set<Bytes>)
    ensures Keep(Keep(raw, skip), more) == Keep(raw, skip + more)
  {
    hide NameOf;
    if raw != [] {
      KeepTwice(Front(raw), skip, more);
      if NameOf(Last(raw)) in skip {
        AddNothing(Keep(Front(raw), skip));
      } else {
        KeepAppend(Keep(Front(raw), skip), Last(raw), more);
      }
    }
  }

  lemma {:induction false} NeverOutside(raw: seq<Header>, key: Option<Header>)
    ensures forall j :: PassesOn(raw, key, j) ==> 0 <= j < |raw|
  {
    hide HopByHop, Named, Nominated, SameButCase;
  }

  /** Exactly the headers that pass on are sent, in order and unchanged, before the key header. */
  lemma {:induction false} RequestKeepsExactly(raw: seq<Header>, key: Option<Header>) returns (at: seq<int>)
    ensures PickedAt(raw, ClientPart(RequestHeaders(raw, key), key), at)
    ensures forall j :: j in at <==> PassesOn(raw, key, j)
  {
    var nominated := Nominations(raw);
    var skip := HOP_BY_HOP_HEADERS + REQUEST_ONLY_HEADERS + nominated;
    hide Nominations, Nominated, HopByHop, Named, SameButCase;
    forall j | 0 <= j < |raw|
      ensures PassesOn(raw, key, j) <==> NameOf(raw[j]) !in skip && (key.Some? ==> NameOf(raw[j]) != NameOf(key.value))
    {
      NominationsAreExact(raw, NameOf(raw[j]));
      NominatedExactly(raw, raw[j]);
      HopByHopExactly(raw[j]);
      if key.Some? { LowerIsCaseless(raw[j].0, key.value.0); }
    }
    hide NameOf, PassesOn;
    NeverOutside(raw, key);
    if key.None? {
      at := KeepPicks(raw, skip);
    } else {
      KeepTwice(raw, skip, {NameOf(key.value)});
      at := KeepPicks(raw, skip + {NameOf(key.value)});
    }
  }

  /** What is sent is the client's headers that pass on, in order and unchanged, and after them the
      key header, if one is configured, the only one of its name: no client can add to it, or take
      it away by nominating it. */
  method FilteredRequestHeaders(raw: seq<Header>, key: Option<Header>) returns (headers: seq<Header>, ghost at: seq<int>)
    ensures headers == RequestHeaders(raw, key)
    ensures key.Some? ==> headers != [] && Last(headers) == key.value
    ensures PickedAt(raw, ClientPart(headers, key), at)
    ensures forall j :: j in at <==> PassesOn(raw, key, j)
  {
    at := RequestKeepsExactly(raw, key);
    headers := FilterRawHeaders(raw, REQUEST_ONLY_HEADERS);
    if key.Some? {
      headers := Keep(headers, {NameOf(key.value)});
      headers := headers + [key.value];
    }
  }

  /** With a key configured, exactly one header has its name: the last one, with the configured
      value. */
  lemma {:induction false} OneKeyHeader(raw: seq<Header>, key: Header)
    ensures var headers := RequestHeaders(raw, Some(key));
      && headers != [] && Last(headers) == key
      && forall i :: 0 <= i < |headers| && SameButCase(headers[i].0, key.0) ==> i == |headers| - 1
  {
    forall h: Header ensures NameOf(h) == NameOf(key) <==> SameButCase(h.0, key.0) {
      LowerIsCaseless(h.0, key.0);
    }
    hide SameButCase;
    KeepLeavesNone(Filtered(raw, REQUEST_ONLY_HEADERS), {NameOf(key)});
  }

  lemma {:induction false} KeepAppend(a: seq<Header>, h: Header, skip: set<Bytes>)
    ensures Keep(a + [h], skip) == Keep(a, skip) + if NameOf(h) in skip then [] else [h]
  {
    assert Front(a + [h]) == a;
  }

  lemma {:induction false} NominationsAppend(a: seq<Header>, h: Header)
    ensures Nominations(a + [h]) == Nominations(a) + if NameOf(h) == CONNECTION then SplitHeaderTokens(h.1) else {}
  {
    assert Front(a + [h]) == a;
  }

  /** What the key header, were it read as a Connection header, would nominate. */
  function KeyNominates(key: Header): set<Bytes> {
    if NameOf(key) == CONNECTION then SplitHeaderTokens(key.1) else {}
  }

  /** What a second pass makes of the headers `kept` besides the key. */
  lemma {:induction false} SecondPass(kept: seq<Header>, key: Header)
    requires NoneIn(kept, HOP_BY_HOP_HEADERS + REQUEST_ONLY_HEADERS) && NoneIn(kept, {CONNECTION}) && NoneIn(kept, {NameOf(key)})
    ensures RequestHeaders(kept + [key], Some(key)) == Keep(kept, KeyNominates(key)) + [key]
  {
    hide SplitHeaderTokens, NameOf;
    var base, more := HOP_BY_HOP_HEADERS + REQUEST_ONLY_HEADERS, KeyNominates(key);
    NothingNominated(kept);
    NominationsAppend(kept, key);
    assert {} + more == more;
    KeepAppend(kept, key, base + more);
    KeepUnion(kept, base, more);
    var again := Keep(kept, more);
    KeepLeavesNone(kept, more);
    KeepsAll(again, {NameOf(key)});
    KeepAppend(again, key, {NameOf(key)});
    AddNothing(again);
    var first := Filtered(kept + [key], REQUEST_ONLY_HEADERS);
    assert first == again + if NameOf(key) in base + more then [] else [key];
    assert Keep(first, {NameOf(key)}) == again;
  }

  lemma {:induction false} KeepUnion(headers: seq<Header>, skip: set<Bytes>, more: set<Bytes>)
    requires NoneIn(headers, skip)
    ensures Keep(headers, skip + more) == Keep(headers, more)
  {
    hide NameOf;
    if headers != [] {
      assert NoneIn(Front(headers), skip);
      KeepUnion(Front(headers), skip, more);
    }
  }

  lemma {:induction false} PickedNames(raw: seq<Header>, kept: seq<Header>, at: seq<int>, names: set<Bytes>)
    requires PickedAt(raw, kept, at)
    ensures NoneIn(kept, names) <==> forall j :: j in at ==> 0 <= j < |raw| && NameOf(raw[j]) !in names
  {
    hide NameOf;
    if NoneIn(kept, names) {
      forall j | j in at ensures 0 <= j < |raw| && NameOf(raw[j]) !in names {
        var i :| 0 <= i < |at| && at[i] == j;
        assert kept[i] == raw[j];
      }
    } else {
      var i :| 0 <= i < |kept| && NameOf(kept[i]) in names;
      assert at[i] in at;
    }
  }

  lemma {:induction false} SecondPassAgrees(raw: seq<Header>, key: Header)
    ensures var headers := RequestHeaders(raw, Some(key));
      RequestHeaders(headers, Some(key)) == headers <==> NoneIn(Front(headers), KeyNominates(key))
  {
    hide NameOf;
    var headers := Filtered(raw, REQUEST_ONLY_HEADERS);
    var kept := Keep(headers, {NameOf(key)});
    FilteredIsClean(raw, REQUEST_ONLY_HEADERS);
    KeepLeavesNone(headers, {NameOf(key)});
    SecondPass(kept, key);
    KeepsAll(kept, KeyNominates(key));
    assert Front(kept + [key]) == kept;
  }

  /** The whole request filter is idempotent if and only if the configured key header does not
      nominate a header that passes on; only a key header named Connection nominates anything. */
  lemma {:induction false} RequestFilterIsIdempotent(raw: seq<Header>, key: Option<Header>)
    ensures RequestHeaders(RequestHeaders(raw, key), key) == RequestHeaders(raw, key)
      <==> (key.Some? ==> forall j :: PassesOn(raw, key, j) ==> !(Named(key.value, "connection") && Lists(key.value.1, raw[j].0)))
  {
    forall h: Header | key.Some? ensures NameOf(h) in KeyNominates(key.value) <==> Named(key.value, "connection") && Lists(key.value.1, h.0) {
      HopByHopExactly(key.value);
      TokensExactly(key.value.1, h.0);
    }
    hide Named, Lists, HopByHop;
    if key.None? {
      FilterIsIdempotent(raw, REQUEST_ONLY_HEADERS);
    } else {
      hide NameOf, KeyNominates;
      SecondPassAgrees(raw, key.value);
      var at := RequestKeepsExactly(raw, key);
      PickedNames(raw, ClientPart(RequestHeaders(raw, key), key), at, KeyNominates(key.value));
    }
  }

  /** Under every other name the key may have, skipped ones included, the filter is idempotent. */
  lemma {:induction false} OrdinaryKeyIsIdempotent(raw: seq<Header>, key: Option<Header>)
    requires key.Some? ==> !Named(key.value, "connection")
    ensures RequestHeaders(RequestHeaders(raw, key), key) == RequestHeaders(raw, key)
  {
    hide RequestHeaders, Named, Lists;
    RequestFilterIsIdempotent(raw, key);
  }

  /** A key configured under the name Connection is read as one by the second pass. */
  lemma {:induction false} ConnectionKeyIsNotIdempotent()
    ensures var raw, key := [(Ascii("x"), Ascii("1"))], Some((Ascii("connection"), Ascii("x")));
      RequestHeaders(RequestHeaders(raw, key), key) != RequestHeaders(raw, key)
  {
    var x: Bytes := Ascii("x");
    var raw, key: Option<Header> := [(x, Ascii("1"))], Some((Ascii("connection"), x));
    XIsListed(x);
    assert Named(key.value, "connection");
    assert PassesOn(raw, key, 0) by {
      assert !Named(raw[0], "te") && !HopByHop(raw[0]) && !Named(raw[0], "host");
      assert !Named(raw[0], "connection");
      hide Lists;
    }
    hide RequestHeaders, Named, Lists, PassesOn, Ascii;
    RequestFilterIsIdempotent(raw, key);
  }

  lemma {:induction false} XIsListed(x: Bytes)
    requires x == [120]
    ensures Lists(x, x)
  {
    assert [] + x + [] == x;
    assert PartOf(x, [], [] + x + [], []);
    assert x[0] == 120 == Last(x);
    assert [x[0]][0] == 120;
    assert Trims([] + x + [], [], x, []);
    assert SameButCase(x, x);
  }
}
