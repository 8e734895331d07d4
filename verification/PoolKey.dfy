/** The identity under which idle WebSockets are shared between requests. */
module PoolKeys {

  type Header = (string, string)

  datatype PoolKey = PoolKey(url: string, identityDigest: string)

  /** The settings that choose identity headers. `digest` stands for SHA-256 over the JSON
      encoding of the sorted header list; theorems that need it assume it collision free. */
  datatype Keying = Keying(keyHeaders: seq<string>, apiKeyHeader: string, digest: seq<Header> -> string)

  ghost predicate CollisionFree(digest: seq<Header> -> string) {
    forall a, b :: digest(a) == digest(b) ==> a == b
  }

  /** Lower-casing of the Latin-1 range, which is all that header names decode to. */
  function LowerChar(c: char): char {
    if 'A' <= c <= 'Z' || ('\U{C0}' <= c <= '\U{DE}' && c != '\U{D7}') then (c as int + 32) as char else c
  }

  function Lower(s: string): (r: string)
    ensures |r| == |s|
    ensures forall i :: 0 <= i < |s| ==> r[i] == LowerChar(s[i])
  {
    if s == "" then "" else [LowerChar(s[0])] + Lower(s[1..])
  }

  const CAPITALS := "ABCDEFGHIJKLMNOPQRSTUVWXYZ"
  const SMALLS := "abcdefghijklmnopqrstuvwxyz"

  /** Lower-casing, letter by letter: capitals become the small letter at the same place of the
      alphabet, accented ones the one 32 further on, and nothing else changes. */
  lemma {:induction false} LowerCharExactly(c: char)
    ensures forall i :: 0 <= i < 26 && c == CAPITALS[i] ==> LowerChar(c) == SMALLS[i]
    ensures 0xC0 <= c as int <= 0xDE && c as int != 0xD7 ==> LowerChar(c) as int == c as int + 32
    ensures c !in CAPITALS && !(0xC0 <= c as int <= 0xDE && c as int != 0xD7) ==> LowerChar(c) == c
  {
    hide CAPITALS, SMALLS;
    LetterAt(0);
    forall i | 0 <= i < 26 ensures CAPITALS[i] as int == 65 + i && SMALLS[i] as int == 97 + i {
      LetterAt(i);
    }
    LetterAt(if 'A' <= c <= 'Z' then c as int - 65 else 0);
  }

  lemma {:induction false} LetterAt(i: nat)
    requires i < 26
    ensures |CAPITALS| == |SMALLS| == 26 && CAPITALS[i] as int == 65 + i && SMALLS[i] as int == 97 + i
  {
  }

  predicate Occurs(needle: string, s: string) {
    exists i :: 0 <= i <= |s| - |needle| && s[i..][..|needle|] == needle
  }

  predicate IsIdentityHeader(k: Keying, name: string) {
    || name == Lower(k.apiKeyHeader)
    || (exists i :: 0 <= i < |k.keyHeaders| && name == Lower(k.keyHeaders[i]))
    || Occurs("auth", name)
    || Occurs("token", name)
  }

  /** The identity headers of a request, names lower-cased, in request order. */
  function IdentityHeaders(k: Keying, headers: seq<Header>): seq<Header> {
    if headers == [] then []
    else
      var name := Lower(headers[0].0);
      (if IsIdentityHeader(k, name) then [(name, headers[0].1)] else []) + IdentityHeaders(k, headers[1..])
  }

  // Code-point order on strings, and the order of Python tuples built on it.

  predicate StringLe(a: string, b: string) {
    a == "" || (b != "" && (a[0] < b[0] || (a[0] == b[0] && StringLe(a[1..], b[1..]))))
  }

  predicate HeaderLe(a: Header, b: Header) {
    if a.0 == b.0 then StringLe(a.1, b.1) else StringLe(a.0, b.0)
  }

  lemma {:induction false} StringLeTotal(a: string, b: string)
    ensures StringLe(a, b) || StringLe(b, a)
    ensures StringLe(a, b) && StringLe(b, a) ==> a == b
  {
    if a != "" && b != "" {
      StringLeTotal(a[1..], b[1..]);
      assert a == [a[0]] + a[1..] && b == [b[0]] + b[1..];
    }
  }

  lemma {:induction false} StringLeTransitive(a: string, b: string, c: string)
    requires StringLe(a, b) && StringLe(b, c)
    ensures StringLe(a, c)
  {
    if a != "" && a[0] == b[0] == c[0] {
      StringLeTransitive(a[1..], b[1..], c[1..]);
    }
  }

  lemma {:induction false} HeaderLeTotal(a: Header, b: Header)
    ensures HeaderLe(a, b) || HeaderLe(b, a)
    ensures HeaderLe(a, b) && HeaderLe(b, a) ==> a == b
  {
    StringLeTotal(a.0, b.0);
    StringLeTotal(a.1, b.1);
  }

  lemma {:induction false} HeaderLeTransitive(a: Header, b: Header, c: Header)
    requires HeaderLe(a, b) && HeaderLe(b, c)
    ensures HeaderLe(a, c)
  {
    if a.0 == b.0 == c.0 {
      StringLeTransitive(a.1, b.1, c.1);
    } else {
      StringLeTotal(a.0, b.0);
      if a.0 != b.0 && b.0 != c.0 {
        StringLeTransitive(a.0, b.0, c.0);
      }
    }
  }

  ghost predicate Sorted(s: seq<Header>) {
    forall i, j :: 0 <= i < j < |s| ==> HeaderLe(s[i], s[j])
  }

  function Insert(h: Header, s: seq<Header>): seq<Header> {
    if s == [] || HeaderLe(h, s[0]) then [h] + s else [s[0]] + Insert(h, s[1..])
  }

  lemma {:induction false} InsertKeepsSorted(h: Header, s: seq<Header>)
    requires Sorted(s)
    ensures Sorted(Insert(h, s))
    ensures multiset(Insert(h, s)) == multiset{h} + multiset(s)
  {
    if s == [] {
    } else if HeaderLe(h, s[0]) {
      forall j | 0 <= j < |s| ensures HeaderLe(h, s[j]) {
        if j > 0 { HeaderLeTransitive(h, s[0], s[j]); }
      }
    } else {
      var rest := Insert(h, s[1..]);
      InsertKeepsSorted(h, s[1..]);
      HeaderLeTotal(h, s[0]);
      assert s == [s[0]] + s[1..];
      forall j | 0 <= j < |rest| ensures HeaderLe(s[0], rest[j]) {
        assert rest[j] in multiset(rest);
        assert rest[j] in multiset{h} + multiset(s[1..]);
        if rest[j] != h {
          assert rest[j] in s[1..];
        }
      }
    }
  }

  function Sort(s: seq<Header>): seq<Header> {
    if s == [] then [] else Insert(s[0], Sort(s[1..]))
  }

  lemma {:induction false} SortSorts(s: seq<Header>)
    ensures Sorted(Sort(s)) && multiset(Sort(s)) == multiset(s)
  {
    if s != [] {
      SortSorts(s[1..]);
      InsertKeepsSorted(s[0], Sort(s[1..]));
      assert s == [s[0]] + s[1..];
    }
  }

  lemma {:induction false} HeadIsLeast(s: seq<Header>, h: Header)
    requires Sorted(s) && h in s
    ensures HeaderLe(s[0], h)
  {
    HeaderLeTotal(h, h);
  }

  lemma {:induction false} HeadsAgree(a: seq<Header>, b: seq<Header>)
    requires a != [] && b != [] && Sorted(a) && Sorted(b) && multiset(a) == multiset(b)
    ensures a[0] == b[0]
  {
    assert a[0] in multiset(b) && b[0] in multiset(a);
    HeadIsLeast(a, b[0]);
    HeadIsLeast(b, a[0]);
    HeaderLeTotal(a[0], b[0]);
  }

  /** A sorted list is determined by its multiset of elements. */
  lemma {:induction false} SortedUnique(a: seq<Header>, b: seq<Header>)
    requires Sorted(a) && Sorted(b) && multiset(a) == multiset(b)
    ensures a == b
  {
    assert |multiset(a)| == |a| && |multiset(b)| == |b|;
    if a != [] {
      HeadsAgree(a, b);
      assert a == [a[0]] + a[1..] && b == [b[0]] + b[1..];
      assert multiset(a[1..]) == multiset(a) - multiset{a[0]};
      assert multiset(b[1..]) == multiset(b) - multiset{b[0]};
      SortedUnique(a[1..], b[1..]);
    }
  }

  function KeyOf(k: Keying, url: string, headers: seq<Header>): PoolKey {
    PoolKey(url, k.digest(Sort(IdentityHeaders(k, headers))))
  }

  /** How many headers have that name, in any case, and that value. */
  ghost function Carried(headers: seq<Header>, name: string, value: string): nat {
    |CarriedAt(headers, name, value)|
  }

  ghost function CarriedAt(headers: seq<Header>, name: string, value: string): set<int> {
    set j | 0 <= j < |headers| && Lower(headers[j].0) == name && headers[j].1 == value
  }

  lemma {:induction false} OneMoreCarried(headers: seq<Header>, h: Header, name: string, value: string)
    ensures Carried(headers + [h], name, value)
      == Carried(headers, name, value) + if Lower(h.0) == name && h.1 == value then 1 else 0
  {
    hide Lower;
    var before, after := CarriedAt(headers, name, value), CarriedAt(headers + [h], name, value);
    if Lower(h.0) == name && h.1 == value {
      assert after == before + {|headers|};
    } else {
      assert after == before;
    }
  }

  /** A name that makes a header part of the identity. */
  ghost predicate NamesIdentity(k: Keying, name: string) {
    || name == Lower(k.apiKeyHeader)
    || (exists i :: 0 <= i < |k.keyHeaders| && name == Lower(k.keyHeaders[i]))
    || (exists before, after :: name == before + "auth" + after)
    || (exists before, after :: name == before + "token" + after)
  }

  lemma {:induction false} OccursExactly(needle: string, s: string)
    ensures Occurs(needle, s) <==> exists before, after :: s == before + needle + after
  {
    if Occurs(needle, s) {
      var i :| 0 <= i <= |s| - |needle| && s[i..][..|needle|] == needle;
      assert s == s[..i] + needle + s[i + |needle|..];
    }
    if exists before, after :: s == before + needle + after {
      var before, after :| s == before + needle + after;
      assert s[|before|..][..|needle|] == needle;
    }
  }

  lemma {:induction false} IdentityNamesExactly(k: Keying, name: string)
    ensures IsIdentityHeader(k, name) <==> NamesIdentity(k, name)
  {
    OccursExactly("auth", name);
    OccursExactly("token", name);
    hide Occurs;
  }

  lemma {:induction false} IdentityHeadersCount(k: Keying, headers: seq<Header>, h: Header)
    ensures multiset(IdentityHeaders(k, headers))[h] == if NamesIdentity(k, h.0) then Carried(headers, h.0, h.1) else 0
    decreases |headers|
  {
    if headers != [] {
      var front, last := headers[..|headers| - 1], headers[|headers| - 1];
      assert headers == front + [last];
      IdentityHeadersCount(k, front, h);
      IdentityHeadersAppend(k, front, [last]);
      IdentityNamesExactly(k, Lower(last.0));
      OneMoreCarried(front, last, h.0, h.1);
      hide Lower, NamesIdentity, IsIdentityHeader, Carried;
      OneIdentityHeader(k, last);
    }
  }

  lemma {:induction false} OneIdentityHeader(k: Keying, h: Header)
    ensures IdentityHeaders(k, [h]) == if IsIdentityHeader(k, Lower(h.0)) then [(Lower(h.0), h.1)] else []
  {
    assert [h][1..] == [];
    hide IsIdentityHeader, Lower;
  }

  /** The same identity: every identity header, a name and a value, stands in both lists equally often. */
  ghost predicate SameIdentityHeaders(k: Keying, headers: seq<Header>, headers': seq<Header>) {
    forall name, value :: NamesIdentity(k, name) ==> Carried(headers, name, value) == Carried(headers', name, value)
  }

  lemma {:induction false} IdentityHeadersExactly(k: Keying, headers: seq<Header>, headers': seq<Header>)
    ensures multiset(IdentityHeaders(k, headers)) == multiset(IdentityHeaders(k, headers'))
      <==> SameIdentityHeaders(k, headers, headers')
  {
    hide IdentityHeaders, NamesIdentity, Carried;
    var a, b := multiset(IdentityHeaders(k, headers)), multiset(IdentityHeaders(k, headers'));
    forall h: Header ensures a[h] == b[h] <==> NamesIdentity(k, h.0) ==> Carried(headers, h.0, h.1) == Carried(headers', h.0, h.1) {
      IdentityHeadersCount(k, headers, h);
      IdentityHeadersCount(k, headers', h);
    }
    if a == b {
      forall name, value | NamesIdentity(k, name) ensures Carried(headers, name, value) == Carried(headers', name, value) {
        assert a[(name, value)] == b[(name, value)];
      }
    }
  }

  /** Two requests share a pool key exactly when they have the same URL and carry, for every identity
      name (the key header, a configured one, or one with `auth` or `token` in it) and every value,
      the same number of headers with that name, in any case, and that value. */
  lemma {:induction false} KeyIsCanonical(k: Keying, url: string, headers: seq<Header>, url': string, headers': seq<Header>)
    requires CollisionFree(k.digest)
    ensures KeyOf(k, url, headers) == KeyOf(k, url', headers') <==>
      url == url' && forall name, value ::
        (|| name == Lower(k.apiKeyHeader) || (exists i :: 0 <= i < |k.keyHeaders| && name == Lower(k.keyHeaders[i]))
         || (exists before, after :: name == before + "auth" + after)
         || (exists before, after :: name == before + "token" + after)) ==>
        Carried(headers, name, value) == Carried(headers', name, value)
  {
    KeyIsCanonicalList(k, url, headers, url', headers');
    IdentityHeadersExactly(k, headers, headers');
    hide KeyOf, IdentityHeaders, Carried, Lower;
  }

  lemma {:induction false} KeyIsCanonicalList(k: Keying, url: string, headers: seq<Header>, url': string, headers': seq<Header>)
    requires CollisionFree(k.digest)
    ensures KeyOf(k, url, headers) == KeyOf(k, url', headers')
      <==> url == url' && multiset(IdentityHeaders(k, headers)) == multiset(IdentityHeaders(k, headers'))
  {
    var a, b := IdentityHeaders(k, headers), IdentityHeaders(k, headers');
    SortSorts(a);
    SortSorts(b);
    if multiset(a) == multiset(b) {
      SortOfPermutation(a, b);
    }
  }

  lemma {:induction false} IdentityHeadersAppend(k: Keying, a: seq<Header>, b: seq<Header>)
    ensures IdentityHeaders(k, a + b) == IdentityHeaders(k, a) + IdentityHeaders(k, b)
  {
    if a == [] {
      assert a + b == b;
    } else {
      IdentityHeadersAppend(k, a[1..], b);
      assert (a + b)[1..] == a[1..] + b && (a + b)[0] == a[0];
    }
  }

  /** The key ignores header order, whatever the digest does. */
  lemma {:induction false} KeyIgnoresOrder(k: Keying, url: string, a: seq<Header>, b: seq<Header>, c: seq<Header>)
    ensures KeyOf(k, url, a + b + c) == KeyOf(k, url, a + c + b)
  {
    IdentityHeadersAppend(k, a + b, c);
    IdentityHeadersAppend(k, a, b);
    IdentityHeadersAppend(k, a + c, b);
    IdentityHeadersAppend(k, a, c);
    SortOfPermutation(IdentityHeaders(k, a + b + c), IdentityHeaders(k, a + c + b));
  }

  lemma {:induction false} SortOfPermutation(a: seq<Header>, b: seq<Header>)
    requires multiset(a) == multiset(b)
    ensures Sort(a) == Sort(b)
  {
    SortSorts(a);
    SortSorts(b);
    SortedUnique(Sort(a), Sort(b));
  }

  /** Request and session headers do not split the pool, wherever they stand. */
  lemma {:induction false} KeyIgnoresOtherHeaders(k: Keying, url: string, a: seq<Header>, h: Header, b: seq<Header>)
    requires !NamesIdentity(k, Lower(h.0))
    ensures KeyOf(k, url, a + [h] + b) == KeyOf(k, url, a + b)
  {
    IdentityNamesExactly(k, Lower(h.0));
    hide NamesIdentity, IsIdentityHeader, Lower;
    IdentityHeadersAppend(k, a + [h], b);
    IdentityHeadersAppend(k, a, [h]);
    IdentityHeadersAppend(k, a, b);
    OneIdentityHeader(k, h);
    assert IdentityHeaders(k, a) + [] == IdentityHeaders(k, a);
    assert IdentityHeaders(k, a + [h] + b) == IdentityHeaders(k, a + b);
  }
}
