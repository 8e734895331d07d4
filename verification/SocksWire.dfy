/** The two handshakes byte by byte: which bytes of the peer make them succeed, what they send, and
    what they leave unread. */
module SocksWire {
  import opened Basics
  import opened PyInt
  import opened Socks

  // ---- Addresses ----

  /** A bound address of type 1 has four bytes, one of type 4 sixteen, one of type 3 as many as its
      first byte says. */
  predicate BoundAddressBytes(atyp: Byte, address: Bytes) {
    || (atyp == 1 && |address| == 4)
    || (atyp == 4 && |address| == 16)
    || (atyp == 3 && |address| > 0 && address[0] as int == |address| - 1)
  }

  // ---- The client ----

  /** Name and password fit the one byte that holds their length. */
  predicate CanAuthenticate(c: Client) {
    |c.username| <= 255 && |c.password| <= 255
  }

  /** The request can be built. */
  predicate CanAsk(c: Client) {
    var host := c.encode(c.target.host);
    host.Some? && |host.value| <= 255 && 0 <= c.target.port < 65536
  }

  /** The peer agrees on a method: none needed, or name and password, which it accepts. */
  ghost predicate Agreed(c: Client, choice: Bytes) {
    choice == [5, 0] || (choice == [5, 2, 1, 0] && CanAuthenticate(c))
  }

  /** A reply of success, with a bound address and a port. */
  ghost predicate SuccessReply(reply: Bytes) {
    exists reserved: Byte, atyp: Byte, address: Bytes, port: Bytes :: ReplyParts(reply, reserved, atyp, address, port)
  }

  ghost predicate ReplyParts(reply: Bytes, reserved: Byte, atyp: Byte, address: Bytes, port: Bytes) {
    reply == [5, 0, reserved, atyp] + address + port && BoundAddressBytes(atyp, address) && |port| == 2
  }

  /** The bytes of the peer on which the client is connected, and what it leaves unread. */
  ghost predicate ConnectsOn(c: Client, input: Bytes, rest: Bytes) {
    && CanAsk(c)
    && exists choice :: Agreed(c, choice) && RepliesBehind(choice, input, rest)
  }

  ghost predicate RepliesBehind(choice: Bytes, input: Bytes, rest: Bytes) {
    exists reply :: SuccessReply(reply) && input == choice + (reply + rest)
  }

  /** Name and password, each behind its length: section 2 of RFC 1929. */
  ghost function CredentialBytes(c: Client): Bytes
    requires CanAuthenticate(c)
  {
    [1, |c.username|] + c.username + [|c.password|] + c.password
  }

  /** The request to connect to a named host: section 4 of RFC 1928. */
  ghost function RequestBytes(c: Client): Bytes
    requires CanAsk(c)
  {
    var host := c.encode(c.target.host).value;
    [5, 1, 0, 3, |host|] + host + [c.target.port / 256, c.target.port % 256]
  }

  /** What the client sends after its greeting. */
  ghost function SentOn(c: Client, input: Bytes): Bytes {
    (if [5, 2] <= input && CanAuthenticate(c) then CredentialBytes(c) else [])
    + (if CanAsk(c) && ([5, 0] <= input || ([5, 2, 1, 0] <= input && CanAuthenticate(c))) then RequestBytes(c) else [])
  }

  lemma {:induction false} GreetingExactly(c: Client)
    ensures GreetingOf(c) == if c.username == [] && c.password == [] then [5, 1, 0] else [5, 2, 0, 2]
  {
  }

  /** The length of the success reply at the front of the input, if there is one. */
  function ReplyLength(input: Bytes): Option<nat> {
    if |input| < 4 || input[0] != 5 || input[1] != 0 then None
    else
      var n := if input[3] == 1 then 10 else if input[3] == 4 then 22
        else if input[3] == 3 && |input| > 4 then 7 + input[4] as int else |input| + 1;
      if n <= |input| then Some(n) else None
  }

  lemma {:induction false} ReplyLengthOf(input: Bytes, reserved: Byte, atyp: Byte, address: Bytes, port: Bytes, n: nat)
    requires n <= |input| && ReplyParts(input[..n], reserved, atyp, address, port)
    ensures ReplyLength(input) == Some(n)
  {
    var reply := [5, 0, reserved, atyp] + address + port;
    assert n == |reply| == 6 + |address|;
    assert reply[0] == 5 && reply[1] == 0 && reply[3] == atyp && (|address| > 0 ==> reply[4] == address[0]);
    assert forall i :: 0 <= i < n ==> input[i] == reply[i];
  }

  lemma {:induction false} ReplyOfLength(input: Bytes, n: nat)
    requires ReplyLength(input) == Some(n)
    ensures n <= |input| && SuccessReply(input[..n])
  {
    var address, port := input[4..n - 2], input[n - 2..n];
    assert input[..n] == [5, 0, input[2], input[3]] + address + port;
    assert BoundAddressBytes(input[3], address);
    assert ReplyParts(input[..n], input[2], input[3], address, port);
  }

  lemma {:induction false} ReplyLengthExactly(input: Bytes, n: nat)
    ensures ReplyLength(input) == Some(n) <==> n <= |input| && SuccessReply(input[..n])
  {
    hide ReplyLength, ReplyParts;
    if ReplyLength(input) == Some(n) {
      ReplyOfLength(input, n);
    }
    if n <= |input| && SuccessReply(input[..n]) {
      var reserved: Byte, atyp: Byte, address: Bytes, port: Bytes :| ReplyParts(input[..n], reserved, atyp, address, port);
      ReplyLengthOf(input, reserved, atyp, address, port, n);
    }
  }

  lemma {:induction false} AfterPort(c: Client, input: Bytes)
    ensures DriveClient(c, BoundPort, input) ==
      if |input| < 2 then Driven([], ClientFailed, []) else Driven([], Connected, input[2..])
  {
    AddNothing<Byte>([]);
  }

  lemma {:induction false} AfterBound(c: Client, n: nat, input: Bytes)
    ensures DriveClient(c, BoundAddress(n), input) ==
      if |input| < n + 2 then Driven([], ClientFailed, []) else Driven([], Connected, input[n + 2..])
  {
    AddNothing<Byte>([]);
    if |input| >= n {
      AfterPort(c, input[n..]);
    }
  }

  lemma {:induction false} AfterLength(c: Client, input: Bytes)
    ensures var d := DriveClient(c, BoundLength, input);
      && d.sent == []
      && if |input| >= 1 && |input| >= 3 + input[0] as int then d.end == Connected && d.rest == input[3 + input[0] as int..]
         else d.end == ClientFailed
  {
    AddNothing<Byte>([]);
    if |input| >= 1 {
      AfterBound(c, input[0], input[1..]);
    }
  }

  lemma {:induction false} ReplyStep(c: Client, input: Bytes)
    requires |input| >= 4
    ensures var d := DriveClient(c, Confirming, input);
      if input[0] != 5 || input[1] != 0 then d.sent == [] && d.end == ClientFailed
      else if input[3] == 1 then d == DriveClient(c, BoundAddress(4), input[4..])
      else if input[3] == 3 then d == DriveClient(c, BoundLength, input[4..])
      else if input[3] == 4 then d == DriveClient(c, BoundAddress(16), input[4..])
      else d.sent == [] && d.end == ClientFailed
  {
    hide DriveClient;
    ClientStep(c, Confirming, input);
    var header := input[..4];
    assert header[0] == input[0] && header[1] == input[1] && header[3] == input[3];
    var next := ClientReacts(c, Confirming, header).next;
    NothingFirst(DriveClient(c, next, input[4..]));
    ClientStops(c, input[4..]);
  }

  lemma {:induction false} ClientStep(c: Client, phase: ClientPhase, input: Bytes)
    requires ClientRank(phase) > 0 && |input| >= ClientNeeds(phase)
    ensures var r := ClientReacts(c, phase, input[..ClientNeeds(phase)]);
      var d := DriveClient(c, r.next, input[ClientNeeds(phase)..]);
      DriveClient(c, phase, input) == d.(sent := r.sends + d.sent)
  {
    hide ClientReacts;
  }

  lemma {:induction false} ClientIsShort(c: Client, phase: ClientPhase, input: Bytes)
    requires ClientRank(phase) > 0 && |input| < ClientNeeds(phase)
    ensures DriveClient(c, phase, input) == Driven([], ClientFailed, [])
  {
    hide ClientReacts;
  }

  lemma {:induction false} ClientStops(c: Client, input: Bytes)
    ensures DriveClient(c, ClientFailed, input) == Driven([], ClientFailed, input)
  {
  }

  lemma {:induction false} NothingFirst<P>(d: Driven<P>)
    ensures d.(sent := [] + d.sent) == d
  {
    AddNothing(d.sent);
  }

  lemma {:induction false} AfterRequest(c: Client, input: Bytes)
    ensures var d, n := DriveClient(c, Confirming, input), ReplyLength(input);
      && d.sent == []
      && if n.Some? then d.end == Connected && d.rest == input[n.value..] else d.end == ClientFailed
  {
    if |input| < 4 {
      ClientIsShort(c, Confirming, input);
    } else {
      ReplyStep(c, input);
      ReplyLengthIs(input);
      hide DriveClient, ReplyLength;
      var tail := input[4..];
      if input[3] == 1 {
        AfterBound(c, 4, tail);
      } else if input[3] == 4 {
        AfterBound(c, 16, tail);
      } else if input[3] == 3 {
        AfterLength(c, tail);
        assert |input| > 4 ==> tail[0] == input[4];
      }
    }
  }

  lemma {:induction false} ReplyLengthIs(input: Bytes)
    requires |input| >= 4
    ensures ReplyLength(input) ==
      if input[0] != 5 || input[1] != 0 then None
      else if input[3] == 1 then if |input| >= 10 then Some(10) else None
      else if input[3] == 4 then if |input| >= 22 then Some(22) else None
      else if input[3] == 3 && |input| > 4 && |input| >= 7 + input[4] as int then Some(7 + input[4] as int)
      else None
  {
  }

  /** The client, once a method is agreed on. */
  lemma {:induction false} AfterAgreement(c: Client, input: Bytes)
    ensures var r := ClientRequests(c);
      var d, n := DriveClient(c, r.next, input), ReplyLength(input);
      && r.sends + d.sent == (if CanAsk(c) then RequestBytes(c) else [])
      && if CanAsk(c) && n.Some? then d.end == Connected && d.rest == input[n.value..] else d.end == ClientFailed
  {
    if CanAsk(c) {
      AfterRequest(c, input);
      AddNothing(RequestOf(c));
    } else {
      AddNothing<Byte>([]);
    }
  }

  lemma {:induction false} OneChoice(input: Bytes)
    ensures !([5, 0] <= input && [5, 2] <= input)
    ensures [5, 2, 1, 0] <= input ==> [5, 2] <= input
  {
    assert [5, 0] <= input ==> input[1] == 0;
    assert [5, 2] <= input ==> input[1] == 2;
  }

  lemma {:induction false} AfterChoice(c: Client, input: Bytes)
    ensures var d := DriveClient(c, Selecting, input);
      && d.sent == SentOn(c, input)
      && if CanAsk(c) && [5, 0] <= input && ReplyLength(input[2..]).Some?
         then d.end == Connected && d.rest == input[2..][ReplyLength(input[2..]).value..]
         else if CanAsk(c) && CanAuthenticate(c) && [5, 2, 1, 0] <= input && ReplyLength(input[4..]).Some?
         then d.end == Connected && d.rest == input[4..][ReplyLength(input[4..]).value..]
         else d.end == ClientFailed
  {
    hide ReplyLength, ClientRequests, DriveClient, RequestBytes, CredentialBytes, CanAsk, CanAuthenticate;
    AddNothing(if CanAsk(c) then RequestBytes(c) else []);
    OneChoice(input);
    if |input| < 2 {
      ClientIsShort(c, Selecting, input);
    } else {
      FirstStep(c, input);
      if [5, 0] <= input {
        AfterAgreement(c, input[2..]);
      } else if [5, 2] <= input && CanAuthenticate(c) {
        AfterCredentials(c, input[2..]);
        Behind(input);
        AddNothing(CredentialBytes(c));
      }
    }
  }

  lemma {:induction false} Behind(input: Bytes)
    requires [5, 2] <= input
    ensures [5, 2, 1, 0] <= input <==> [1, 0] <= input[2..]
    ensures |input| >= 4 ==> input[2..][2..] == input[4..]
  {
  }

  lemma {:induction false} FirstStep(c: Client, input: Bytes)
    requires |input| >= 2
    ensures DriveClient(c, Selecting, input) ==
      if [5, 0] <= input then
        var d := DriveClient(c, ClientRequests(c).next, input[2..]); d.(sent := ClientRequests(c).sends + d.sent)
      else if [5, 2] <= input && CanAuthenticate(c) then
        var d := DriveClient(c, Authenticating, input[2..]); d.(sent := CredentialBytes(c) + d.sent)
      else Driven([], ClientFailed, input[2..])
  {
    hide DriveClient, ClientRequests;
    ClientStep(c, Selecting, input);
    ClientStops(c, input[2..]);
    NothingFirst<ClientPhase>(Driven([], ClientFailed, input[2..]));
    var got := input[..2];
    assert got[0] == input[0] && got[1] == input[1];
    assert [5, 0] <= input <==> input[0] == 5 && input[1] == 0;
    assert [5, 2] <= input <==> input[0] == 5 && input[1] == 2;
  }

  lemma {:induction false} AfterCredentials(c: Client, input: Bytes)
    ensures var d := DriveClient(c, Authenticating, input);
      if [1, 0] <= input then
        && d.sent == (if CanAsk(c) then RequestBytes(c) else [])
        && if CanAsk(c) && ReplyLength(input[2..]).Some?
           then d.end == Connected && d.rest == input[2..][ReplyLength(input[2..]).value..] else d.end == ClientFailed
      else d.sent == [] && d.end == ClientFailed
  {
    hide DriveClient, ClientRequests, ReplyLength, RequestBytes, CanAsk;
    if |input| < 2 {
      ClientIsShort(c, Authenticating, input);
    } else {
      ClientStep(c, Authenticating, input);
      AfterAgreement(c, input[2..]);
      assert [1, 0] <= input <==> input[..2] == [1, 0];
      ClientStops(c, input[2..]);
      NothingFirst<ClientPhase>(Driven([], ClientFailed, input[2..]));
    }
  }

  /** Where a success reply behind the choice ends. */
  ghost predicate EndsBehind(choice: Bytes, input: Bytes, rest: Bytes) {
    && choice <= input && ReplyLength(input[|choice|..]).Some?
    && rest == input[|choice|..][ReplyLength(input[|choice|..]).value..]
  }

  lemma {:induction false} RepliesBehindExactly(choice: Bytes, input: Bytes, rest: Bytes)
    ensures RepliesBehind(choice, input, rest) <==> EndsBehind(choice, input, rest)
  {
    hide ReplyLength, SuccessReply;
    if EndsBehind(choice, input, rest) {
      var tail := input[|choice|..];
      var n := ReplyLength(tail).value;
      ReplyLengthExactly(tail, n);
      assert input == choice + tail && tail == tail[..n] + rest;
    }
    if RepliesBehind(choice, input, rest) {
      var reply :| SuccessReply(reply) && input == choice + (reply + rest);
      var tail := input[|choice|..];
      assert tail == reply + rest && tail[..|reply|] == reply && tail[|reply|..] == rest;
      ReplyLengthExactly(tail, |reply|);
    }
  }

  lemma {:induction false} ConnectsOnExactly(c: Client, input: Bytes, rest: Bytes)
    ensures ConnectsOn(c, input, rest)
      <==> (CanAsk(c) && (EndsBehind([5, 0], input, rest) || (CanAuthenticate(c) && EndsBehind([5, 2, 1, 0], input, rest))))
  {
    hide EndsBehind, RepliesBehind, CanAsk, CanAuthenticate;
    RepliesBehindExactly([5, 0], input, rest);
    RepliesBehindExactly([5, 2, 1, 0], input, rest);
    if ConnectsOn(c, input, rest) {
      var choice :| Agreed(c, choice) && RepliesBehind(choice, input, rest);
    }
    assert Agreed(c, [5, 0]) && (CanAuthenticate(c) ==> Agreed(c, [5, 2, 1, 0]));
  }

  /** Over arbitrary bytes of the peer the client is connected if and only if they are an agreement on a
      method that it can meet and a reply of success, and the host can be asked for; what follows stays
      unread. Whatever happens, what it sends is determined by what the peer has agreed to. */
  lemma {:induction false} ClientConnectsExactly(c: Client, input: Bytes)
    ensures var d := DriveClient(c, Selecting, input);
      && (d.end == Connected <==> exists rest :: ConnectsOn(c, input, rest))
      && (forall rest :: ConnectsOn(c, input, rest) ==> d.rest == rest)
      && d.sent == SentOn(c, input)
  {
    AfterChoice(c, input);
    OneChoice(input);
    var d := DriveClient(c, Selecting, input);
    hide DriveClient, ReplyLength, ConnectsOn, CanAsk, CanAuthenticate, SentOn;
    forall rest ensures ConnectsOn(c, input, rest) ==> d.end == Connected && d.rest == rest {
      ConnectsOnExactly(c, input, rest);
    }
    ConnectsOnExactly(c, input, d.rest);
  }

  /** So any other version or method, and any other version or reply code, is a failure. */
  lemma {:induction false} RefusalsAreSeen(c: Client, input: Bytes, choice: Bytes)
    ensures !([5, 0] <= input) && !([5, 2] <= input) ==> DriveClient(c, Selecting, input).end != Connected
    ensures choice in {[5, 0], [5, 2, 1, 0]} && choice <= input && !([5, 0] <= input[|choice|..]) ==>
      DriveClient(c, Selecting, input).end != Connected
  {
    ClientConnectsExactly(c, input);
    OneChoice(input);
    hide DriveClient, SentOn, ConnectsOn, CanAsk, CanAuthenticate;
    forall rest | ConnectsOn(c, input, rest)
      ensures [5, 0] <= input || [5, 2, 1, 0] <= input
      ensures choice in {[5, 0], [5, 2, 1, 0]} && choice <= input ==> [5, 0] <= input[|choice|..]
    {
      ConnectsOnExactly(c, input, rest);
    }
  }

  // ---- The server ----

  ghost predicate SameCharacters(s: string, b: Bytes) {
    |s| == |b| && forall i :: 0 <= i < |s| ==> s[i] as int == b[i]
  }

  /** Four decimal numbers with dots between them. */
  ghost predicate IsDotted(host: string, address: Bytes)
    requires |address| == 4
  {
    exists a, b, c, d ::
      && SpellsPlainly(a, 10, address[0]) && SpellsPlainly(b, 10, address[1])
      && SpellsPlainly(c, 10, address[2]) && SpellsPlainly(d, 10, address[3])
      && SameCharacters(host, a + [46] + (b + [46] + (c + [46] + d)))
  }

  /** Four hexadecimal digits for two bytes. */
  ghost predicate IsGroup(s: string, high: Byte, low: Byte) {
    && |s| == 4
    && exists digits ::
      && SameCharacters(s, digits) && Spells(digits, 16, high as nat * 256 + low as nat)
      && forall i :: 0 <= i < 4 ==> !(65 <= digits[i] <= 70)
  }

  /** Eight groups with colons between them. */
  ghost predicate IsGroups(host: string, address: Bytes)
    requires |address| == 16
  {
    && |host| == 39
    && (forall g :: 0 <= g < 8 ==> IsGroup(host[5 * g..5 * g + 4], address[2 * g], address[2 * g + 1]))
    && forall g :: 0 <= g < 7 ==> host[5 * g + 4] == ':'
  }

  /** The bytes of an address and the host that they mean: four bytes of type 1, sixteen of type 4, or a
      name behind its length, of type 3, that can be decoded. */
  ghost predicate AddressSays(decode: Bytes -> Option<string>, atyp: Byte, address: Bytes, host: string) {
    || (atyp == 1 && |address| == 4 && IsDotted(host, address))
    || (atyp == 4 && |address| == 16 && IsGroups(host, address))
    || (atyp == 3 && |address| > 0 && address[0] as int == |address| - 1 && decode(address[1..]) == Some(host))
  }

  /** Version 5 and a list of methods, with "no authentication" among them. */
  ghost predicate OffersNoAuth(greeting: Bytes) {
    |greeting| >= 2 && greeting[0] == 5 && |greeting| == 2 + greeting[1] as int && 0 in greeting[2..]
  }

  ghost predicate RequestSays(decode: Bytes -> Option<string>, request: Bytes, target: Target) {
    && 0 <= target.port < 65536
    && exists reserved: Byte, atyp: Byte, address: Bytes ::
      && AddressSays(decode, atyp, address, target.host)
      && request == [5, 1, reserved, atyp] + address + [target.port / 256, target.port % 256]
  }

  /** The bytes on which the server accepts a target, and what it leaves unread. */
  ghost predicate AcceptsOn(decode: Bytes -> Option<string>, input: Bytes, target: Target, rest: Bytes) {
    exists greeting, request :: OffersNoAuth(greeting) && RequestSays(decode, request, target) && input == greeting + (request + rest)
  }

  lemma {:induction false} SameText(b: Bytes)
    ensures SameCharacters(Socks.Text(b), b)
  {
  }

  lemma {:induction false} SameJoined(s: string, t: string, a: Bytes, b: Bytes)
    requires SameCharacters(s, a) && SameCharacters(t, b)
    ensures SameCharacters(s + "." + t, a + [46] + b)
  {
  }

  lemma {:induction false} DottedExactly(address: Bytes)
    requires |address| == 4
    ensures IsDotted(Dotted(address), address)
  {
    var a, b, c, d := Print(address[0], 10), Print(address[1], 10), Print(address[2], 10), Print(address[3], 10);
    hide Print, SpellsPlainly, SameCharacters, Socks.Text, Dotted;
    PrintSpells(address[0], 10);
    PrintSpells(address[1], 10);
    PrintSpells(address[2], 10);
    PrintSpells(address[3], 10);
    DottedParts(address);
    SameText(a);
    SameText(b);
    SameText(c);
    SameText(d);
    SameJoined(Socks.Text(c), Socks.Text(d), c, d);
    SameJoined(Socks.Text(b), Socks.Text(c) + "." + Socks.Text(d), b, c + [46] + d);
    SameJoined(Socks.Text(a), Socks.Text(b) + "." + (Socks.Text(c) + "." + Socks.Text(d)), a, b + [46] + (c + [46] + d));
  }

  lemma {:induction false} DottedParts(address: Bytes)
    requires |address| == 4
    ensures Dotted(address) ==
      Socks.Text(Print(address[0], 10)) + "." + (Socks.Text(Print(address[1], 10)) + "."
        + (Socks.Text(Print(address[2], 10)) + "." + Socks.Text(Print(address[3], 10))))
  {
    hide Print, Socks.Text, Dotted;
    DottedUnfolds(address);
    DottedUnfolds(address[1..]);
    DottedUnfolds(address[2..]);
    DottedUnfolds(address[3..]);
    assert address[1..][1..] == address[2..] && address[2..][1..] == address[3..];
    Associates(Socks.Text(Print(address[2], 10)), ".", Socks.Text(Print(address[3], 10)));
    AddNothing(Socks.Text(Print(address[3], 10)));
    Associates(Socks.Text(Print(address[1], 10)), ".", Dotted(address[2..]));
    Associates(Socks.Text(Print(address[0], 10)), ".", Dotted(address[1..]));
  }

  lemma {:induction false} DottedUnfolds(address: Bytes)
    requires address != []
    ensures Dotted(address) == Socks.Text(Print(address[0], 10)) + if |address| > 1 then "." + Dotted(address[1..]) else ""
  {
  }

  lemma {:induction false} PairExactly(b: Byte)
    ensures var pair := HexPair(b);
      && |pair| == 2 && IsDigit(pair[0], b / 16) && IsDigit(pair[1], b % 16)
      && !(65 <= pair[0] <= 70) && !(65 <= pair[1] <= 70)
    ensures b as nat == b / 16 * 16 + b % 16
  {
    DigitsExactly(b / 16);
    DigitsExactly(b % 16);
    hide IsDigit;
  }

  lemma {:induction false} GroupExactly(high: Byte, low: Byte)
    ensures IsGroup(Socks.Text(HexPair(high) + HexPair(low)), high, low)
  {
    var digits := HexPair(high) + HexPair(low);
    PairExactly(high);
    PairExactly(low);
    SameText(digits);
    hide HexPair, IsDigit, Positional, Socks.Text;
    PairsSpell(digits, high / 16, high % 16, low / 16, low % 16);
    FourIsTwo(high / 16, high % 16, low / 16, low % 16);
    hide Spells;
  }

  lemma {:induction false} FourIsTwo(a: nat, b: nat, c: nat, d: nat)
    ensures ((a * 16 + b) * 16 + c) * 16 + d == (a * 16 + b) * 256 + (c * 16 + d)
  {
  }

  lemma {:induction false} PairsSpell(digits: Bytes, a: nat, b: nat, c: nat, d: nat)
    requires |digits| == 4 && IsDigit(digits[0], a) && IsDigit(digits[1], b) && IsDigit(digits[2], c) && IsDigit(digits[3], d)
    ensures Spells(digits, 16, ((a * 16 + b) * 16 + c) * 16 + d)
  {
    var values: seq<nat> := [a, b, c, d];
    FourDigits(values);
    DigitIsSmall(digits[0], a);
    DigitIsSmall(digits[1], b);
    DigitIsSmall(digits[2], c);
    DigitIsSmall(digits[3], d);
    hide IsDigit, Positional;
    assert SpellsAs(digits, values, 16, ((a * 16 + b) * 16 + c) * 16 + d);
  }

  lemma {:induction false} DigitIsSmall(b: Byte, d: nat)
    requires IsDigit(b, d)
    ensures d < 16
  {
  }

  lemma {:induction false} FourDigits(values: seq<nat>)
    requires |values| == 4
    ensures Positional(0, values, 16) == ((values[0] * 16 + values[1]) * 16 + values[2]) * 16 + values[3]
  {
    var a := values[0];
    var b := a * 16 + values[1];
    var c := b * 16 + values[2];
    assert values[1..][1..] == values[2..] && values[2..][1..] == values[3..] && values[3..][1..] == [];
    assert Positional(0, values, 16) == Positional(a, values[1..], 16);
    assert Positional(a, values[1..], 16) == Positional(b, values[2..], 16);
    assert Positional(b, values[2..], 16) == Positional(c, values[3..], 16);
    assert Positional(c, values[3..], 16) == Positional(c * 16 + values[3], [], 16);
  }

  /** A group for every two bytes, with colons between the groups. */
  ghost predicate GroupsIn(host: string, bytes: Bytes) {
    && |bytes| >= 2 && |bytes| % 2 == 0
    && 2 * |host| == 5 * |bytes| - 2
    && (forall g :: 0 <= 2 * g < |bytes| ==> IsGroup(host[5 * g..5 * g + 4], bytes[2 * g], bytes[2 * g + 1]))
    && forall g :: 0 <= 2 * g < |bytes| - 2 ==> host[5 * g + 4] == ':'
  }

  lemma {:induction false} GroupMoves(first: string, rest: string, g: nat)
    requires |first| == 4 && 5 * g + 4 <= |rest|
    ensures var host := first + ":" + rest;
      && |host| == |rest| + 5
      && host[5 * (g + 1)..5 * (g + 1) + 4] == rest[5 * g..5 * g + 4]
      && (5 * g + 4 < |rest| ==> host[5 * (g + 1) + 4] == rest[5 * g + 4])
  {
  }

  lemma {:induction false} FirstGroup(first: string, rest: string)
    requires |first| == 4
    ensures var host := first + ":" + rest; host[0..4] == first && host[4] == ':'
  {
  }

  lemma {:induction false} GroupsBehind(first: string, rest: string, high: Byte, low: Byte, bytes: Bytes)
    requires IsGroup(first, high, low) && |first| == 4 && GroupsIn(rest, bytes)
    ensures GroupsIn(first + ":" + rest, [high, low] + bytes)
  {
    hide IsGroup;
    var host, all := first + ":" + rest, [high, low] + bytes;
    FirstGroup(first, rest);
    forall g | 0 <= 2 * g < |all| ensures IsGroup(host[5 * g..5 * g + 4], all[2 * g], all[2 * g + 1]) {
      if g > 0 {
        GroupMoves(first, rest, g - 1);
        assert all[2 * g] == bytes[2 * (g - 1)] && all[2 * g + 1] == bytes[2 * (g - 1) + 1];
      }
    }
    forall g | 0 <= 2 * g < |all| - 2 ensures host[5 * g + 4] == ':' {
      if g > 0 {
        GroupMoves(first, rest, g - 1);
      }
    }
  }

  lemma {:induction false} GroupsAt(bytes: Bytes)
    requires |bytes| >= 2 && |bytes| % 2 == 0
    ensures GroupsIn(HexGroups(bytes), bytes)
  {
    var first := Socks.Text(HexPair(bytes[0]) + HexPair(bytes[1]));
    GroupExactly(bytes[0], bytes[1]);
    if |bytes| == 2 {
      assert HexGroups(bytes) == first + "" == first && first[0..4] == first;
    } else {
      GroupsAt(bytes[2..]);
      GroupsBehind(first, HexGroups(bytes[2..]), bytes[0], bytes[1], bytes[2..]);
      assert [bytes[0], bytes[1]] + bytes[2..] == bytes;
      hide GroupsIn;
      Associates(first, ":", HexGroups(bytes[2..]));
    }
    hide IsGroup, HexPair;
  }

  lemma {:induction false} GroupsExactly(address: Bytes)
    requires |address| == 16
    ensures IsGroups(HexGroups(address), address)
  {
    GroupsAt(address);
    hide HexGroups, IsGroup;
  }

  /** The host at the front of the input and how many bytes mean it. */
  function HostAt(decode: Bytes -> Option<string>, atyp: Byte, input: Bytes): Option<(string, nat)> {
    if atyp == 1 then if |input| >= 4 then Some((Dotted(input[..4]), 4)) else None
    else if atyp == 4 then if |input| >= 16 then Some((HexGroups(input[..16]), 16)) else None
    else if atyp == 3 && |input| > 0 && |input| >= 1 + input[0] as int then
      var host := decode(input[1..1 + input[0] as int]);
      if host.Some? then Some((host.value, 1 + input[0] as int)) else None
    else None
  }

  /** The target that a request asks for and how long it is, if it is one. */
  function TargetAt(decode: Bytes -> Option<string>, input: Bytes): Option<(Target, nat)> {
    if |input| < 4 || input[0] != 5 || input[1] != 1 then None
    else
      var host := HostAt(decode, input[3], input[4..]);
      if host.None? || |input| < 4 + host.value.1 + 2 then None
      else
        var n := 4 + host.value.1;
        Some((Target(host.value.0, input[n] as int * 256 + input[n + 1] as int), n + 2))
  }

  /** What the server replies to a request: refusals have their own codes, and an address that it cannot
      read gets no reply. */
  function RepliesTo(decode: Bytes -> Option<string>, input: Bytes): Bytes {
    if |input| < 4 then []
    else if input[0] != 5 then [5, 1, 0, 1, 0, 0, 0, 0, 0, 0]
    else if input[1] != 1 then [5, 7, 0, 1, 0, 0, 0, 0, 0, 0]
    else if TargetAt(decode, input).Some? then [5, 0, 0, 1, 0, 0, 0, 0, 0, 0]
    else []
  }

  /** A whole greeting of version 5 that offers no authentication. */
  predicate Offered(input: Bytes) {
    |input| >= 2 && input[0] == 5 && |input| >= 2 + input[1] as int && 0 in input[2..2 + input[1] as int]
  }

  /** What the server sends, whatever it receives: nothing before a whole greeting, a refusal when no
      offered method will do, else its choice and what it replies to the request. */
  function RepliesOn(decode: Bytes -> Option<string>, input: Bytes): Bytes {
    if |input| < 2 || input[0] != 5 || |input| < 2 + input[1] as int then []
    else
      var n := 2 + input[1] as int;
      if 0 !in input[2..n] then [5, 255] else [5, 0] + RepliesTo(decode, input[n..])
  }

  lemma {:induction false} ServerStep(decode: Bytes -> Option<string>, phase: ServerPhase, input: Bytes)
    requires ServerRank(phase) > 0 && |input| >= ServerNeeds(phase)
    ensures var r := ServerReacts(decode, phase, input[..ServerNeeds(phase)]);
      var d := DriveServer(decode, r.next, input[ServerNeeds(phase)..]);
      DriveServer(decode, phase, input) == d.(sent := r.sends + d.sent)
  {
    hide ServerReacts;
  }

  lemma {:induction false} ServerIsShort(decode: Bytes -> Option<string>, phase: ServerPhase, input: Bytes)
    requires ServerRank(phase) > 0 && |input| < ServerNeeds(phase)
    ensures DriveServer(decode, phase, input) == Driven([], ServerFailed, [])
  {
    hide ServerReacts;
  }

  lemma {:induction false} ServerStops(decode: Bytes -> Option<string>, input: Bytes)
    ensures DriveServer(decode, ServerFailed, input) == Driven([], ServerFailed, input)
  {
  }

  lemma {:induction false} AfterHost(decode: Bytes -> Option<string>, host: string, input: Bytes)
    ensures DriveServer(decode, Port(host), input) ==
      if |input| < 2 then Driven([], ServerFailed, [])
      else Driven([5, 0, 0, 1, 0, 0, 0, 0, 0, 0], Accepted(Target(host, input[0] as int * 256 + input[1] as int)), input[2..])
  {
    AddNothing(Reply(SUCCEEDED));
  }

  lemma {:induction false} AfterName(decode: Bytes -> Option<string>, n: nat, input: Bytes)
    ensures var d, host := DriveServer(decode, Domain(n), input), if |input| >= n then decode(input[..n]) else None;
      if host.Some? then d == DriveServer(decode, Port(host.value), input[n..]) else d.sent == [] && d.end == ServerFailed
  {
    hide Dotted, HexGroups;
    AddNothing<Byte>([]);
    if |input| >= n && decode(input[..n]).Some? {
      AfterHost(decode, decode(input[..n]).value, input[n..]);
    }
  }

  lemma {:induction false} AfterNumbers(decode: Bytes -> Option<string>, phase: ServerPhase, atyp: Byte, input: Bytes)
    requires (atyp == 1 && phase == AddressV4) || (atyp == 4 && phase == AddressV6)
    ensures var d, host := DriveServer(decode, phase, input), HostAt(decode, atyp, input);
      if host.Some? then host.value.1 <= |input| && d == DriveServer(decode, Port(host.value.0), input[host.value.1..])
      else d.sent == [] && d.end == ServerFailed
  {
    hide Dotted, HexGroups;
    if HostAt(decode, atyp, input).Some? {
      var d := DriveServer(decode, Port(HostAt(decode, atyp, input).value.0), input[HostAt(decode, atyp, input).value.1..]);
      assert [] + d.sent == d.sent;
    }
  }

  lemma {:induction false} AfterLengthByte(decode: Bytes -> Option<string>, input: Bytes)
    ensures var d := DriveServer(decode, DomainLength, input);
      if |input| == 0 then d == Driven([], ServerFailed, []) else d == DriveServer(decode, Domain(input[0]), input[1..])
  {
    hide Dotted, HexGroups;
    if |input| > 0 {
      var d := DriveServer(decode, Domain(input[0]), input[1..]);
      assert [] + d.sent == d.sent;
    }
  }

  lemma {:induction false} AfterAddress(decode: Bytes -> Option<string>, phase: ServerPhase, atyp: Byte, input: Bytes)
    requires (atyp == 1 && phase == AddressV4) || (atyp == 4 && phase == AddressV6) || (atyp == 3 && phase == DomainLength)
    ensures var d, host := DriveServer(decode, phase, input), HostAt(decode, atyp, input);
      if host.Some? then host.value.1 <= |input| && d == DriveServer(decode, Port(host.value.0), input[host.value.1..])
      else d.sent == [] && d.end == ServerFailed
  {
    hide DriveServer, Dotted, HexGroups;
    if atyp == 3 {
      AfterLengthByte(decode, input);
      if |input| > 0 {
        var n: nat := input[0];
        AfterName(decode, n, input[1..]);
        assert |input| >= 1 + n ==> input[1..][..n] == input[1..1 + n] && input[1..][n..] == input[1 + n..];
      }
    } else {
      AfterNumbers(decode, phase, atyp, input);
    }
  }

  lemma {:induction false} AfterType(decode: Bytes -> Option<string>, input: Bytes)
    requires |input| >= 4 && input[0] == 5 && input[1] == 1
    ensures var d, host := DriveServer(decode, Header, input), HostAt(decode, input[3], input[4..]);
      if host.Some? then host.value.1 <= |input| - 4 && d == DriveServer(decode, Port(host.value.0), input[4 + host.value.1..])
      else d.sent == [] && d.end == ServerFailed
  {
    var tail := input[4..];
    HeaderStep(decode, input);
    hide DriveServer, HostAt;
    HostIsShort(decode, input[3], tail);
    NoHost(decode, input[3], tail);
    if input[3] == 1 {
      AfterAddress(decode, AddressV4, 1, tail);
    } else if input[3] == 4 {
      AfterAddress(decode, AddressV6, 4, tail);
    } else if input[3] == 3 {
      AfterAddress(decode, DomainLength, 3, tail);
    }
    var host := HostAt(decode, input[3], tail);
    if host.Some? {
      assert tail[host.value.1..] == input[4 + host.value.1..];
    }
  }

  lemma {:induction false} TargetIs(decode: Bytes -> Option<string>, input: Bytes)
    requires |input| >= 4 && input[0] == 5 && input[1] == 1
    ensures var host := HostAt(decode, input[3], input[4..]);
      TargetAt(decode, input) ==
        if host.None? || |input| < 4 + host.value.1 + 2 then None
        else Some((Target(host.value.0, input[4 + host.value.1] as int * 256 + input[5 + host.value.1] as int), 6 + host.value.1))
  {
    hide HostAt;
  }

  lemma {:induction false} AfterGreeting(decode: Bytes -> Option<string>, input: Bytes)
    ensures var d, target := DriveServer(decode, Header, input), TargetAt(decode, input);
      && d.sent == RepliesTo(decode, input)
      && if target.Some? then d.end == Accepted(target.value.0) && d.rest == input[target.value.1..] else d.end == ServerFailed
  {
    hide DriveServer, HostAt;
    if |input| < 4 {
      ServerIsShort(decode, Header, input);
    } else if input[0] != 5 || input[1] != 1 {
      HeaderStep(decode, input);
    } else {
      AfterType(decode, input);
      TargetIs(decode, input);
      hide TargetAt;
      var host := HostAt(decode, input[3], input[4..]);
      if host.Some? {
        var tail := input[4 + host.value.1..];
        AfterHost(decode, host.value.0, tail);
        assert |tail| >= 2 ==> tail[2..] == input[6 + host.value.1..];
      }
    }
  }

  lemma {:induction false} HostIsShort(decode: Bytes -> Option<string>, atyp: Byte, input: Bytes)
    ensures HostAt(decode, atyp, input).Some? ==> HostAt(decode, atyp, input).value.1 <= |input|
  {
  }

  lemma {:induction false} NoHost(decode: Bytes -> Option<string>, atyp: Byte, input: Bytes)
    ensures atyp !in {1, 3, 4} ==> HostAt(decode, atyp, input).None?
  {
  }

  lemma {:induction false} HeaderStep(decode: Bytes -> Option<string>, input: Bytes)
    requires |input| >= 4
    ensures var d := DriveServer(decode, Header, input);
      if input[0] != 5 then d.sent == [5, 1, 0, 1, 0, 0, 0, 0, 0, 0] && d.end == ServerFailed
      else if input[1] != 1 then d.sent == [5, 7, 0, 1, 0, 0, 0, 0, 0, 0] && d.end == ServerFailed
      else if input[3] == 1 then d == DriveServer(decode, AddressV4, input[4..])
      else if input[3] == 3 then d == DriveServer(decode, DomainLength, input[4..])
      else if input[3] == 4 then d == DriveServer(decode, AddressV6, input[4..])
      else d.sent == [] && d.end == ServerFailed
  {
    hide DriveServer, HexGroups, Dotted;
    ServerStep(decode, Header, input);
    ServerStops(decode, input[4..]);
    var header := input[..4];
    assert header[0] == input[0] && header[1] == input[1] && header[3] == input[3];
    AddNothing(Reply(GENERAL_FAILURE));
    AddNothing(Reply(COMMAND_NOT_SUPPORTED));
    NothingFirst(DriveServer(decode, ServerReacts(decode, Header, header).next, input[4..]));
  }

  lemma {:induction false} AfterConnecting(decode: Bytes -> Option<string>, input: Bytes)
    ensures var d := DriveServer(decode, Greeting, input);
      && d.sent == RepliesOn(decode, input)
      && if Offered(input) && TargetAt(decode, input[2 + input[1] as int..]).Some?
         then
           var target := TargetAt(decode, input[2 + input[1] as int..]).value;
           d.end == Accepted(target.0) && d.rest == input[2 + input[1] as int..][target.1..]
         else d.end == ServerFailed
  {
    hide DriveServer, TargetAt, RepliesTo;
    AddNothing<Byte>([]);
    GreetingStep(decode, input);
    if |input| >= 2 && input[0] == 5 && |input| >= 2 + input[1] as int {
      var n: nat := input[1];
      MethodsStep(decode, n, input[2..]);
      AfterGreeting(decode, input[2 + n..]);
      assert input[2..][..n] == input[2..2 + n] && input[2..][n..] == input[2 + n..];
    }
  }

  lemma {:induction false} GreetingStep(decode: Bytes -> Option<string>, input: Bytes)
    ensures var d := DriveServer(decode, Greeting, input);
      if |input| >= 2 && input[0] == 5 && |input| >= 2 + input[1] as int then d == DriveServer(decode, Methods(input[1]), input[2..])
      else d.sent == [] && d.end == ServerFailed
  {
    hide DriveServer, HexGroups, Dotted;
    if |input| < 2 {
      ServerIsShort(decode, Greeting, input);
    } else {
      ServerStep(decode, Greeting, input);
      var got := input[..2];
      assert got[0] == input[0] && got[1] == input[1];
      ServerStops(decode, input[2..]);
      NothingFirst(DriveServer(decode, ServerReacts(decode, Greeting, got).next, input[2..]));
      if input[0] == 5 && |input| < 2 + input[1] as int {
        ServerIsShort(decode, Methods(input[1]), input[2..]);
      }
    }
  }

  lemma {:induction false} MethodsStep(decode: Bytes -> Option<string>, n: nat, input: Bytes)
    requires |input| >= n
    ensures var d := DriveServer(decode, Methods(n), input);
      if 0 in input[..n] then d == DriveServer(decode, Header, input[n..]).(sent := [5, 0] + DriveServer(decode, Header, input[n..]).sent)
      else d.sent == [5, 255] && d.end == ServerFailed
  {
    hide DriveServer, HexGroups, Dotted;
    ServerStep(decode, Methods(n), input);
    ServerStops(decode, input[n..]);
    AddNothing<Byte>([5, 255]);
  }

  // ---- When the server accepts ----

  lemma {:induction false} HostAtSays(decode: Bytes -> Option<string>, atyp: Byte, input: Bytes)
    requires HostAt(decode, atyp, input).Some?
    ensures var (host, n) := HostAt(decode, atyp, input).value;
      n <= |input| && AddressSays(decode, atyp, input[..n], host)
  {
    if atyp == 1 {
      DottedExactly(input[..4]);
    } else if atyp == 4 {
      GroupsExactly(input[..16]);
    } else {
      var n := 1 + input[0] as int;
      assert input[..n][1..] == input[1..n];
    }
    hide Dotted, HexGroups, IsDotted, IsGroups;
  }

  lemma {:induction false} SaysHostAt(decode: Bytes -> Option<string>, atyp: Byte, address: Bytes, host: string, rest: Bytes)
    requires AddressSays(decode, atyp, address, host)
    ensures HostAt(decode, atyp, address + rest).Some? && HostAt(decode, atyp, address + rest).value.1 == |address|
  {
    var input := address + rest;
    hide Dotted, HexGroups, IsDotted, IsGroups;
    if atyp == 3 {
      assert input[0] == address[0];
      assert input[1..1 + input[0] as int] == address[1..];
    }
  }

  lemma {:induction false} TargetAtSays(decode: Bytes -> Option<string>, input: Bytes)
    requires TargetAt(decode, input).Some?
    ensures var (target, n) := TargetAt(decode, input).value;
      n <= |input| && RequestSays(decode, input[..n], target)
  {
    hide HostAt, AddressSays;
    var (target, n) := TargetAt(decode, input).value;
    HostAtSays(decode, input[3], input[4..]);
    var address := input[4..n - 2];
    assert address == input[4..][..n - 6];
    PortIs(input[n - 2], input[n - 1]);
    assert target.port / 256 == input[n - 2] && target.port % 256 == input[n - 1];
    CutInThree(input, n);
  }

  lemma {:induction false} PortIs(high: Byte, low: Byte)
    ensures var port := high as int * 256 + low as int; port / 256 == high as int && port % 256 == low as int
  {
  }

  lemma {:induction false} CutInThree(input: Bytes, n: nat)
    requires 6 <= n <= |input|
    ensures input[..n] == [input[0], input[1], input[2], input[3]] + input[4..n - 2] + [input[n - 2], input[n - 1]]
  {
  }

  lemma {:induction false} SaysTargetAt(decode: Bytes -> Option<string>, request: Bytes, target: Target, rest: Bytes)
    requires RequestSays(decode, request, target)
    ensures TargetAt(decode, request + rest).Some? && TargetAt(decode, request + rest).value.1 == |request|
  {
    hide AddressSays;
    var reserved: Byte, atyp: Byte, address: Bytes :| AddressSays(decode, atyp, address, target.host)
      && request == [5, 1, reserved, atyp] + address + [target.port / 256, target.port % 256];
    var input, port: Bytes := request + rest, [target.port / 256, target.port % 256];
    SaysHostAt(decode, atyp, address, target.host, port + rest);
    hide HostAt;
    assert input[4..] == address + (port + rest);
    assert input[0] == 5 && input[1] == 1 && input[3] == atyp;
  }

  lemma {:induction false} AcceptsWhatIsOffered(
    decode: Bytes -> Option<string>, input: Bytes, greeting: Bytes, request: Bytes, target: Target, rest: Bytes)
    requires OffersNoAuth(greeting) && RequestSays(decode, request, target) && input == greeting + (request + rest)
    ensures Offered(input) && TargetAt(decode, input[2 + input[1] as int..]).Some?
  {
    SaysTargetAt(decode, request, target, rest);
    hide TargetAt, RequestSays;
    assert input[0] == greeting[0] && input[1] == greeting[1];
    assert input[2..|greeting|] == greeting[2..] && input[|greeting|..] == request + rest;
  }

  lemma {:induction false} OfferedIsAccepted(decode: Bytes -> Option<string>, input: Bytes)
    requires Offered(input) && TargetAt(decode, input[2 + input[1] as int..]).Some?
    ensures var tail := input[2 + input[1] as int..];
      var target := TargetAt(decode, tail).value;
      target.1 <= |tail| && AcceptsOn(decode, input, target.0, tail[target.1..])
  {
    hide TargetAt, RequestSays, OffersNoAuth;
    var n := 2 + input[1] as int;
    var tail := input[n..];
    TargetAtSays(decode, tail);
    WholeGreeting(input, n);
    var greeting, request, rest := input[..n], tail[..TargetAt(decode, tail).value.1], tail[TargetAt(decode, tail).value.1..];
    assert tail == request + rest && input == greeting + (request + rest);
  }

  lemma {:induction false} WholeGreeting(input: Bytes, n: nat)
    requires Offered(input) && n == 2 + input[1] as int
    ensures OffersNoAuth(input[..n])
  {
    var greeting := input[..n];
    assert greeting[2..] == input[2..n] && greeting[0] == input[0] && greeting[1] == input[1];
  }

  /** Over arbitrary bytes of the peer the server accepts if and only if they are a greeting that offers
      no authentication and a request to connect, and then the target that they say; what follows stays
      unread. Whatever happens, what it sends is as `RepliesOn` says. */
  lemma {:induction false} ServerAcceptsExactly(decode: Bytes -> Option<string>, input: Bytes)
    ensures var d := DriveServer(decode, Greeting, input);
      && (d.end.Accepted? <==> exists target, rest :: AcceptsOn(decode, input, target, rest))
      && (d.end.Accepted? ==> AcceptsOn(decode, input, d.end.target, d.rest))
      && d.sent == RepliesOn(decode, input)
  {
    AfterConnecting(decode, input);
    var d := DriveServer(decode, Greeting, input);
    hide DriveServer, RequestSays, TargetAt, RepliesOn, OffersNoAuth, Offered;
    if d.end.Accepted? {
      OfferedIsAccepted(decode, input);
    }
    if exists target, rest :: AcceptsOn(decode, input, target, rest) {
      var target, rest :| AcceptsOn(decode, input, target, rest);
      var greeting, request :| OffersNoAuth(greeting) && RequestSays(decode, request, target) && input == greeting + (request + rest);
      AcceptsWhatIsOffered(decode, input, greeting, request, target, rest);
    }
  }
}
