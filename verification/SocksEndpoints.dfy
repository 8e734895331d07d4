/** The two handshakes as the code runs them, each against all that its peer will ever send. */
module SocksEndpoints {
  import opened Basics
  import opened Streams
  import opened Socks
  import opened SocksWire

  // ---- The client ----

  /** The run so far: `sent` went out, `phase` comes next, `rest` has not been received. */
  ghost predicate ClientAt(c: Client, input: Bytes, sent: Bytes, phase: ClientPhase, rest: Bytes) {
    var now := DriveClient(c, phase, rest);
    DriveClient(c, Selecting, input) == now.(sent := sent + now.sent)
  }

  lemma {:induction false} ClientStarts(c: Client, input: Bytes)
    ensures ClientAt(c, input, [], Selecting, input)
  {
    var now := DriveClient(c, Selecting, input);
    assert [] + now.sent == now.sent;
  }

  lemma {:induction false} ClientGoesOn(c: Client, input: Bytes, sent: Bytes, phase: ClientPhase, rest: Bytes)
    requires ClientAt(c, input, sent, phase, rest) && ClientRank(phase) > 0
    ensures |rest| < ClientNeeds(phase) ==> DriveClient(c, Selecting, input) == Driven(sent, ClientFailed, [])
    ensures |rest| >= ClientNeeds(phase) ==>
      var r, rest' := ClientReacts(c, phase, rest[..ClientNeeds(phase)]), rest[ClientNeeds(phase)..];
      && ClientAt(c, input, sent + r.sends, r.next, rest')
      && (ClientRank(r.next) == 0 ==> DriveClient(c, Selecting, input) == Driven(sent + r.sends, r.next, rest'))
  {
    AddNothing(sent);
    if |rest| >= ClientNeeds(phase) {
      var r := ClientReacts(c, phase, rest[..ClientNeeds(phase)]);
      var d := DriveClient(c, r.next, rest[ClientNeeds(phase)..]);
      hide ClientReacts;
      Associates(sent, r.sends, d.sent);
      AddNothing(sent + r.sends);
    }
  }

  /** The method is agreed: what is left is the request, if it can be built. */
  ghost predicate Negotiated(c: Client, input: Bytes, sent: Bytes, rest: Bytes) {
    var r := ClientRequests(c);
    && ClientAt(c, input, sent + r.sends, r.next, rest)
    && (r.next == ClientFailed ==> DriveClient(c, Selecting, input) == Driven(sent + r.sends, ClientFailed, rest))
  }

  /** `_socks5_username_password_auth`. */
  method Authenticate(socket: Socket, c: Client, ghost input: Bytes) returns (ok: bool)
    requires |socket.incoming| + 2 == |input| && socket.incoming == input[2..]
    requires input[0] == VERSION && input[1] == USERNAME_PASSWORD
    modifies socket
    ensures var d := DriveClient(c, Selecting, input);
      if ok then
        && |c.username| <= 255 && |c.password| <= 255
        && socket.sent == old(socket.sent) + CredentialsOf(c)
        && Negotiated(c, input, CredentialsOf(c), socket.incoming)
      else socket.sent == old(socket.sent) + d.sent && d.end == ClientFailed
  {
    hide DriveClient, ClientRequests, MethodsOf;
    AfterSelection(c, input);
    if |c.username| > 255 || |c.password| > 255 {
      return false;
    }
    ghost var before := socket.sent;
    socket.SendAll([1, |c.username|]);
    socket.SendAll(c.username);
    socket.SendAll([|c.password|]);
    socket.SendAll(c.password);
    FourSends(before, [1, |c.username|], c.username, [|c.password|], c.password);
    hide CredentialsOf;
    ClientGoesOn(c, input, CredentialsOf(c), Authenticating, socket.incoming);
    var response := socket.RecvExact(2);
    ok := response.Some? && response.value == [1, 0];
    assert CredentialsOf(c) + [] == CredentialsOf(c);
  }

  lemma {:induction false} FourSends(s: Bytes, a: Bytes, b: Bytes, c: Bytes, d: Bytes)
    ensures s + a + b + c + d == s + (a + b + c + d)
  {
  }

  lemma {:induction false} AfterSelection(c: Client, input: Bytes)
    requires |input| >= 2 && input[0] == VERSION && input[1] == USERNAME_PASSWORD
    ensures |c.username| > 255 || |c.password| > 255 ==> DriveClient(c, Selecting, input) == Driven([], ClientFailed, input[2..])
    ensures |c.username| <= 255 && |c.password| <= 255 ==> ClientAt(c, input, CredentialsOf(c), Authenticating, input[2..])
  {
    ClientStarts(c, input);
    ClientGoesOn(c, input, [], Selecting, input);
    if |c.username| <= 255 && |c.password| <= 255 {
      assert [] + CredentialsOf(c) == CredentialsOf(c);
    }
  }

  /** The end of the handshake: the reply and the bound address, which nobody uses. */
  method AwaitReply(socket: Socket, c: Client, ghost input: Bytes, ghost sent: Bytes) returns (ok: bool)
    requires ClientAt(c, input, sent, Confirming, socket.incoming)
    modifies socket`incoming
    ensures var d := DriveClient(c, Selecting, input);
      d.sent == sent && (ok <==> d.end == Connected) && (ok ==> socket.incoming == d.rest)
  {
    hide DriveClient;
    assert sent + [] == sent;
    ClientGoesOn(c, input, sent, Confirming, socket.incoming);
    var header := socket.RecvExact(4);
    if header.None? || header.value[0] != VERSION || header.value[1] != SUCCEEDED {
      return false;
    }
    var atyp := header.value[3];
    var size: nat;
    if atyp == IPV4 {
      size := 4;
    } else if atyp == DOMAIN {
      ClientGoesOn(c, input, sent, BoundLength, socket.incoming);
      var length := socket.RecvExact(1);
      if length.None? {
        return false;
      }
      size := length.value[0];
    } else if atyp == IPV6 {
      size := 16;
    } else {
      return false;
    }
    ClientGoesOn(c, input, sent, BoundAddress(size), socket.incoming);
    var address := socket.RecvExact(size);
    if address.None? {
      return false;
    }
    ClientGoesOn(c, input, sent, BoundPort, socket.incoming);
    var port := socket.RecvExact(2);
    ok := port.Some?;
  }

  method Negotiate(socket: Socket, c: Client) returns (ok: bool, ghost sent: Bytes)
    modifies socket
    ensures var d := DriveClient(c, Selecting, old(socket.incoming));
      if ok then socket.sent == old(socket.sent) + sent && Negotiated(c, old(socket.incoming), sent, socket.incoming)
      else socket.sent == old(socket.sent) + d.sent && d.end == ClientFailed
  {
    hide DriveClient, CredentialsOf, ClientRequests;
    ghost var input := socket.incoming;
    sent := [];
    ClientStarts(c, input);
    ClientGoesOn(c, input, [], Selecting, input);
    var selected := socket.RecvExact(2);
    if selected.None? || selected.value[0] != VERSION || selected.value[1] == NO_ACCEPTABLE_METHODS {
      return false, sent;
    }
    if selected.value[1] == USERNAME_PASSWORD {
      ok := Authenticate(socket, c, input);
      if ok {
        sent := CredentialsOf(c);
      }
    } else {
      ok := selected.value[1] == NO_AUTH;
    }
  }

  method SendGreeting(socket: Socket, c: Client)
    modifies socket`sent
    ensures socket.sent == old(socket.sent) + GreetingOf(c)
  {
    var methods: Bytes := [NO_AUTH];
    if c.username != [] || c.password != [] {
      methods := methods + [USERNAME_PASSWORD];
    }
    socket.SendAll([VERSION, |methods|] + methods);
  }

  method SendRequest(socket: Socket, c: Client) returns (ok: bool)
    modifies socket`sent
    ensures ok <==> HostBytes(c).Some?
    ensures socket.sent == old(socket.sent) + if ok then RequestOf(c) else []
  {
    var host := c.encode(c.target.host);
    if host.None? || |host.value| > 255 || !(0 <= c.target.port < 65536) {
      return false;
    }
    var request := [VERSION, CONNECT, 0, DOMAIN, |host.value|];
    request := request + host.value;
    request := request + PortBytes(c.target.port);
    socket.SendAll(request);
    ok := true;
  }

  /** `_socks5_handshake` of the outbound proxy. It succeeds exactly on the bytes that agree on a method
      and reply success, leaves what follows unread, and sends what the peer has agreed to. */
  method ClientHandshake(socket: Socket, c: Client) returns (ok: bool)
    modifies socket
    ensures ok <==> exists rest :: ConnectsOn(c, old(socket.incoming), rest)
    ensures ok ==> ConnectsOn(c, old(socket.incoming), socket.incoming)
    ensures socket.sent == old(socket.sent)
      + (if c.username == [] && c.password == [] then [5, 1, 0] else [5, 2, 0, 2]) + SentOn(c, old(socket.incoming))
    ensures var d := DriveClient(c, Selecting, old(socket.incoming));
      && socket.sent == old(socket.sent) + GreetingOf(c) + d.sent
      && (ok <==> d.end == Connected)
      && (ok ==> socket.incoming == d.rest)
  {
    hide DriveClient, GreetingOf, ClientAt, RequestOf, HostBytes, ConnectsOn, SentOn;
    ghost var input := socket.incoming;
    GreetingExactly(c);
    ClientConnectsExactly(c, input);
    SendGreeting(socket, c);
    ghost var before := socket.sent;
    ghost var sent;
    ok, sent := Negotiate(socket, c);
    if ok {
      ok := SendRequest(socket, c);
      assert socket.sent == before + (sent + ClientRequests(c).sends);
      if ok {
        ok := AwaitReply(socket, c, input, sent + RequestOf(c));
      }
    }
  }

  // ---- The server ----

  ghost predicate ServerAt(decode: Bytes -> Option<string>, input: Bytes, sent: Bytes, phase: ServerPhase, rest: Bytes) {
    var now := DriveServer(decode, phase, rest);
    DriveServer(decode, Greeting, input) == now.(sent := sent + now.sent)
  }

  lemma {:induction false} ServerStarts(decode: Bytes -> Option<string>, input: Bytes)
    ensures ServerAt(decode, input, [], Greeting, input)
  {
    var now := DriveServer(decode, Greeting, input);
    assert [] + now.sent == now.sent;
  }

  lemma {:induction false} ServerGoesOn(decode: Bytes -> Option<string>, input: Bytes, sent: Bytes, phase: ServerPhase, rest: Bytes)
    requires ServerAt(decode, input, sent, phase, rest) && ServerRank(phase) > 0
    ensures |rest| < ServerNeeds(phase) ==> DriveServer(decode, Greeting, input) == Driven(sent, ServerFailed, [])
    ensures |rest| >= ServerNeeds(phase) ==>
      var r, rest' := ServerReacts(decode, phase, rest[..ServerNeeds(phase)]), rest[ServerNeeds(phase)..];
      && ServerAt(decode, input, sent + r.sends, r.next, rest')
      && (ServerRank(r.next) == 0 ==> DriveServer(decode, Greeting, input) == Driven(sent + r.sends, r.next, rest'))
  {
    AddNothing(sent);
    if |rest| >= ServerNeeds(phase) {
      var r := ServerReacts(decode, phase, rest[..ServerNeeds(phase)]);
      var d := DriveServer(decode, r.next, rest[ServerNeeds(phase)..]);
      hide ServerReacts;
      Associates(sent, r.sends, d.sent);
      AddNothing(sent + r.sends);
    }
  }

  /** Where the server reads the address, given its type; `None` for a type it does not know. */
  function AddressPhase(atyp: Byte): Option<ServerPhase> {
    if atyp == IPV4 then Some(AddressV4)
    else if atyp == DOMAIN then Some(DomainLength)
    else if atyp == IPV6 then Some(AddressV6)
    else None
  }

  lemma {:induction false} AddressGoesOn(decode: Bytes -> Option<string>, input: Bytes, sent: Bytes, phase: ServerPhase, rest: Bytes)
    requires ServerAt(decode, input, sent, phase, rest)
    requires phase.AddressV4? || phase.AddressV6? || phase.DomainLength? || phase.Domain?
    ensures |rest| < ServerNeeds(phase) ==> DriveServer(decode, Greeting, input) == Driven(sent, ServerFailed, [])
    ensures |rest| >= ServerNeeds(phase) ==>
      var got, rest' := rest[..ServerNeeds(phase)], rest[ServerNeeds(phase)..];
      match phase
      case AddressV4 => ServerAt(decode, input, sent, Port(Dotted(got)), rest')
      case AddressV6 => ServerAt(decode, input, sent, Port(HexGroups(got)), rest')
      case DomainLength => ServerAt(decode, input, sent, Domain(got[0]), rest')
      case Domain(_) =>
        if decode(got).Some? then ServerAt(decode, input, sent, Port(decode(got).value), rest')
        else DriveServer(decode, Greeting, input) == Driven(sent, ServerFailed, rest')
  {
    ServerGoesOn(decode, input, sent, phase, rest);
    AddNothing(sent);
    hide DriveServer, ServerAt, Dotted, HexGroups;
  }

  lemma {:induction false} GreetingGoesOn(decode: Bytes -> Option<string>, input: Bytes, rest: Bytes)
    requires ServerAt(decode, input, [], Greeting, rest)
    ensures |rest| < 2 ==> DriveServer(decode, Greeting, input) == Driven([], ServerFailed, [])
    ensures |rest| >= 2 ==>
      if rest[0] == VERSION then ServerAt(decode, input, [], Methods(rest[1]), rest[2..])
      else DriveServer(decode, Greeting, input) == Driven([], ServerFailed, rest[2..])
  {
    ServerGoesOn(decode, input, [], Greeting, rest);
    hide DriveServer, ServerAt, Dotted, HexGroups;
    AddNothing<Byte>([]);
  }

  lemma {:induction false} MethodsGoOn(decode: Bytes -> Option<string>, input: Bytes, n: nat, rest: Bytes)
    requires ServerAt(decode, input, [], Methods(n), rest)
    ensures |rest| < n ==> DriveServer(decode, Greeting, input) == Driven([], ServerFailed, [])
    ensures |rest| >= n ==>
      if NO_AUTH in rest[..n] then ServerAt(decode, input, [VERSION, NO_AUTH], Header, rest[n..])
      else DriveServer(decode, Greeting, input) == Driven([VERSION, NO_ACCEPTABLE_METHODS], ServerFailed, rest[n..])
  {
    ServerGoesOn(decode, input, [], Methods(n), rest);
    hide DriveServer, ServerAt, Dotted, HexGroups;
    AddNothing<Byte>([VERSION, NO_AUTH]);
    AddNothing<Byte>([VERSION, NO_ACCEPTABLE_METHODS]);
  }

  /** `_read_socks_address`; `None` is an exception. */
  method ReadSocksAddress(reader: StreamReader, decode: Bytes -> Option<string>, atyp: Byte, ghost input: Bytes, ghost sent: Bytes)
    returns (host: Option<string>)
    requires AddressPhase(atyp).Some? ==> ServerAt(decode, input, sent, AddressPhase(atyp).value, reader.data)
    modifies reader
    ensures AddressPhase(atyp).None? ==> host == None
    ensures AddressPhase(atyp).Some? && host.Some? ==> ServerAt(decode, input, sent, Port(host.value), reader.data)
    ensures AddressPhase(atyp).Some? && host.None? ==>
      DriveServer(decode, Greeting, input).sent == sent && DriveServer(decode, Greeting, input).end == ServerFailed
  {
    hide DriveServer, ServerReacts, ServerAt, Dotted, HexGroups;
    if atyp == IPV4 {
      AddressGoesOn(decode, input, sent, AddressV4, reader.data);
      var parts := reader.ReadExactly(4);
      return if parts.Ok? then Some(Dotted(parts.value)) else None;
    }
    if atyp == DOMAIN {
      AddressGoesOn(decode, input, sent, DomainLength, reader.data);
      var length := reader.ReadExactly(1);
      if length.Err? {
        return None;
      }
      var n: nat := length.value[0];
      AddressGoesOn(decode, input, sent, Domain(n), reader.data);
      var domain := reader.ReadExactly(n);
      return if domain.Ok? then decode(domain.value) else None;
    }
    if atyp == IPV6 {
      AddressGoesOn(decode, input, sent, AddressV6, reader.data);
      var raw := reader.ReadExactly(16);
      return if raw.Ok? then Some(HexGroups(raw.value)) else None;
    }
    host := None;
  }

  method ReadGreeting(reader: StreamReader, writer: StreamWriter, decode: Bytes -> Option<string>) returns (ok: bool)
    modifies reader, writer
    ensures ok ==> writer.data == old(writer.data) + [VERSION, NO_AUTH]
    ensures ok ==> ServerAt(decode, old(reader.data), [VERSION, NO_AUTH], Header, reader.data)
    ensures !ok ==> var d := DriveServer(decode, Greeting, old(reader.data));
      writer.data == old(writer.data) + d.sent && d.end == ServerFailed
  {
    hide DriveServer, ServerReacts, ServerAt;
    ghost var input, before := reader.data, writer.data;
    assert before + [] == before;
    ServerStarts(decode, input);
    GreetingGoesOn(decode, input, input);
    var greeting := reader.ReadExactly(2);
    if greeting.Err? || greeting.value[0] != VERSION {
      return false;
    }
    var n: nat := greeting.value[1];
    MethodsGoOn(decode, input, n, reader.data);
    var methods := reader.ReadExactly(n);
    if methods.Err? {
      return false;
    }
    ok := NO_AUTH in methods.value;
    writer.Write(if ok then [VERSION, NO_AUTH] else [VERSION, NO_ACCEPTABLE_METHODS]);
  }

  /** `_socks5_handshake` of the proxy; `None` when it returns nothing or raises. It accepts exactly on
      the bytes of a greeting and a request, and leaves what follows unread. */
  method ServerHandshake(reader: StreamReader, writer: StreamWriter, decode: Bytes -> Option<string>) returns (target: Option<Target>)
    modifies reader, writer
    ensures target.Some? <==> exists said, rest :: AcceptsOn(decode, old(reader.data), said, rest)
    ensures target.Some? ==> AcceptsOn(decode, old(reader.data), target.value, reader.data)
    ensures writer.data == old(writer.data) + RepliesOn(decode, old(reader.data))
    ensures var d := DriveServer(decode, Greeting, old(reader.data));
      && writer.data == old(writer.data) + d.sent
      && (target.None? ==> !d.end.Accepted?)
      && (target.Some? ==> d.end == Accepted(target.value) && reader.data == d.rest)
  {
    hide DriveServer, AcceptsOn, RepliesOn;
    ghost var input, before := reader.data, writer.data;
    ServerAcceptsExactly(decode, input);
    var ok := ReadGreeting(reader, writer, decode);
    if !ok {
      return None;
    }
    ghost var sent: Bytes := [VERSION, NO_AUTH];
    assert sent + [] == sent;
    ServerGoesOn(decode, input, sent, Header, reader.data);
    var header := reader.ReadExactly(4);
    if header.Err? {
      return None;
    }
    if header.value[0] != VERSION {
      writer.Write(Reply(GENERAL_FAILURE));
      return None;
    }
    if header.value[1] != CONNECT {
      writer.Write(Reply(COMMAND_NOT_SUPPORTED));
      return None;
    }
    var host := ReadSocksAddress(reader, decode, header.value[3], input, sent);
    if host.None? {
      return None;
    }
    ServerGoesOn(decode, input, sent, Port(host.value), reader.data);
    var port := reader.ReadExactly(2);
    if port.Err? {
      return None;
    }
    writer.Write(Reply(SUCCEEDED));
    target := Some(Target(host.value, port.value[0] as int * 256 + port.value[1] as int));
  }
}
