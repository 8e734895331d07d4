/** The SOCKS5 handshake, sections 3 to 6 of RFC 1928 and section 2 of RFC 1929: the client of the
    outbound proxy and the server that the proxy itself is. */
module Socks {
  import opened Basics
  import opened PyInt

  const VERSION: Byte := 5
  const NO_AUTH: Byte := 0
  const USERNAME_PASSWORD: Byte := 2
  const NO_ACCEPTABLE_METHODS: Byte := 255
  const CONNECT: Byte := 1
  const IPV4: Byte := 1
  const DOMAIN: Byte := 3
  const IPV6: Byte := 4
  const SUCCEEDED: Byte := 0
  const GENERAL_FAILURE: Byte := 1
  const COMMAND_NOT_SUPPORTED: Byte := 7

  datatype Target = Target(host: string, port: int)

  /** What one side does once it has all the bytes it waited for: where it goes on, and what it
      sends first. */
  datatype Reaction<P> = Reaction(next: P, sends: Bytes)

  // ---- The client ----

  /** `encode` is IDNA encoding, `None` when it raises; user name and password are already UTF-8. */
  datatype Client = Client(target: Target, username: Bytes, password: Bytes, encode: string -> Option<Bytes>)

  datatype ClientPhase =
    | Selecting | Authenticating | Confirming | BoundLength | BoundAddress(n: nat) | BoundPort
    | Connected | ClientFailed

  function ClientNeeds(phase: ClientPhase): nat {
    match phase
    case Selecting => 2
    case Authenticating => 2
    case Confirming => 4
    case BoundLength => 1
    case BoundAddress(n) => n
    case BoundPort => 2
    case _ => 0
  }

  function MethodsOf(c: Client): (methods: Bytes)
    ensures 1 <= |methods| <= 2
  {
    if c.username != [] || c.password != [] then [NO_AUTH, USERNAME_PASSWORD] else [NO_AUTH]
  }

  function GreetingOf(c: Client): Bytes {
    [VERSION, |MethodsOf(c)|] + MethodsOf(c)
  }

  /** The encoded host, if the request can be built at all. */
  function HostBytes(c: Client): (host: Option<Bytes>)
    ensures host.Some? ==> |host.value| <= 255
  {
    var host := c.encode(c.target.host);
    if host.Some? && |host.value| <= 255 && 0 <= c.target.port < 65536 then host else None
  }

  function PortBytes(port: int): Bytes
    requires 0 <= port < 65536
  {
    [port / 256, port % 256]
  }

  function RequestOf(c: Client): Bytes
    requires HostBytes(c).Some?
  {
    [VERSION, CONNECT, 0, DOMAIN, |HostBytes(c).value|] + HostBytes(c).value + PortBytes(c.target.port)
  }

  function ClientRequests(c: Client): Reaction<ClientPhase> {
    if HostBytes(c).Some? then Reaction(Confirming, RequestOf(c)) else Reaction(ClientFailed, [])
  }

  function CredentialsOf(c: Client): Bytes
    requires |c.username| <= 255 && |c.password| <= 255
  {
    [1, |c.username|] + c.username + [|c.password|] + c.password
  }

  function ClientReacts(c: Client, phase: ClientPhase, got: Bytes): Reaction<ClientPhase>
    requires |got| == ClientNeeds(phase)
  {
    match phase
    case Selecting =>
      if got[0] != VERSION || got[1] == NO_ACCEPTABLE_METHODS then Reaction(ClientFailed, [])
      else if got[1] == USERNAME_PASSWORD then
        if |c.username| > 255 || |c.password| > 255 then Reaction(ClientFailed, [])
        else Reaction(Authenticating, CredentialsOf(c))
      else if got[1] != NO_AUTH then Reaction(ClientFailed, [])
      else ClientRequests(c)
    case Authenticating => if got != [1, 0] then Reaction(ClientFailed, []) else ClientRequests(c)
    case Confirming =>
      if got[0] != VERSION || got[1] != SUCCEEDED then Reaction(ClientFailed, [])
      else if got[3] == IPV4 then Reaction(BoundAddress(4), [])
      else if got[3] == DOMAIN then Reaction(BoundLength, [])
      else if got[3] == IPV6 then Reaction(BoundAddress(16), [])
      else Reaction(ClientFailed, [])
    case BoundLength => Reaction(BoundAddress(got[0]), [])
    case BoundAddress(_) => Reaction(BoundPort, [])
    case BoundPort => Reaction(Connected, [])
    case _ => Reaction(phase, [])
  }

  // ---- The server ----

  datatype ServerPhase =
    | Greeting | Methods(n: nat) | Header | DomainLength | Domain(n: nat) | AddressV4 | AddressV6 | Port(host: string)
    | Accepted(target: Target) | ServerFailed

  function ServerNeeds(phase: ServerPhase): nat {
    match phase
    case Greeting => 2
    case Methods(n) => n
    case Header => 4
    case DomainLength => 1
    case Domain(n) => n
    case AddressV4 => 4
    case AddressV6 => 16
    case Port(_) => 2
    case _ => 0
  }

  function Text(bytes: Bytes): string {
    seq(|bytes|, i requires 0 <= i < |bytes| => bytes[i] as char)
  }

  function Dotted(bytes: Bytes): string {
    if bytes == [] then "" else Text(Print(bytes[0], 10)) + (if |bytes| > 1 then "." + Dotted(bytes[1..]) else "")
  }

  function HexPair(b: Byte): Bytes {
    [DigitOf(b / 16), DigitOf(b % 16)]
  }

  function HexGroups(bytes: Bytes): string {
    if |bytes| < 2 then ""
    else Text(HexPair(bytes[0]) + HexPair(bytes[1])) + (if |bytes| > 2 then ":" + HexGroups(bytes[2..]) else "")
  }

  function Reply(code: Byte): Bytes {
    [VERSION, code, 0, IPV4, 0, 0, 0, 0, 0, 0]
  }

  /** `decode` is IDNA decoding, `None` when it raises. */
  function ServerReacts(decode: Bytes -> Option<string>, phase: ServerPhase, got: Bytes): Reaction<ServerPhase>
    requires |got| == ServerNeeds(phase)
  {
    match phase
    case Greeting => Reaction(if got[0] != VERSION then ServerFailed else Methods(got[1]), [])
    case Methods(_) =>
      if NO_AUTH !in got then Reaction(ServerFailed, [VERSION, NO_ACCEPTABLE_METHODS])
      else Reaction(Header, [VERSION, NO_AUTH])
    case Header =>
      if got[0] != VERSION then Reaction(ServerFailed, Reply(GENERAL_FAILURE))
      else if got[1] != CONNECT then Reaction(ServerFailed, Reply(COMMAND_NOT_SUPPORTED))
      else if got[3] == IPV4 then Reaction(AddressV4, [])
      else if got[3] == DOMAIN then Reaction(DomainLength, [])
      else if got[3] == IPV6 then Reaction(AddressV6, [])
      else Reaction(ServerFailed, [])
    case DomainLength => Reaction(Domain(got[0]), [])
    case Domain(_) => Reaction(if decode(got).Some? then Port(decode(got).value) else ServerFailed, [])
    case AddressV4 => Reaction(Port(Dotted(got)), [])
    case AddressV6 => Reaction(Port(HexGroups(got)), [])
    case Port(host) => Reaction(Accepted(Target(host, got[0] as int * 256 + got[1] as int)), Reply(SUCCEEDED))
    case _ => Reaction(phase, [])
  }

  // ---- Running one side against all it will ever receive ----

  datatype Driven<P> = Driven(sent: Bytes, end: P, rest: Bytes)

  function ClientRank(phase: ClientPhase): nat {
    match phase
    case Selecting => 6
    case Authenticating => 5
    case Confirming => 4
    case BoundLength => 3
    case BoundAddress(_) => 2
    case BoundPort => 1
    case _ => 0
  }

  function DriveClient(c: Client, phase: ClientPhase, input: Bytes): Driven<ClientPhase>
    decreases ClientRank(phase)
  {
    var n := ClientNeeds(phase);
    if ClientRank(phase) == 0 then Driven([], phase, input)
    else if |input| < n then Driven([], ClientFailed, [])
    else
      var r := ClientReacts(c, phase, input[..n]);
      var d := DriveClient(c, r.next, input[n..]);
      d.(sent := r.sends + d.sent)
  }

  function ServerRank(phase: ServerPhase): nat {
    match phase
    case Greeting => 6
    case Methods(_) => 5
    case Header => 4
    case DomainLength => 3
    case Port(_) => 1
    case Accepted(_) => 0
    case ServerFailed => 0
    case _ => 2
  }

  function DriveServer(decode: Bytes -> Option<string>, phase: ServerPhase, input: Bytes): Driven<ServerPhase>
    decreases ServerRank(phase)
  {
    var n := ServerNeeds(phase);
    if ServerRank(phase) == 0 then Driven([], phase, input)
    else if |input| < n then Driven([], ServerFailed, [])
    else
      var r := ServerReacts(decode, phase, input[..n]);
      var d := DriveServer(decode, r.next, input[n..]);
      d.(sent := r.sends + d.sent)
  }

  // ---- The blocking client socket ----

  class Socket {
    var incoming: Bytes
    var sent: Bytes

    constructor (incoming: Bytes)
      ensures this.incoming == incoming && sent == []
    {
      this.incoming, sent := incoming, [];
    }

    method SendAll(bytes: Bytes)
      modifies this`sent
      ensures sent == old(sent) + bytes
    {
      sent := sent + bytes;
    }

    /** Some of what has arrived, as much as the network likes; nothing at the end of the stream. */
    method Recv(size: nat) returns (chunk: Bytes)
      requires size > 0
      modifies this`incoming
      ensures old(incoming) == chunk + incoming && |chunk| <= size
      ensures chunk == [] <==> old(incoming) == []
    {
      if incoming == [] {
        return [];
      }
      var n: nat :| 0 < n <= size && n <= |incoming|;
      chunk := incoming[..n];
      incoming := incoming[n..];
    }

    /** `_recv_exact`: however the bytes are cut up, exactly `size` of them, or an error. */
    method RecvExact(size: nat) returns (r: Option<Bytes>)
      modifies this`incoming
      ensures if |old(incoming)| < size then r == None
              else r == Some(old(incoming)[..size]) && incoming == old(incoming)[size..]
    {
      var chunks: Bytes := [];
      while |chunks| < size
        invariant |chunks| <= size && old(incoming) == chunks + incoming
        decreases size - |chunks|
      {
        var chunk := Recv(size - |chunks|);
        if chunk == [] {
          return None;
        }
        chunks := chunks + chunk;
      }
      r := Some(chunks);
    }
  }
}
