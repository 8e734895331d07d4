/** The client of the outbound proxy against the server of this proxy, joined by two byte queues
    that deliver in any fragments. */
module SocksComposition {
  import opened Basics
  import opened Socks
  import opened SocksWire

  datatype Setting = Setting(client: Client, decode: Bytes -> Option<string>)

  /** `clientGot` and `serverGot` are what the pending exact read has collected. Once a side is
      through, it may speak: `upData` and `downData` are the application bytes it sent. */
  datatype State = State(
    client: ClientPhase, clientGot: Bytes, server: ServerPhase, serverGot: Bytes,
    up: Bytes, down: Bytes, upData: Bytes, downData: Bytes)

  function Initial(c: Setting): State {
    State(Selecting, [], Greeting, [], GreetingOf(c.client), [], [], [])
  }

  datatype Event =
    | ClientReads(n: nat)
    | ClientActs
    | ServerReads(n: nat)
    | ServerActs
    | ClientSpeaks(bytes: Bytes)
    | ServerSpeaks(bytes: Bytes)

  predicate Enabled(s: State, e: Event) {
    match e
    case ClientReads(n) => 0 < n <= |s.down| && |s.clientGot| + n <= ClientNeeds(s.client)
    case ClientActs => ClientRank(s.client) > 0 && |s.clientGot| == ClientNeeds(s.client)
    case ServerReads(n) => 0 < n <= |s.up| && |s.serverGot| + n <= ServerNeeds(s.server)
    case ServerActs => ServerRank(s.server) > 0 && |s.serverGot| == ServerNeeds(s.server)
    case ClientSpeaks(_) => s.client.Connected?
    case ServerSpeaks(_) => s.server.Accepted?
  }

  function Next(c: Setting, s: State, e: Event): State
    requires Enabled(s, e)
  {
    match e
    case ClientReads(n) => s.(clientGot := s.clientGot + s.down[..n], down := s.down[n..])
    case ClientActs =>
      var r := ClientReacts(c.client, s.client, s.clientGot);
      s.(client := r.next, clientGot := [], up := s.up + r.sends)
    case ServerReads(n) => s.(serverGot := s.serverGot + s.up[..n], up := s.up[n..])
    case ServerActs =>
      var r := ServerReacts(c.decode, s.server, s.serverGot);
      s.(server := r.next, serverGot := [], down := s.down + r.sends)
    case ClientSpeaks(bytes) => s.(up := s.up + bytes, upData := s.upData + bytes)
    case ServerSpeaks(bytes) => s.(down := s.down + bytes, downData := s.downData + bytes)
  }

  // ---- What the two sides know of each other ----

  const Choice: Bytes := [VERSION, NO_AUTH]

  /** What the server has read of what it was last sent, before the read that is pending. */
  function ServerBefore(c: Setting, phase: ServerPhase): Bytes {
    match phase
    case Methods(n) => if n < 256 then [VERSION, n] else []
    case DomainLength => [VERSION, CONNECT, 0, DOMAIN]
    case Domain(n) => if n < 256 then [VERSION, CONNECT, 0, DOMAIN, n] else []
    case Port(_) => RequestHead(c)
    case _ => []
  }

  function ServerSeen(c: Setting, s: State): Bytes {
    ServerBefore(c, s.server) + s.serverGot
  }

  function RequestHead(c: Setting): Bytes {
    var host := HostBytes(c.client);
    if host.None? then [] else [VERSION, CONNECT, 0, DOMAIN, |host.value|] + host.value
  }

  function ClientBefore(phase: ClientPhase): Bytes {
    match phase
    case BoundAddress(_) => [VERSION, SUCCEEDED, 0, IPV4]
    case BoundPort => [VERSION, SUCCEEDED, 0, IPV4, 0, 0, 0, 0]
    case _ => []
  }

  function ClientSeen(s: State): Bytes {
    ClientBefore(s.client) + s.clientGot
  }

  /** The host the server will believe in, once it has read the request. */
  function Heard(c: Setting): Option<string> {
    if HostBytes(c.client).Some? then c.decode(HostBytes(c.client).value) else None
  }

  ghost predicate Silent(s: State) {
    s.upData == [] && s.downData == []
  }

  /** The greeting is on its way, then the choice is on its way back. */
  ghost predicate ChoosingOk(c: Setting, s: State) {
    && Silent(s)
    && if s.server.Header? then s.serverGot == [] && s.up == [] && ClientSeen(s) + s.down == Choice
       else
         && s.clientGot == [] && s.down == [] && ServerSeen(c, s) + s.up == GreetingOf(c.client)
         && s.server in {Greeting, Methods(|MethodsOf(c.client)|)}
  }

  /** The request is on its way; or its host could not be decoded, and the client waits in vain. */
  ghost predicate RequestingOk(c: Setting, s: State) {
    && Silent(s) && HostBytes(c.client).Some? && s.clientGot == [] && s.down == []
    && if s.server.ServerFailed? then Heard(c).None?
       else
         && ServerSeen(c, s) + s.up == RequestOf(c.client)
         && (s.server in {Header, DomainLength, Domain(|HostBytes(c.client).value|)} || Some(s.server) == PortPhase(c))
  }

  function PortPhase(c: Setting): Option<ServerPhase> {
    if Heard(c).Some? then Some(Port(Heard(c).value)) else None
  }

  /** The reply is on its way, perhaps with application data behind it. */
  ghost predicate AcceptedOk(c: Setting, s: State) {
    && HostBytes(c.client).Some? && Heard(c).Some?
    && s.server == Accepted(Target(Heard(c).value, c.client.target.port))
    && s.up == s.upData
    && if s.client.Connected? then s.down == s.downData
       else
         && s.upData == [] && ClientSeen(s) + s.down == Reply(SUCCEEDED) + s.downData
         && s.client in {Confirming, BoundAddress(4), BoundPort}
  }

  /** The stages of the conversation, and the two ways it can stop short. */
  ghost predicate Inv(c: Setting, s: State) {
    && |s.clientGot| <= ClientNeeds(s.client) && |s.serverGot| <= ServerNeeds(s.server)
    && if s.client.Selecting? then ChoosingOk(c, s)
       else if s.server.Accepted? then AcceptedOk(c, s)
       else if s.client.Confirming? then RequestingOk(c, s)
       else
         && s.client.ClientFailed? && s.server.Header? && Silent(s) && HostBytes(c.client).None?
         && s.serverGot == [] && s.up == [] && s.down == []
  }

  lemma {:induction false} InitialInv(c: Setting)
    ensures Inv(c, Initial(c))
  {
    assert [] + GreetingOf(c.client) == GreetingOf(c.client);
  }

  // ---- Reads ----

  lemma {:induction false} Moves(before: Bytes, got: Bytes, queue: Bytes, n: nat)
    requires n <= |queue|
    ensures before + (got + queue[..n]) + queue[n..] == before + got + queue
  {
  }

  lemma {:induction false} ClientReadKeeps(c: Setting, s: State, n: nat)
    requires Inv(c, s) && Enabled(s, ClientReads(n))
    ensures Inv(c, Next(c, s, ClientReads(n)))
  {
    Moves(ClientBefore(s.client), s.clientGot, s.down, n);
    hide ClientBefore, HostBytes, Heard, GreetingOf, RequestOf, ServerSeen, Reply;
  }

  lemma {:induction false} ServerReadKeeps(c: Setting, s: State, n: nat)
    requires Inv(c, s) && Enabled(s, ServerReads(n))
    ensures Inv(c, Next(c, s, ServerReads(n)))
  {
    Moves(ServerBefore(c, s.server), s.serverGot, s.up, n);
    hide ServerBefore, HostBytes, Heard, GreetingOf, RequestOf, ClientSeen, Reply, PortPhase;
  }

  // ---- Actions ----

  lemma {:induction false} Parts(a: Bytes, b: Bytes, whole: Bytes)
    requires a + b == whole
    ensures |a| <= |whole| && a == whole[..|a|] && b == whole[|a|..]
  {
  }

  lemma {:induction false} ClientChooses(c: Setting, s: State)
    requires Inv(c, s) && Enabled(s, ClientActs) && s.client.Selecting?
    ensures Inv(c, Next(c, s, ClientActs))
  {
    Parts(s.clientGot, s.down, Choice);
    assert s.clientGot == Choice;
    AddNothing(ClientRequests(c.client).sends);
  }

  lemma {:induction false} ReplyGoesOn(c: Setting, s: State, phase: ClientPhase)
    requires Inv(c, s) && s.server.Accepted? && (s.client.Confirming? || s.client.BoundAddress?)
    requires ClientBefore(phase) == ClientSeen(s) && phase in {BoundAddress(4), BoundPort}
    ensures Inv(c, s.(client := phase, clientGot := []))
  {
    AddNothing(ClientSeen(s));
    hide ClientBefore, HostBytes, Heard, Reply;
  }

  lemma {:induction false} ReplySeen(c: Setting, s: State)
    requires Inv(c, s) && s.server.Accepted? && !s.client.Connected? && |ClientSeen(s)| <= 10
    ensures ClientSeen(s) == Reply(SUCCEEDED)[..|ClientSeen(s)|]
    ensures s.down == Reply(SUCCEEDED)[|ClientSeen(s)|..] + s.downData
  {
    var seen, reply := ClientSeen(s), Reply(SUCCEEDED);
    Parts(seen, s.down, reply + s.downData);
    hide Inv, ClientSeen, Reply;
    assert (reply + s.downData)[..|seen|] == reply[..|seen|];
    assert (reply + s.downData)[|seen|..] == reply[|seen|..] + s.downData;
  }

  lemma {:induction false} ClientReadsReply(c: Setting, s: State)
    requires Inv(c, s) && Enabled(s, ClientActs) && !s.client.Selecting?
    ensures Inv(c, Next(c, s, ClientActs))
  {
    assert s.server.Accepted?;
    ReplySeen(c, s);
    AddNothing(s.up);
    var seen := ClientSeen(s);
    if s.client.Confirming? {
      assert seen == [VERSION, SUCCEEDED, 0, IPV4] == s.clientGot;
      ReplyGoesOn(c, s, BoundAddress(4));
    } else if s.client.BoundPort? {
      assert s.down == [] + s.downData == s.downData;
    } else {
      assert seen == Reply(SUCCEEDED)[..8] == [VERSION, SUCCEEDED, 0, IPV4, 0, 0, 0, 0];
      ReplyGoesOn(c, s, BoundPort);
    }
  }

  lemma {:induction false} ServerReadsGreeting(c: Setting, s: State)
    requires Inv(c, s) && Enabled(s, ServerActs) && s.client.Selecting?
    ensures Inv(c, Next(c, s, ServerActs))
  {
    var seen, greeting, methods := ServerSeen(c, s), GreetingOf(c.client), MethodsOf(c.client);
    assert methods[0] == NO_AUTH;
    Parts(seen, s.up, greeting);
    AddNothing(seen);
    AddNothing(s.down);
    hide MethodsOf;
    if s.server.Greeting? {
      assert seen == [VERSION, |methods|] == s.serverGot;
    } else {
      assert seen == greeting && s.serverGot == greeting[2..] == methods;
      AddNothing(Choice);
    }
  }

  /** The request goes on: what was read before is the head of it that the next phase has behind it. */
  lemma {:induction false} RequestGoesOn(c: Setting, s: State, phase: ServerPhase)
    requires Inv(c, s) && s.client.Confirming? && !s.server.Accepted? && !s.server.ServerFailed?
    requires ServerBefore(c, phase) == ServerSeen(c, s)
    requires phase in {DomainLength, Domain(|HostBytes(c.client).value|)} || Some(phase) == PortPhase(c)
    ensures Inv(c, s.(server := phase, serverGot := []))
  {
    AddNothing(ServerSeen(c, s));
    hide ServerBefore, HostBytes, Heard, RequestOf;
  }

  lemma {:induction false} RequestSeen(c: Setting, s: State)
    requires Inv(c, s) && s.client.Confirming? && !s.server.Accepted? && !s.server.ServerFailed?
    ensures var seen := ServerSeen(c, s);
      |seen| <= |RequestOf(c.client)| && seen == RequestOf(c.client)[..|seen|]
  {
    Parts(ServerSeen(c, s), s.up, RequestOf(c.client));
  }

  lemma {:induction false} ServerReadsHeader(c: Setting, s: State)
    requires Inv(c, s) && Enabled(s, ServerActs) && s.client.Confirming? && (s.server.Header? || s.server.DomainLength?)
    ensures Inv(c, Next(c, s, ServerActs))
  {
    RequestSeen(c, s);
    var request, n := RequestOf(c.client), |HostBytes(c.client).value|;
    hide Inv, HostBytes;
    AddNothing(s.down);
    if s.server.Header? {
      assert s.serverGot == request[..4] == [VERSION, CONNECT, 0, DOMAIN];
      RequestGoesOn(c, s, DomainLength);
    } else {
      assert s.serverGot == request[4..5] == [n];
      RequestGoesOn(c, s, Domain(n));
    }
  }

  lemma {:induction false} ServerReadsDomain(c: Setting, s: State)
    requires Inv(c, s) && Enabled(s, ServerActs) && s.client.Confirming? && s.server.Domain?
    ensures Inv(c, Next(c, s, ServerActs))
  {
    RequestSeen(c, s);
    var request, host := RequestOf(c.client), HostBytes(c.client).value;
    assert s.serverGot == request[5..5 + |host|] == host;
    assert ServerSeen(c, s) == RequestHead(c);
    AddNothing(s.down);
    if Heard(c).Some? {
      RequestGoesOn(c, s, Port(Heard(c).value));
    }
  }

  lemma {:induction false} ServerReadsPort(c: Setting, s: State)
    requires Inv(c, s) && Enabled(s, ServerActs) && s.client.Confirming? && s.server.Port?
    ensures Inv(c, Next(c, s, ServerActs))
  {
    var request, port := RequestOf(c.client), PortBytes(c.client.target.port);
    Associates(RequestHead(c), s.serverGot, s.up);
    Parts(RequestHead(c), s.serverGot + s.up, request);
    assert request[|RequestHead(c)|..] == port;
    Parts(s.serverGot, s.up, port);
    assert s.serverGot == port && s.up == [];
    assert [] + Reply(SUCCEEDED) == Reply(SUCCEEDED) + [];
  }

  lemma {:induction false} StepKeeps(c: Setting, s: State, e: Event)
    requires Inv(c, s) && Enabled(s, e)
    ensures Inv(c, Next(c, s, e))
  {
    match e
    case ClientReads(n) => ClientReadKeeps(c, s, n);
    case ClientActs => if s.client.Selecting? { ClientChooses(c, s); } else { ClientReadsReply(c, s); }
    case ServerReads(n) => ServerReadKeeps(c, s, n);
    case ServerActs =>
      if s.client.Selecting? { ServerReadsGreeting(c, s); }
      else if s.server.Port? { ServerReadsPort(c, s); }
      else if s.server.Domain? { ServerReadsDomain(c, s); }
      else { ServerReadsHeader(c, s); }
    case ClientSpeaks(_) =>
    case ServerSpeaks(bytes) => Associates(Reply(SUCCEEDED), s.downData, bytes); Associates(ClientSeen(s), s.down, bytes);
  }

  // ---- Progress ----

  predicate Speaks(e: Event) {
    e.ClientSpeaks? || e.ServerSpeaks?
  }

  /** The reads and actions that a side still has before it. */
  function ClientLeft(phase: ClientPhase): nat {
    match phase
    case Selecting => 3 + 5 + 5 + 3
    case Confirming => 5 + 5 + 3
    case BoundAddress(n) => n + 1 + 3
    case BoundPort => 3
    case _ => 0
  }

  function ServerLeft(c: Setting, phase: ServerPhase): nat {
    var host := if HostBytes(c.client).Some? then |HostBytes(c.client).value| else 0;
    match phase
    case Greeting => 3 + (|MethodsOf(c.client)| + 1) + 5 + 2 + (host + 1) + 3
    case Methods(n) => n + 1 + 5 + 2 + (host + 1) + 3
    case Header => 5 + 2 + (host + 1) + 3
    case DomainLength => 2 + (host + 1) + 3
    case Domain(n) => n + 1 + 3
    case Port(_) => 3
    case _ => 0
  }

  function Left(c: Setting, s: State): int {
    ClientLeft(s.client) - |s.clientGot| + ServerLeft(c, s.server) - |s.serverGot|
  }

  lemma {:induction false} ClientActUsesUp(c: Setting, s: State)
    requires Inv(c, s) && Enabled(s, ClientActs)
    ensures Left(c, Next(c, s, ClientActs)) < Left(c, s)
  {
    StepKeeps(c, s, ClientActs);
    hide ServerSeen, ClientSeen, HostBytes, Heard, ServerLeft;
  }

  /** The phases that the server passes through with this client. */
  predicate OnTheWay(c: Setting, phase: ServerPhase) {
    var host := if HostBytes(c.client).Some? then |HostBytes(c.client).value| else 0;
    match phase
    case Methods(n) => n == |MethodsOf(c.client)|
    case Domain(n) => n == host
    case AddressV4 => false
    case AddressV6 => false
    case _ => true
  }

  lemma {:induction false} StaysOnTheWay(c: Setting, s: State)
    requires Inv(c, s)
    ensures OnTheWay(c, s.server)
  {
    hide HostBytes, MethodsOf, ServerSeen, ClientSeen;
  }

  lemma {:induction false} ForwardIsLess(c: Setting, a: ServerPhase, b: ServerPhase)
    requires OnTheWay(c, a) && OnTheWay(c, b) && ServerRank(b) < ServerRank(a)
    ensures ServerLeft(c, b) + ServerNeeds(a) < ServerLeft(c, a)
  {
    hide HostBytes, MethodsOf;
  }

  /** Reading a request only ever goes forward. */
  lemma {:induction false} ServerGoesForward(decode: Bytes -> Option<string>, phase: ServerPhase, got: Bytes)
    requires |got| == ServerNeeds(phase) && ServerRank(phase) > 0
    ensures ServerRank(ServerReacts(decode, phase, got).next) < ServerRank(phase)
  {
    hide Dotted, HexGroups, Reply;
  }

  lemma {:induction false} ServerActUsesUp(c: Setting, s: State)
    requires Inv(c, s) && Enabled(s, ServerActs)
    ensures Left(c, Next(c, s, ServerActs)) < Left(c, s)
  {
    var s' := Next(c, s, ServerActs);
    StepKeeps(c, s, ServerActs);
    StaysOnTheWay(c, s);
    StaysOnTheWay(c, s');
    ServerGoesForward(c.decode, s.server, s.serverGot);
    hide Inv, ServerReacts, OnTheWay, ServerLeft, ClientLeft;
    ForwardIsLess(c, s.server, s'.server);
  }

  /** Every read and every action uses up some of what is left; speaking does not add to it. */
  lemma {:induction false} StepUsesUp(c: Setting, s: State, e: Event)
    requires Inv(c, s) && Enabled(s, e)
    ensures if Speaks(e) then Left(c, Next(c, s, e)) == Left(c, s) else Left(c, Next(c, s, e)) < Left(c, s)
  {
    hide Inv, ServerLeft, ClientLeft;
    if e.ClientActs? {
      ClientActUsesUp(c, s);
    } else if e.ServerActs? {
      ServerActUsesUp(c, s);
    }
  }

  ghost predicate Quiescent(s: State) {
    forall e :: Enabled(s, e) ==> Speaks(e)
  }

  /** Both sides are through, the server has the client's target, and each queue holds exactly the
      application bytes sent so far. */
  ghost predicate Succeeded(c: Setting, s: State) {
    && s.client.Connected? && s.server == Accepted(c.client.target)
    && s.up == s.upData && s.down == s.downData
  }

  /** The host can be encoded in at most 255 bytes and is decoded back, and the port is a port. */
  predicate Deliverable(c: Setting) {
    Heard(c) == Some(c.client.target.host)
  }

  /** Nobody waits for bytes that will not come, unless the host cannot be delivered. */
  lemma {:induction false} QuiescentIsOver(c: Setting, s: State)
    requires Inv(c, s) && Quiescent(s)
    ensures Succeeded(c, s) <==> Deliverable(c)
  {
    assert !Enabled(s, ClientActs) && !Enabled(s, ServerActs);
    assert !Enabled(s, ClientReads(1)) && !Enabled(s, ServerReads(1));
    if s.client.Selecting? && !s.server.Header? {
      SomethingUnread(ServerSeen(c, s), s.up, GreetingOf(c.client));
    } else if s.client.Selecting? {
      SomethingUnread(s.clientGot, s.down, Choice);
    } else if s.server.Accepted? && !s.client.Connected? {
      SomethingUnread(ClientSeen(s), s.down, Reply(SUCCEEDED) + s.downData);
    } else if s.client.Confirming? && !s.server.ServerFailed? {
      SomethingUnread(ServerSeen(c, s), s.up, RequestOf(c.client));
    }
  }

  lemma {:induction false} SomethingUnread(seen: Bytes, queue: Bytes, whole: Bytes)
    requires seen + queue == whole && |seen| < |whole|
    ensures queue != []
  {
  }

  // ---- Whole runs ----

  ghost predicate IsRun(c: Setting, s: State, events: seq<Event>)
    decreases |events|
  {
    events == [] || (Enabled(s, events[0]) && IsRun(c, Next(c, s, events[0]), events[1..]))
  }

  ghost function EndOf(c: Setting, s: State, events: seq<Event>): State
    requires IsRun(c, s, events)
    decreases |events|
  {
    if events == [] then s else EndOf(c, Next(c, s, events[0]), events[1..])
  }

  function Steps(events: seq<Event>): nat {
    if events == [] then 0 else (if Speaks(events[0]) then 0 else 1) + Steps(events[1..])
  }

  lemma {:induction false} RunKeeps(c: Setting, s: State, events: seq<Event>)
    requires Inv(c, s) && IsRun(c, s, events)
    ensures Inv(c, EndOf(c, s, events))
    ensures Steps(events) + Left(c, EndOf(c, s, events)) <= Left(c, s)
    decreases |events|
  {
    hide Inv, Left, Next, Enabled;
    if events != [] {
      StepKeeps(c, s, events[0]);
      StepUsesUp(c, s, events[0]);
      RunKeeps(c, Next(c, s, events[0]), events[1..]);
    }
  }

  /** SOCKS5 composition, for every host, port, credentials and fragmentation: a run has at most
      `Left(Initial)` reads and actions; as long as one is left to do it can be done, and when none
      is, both sides are through with the right target and nothing of the handshake is left in
      either queue, if and only if the host is deliverable. */
  lemma {:induction false} HandshakeCompletes(c: Setting, events: seq<Event>)
    requires IsRun(c, Initial(c), events)
    ensures var s := EndOf(c, Initial(c), events);
      && Steps(events) <= Left(c, Initial(c))
      && (Quiescent(s) ==> (Succeeded(c, s) <==> Deliverable(c)))
  {
    InitialInv(c);
    RunKeeps(c, Initial(c), events);
    hide Left, Succeeded, Deliverable, Quiescent, Initial;
    var s := EndOf(c, Initial(c), events);
    assert Left(c, s) >= 0 by { LeftIsNatural(c, s); }
    if Quiescent(s) {
      QuiescentIsOver(c, s);
    }
  }

  lemma {:induction false} LeftIsNatural(c: Setting, s: State)
    requires Inv(c, s)
    ensures Left(c, s) >= 0
  {
    assert ClientNeeds(s.client) <= ClientLeft(s.client) by { hide ServerSeen, ClientSeen, HostBytes, Heard; }
    assert ServerNeeds(s.server) <= ServerLeft(c, s.server) by { hide ServerSeen, ClientSeen, HostBytes, Heard; }
  }

  /** Before the end, with a deliverable host: neither side has failed, the server has not accepted
      another target, and the client is through only when it has read the whole reply. */
  lemma {:induction false} NothingGoesWrong(c: Setting, events: seq<Event>)
    requires IsRun(c, Initial(c), events) && Deliverable(c)
    ensures var s := EndOf(c, Initial(c), events);
      && !s.client.ClientFailed? && !s.server.ServerFailed?
      && (s.server.Accepted? ==> s.server.target == c.client.target)
      && (s.client.Connected? ==> s.server.Accepted? && s.down == s.downData && s.up == s.upData)
  {
    InitialInv(c);
    RunKeeps(c, Initial(c), events);
  }

  /** Every handshake can be brought to its end from wherever it stands. */
  lemma {:induction false} CanFinish(c: Setting, s: State) returns (events: seq<Event>)
    requires Inv(c, s)
    ensures IsRun(c, s, events) && Quiescent(EndOf(c, s, events))
    decreases Left(c, s)
  {
    LeftIsNatural(c, s);
    if Quiescent(s) {
      events := [];
    } else {
      var e :| Enabled(s, e) && !Speaks(e);
      StepKeeps(c, s, e);
      StepUsesUp(c, s, e);
      hide Inv, Next, Enabled, Left;
      var rest := CanFinish(c, Next(c, s, e));
      events := [e] + rest;
      assert events[1..] == rest;
    }
  }

  lemma {:induction false} ClientTakes(c: Client, phase: ClientPhase, got: Bytes, rest: Bytes)
    requires ClientRank(phase) > 0 && |got| == ClientNeeds(phase)
    ensures var r := ClientReacts(c, phase, got);
      var d := DriveClient(c, r.next, rest);
      && DriveClient(c, phase, got + rest) == d.(sent := r.sends + d.sent)
      && (ClientRank(r.next) == 0 ==> DriveClient(c, phase, got + rest) == Driven(r.sends, r.next, rest))
  {
    AddNothing(ClientReacts(c, phase, got).sends);
    assert (got + rest)[..|got|] == got && (got + rest)[|got|..] == rest;
  }

  lemma {:induction false} ServerTakes(decode: Bytes -> Option<string>, phase: ServerPhase, got: Bytes, rest: Bytes)
    requires ServerRank(phase) > 0 && |got| == ServerNeeds(phase)
    ensures var r := ServerReacts(decode, phase, got);
      var d := DriveServer(decode, r.next, rest);
      && DriveServer(decode, phase, got + rest) == d.(sent := r.sends + d.sent)
      && (ServerRank(r.next) == 0 ==> DriveServer(decode, phase, got + rest) == Driven(r.sends, r.next, rest))
  {
    AddNothing(ServerReacts(decode, phase, got).sends);
    assert (got + rest)[..|got|] == got && (got + rest)[|got|..] == rest;
  }

  lemma {:induction false} ClientMeets(c: Setting, downData: Bytes)
    requires HostBytes(c.client).Some?
    ensures DriveClient(c.client, Selecting, Choice + (Reply(SUCCEEDED) + downData))
      == Driven(RequestOf(c.client), Connected, downData)
  {
    hide DriveClient, HostBytes;
    var head, address, port: Bytes := [VERSION, SUCCEEDED, 0, IPV4], [0, 0, 0, 0], [0, 0];
    assert Reply(SUCCEEDED) + downData == head + (address + (port + downData));
    ClientTakes(c.client, Selecting, Choice, Reply(SUCCEEDED) + downData);
    ClientTakes(c.client, Confirming, head, address + (port + downData));
    ClientTakes(c.client, BoundAddress(4), address, port + downData);
    ClientTakes(c.client, BoundPort, port, downData);
    AddNothing(RequestOf(c.client));
  }

  /** Whatever form a server gives the bound address, the client reads exactly the reply. */
  lemma {:induction false} EveryReplyIsRead(c: Client, reserved: Byte, atyp: Byte, address: Bytes, port: Bytes, rest: Bytes)
    requires BoundAddressBytes(atyp, address) && |port| == 2
    ensures DriveClient(c, Confirming, [VERSION, SUCCEEDED, reserved, atyp] + (address + (port + rest)))
      == Driven([], Connected, rest)
  {
    hide DriveClient;
    ClientTakes(c, Confirming, [VERSION, SUCCEEDED, reserved, atyp], address + (port + rest));
    if atyp == DOMAIN {
      var name := address[1..];
      assert address + (port + rest) == [address[0]] + (name + (port + rest));
      ClientTakes(c, BoundLength, [address[0]], name + (port + rest));
      ClientTakes(c, BoundAddress(|name|), name, port + rest);
    } else {
      ClientTakes(c, BoundAddress(|address|), address, port + rest);
    }
    ClientTakes(c, BoundPort, port, rest);
  }

  lemma {:induction false} ServerMeets(c: Setting, upData: Bytes)
    requires Heard(c).Some?
    ensures DriveServer(c.decode, Greeting, GreetingOf(c.client) + (RequestOf(c.client) + upData))
      == Driven(Choice + Reply(SUCCEEDED), Accepted(Target(Heard(c).value, c.client.target.port)), upData)
  {
    var methods := MethodsOf(c.client);
    var hello: Bytes := [VERSION, |methods|];
    var request := RequestOf(c.client) + upData;
    Associates(hello, methods, request);
    hide DriveServer;
    assert methods[0] == NO_AUTH;
    ServerTakes(c.decode, Greeting, hello, methods + request);
    ServerTakes(c.decode, Methods(|methods|), methods, request);
    RequestIsServed(c, upData);
  }

  lemma {:induction false} RequestIsServed(c: Setting, upData: Bytes)
    requires Heard(c).Some?
    ensures DriveServer(c.decode, Header, RequestOf(c.client) + upData)
      == Driven(Reply(SUCCEEDED), Accepted(Target(Heard(c).value, c.client.target.port)), upData)
  {
    var host, port := HostBytes(c.client).value, PortBytes(c.client.target.port);
    var head, length: Bytes := [VERSION, CONNECT, 0, DOMAIN], [|host|];
    hide DriveServer;
    RequestParts(head, length, host, port, upData);
    assert head + length == [VERSION, CONNECT, 0, DOMAIN, |host|];
    AddressIsServed(c.decode, host, Heard(c).value, c.client.target.port, upData);
  }

  lemma {:induction false} AddressIsServed(decode: Bytes -> Option<string>, host: Bytes, name: string, port: int, upData: Bytes)
    requires |host| <= 255 && decode(host) == Some(name) && 0 <= port < 65536
    ensures DriveServer(decode, Header, [VERSION, CONNECT, 0, DOMAIN] + ([|host|] + (host + (PortBytes(port) + upData))))
      == Driven(Reply(SUCCEEDED), Accepted(Target(name, port)), upData)
  {
    hide DriveServer, Reply;
    var end := PortBytes(port) + upData;
    ServerTakes(decode, Header, [VERSION, CONNECT, 0, DOMAIN], [|host|] + (host + end));
    ServerTakes(decode, DomainLength, [|host|], host + end);
    ServerTakes(decode, Domain(|host|), host, end);
    ServerTakes(decode, Port(name), PortBytes(port), upData);
    AddNothing(Reply(SUCCEEDED));
  }

  lemma {:induction false} RequestParts(head: Bytes, length: Bytes, host: Bytes, port: Bytes, rest: Bytes)
    ensures head + length + host + port + rest == head + (length + (host + (port + rest)))
  {
  }

  /** Each side run on its own, on exactly what the other one sends, sends exactly what the other
      one is run on, and leaves the application data alone. */
  lemma {:induction false} EndpointsMeet(c: Setting, upData: Bytes, downData: Bytes)
    requires Deliverable(c)
    ensures DriveClient(c.client, Selecting, Choice + (Reply(SUCCEEDED) + downData))
      == Driven(RequestOf(c.client), Connected, downData)
    ensures DriveServer(c.decode, Greeting, GreetingOf(c.client) + (RequestOf(c.client) + upData))
      == Driven(Choice + Reply(SUCCEEDED), Accepted(c.client.target), upData)
  {
    ClientMeets(c, downData);
    ServerMeets(c, upData);
  }
}
