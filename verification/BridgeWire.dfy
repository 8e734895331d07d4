/** What travels on one socket over its whole life, and for whom. */
module BridgeWire {
  import opened Basics
  import opened PoolKeys
  import opened Messages
  import opened Pool
  import opened BridgeSystem
  import opened BridgeInvariants
  import opened BridgeRuns

  // ---- Wire discipline ----

  function Sends(log: seq<WireEvent>): seq<WireEvent> {
    if log == [] then []
    else Sends(Front(log)) + if Last(log).Received? then [] else [Last(log)]
  }

  /** The sends alternate: create, processed, create, processed, ... */
  ghost predicate Alternates(sends: seq<WireEvent>) {
    forall i :: 0 <= i < |sends| ==> if i % 2 == 0 then sends[i].SentCreate? else sends[i].SentProcessed?
  }

  lemma {:induction false} UnbrokenAlternates(log: seq<WireEvent>)
    requires !ModeOf(true, log).Broken?
    ensures Alternates(Sends(log))
    ensures |Sends(log)| % 2 == if ModeOf(true, log).InFlight? || ModeOf(true, log).Answered? then 1 else 0
  {
    if log != [] {
      UnbrokenAlternates(Front(log));
    }
  }

  lemma {:induction false} UnbrokenPrefix(sendProcessed: bool, log: seq<WireEvent>, n: nat)
    requires n <= |log| && !ModeOf(sendProcessed, log).Broken?
    ensures !ModeOf(sendProcessed, log[..n]).Broken?
    decreases |log|
  {
    if n == |log| {
      assert log[..n] == log;
    } else {
      UnbrokenPrefix(sendProcessed, Front(log), n);
      assert Front(log)[..n] == log[..n];
    }
  }

  /** The event just before a `response.processed` is the receipt of the completed message whose
      id it names; the event just before a later `response.create` is the end of the previous
      exchange. */
  ghost predicate FollowsItsCause(sendProcessed: bool, log: seq<WireEvent>, j: int)
    requires 0 <= j < |log|
  {
    match log[j]
    case SentProcessed(id) =>
      && sendProcessed && j > 0 && log[j - 1].Received?
      && id != "" && Completes(log[j - 1].message, id)
    case SentCreate(_) =>
      j > 0 ==> if sendProcessed then log[j - 1].SentProcessed?
                else log[j - 1].Received? && EndsStream(log[j - 1].message)
    case Received(_) => true
  }

  lemma {:induction false} UnbrokenFollowsItsCause(sendProcessed: bool, log: seq<WireEvent>, j: int)
    requires 0 <= j < |log| && !ModeOf(sendProcessed, log).Broken?
    ensures FollowsItsCause(sendProcessed, log, j)
  {
    UnbrokenPrefix(sendProcessed, log, j + 1);
    assert Front(log[..j + 1]) == log[..j];
    if j > 0 {
      assert Front(log[..j]) == log[..j - 1] && Last(log[..j]) == log[j - 1];
      if log[j - 1].Received? {
        TerminalExactly(log[j - 1].message);
        if log[j].SentProcessed? && log[j - 1].message.Text? {
          CompletedIdExactly(log[j - 1].message, log[j].id);
        }
      }
    } else {
      assert log[..j] == [];
    }
  }

  /** Wire discipline of every socket in every reachable state, closed ones included. */
  lemma {:induction false} WireDiscipline(cfg: Config, s: State, x: SocketId)
    requires cfg.maxAttempts >= 1 && Reachable(cfg, s) && x in s.sockets
    ensures cfg.sendProcessed ==> Alternates(Sends(s.sockets[x].log))
    ensures forall j :: 0 <= j < |s.sockets[x].log| ==> FollowsItsCause(cfg.sendProcessed, s.sockets[x].log, j)
  {
    ReachableIsGood(cfg, s);
    assert SocketOk(cfg, s, x);
    forall j | 0 <= j < |s.sockets[x].log| ensures FollowsItsCause(cfg.sendProcessed, s.sockets[x].log, j) {
      UnbrokenFollowsItsCause(cfg.sendProcessed, s.sockets[x].log, j);
    }
    if cfg.sendProcessed {
      UnbrokenAlternates(s.sockets[x].log);
    }
  }

  /** Only a socket whose last exchange ended properly is ever pooled: aborted, timed-out and
      surprised sockets never are. */
  lemma {:induction false} PooledSocketsEndedProperly(cfg: Config, s: State, k: PoolKey, x: SocketId)
    requires cfg.maxAttempts >= 1 && Reachable(cfg, s) && x in Ids(Bucket(s.idle, k))
    ensures x in s.sockets
    ensures var log := s.sockets[x].log;
      log != [] ==> if cfg.sendProcessed then Last(log).SentProcessed? else Last(log).Received? && EndsStream(Last(log).message)
  {
    ReachableIsGood(cfg, s);
    assert BucketOwned(s.sockets, k, s.idle[k]);
    assert SocketOk(cfg, s, x);
    var log := s.sockets[x].log;
    if log != [] && Last(log).Received? {
      TerminalExactly(Last(log).message);
    }
  }

  // ---- Identity isolation ----

  ghost predicate SameIdentity(k: Keying, a: Request, b: Request) {
    && a.url == b.url
    && forall name, value :: NamesIdentity(k, name) ==> Carried(a.headers, name, value) == Carried(b.headers, name, value)
  }

  /** Everything a socket ever carries is for one identity, that of the request that opened it:
      the creates it sent, the request it serves now, and the bucket it waits in. */
  lemma {:induction false} IdentityIsolation(cfg: Config, s: State, x: SocketId)
    requires cfg.maxAttempts >= 1 && Reachable(cfg, s) && x in s.sockets && CollisionFree(cfg.keying.digest)
    ensures forall j :: 0 <= j < |s.sockets[x].log| && s.sockets[x].log[j].SentCreate? ==>
      SameIdentity(cfg.keying, s.sockets[x].log[j].req, s.sockets[x].opener)
    ensures forall t :: IsRequest(s, t) && Serving(s.tasks[t].phase) == Some(x) ==>
      SameIdentity(cfg.keying, s.tasks[t].req, s.sockets[x].opener)
    ensures forall k :: x in Ids(Bucket(s.idle, k)) ==> k == Key(cfg, s.sockets[x].opener)
  {
    ReachableIsGood(cfg, s);
    var socket := s.sockets[x];
    assert SocketOk(cfg, s, x);
    forall j | 0 <= j < |socket.log| && socket.log[j].SentCreate?
      ensures SameIdentity(cfg.keying, socket.log[j].req, socket.opener)
    {
      SameKeySameIdentity(cfg, socket.log[j].req, socket.opener);
    }
    forall t | IsRequest(s, t) && Serving(s.tasks[t].phase) == Some(x)
      ensures SameIdentity(cfg.keying, s.tasks[t].req, socket.opener)
    {
      assert TaskOk(cfg, s, t);
      SameKeySameIdentity(cfg, s.tasks[t].req, socket.opener);
    }
    forall k | x in Ids(Bucket(s.idle, k)) ensures k == Key(cfg, socket.opener) {
      assert BucketOwned(s.sockets, k, s.idle[k]);
    }
  }

  /** The socket on which a request sends or receives, or is about to. */
  function Serving(phase: Phase): Option<SocketId> {
    match phase
    case Sweeping(selected, _) => selected
    case SendingCreate(x) => Some(x)
    case AwaitingFirst(x) => Some(x)
    case Primed(x, _) => Some(x)
    case Receiving(x) => Some(x)
    case Yielding(x) => Some(x)
    case _ => None
  }

  lemma {:induction false} SameKeySameIdentity(cfg: Config, a: Request, b: Request)
    requires CollisionFree(cfg.keying.digest) && Key(cfg, a) == Key(cfg, b)
    ensures SameIdentity(cfg.keying, a, b)
  {
    KeyIsCanonicalList(cfg.keying, a.url, a.headers, b.url, b.headers);
    IdentityHeadersExactly(cfg.keying, a.headers, b.headers);
    hide KeyOf, NamesIdentity, Carried;
  }

  // ---- Attempts ----

  /** The attempts a request reports: success at attempt n follows exactly n - 1 failed ones, each
      502 or 504; a request is refused with 400 only at attempt 1, for its body alone; otherwise
      it is refused with the status of its last failure once every attempt has failed. */
  lemma {:induction false} AttemptsAreHonest(cfg: Config, s: State, t: TaskId)
    requires cfg.maxAttempts >= 1 && Reachable(cfg, s) && IsRequest(s, t)
    ensures var task := s.tasks[t];
      && 1 <= task.attempt <= cfg.maxAttempts
      && (forall i :: 0 <= i < |task.failures| ==> task.failures[i] == 502 || task.failures[i] == 504)
      && match task.phase
         case Done(Raised(status, attempts)) =>
           && (status == 400 <==> CreateRequest(task.req.body).Err?)
           && (status == 400 ==> attempts == 1 && task.failures == [])
           && (status != 400 ==> attempts == cfg.maxAttempts == |task.failures| && status == Last(task.failures))
         case _ => |task.failures| == task.attempt - 1
  {
    ReachableIsGood(cfg, s);
    assert TaskOk(cfg, s, t);
  }

  /** Refusing a bad body touches neither the pool nor any socket. */
  lemma {:induction false} RefusalTouchesNothing(cfg: Config, s: State, t: TaskId, now: real, open: set<SocketId>)
    requires Enabled(cfg, s, BeginAttempt(t, now, open)) && CreateRequest(s.tasks[t].req.body).Err?
    ensures var s' := Next(cfg, s, BeginAttempt(t, now, open));
      s'.sockets == s.sockets && s'.idle == s.idle && s'.tasks[t].phase.Done?
  {
  }
}
