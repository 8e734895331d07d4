/** The pooled WebSocket bridge as a step system: request tasks, background tasks and `aclose`
    share the sockets, the pool and an upstream that may do anything. Tasks interleave at every
    `await`; one event is what one task does between two of them. */
module BridgeSystem {
  import opened Basics
  import opened PoolKeys
  import opened Messages
  import opened Pool

  type TaskId = nat

  datatype Config = Config(
    maxAttempts: nat, maxIdle: int, idleTimeout: real,
    sendProcessed: bool, pooled: bool, keying: Keying)

  datatype Request = Request(url: string, headers: seq<Header>, body: Body)

  function Key(cfg: Config, req: Request): PoolKey {
    KeyOf(cfg.keying, req.url, req.headers)
  }

  datatype WireEvent = SentCreate(req: Request) | SentProcessed(id: string) | Received(message: Message)

  /** Who answers for an entered context. `Escaped` is nobody: an exception left it open. */
  datatype Owner = Held(task: TaskId) | Pooled(key: PoolKey) | Closed | Escaped

  /** An entered context. `pending` is what the upstream has queued and nobody has received. */
  datatype Socket = Socket(opener: Request, log: seq<WireEvent>, pending: seq<Message>, owner: Owner, closes: nat)

  datatype Outcome =
    | Completed                              // the generator returned after a completed message
    | Cut                                    // it ended any other way
    | Raised(status: nat, attempts: nat)     // WebSocketBridgeError
    | Lost                                   // an exception the bridge does not handle

  datatype Phase =
    | Starting
    | Sweeping(selected: Option<SocketId>, doomed: seq<SocketId>)  // closing what the checkout found stale
    | Connecting
    | SendingCreate(socket: SocketId)
    | AwaitingFirst(socket: SocketId)
    | Primed(socket: SocketId, first: Message)                     // opened; the generator has not started
    | Receiving(socket: SocketId)
    | Yielding(socket: SocketId)                                   // suspended at the yield of the last shown message
    | Failing(doomed: seq<SocketId>, status: nat)                  // the attempt failed; closing its context
    | Ending(doomed: seq<SocketId>)                                // the generator's `finally`
    | Done(outcome: Outcome)

  datatype BackgroundPhase =
    | SendingProcessed(socket: SocketId, id: string)
    | Releasing(socket: SocketId)
    | Draining(socket: SocketId)
    | Shedding(doomed: seq<SocketId>)

  /** The history of a request: `failures` are the statuses of its failed attempts, `backlog` what
      was already queued when its create was sent, `answer` what the upstream answers to that
      create, and `shown` the messages whose frames its client was given. */
  datatype Task =
    | RequestTask(req: Request, attempt: nat, phase: Phase, failures: seq<nat>,
                  backlog: seq<Message>, answer: seq<Message>, shown: seq<Message>)
    | BackgroundTask(key: PoolKey, work: BackgroundPhase)
    | AcloseTask(closing: seq<SocketId>)

  datatype State = State(sockets: map<SocketId, Socket>, tasks: map<TaskId, Task>, idle: Idle, clock: real)

  function Sockets(task: Task): seq<SocketId> {
    match task
    case RequestTask(_, _, phase, _, _, _, _) => (
      match phase
      case Starting => []
      case Sweeping(selected, doomed) => doomed + (if selected.Some? then [selected.value] else [])
      case Connecting => []
      case SendingCreate(x) => [x]
      case AwaitingFirst(x) => [x]
      case Primed(x, _) => [x]
      case Receiving(x) => [x]
      case Yielding(x) => [x]
      case Failing(doomed, _) => doomed
      case Ending(doomed) => doomed
      case Done(_) => [])
    case BackgroundTask(_, work) => (
      match work
      case SendingProcessed(x, _) => [x]
      case Releasing(x) => [x]
      case Draining(x) => [x]
      case Shedding(doomed) => doomed)
    case AcloseTask(closing) => closing
  }

  /** The contexts that a task is closing, one after the other. */
  function Doomed(task: Task): seq<SocketId> {
    match task
    case RequestTask(_, _, Sweeping(_, doomed), _, _, _, _) => doomed
    case RequestTask(_, _, Failing(doomed, _), _, _, _, _) => doomed
    case RequestTask(_, _, Ending(doomed), _, _, _, _) => doomed
    case BackgroundTask(_, Shedding(doomed)) => doomed
    case AcloseTask(closing) => closing
    case _ => []
  }

  function WithDoomed(task: Task, doomed: seq<SocketId>): Task {
    match task
    case RequestTask(_, _, Sweeping(selected, _), _, _, _, _) => task.(phase := Sweeping(selected, doomed))
    case RequestTask(_, _, Failing(_, status), _, _, _, _) => task.(phase := Failing(doomed, status))
    case RequestTask(_, _, Ending(_), _, _, _, _) => task.(phase := Ending(doomed))
    case BackgroundTask(_, Shedding(_)) => task.(work := Shedding(doomed))
    case AcloseTask(_) => AcloseTask(doomed)
    case _ => task
  }

  /** An upstream answer: finitely many messages, the last one and only that one terminal. */
  ghost predicate ValidAnswer(answer: seq<Message>) {
    answer != [] && Terminal(Last(answer)) && NoTerminal(Front(answer))
  }

  ghost predicate NoTerminal(messages: seq<Message>) {
    forall i :: 0 <= i < |messages| ==> !Terminal(messages[i])
  }

  datatype Event =
    | Spawn(task: TaskId, req: Request)
    | BeginAttempt(task: TaskId, now: real, open: set<SocketId>)
    | CloseOne(task: TaskId)
    | Proceed(task: TaskId)                                  // nothing left to close
    | Connected(task: TaskId, socket: SocketId)
    | ConnectFailed(task: TaskId, status: nat)
    | CreateSent(task: TaskId, answer: seq<Message>)
    | CreateFailed(task: TaskId, status: nat, reply: seq<Message>)
    | FirstReceived(task: TaskId)
    | FirstFailed(task: TaskId, status: nat)
    | FirstEscaped(task: TaskId)                             // recv raised something unexpected
    | StreamStarted(task: TaskId)
    | StreamNeverStarted(task: TaskId)                       // writing the response head failed
    | StreamReceived(task: TaskId)
    | StreamFailed(task: TaskId)                             // timeout, error or cancellation in recv
    | Resumed(task: TaskId, background: TaskId)
    | Aborted(task: TaskId)                                  // the consumer closed the generator
    | ProcessedSent(task: TaskId)
    | ProcessedFailed(task: TaskId)
    | ReleaseEntered(task: TaskId, appearsOpen: bool)
    | DrainTimedOut(task: TaskId, now: real)
    | DrainReceived(task: TaskId)
    | DrainFailed(task: TaskId)
    | Aclose(task: TaskId, order: seq<PoolKey>)
    | UpstreamSpoke(socket: SocketId, message: Message)      // a message that answers no create

  // ---- Building the next state ----

  function SetTask(s: State, t: TaskId, task: Task): State {
    s.(tasks := s.tasks[t := task])
  }

  function SetSocket(s: State, x: SocketId, socket: Socket): State {
    s.(sockets := s.sockets[x := socket])
  }

  function Reown(s: State, xs: seq<SocketId>, owner: Owner): State {
    s.(sockets := map x | x in s.sockets :: if x in xs then s.sockets[x].(owner := owner) else s.sockets[x])
  }

  function Ids(entries: seq<IdleEntry>): (ids: seq<SocketId>)
    ensures |ids| == |entries| && forall i :: 0 <= i < |entries| ==> ids[i] == entries[i].socket
  {
    seq(|entries|, i requires 0 <= i < |entries| => entries[i].socket)
  }

  function Close(s: State, x: SocketId): State
    requires x in s.sockets
  {
    SetSocket(s, x, s.sockets[x].(owner := Closed, closes := s.sockets[x].closes + 1))
  }

  function Give(s: State, x: SocketId, owner: Owner): State
    requires x in s.sockets
  {
    SetSocket(s, x, s.sockets[x].(owner := owner))
  }

  function Send(s: State, x: SocketId, e: WireEvent, reply: seq<Message>): State
    requires x in s.sockets
  {
    SetSocket(s, x, s.sockets[x].(log := s.sockets[x].log + [e], pending := s.sockets[x].pending + reply))
  }

  function Receive(s: State, x: SocketId): State
    requires x in s.sockets && s.sockets[x].pending != []
  {
    var k := s.sockets[x];
    SetSocket(s, x, k.(log := k.log + [Received(k.pending[0])], pending := k.pending[1..]))
  }

  predicate IsRequest(s: State, t: TaskId) {
    t in s.tasks && s.tasks[t].RequestTask?
  }

  predicate IsBackground(s: State, t: TaskId) {
    t in s.tasks && s.tasks[t].BackgroundTask?
  }

  /** The task uses exactly one socket, and it is an entered context. */
  predicate OnSocket(s: State, t: TaskId) {
    t in s.tasks && |Sockets(s.tasks[t])| == 1 && Sockets(s.tasks[t])[0] in s.sockets
  }

  function SocketOf(s: State, t: TaskId): SocketId
    requires OnSocket(s, t)
  {
    Sockets(s.tasks[t])[0]
  }

  predicate HasPending(s: State, t: TaskId) {
    OnSocket(s, t) && s.sockets[SocketOf(s, t)].pending != []
  }

  predicate RetriableStatus(status: nat) {
    status == 502 || status == 504
  }

  /** When an event can happen. Only the upstream, the clock and the scheduler choose; the
      bridge itself never does. */
  ghost predicate Enabled(cfg: Config, s: State, e: Event) {
    match e
    case Spawn(t, _) => t !in s.tasks
    case BeginAttempt(t, now, _) => IsRequest(s, t) && s.tasks[t].phase.Starting? && now >= s.clock
    case CloseOne(t) => t in s.tasks && Doomed(s.tasks[t]) != [] && Doomed(s.tasks[t])[0] in s.sockets
    case Proceed(t) => IsRequest(s, t) && (s.tasks[t].phase.Sweeping? || s.tasks[t].phase.Failing? || s.tasks[t].phase.Ending?) && Doomed(s.tasks[t]) == []
    case Connected(t, x) => IsRequest(s, t) && s.tasks[t].phase.Connecting? && x !in s.sockets
    case ConnectFailed(t, status) => IsRequest(s, t) && s.tasks[t].phase.Connecting? && RetriableStatus(status)
    case CreateSent(t, answer) => IsRequest(s, t) && s.tasks[t].phase.SendingCreate? && OnSocket(s, t) && ValidAnswer(answer)
    case CreateFailed(t, status, _) => IsRequest(s, t) && s.tasks[t].phase.SendingCreate? && OnSocket(s, t) && RetriableStatus(status)
    case FirstReceived(t) => IsRequest(s, t) && s.tasks[t].phase.AwaitingFirst? && HasPending(s, t)
    case FirstFailed(t, status) => IsRequest(s, t) && s.tasks[t].phase.AwaitingFirst? && RetriableStatus(status)
    case FirstEscaped(t) => IsRequest(s, t) && s.tasks[t].phase.AwaitingFirst? && OnSocket(s, t)
    case StreamStarted(t) => IsRequest(s, t) && s.tasks[t].phase.Primed?
    case StreamNeverStarted(t) => IsRequest(s, t) && s.tasks[t].phase.Primed? && OnSocket(s, t)
    case StreamReceived(t) => IsRequest(s, t) && s.tasks[t].phase.Receiving? && HasPending(s, t)
    case StreamFailed(t) => IsRequest(s, t) && s.tasks[t].phase.Receiving?
    case Resumed(t, b) => IsRequest(s, t) && s.tasks[t].phase.Yielding? && OnSocket(s, t) && s.tasks[t].shown != [] && b !in s.tasks
    case Aborted(t) => IsRequest(s, t) && s.tasks[t].phase.Yielding?
    case ProcessedSent(t) => IsBackground(s, t) && s.tasks[t].work.SendingProcessed? && OnSocket(s, t)
    case ProcessedFailed(t) => IsBackground(s, t) && s.tasks[t].work.SendingProcessed?
    case ReleaseEntered(t, _) => IsBackground(s, t) && s.tasks[t].work.Releasing?
    case DrainTimedOut(t, now) =>
      // Nothing is queued when the drain gives up: recv returns a queued message at once.
      IsBackground(s, t) && s.tasks[t].work.Draining? && OnSocket(s, t) && !HasPending(s, t) && now >= s.clock && cfg.maxIdle > 0
    case DrainReceived(t) => IsBackground(s, t) && s.tasks[t].work.Draining? && HasPending(s, t)
    case DrainFailed(t) => IsBackground(s, t) && s.tasks[t].work.Draining?
    case Aclose(t, order) => t !in s.tasks && Enumerates(order, s.idle.Keys)
    case UpstreamSpoke(x, _) => x in s.sockets
  }

  /** One pass of the generator loop body up to its `yield`: decode, then show. */
  function Show(task: Task, x: SocketId, m: Message): Task
    requires task.RequestTask?
  {
    if m.Text? then task.(phase := Yielding(x), shown := task.shown + [m])
    else task.(phase := Ending([x]))
  }

  /** Where a task goes on when it has nothing left to close. */
  function AfterClosing(cfg: Config, task: Task): Task
    requires task.RequestTask? && (task.phase.Sweeping? || task.phase.Failing? || task.phase.Ending?)
  {
    match task.phase
    case Sweeping(selected, _) => task.(phase := if selected.Some? then SendingCreate(selected.value) else Connecting)
    case Failing(_, status) =>
      var failures := task.failures + [status];
      if task.attempt >= cfg.maxAttempts
      then task.(failures := failures, phase := Done(Raised(status, cfg.maxAttempts)))
      else task.(failures := failures, attempt := task.attempt + 1, phase := Starting)
    case Ending(_) => task.(phase := Done(Cut))
  }

  /** The checkout of `open_websocket_bridge`, after the body was turned into a request. */
  function Begin(cfg: Config, s: State, t: TaskId, now: real, open: set<SocketId>): State
    requires IsRequest(s, t)
  {
    var task := s.tasks[t];
    if CreateRequest(task.req.body).Err? then SetTask(s, t, task.(phase := Done(Raised(400, task.attempt))))
    else if !cfg.pooled then SetTask(s, t, task.(phase := Connecting))
    else
      var c := CheckoutFrom(s.idle, Key(cfg, task.req), now, cfg.idleTimeout, open);
      var selected := if c.selected.Some? then Some(c.selected.value.socket) else None;
      var task' := task.(phase := Sweeping(selected, Ids(c.stale)));
      SetTask(Reown(s, Sockets(task'), Held(t)), t, task').(idle := c.idle, clock := now)
  }

  /** `release` after its drain found nothing: into the pool, evictions to be closed. */
  function Park(cfg: Config, s: State, t: TaskId, x: SocketId, now: real): State
    requires IsBackground(s, t) && x in s.sockets && cfg.maxIdle > 0
  {
    var key := s.tasks[t].key;
    var r := ReturnTo(s.idle, IdleEntry(x, key, now, now), cfg.maxIdle);
    var s' := Reown(Give(s, x, Pooled(key)), Ids(r.evicted), Held(t));
    SetTask(s', t, s.tasks[t].(work := Shedding(Ids(r.evicted)))).(idle := r.idle, clock := now)
  }

  function Turn(s: State, t: TaskId, phase: Phase): State
    requires IsRequest(s, t)
  {
    SetTask(s, t, s.tasks[t].(phase := phase))
  }

  function Work(s: State, t: TaskId, work: BackgroundPhase): State
    requires IsBackground(s, t)
  {
    SetTask(s, t, s.tasks[t].(work := work))
  }

  function CloseNext(s: State, t: TaskId): State
    requires t in s.tasks && Doomed(s.tasks[t]) != [] && Doomed(s.tasks[t])[0] in s.sockets
  {
    var doomed := Doomed(s.tasks[t]);
    SetTask(Close(s, doomed[0]), t, WithDoomed(s.tasks[t], doomed[1..]))
  }

  function Connect(s: State, t: TaskId, x: SocketId): State
    requires IsRequest(s, t)
  {
    Turn(SetSocket(s, x, Socket(s.tasks[t].req, [], [], Held(t), 0)), t, SendingCreate(x))
  }

  /** The create reaches the upstream, which settles on its answer. */
  function SendCreate(s: State, t: TaskId, answer: seq<Message>): State
    requires IsRequest(s, t) && OnSocket(s, t)
  {
    var x := SocketOf(s, t);
    SetTask(Send(s, x, SentCreate(s.tasks[t].req), answer), t,
            s.tasks[t].(phase := AwaitingFirst(x), backlog := s.sockets[x].pending, answer := answer))
  }

  function ReceiveFirst(s: State, t: TaskId): State
    requires IsRequest(s, t) && HasPending(s, t)
  {
    var x := SocketOf(s, t);
    Turn(Receive(s, x), t, Primed(x, s.sockets[x].pending[0]))
  }

  function ReceiveNext(s: State, t: TaskId): State
    requires IsRequest(s, t) && HasPending(s, t)
  {
    var x := SocketOf(s, t);
    SetTask(Receive(s, x), t, Show(s.tasks[t], x, s.sockets[x].pending[0]))
  }

  /** An exception leaves the context open with nobody to close it. */
  function LoseSocket(s: State, t: TaskId): State
    requires IsRequest(s, t) && OnSocket(s, t)
  {
    Turn(Give(s, SocketOf(s, t), Escaped), t, Done(Lost))
  }

  /** The completed message was shown: `_schedule_response_processed`, then return. */
  function Schedule(cfg: Config, s: State, t: TaskId, b: TaskId, id: string): State
    requires IsRequest(s, t) && OnSocket(s, t)
  {
    var x := SocketOf(s, t);
    var work := if cfg.sendProcessed then SendingProcessed(x, id) else Releasing(x);
    SetTask(Turn(Give(s, x, Held(b)), t, Done(Completed)), b, BackgroundTask(Key(cfg, s.tasks[t].req), work))
  }

  function Resume(cfg: Config, s: State, t: TaskId, b: TaskId): State
    requires IsRequest(s, t) && OnSocket(s, t) && s.tasks[t].shown != []
  {
    var m := Last(s.tasks[t].shown);
    if Terminal(m) then Schedule(cfg, s, t, b, CompletedId(m).value)
    else Turn(s, t, Receiving(SocketOf(s, t)))
  }

  function SendProcessed(s: State, t: TaskId): State
    requires IsBackground(s, t) && s.tasks[t].work.SendingProcessed? && OnSocket(s, t)
  {
    var x := SocketOf(s, t);
    Work(Send(s, x, SentProcessed(s.tasks[t].work.id), []), t, Releasing(x))
  }

  function EnterRelease(cfg: Config, s: State, t: TaskId, appearsOpen: bool): State
    requires IsBackground(s, t) && s.tasks[t].work.Releasing?
  {
    var x := s.tasks[t].work.socket;
    var keep := cfg.pooled && cfg.maxIdle > 0 && cfg.idleTimeout > 0.0 && appearsOpen;
    Work(s, t, if keep then Draining(x) else Shedding([x]))
  }

  function DrainOne(s: State, t: TaskId): State
    requires IsBackground(s, t) && HasPending(s, t)
  {
    var x := SocketOf(s, t);
    if s.sockets[x].pending[0].Text? then Work(Receive(s, x), t, Shedding([x]))
    else Work(Give(Receive(s, x), x, Escaped), t, Shedding([]))
  }

  function TakeAllIdle(s: State, t: TaskId, order: seq<PoolKey>): State {
    var xs := Ids(Flatten(s.idle, order));
    SetTask(Reown(s, xs, Held(t)), t, AcloseTask(xs)).(idle := map[])
  }

  function Queue(s: State, x: SocketId, messages: seq<Message>): State
    requires x in s.sockets
  {
    SetSocket(s, x, s.sockets[x].(pending := s.sockets[x].pending + messages))
  }

  function Next(cfg: Config, s: State, e: Event): State
    requires Enabled(cfg, s, e)
  {
    match e
    case Spawn(t, req) => SetTask(s, t, RequestTask(req, 1, Starting, [], [], [], []))
    case BeginAttempt(t, now, open) => Begin(cfg, s, t, now, open)
    case CloseOne(t) => CloseNext(s, t)
    case Proceed(t) => SetTask(s, t, AfterClosing(cfg, s.tasks[t]))
    case Connected(t, x) => Connect(s, t, x)
    case ConnectFailed(t, status) => Turn(s, t, Failing([], status))
    case CreateSent(t, answer) => SendCreate(s, t, answer)
    case CreateFailed(t, status, reply) => Turn(Queue(s, SocketOf(s, t), reply), t, Failing(Sockets(s.tasks[t]), status))
    case FirstReceived(t) => ReceiveFirst(s, t)
    case FirstFailed(t, status) => Turn(s, t, Failing(Sockets(s.tasks[t]), status))
    case FirstEscaped(t) => LoseSocket(s, t)
    case StreamStarted(t) => SetTask(s, t, Show(s.tasks[t], s.tasks[t].phase.socket, s.tasks[t].phase.first))
    case StreamNeverStarted(t) => LoseSocket(s, t)
    case StreamReceived(t) => ReceiveNext(s, t)
    case StreamFailed(t) => Turn(s, t, Ending(Sockets(s.tasks[t])))
    case Resumed(t, b) => Resume(cfg, s, t, b)
    case Aborted(t) => Turn(s, t, Ending(Sockets(s.tasks[t])))
    case ProcessedSent(t) => SendProcessed(s, t)
    case ProcessedFailed(t) => Work(s, t, Shedding(Sockets(s.tasks[t])))
    case ReleaseEntered(t, appearsOpen) => EnterRelease(cfg, s, t, appearsOpen)
    case DrainTimedOut(t, now) => Park(cfg, s, t, SocketOf(s, t), now)
    case DrainReceived(t) => DrainOne(s, t)
    case DrainFailed(t) => Work(s, t, Shedding(Sockets(s.tasks[t])))
    case Aclose(t, order) => TakeAllIdle(s, t, order)
    case UpstreamSpoke(x, m) => Queue(s, x, [m])
  }

  const Initial := State(map[], map[], map[], 0.0)

  ghost predicate IsRun(cfg: Config, s: State, events: seq<Event>)
    decreases |events|
  {
    events == [] || (Enabled(cfg, s, events[0]) && IsRun(cfg, Next(cfg, s, events[0]), events[1..]))
  }

  ghost function EndOf(cfg: Config, s: State, events: seq<Event>): State
    requires IsRun(cfg, s, events)
    decreases |events|
  {
    if events == [] then s else EndOf(cfg, Next(cfg, s, events[0]), events[1..])
  }

  lemma {:induction false} RunCons(cfg: Config, s: State, e: Event, rest: seq<Event>)
    requires Enabled(cfg, s, e) && IsRun(cfg, Next(cfg, s, e), rest)
    ensures IsRun(cfg, s, [e] + rest) && EndOf(cfg, s, [e] + rest) == EndOf(cfg, Next(cfg, s, e), rest)
  {
    assert ([e] + rest)[1..] == rest;
  }

  ghost predicate Leads(cfg: Config, s: State, events: seq<Event>, s': State) {
    IsRun(cfg, s, events) && EndOf(cfg, s, events) == s'
  }

  lemma {:induction false} LeadsByOne(cfg: Config, s: State, e: Event)
    requires Enabled(cfg, s, e)
    ensures Leads(cfg, s, [e], Next(cfg, s, e))
  {
    hide Enabled, Next;
    RunCons(cfg, s, e, []);
    AddNothing([e]);
  }

  lemma {:induction false} LeadsOn(cfg: Config, s: State, a: seq<Event>, s': State, b: seq<Event>, s'': State)
    requires Leads(cfg, s, a, s') && Leads(cfg, s', b, s'')
    ensures Leads(cfg, s, a + b, s'')
    decreases |a|
  {
    hide Enabled, Next;
    if a == [] {
      assert a + b == b;
    } else {
      LeadsOn(cfg, Next(cfg, s, a[0]), a[1..], s', b, s'');
      assert (a + b)[0] == a[0] && (a + b)[1..] == a[1..] + b;
    }
  }
}
