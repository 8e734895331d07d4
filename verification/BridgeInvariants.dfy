/** What every step of the bridge keeps, whatever the upstream does. */
module BridgeInvariants {
  import opened Basics
  import opened PoolKeys
  import opened Messages
  import opened Pool
  import opened BridgeSystem

  // ---- The discipline of one wire ----

  /** Where a socket stands in its conversation, read off its log alone. */
  datatype Mode =
    | Quiet                  // nothing outstanding
    | InFlight               // a create was sent, no completed message received yet
    | Answered(id: string)   // the completed message was received last
    | Spent                  // a message came that answers nothing: never to be used again
    | Broken

  function NextMode(sendProcessed: bool, mode: Mode, e: WireEvent): Mode {
    match (mode, e)
    case (Quiet, SentCreate(_)) => InFlight
    case (InFlight, Received(m)) => if Terminal(m) then Answered(CompletedId(m).value) else InFlight
    case (Answered(id), SentProcessed(id')) => if sendProcessed && id == id' then Quiet else Broken
    case (Answered(_), SentCreate(_)) => if sendProcessed then Broken else InFlight
    case (Quiet, Received(_)) => Spent
    case (Answered(_), Received(_)) => if sendProcessed then Broken else Spent
    case _ => Broken
  }

  function ModeOf(sendProcessed: bool, log: seq<WireEvent>): Mode {
    if log == [] then Quiet else NextMode(sendProcessed, ModeOf(sendProcessed, Front(log)), Last(log))
  }

  lemma {:induction false} ModeOfSnoc(sendProcessed: bool, log: seq<WireEvent>, e: WireEvent)
    ensures ModeOf(sendProcessed, log + [e]) == NextMode(sendProcessed, ModeOf(sendProcessed, log), e)
  {
    assert Front(log + [e]) == log;
  }

  function Wire(cfg: Config, socket: Socket): Mode {
    ModeOf(cfg.sendProcessed, socket.log)
  }

  /** Ready to carry the next create. */
  predicate Ready(cfg: Config, socket: Socket) {
    var mode := Wire(cfg, socket);
    mode.Quiet? || (!cfg.sendProcessed && mode.Answered?)
  }

  // ---- Tasks ----

  ghost predicate Prefixes<T>(a: seq<T>, b: seq<T>) {
    a <= b || b <= a
  }

  /** What the client was shown is, as far as both go, the backlog followed by the answer, and
      only the last shown message can be terminal. */
  ghost predicate ShownOk(task: Task)
    requires task.RequestTask?
  {
    && Prefixes(task.shown, task.backlog + task.answer)
    && (task.shown != [] ==> NoTerminal(Front(task.shown)) && ValidAnswer(task.answer))
    && forall i :: 0 <= i < |task.shown| ==> task.shown[i].Text?
  }

  ghost predicate AttemptOk(cfg: Config, task: Task)
    requires task.RequestTask?
  {
    && 1 <= task.attempt <= cfg.maxAttempts
    && (task.attempt > 1 ==> CreateRequest(task.req.body).Ok?)
    && (task.phase.Failing? ==> RetriableStatus(task.phase.status))
    && (forall i :: 0 <= i < |task.failures| ==> RetriableStatus(task.failures[i]))
    && if task.phase.Done? && task.phase.outcome.Raised? then
         var status := task.phase.outcome.status;
         && task.phase.outcome.attempts == task.attempt
         && (status == 400 ==> task.attempt == 1 && task.failures == [] && CreateRequest(task.req.body).Err?)
         && (status != 400 ==> task.attempt == cfg.maxAttempts == |task.failures| && Last(task.failures) == status
                               && CreateRequest(task.req.body).Ok?)
       else
         |task.failures| == task.attempt - 1
         && (!task.phase.Starting? ==> CreateRequest(task.req.body).Ok?)
  }

  /** The conversation of a request with the socket it is on: received and still queued messages
      together begin with the backlog and the answer. */
  ghost predicate PhaseOk(cfg: Config, task: Task, sockets: map<SocketId, Socket>)
    requires task.RequestTask?
    requires forall x :: x in Sockets(task) ==> x in sockets
  {
    var expected := task.backlog + task.answer;
    match task.phase
    case Sweeping(Some(x), _) =>
      task.shown == [] && Ready(cfg, sockets[x]) && Key(cfg, sockets[x].opener) == Key(cfg, task.req)
    case SendingCreate(x) =>
      task.shown == [] && Ready(cfg, sockets[x]) && Key(cfg, sockets[x].opener) == Key(cfg, task.req)
    case AwaitingFirst(x) =>
      && task.shown == [] && ValidAnswer(task.answer)
      && Wire(cfg, sockets[x]) == InFlight && Key(cfg, sockets[x].opener) == Key(cfg, task.req)
      && expected <= sockets[x].pending
    case Primed(x, first) =>
      && task.shown == [] && ValidAnswer(task.answer)
      && Wire(cfg, sockets[x]) == NextMode(cfg.sendProcessed, InFlight, Received(first))
      && Key(cfg, sockets[x].opener) == Key(cfg, task.req)
      && expected <= [first] + sockets[x].pending
    case Receiving(x) =>
      && task.shown != [] && NoTerminal(task.shown)
      && Wire(cfg, sockets[x]) == InFlight && Key(cfg, sockets[x].opener) == Key(cfg, task.req)
      && expected <= task.shown + sockets[x].pending
    case Yielding(x) =>
      && task.shown != []
      && Wire(cfg, sockets[x]) == NextMode(cfg.sendProcessed, InFlight, Received(Last(task.shown)))
      && Key(cfg, sockets[x].opener) == Key(cfg, task.req)
      && expected <= task.shown + sockets[x].pending
    case Ending(_) => true
    case Done(Completed) => task.shown != [] && Terminal(Last(task.shown))
    case Done(Cut) => true
    case _ => task.shown == []
  }

  /** Whether the settings let a socket be kept at all. */
  predicate Retains(cfg: Config) {
    cfg.pooled && cfg.maxIdle > 0 && cfg.idleTimeout > 0.0
  }

  ghost predicate WorkOk(cfg: Config, task: Task, sockets: map<SocketId, Socket>)
    requires task.BackgroundTask?
    requires forall x :: x in Sockets(task) ==> x in sockets
  {
    match task.work
    case SendingProcessed(x, id) =>
      cfg.sendProcessed && Wire(cfg, sockets[x]) == Answered(id) && Key(cfg, sockets[x].opener) == task.key
    case Releasing(x) => Ready(cfg, sockets[x]) && Key(cfg, sockets[x].opener) == task.key
    case Draining(x) =>
      Ready(cfg, sockets[x]) && Key(cfg, sockets[x].opener) == task.key && Retains(cfg)
    case Shedding(_) => true
  }

  ghost predicate Owns(s: State, t: TaskId)
    requires t in s.tasks
  {
    && NoDuplicates(Sockets(s.tasks[t]))
    && forall x :: x in Sockets(s.tasks[t]) ==> x in s.sockets && s.sockets[x].owner == Held(t)
  }

  ghost predicate BodyOk(cfg: Config, task: Task, sockets: map<SocketId, Socket>)
    requires forall x :: x in Sockets(task) ==> x in sockets
  {
    && (task.RequestTask? ==> ShownOk(task) && AttemptOk(cfg, task) && PhaseOk(cfg, task, sockets))
    && (task.BackgroundTask? ==> WorkOk(cfg, task, sockets))
  }

  ghost predicate TaskOk(cfg: Config, s: State, t: TaskId)
    requires t in s.tasks
  {
    Owns(s, t) && BodyOk(cfg, s.tasks[t], s.sockets)
  }

  // ---- Sockets ----

  ghost predicate CreatesShareKey(cfg: Config, socket: Socket) {
    forall i :: 0 <= i < |socket.log| && socket.log[i].SentCreate? ==> Key(cfg, socket.log[i].req) == Key(cfg, socket.opener)
  }

  ghost predicate SocketOk(cfg: Config, s: State, x: SocketId)
    requires x in s.sockets
  {
    var socket := s.sockets[x];
    && socket.closes == (if socket.owner.Closed? then 1 else 0)
    && !Wire(cfg, socket).Broken?
    && CreatesShareKey(cfg, socket)
    && match socket.owner
       case Held(t) => t in s.tasks && x in Sockets(s.tasks[t])
       case Pooled(k) => k == Key(cfg, socket.opener) && Ready(cfg, socket) && x in Ids(Bucket(s.idle, k))
       case _ => true
  }

  // ---- The pool ----

  ghost predicate IdleOk(cfg: Config, s: State) {
    && PoolOk(s.idle, cfg.maxIdle, s.clock)
    && forall k :: k in s.idle ==> BucketOwned(s.sockets, k, s.idle[k])
  }

  ghost predicate BucketOwned(sockets: map<SocketId, Socket>, k: PoolKey, bucket: seq<IdleEntry>) {
    && NoDuplicates(Ids(bucket))
    && forall x :: x in Ids(bucket) ==> x in sockets && sockets[x].owner == Pooled(k)
  }

  ghost predicate Inv(cfg: Config, s: State) {
    && (forall t :: t in s.tasks ==> TaskOk(cfg, s, t))
    && (forall x :: x in s.sockets ==> SocketOk(cfg, s, x))
    && IdleOk(cfg, s)
  }

  // ---- Steps that touch only some tasks and sockets ----

  /** Outside the tasks `ts` and the sockets `xs` nothing happened, except that the upstream may
      have queued more. */
  ghost predicate OnlyTouches(s: State, s': State, ts: set<TaskId>, xs: set<SocketId>) {
    && s.sockets.Keys <= s'.sockets.Keys <= s.sockets.Keys + xs
    && s.tasks.Keys <= s'.tasks.Keys <= s.tasks.Keys + ts
    && (forall x :: x in s.sockets && x !in xs ==> s'.sockets[x] == s.sockets[x])
    && (forall t :: t in s.tasks && t !in ts ==> s'.tasks[t] == s.tasks[t])
    && (forall t :: t in ts && t in s.tasks ==> forall x :: x in Sockets(s.tasks[t]) ==> x in xs)
    && (forall x :: x in xs && x in s.sockets && s.sockets[x].owner.Held? ==> s.sockets[x].owner.task in ts)
  }

  /** It is enough to look at what a step touched. */
  lemma {:induction false} TouchedIsEnough(cfg: Config, s: State, s': State, ts: set<TaskId>, xs: set<SocketId>)
    requires Inv(cfg, s) && OnlyTouches(s, s', ts, xs)
    requires forall t :: t in ts && t in s'.tasks ==> TaskOk(cfg, s', t)
    requires forall x :: x in xs && x in s'.sockets ==> SocketOk(cfg, s', x)
    requires forall x :: x in s.sockets && x !in xs && s.sockets[x].owner.Pooled? ==>
      x in Ids(Bucket(s'.idle, s.sockets[x].owner.key))
    requires IdleOk(cfg, s')
    ensures Inv(cfg, s')
  {
    forall t | t in s'.tasks && t !in ts ensures TaskOk(cfg, s', t) {
      assert TaskOk(cfg, s, t);
      UntouchedTask(cfg, s, s', t, xs);
    }
    forall x | x in s'.sockets && x !in xs ensures SocketOk(cfg, s', x) {
      assert SocketOk(cfg, s, x);
      hide TaskOk;
      if s.sockets[x].owner.Held? {
        assert s.sockets[x].owner.task !in ts;
      }
    }
    hide TaskOk, SocketOk, IdleOk;
  }

  lemma {:induction false} UntouchedTask(cfg: Config, s: State, s': State, t: TaskId, xs: set<SocketId>)
    requires t in s.tasks && t in s'.tasks && s'.tasks[t] == s.tasks[t] && TaskOk(cfg, s, t)
    requires forall x :: x in Sockets(s.tasks[t]) && x !in xs ==> x in s'.sockets && s'.sockets[x] == s.sockets[x]
    requires forall x :: x in xs && x in s.sockets && s.sockets[x].owner.Held? ==> s.sockets[x].owner.task != t
    ensures TaskOk(cfg, s', t)
  {
    forall x | x in Sockets(s.tasks[t]) ensures x !in xs {
      assert s.sockets[x].owner == Held(t);
    }
    BodyIgnores(cfg, s.tasks[t], s.sockets, s'.sockets);
    hide BodyOk;
  }

  lemma {:induction false} BodyIgnores(cfg: Config, task: Task, sockets: map<SocketId, Socket>, sockets': map<SocketId, Socket>)
    requires forall x :: x in Sockets(task) ==> x in sockets && x in sockets' && sockets'[x] == sockets[x]
    requires BodyOk(cfg, task, sockets)
    ensures BodyOk(cfg, task, sockets')
  {
  }
}
