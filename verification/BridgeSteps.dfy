/** Every event keeps the invariant. */
module BridgeSteps {
  import opened Basics
  import opened Messages
  import opened Pool
  import opened BridgeSystem
  import opened BridgeInvariants

  // ---- Shapes of steps ----

  /** A task goes on without its sockets changing. */
  lemma {:induction false} TaskGoesOn(cfg: Config, s: State, t: TaskId, task: Task)
    requires Inv(cfg, s)
    requires Sockets(task) == if t in s.tasks then Sockets(s.tasks[t]) else []
    requires forall x :: x in Sockets(task) ==> x in s.sockets
    requires BodyOk(cfg, task, s.sockets)
    ensures Inv(cfg, SetTask(s, t, task))
  {
    var s' := SetTask(s, t, task);
    var xs := set x | x in Sockets(task);
    HoldersAreIn(cfg, s, t);
    PooledStays(cfg, s);
    assert IdleOk(cfg, s);
    assert forall x :: x in xs ==> SocketOk(cfg, s, x);
    assert t in s.tasks ==> Owns(s, t) by { if t in s.tasks { GoodTask(cfg, s, t); } }
    hide Inv, BodyOk, IdleOk, Bucket, SocketOk;
    SameIdle(cfg, s, s');
    forall x | x in xs ensures x in s'.sockets && SocketOk(cfg, s', x) {
      KeptOk(cfg, s, s', t, x);
    }
    GoesOnFrame(s, t, task);
    assert TaskOk(cfg, s', t);
    hide TaskOk, OnlyTouches;
    TouchedIsEnough(cfg, s, s', {t}, xs);
  }

  lemma {:induction false} SameIdle(cfg: Config, s: State, s': State)
    requires IdleOk(cfg, s) && s'.sockets == s.sockets && s'.idle == s.idle && s'.clock == s.clock
    ensures IdleOk(cfg, s')
  {
  }

  lemma {:induction false} GoesOnFrame(s: State, t: TaskId, task: Task)
    requires Sockets(task) == if t in s.tasks then Sockets(s.tasks[t]) else []
    requires forall x :: x in s.sockets && s.sockets[x].owner == Held(t) ==> t in s.tasks && x in Sockets(s.tasks[t])
    requires forall x :: x in Sockets(task) ==> x in s.sockets && s.sockets[x].owner == Held(t)
    ensures OnlyTouches(s, SetTask(s, t, task), {t}, set x | x in Sockets(task))
  {
    hide Sockets;
  }

  /** A socket that a task is said to hold is listed by that task. */
  lemma {:induction false} HoldersAreIn(cfg: Config, s: State, t: TaskId)
    requires Inv(cfg, s)
    ensures forall x :: x in s.sockets && s.sockets[x].owner == Held(t) ==> t in s.tasks && x in Sockets(s.tasks[t])
  {
    forall x | x in s.sockets && s.sockets[x].owner == Held(t) ensures t in s.tasks && x in Sockets(s.tasks[t]) {
      assert SocketOk(cfg, s, x);
    }
  }

  lemma {:induction false} PooledStays(cfg: Config, s: State)
    requires Inv(cfg, s)
    ensures forall x :: x in s.sockets && s.sockets[x].owner.Pooled? ==> x in Ids(Bucket(s.idle, s.sockets[x].owner.key))
  {
    forall x | x in s.sockets && s.sockets[x].owner.Pooled? ensures x in Ids(Bucket(s.idle, s.sockets[x].owner.key)) {
      assert SocketOk(cfg, s, x);
    }
  }

  /** A task sends or receives on the one socket it holds. */
  lemma {:induction false} TaskConverses(cfg: Config, s: State, t: TaskId, x: SocketId, socket: Socket, task: Task)
    requires Inv(cfg, s)
    requires t in s.tasks && Sockets(s.tasks[t]) == Sockets(task) == [x] && x in s.sockets
    requires socket == s.sockets[x].(log := socket.log, pending := socket.pending)
    requires !Wire(cfg, socket).Broken? && CreatesShareKey(cfg, socket)
    requires BodyOk(cfg, task, s.sockets[x := socket])
    ensures Inv(cfg, SetTask(SetSocket(s, x, socket), t, task))
  {
    var s' := SetTask(SetSocket(s, x, socket), t, task);
    assert OnSocket(s, t);
    GoodTask(cfg, s, t);
    GoodSocket(cfg, s, t);
    PooledStays(cfg, s);
    BucketsIgnore(cfg, s, s', {x});
    hide Inv, BodyOk, IdleOk, Bucket, Wire, CreatesShareKey;
    assert x in Sockets(s'.tasks[t]) && s'.sockets[x] == socket;
    ConversingOk(cfg, s', x, t);
    ConversesFrame(s, t, x, socket, task);
    assert TaskOk(cfg, s', t);
    hide TaskOk, OnlyTouches, SocketOk;
    TouchedIsEnough(cfg, s, s', {t}, {x});
  }

  /** Buckets stay owned when sockets outside the pool change. */
  lemma {:induction false} ConversingOk(cfg: Config, s: State, x: SocketId, t: TaskId)
    requires x in s.sockets && !Wire(cfg, s.sockets[x]).Broken? && CreatesShareKey(cfg, s.sockets[x])
    requires s.sockets[x].owner == Held(t) && s.sockets[x].closes == 0 && t in s.tasks && x in Sockets(s.tasks[t])
    ensures SocketOk(cfg, s, x)
  {
  }

  lemma {:induction false} ConversesFrame(s: State, t: TaskId, x: SocketId, socket: Socket, task: Task)
    requires t in s.tasks && Sockets(s.tasks[t]) == [x] && x in s.sockets && s.sockets[x].owner == Held(t)
    ensures OnlyTouches(s, SetTask(SetSocket(s, x, socket), t, task), {t}, {x})
  {
    hide Sockets;
  }

  lemma {:induction false} BucketsIgnore(cfg: Config, s: State, s': State, xs: set<SocketId>)
    requires Inv(cfg, s) && s'.idle == s.idle && s'.clock == s.clock
    requires s.sockets.Keys <= s'.sockets.Keys
    requires forall x :: x in xs && x in s.sockets ==> !s.sockets[x].owner.Pooled?
    requires forall x :: x in s.sockets && x !in xs ==> s'.sockets[x].owner == s.sockets[x].owner
    ensures IdleOk(cfg, s')
  {
    forall k | k in s'.idle ensures BucketOwned(s'.sockets, k, s'.idle[k]) {
      assert BucketOwned(s.sockets, k, s.idle[k]);
    }
  }

  lemma {:induction false} OwnersInTasks(cfg: Config, s: State, t: TaskId)
    requires Inv(cfg, s) && t in s.tasks
    ensures forall x :: x in s.sockets && s.sockets[x].owner == Held(t) <==> x in Sockets(s.tasks[t])
  {
    assert TaskOk(cfg, s, t);
    forall x | x in s.sockets && s.sockets[x].owner == Held(t) ensures x in Sockets(s.tasks[t]) {
      assert SocketOk(cfg, s, x);
    }
  }

  lemma {:induction false} RestIsDistinct(all: seq<SocketId>, rest: seq<SocketId>)
    requires NoDuplicates(all) && all != [] && rest == all[1..]
    ensures NoDuplicates(rest) && all[0] !in rest
    ensures forall x :: x in all <==> x == all[0] || x in rest
  {
    assert all == [all[0]] + rest;
    forall i | 0 <= i < |rest| ensures rest[i] != all[0] {
      assert rest[i] == all[i + 1];
    }
  }

  lemma {:induction false} OwnSocketsOk(cfg: Config, s: State, t: TaskId)
    requires Inv(cfg, s) && t in s.tasks
    ensures forall x :: x in Sockets(s.tasks[t]) ==> x in s.sockets && SocketOk(cfg, s, x)
  {
    GoodTask(cfg, s, t);
    hide SocketOk, BodyOk;
  }

  /** A task gives up its first socket, which it closes or loses. */
  lemma {:induction false} TaskDrops(cfg: Config, s: State, t: TaskId, x: SocketId, socket: Socket, task: Task)
    requires Inv(cfg, s)
    requires t in s.tasks && Sockets(s.tasks[t]) != [] && x == Sockets(s.tasks[t])[0]
    requires Sockets(task) == Sockets(s.tasks[t])[1..]
    requires x in s.sockets && socket.opener == s.sockets[x].opener
    requires !Wire(cfg, socket).Broken? && CreatesShareKey(cfg, socket)
    requires (socket.owner == Closed && socket.closes == 1) || (socket.owner == Escaped && socket.closes == 0)
    requires forall y :: y in Sockets(task) ==> y in s.sockets
    requires BodyOk(cfg, task, s.sockets)
    ensures Inv(cfg, SetTask(SetSocket(s, x, socket), t, task))
  {
    var s' := s.(sockets := s.sockets[x := socket], tasks := s.tasks[t := task]);
    assert s' == SetTask(SetSocket(s, x, socket), t, task);
    var xs := set y | y in Sockets(s.tasks[t]);
    hide Inv, BodyOk, SocketOk, IdleOk, Bucket, Wire, CreatesShareKey, SetTask, SetSocket, OnlyTouches;
    GoodTask(cfg, s, t);
    OwnSocketsOk(cfg, s, t);
    PooledStays(cfg, s);
    BucketsIgnore(cfg, s, s', {x});
    RestIsDistinct(Sockets(s.tasks[t]), Sockets(task));
    DropTouches(s, s', t, x, socket, task);
    BodyIgnores(cfg, task, s.sockets, s'.sockets);
    forall y | y in xs ensures SocketOk(cfg, s', y) {
      if y == x { DroppedOk(cfg, s', x); } else { KeptOk(cfg, s, s', t, y); }
    }
    assert Owns(s', t);
    assert TaskOk(cfg, s', t);
    hide TaskOk, NoDuplicates;
    TouchedIsEnough(cfg, s, s', {t}, xs);
  }

  lemma {:induction false} DropTouches(s: State, s': State, t: TaskId, x: SocketId, socket: Socket, task: Task)
    requires t in s.tasks && Owns(s, t) && x in Sockets(s.tasks[t])
    requires s' == s.(sockets := s.sockets[x := socket], tasks := s.tasks[t := task])
    ensures OnlyTouches(s, s', {t}, set y | y in Sockets(s.tasks[t]))
  {
  }

  lemma {:induction false} DroppedOk(cfg: Config, s: State, x: SocketId)
    requires x in s.sockets && !Wire(cfg, s.sockets[x]).Broken? && CreatesShareKey(cfg, s.sockets[x])
    requires s.sockets[x].owner.Closed? || s.sockets[x].owner.Escaped?
    requires s.sockets[x].closes == if s.sockets[x].owner.Closed? then 1 else 0
    ensures SocketOk(cfg, s, x)
  {
  }

  lemma {:induction false} KeptOk(cfg: Config, s: State, s': State, t: TaskId, x: SocketId)
    requires x in s.sockets && SocketOk(cfg, s, x) && s.sockets[x].owner == Held(t)
    requires x in s'.sockets && s'.sockets[x] == s.sockets[x] && t in s'.tasks && x in Sockets(s'.tasks[t])
    ensures SocketOk(cfg, s', x)
  {
  }

  // ---- One lemma for each kind of event ----

  lemma {:induction false} PrefixOfBoth<T>(a: seq<T>, b: seq<T>, c: seq<T>)
    requires a <= c && b <= c
    ensures Prefixes(a, b)
  {
  }

  /** Showing the next message keeps what is known about a stream. */
  lemma {:induction false} ShowKeeps(cfg: Config, task: Task, x: SocketId, m: Message, sockets: map<SocketId, Socket>)
    requires task.RequestTask? && x in sockets && AttemptOk(cfg, task) && CreateRequest(task.req.body).Ok?
    requires !task.phase.Done? && !task.phase.Starting?
    requires NoTerminal(task.shown) && ValidAnswer(task.answer)
    requires forall i :: 0 <= i < |task.shown| ==> task.shown[i].Text?
    requires task.backlog + task.answer <= task.shown + [m] + sockets[x].pending
    requires Prefixes(task.shown, task.backlog + task.answer)
    requires Wire(cfg, sockets[x]) == NextMode(cfg.sendProcessed, InFlight, Received(m))
    requires Key(cfg, sockets[x].opener) == Key(cfg, task.req)
    ensures BodyOk(cfg, Show(task, x, m), sockets)
  {
    if m.Text? {
      var shown := task.shown + [m];
      assert Front(shown) == task.shown;
      PrefixOfBoth(shown, task.backlog + task.answer, shown + sockets[x].pending);
    }
  }

  lemma {:induction false} GoodTask(cfg: Config, s: State, t: TaskId)
    requires Inv(cfg, s) && t in s.tasks
    ensures Owns(s, t) && BodyOk(cfg, s.tasks[t], s.sockets)
  {
    assert TaskOk(cfg, s, t);
    hide BodyOk;
  }

  lemma {:induction false} GoodSocket(cfg: Config, s: State, t: TaskId)
    requires Inv(cfg, s) && OnSocket(s, t)
    ensures var socket := s.sockets[SocketOf(s, t)];
      !Wire(cfg, socket).Broken? && CreatesShareKey(cfg, socket) && socket.owner == Held(t) && socket.closes == 0
  {
    assert TaskOk(cfg, s, t) && SocketOf(s, t) in Sockets(s.tasks[t]);
    assert SocketOk(cfg, s, SocketOf(s, t));
    hide BodyOk, Wire, CreatesShareKey;
  }

  lemma {:induction false} ProceedBody(cfg: Config, task: Task, sockets: map<SocketId, Socket>)
    requires task.RequestTask? && (task.phase.Sweeping? || task.phase.Failing? || task.phase.Ending?) && Doomed(task) == []
    requires (forall x :: x in Sockets(task) ==> x in sockets) && BodyOk(cfg, task, sockets)
    ensures Sockets(AfterClosing(cfg, task)) == Sockets(task) && BodyOk(cfg, AfterClosing(cfg, task), sockets)
  {
    hide Wire, Key;
  }

  lemma {:induction false} ProceedKeeps(cfg: Config, s: State, t: TaskId)
    requires Inv(cfg, s) && IsRequest(s, t)
    requires (s.tasks[t].phase.Sweeping? || s.tasks[t].phase.Failing? || s.tasks[t].phase.Ending?) && Doomed(s.tasks[t]) == []
    ensures Inv(cfg, SetTask(s, t, AfterClosing(cfg, s.tasks[t])))
  {
    GoodTask(cfg, s, t);
    hide Inv, BodyOk, AfterClosing;
    ProceedBody(cfg, s.tasks[t], s.sockets);
    TaskGoesOn(cfg, s, t, AfterClosing(cfg, s.tasks[t]));
  }

  lemma {:induction false} FailureBody(cfg: Config, task: Task, sockets: map<SocketId, Socket>, status: nat)
    requires task.RequestTask? && RetriableStatus(status) && (task.phase.Connecting? || task.phase.AwaitingFirst?)
    requires (forall x :: x in Sockets(task) ==> x in sockets) && BodyOk(cfg, task, sockets)
    ensures BodyOk(cfg, task.(phase := Failing(Sockets(task), status)), sockets)
  {
    hide Wire, Key;
  }

  lemma {:induction false} FailureKeeps(cfg: Config, s: State, t: TaskId, status: nat)
    requires Inv(cfg, s) && IsRequest(s, t) && RetriableStatus(status)
    requires s.tasks[t].phase.Connecting? || s.tasks[t].phase.AwaitingFirst?
    ensures Inv(cfg, Turn(s, t, Failing(Sockets(s.tasks[t]), status)))
  {
    GoodTask(cfg, s, t);
    hide Inv, BodyOk, RetriableStatus;
    FailureBody(cfg, s.tasks[t], s.sockets, status);
    TaskGoesOn(cfg, s, t, s.tasks[t].(phase := Failing(Sockets(s.tasks[t]), status)));
  }

  lemma {:induction false} StreamEndBody(cfg: Config, task: Task, sockets: map<SocketId, Socket>)
    requires task.RequestTask? && (task.phase.Receiving? || task.phase.Yielding?)
    requires (forall x :: x in Sockets(task) ==> x in sockets) && BodyOk(cfg, task, sockets)
    ensures BodyOk(cfg, task.(phase := Ending(Sockets(task))), sockets)
  {
    hide Wire, Key;
  }

  lemma {:induction false} StreamEndKeeps(cfg: Config, s: State, t: TaskId)
    requires Inv(cfg, s) && IsRequest(s, t) && (s.tasks[t].phase.Receiving? || s.tasks[t].phase.Yielding?)
    ensures Inv(cfg, Turn(s, t, Ending(Sockets(s.tasks[t]))))
  {
    GoodTask(cfg, s, t);
    hide Inv, BodyOk;
    StreamEndBody(cfg, s.tasks[t], s.sockets);
    TaskGoesOn(cfg, s, t, s.tasks[t].(phase := Ending(Sockets(s.tasks[t]))));
  }

  lemma {:induction false} ShedKeeps(cfg: Config, s: State, t: TaskId)
    requires Inv(cfg, s) && IsBackground(s, t)
    ensures Inv(cfg, Work(s, t, Shedding(Sockets(s.tasks[t]))))
  {
    assert TaskOk(cfg, s, t);
    TaskGoesOn(cfg, s, t, s.tasks[t].(work := Shedding(Sockets(s.tasks[t]))));
  }

  lemma {:induction false} EnterReleaseKeeps(cfg: Config, s: State, t: TaskId, appearsOpen: bool)
    requires Inv(cfg, s) && IsBackground(s, t) && s.tasks[t].work.Releasing?
    ensures Inv(cfg, EnterRelease(cfg, s, t, appearsOpen))
  {
    assert TaskOk(cfg, s, t);
    TaskGoesOn(cfg, s, t, EnterRelease(cfg, s, t, appearsOpen).tasks[t]);
  }

  lemma {:induction false} StreamStartedBody(cfg: Config, task: Task, sockets: map<SocketId, Socket>)
    requires task.RequestTask? && task.phase.Primed?
    requires (forall x :: x in Sockets(task) ==> x in sockets) && BodyOk(cfg, task, sockets)
    ensures BodyOk(cfg, Show(task, task.phase.socket, task.phase.first), sockets)
  {
    assert task.phase.socket in Sockets(task);
    ShowKeeps(cfg, task, task.phase.socket, task.phase.first, sockets);
    hide Show;
  }

  lemma {:induction false} StreamStartedKeeps(cfg: Config, s: State, t: TaskId)
    requires Inv(cfg, s) && IsRequest(s, t) && s.tasks[t].phase.Primed?
    ensures Inv(cfg, SetTask(s, t, Show(s.tasks[t], s.tasks[t].phase.socket, s.tasks[t].phase.first)))
  {
    var task := s.tasks[t];
    GoodTask(cfg, s, t);
    hide Inv, BodyOk;
    StreamStartedBody(cfg, task, s.sockets);
    TaskGoesOn(cfg, s, t, Show(task, task.phase.socket, task.phase.first));
  }

  lemma {:induction false} SendCreateBody(
    cfg: Config, task: Task, x: SocketId, sockets: map<SocketId, Socket>, socket: Socket, answer: seq<Message>)
    requires task.RequestTask? && task.phase == SendingCreate(x) && ValidAnswer(answer) && x in sockets
    requires BodyOk(cfg, task, sockets) && CreatesShareKey(cfg, sockets[x])
    requires socket == sockets[x].(log := sockets[x].log + [SentCreate(task.req)], pending := sockets[x].pending + answer)
    ensures !Wire(cfg, socket).Broken? && CreatesShareKey(cfg, socket)
    ensures BodyOk(cfg, task.(phase := AwaitingFirst(x), backlog := sockets[x].pending, answer := answer), sockets[x := socket])
  {
    ModeOfSnoc(cfg.sendProcessed, sockets[x].log, SentCreate(task.req));
    hide ModeOf, ValidAnswer, CreateRequest;
  }

  lemma {:induction false} SendCreateKeeps(cfg: Config, s: State, t: TaskId, answer: seq<Message>)
    requires Inv(cfg, s) && IsRequest(s, t) && s.tasks[t].phase.SendingCreate? && OnSocket(s, t) && ValidAnswer(answer)
    ensures Inv(cfg, SendCreate(s, t, answer))
  {
    var x, s', task := SocketOf(s, t), SendCreate(s, t, answer), s.tasks[t];
    GoodTask(cfg, s, t);
    GoodSocket(cfg, s, t);
    hide Inv, BodyOk, ValidAnswer, Wire, CreatesShareKey;
    SendCreateBody(cfg, task, x, s.sockets, s'.sockets[x], answer);
    TaskConverses(cfg, s, t, x, s'.sockets[x], s'.tasks[t]);
  }

  lemma {:induction false} SameWire(cfg: Config, socket: Socket, socket': Socket)
    requires socket'.log == socket.log && socket'.opener == socket.opener
    ensures Wire(cfg, socket') == Wire(cfg, socket)
    ensures CreatesShareKey(cfg, socket) ==> CreatesShareKey(cfg, socket')
  {
    hide ModeOf;
  }

  lemma {:induction false} CreateFailedBody(
    cfg: Config, task: Task, x: SocketId, sockets: map<SocketId, Socket>, socket: Socket, status: nat)
    requires task.RequestTask? && task.phase == SendingCreate(x) && RetriableStatus(status) && x in sockets
    requires BodyOk(cfg, task, sockets)
    ensures BodyOk(cfg, task.(phase := Failing([x], status)), sockets[x := socket])
  {
    hide Wire, Key;
  }

  lemma {:induction false} CreateFailedKeeps(cfg: Config, s: State, t: TaskId, status: nat, reply: seq<Message>)
    requires Inv(cfg, s) && IsRequest(s, t) && s.tasks[t].phase.SendingCreate? && OnSocket(s, t) && RetriableStatus(status)
    ensures Inv(cfg, Turn(Queue(s, SocketOf(s, t), reply), t, Failing(Sockets(s.tasks[t]), status)))
  {
    var x := SocketOf(s, t);
    var socket := Queue(s, x, reply).sockets[x];
    hide Inv, BodyOk, RetriableStatus, Wire, CreatesShareKey;
    GoodTask(cfg, s, t);
    GoodSocket(cfg, s, t);
    SameWire(cfg, s.sockets[x], socket);
    CreateFailedBody(cfg, s.tasks[t], x, s.sockets, socket, status);
    TaskConverses(cfg, s, t, x, socket, s.tasks[t].(phase := Failing([x], status)));
  }

  /** What receiving the next queued message does to a socket. */
  lemma {:induction false} AfterReceive(cfg: Config, s: State, x: SocketId)
    requires x in s.sockets && s.sockets[x].pending != [] && CreatesShareKey(cfg, s.sockets[x])
    ensures var socket, socket', m := s.sockets[x], Receive(s, x).sockets[x], s.sockets[x].pending[0];
      && Wire(cfg, socket') == NextMode(cfg.sendProcessed, Wire(cfg, socket), Received(m))
      && CreatesShareKey(cfg, socket')
      && socket.pending == [m] + socket'.pending
      && socket' == socket.(log := socket'.log, pending := socket'.pending)
      && Receive(s, x) == SetSocket(s, x, socket')
  {
    ModeOfSnoc(cfg.sendProcessed, s.sockets[x].log, Received(s.sockets[x].pending[0]));
  }

  lemma {:induction false} ReceiveFirstBody(cfg: Config, task: Task, x: SocketId, sockets: map<SocketId, Socket>, socket: Socket, m: Message)
    requires task.RequestTask? && task.phase == AwaitingFirst(x) && x in sockets && BodyOk(cfg, task, sockets)
    requires Wire(cfg, socket) == NextMode(cfg.sendProcessed, Wire(cfg, sockets[x]), Received(m))
    requires sockets[x].pending == [m] + socket.pending && socket.opener == sockets[x].opener
    ensures !Wire(cfg, socket).Broken?
    ensures BodyOk(cfg, task.(phase := Primed(x, m)), sockets[x := socket])
  {
    hide Wire, Key, CreateRequest, ValidAnswer, CompletedId;
  }

  lemma {:induction false} ReceiveFirstKeeps(cfg: Config, s: State, t: TaskId)
    requires Inv(cfg, s) && IsRequest(s, t) && s.tasks[t].phase.AwaitingFirst? && HasPending(s, t)
    ensures Inv(cfg, ReceiveFirst(s, t))
  {
    var x, task := SocketOf(s, t), s.tasks[t];
    GoodTask(cfg, s, t);
    GoodSocket(cfg, s, t);
    AfterReceive(cfg, s, x);
    var socket, m := Receive(s, x).sockets[x], s.sockets[x].pending[0];
    hide Inv, BodyOk, Wire, CreatesShareKey, NextMode, Receive;
    ReceiveFirstBody(cfg, task, x, s.sockets, socket, m);
    TaskConverses(cfg, s, t, x, socket, task.(phase := Primed(x, m)));
  }

  lemma {:induction false} ReceiveNextBody(cfg: Config, task: Task, x: SocketId, sockets: map<SocketId, Socket>, socket: Socket, m: Message)
    requires task.RequestTask? && task.phase == Receiving(x) && x in sockets && BodyOk(cfg, task, sockets)
    requires Wire(cfg, socket) == NextMode(cfg.sendProcessed, Wire(cfg, sockets[x]), Received(m))
    requires sockets[x].pending == [m] + socket.pending && socket.opener == sockets[x].opener
    ensures !Wire(cfg, socket).Broken?
    ensures BodyOk(cfg, Show(task, x, m), sockets[x := socket])
  {
    assert task.shown + sockets[x].pending == task.shown + [m] + socket.pending;
    hide Wire, Key, CreateRequest, CompletedId;
    ShowKeeps(cfg, task, x, m, sockets[x := socket]);
    hide Show;
  }

  lemma {:induction false} ReceiveNextKeeps(cfg: Config, s: State, t: TaskId)
    requires Inv(cfg, s) && IsRequest(s, t) && s.tasks[t].phase.Receiving? && HasPending(s, t)
    ensures Inv(cfg, ReceiveNext(s, t))
  {
    var x, task := SocketOf(s, t), s.tasks[t];
    GoodTask(cfg, s, t);
    GoodSocket(cfg, s, t);
    AfterReceive(cfg, s, x);
    var socket, m := Receive(s, x).sockets[x], s.sockets[x].pending[0];
    hide Inv, BodyOk, Wire, CreatesShareKey, NextMode, Receive;
    ReceiveNextBody(cfg, task, x, s.sockets, socket, m);
    TaskConverses(cfg, s, t, x, socket, Show(task, x, m));
  }

  lemma {:induction false} SendProcessedKeeps(cfg: Config, s: State, t: TaskId)
    requires Inv(cfg, s) && IsBackground(s, t) && s.tasks[t].work.SendingProcessed? && OnSocket(s, t)
    ensures Inv(cfg, SendProcessed(s, t))
  {
    var x, s' := SocketOf(s, t), SendProcessed(s, t);
    assert TaskOk(cfg, s, t) && SocketOk(cfg, s, x);
    ModeOfSnoc(cfg.sendProcessed, s.sockets[x].log, SentProcessed(s.tasks[t].work.id));
    TaskConverses(cfg, s, t, x, s'.sockets[x], s'.tasks[t]);
  }

  lemma {:induction false} DrainOneKeeps(cfg: Config, s: State, t: TaskId)
    requires Inv(cfg, s) && IsBackground(s, t) && s.tasks[t].work.Draining? && HasPending(s, t)
    ensures Inv(cfg, DrainOne(s, t))
  {
    var x := SocketOf(s, t);
    assert TaskOk(cfg, s, t) && SocketOk(cfg, s, x);
    AfterReceive(cfg, s, x);
    var task, socket := s.tasks[t], Receive(s, x).sockets[x];
    if s.sockets[x].pending[0].Text? {
      TaskConverses(cfg, s, t, x, socket, task.(work := Shedding([x])));
    } else {
      TaskDrops(cfg, s, t, x, socket.(owner := Escaped), task.(work := Shedding([])));
      assert Give(Receive(s, x), x, Escaped).sockets == s.sockets[x := socket.(owner := Escaped)];
    }
  }

  lemma {:induction false} LostBody(cfg: Config, task: Task, sockets: map<SocketId, Socket>)
    requires task.RequestTask? && (task.phase.AwaitingFirst? || task.phase.Primed?)
    requires (forall x :: x in Sockets(task) ==> x in sockets) && BodyOk(cfg, task, sockets)
    ensures BodyOk(cfg, task.(phase := Done(Lost)), sockets)
  {
    hide Wire, Key;
  }

  lemma {:induction false} LoseSocketIs(s: State, t: TaskId)
    requires IsRequest(s, t) && OnSocket(s, t) && (s.tasks[t].phase.AwaitingFirst? || s.tasks[t].phase.Primed?)
    ensures var x, task' := SocketOf(s, t), s.tasks[t].(phase := Done(Lost));
      && LoseSocket(s, t) == SetTask(SetSocket(s, x, s.sockets[x].(owner := Escaped)), t, task')
      && Sockets(s.tasks[t]) == [x] && Sockets(task') == []
  {
  }

  lemma {:induction false} LoseSocketKeeps(cfg: Config, s: State, t: TaskId)
    requires Inv(cfg, s) && IsRequest(s, t) && OnSocket(s, t)
    requires s.tasks[t].phase.AwaitingFirst? || s.tasks[t].phase.Primed?
    ensures Inv(cfg, LoseSocket(s, t))
  {
    var x := SocketOf(s, t);
    var socket := s.sockets[x].(owner := Escaped);
    hide Inv, BodyOk, Wire, CreatesShareKey, NoDuplicates, Sockets, LoseSocket, SetTask, SetSocket;
    LoseSocketIs(s, t);
    GoodTask(cfg, s, t);
    GoodSocket(cfg, s, t);
    SameWire(cfg, s.sockets[x], socket);
    LostBody(cfg, s.tasks[t], s.sockets);
    TaskDrops(cfg, s, t, x, socket, s.tasks[t].(phase := Done(Lost)));
  }

  lemma {:induction false} ClosingBody(cfg: Config, task: Task, sockets: map<SocketId, Socket>)
    requires Doomed(task) != [] && forall x :: x in Sockets(task) ==> x in sockets
    requires BodyOk(cfg, task, sockets)
    ensures var task' := WithDoomed(task, Doomed(task)[1..]);
      && Sockets(task) != [] && Doomed(task)[0] == Sockets(task)[0] && Sockets(task') == Sockets(task)[1..]
      && (forall x :: x in Sockets(task') ==> x in Sockets(task))
      && BodyOk(cfg, task', sockets)
  {
    hide Wire, CreateRequest, Key;
  }

  lemma {:induction false} CloseNextKeeps(cfg: Config, s: State, t: TaskId)
    requires Inv(cfg, s) && t in s.tasks && Doomed(s.tasks[t]) != [] && Doomed(s.tasks[t])[0] in s.sockets
    ensures Inv(cfg, CloseNext(s, t))
  {
    var task := s.tasks[t];
    var x, task' := Doomed(task)[0], WithDoomed(task, Doomed(task)[1..]);
    var socket := s.sockets[x].(owner := Closed, closes := s.sockets[x].closes + 1);
    assert TaskOk(cfg, s, t) && SocketOk(cfg, s, x);
    assert CloseNext(s, t) == SetTask(SetSocket(s, x, socket), t, task');
    hide Inv, BodyOk, Doomed, WithDoomed, Sockets, SetTask, SetSocket, CloseNext, NoDuplicates;
    ClosingBody(cfg, task, s.sockets);
    assert x in Sockets(task);
    assert s.sockets[x].owner == Held(t) && s.sockets[x].closes == 0;
    TaskDrops(cfg, s, t, x, socket, task');
  }

  lemma {:induction false} QueueKeeps(cfg: Config, s: State, x: SocketId, m: Message)
    requires Inv(cfg, s) && x in s.sockets
    ensures Inv(cfg, Queue(s, x, [m]))
  {
    var s' := Queue(s, x, [m]);
    assert SocketOk(cfg, s, x);
    forall t | t in s.tasks ensures TaskOk(cfg, s', t) {
      assert TaskOk(cfg, s, t);
      MorePending(cfg, s.tasks[t], s.sockets, x, m);
    }
    forall y | y in s.sockets ensures SocketOk(cfg, s', y) {
      assert SocketOk(cfg, s, y);
    }
    BucketsIgnore(cfg, s, s', {});
  }

  lemma {:induction false} MorePending(cfg: Config, task: Task, sockets: map<SocketId, Socket>, x: SocketId, m: Message)
    requires x in sockets && forall y :: y in Sockets(task) ==> y in sockets
    requires BodyOk(cfg, task, sockets)
    ensures BodyOk(cfg, task, sockets[x := sockets[x].(pending := sockets[x].pending + [m])])
  {
    var pending := sockets[x].pending;
    if task.RequestTask? {
      assert task.shown + (pending + [m]) == (task.shown + pending) + [m];
      if task.phase.Primed? {
        assert [task.phase.first] + (pending + [m]) == ([task.phase.first] + pending) + [m];
      }
    }
  }

  // ---- Steps that move sockets between tasks and the pool ----

  /** A socket changes hands inside one or two tasks, outside the pool. */
  lemma {:induction false} SocketMoves(cfg: Config, s: State, s': State, ts: set<TaskId>, x: SocketId)
    requires Inv(cfg, s) && OnlyTouches(s, s', ts, {x}) && s'.idle == s.idle && s'.clock == s.clock
    requires x in s.sockets ==> !s.sockets[x].owner.Pooled?
    requires x in s'.sockets && SocketOk(cfg, s', x)
    requires forall t :: t in ts && t in s'.tasks ==> TaskOk(cfg, s', t)
    ensures Inv(cfg, s')
  {
    PooledStays(cfg, s);
    BucketsIgnore(cfg, s, s', {x});
    TouchedIsEnough(cfg, s, s', ts, {x});
  }

  lemma {:induction false} ConnectKeeps(cfg: Config, s: State, t: TaskId, x: SocketId)
    requires Inv(cfg, s) && IsRequest(s, t) && s.tasks[t].phase.Connecting? && x !in s.sockets
    ensures Inv(cfg, Connect(s, t, x))
  {
    assert TaskOk(cfg, Connect(s, t, x), t) by { assert TaskOk(cfg, s, t); }
    SocketMoves(cfg, s, Connect(s, t, x), {t}, x);
  }

  lemma {:induction false} ScheduledBodies(cfg: Config, s: State, t: TaskId, b: TaskId)
    requires IsRequest(s, t) && s.tasks[t].phase.Yielding? && OnSocket(s, t) && b !in s.tasks
    requires BodyOk(cfg, s.tasks[t], s.sockets)
    requires s.tasks[t].shown != [] && Terminal(Last(s.tasks[t].shown))
    ensures var s' := Schedule(cfg, s, t, b, CompletedId(Last(s.tasks[t].shown)).value);
      BodyOk(cfg, s'.tasks[t], s'.sockets) && BodyOk(cfg, s'.tasks[b], s'.sockets)
  {
  }

  lemma {:induction false} ScheduleTouches(cfg: Config, s: State, t: TaskId, b: TaskId, id: string)
    requires IsRequest(s, t) && s.tasks[t].phase.Yielding? && OnSocket(s, t) && b !in s.tasks && Owns(s, t)
    ensures var s', x := Schedule(cfg, s, t, b, id), SocketOf(s, t);
      && OnlyTouches(s, s', {t, b}, {x}) && s'.idle == s.idle && s'.clock == s.clock
      && t in s'.tasks && b in s'.tasks && Owns(s', t) && Owns(s', b)
      && x in s'.sockets && s'.sockets[x] == s.sockets[x].(owner := Held(b)) && Sockets(s'.tasks[b]) == [x]
      && s.sockets[x].owner == Held(t)
  {
  }

  lemma {:induction false} HandedOver(cfg: Config, s: State, s': State, x: SocketId, b: TaskId)
    requires x in s.sockets && SocketOk(cfg, s, x) && s.sockets[x].owner.Held? && b in s'.tasks && x in Sockets(s'.tasks[b])
    requires x in s'.sockets && s'.sockets[x] == s.sockets[x].(owner := Held(b))
    ensures SocketOk(cfg, s', x)
  {
  }

  /** The socket of a completed stream goes to its background task. */
  lemma {:induction false} ScheduleKeeps(cfg: Config, s: State, t: TaskId, b: TaskId)
    requires Inv(cfg, s) && IsRequest(s, t) && s.tasks[t].phase.Yielding? && OnSocket(s, t) && b !in s.tasks
    requires s.tasks[t].shown != [] && Terminal(Last(s.tasks[t].shown))
    ensures Inv(cfg, Schedule(cfg, s, t, b, CompletedId(Last(s.tasks[t].shown)).value))
  {
    var x := SocketOf(s, t);
    var id := CompletedId(Last(s.tasks[t].shown)).value;
    var s' := Schedule(cfg, s, t, b, id);
    assert TaskOk(cfg, s, t) && SocketOk(cfg, s, x);
    hide Inv, BodyOk, SocketOk, Schedule, OnlyTouches, Terminal, CompletedId;
    ScheduleTouches(cfg, s, t, b, id);
    ScheduledBodies(cfg, s, t, b);
    HandedOver(cfg, s, s', x, b);
    assert TaskOk(cfg, s', t) && TaskOk(cfg, s', b);
    SocketMoves(cfg, s, s', {t, b}, x);
  }

  lemma {:induction false} GoesOnBody(cfg: Config, task: Task, sockets: map<SocketId, Socket>)
    requires task.RequestTask? && task.phase.Yielding? && task.shown != [] && !Terminal(Last(task.shown))
    requires (forall x :: x in Sockets(task) ==> x in sockets) && BodyOk(cfg, task, sockets)
    ensures BodyOk(cfg, task.(phase := Receiving(task.phase.socket)), sockets)
  {
    assert task.shown == Front(task.shown) + [Last(task.shown)];
    hide Wire, Key, CreateRequest, ValidAnswer, CompletedId;
  }

  lemma {:induction false} ResumeKeeps(cfg: Config, s: State, t: TaskId, b: TaskId)
    requires Inv(cfg, s) && IsRequest(s, t) && s.tasks[t].phase.Yielding? && OnSocket(s, t) && b !in s.tasks
    requires s.tasks[t].shown != []
    ensures Inv(cfg, Resume(cfg, s, t, b))
  {
    var task := s.tasks[t];
    hide Inv, BodyOk, Terminal, CompletedId, Schedule;
    if Terminal(Last(task.shown)) {
      ScheduleKeeps(cfg, s, t, b);
    } else {
      GoodTask(cfg, s, t);
      GoesOnBody(cfg, task, s.sockets);
      TaskGoesOn(cfg, s, t, task.(phase := Receiving(SocketOf(s, t))));
    }
  }
}
