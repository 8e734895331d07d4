/** Messages that arrive on idle sockets, and sockets that return to a closed pool: what the code
    does not guard against, with runs from the beginning that show it. */
module BridgeStray {
  import opened Basics
  import opened PoolKeys
  import opened Messages
  import opened Pool
  import opened BridgeSystem
  import opened BridgeInvariants
  import opened BridgeShape
  import opened BridgePoolSteps
  import opened BridgeRuns
  import opened BridgeOwnership
  import opened BridgeShutdown
  import opened BridgeTransparency

  /** A message arrives on the idle socket `x`; a request comes, closes the `n` sockets of its bucket
      that are newer and no longer open, takes `x`, and is given its first frame. */
  function StrayRun(x: SocketId, m: Message, t: TaskId, req: Request, now: real, n: nat, answer: seq<Message>): seq<Event> {
    [UpstreamSpoke(x, m)] + [Spawn(t, req)] + [BeginAttempt(t, now, {x})] + CloseAll(t, n)
      + [Proceed(t)] + [CreateSent(t, answer)] + [FirstReceived(t)] + [StreamStarted(t)]
  }

  /** The request is on its way to the socket, on which a message is waiting. */
  ghost predicate Heading(s: State, t: TaskId, x: SocketId, m: Message) {
    && x in s.sockets && s.sockets[x].pending != [] && s.sockets[x].pending[0] == m
    && IsRequest(s, t) && s.tasks[t].shown == []
  }

  lemma {:induction false} StrayArrives(cfg: Config, s: State, x: SocketId, m: Message)
    requires x in s.sockets && s.sockets[x].pending == []
    ensures Enabled(cfg, s, UpstreamSpoke(x, m)) && Next(cfg, s, UpstreamSpoke(x, m)) == Queue(s, x, [m])
  {
  }

  lemma {:induction false} RequestComes(cfg: Config, s: State, x: SocketId, m: Message, t: TaskId, req: Request)
    requires x in s.sockets && s.sockets[x].pending == [m] && t !in s.tasks
    ensures Enabled(cfg, s, Spawn(t, req))
    ensures var s' := Next(cfg, s, Spawn(t, req));
      && Heading(s', t, x, m) && s'.tasks[t].phase.Starting? && s'.tasks[t].req == req
      && s'.idle == s.idle && s'.clock == s.clock
  {
  }

  /** With only one socket of the bucket open and within its age, checkout selects it. */
  lemma {:induction false} OnlyOpenIsSelected(bucket: seq<IdleEntry>, i: nat, now: real, timeout: real)
    requires i < |bucket| && NoDuplicates(Ids(bucket)) && now - bucket[i].lastUsedAt <= timeout
    ensures var scan := ScanBucket(bucket, now, timeout, {bucket[i].socket});
      scan.selected == Some(bucket[i]) && |scan.stale| == |bucket| - 1 - i
  {
    var open := {bucket[i].socket};
    var cut := ScanCutsAtNewestUsable(bucket, now, timeout, open);
    hide ScanBucket;
    assert Usable(bucket[i], now, timeout, open);
    assert forall j :: 0 <= j < |bucket| && j != i ==> Ids(bucket)[j] != Ids(bucket)[i];
    assert cut == i;
  }

  lemma {:induction false} StrayIsCheckedOut(cfg: Config, s: State, t: TaskId, m: Message, now: real, i: nat)
    requires IsRequest(s, t) && s.tasks[t].phase.Starting? && now >= s.clock
    requires cfg.pooled && CreateRequest(s.tasks[t].req.body).Ok?
    requires var bucket := Bucket(s.idle, Key(cfg, s.tasks[t].req));
      && i < |bucket| && now - bucket[i].lastUsedAt <= cfg.idleTimeout && NoDuplicates(Ids(bucket))
      && Heading(s, t, bucket[i].socket, m)
    ensures var bucket := Bucket(s.idle, Key(cfg, s.tasks[t].req));
      var x, e := bucket[i].socket, BeginAttempt(t, now, {bucket[i].socket});
      && Enabled(cfg, s, e)
      && var s' := Next(cfg, s, e);
      && Heading(s', t, x, m) && s'.tasks[t].phase.Sweeping? && s'.tasks[t].phase.selected == Some(x)
      && |s'.tasks[t].phase.doomed| == |bucket| - 1 - i
  {
    OnlyOpenIsSelected(Bucket(s.idle, Key(cfg, s.tasks[t].req)), i, now, cfg.idleTimeout);
    hide ScanBucket, CreateRequest, Bucket, Key;
  }

  lemma {:induction false} NewerIsClosed(cfg: Config, s: State, t: TaskId, x: SocketId, m: Message)
    requires Inv(cfg, s) && Heading(s, t, x, m)
    requires s.tasks[t].phase.Sweeping? && s.tasks[t].phase.selected == Some(x) && s.tasks[t].phase.doomed != []
    ensures Enabled(cfg, s, CloseOne(t))
    ensures var s' := Next(cfg, s, CloseOne(t));
      Heading(s', t, x, m) && s'.tasks[t].phase == Sweeping(Some(x), s.tasks[t].phase.doomed[1..])
  {
    var doomed := s.tasks[t].phase.doomed;
    HeldIsNotGone(cfg, s, t);
    assert doomed[0] in Doomed(s.tasks[t]) && doomed[0] in s.sockets;
    assert doomed[0] != x by {
      assert TaskOk(cfg, s, t);
      var all := Sockets(s.tasks[t]);
      assert all[0] == doomed[0] && all[|doomed|] == x;
    }
    hide Inv;
  }

  lemma {:induction false} NewerAreClosed(cfg: Config, s: State, t: TaskId, x: SocketId, m: Message) returns (s': State)
    requires cfg.maxAttempts >= 1 && Inv(cfg, s) && Heading(s, t, x, m)
    requires s.tasks[t].phase.Sweeping? && s.tasks[t].phase.selected == Some(x)
    ensures Leads(cfg, s, CloseAll(t, |s.tasks[t].phase.doomed|), s')
    ensures Heading(s', t, x, m) && s'.tasks[t].phase == Sweeping(Some(x), [])
    decreases |s.tasks[t].phase.doomed|
  {
    hide Next, Enabled, Inv;
    var doomed := s.tasks[t].phase.doomed;
    if doomed == [] {
      s' := s;
    } else {
      NewerIsClosed(cfg, s, t, x, m);
      StepKeepsInvariant(cfg, s, CloseOne(t));
      s' := NewerAreClosed(cfg, Next(cfg, s, CloseOne(t)), t, x, m);
      LeadsByOne(cfg, s, CloseOne(t));
      LeadsOn(cfg, s, [CloseOne(t)], Next(cfg, s, CloseOne(t)), CloseAll(t, |doomed| - 1), s');
    }
  }

  lemma {:induction false} StrayIsTaken(cfg: Config, s: State, t: TaskId, x: SocketId, m: Message)
    requires Heading(s, t, x, m) && s.tasks[t].phase == Sweeping(Some(x), [])
    ensures Enabled(cfg, s, Proceed(t))
    ensures var s' := Next(cfg, s, Proceed(t)); Heading(s', t, x, m) && s'.tasks[t].phase == SendingCreate(x)
  {
  }

  lemma {:induction false} StrayWaits(cfg: Config, s: State, t: TaskId, x: SocketId, m: Message, answer: seq<Message>)
    requires Heading(s, t, x, m) && s.tasks[t].phase == SendingCreate(x) && ValidAnswer(answer)
    ensures Enabled(cfg, s, CreateSent(t, answer))
    ensures var s' := Next(cfg, s, CreateSent(t, answer));
      Heading(s', t, x, m) && s'.tasks[t].phase == AwaitingFirst(x) && s'.tasks[t].answer == answer
  {
  }

  lemma {:induction false} StrayIsReceived(cfg: Config, s: State, t: TaskId, x: SocketId, m: Message)
    requires Heading(s, t, x, m) && s.tasks[t].phase == AwaitingFirst(x)
    ensures Enabled(cfg, s, FirstReceived(t))
    ensures var s' := Next(cfg, s, FirstReceived(t));
      && IsRequest(s', t) && s'.tasks[t].phase == Primed(x, m)
      && s'.tasks[t].shown == [] && s'.tasks[t].answer == s.tasks[t].answer
  {
  }

  lemma {:induction false} StrayIsYielded(cfg: Config, s: State, t: TaskId, x: SocketId, m: Message)
    requires IsRequest(s, t) && s.tasks[t].phase == Primed(x, m) && s.tasks[t].shown == [] && m.Text?
    ensures Enabled(cfg, s, StreamStarted(t))
    ensures var s' := Next(cfg, s, StreamStarted(t));
      IsRequest(s', t) && s'.tasks[t].shown == [m] && s'.tasks[t].answer == s.tasks[t].answer
  {
    AddNothing([m]);
  }

  lemma {:induction false} StrayIsDelivered(cfg: Config, s: State, t: TaskId, x: SocketId, m: Message, answer: seq<Message>)
    returns (s': State)
    requires Heading(s, t, x, m) && s.tasks[t].phase == Sweeping(Some(x), []) && m.Text? && ValidAnswer(answer)
    ensures Leads(cfg, s, [Proceed(t)] + [CreateSent(t, answer)] + [FirstReceived(t)] + [StreamStarted(t)], s')
    ensures IsRequest(s', t) && s'.tasks[t].shown == [m] && s'.tasks[t].answer == answer
  {
    hide Next, Enabled, Heading, Leads, ValidAnswer;
    StrayIsTaken(cfg, s, t, x, m);
    var s1 := Next(cfg, s, Proceed(t));
    StrayWaits(cfg, s1, t, x, m, answer);
    var s2 := Next(cfg, s1, CreateSent(t, answer));
    StrayIsReceived(cfg, s2, t, x, m);
    var s3 := Next(cfg, s2, FirstReceived(t));
    StrayIsYielded(cfg, s3, t, x, m);
    s' := Next(cfg, s3, StreamStarted(t));
    LeadsByFour(cfg, s, Proceed(t), CreateSent(t, answer), FirstReceived(t), StreamStarted(t));
  }

  lemma {:induction false} LeadsByFour(cfg: Config, s: State, a: Event, b: Event, c: Event, d: Event)
    requires Enabled(cfg, s, a) && Enabled(cfg, Next(cfg, s, a), b)
    requires Enabled(cfg, Next(cfg, Next(cfg, s, a), b), c)
    requires Enabled(cfg, Next(cfg, Next(cfg, Next(cfg, s, a), b), c), d)
    ensures Leads(cfg, s, [a] + [b] + [c] + [d], Next(cfg, Next(cfg, Next(cfg, Next(cfg, s, a), b), c), d))
  {
    hide Next, Enabled, Leads;
    var s1 := Next(cfg, s, a);
    var s2 := Next(cfg, s1, b);
    var s3 := Next(cfg, s2, c);
    LeadsByOne(cfg, s, a);
    LeadsByOne(cfg, s1, b);
    LeadsByOne(cfg, s2, c);
    LeadsByOne(cfg, s3, d);
    LeadsOn(cfg, s, [a], s1, [b], s2);
    LeadsOn(cfg, s, [a] + [b], s2, [c], s3);
    LeadsOn(cfg, s, [a] + [b] + [c], s3, [d], Next(cfg, s3, d));
  }

  lemma {:induction false} IdleIsQuiet(cfg: Config, s: State, k: PoolKey, i: nat)
    requires NothingQueued(s) && Inv(cfg, s) && i < |Bucket(s.idle, k)|
    ensures var x := Bucket(s.idle, k)[i].socket; x in s.sockets && s.sockets[x].pending == []
  {
    var x := Bucket(s.idle, k)[i].socket;
    BucketIdsOwned(cfg, s, k);
    assert Ids(Bucket(s.idle, k))[i] == x;
    assert BetweenExchanges(s, x);
  }

  /** Up to the sweep: the message has arrived and the request has taken the socket. */
  lemma {:induction false} StrayIsFound(
    cfg: Config, s: State, i: nat, m: Message, t: TaskId, req: Request, now: real) returns (s': State)
    requires cfg.maxAttempts >= 1 && cfg.pooled && NothingQueued(s) && Inv(cfg, s) && t !in s.tasks
    requires CreateRequest(req.body).Ok? && now >= s.clock
    requires var bucket := Bucket(s.idle, Key(cfg, req)); i < |bucket| && now - bucket[i].lastUsedAt <= cfg.idleTimeout
    ensures var bucket := Bucket(s.idle, Key(cfg, req));
      var x := bucket[i].socket;
      && Leads(cfg, s, [UpstreamSpoke(x, m)] + [Spawn(t, req)] + [BeginAttempt(t, now, {x})], s')
      && Inv(cfg, s') && Heading(s', t, x, m) && s'.tasks[t].phase.Sweeping?
      && s'.tasks[t].phase.selected == Some(x) && |s'.tasks[t].phase.doomed| == |bucket| - 1 - i
  {
    var bucket := Bucket(s.idle, Key(cfg, req));
    var x := bucket[i].socket;
    hide Next, Enabled, Inv, CreateRequest, NothingQueued, Bucket, Key, Heading, Leads, NoDuplicates, Ids;
    IdleIsQuiet(cfg, s, Key(cfg, req), i);
    BucketIdsOwned(cfg, s, Key(cfg, req));
    StrayArrives(cfg, s, x, m);
    var s1 := Next(cfg, s, UpstreamSpoke(x, m));
    StepKeepsInvariant(cfg, s, UpstreamSpoke(x, m));
    AddNothing([m]);
    RequestComes(cfg, s1, x, m, t, req);
    var s2 := Next(cfg, s1, Spawn(t, req));
    StepKeepsInvariant(cfg, s1, Spawn(t, req));
    StrayIsCheckedOut(cfg, s2, t, m, now, i);
    s' := Next(cfg, s2, BeginAttempt(t, now, {x}));
    StepKeepsInvariant(cfg, s2, BeginAttempt(t, now, {x}));
    LeadsByOne(cfg, s, UpstreamSpoke(x, m));
    LeadsByOne(cfg, s1, Spawn(t, req));
    LeadsByOne(cfg, s2, BeginAttempt(t, now, {x}));
    LeadsOn(cfg, s, [UpstreamSpoke(x, m)], s1, [Spawn(t, req)], s2);
    LeadsOn(cfg, s, [UpstreamSpoke(x, m)] + [Spawn(t, req)], s2, [BeginAttempt(t, now, {x})], s');
  }

  /** Whichever idle socket within its age a message strays to, wherever it stands in its bucket: if
      that is the socket the next request finds open and the request gets as far as its first frame,
      that frame is the stray message, as if it were its own answer. */
  lemma {:induction false} AnyStrayIsShown(
    cfg: Config, s: State, i: nat, m: Message, t: TaskId, req: Request, now: real, answer: seq<Message>) returns (s': State)
    requires cfg.maxAttempts >= 1 && cfg.pooled && NothingQueued(s) && Inv(cfg, s) && t !in s.tasks
    requires m.Text? && ValidAnswer(answer) && CreateRequest(req.body).Ok? && now >= s.clock
    requires var bucket := Bucket(s.idle, Key(cfg, req)); i < |bucket| && now - bucket[i].lastUsedAt <= cfg.idleTimeout
    ensures var bucket := Bucket(s.idle, Key(cfg, req));
      Leads(cfg, s, StrayRun(bucket[i].socket, m, t, req, now, |bucket| - 1 - i, answer), s')
    ensures IsRequest(s', t) && s'.tasks[t].shown == [m] && s'.tasks[t].answer == answer
  {
    var bucket := Bucket(s.idle, Key(cfg, req));
    var x, n := bucket[i].socket, |bucket| - 1 - i;
    hide Next, Enabled, Inv, CreateRequest, NothingQueued, Bucket, Key, ValidAnswer, StrayRun, CloseAll, Leads, IsRun, EndOf;
    var s1 := StrayIsFound(cfg, s, i, m, t, req, now);
    var s2 := NewerAreClosed(cfg, s1, t, x, m);
    hide Heading;
    s' := StrayIsDelivered(cfg, s2, t, x, m, answer);
    StrayRunLeads(cfg, s, s1, s2, s', x, m, t, req, now, n, answer);
  }

  lemma {:induction false} StrayRunLeads(
    cfg: Config, s: State, s1: State, s2: State, s3: State,
    x: SocketId, m: Message, t: TaskId, req: Request, now: real, n: nat, answer: seq<Message>)
    requires Leads(cfg, s, [UpstreamSpoke(x, m)] + [Spawn(t, req)] + [BeginAttempt(t, now, {x})], s1)
    requires Leads(cfg, s1, CloseAll(t, n), s2)
    requires Leads(cfg, s2, [Proceed(t)] + [CreateSent(t, answer)] + [FirstReceived(t)] + [StreamStarted(t)], s3)
    ensures Leads(cfg, s, StrayRun(x, m, t, req, now, n, answer), s3)
  {
    var coming := [UpstreamSpoke(x, m)] + [Spawn(t, req)] + [BeginAttempt(t, now, {x})];
    var shown := [Proceed(t)] + [CreateSent(t, answer)] + [FirstReceived(t)] + [StreamStarted(t)];
    hide Leads, CloseAll;
    LeadsOn(cfg, s, coming, s1, CloseAll(t, n), s2);
    LeadsOn(cfg, s, coming + CloseAll(t, n), s2, shown, s3);
    RegroupFour(coming + CloseAll(t, n), [Proceed(t)], [CreateSent(t, answer)], [FirstReceived(t)], [StreamStarted(t)]);
  }

  lemma {:induction false} RegroupFour<T>(s: seq<T>, a: seq<T>, b: seq<T>, c: seq<T>, d: seq<T>)
    ensures s + (a + b + c + d) == s + a + b + c + d
  {
  }

  // ---- A pool with one idle socket, from the beginning ----

  /** One request on one socket. */
  function Single(req: Request, task: Phase, log: seq<WireEvent>, pending: seq<Message>, answer: seq<Message>, shown: seq<Message>): State {
    State(map[0 := Socket(req, log, pending, Held(0), 0)], map[0 := RequestTask(req, 1, task, [], [], answer, shown)], map[], 0.0)
  }

  function Unconnected(req: Request, task: Phase): State {
    State(map[], map[0 := RequestTask(req, 1, task, [], [], [], [])], map[], 0.0)
  }

  /** Its stream returned and the background task has the socket. */
  function Released(cfg: Config, req: Request, done: Message, log: seq<WireEvent>, work: BackgroundPhase): State {
    State(map[0 := Socket(req, log, [], Held(1), 0)],
          map[0 := RequestTask(req, 1, Done(Completed), [], [], [done], [done])][1 := BackgroundTask(Key(cfg, req), work)],
          map[], 0.0)
  }

  predicate FirstUse(cfg: Config, req: Request, done: Message) {
    cfg.maxAttempts >= 1 && Retains(cfg) && CreateRequest(req.body).Ok? && Terminal(done)
  }

  lemma {:induction false} FirstBegins(cfg: Config, req: Request, done: Message)
    requires FirstUse(cfg, req, done)
    ensures Leads(cfg, Initial, [Spawn(0, req)] + [BeginAttempt(0, 0.0, {})], Unconnected(req, Sweeping(None, [])))
  {
    var s1 := Unconnected(req, Starting);
    assert Enabled(cfg, Initial, Spawn(0, req)) && Next(cfg, Initial, Spawn(0, req)) == s1;
    var e := BeginAttempt(0, 0.0, {});
    assert Enabled(cfg, s1, e);
    var c := CheckoutFrom(s1.idle, Key(cfg, req), 0.0, cfg.idleTimeout, {});
    assert c == CheckoutResult(map[], None, []) by { assert c.idle == map[]; }
    assert Next(cfg, s1, e) == Unconnected(req, Sweeping(None, []));
    hide Next, Enabled;
    LeadsByOne(cfg, Initial, Spawn(0, req));
    LeadsByOne(cfg, s1, e);
    LeadsOn(cfg, Initial, [Spawn(0, req)], s1, [e], Next(cfg, s1, e));
  }

  lemma {:induction false} FirstConnects(cfg: Config, req: Request, done: Message)
    requires FirstUse(cfg, req, done)
    ensures Leads(cfg, Unconnected(req, Sweeping(None, [])), [Proceed(0)] + [Connected(0, 0)], Single(req, SendingCreate(0), [], [], [], []))
  {
    var s, s1 := Unconnected(req, Sweeping(None, [])), Unconnected(req, Connecting);
    assert Enabled(cfg, s, Proceed(0)) && Next(cfg, s, Proceed(0)) == s1;
    assert Enabled(cfg, s1, Connected(0, 0)) && Next(cfg, s1, Connected(0, 0)) == Single(req, SendingCreate(0), [], [], [], []);
    hide Next, Enabled;
    LeadsByOne(cfg, s, Proceed(0));
    LeadsByOne(cfg, s1, Connected(0, 0));
    LeadsOn(cfg, s, [Proceed(0)], s1, [Connected(0, 0)], Next(cfg, s1, Connected(0, 0)));
  }

  lemma {:induction false} SingleSends(req: Request, answer: seq<Message>)
    ensures var s := Single(req, SendingCreate(0), [], [], [], []);
      && IsRequest(s, 0) && OnSocket(s, 0)
      && SendCreate(s, 0, answer) == Single(req, AwaitingFirst(0), [SentCreate(req)], answer, answer, [])
  {
    assert [] + [SentCreate(req)] == [SentCreate(req)] && [] + answer == answer;
  }

  lemma {:induction false} FirstIsSent(cfg: Config, req: Request, done: Message)
    requires FirstUse(cfg, req, done)
    ensures Leads(cfg, Single(req, SendingCreate(0), [], [], [], []), [CreateSent(0, [done])],
                  Single(req, AwaitingFirst(0), [SentCreate(req)], [done], [done], []))
  {
    var s := Single(req, SendingCreate(0), [], [], [], []);
    assert Front([done]) == [] && ValidAnswer([done]);
    SingleSends(req, [done]);
    CreateSentIs(cfg, s, 0, [done]);
    hide Next, Enabled, ValidAnswer, SendCreate;
    LeadsByOne(cfg, s, CreateSent(0, [done]));
  }

  lemma {:induction false} SingleReceives(req: Request, m: Message)
    ensures var s := Single(req, AwaitingFirst(0), [SentCreate(req)], [m], [m], []);
      && IsRequest(s, 0) && HasPending(s, 0)
      && ReceiveFirst(s, 0) == Single(req, Primed(0, m), [SentCreate(req), Received(m)], [], [m], [])
  {
    assert [SentCreate(req)] + [Received(m)] == [SentCreate(req), Received(m)] && [m][1..] == [];
  }

  lemma {:induction false} FirstIsReceived(cfg: Config, req: Request, done: Message)
    requires FirstUse(cfg, req, done)
    ensures Leads(cfg, Single(req, AwaitingFirst(0), [SentCreate(req)], [done], [done], []), [FirstReceived(0)],
                  Single(req, Primed(0, done), [SentCreate(req), Received(done)], [], [done], []))
  {
    var s := Single(req, AwaitingFirst(0), [SentCreate(req)], [done], [done], []);
    SingleReceives(req, done);
    FirstReceivedIs(cfg, s, 0);
    hide Next, Enabled, ReceiveFirst;
    LeadsByOne(cfg, s, FirstReceived(0));
  }

  function FirstWork(cfg: Config, done: Message): BackgroundPhase
    requires Terminal(done)
  {
    if cfg.sendProcessed then SendingProcessed(0, CompletedId(done).value) else Releasing(0)
  }

  lemma {:induction false} SingleShows(req: Request, m: Message, log: seq<WireEvent>)
    requires m.Text?
    ensures var s := Single(req, Primed(0, m), log, [], [m], []);
      SetTask(s, 0, Show(s.tasks[0], 0, m)) == Single(req, Yielding(0), log, [], [m], [m])
  {
    AddNothing([m]);
  }

  lemma {:induction false} SingleReturns(cfg: Config, req: Request, done: Message, log: seq<WireEvent>)
    requires Terminal(done)
    ensures var s := Single(req, Yielding(0), log, [], [done], [done]);
      && IsRequest(s, 0) && OnSocket(s, 0)
      && Resume(cfg, s, 0, 1) == Released(cfg, req, done, log, FirstWork(cfg, done))
  {
    hide Key, CompletedId;
  }

  lemma {:induction false} FirstReturns(cfg: Config, req: Request, done: Message)
    requires FirstUse(cfg, req, done)
    ensures var log := [SentCreate(req), Received(done)];
      Leads(cfg, Single(req, Primed(0, done), log, [], [done], []), [StreamStarted(0)] + [Resumed(0, 1)],
            Released(cfg, req, done, log, FirstWork(cfg, done)))
  {
    var log := [SentCreate(req), Received(done)];
    var s, s1 := Single(req, Primed(0, done), log, [], [done], []), Single(req, Yielding(0), log, [], [done], [done]);
    SingleShows(req, done, log);
    SingleReturns(cfg, req, done, log);
    StreamStartedIs(cfg, s, 0);
    ResumedIs(cfg, s1, 0, 1);
    hide Next, Enabled, Show, Resume, SetTask, Released;
    LeadsByOne(cfg, s, StreamStarted(0));
    LeadsByOne(cfg, s1, Resumed(0, 1));
    LeadsOn(cfg, s, [StreamStarted(0)], s1, [Resumed(0, 1)], Next(cfg, s1, Resumed(0, 1)));
  }

  function FirstProcessed(cfg: Config): seq<Event> {
    if cfg.sendProcessed then [ProcessedSent(1)] else []
  }

  function FirstLog(cfg: Config, req: Request, done: Message): seq<WireEvent>
    requires Terminal(done)
  {
    [SentCreate(req), Received(done)] + if cfg.sendProcessed then [SentProcessed(CompletedId(done).value)] else []
  }

  lemma {:induction false} FirstIsProcessed(cfg: Config, req: Request, done: Message)
    requires FirstUse(cfg, req, done)
    ensures Leads(cfg, Released(cfg, req, done, [SentCreate(req), Received(done)], FirstWork(cfg, done)), FirstProcessed(cfg),
                  Released(cfg, req, done, FirstLog(cfg, req, done), Releasing(0)))
  {
    var log := [SentCreate(req), Received(done)];
    var s, s' := Released(cfg, req, done, log, FirstWork(cfg, done)), Released(cfg, req, done, FirstLog(cfg, req, done), Releasing(0));
    hide Key, CompletedId, Terminal;
    if cfg.sendProcessed {
      assert Enabled(cfg, s, ProcessedSent(1)) && Next(cfg, s, ProcessedSent(1)) == SendProcessed(s, 1);
      assert s.sockets[0].pending + [] == [];
      assert SendProcessed(s, 1).sockets == s'.sockets && SendProcessed(s, 1).tasks == s'.tasks;
      hide Next, Enabled;
      LeadsByOne(cfg, s, ProcessedSent(1));
    } else {
      AddNothing(log);
    }
  }

  lemma {:induction false} FirstDrains(cfg: Config, req: Request, done: Message)
    requires FirstUse(cfg, req, done)
    ensures var log := FirstLog(cfg, req, done);
      Leads(cfg, Released(cfg, req, done, log, Releasing(0)), [ReleaseEntered(1, true)], Released(cfg, req, done, log, Draining(0)))
  {
    var log := FirstLog(cfg, req, done);
    var s := Released(cfg, req, done, log, Releasing(0));
    hide Key, FirstLog;
    assert Enabled(cfg, s, ReleaseEntered(1, true)) && Next(cfg, s, ReleaseEntered(1, true)) == Released(cfg, req, done, log, Draining(0));
    hide Next, Enabled;
    LeadsByOne(cfg, s, ReleaseEntered(1, true));
  }

  /** A first request, up to the drain of its socket. */
  function FirstRun(cfg: Config, req: Request, done: Message): seq<Event> {
    [Spawn(0, req)] + [BeginAttempt(0, 0.0, {})] + ([Proceed(0)] + [Connected(0, 0)]) + ([CreateSent(0, [done])] + [FirstReceived(0)])
      + ([StreamStarted(0)] + [Resumed(0, 1)]) + FirstProcessed(cfg) + [ReleaseEntered(1, true)]
  }

  lemma {:induction false} FirstRunLeads(cfg: Config, req: Request, done: Message)
    requires FirstUse(cfg, req, done)
    ensures Leads(cfg, Initial, FirstRun(cfg, req, done), Released(cfg, req, done, FirstLog(cfg, req, done), Draining(0)))
  {
    FirstBegins(cfg, req, done);
    FirstConnects(cfg, req, done);
    FirstIsSent(cfg, req, done);
    FirstIsReceived(cfg, req, done);
    FirstReturns(cfg, req, done);
    FirstIsProcessed(cfg, req, done);
    FirstDrains(cfg, req, done);
    var log := [SentCreate(req), Received(done)];
    var s1, s2 := Unconnected(req, Sweeping(None, [])), Single(req, SendingCreate(0), [], [], [], []);
    var sent, s3 := Single(req, AwaitingFirst(0), [SentCreate(req)], [done], [done], []), Single(req, Primed(0, done), log, [], [done], []);
    var s4 := Released(cfg, req, done, log, FirstWork(cfg, done));
    var s5 := Released(cfg, req, done, FirstLog(cfg, req, done), Releasing(0));
    var s6 := Released(cfg, req, done, FirstLog(cfg, req, done), Draining(0));
    hide Leads, Single, Released, Unconnected, FirstLog, FirstWork, FirstProcessed, Terminal;
    var a, b := [Spawn(0, req)] + [BeginAttempt(0, 0.0, {})], [Proceed(0)] + [Connected(0, 0)];
    var c, d := [CreateSent(0, [done])] + [FirstReceived(0)], [StreamStarted(0)] + [Resumed(0, 1)];
    LeadsOn(cfg, s2, [CreateSent(0, [done])], sent, [FirstReceived(0)], s3);
    LeadsOn(cfg, Initial, a, s1, b, s2);
    LeadsOn(cfg, Initial, a + b, s2, c, s3);
    LeadsOn(cfg, Initial, a + b + c, s3, d, s4);
    LeadsOn(cfg, Initial, a + b + c + d, s4, FirstProcessed(cfg), s5);
    LeadsOn(cfg, Initial, a + b + c + d + FirstProcessed(cfg), s5, [ReleaseEntered(1, true)], s6);
  }

  /** The socket has returned to the pool. */
  lemma {:induction false} ReturnToEmpty(entry: IdleEntry, maxIdle: int)
    requires maxIdle > 0
    ensures ReturnTo(map[], entry, maxIdle).idle == map[entry.key := [entry]] && ReturnTo(map[], entry, maxIdle).evicted == []
  {
  }

  lemma {:induction false} FirstIsParked(cfg: Config, req: Request, done: Message)
    requires FirstUse(cfg, req, done)
    ensures var s := Released(cfg, req, done, FirstLog(cfg, req, done), Draining(0));
      && Enabled(cfg, s, DrainTimedOut(1, 0.0))
      && var s' := Next(cfg, s, DrainTimedOut(1, 0.0));
      && s'.idle == map[Key(cfg, req) := [IdleEntry(0, Key(cfg, req), 0.0, 0.0)]] && s'.clock == 0.0
      && s'.sockets.Keys == {0} && s'.sockets[0].pending == [] && s'.tasks.Keys == {0, 1}
  {
    var s, entry := Released(cfg, req, done, FirstLog(cfg, req, done), Draining(0)), IdleEntry(0, Key(cfg, req), 0.0, 0.0);
    hide Key, FirstLog;
    ReturnToEmpty(entry, cfg.maxIdle);
    hide ReturnTo;
    assert Enabled(cfg, s, DrainTimedOut(1, 0.0)) && Next(cfg, s, DrainTimedOut(1, 0.0)) == Park(cfg, s, 1, 0, 0.0);
    hide Next, Enabled;
  }

  /** A pool with an idle socket and nothing queued is reachable. */
  lemma {:induction false} OneIdleIsReachable(cfg: Config, req: Request, done: Message) returns (s: State)
    requires FirstUse(cfg, req, done)
    ensures Leads(cfg, Initial, FirstRun(cfg, req, done) + [DrainTimedOut(1, 0.0)], s)
    ensures Reachable(cfg, s) && NothingQueued(s) && Inv(cfg, s) && s.clock == 0.0 && 2 !in s.tasks
    ensures s.idle == map[Key(cfg, req) := [IdleEntry(0, Key(cfg, req), 0.0, 0.0)]]
  {
    var draining := Released(cfg, req, done, FirstLog(cfg, req, done), Draining(0));
    FirstRunLeads(cfg, req, done);
    FirstIsParked(cfg, req, done);
    s := Next(cfg, draining, DrainTimedOut(1, 0.0));
    hide Next, Enabled, Released, FirstLog, FirstRun, Key, Terminal;
    LeadsByOne(cfg, draining, DrainTimedOut(1, 0.0));
    LeadsOn(cfg, Initial, FirstRun(cfg, req, done), draining, [DrainTimedOut(1, 0.0)], s);
    assert Reachable(cfg, s);
    ReachableIsGood(cfg, s);
    hide Inv;
  }

  /** From the very beginning: two requests with one identity, and the second client is shown a
      message that answers nothing instead of its own answer, which begins otherwise. */
  lemma {:induction false} StrayIsShownFromTheStart(
    cfg: Config, first: Request, done: Message, second: Request, m: Message, answer: seq<Message>)
    returns (events: seq<Event>, s: State)
    requires FirstUse(cfg, first, done) && CreateRequest(second.body).Ok? && Key(cfg, second) == Key(cfg, first)
    requires m.Text? && ValidAnswer(answer) && m != answer[0]
    ensures Leads(cfg, Initial, events, s)
    ensures IsRequest(s, 2) && s.tasks[2].shown == [m] && s.tasks[2].answer == answer && !SeesOwnAnswer(s.tasks[2])
  {
    hide Inv, Terminal, CreateRequest, NothingQueued, FirstRun, StrayRun, Key, Leads, Reachable;
    var key := Key(cfg, first);
    var idle := OneIdleIsReachable(cfg, first, done);
    assert Bucket(idle.idle, key) == [IdleEntry(0, key, 0.0, 0.0)];
    s := AnyStrayIsShown(cfg, idle, 0, m, 2, second, 0.0, answer);
    events := FirstRun(cfg, first, done) + [DrainTimedOut(1, 0.0)] + StrayRun(0, m, 2, second, 0.0, 0, answer);
    LeadsOn(cfg, Initial, FirstRun(cfg, first, done) + [DrainTimedOut(1, 0.0)], idle, StrayRun(0, m, 2, second, 0.0, 0, answer), s);
    hide ValidAnswer;
  }

  lemma {:induction false} AcloseMayRun(cfg: Config, s: State, t: TaskId)
    requires s.idle == map[] && t !in s.tasks
    ensures Enabled(cfg, s, Aclose(t, []))
    ensures Next(cfg, s, Aclose(t, [])).tasks == s.tasks[t := AcloseTask([])]
  {
  }

  /** From the very beginning: `aclose` runs to its end while a release is draining, and afterwards
      the pool it emptied holds a socket. */
  lemma {:induction false} AcloseIsRefilledFromTheStart(cfg: Config, req: Request, done: Message) returns (s: State)
    requires FirstUse(cfg, req, done)
    ensures Leads(cfg, Initial, FirstRun(cfg, req, done) + ([Aclose(2, [])] + ([DrainTimedOut(1, 0.0)] + [])), s)
    ensures IdleUnder(s, Key(cfg, req), 0)
  {
    var draining := Released(cfg, req, done, FirstLog(cfg, req, done), Draining(0));
    FirstRunLeads(cfg, req, done);
    FirstIsParked(cfg, req, done);
    AcloseMayRun(cfg, draining, 2);
    assert SocketOf(draining, 1) == 0 && draining.tasks[1].key == Key(cfg, req);
    hide Next, Enabled, FirstRun, FirstLog, Key, Terminal, Released, IdleUnder;
    assert Reachable(cfg, draining);
    ReachableIsGood(cfg, draining);
    hide Inv, Reachable;
    var events := [Aclose(2, [])] + ([DrainTimedOut(1, 0.0)] + []);
    ReleaseRefillsAfterAclose(cfg, draining, 2, [], 1, 0.0);
    s := EndOf(cfg, draining, events);
    LeadsOn(cfg, Initial, FirstRun(cfg, req, done), draining, events, s);
  }
}
