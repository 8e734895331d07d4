/** The outline of every step: which tasks it changes, and what it leaves alone. */
module BridgeShape {
  import opened Basics
  import opened Messages
  import opened Pool
  import opened PoolKeys
  import opened BridgeSystem

  /** What a step makes of the request that takes it. */
  ghost predicate RequestStep(e: Event, task: Task, task': Task)
    requires task.RequestTask? && !e.UpstreamSpoke?
  {
    && task'.RequestTask? && task'.req == task.req
    && (task'.backlog == task.backlog || e.CreateSent?)
    && (task'.shown == task.shown || task'.phase.Yielding?)
    && match task'.phase
       case Sweeping(selected, _) => e.BeginAttempt? || (e.CloseOne? && task.phase.Sweeping? && task.phase.selected == selected)
       case SendingCreate(x) => (e.Connected? && e.socket == x) || (e.Proceed? && task.phase.Sweeping? && task.phase.selected == Some(x))
       case AwaitingFirst(_) => e.CreateSent?
       case Primed(_, _) => e.FirstReceived?
       case Receiving(_) => e.Resumed?
       case Yielding(_) => e.StreamStarted? || e.StreamReceived?
       case _ => true
  }

  /** The task that takes the step, before (if it was there) and after. */
  ghost predicate ActorStep(s: State, e: Event, task': Task)
    requires !e.UpstreamSpoke?
  {
    if e.task !in s.tasks then
      (e.Spawn? && task' == RequestTask(e.req, 1, Starting, [], [], [], [])) || (e.Aclose? && task'.AcloseTask?)
    else if s.tasks[e.task].RequestTask? then RequestStep(e, s.tasks[e.task], task')
    else task'.BackgroundTask? == s.tasks[e.task].BackgroundTask? && !task'.RequestTask?
  }

  ghost predicate Shape(s: State, e: Event, s': State) {
    if e.UpstreamSpoke? then s'.tasks == s.tasks && s'.idle == s.idle
    else
      && e.task in s'.tasks && ActorStep(s, e, s'.tasks[e.task])
      && (if e.Resumed? && e.background in s'.tasks then
            && e.background !in s.tasks && s'.tasks[e.background].BackgroundTask?
            && s'.tasks == s.tasks[e.task := s'.tasks[e.task]][e.background := s'.tasks[e.background]]
          else s'.tasks == s.tasks[e.task := s'.tasks[e.task]])
      && (e.BeginAttempt? || e.DrainTimedOut? || e.Aclose? || s'.idle == s.idle)
  }

  lemma {:induction false} OpeningShape(cfg: Config, s: State, e: Event)
    requires Enabled(cfg, s, e)
    requires e.Spawn? || e.BeginAttempt? || e.Proceed? || e.Connected? || e.ConnectFailed? || e.CreateSent? || e.CreateFailed?
    ensures Shape(s, e, Next(cfg, s, e))
  {
    hide CheckoutFrom, CreateRequest, ValidAnswer, Key, Sockets, Doomed;
  }

  lemma {:induction false} FirstShape(cfg: Config, s: State, e: Event)
    requires Enabled(cfg, s, e)
    requires e.FirstReceived? || e.FirstFailed? || e.FirstEscaped? || e.StreamStarted? || e.StreamNeverStarted?
    ensures Shape(s, e, Next(cfg, s, e))
  {
    hide Terminal, CompletedId, Key, Doomed, ValidAnswer, CreateRequest;
  }

  lemma {:induction false} StreamShape(cfg: Config, s: State, e: Event)
    requires Enabled(cfg, s, e)
    requires e.StreamReceived? || e.StreamFailed? || e.Resumed? || e.Aborted?
    ensures Shape(s, e, Next(cfg, s, e))
  {
    hide Terminal, CompletedId, Key, Doomed, ValidAnswer, CreateRequest;
  }

  lemma {:induction false} ReleaseShape(cfg: Config, s: State, e: Event)
    requires Enabled(cfg, s, e)
    requires e.ProcessedSent? || e.ProcessedFailed? || e.ReleaseEntered? || e.DrainTimedOut? || e.DrainReceived? || e.DrainFailed?
    ensures Shape(s, e, Next(cfg, s, e))
  {
    hide ReturnTo, Flatten, Enumerates, ValidAnswer, CreateRequest, Key;
  }

  lemma {:induction false} OtherShape(cfg: Config, s: State, e: Event)
    requires Enabled(cfg, s, e) && (e.CloseOne? || e.Aclose? || e.UpstreamSpoke?)
    ensures Shape(s, e, Next(cfg, s, e))
  {
    hide ReturnTo, Flatten, Enumerates, ValidAnswer, CreateRequest, Key;
  }

  lemma {:induction false} StepShape(cfg: Config, s: State, e: Event)
    requires Enabled(cfg, s, e)
    ensures Shape(s, e, Next(cfg, s, e))
  {
    hide Next, Enabled, Shape;
    if e.Spawn? || e.BeginAttempt? || e.Proceed? || e.Connected? || e.ConnectFailed? || e.CreateSent? || e.CreateFailed? {
      OpeningShape(cfg, s, e);
    } else if e.FirstReceived? || e.FirstFailed? || e.FirstEscaped? || e.StreamStarted? || e.StreamNeverStarted? {
      FirstShape(cfg, s, e);
    } else if e.CloseOne? || e.Aclose? || e.UpstreamSpoke? {
      OtherShape(cfg, s, e);
    } else if e.StreamReceived? || e.StreamFailed? || e.Resumed? || e.Aborted? {
      StreamShape(cfg, s, e);
    } else {
      ReleaseShape(cfg, s, e);
    }
  }

  /** A step changes no task but its own, and the background task it starts. */
  lemma {:induction false} OtherTasksWait(cfg: Config, s: State, e: Event, t: TaskId)
    requires Enabled(cfg, s, e) && t in s.tasks && (e.UpstreamSpoke? || t != e.task)
    ensures t in Next(cfg, s, e).tasks && Next(cfg, s, e).tasks[t] == s.tasks[t]
  {
    StepShape(cfg, s, e);
    hide Next, Enabled;
  }

  // ---- The steps of a conversation, as equations ----

  lemma {:induction false} ConnectedIs(cfg: Config, s: State, t: TaskId, x: SocketId)
    ensures Enabled(cfg, s, Connected(t, x)) <==> IsRequest(s, t) && s.tasks[t].phase.Connecting? && x !in s.sockets
    ensures Enabled(cfg, s, Connected(t, x)) ==> Next(cfg, s, Connected(t, x)) == Connect(s, t, x)
  {
  }

  lemma {:induction false} CreateSentIs(cfg: Config, s: State, t: TaskId, answer: seq<Message>)
    ensures Enabled(cfg, s, CreateSent(t, answer))
      <==> IsRequest(s, t) && s.tasks[t].phase.SendingCreate? && OnSocket(s, t) && ValidAnswer(answer)
    ensures Enabled(cfg, s, CreateSent(t, answer)) ==> Next(cfg, s, CreateSent(t, answer)) == SendCreate(s, t, answer)
  {
  }

  lemma {:induction false} FirstReceivedIs(cfg: Config, s: State, t: TaskId)
    ensures Enabled(cfg, s, FirstReceived(t)) <==> IsRequest(s, t) && s.tasks[t].phase.AwaitingFirst? && HasPending(s, t)
    ensures Enabled(cfg, s, FirstReceived(t)) ==> Next(cfg, s, FirstReceived(t)) == ReceiveFirst(s, t)
  {
  }

  lemma {:induction false} StreamStartedIs(cfg: Config, s: State, t: TaskId)
    ensures Enabled(cfg, s, StreamStarted(t)) <==> IsRequest(s, t) && s.tasks[t].phase.Primed?
    ensures Enabled(cfg, s, StreamStarted(t)) ==>
      Next(cfg, s, StreamStarted(t)) == SetTask(s, t, Show(s.tasks[t], s.tasks[t].phase.socket, s.tasks[t].phase.first))
  {
  }

  lemma {:induction false} StreamReceivedIs(cfg: Config, s: State, t: TaskId)
    ensures Enabled(cfg, s, StreamReceived(t)) <==> IsRequest(s, t) && s.tasks[t].phase.Receiving? && HasPending(s, t)
    ensures Enabled(cfg, s, StreamReceived(t)) ==> Next(cfg, s, StreamReceived(t)) == ReceiveNext(s, t)
  {
  }

  lemma {:induction false} ResumedIs(cfg: Config, s: State, t: TaskId, b: TaskId)
    ensures Enabled(cfg, s, Resumed(t, b))
      <==> IsRequest(s, t) && s.tasks[t].phase.Yielding? && OnSocket(s, t) && s.tasks[t].shown != [] && b !in s.tasks
    ensures Enabled(cfg, s, Resumed(t, b)) ==> Next(cfg, s, Resumed(t, b)) == Resume(cfg, s, t, b)
  {
  }

  lemma {:induction false} CloseOneIs(cfg: Config, s: State, t: TaskId)
    ensures Enabled(cfg, s, CloseOne(t)) <==> t in s.tasks && Doomed(s.tasks[t]) != [] && Doomed(s.tasks[t])[0] in s.sockets
    ensures Enabled(cfg, s, CloseOne(t)) ==> Next(cfg, s, CloseOne(t)) == CloseNext(s, t)
  {
  }

  lemma {:induction false} BeginAttemptIs(cfg: Config, s: State, t: TaskId, now: real, open: set<SocketId>)
    ensures Enabled(cfg, s, BeginAttempt(t, now, open)) <==> IsRequest(s, t) && s.tasks[t].phase.Starting? && now >= s.clock
    ensures Enabled(cfg, s, BeginAttempt(t, now, open)) ==> Next(cfg, s, BeginAttempt(t, now, open)) == Begin(cfg, s, t, now, open)
  {
  }

  lemma {:induction false} DrainTimedOutIs(cfg: Config, s: State, t: TaskId, now: real)
    ensures Enabled(cfg, s, DrainTimedOut(t, now)) <==>
      && IsBackground(s, t) && s.tasks[t].work.Draining? && OnSocket(s, t) && !HasPending(s, t)
      && now >= s.clock && cfg.maxIdle > 0
    ensures Enabled(cfg, s, DrainTimedOut(t, now)) ==>
      Next(cfg, s, DrainTimedOut(t, now)) == Park(cfg, s, t, SocketOf(s, t), now)
  {
  }

  lemma {:induction false} DrainReceivedIs(cfg: Config, s: State, t: TaskId)
    ensures Enabled(cfg, s, DrainReceived(t)) <==> IsBackground(s, t) && s.tasks[t].work.Draining? && HasPending(s, t)
    ensures Enabled(cfg, s, DrainReceived(t)) ==> Next(cfg, s, DrainReceived(t)) == DrainOne(s, t)
  {
  }

  lemma {:induction false} AcloseIs(cfg: Config, s: State, t: TaskId, order: seq<PoolKey>)
    ensures Enabled(cfg, s, Aclose(t, order)) <==> t !in s.tasks && Enumerates(order, s.idle.Keys)
    ensures Enabled(cfg, s, Aclose(t, order)) ==> Next(cfg, s, Aclose(t, order)) == TakeAllIdle(s, t, order)
  {
  }
}
