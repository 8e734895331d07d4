/** The invariant holds in every state of every run. */
module BridgeRuns {
  import opened Messages
  import opened Pool
  import opened BridgeSystem
  import opened BridgeInvariants
  import opened BridgeSteps
  import opened BridgePoolSteps

  lemma {:induction false} BeginKeeps(cfg: Config, s: State, t: TaskId, now: real, open: set<SocketId>)
    requires Inv(cfg, s) && IsRequest(s, t) && s.tasks[t].phase.Starting? && now >= s.clock
    ensures Inv(cfg, Begin(cfg, s, t, now, open))
  {
    var task := s.tasks[t];
    if CreateRequest(task.req.body).Ok? && cfg.pooled {
      CheckoutKeeps(cfg, s, t, now, open);
    } else {
      assert TaskOk(cfg, s, t);
      TaskGoesOn(cfg, s, t, Begin(cfg, s, t, now, open).tasks[t]);
    }
  }

  lemma {:induction false} SpawnKeeps(cfg: Config, s: State, t: TaskId, req: Request)
    requires Inv(cfg, s) && t !in s.tasks && cfg.maxAttempts >= 1
    ensures Inv(cfg, SetTask(s, t, RequestTask(req, 1, Starting, [], [], [], [])))
  {
    TaskGoesOn(cfg, s, t, RequestTask(req, 1, Starting, [], [], [], []));
  }

  lemma {:induction false} OpeningStepKeeps(cfg: Config, s: State, e: Event)
    requires Inv(cfg, s) && Enabled(cfg, s, e) && cfg.maxAttempts >= 1
    requires e.Spawn? || e.BeginAttempt? || e.Proceed? || e.Connected? || e.ConnectFailed? || e.CreateSent? || e.CreateFailed?
    ensures Inv(cfg, Next(cfg, s, e))
  {
    hide Inv;
    match e
    case Spawn(t, req) => SpawnKeeps(cfg, s, t, req);
    case BeginAttempt(t, now, open) => BeginKeeps(cfg, s, t, now, open);
    case Proceed(t) => ProceedKeeps(cfg, s, t);
    case Connected(t, x) => ConnectKeeps(cfg, s, t, x);
    case ConnectFailed(t, status) => FailureKeeps(cfg, s, t, status);
    case CreateSent(t, answer) => SendCreateKeeps(cfg, s, t, answer);
    case CreateFailed(t, status, reply) => CreateFailedKeeps(cfg, s, t, status, reply);
  }

  lemma {:induction false} StreamStepKeeps(cfg: Config, s: State, e: Event)
    requires Inv(cfg, s) && Enabled(cfg, s, e)
    requires e.FirstReceived? || e.FirstFailed? || e.FirstEscaped? || e.StreamStarted? || e.StreamNeverStarted?
      || e.StreamReceived? || e.StreamFailed? || e.Resumed? || e.Aborted?
    ensures Inv(cfg, Next(cfg, s, e))
  {
    hide Inv;
    match e
    case FirstReceived(t) => ReceiveFirstKeeps(cfg, s, t);
    case FirstFailed(t, status) => FailureKeeps(cfg, s, t, status);
    case FirstEscaped(t) => LoseSocketKeeps(cfg, s, t);
    case StreamStarted(t) => StreamStartedKeeps(cfg, s, t);
    case StreamNeverStarted(t) => LoseSocketKeeps(cfg, s, t);
    case StreamReceived(t) => ReceiveNextKeeps(cfg, s, t);
    case StreamFailed(t) => StreamEndKeeps(cfg, s, t);
    case Resumed(t, b) => ResumeKeeps(cfg, s, t, b);
    case Aborted(t) => StreamEndKeeps(cfg, s, t);
  }

  lemma {:induction false} BackgroundStepKeeps(cfg: Config, s: State, e: Event)
    requires Inv(cfg, s) && Enabled(cfg, s, e)
    requires e.CloseOne? || e.ProcessedSent? || e.ProcessedFailed? || e.ReleaseEntered? || e.DrainTimedOut?
      || e.DrainReceived? || e.DrainFailed? || e.Aclose? || e.UpstreamSpoke?
    ensures Inv(cfg, Next(cfg, s, e))
  {
    hide Inv;
    match e
    case CloseOne(t) => CloseNextKeeps(cfg, s, t);
    case ProcessedSent(t) => SendProcessedKeeps(cfg, s, t);
    case ProcessedFailed(t) => ShedKeeps(cfg, s, t);
    case ReleaseEntered(t, appearsOpen) => EnterReleaseKeeps(cfg, s, t, appearsOpen);
    case DrainTimedOut(t, now) => ParkKeeps(cfg, s, t, now);
    case DrainReceived(t) => DrainOneKeeps(cfg, s, t);
    case DrainFailed(t) => ShedKeeps(cfg, s, t);
    case Aclose(t, order) => TakeAllIdleKeeps(cfg, s, t, order);
    case UpstreamSpoke(x, m) => QueueKeeps(cfg, s, x, m);
  }

  /** Every step of every task, and of the upstream, keeps the invariant. */
  lemma {:induction false} StepKeepsInvariant(cfg: Config, s: State, e: Event)
    requires cfg.maxAttempts >= 1 && Inv(cfg, s) && Enabled(cfg, s, e)
    ensures Inv(cfg, Next(cfg, s, e))
  {
    hide Inv, Enabled, Next;
    if e.Spawn? || e.BeginAttempt? || e.Proceed? || e.Connected? || e.ConnectFailed? || e.CreateSent? || e.CreateFailed? {
      OpeningStepKeeps(cfg, s, e);
    } else if e.CloseOne? || e.ProcessedSent? || e.ProcessedFailed? || e.ReleaseEntered? || e.DrainTimedOut?
      || e.DrainReceived? || e.DrainFailed? || e.Aclose? || e.UpstreamSpoke? {
      BackgroundStepKeeps(cfg, s, e);
    } else {
      StreamStepKeeps(cfg, s, e);
    }
  }

  lemma {:induction false} RunKeepsInvariant(cfg: Config, s: State, events: seq<Event>)
    requires cfg.maxAttempts >= 1 && Inv(cfg, s) && IsRun(cfg, s, events)
    ensures Inv(cfg, EndOf(cfg, s, events))
    decreases |events|
  {
    if events != [] {
      StepKeepsInvariant(cfg, s, events[0]);
      RunKeepsInvariant(cfg, Next(cfg, s, events[0]), events[1..]);
    }
  }

  ghost predicate Reachable(cfg: Config, s: State) {
    exists events :: IsRun(cfg, Initial, events) && EndOf(cfg, Initial, events) == s
  }

  lemma {:induction false} ReachableIsGood(cfg: Config, s: State)
    requires cfg.maxAttempts >= 1 && Reachable(cfg, s)
    ensures Inv(cfg, s)
  {
    var events :| IsRun(cfg, Initial, events) && EndOf(cfg, Initial, events) == s;
    assert Inv(cfg, Initial);
    RunKeepsInvariant(cfg, Initial, events);
  }
}
