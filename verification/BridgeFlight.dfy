/** How a stream goes from its socket to its client, and who has the socket when it ends. */
module BridgeFlight {
  import opened Basics
  import opened Messages
  import opened Pool
  import opened BridgeSystem
  import opened BridgeInvariants
  import opened BridgeSteps
  import opened BridgeShape
  import opened BridgeRuns
  import opened BridgeOwnership

  /** The exchange that a socket is in: its last create and what was received since. */
  datatype Exchange = NoExchange | Exchange(req: Request, received: seq<Message>)

  function ExchangeOf(log: seq<WireEvent>): Exchange {
    if log == [] then NoExchange else After(ExchangeOf(Front(log)), Last(log))
  }

  function After(x: Exchange, e: WireEvent): Exchange {
    match e
    case SentCreate(req) => Exchange(req, [])
    case SentProcessed(_) => NoExchange
    case Received(m) => if x.Exchange? then x.(received := x.received + [m]) else NoExchange
  }

  lemma {:induction false} ExchangeSnoc(log: seq<WireEvent>, e: WireEvent)
    ensures ExchangeOf(log + [e]) == After(ExchangeOf(log), e)
  {
    assert Front(log + [e]) == log;
  }

  /** What a request in flight has received on its socket: nothing while it waits, then its first
      message, then exactly what its client was shown, in order, the first message once and first. */
  ghost predicate FlightOk(s: State, t: TaskId)
    requires IsRequest(s, t)
  {
    var task := s.tasks[t];
    match task.phase
    case AwaitingFirst(x) => x in s.sockets && ExchangeOf(s.sockets[x].log) == Exchange(task.req, [])
    case Primed(x, first) => x in s.sockets && ExchangeOf(s.sockets[x].log) == Exchange(task.req, [first])
    case Receiving(x) => x in s.sockets && ExchangeOf(s.sockets[x].log) == Exchange(task.req, task.shown)
    case Yielding(x) => x in s.sockets && ExchangeOf(s.sockets[x].log) == Exchange(task.req, task.shown)
    case _ => true
  }

  ghost predicate FlightsOk(s: State) {
    forall t :: IsRequest(s, t) ==> FlightOk(s, t)
  }

  predicate Advances(e: Event) {
    e.CreateSent? || e.FirstReceived? || e.StreamStarted? || e.StreamReceived? || e.Resumed?
  }

  /** No other step of its own leaves a request in flight. */
  lemma {:induction false} OtherwiseGrounded(cfg: Config, s: State, e: Event)
    requires Enabled(cfg, s, e) && !e.UpstreamSpoke? && !Advances(e) && IsRequest(Next(cfg, s, e), e.task)
    ensures var phase := Next(cfg, s, e).tasks[e.task].phase;
      !phase.AwaitingFirst? && !phase.Primed? && !phase.Receiving? && !phase.Yielding?
  {
    StepShape(cfg, s, e);
    hide Next, Enabled;
  }

  lemma {:induction false} CreateStartsFlight(s: State, t: TaskId, answer: seq<Message>)
    requires IsRequest(s, t) && OnSocket(s, t)
    ensures IsRequest(SendCreate(s, t, answer), t) && FlightOk(SendCreate(s, t, answer), t)
  {
    ExchangeSnoc(s.sockets[SocketOf(s, t)].log, SentCreate(s.tasks[t].req));
    hide ExchangeOf, Sockets;
  }

  lemma {:induction false} FirstIsInFlight(s: State, t: TaskId)
    requires IsRequest(s, t) && s.tasks[t].phase.AwaitingFirst? && HasPending(s, t) && FlightOk(s, t)
    ensures IsRequest(ReceiveFirst(s, t), t) && FlightOk(ReceiveFirst(s, t), t)
  {
    var socket := s.sockets[SocketOf(s, t)];
    ExchangeSnoc(socket.log, Received(socket.pending[0]));
    AddNothing([socket.pending[0]]);
    hide ExchangeOf;
  }

  lemma {:induction false} NextIsInFlight(s: State, t: TaskId)
    requires IsRequest(s, t) && s.tasks[t].phase.Receiving? && HasPending(s, t) && FlightOk(s, t)
    ensures IsRequest(ReceiveNext(s, t), t) && FlightOk(ReceiveNext(s, t), t)
  {
    var socket := s.sockets[SocketOf(s, t)];
    ExchangeSnoc(socket.log, Received(socket.pending[0]));
    hide ExchangeOf;
  }

  lemma {:induction false} StartKeepsFlight(s: State, t: TaskId)
    requires IsRequest(s, t) && s.tasks[t].phase.Primed? && FlightOk(s, t) && s.tasks[t].shown == []
    ensures var s' := SetTask(s, t, Show(s.tasks[t], s.tasks[t].phase.socket, s.tasks[t].phase.first));
      IsRequest(s', t) && FlightOk(s', t)
  {
    AddNothing([s.tasks[t].phase.first]);
    hide ExchangeOf;
  }

  lemma {:induction false} ResumeKeepsFlight(cfg: Config, s: State, t: TaskId, b: TaskId)
    requires IsRequest(s, t) && s.tasks[t].phase.Yielding? && OnSocket(s, t) && s.tasks[t].shown != [] && b !in s.tasks && FlightOk(s, t)
    ensures IsRequest(Resume(cfg, s, t, b), t) && FlightOk(Resume(cfg, s, t, b), t)
  {
    hide ExchangeOf, Terminal, CompletedId;
  }

  lemma {:induction false} PrimedShowsNothing(cfg: Config, s: State, t: TaskId)
    requires Inv(cfg, s) && IsRequest(s, t) && s.tasks[t].phase.Primed?
    ensures s.tasks[t].shown == []
  {
    assert TaskOk(cfg, s, t);
  }

  lemma {:induction false} AdvanceKeepsFlight(cfg: Config, s: State, e: Event)
    requires Inv(cfg, s) && Enabled(cfg, s, e) && Advances(e) && FlightOk(s, e.task)
    ensures IsRequest(Next(cfg, s, e), e.task) && FlightOk(Next(cfg, s, e), e.task)
  {
    hide Inv, FlightOk, SendCreate, ReceiveFirst, ReceiveNext, Resume, Show, SetTask, ValidAnswer, Next, Enabled;
    match e
    case CreateSent(t, answer) => CreateSentIs(cfg, s, t, answer); CreateStartsFlight(s, t, answer);
    case FirstReceived(t) => FirstReceivedIs(cfg, s, t); FirstIsInFlight(s, t);
    case StreamStarted(t) => StreamStartedIs(cfg, s, t); PrimedShowsNothing(cfg, s, t); StartKeepsFlight(s, t);
    case StreamReceived(t) => StreamReceivedIs(cfg, s, t); NextIsInFlight(s, t);
    case Resumed(t, b) => ResumedIs(cfg, s, t, b); ResumeKeepsFlight(cfg, s, t, b);
  }

  lemma {:induction false} StepKeepsFlights(cfg: Config, s: State, e: Event)
    requires Inv(cfg, s) && Enabled(cfg, s, e) && FlightsOk(s)
    ensures FlightsOk(Next(cfg, s, e))
  {
    var s' := Next(cfg, s, e);
    forall t | IsRequest(s', t) ensures FlightOk(s', t) {
      if e.UpstreamSpoke? || t != e.task {
        BystanderKeepsFlight(cfg, s, e, t);
      } else if Advances(e) {
        AdvanceKeepsFlight(cfg, s, e);
      } else {
        OtherwiseGrounded(cfg, s, e);
      }
    }
  }

  lemma {:induction false} BystanderKeepsFlight(cfg: Config, s: State, e: Event, t: TaskId)
    requires Inv(cfg, s) && Enabled(cfg, s, e) && FlightsOk(s) && (e.UpstreamSpoke? || t != e.task)
    requires IsRequest(Next(cfg, s, e), t)
    ensures FlightOk(Next(cfg, s, e), t)
  {
    hide Next, Enabled, Inv, BodyOk;
    if t in s.tasks {
      OtherTasksWait(cfg, s, e, t);
      GoodTask(cfg, s, t);
      assert FlightOk(s, t);
      forall x | x in Sockets(s.tasks[t]) ensures x in Next(cfg, s, e).sockets && Next(cfg, s, e).sockets[x].log == s.sockets[x].log {
        StepOwners(cfg, s, e, x);
      }
    } else {
      NewTasksAreNotFlying(cfg, s, e, t);
    }
  }

  lemma {:induction false} NewTasksAreNotFlying(cfg: Config, s: State, e: Event, t: TaskId)
    requires Enabled(cfg, s, e) && t !in s.tasks && (e.UpstreamSpoke? || t != e.task)
    ensures !IsRequest(Next(cfg, s, e), t)
  {
    StepShape(cfg, s, e);
    hide Next, Enabled;
  }

  // ---- Everything that was ever shown ----

  /** The messages were received on socket `x`, after the request's own create and in that order:
      they are all that its exchange had received when its log was `n` long. */
  ghost predicate ReceivedOn(s: State, req: Request, shown: seq<Message>, x: SocketId, n: nat) {
    x in s.sockets && n <= |s.sockets[x].log| && ExchangeOf(s.sockets[x].log[..n]) == Exchange(req, shown)
  }

  ghost predicate WasReceived(s: State, req: Request, shown: seq<Message>) {
    shown != [] ==> exists x: SocketId, n: nat :: ReceivedOn(s, req, shown, x, n)
  }

  ghost predicate AllReceived(s: State) {
    forall t :: IsRequest(s, t) ==> WasReceived(s, s.tasks[t].req, s.tasks[t].shown)
  }

  /** Logs only grow, so what was received stays received. */
  lemma {:induction false} ReceivedStays(cfg: Config, s: State, e: Event, req: Request, shown: seq<Message>)
    requires Inv(cfg, s) && Enabled(cfg, s, e) && WasReceived(s, req, shown)
    ensures WasReceived(Next(cfg, s, e), req, shown)
  {
    hide Next, Enabled, Inv, ExchangeOf;
    if shown != [] {
      var x: SocketId, n: nat :| ReceivedOn(s, req, shown, x, n);
      StepOwners(cfg, s, e, x);
      var log, log' := s.sockets[x].log, Next(cfg, s, e).sockets[x].log;
      assert log <= log' && log'[..n] == log[..n];
      assert ReceivedOn(Next(cfg, s, e), req, shown, x, n);
    }
  }

  /** A request is shown something only by a step that takes it to the yield. */
  lemma {:induction false} ShownAtYields(cfg: Config, s: State, e: Event)
    requires Enabled(cfg, s, e) && !e.UpstreamSpoke? && IsRequest(Next(cfg, s, e), e.task)
    ensures var task' := Next(cfg, s, e).tasks[e.task];
      if IsRequest(s, e.task) then
        task'.req == s.tasks[e.task].req && (task'.shown == s.tasks[e.task].shown || task'.phase.Yielding?)
      else task'.shown == []
  {
    StepShape(cfg, s, e);
    hide Next, Enabled;
  }

  lemma {:induction false} StepKeepsReceived(cfg: Config, s: State, e: Event)
    requires Inv(cfg, s) && Enabled(cfg, s, e) && FlightsOk(s) && AllReceived(s)
    ensures AllReceived(Next(cfg, s, e))
  {
    var s' := Next(cfg, s, e);
    StepKeepsFlights(cfg, s, e);
    hide Inv, ExchangeOf;
    forall t | IsRequest(s', t) ensures WasReceived(s', s'.tasks[t].req, s'.tasks[t].shown) {
      RequestKeepsReceived(cfg, s, e, t);
    }
  }

  lemma {:induction false} RequestKeepsReceived(cfg: Config, s: State, e: Event, t: TaskId)
    requires Inv(cfg, s) && Enabled(cfg, s, e) && AllReceived(s) && FlightsOk(Next(cfg, s, e)) && IsRequest(Next(cfg, s, e), t)
    ensures WasReceived(Next(cfg, s, e), Next(cfg, s, e).tasks[t].req, Next(cfg, s, e).tasks[t].shown)
  {
    var s' := Next(cfg, s, e);
    if e.UpstreamSpoke? || t != e.task {
      if t in s.tasks {
        OtherTasksWait(cfg, s, e, t);
      } else {
        NewTasksAreNotFlying(cfg, s, e, t);
      }
    } else {
      ShownAtYields(cfg, s, e);
    }
    hide Next, Enabled, Inv, ExchangeOf, WasReceived;
    var task' := s'.tasks[t];
    if IsRequest(s, t) && task'.shown == s.tasks[t].shown {
      ReceivedStays(cfg, s, e, task'.req, task'.shown);
    } else if task'.phase.Yielding? {
      YieldedWasReceived(s', t);
    } else {
      NothingWasShown(s', task'.req);
    }
  }

  lemma {:induction false} YieldedWasReceived(s: State, t: TaskId)
    requires IsRequest(s, t) && s.tasks[t].phase.Yielding? && FlightOk(s, t)
    ensures WasReceived(s, s.tasks[t].req, s.tasks[t].shown)
  {
    var x := s.tasks[t].phase.socket;
    var log := s.sockets[x].log;
    assert log[..|log|] == log;
    assert ReceivedOn(s, s.tasks[t].req, s.tasks[t].shown, x, |log|);
  }

  lemma {:induction false} NothingWasShown(s: State, req: Request)
    ensures WasReceived(s, req, [])
  {
  }

  lemma {:induction false} RunKeepsReceived(cfg: Config, s: State, events: seq<Event>)
    requires cfg.maxAttempts >= 1 && Inv(cfg, s) && FlightsOk(s) && AllReceived(s) && IsRun(cfg, s, events)
    ensures FlightsOk(EndOf(cfg, s, events)) && AllReceived(EndOf(cfg, s, events))
    decreases |events|
  {
    hide Next, Enabled, Inv, FlightsOk, AllReceived;
    if events != [] {
      StepKeepsInvariant(cfg, s, events[0]);
      StepKeepsFlights(cfg, s, events[0]);
      StepKeepsReceived(cfg, s, events[0]);
      RunKeepsReceived(cfg, Next(cfg, s, events[0]), events[1..]);
    }
  }

  /** In every reachable state, in every phase and whatever the upstream does, what a client was
      shown is exactly what its request received on one socket from its own create on: no message
      lost, doubled or moved. While the request is in flight, that is all it has received there. */
  lemma {:induction false} ShownIsReceived(cfg: Config, s: State, t: TaskId)
    requires cfg.maxAttempts >= 1 && Reachable(cfg, s) && IsRequest(s, t)
    ensures WasReceived(s, s.tasks[t].req, s.tasks[t].shown)
    ensures FlightOk(s, t)
  {
    var events :| IsRun(cfg, Initial, events) && EndOf(cfg, Initial, events) == s;
    assert Inv(cfg, Initial);
    RunKeepsReceived(cfg, Initial, events);
  }

  // ---- Handing the socket over ----

  predicate Streaming(phase: Phase, x: SocketId) {
    phase == Receiving(x) || phase == Yielding(x)
  }

  /** The stream goes on; or it returned normally, after a completed message, and one new
      background task has the socket; or it ended otherwise and is about to close the socket. */
  ghost predicate HandsOver(s: State, s': State, t: TaskId, b: TaskId, x: SocketId)
    requires IsRequest(s, t) && IsRequest(s', t)
  {
    var phase := s'.tasks[t].phase;
    if phase == Done(Completed) then
      && s.tasks[t].shown != [] && Terminal(Last(s.tasks[t].shown))
      && b !in s.tasks && IsBackground(s', b) && Sockets(s'.tasks[b]) == [x]
      && s'.tasks == s.tasks[t := s'.tasks[t]][b := s'.tasks[b]]
      && x in s'.sockets && s'.sockets[x].owner == Held(b)
    else
      && (Streaming(phase, x) || phase == Ending([x]))
      && s'.tasks == s.tasks[t := s'.tasks[t]]
      && x in s'.sockets && s'.sockets[x].owner == Held(t)
  }

  lemma {:induction false} ResumeHandsOver(cfg: Config, s: State, t: TaskId, b: TaskId, x: SocketId)
    requires IsRequest(s, t) && s.tasks[t].phase == Yielding(x) && OnSocket(s, t) && s.tasks[t].shown != [] && b !in s.tasks
    requires s.sockets[x].owner == Held(t)
    ensures IsRequest(Resume(cfg, s, t, b), t) && HandsOver(s, Resume(cfg, s, t, b), t, b, x)
  {
    hide Key;
  }

  lemma {:induction false} ReceiveHandsOver(s: State, t: TaskId, x: SocketId)
    requires IsRequest(s, t) && s.tasks[t].phase == Receiving(x) && HasPending(s, t) && s.sockets[x].owner == Held(t)
    ensures IsRequest(ReceiveNext(s, t), t) && HandsOver(s, ReceiveNext(s, t), t, t, x)
  {
    hide Terminal;
  }

  /** A stream hands over its socket exactly once. Only a normal return, by the step that resumes
      it after a completed message, gives it to a background task; an abort at that very yield, a
      failed receive and an undecodable message all lead to closing it. */
  lemma {:induction false} StreamHandsOver(cfg: Config, s: State, e: Event, x: SocketId)
    requires Inv(cfg, s) && Enabled(cfg, s, e) && !e.UpstreamSpoke? && IsRequest(s, e.task) && Streaming(s.tasks[e.task].phase, x)
    ensures IsRequest(Next(cfg, s, e), e.task)
    ensures HandsOver(s, Next(cfg, s, e), e.task, if e.Resumed? then e.background else e.task, x)
  {
    HoldsIt(cfg, s, e.task, x);
    hide Inv, Resume, ReceiveNext;
    if e.Resumed? {
      ResumeHandsOver(cfg, s, e.task, e.background, x);
    } else if e.StreamReceived? {
      ReceiveHandsOver(s, e.task, x);
    } else {
      EndHandsOver(cfg, s, e, x);
    }
  }

  lemma {:induction false} HoldsIt(cfg: Config, s: State, t: TaskId, x: SocketId)
    requires Inv(cfg, s) && IsRequest(s, t) && Streaming(s.tasks[t].phase, x)
    ensures OnSocket(s, t) && SocketOf(s, t) == x && s.sockets[x].owner == Held(t)
  {
    assert TaskOk(cfg, s, t);
    assert Sockets(s.tasks[t]) == [x];
    assert x in Sockets(s.tasks[t]);
  }

  lemma {:induction false} EndHandsOver(cfg: Config, s: State, e: Event, x: SocketId)
    requires Enabled(cfg, s, e) && !e.UpstreamSpoke? && IsRequest(s, e.task) && Streaming(s.tasks[e.task].phase, x)
    requires !e.Resumed? && !e.StreamReceived?
    requires OnSocket(s, e.task) && SocketOf(s, e.task) == x && s.sockets[x].owner == Held(e.task)
    ensures IsRequest(Next(cfg, s, e), e.task)
    ensures HandsOver(s, Next(cfg, s, e), e.task, e.task, x)
  {
    assert e.StreamFailed? || e.Aborted?;
    hide Enabled, Terminal;
  }

  lemma {:induction false} EndingOnlyCloses(cfg: Config, s: State, e: Event)
    requires Enabled(cfg, s, e) && !e.UpstreamSpoke? && IsRequest(s, e.task)
    requires s.tasks[e.task].phase.Ending? && s.tasks[e.task].phase.doomed != []
    ensures e.CloseOne?
  {
  }

  /** What a stream that ended otherwise does next: it can only close its socket, which closes it
      for the first and last time, and then stop. */
  lemma {:induction false} EndingCloses(cfg: Config, s: State, e: Event, x: SocketId)
    requires Inv(cfg, s) && Enabled(cfg, s, e) && !e.UpstreamSpoke? && IsRequest(s, e.task) && s.tasks[e.task].phase == Ending([x])
    ensures var s' := Next(cfg, s, e);
      && e.CloseOne? && IsRequest(s', e.task) && s'.tasks[e.task].phase == Ending([])
      && x in s'.sockets && s'.sockets[x].closes == 1 && s'.sockets[x].owner == Closed
  {
    assert s.sockets[x].closes == 0 by {
      assert TaskOk(cfg, s, e.task);
      assert x in Sockets(s.tasks[e.task]);
      assert SocketOk(cfg, s, x);
    }
    EndingOnlyCloses(cfg, s, e);
    CloseOneIs(cfg, s, e.task);
    hide Inv, Next, Enabled;
  }

  // ---- From a stream to its end ----

  /** Where a stream that has not handed over its socket may stand. */
  ghost predicate HasNotHandedOver(s: State, t: TaskId, x: SocketId) {
    IsRequest(s, t) &&
    var phase := s.tasks[t].phase;
    || Streaming(phase, x)
    || phase == Ending([x])
    || (phase in {Ending([]), Done(Cut)} && x in s.sockets && s.sockets[x].owner == Closed && s.sockets[x].closes == 1)
  }

  ghost predicate TakesNoStep(events: seq<Event>, t: TaskId) {
    forall i :: 0 <= i < |events| ==> events[i].UpstreamSpoke? || events[i].task != t
  }

  /** Somewhere in the run the stream of `t` returns normally and hands its socket to the new
      background task `b`, and that is the last step that `t` takes. */
  ghost predicate HandedTo(cfg: Config, s: State, events: seq<Event>, t: TaskId, b: TaskId, x: SocketId)
    requires IsRun(cfg, s, events)
    decreases |events|
  {
    events != [] &&
    var s' := Next(cfg, s, events[0]);
    if events[0] == Resumed(t, b) && IsRequest(s', t) && s'.tasks[t].phase == Done(Completed) then
      && IsBackground(s', b) && Sockets(s'.tasks[b]) == [x] && x in s'.sockets && s'.sockets[x].owner == Held(b)
      && TakesNoStep(events[1..], t)
    else HandedTo(cfg, s', events[1..], t, b, x)
  }

  lemma {:induction false} DoneTakesNoStep(cfg: Config, s: State, e: Event, t: TaskId)
    requires Enabled(cfg, s, e) && IsRequest(s, t) && s.tasks[t].phase.Done?
    ensures e.UpstreamSpoke? || e.task != t
  {
  }

  lemma {:induction false} DoneIsDone(cfg: Config, s: State, events: seq<Event>, t: TaskId)
    requires IsRun(cfg, s, events) && IsRequest(s, t) && s.tasks[t].phase.Done?
    ensures TakesNoStep(events, t)
    ensures IsRequest(EndOf(cfg, s, events), t) && EndOf(cfg, s, events).tasks[t] == s.tasks[t]
    decreases |events|
  {
    hide Next, Enabled;
    if events != [] {
      DoneTakesNoStep(cfg, s, events[0], t);
      OtherTasksWait(cfg, s, events[0], t);
      DoneIsDone(cfg, Next(cfg, s, events[0]), events[1..], t);
    }
  }

  lemma {:induction false} EndedProceeds(cfg: Config, s: State, e: Event)
    requires Enabled(cfg, s, e) && !e.UpstreamSpoke? && IsRequest(s, e.task)
    requires s.tasks[e.task].phase in {Ending([]), Done(Cut)}
    ensures IsRequest(Next(cfg, s, e), e.task) && Next(cfg, s, e).tasks[e.task].phase == Done(Cut)
  {
  }

  /** One step: the socket is handed over, or it is still with the stream, or closed. */
  lemma {:induction false} OneMoreStep(cfg: Config, s: State, e: Event, t: TaskId, x: SocketId)
    requires Inv(cfg, s) && Enabled(cfg, s, e) && HasNotHandedOver(s, t, x)
    ensures var s' := Next(cfg, s, e);
      || HasNotHandedOver(s', t, x)
      || (&& e.Resumed? && e.task == t && IsRequest(s', t) && s'.tasks[t].phase == Done(Completed)
          && IsBackground(s', e.background) && Sockets(s'.tasks[e.background]) == [x]
          && x in s'.sockets && s'.sockets[x].owner == Held(e.background))
  {
    hide Next, Enabled, Inv;
    var phase := s.tasks[t].phase;
    if phase in {Ending([]), Done(Cut)} {
      StepOwners(cfg, s, e, x);
    }
    if e.UpstreamSpoke? || e.task != t {
      OtherTasksWait(cfg, s, e, t);
    } else if Streaming(phase, x) {
      StreamHandsOver(cfg, s, e, x);
    } else if phase == Ending([x]) {
      EndingCloses(cfg, s, e, x);
    } else {
      EndedProceeds(cfg, s, e);
    }
  }

  lemma {:induction false} StreamEndsOnceFrom(cfg: Config, s: State, events: seq<Event>, t: TaskId, x: SocketId)
    requires cfg.maxAttempts >= 1 && Inv(cfg, s) && IsRun(cfg, s, events) && HasNotHandedOver(s, t, x)
    ensures var s' := EndOf(cfg, s, events);
      || HasNotHandedOver(s', t, x)
      || (IsRequest(s', t) && s'.tasks[t].phase == Done(Completed) && exists b :: HandedTo(cfg, s, events, t, b, x))
    decreases |events|
  {
    hide Next, Enabled, Inv;
    if events != [] {
      var e, rest, s' := events[0], events[1..], Next(cfg, s, events[0]);
      OneMoreStep(cfg, s, e, t, x);
      StepKeepsInvariant(cfg, s, e);
      if HasNotHandedOver(s', t, x) {
        StreamEndsOnceFrom(cfg, s', rest, t, x);
        if !HasNotHandedOver(EndOf(cfg, s', rest), t, x) {
          var b :| HandedTo(cfg, s', rest, t, b, x);
          StillHandedTo(cfg, s, events, t, x, b);
        }
      } else {
        DoneIsDone(cfg, s', rest, t);
        assert HandedTo(cfg, s, events, t, e.background, x);
      }
    }
  }

  lemma {:induction false} StillHandedTo(cfg: Config, s: State, events: seq<Event>, t: TaskId, x: SocketId, b: TaskId)
    requires IsRun(cfg, s, events) && events != []
    requires var s' := Next(cfg, s, events[0]); !(IsRequest(s', t) && s'.tasks[t].phase == Done(Completed))
    requires HandedTo(cfg, Next(cfg, s, events[0]), events[1..], t, b, x)
    ensures HandedTo(cfg, s, events, t, b, x)
  {
    hide Next, Enabled;
  }

  // ---- From an opened stream, which need not have started ----

  predicate IsPrimed(s: State, t: TaskId, x: SocketId) {
    IsRequest(s, t) && s.tasks[t].phase.Primed? && s.tasks[t].phase.socket == x
  }

  predicate IsLost(s: State, t: TaskId, x: SocketId) {
    && IsRequest(s, t) && s.tasks[t].phase == Done(Lost)
    && x in s.sockets && s.sockets[x].owner == Escaped && s.sockets[x].closes == 0
  }

  lemma {:induction false} PrimedStarts(cfg: Config, s: State, e: Event, x: SocketId)
    requires Enabled(cfg, s, e) && !e.UpstreamSpoke? && IsPrimed(s, e.task, x)
    requires OnSocket(s, e.task) && s.sockets[x].closes == 0
    ensures HasNotHandedOver(Next(cfg, s, e), e.task, x) || IsLost(Next(cfg, s, e), e.task, x)
  {
    assert e.StreamStarted? || e.StreamNeverStarted?;
    assert Sockets(s.tasks[e.task]) == [x];
    hide Enabled;
  }

  lemma {:induction false} PrimedStep(cfg: Config, s: State, e: Event, t: TaskId, x: SocketId)
    requires Inv(cfg, s) && Enabled(cfg, s, e) && IsPrimed(s, t, x)
    ensures var s' := Next(cfg, s, e); IsPrimed(s', t, x) || HasNotHandedOver(s', t, x) || IsLost(s', t, x)
  {
    hide Next, Enabled, Inv, HasNotHandedOver, IsLost;
    if e.UpstreamSpoke? || e.task != t {
      OtherTasksWait(cfg, s, e, t);
    } else {
      assert Sockets(s.tasks[t])[0] == x && x in Sockets(s.tasks[t]);
      HeldIsNotGone(cfg, s, t);
      GoodSocket(cfg, s, t);
      PrimedStarts(cfg, s, e, x);
    }
  }

  lemma {:induction false} LostStaysLost(cfg: Config, s: State, events: seq<Event>, t: TaskId, x: SocketId)
    requires cfg.maxAttempts >= 1 && Inv(cfg, s) && IsRun(cfg, s, events) && IsLost(s, t, x)
    ensures IsLost(EndOf(cfg, s, events), t, x)
  {
    hide Inv, IsRun, EndOf;
    DoneIsDone(cfg, s, events, t);
    NothingAfterClose(cfg, s, events, x);
  }

  lemma {:induction false} OpenedEndsOnceFrom(cfg: Config, s: State, events: seq<Event>, t: TaskId, x: SocketId)
    requires cfg.maxAttempts >= 1 && Inv(cfg, s) && IsRun(cfg, s, events) && IsPrimed(s, t, x)
    ensures var s' := EndOf(cfg, s, events);
      || IsPrimed(s', t, x) || HasNotHandedOver(s', t, x) || IsLost(s', t, x)
      || (IsRequest(s', t) && s'.tasks[t].phase == Done(Completed) && exists b :: HandedTo(cfg, s, events, t, b, x))
    decreases |events|
  {
    hide Next, Enabled, Inv, HandedTo;
    if events != [] {
      var rest, s' := events[1..], Next(cfg, s, events[0]);
      PrimedStep(cfg, s, events[0], t, x);
      StepKeepsInvariant(cfg, s, events[0]);
      var end := EndOf(cfg, s', rest);
      if IsLost(s', t, x) {
        LostStaysLost(cfg, s', rest, t, x);
      } else {
        if IsPrimed(s', t, x) {
          OpenedEndsOnceFrom(cfg, s', rest, t, x);
        } else {
          StreamEndsOnceFrom(cfg, s', rest, t, x);
        }
        if !IsPrimed(end, t, x) && !HasNotHandedOver(end, t, x) && !IsLost(end, t, x) {
          var b :| HandedTo(cfg, s', rest, t, b, x);
          StillHandedTo(cfg, s, events, t, x, b);
        }
      }
    }
  }

  /** A stream that was opened on a socket, started or not, over every continuation of the run: it
      still has the socket, or is about to close it, or has closed it exactly once, or has returned
      normally after one step that handed the socket to one new background task, its last step.
      Only a stream that had not started when it was dropped has lost its socket. */
  lemma {:induction false} StreamEndsOnce(cfg: Config, s: State, events: seq<Event>, t: TaskId, x: SocketId)
    requires cfg.maxAttempts >= 1 && Inv(cfg, s) && IsRun(cfg, s, events)
    requires IsRequest(s, t) && (Streaming(s.tasks[t].phase, x) || IsPrimed(s, t, x))
    ensures var s' := EndOf(cfg, s, events);
      && IsRequest(s', t)
      && match s'.tasks[t].phase
         case Primed(y, _) => y == x && IsPrimed(s, t, x)
         case Receiving(y) => y == x
         case Yielding(y) => y == x
         case Ending(doomed) => doomed == [x] || (doomed == [] && x in s'.sockets && s'.sockets[x].owner == Closed && s'.sockets[x].closes == 1)
         case Done(Cut) => x in s'.sockets && s'.sockets[x].owner == Closed && s'.sockets[x].closes == 1
         case Done(Completed) => exists b :: HandedTo(cfg, s, events, t, b, x)
         case Done(Lost) => x in s'.sockets && s'.sockets[x].owner == Escaped && s'.sockets[x].closes == 0 && IsPrimed(s, t, x)
         case _ => false
  {
    hide Inv, HandedTo;
    if IsPrimed(s, t, x) {
      OpenedEndsOnceFrom(cfg, s, events, t, x);
    } else {
      StreamEndsOnceFrom(cfg, s, events, t, x);
    }
  }
}
