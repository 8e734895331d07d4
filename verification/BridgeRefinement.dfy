/** The pooled bridge refines the simple one: each request, seen alone, behaves as if it had
    opened its own socket for every attempt and nobody else existed. */
module BridgeRefinement {
  import opened Basics
  import opened Messages
  import opened Pool
  import opened BridgeSystem
  import opened BridgeInvariants
  import opened BridgeShape
  import opened BridgeRuns
  import opened BridgeTransparency

  /** One request against an upstream of its own. `answer` is what the upstream answers to the
      create of the current attempt, and `shown` how much of it the client has been given. */
  datatype Private =
    | Trying(attempt: nat)
    | Waiting(attempt: nat, answer: seq<Message>)
    | Opened(attempt: nat, answer: seq<Message>)
    | Streaming(attempt: nat, answer: seq<Message>, shown: nat)
    | AttemptFailed(attempt: nat, status: nat)
    | Whole(attempt: nat, answer: seq<Message>)
    | CutShort(attempt: nat, answer: seq<Message>, shown: nat)
    | Refused(status: nat, attempts: nat)
    | Abandoned

  /** A bridge without a pool, one client at a time. No attempt follows a first message, frames
      come in order, and only the whole answer ends a stream normally. */
  ghost predicate PrivateStep(maxAttempts: nat, validBody: bool, p: Private, p': Private) {
    p == p' ||
    match p
    case Trying(n) =>
      || (!validBody && n == 1 && p' == Refused(400, 1))
      || (validBody && p'.Waiting? && p'.attempt == n && ValidAnswer(p'.answer))
      || (validBody && p'.AttemptFailed? && p'.attempt == n && RetriableStatus(p'.status))
    case Waiting(n, answer) =>
      || p' == Opened(n, answer) || p' == Abandoned
      || (p'.AttemptFailed? && p'.attempt == n && RetriableStatus(p'.status))
    case Opened(n, answer) =>
      || (answer != [] && answer[0].Text? && p' == Streaming(n, answer, 1))
      || (answer != [] && answer[0].Undecodable? && p' == CutShort(n, answer, 0))
      || p' == Abandoned
    case Streaming(n, answer, k) =>
      || (k < |answer| && answer[k].Text? && p' == Streaming(n, answer, k + 1))
      || (k == |answer| && p' == Whole(n, answer))
      || p' == CutShort(n, answer, k)
    case AttemptFailed(n, status) =>
      if n < maxAttempts then p' == Trying(n + 1) else p' == Refused(status, maxAttempts)
    case _ => false
  }

  /** What one request looks like from outside the pool. */
  function View(task: Task): Private
    requires task.RequestTask?
  {
    match task.phase
    case AwaitingFirst(_) => Waiting(task.attempt, task.answer)
    case Primed(_, _) => Opened(task.attempt, task.answer)
    case Receiving(_) => Streaming(task.attempt, task.answer, |task.shown|)
    case Yielding(_) => Streaming(task.attempt, task.answer, |task.shown|)
    case Failing(_, status) => AttemptFailed(task.attempt, status)
    case Ending(_) => CutShort(task.attempt, task.answer, |task.shown|)
    case Done(Completed) => Whole(task.attempt, task.answer)
    case Done(Cut) => CutShort(task.attempt, task.answer, |task.shown|)
    case Done(Raised(status, attempts)) => Refused(status, attempts)
    case Done(Lost) => Abandoned
    case _ => Trying(task.attempt)
  }

  ghost predicate Refines(cfg: Config, before: Task, after: Task)
    requires before.RequestTask? && after.RequestTask?
  {
    PrivateStep(cfg.maxAttempts, CreateRequest(before.req.body).Ok?, View(before), View(after))
  }

  /** Without a backlog, the next queued message is the next message of the answer. */
  lemma {:induction false} NextIsFromAnswer(task: Task, received: seq<Message>, pending: seq<Message>)
    requires task.RequestTask? && task.backlog == [] && ValidAnswer(task.answer)
    requires NoTerminal(received) && pending != [] && task.backlog + task.answer <= received + pending
    ensures |received| < |task.answer| && task.answer[|received|] == pending[0]
  {
    assert [] + task.answer == task.answer;
    if |task.answer| <= |received| {
      AllReceived(task.answer, received, pending);
    } else {
      assert task.answer[|received|] == (received + pending)[|received|];
    }
  }

  lemma {:induction false} AllReceived(answer: seq<Message>, received: seq<Message>, pending: seq<Message>)
    requires answer != [] && |answer| <= |received| && answer <= received + pending && NoTerminal(received)
    ensures !Terminal(Last(answer))
  {
    assert received[|answer| - 1] == (received + pending)[|answer| - 1];
  }

  lemma {:induction false} ShowRefines(cfg: Config, task: Task, x: SocketId, m: Message)
    requires task.RequestTask? && |task.shown| < |task.answer| && task.answer[|task.shown|] == m
    requires (task.phase.Primed? && task.shown == []) || task.phase.Receiving?
    ensures Refines(cfg, task, Show(task, x, m))
  {
  }

  lemma {:induction false} StreamStartedRefines(cfg: Config, s: State, t: TaskId)
    requires Inv(cfg, s) && IsRequest(s, t) && s.tasks[t].phase.Primed? && s.tasks[t].backlog == []
    ensures Refines(cfg, s.tasks[t], Show(s.tasks[t], s.tasks[t].phase.socket, s.tasks[t].phase.first))
  {
    var task := s.tasks[t];
    assert TaskOk(cfg, s, t);
    var received := [task.phase.first] + s.sockets[task.phase.socket].pending;
    assert [] + received == received;
    NextIsFromAnswer(task, [], received);
    ShowRefines(cfg, task, task.phase.socket, task.phase.first);
  }

  lemma {:induction false} StreamReceivedRefines(cfg: Config, s: State, t: TaskId)
    requires Inv(cfg, s) && IsRequest(s, t) && s.tasks[t].phase.Receiving? && HasPending(s, t) && s.tasks[t].backlog == []
    ensures Refines(cfg, s.tasks[t], ReceiveNext(s, t).tasks[t])
  {
    var task, x := s.tasks[t], SocketOf(s, t);
    assert TaskOk(cfg, s, t);
    NextIsFromAnswer(task, task.shown, s.sockets[x].pending);
    ShowRefines(cfg, task, x, s.sockets[x].pending[0]);
  }

  lemma {:induction false} ResumeRefines(cfg: Config, s: State, t: TaskId, b: TaskId)
    requires Inv(cfg, s) && IsRequest(s, t) && s.tasks[t].phase.Yielding? && OnSocket(s, t) && b !in s.tasks
    requires s.tasks[t].shown != [] && s.tasks[t].backlog == []
    ensures Refines(cfg, s.tasks[t], Resume(cfg, s, t, b).tasks[t])
  {
    var shown, answer := s.tasks[t].shown, s.tasks[t].answer;
    ShownWithoutBacklog(cfg, s, t);
    assert ShownOk(s.tasks[t]) by { assert TaskOk(cfg, s, t); }
    WholeOrNotYet(shown, answer);
    hide Inv, ValidAnswer, ShownOk, SeesOwnAnswer;
    if Terminal(Last(shown)) {
      ReturnRefines(cfg, s, t, b);
    } else {
      GoingOnRefines(cfg, s, t, b);
    }
    hide Terminal, Resume, Refines;
  }

  lemma {:induction false} ReturnRefines(cfg: Config, s: State, t: TaskId, b: TaskId)
    requires IsRequest(s, t) && s.tasks[t].phase.Yielding? && OnSocket(s, t) && b !in s.tasks
    requires s.tasks[t].shown != [] && Terminal(Last(s.tasks[t].shown)) && |s.tasks[t].shown| == |s.tasks[t].answer|
    ensures t in Resume(cfg, s, t, b).tasks && Refines(cfg, s.tasks[t], Resume(cfg, s, t, b).tasks[t])
  {
    hide CompletedId, Key, CreateRequest, ValidAnswer;
  }

  lemma {:induction false} GoingOnRefines(cfg: Config, s: State, t: TaskId, b: TaskId)
    requires IsRequest(s, t) && s.tasks[t].phase.Yielding? && OnSocket(s, t) && b !in s.tasks
    requires s.tasks[t].shown != [] && !Terminal(Last(s.tasks[t].shown))
    ensures t in Resume(cfg, s, t, b).tasks && Refines(cfg, s.tasks[t], Resume(cfg, s, t, b).tasks[t])
  {
    hide Terminal, Key, CreateRequest, ValidAnswer;
  }

  /** What ends with a terminal message is all of the answer. */
  lemma {:induction false} WholeOrNotYet(shown: seq<Message>, answer: seq<Message>)
    requires shown != [] && shown <= answer && ValidAnswer(answer)
    ensures Terminal(Last(shown)) ==> |shown| == |answer|
  {
    hide Terminal;
    if |shown| < |answer| {
      EndsBefore(shown, answer);
    }
  }

  predicate Closing(e: Event) {
    e.BeginAttempt? || e.Proceed? || e.CloseOne?
  }

  lemma {:induction false} ClosingRefines(cfg: Config, s: State, e: Event)
    requires Enabled(cfg, s, e) && Closing(e) && IsRequest(s, e.task) && AttemptOk(cfg, s.tasks[e.task])
    ensures IsRequest(Next(cfg, s, e), e.task) && Next(cfg, s, e).tasks[e.task].req == s.tasks[e.task].req
    ensures Refines(cfg, s.tasks[e.task], Next(cfg, s, e).tasks[e.task])
  {
    hide CheckoutFrom, Key, ValidAnswer;
  }

  predicate Opening(e: Event) {
    e.Connected? || e.ConnectFailed? || e.CreateSent? || e.CreateFailed?
  }

  lemma {:induction false} OpeningRefines(cfg: Config, s: State, e: Event)
    requires Enabled(cfg, s, e) && Opening(e) && IsRequest(s, e.task) && AttemptOk(cfg, s.tasks[e.task])
    ensures IsRequest(Next(cfg, s, e), e.task) && Next(cfg, s, e).tasks[e.task].req == s.tasks[e.task].req
    ensures Refines(cfg, s.tasks[e.task], Next(cfg, s, e).tasks[e.task])
  {
  }

  lemma {:induction false} OtherStepRefines(cfg: Config, s: State, e: Event)
    requires Enabled(cfg, s, e) && !e.UpstreamSpoke? && IsRequest(s, e.task)
    requires !Closing(e) && !Opening(e) && !e.StreamStarted? && !e.StreamReceived? && !e.Resumed?
    ensures IsRequest(Next(cfg, s, e), e.task) && Next(cfg, s, e).tasks[e.task].req == s.tasks[e.task].req
    ensures Refines(cfg, s.tasks[e.task], Next(cfg, s, e).tasks[e.task])
  {
  }

  lemma {:induction false} NoStepRefines(cfg: Config, task: Task)
    requires task.RequestTask?
    ensures Refines(cfg, task, task)
  {
  }

  lemma {:induction false} StreamStepRefines(cfg: Config, s: State, e: Event)
    requires Inv(cfg, s) && Enabled(cfg, s, e) && (e.StreamStarted? || e.StreamReceived? || e.Resumed?)
    requires IsRequest(s, e.task) && s.tasks[e.task].backlog == []
    ensures IsRequest(Next(cfg, s, e), e.task) && Next(cfg, s, e).tasks[e.task].req == s.tasks[e.task].req
    ensures Refines(cfg, s.tasks[e.task], Next(cfg, s, e).tasks[e.task])
  {
    StepShape(cfg, s, e);
    if e.StreamStarted? {
      StreamStartedRefines(cfg, s, e.task);
    } else if e.StreamReceived? {
      StreamReceivedRefines(cfg, s, e.task);
    } else {
      ResumeRefines(cfg, s, e.task, e.background);
    }
    hide Inv, Refines, ReceiveNext, Resume, Show;
  }

  /** Every step of the pooled system, seen by one request, is a step of the private bridge. */
  lemma {:induction false} StepRefinesPrivateBridge(cfg: Config, s: State, e: Event, t: TaskId)
    requires Inv(cfg, s) && Enabled(cfg, s, e) && IsRequest(s, t) && s.tasks[t].backlog == []
    ensures IsRequest(Next(cfg, s, e), t) && Next(cfg, s, e).tasks[t].req == s.tasks[t].req
    ensures Refines(cfg, s.tasks[t], Next(cfg, s, e).tasks[t])
  {
    assert AttemptOk(cfg, s.tasks[t]) by { assert TaskOk(cfg, s, t); }
    hide Next, Enabled, Inv, AttemptOk, Refines;
    if e.UpstreamSpoke? || t != e.task {
      OtherTasksWait(cfg, s, e, t);
      NoStepRefines(cfg, s.tasks[t]);
    } else if e.StreamStarted? || e.StreamReceived? || e.Resumed? {
      StreamStepRefines(cfg, s, e);
    } else if Closing(e) {
      ClosingRefines(cfg, s, e);
    } else if Opening(e) {
      OpeningRefines(cfg, s, e);
    } else {
      OtherStepRefines(cfg, s, e);
    }
  }

  // ---- Whole runs ----

  ghost predicate PrivateRun(maxAttempts: nat, validBody: bool, states: seq<Private>) {
    states != [] && forall i :: 0 < i < |states| ==> PrivateStep(maxAttempts, validBody, states[i - 1], states[i])
  }

  /** What the request looks like after each step of a run, from its start on. */
  ghost function Views(cfg: Config, s: State, events: seq<Event>, t: TaskId): seq<Private>
    requires IsRun(cfg, s, events)
    decreases |events|
  {
    (if IsRequest(s, t) then [View(s.tasks[t])] else [])
      + if events == [] then [] else Views(cfg, Next(cfg, s, events[0]), events[1..], t)
  }

  /** The views of a run that ends in a state that looks like `end`. */
  ghost predicate PrivateRunTo(maxAttempts: nat, validBody: bool, states: seq<Private>, start: Private, end: Private) {
    PrivateRun(maxAttempts, validBody, states) && states[0] == start && Last(states) == end
  }

  lemma {:induction false} RunFromRequest(cfg: Config, s: State, events: seq<Event>, t: TaskId)
    requires cfg.maxAttempts >= 1 && Inv(cfg, s) && IsRun(cfg, s, events) && AllInTurn(cfg, s, events)
    requires NothingQueued(s) && NoBacklog(s) && IsRequest(s, t)
    ensures IsRequest(EndOf(cfg, s, events), t) && EndOf(cfg, s, events).tasks[t].req == s.tasks[t].req
    ensures PrivateRunTo(cfg.maxAttempts, CreateRequest(s.tasks[t].req.body).Ok?, Views(cfg, s, events, t),
                         View(s.tasks[t]), View(EndOf(cfg, s, events).tasks[t]))
    decreases |events|
  {
    assert s.tasks[t].backlog == [];
    hide Next, Enabled, View, PrivateStep, Inv, NothingQueued, NoBacklog, InTurn, CreateRequest, PrivateRun;
    if events == [] {
      AddNothing([View(s.tasks[t])]);
      PrivateStart(cfg.maxAttempts, CreateRequest(s.tasks[t].req.body).Ok?, View(s.tasks[t]));
    } else {
      var s' := Next(cfg, s, events[0]);
      StepRefinesPrivateBridge(cfg, s, events[0], t);
      StepKeepsInvariant(cfg, s, events[0]);
      QuietStep(cfg, s, events[0]);
      BacklogStep(cfg, s, events[0]);
      RunFromRequest(cfg, s', events[1..], t);
      PrivateCons(cfg.maxAttempts, CreateRequest(s.tasks[t].req.body).Ok?, View(s.tasks[t]), Views(cfg, s', events[1..], t));
    }
  }

  lemma {:induction false} PrivateStart(maxAttempts: nat, validBody: bool, p: Private)
    ensures PrivateRun(maxAttempts, validBody, [p])
  {
  }

  lemma {:induction false} PrivateCons(maxAttempts: nat, validBody: bool, p: Private, rest: seq<Private>)
    requires PrivateRun(maxAttempts, validBody, rest) && PrivateStep(maxAttempts, validBody, p, rest[0])
    ensures PrivateRun(maxAttempts, validBody, [p] + rest) && rest != [] && Last([p] + rest) == Last(rest)
  {
    hide PrivateStep;
    var all := [p] + rest;
    forall i | 0 < i < |all| ensures PrivateStep(maxAttempts, validBody, all[i - 1], all[i]) {
      assert all[i] == rest[i - 1] && (i > 1 ==> all[i - 1] == rest[i - 2]);
    }
  }

  /** In every run of the pooled bridge in which the upstream is quiet between exchanges, what a
      request looks like step by step, from its start to where it stands, is a run of the private
      bridge. */
  lemma {:induction false} PoolRefinesPrivateBridge(cfg: Config, s: State, events: seq<Event>, t: TaskId)
    requires cfg.maxAttempts >= 1 && Inv(cfg, s) && IsRun(cfg, s, events) && AllInTurn(cfg, s, events)
    requires NothingQueued(s) && NoBacklog(s) && t !in s.tasks && IsRequest(EndOf(cfg, s, events), t)
    ensures var task := EndOf(cfg, s, events).tasks[t];
      PrivateRunTo(cfg.maxAttempts, CreateRequest(task.req.body).Ok?, Views(cfg, s, events, t), Trying(1), View(task))
    decreases |events|
  {
    hide Enabled, PrivateStep, PrivateRunTo, CreateRequest;
    var s' := Next(cfg, s, events[0]);
    StepKeepsInvariant(cfg, s, events[0]);
    QuietStep(cfg, s, events[0]);
    BacklogStep(cfg, s, events[0]);
    NewTasks(cfg, s, events[0], t);
    hide Next, Inv, View, NothingQueued, NoBacklog;
    NothingBefore(Views(cfg, s', events[1..], t));
    if t !in s'.tasks {
      PoolRefinesPrivateBridge(cfg, s', events[1..], t);
    } else if IsRequest(s', t) {
      RunFromRequest(cfg, s', events[1..], t);
    } else {
      NeverARequest(cfg, s', events[1..], t);
    }
  }

  lemma {:induction false} NothingBefore(states: seq<Private>)
    ensures [] + states == states
  {
  }

  lemma {:induction false} NewTasks(cfg: Config, s: State, e: Event, t: TaskId)
    requires Enabled(cfg, s, e) && t !in s.tasks
    ensures IsRequest(Next(cfg, s, e), t) ==> View(Next(cfg, s, e).tasks[t]) == Trying(1)
  {
    StepShape(cfg, s, e);
    hide Next, Enabled;
  }

  lemma {:induction false} StillNotARequest(cfg: Config, s: State, e: Event, t: TaskId)
    requires Enabled(cfg, s, e) && t in s.tasks && !s.tasks[t].RequestTask?
    ensures t in Next(cfg, s, e).tasks && !Next(cfg, s, e).tasks[t].RequestTask?
  {
    StepShape(cfg, s, e);
    hide Next, Enabled;
  }

  lemma {:induction false} NeverARequest(cfg: Config, s: State, events: seq<Event>, t: TaskId)
    requires IsRun(cfg, s, events) && t in s.tasks && !s.tasks[t].RequestTask?
    ensures !IsRequest(EndOf(cfg, s, events), t)
    decreases |events|
  {
    if events != [] {
      StillNotARequest(cfg, s, events[0], t);
      NeverARequest(cfg, Next(cfg, s, events[0]), events[1..], t);
    }
  }

  /** The same from the very start: nothing is assumed of the run but that the upstream is quiet
      between exchanges. */
  lemma {:induction false} EveryRequestIsPrivate(cfg: Config, events: seq<Event>, t: TaskId)
    requires cfg.maxAttempts >= 1 && IsRun(cfg, Initial, events) && AllInTurn(cfg, Initial, events)
    requires IsRequest(EndOf(cfg, Initial, events), t)
    ensures var task := EndOf(cfg, Initial, events).tasks[t];
      PrivateRunTo(cfg.maxAttempts, CreateRequest(task.req.body).Ok?, Views(cfg, Initial, events, t), Trying(1), View(task))
  {
    assert Inv(cfg, Initial);
    hide Next, Enabled, PrivateRunTo, Inv;
    PoolRefinesPrivateBridge(cfg, Initial, events, t);
  }
}
