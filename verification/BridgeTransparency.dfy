/** The pooled bridge shows each client what a bridge with one socket per request would. */
module BridgeTransparency {
  import opened Basics
  import opened Messages
  import opened Pool
  import opened BridgeSystem
  import opened BridgeInvariants
  import opened BridgeShape
  import opened BridgeRuns
  import opened BridgeOwnership

  // ---- An upstream that does not speak out of turn ----

  /** Between exchanges: pooled, or taken but its create has not been sent. Nothing reads the
      socket then, so a message that arrives is met by the next request. */
  predicate BetweenExchanges(s: State, x: SocketId) {
    x in s.sockets &&
    match s.sockets[x].owner
    case Pooled(_) => true
    case Held(t) => IsRequest(s, t) && (s.tasks[t].phase == SendingCreate(x)
                    || (s.tasks[t].phase.Sweeping? && s.tasks[t].phase.selected == Some(x)))
    case _ => false
  }

  /** The upstream may speak whenever it likes, except on a socket between exchanges. */
  predicate InTurn(s: State, e: Event) {
    e.UpstreamSpoke? ==> !BetweenExchanges(s, e.socket)
  }

  ghost predicate AllInTurn(cfg: Config, s: State, events: seq<Event>)
    requires IsRun(cfg, s, events)
    decreases |events|
  {
    events == [] || (InTurn(s, events[0]) && AllInTurn(cfg, Next(cfg, s, events[0]), events[1..]))
  }

  ghost predicate NothingQueued(s: State) {
    forall x :: BetweenExchanges(s, x) ==> s.sockets[x].pending == []
  }

  ghost predicate NoBacklog(s: State) {
    forall t :: IsRequest(s, t) ==> s.tasks[t].backlog == []
  }

  /** The steps after which the acting request is between exchanges. */
  lemma {:induction false} ActorBetweenExchanges(cfg: Config, s: State, e: Event, x: SocketId)
    requires Enabled(cfg, s, e) && !e.UpstreamSpoke? && !e.BeginAttempt?
    requires IsRequest(Next(cfg, s, e), e.task)
    requires var phase := Next(cfg, s, e).tasks[e.task].phase; phase == SendingCreate(x) || (phase.Sweeping? && phase.selected == Some(x))
    ensures IsRequest(s, e.task)
    ensures e.Connected? ==> x == e.socket
    ensures !e.Connected? ==> (e.Proceed? || e.CloseOne?) && s.tasks[e.task].phase.Sweeping? && s.tasks[e.task].phase.selected == Some(x)
  {
    StepShape(cfg, s, e);
    hide Next, Enabled;
  }

  /** Parking a socket leaves its queue alone, which was empty when the drain gave up. */
  lemma {:induction false} ParkedIsQuiet(cfg: Config, s: State, e: Event, x: SocketId)
    requires Inv(cfg, s) && Enabled(cfg, s, e) && e.DrainTimedOut? && x in s.sockets && s.sockets[x].owner == Held(e.task)
    ensures x in Next(cfg, s, e).sockets && Next(cfg, s, e).sockets[x].pending == []
  {
    DrainTimedOutIs(cfg, s, e.task, e.now);
    ParkOwners(cfg, s, e.task, e.now, x);
    assert x in Sockets(s.tasks[e.task]) by { assert SocketOk(cfg, s, x); }
    hide Inv, Park, Next, Enabled;
  }

  lemma {:induction false} QuietPooled(cfg: Config, s: State, e: Event, x: SocketId)
    requires Inv(cfg, s) && Enabled(cfg, s, e) && NothingQueued(s) && InTurn(s, e) && x in s.sockets
    requires x in Next(cfg, s, e).sockets && Next(cfg, s, e).sockets[x].owner.Pooled?
    ensures Next(cfg, s, e).sockets[x].pending == []
  {
    hide Next, Enabled, Inv;
    StepOwners(cfg, s, e, x);
    if s.sockets[x].owner.Pooled? {
      assert BetweenExchanges(s, x);
      if e.UpstreamSpoke? {
        SpokenElsewhere(cfg, s, e, x);
      }
    } else {
      ParkedIsQuiet(cfg, s, e, x);
    }
  }

  lemma {:induction false} SpokenElsewhere(cfg: Config, s: State, e: Event, x: SocketId)
    requires Enabled(cfg, s, e) && e.UpstreamSpoke? && x in s.sockets && x != e.socket
    ensures x in Next(cfg, s, e).sockets && Next(cfg, s, e).sockets[x] == s.sockets[x]
  {
  }

  lemma {:induction false} QuietActor(cfg: Config, s: State, e: Event, x: SocketId)
    requires Inv(cfg, s) && Enabled(cfg, s, e) && NothingQueued(s) && x in s.sockets && !e.UpstreamSpoke?
    requires BetweenExchanges(Next(cfg, s, e), x) && Next(cfg, s, e).sockets[x].owner == Held(e.task)
    ensures Next(cfg, s, e).sockets[x].pending == []
  {
    if e.BeginAttempt? {
      BeginOwners(cfg, s, e.task, e.now, e.open, x);
      assert SocketOk(cfg, s, x);
      assert BetweenExchanges(s, x);
    } else {
      ActorBetweenExchanges(cfg, s, e, x);
      if !e.Connected? {
        assert TaskOk(cfg, s, e.task);
        assert BetweenExchanges(s, x);
      }
    }
  }

  lemma {:induction false} QuietBystander(cfg: Config, s: State, e: Event, x: SocketId)
    requires Inv(cfg, s) && Enabled(cfg, s, e) && NothingQueued(s) && InTurn(s, e) && x in s.sockets
    requires var s' := Next(cfg, s, e);
      BetweenExchanges(s', x) && s'.sockets[x].owner.Held? && (e.UpstreamSpoke? || s'.sockets[x].owner.task != e.task)
    ensures Next(cfg, s, e).sockets[x].pending == []
  {
    var u := Next(cfg, s, e).sockets[x].owner.task;
    assert SocketOk(cfg, s, x);
    hide Next, Enabled, Inv, SocketOk;
    StepOwners(cfg, s, e, x);
    StepShape(cfg, s, e);
    assert u in s.tasks;
    OtherTasksWait(cfg, s, e, u);
    assert BetweenExchanges(s, x);
    if e.UpstreamSpoke? {
      SpokenElsewhere(cfg, s, e, x);
    }
  }

  /** A socket between exchanges has an empty queue: it did before the step, or it is new, or the
      drain of `release` has just found nothing on it. */
  lemma {:induction false} QuietStep(cfg: Config, s: State, e: Event)
    requires Inv(cfg, s) && Enabled(cfg, s, e) && NothingQueued(s) && InTurn(s, e)
    ensures NothingQueued(Next(cfg, s, e))
  {
    var s' := Next(cfg, s, e);
    OnlyConnectingEnters(cfg, s, e);
    forall x | BetweenExchanges(s', x) ensures s'.sockets[x].pending == [] {
      if x in s.sockets {
        if s'.sockets[x].owner.Pooled? {
          QuietPooled(cfg, s, e, x);
        } else if !e.UpstreamSpoke? && s'.sockets[x].owner == Held(e.task) {
          QuietActor(cfg, s, e, x);
        } else {
          QuietBystander(cfg, s, e, x);
        }
      }
    }
  }

  lemma {:induction false} BacklogStep(cfg: Config, s: State, e: Event)
    requires Inv(cfg, s) && Enabled(cfg, s, e) && NothingQueued(s) && NoBacklog(s)
    ensures NoBacklog(Next(cfg, s, e))
  {
    var s' := Next(cfg, s, e);
    forall t | IsRequest(s', t) ensures s'.tasks[t].backlog == [] {
      if t in s.tasks && (e.UpstreamSpoke? || t != e.task) {
        OtherTasksWait(cfg, s, e, t);
      } else if e.CreateSent? {
        assert TaskOk(cfg, s, t);
        assert BetweenExchanges(s, SocketOf(s, t));
      } else {
        ActorKeepsBacklog(cfg, s, e);
      }
    }
  }

  lemma {:induction false} ActorKeepsBacklog(cfg: Config, s: State, e: Event)
    requires Enabled(cfg, s, e) && !e.UpstreamSpoke? && !e.CreateSent?
    ensures IsRequest(Next(cfg, s, e), e.task) ==>
      Next(cfg, s, e).tasks[e.task].backlog == if e.task in s.tasks && s.tasks[e.task].RequestTask? then s.tasks[e.task].backlog else []
    ensures forall t :: t in Next(cfg, s, e).tasks && t !in s.tasks && t != e.task ==> !IsRequest(Next(cfg, s, e), t)
  {
    StepShape(cfg, s, e);
    hide Next, Enabled;
  }

  lemma {:induction false} InTurnRunsHaveNoBacklog(cfg: Config, s: State, events: seq<Event>)
    requires cfg.maxAttempts >= 1 && Inv(cfg, s) && IsRun(cfg, s, events) && AllInTurn(cfg, s, events)
    requires NothingQueued(s) && NoBacklog(s)
    ensures NothingQueued(EndOf(cfg, s, events)) && NoBacklog(EndOf(cfg, s, events))
    decreases |events|
  {
    if events != [] {
      StepKeepsInvariant(cfg, s, events[0]);
      QuietStep(cfg, s, events[0]);
      BacklogStep(cfg, s, events[0]);
      InTurnRunsHaveNoBacklog(cfg, Next(cfg, s, events[0]), events[1..]);
    }
  }

  // ---- Transparency ----

  /** The client was shown a prefix of the answer to its own create, all of it if its stream
      ended normally. */
  ghost predicate SeesOwnAnswer(task: Task)
    requires task.RequestTask?
  {
    && task.shown <= task.answer
    && (task.phase == Done(Completed) ==> task.shown == task.answer && ValidAnswer(task.answer))
  }

  lemma {:induction false} EndsBefore(a: seq<Message>, b: seq<Message>)
    requires a != [] && a < b && NoTerminal(Front(b))
    ensures !Terminal(Last(a))
  {
    assert Front(b)[|a| - 1] == Last(a);
  }

  lemma {:induction false} ShownWithoutBacklog(cfg: Config, s: State, t: TaskId)
    requires Inv(cfg, s) && IsRequest(s, t) && s.tasks[t].backlog == []
    ensures SeesOwnAnswer(s.tasks[t])
  {
    var shown, answer := s.tasks[t].shown, s.tasks[t].answer;
    assert TaskOk(cfg, s, t);
    assert [] + answer == answer;
    if shown != [] {
      if |answer| < |shown| {
        EndsBefore(answer, shown);
      } else if |shown| < |answer| {
        EndsBefore(shown, answer);
      }
    }
  }

  /** Pool transparency: over any interleaving of requests, retries, aborts, background work and
      shutdown, with an upstream that only keeps quiet between exchanges, every client sees its
      own answer. */
  lemma {:induction false} PoolTransparency(cfg: Config, events: seq<Event>, t: TaskId)
    requires cfg.maxAttempts >= 1 && IsRun(cfg, Initial, events) && AllInTurn(cfg, Initial, events)
    requires IsRequest(EndOf(cfg, Initial, events), t)
    ensures SeesOwnAnswer(EndOf(cfg, Initial, events).tasks[t])
  {
    assert Inv(cfg, Initial);
    RunKeepsInvariant(cfg, Initial, events);
    InTurnRunsHaveNoBacklog(cfg, Initial, events);
    ShownWithoutBacklog(cfg, EndOf(cfg, Initial, events), t);
  }

  /** Whatever the upstream does, what a client is shown is a prefix of what was queued when its
      create was sent, followed by its answer: checkout does not drain the socket again. */
  lemma {:induction false} BacklogIsShownFirst(cfg: Config, s: State, t: TaskId)
    requires cfg.maxAttempts >= 1 && Reachable(cfg, s) && IsRequest(s, t)
    ensures s.tasks[t].shown <= s.tasks[t].backlog + s.tasks[t].answer
  {
    ReachableIsGood(cfg, s);
    var shown, all := s.tasks[t].shown, s.tasks[t].backlog + s.tasks[t].answer;
    assert TaskOk(cfg, s, t);
    hide Inv, Terminal;
    if |all| < |shown| {
      assert Last(all) == Last(s.tasks[t].answer);
      EndsBefore(all, shown);
    }
  }

  /** Two lists of messages that each end with their only terminal one, and begin alike, are equal. */
  lemma {:induction false} EndTogether(a: seq<Message>, b: seq<Message>, c: seq<Message>)
    requires ValidAnswer(a) && ValidAnswer(b) && a <= c && b <= c
    ensures a == b
  {
    hide Terminal;
    if |a| < |b| {
      EndsBefore(a, b);
    } else if |b| < |a| {
      EndsBefore(b, a);
    }
  }

  lemma {:induction false} AnswerBehindBacklog(backlog: seq<Message>, answer: seq<Message>)
    requires ValidAnswer(answer) && answer <= backlog + answer
    ensures backlog == [] || answer <= backlog
  {
    hide Terminal;
    assert Last(answer) == (backlog + answer)[|answer| - 1];
    if |answer| <= |backlog| {
      assert (backlog + answer)[..|answer|] == backlog[..|answer|];
    }
  }

  /** Exactly when a stream that ended normally showed the client its own answer, whatever the upstream
      did: when nothing was queued at its create, or what was queued begins with that very answer. */
  lemma {:induction false} OwnAnswerIffNoOtherWasQueued(cfg: Config, s: State, t: TaskId)
    requires cfg.maxAttempts >= 1 && Reachable(cfg, s) && IsRequest(s, t) && s.tasks[t].phase == Done(Completed)
    ensures var task := s.tasks[t];
      task.shown == task.answer <==> task.backlog == [] || task.answer <= task.backlog
  {
    var task := s.tasks[t];
    BacklogIsShownFirst(cfg, s, t);
    ReachableIsGood(cfg, s);
    assert TaskOk(cfg, s, t);
    hide Inv, Terminal, ValidAnswer;
    assert ValidAnswer(task.shown) && ValidAnswer(task.answer) by { CompletedIsValid(cfg, s, t); }
    if task.shown == task.answer {
      AnswerBehindBacklog(task.backlog, task.answer);
    } else if task.backlog == [] {
      AddNothing(task.answer);
      EndTogether(task.shown, task.answer, task.answer);
    } else if task.answer <= task.backlog {
      EndTogether(task.shown, task.answer, task.backlog + task.answer);
    }
  }

  lemma {:induction false} CompletedIsValid(cfg: Config, s: State, t: TaskId)
    requires Inv(cfg, s) && IsRequest(s, t) && s.tasks[t].phase == Done(Completed)
    ensures ValidAnswer(s.tasks[t].shown) && ValidAnswer(s.tasks[t].answer)
  {
    assert TaskOk(cfg, s, t);
    hide Inv, Terminal;
  }

  /** While a stream still runs, too, its client sees its own answer if and only if nothing was
      queued, when what was queued does not begin like the answer. */
  lemma {:induction false} OwnAnswerExactly(cfg: Config, s: State, t: TaskId)
    requires cfg.maxAttempts >= 1 && Reachable(cfg, s) && IsRequest(s, t) && s.tasks[t].shown != []
    requires var task := s.tasks[t]; task.backlog != [] ==> task.answer != [] && task.backlog[0] != task.answer[0]
    ensures SeesOwnAnswer(s.tasks[t]) <==> s.tasks[t].backlog == []
  {
    ReachableIsGood(cfg, s);
    var task := s.tasks[t];
    if task.backlog == [] {
      ShownWithoutBacklog(cfg, s, t);
    } else {
      assert TaskOk(cfg, s, t);
      assert (task.backlog + task.answer)[0] == task.backlog[0] == task.shown[0];
    }
  }
}
