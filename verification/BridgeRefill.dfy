/** Which tasks can still put a socket into the pool: an emptied pool stays empty, whatever happens
    short of a new request, if and only if none of them can. */
module BridgeRefill {
  import opened Basics
  import opened Messages
  import opened Pool
  import opened BridgeSystem
  import opened BridgeInvariants
  import opened BridgeShape
  import opened BridgeSteps
  import opened BridgeRuns
  import opened BridgeOwnership

  function Pending(sockets: map<SocketId, Socket>, x: SocketId): seq<Message> {
    if x in sockets then sockets[x].pending else []
  }

  ghost predicate AllText(messages: seq<Message>) {
    forall i :: 0 <= i < |messages| ==> messages[i].Text?
  }

  /** A stream can show all of these messages, and its queue is empty if the last one ends it. */
  ghost predicate EndsLast(messages: seq<Message>) {
    AllText(messages) && (messages != [] ==> NoTerminal(Front(messages)))
  }

  /** Whether a task can still put a socket into the pool, from where it stands and what is queued on
      its socket: there must be an attempt left, or the queue must let this one end cleanly. */
  ghost predicate TaskMayPark(cfg: Config, task: Task, sockets: map<SocketId, Socket>) {
    match task
    case RequestTask(req, attempt, phase, _, _, _, shown) => (
      match phase
      case Starting => CreateRequest(req.body).Ok?
      case Sweeping(None, _) => true
      case Sweeping(Some(x), _) => attempt < cfg.maxAttempts || (AllText(Pending(sockets, x)) && NoTerminal(Pending(sockets, x)))
      case Connecting => true
      case SendingCreate(x) => attempt < cfg.maxAttempts || (AllText(Pending(sockets, x)) && NoTerminal(Pending(sockets, x)))
      case AwaitingFirst(x) => attempt < cfg.maxAttempts || EndsLast(Pending(sockets, x))
      case Primed(x, first) => EndsLast([first] + Pending(sockets, x))
      case Receiving(x) => EndsLast(Pending(sockets, x))
      case Yielding(x) => shown != [] && EndsLast([Last(shown)] + Pending(sockets, x))
      case Failing(_, _) => attempt < cfg.maxAttempts
      case _ => false)
    case BackgroundTask(_, work) => (
      match work
      case SendingProcessed(x, _) => Pending(sockets, x) == []
      case Releasing(x) => Pending(sockets, x) == []
      case Draining(x) => Pending(sockets, x) == []
      case Shedding(_) => false)
    case AcloseTask(_) => false
  }

  ghost predicate MayPark(cfg: Config, s: State, t: TaskId) {
    t in s.tasks && TaskMayPark(cfg, s.tasks[t], s.sockets)
  }

  ghost predicate NobodyMayPark(cfg: Config, s: State) {
    forall t :: !MayPark(cfg, s, t)
  }

  ghost predicate NoSpawn(events: seq<Event>) {
    forall i :: 0 <= i < |events| ==> !events[i].Spawn?
  }

  /** No continuation without a new request ever finds the pool filled. */
  ghost predicate StaysEmpty(cfg: Config, s: State) {
    forall events :: IsRun(cfg, s, events) && NoSpawn(events) ==> EndOf(cfg, s, events).idle == map[]
  }

  // ---- Nobody can, nobody will ----

  lemma {:induction false} EndsLastCons(m: Message, rest: seq<Message>)
    ensures EndsLast([m] + rest) <==> m.Text? && EndsLast(rest) && (rest != [] ==> !Terminal(m))
  {
    var all := [m] + rest;
    assert all[0] == m && all[1..] == rest;
    hide Terminal;
    if rest != [] {
      assert Front(all) == [m] + Front(rest);
      assert forall i :: 0 <= i < |rest| ==> all[i + 1] == rest[i];
      assert forall i :: 0 <= i < |Front(rest)| ==> Front(all)[i + 1] == Front(rest)[i];
      assert Front(all)[0] == m;
    }
  }

  lemma {:induction false} EndsLastStart(messages: seq<Message>, more: seq<Message>)
    requires EndsLast(messages + more)
    ensures EndsLast(messages)
    ensures more != [] ==> AllText(messages) && NoTerminal(messages)
  {
    var all := messages + more;
    hide Terminal;
    assert forall i :: 0 <= i < |messages| ==> all[i] == messages[i];
    if more != [] {
      assert forall i :: 0 <= i < |messages| ==> Front(all)[i] == messages[i];
    } else {
      AddNothing(messages);
    }
  }

  lemma {:induction false} NeverEndsStart(messages: seq<Message>, more: seq<Message>)
    requires AllText(messages + more) && NoTerminal(messages + more)
    ensures AllText(messages) && NoTerminal(messages)
  {
    hide Terminal;
    assert forall i :: 0 <= i < |messages| ==> (messages + more)[i] == messages[i];
  }

  /** What is queued later never helps. */
  lemma {:induction false} MoreQueued(cfg: Config, task: Task, before: map<SocketId, Socket>, after: map<SocketId, Socket>)
    requires forall x :: x in Sockets(task) ==> Pending(before, x) <= Pending(after, x)
    requires TaskMayPark(cfg, task, after)
    ensures TaskMayPark(cfg, task, before)
  {
    hide EndsLast, NoTerminal, AllText, Pending, CreateRequest;
    forall x | x in Sockets(task) ensures
      && (EndsLast(Pending(after, x)) ==> EndsLast(Pending(before, x)))
      && (AllText(Pending(after, x)) && NoTerminal(Pending(after, x)) ==> AllText(Pending(before, x)) && NoTerminal(Pending(before, x)))
      && (forall m :: EndsLast([m] + Pending(after, x)) ==> EndsLast([m] + Pending(before, x)))
      && (Pending(after, x) == [] ==> Pending(before, x) == [])
    {
      MoreQueuedOn(Pending(before, x), Pending(after, x));
    }
  }

  lemma {:induction false} MoreQueuedOn(before: seq<Message>, after: seq<Message>)
    requires before <= after
    ensures EndsLast(after) ==> EndsLast(before)
    ensures AllText(after) && NoTerminal(after) ==> AllText(before) && NoTerminal(before)
    ensures forall m :: EndsLast([m] + after) ==> EndsLast([m] + before)
  {
    var more := after[|before|..];
    assert after == before + more;
    if EndsLast(after) { EndsLastStart(before, more); }
    if AllText(after) && NoTerminal(after) { NeverEndsStart(before, more); }
    hide EndsLast;
    forall m | EndsLast([m] + after) ensures EndsLast([m] + before) {
      assert [m] + after == ([m] + before) + more;
      EndsLastStart([m] + before, more);
    }
  }

  lemma {:induction false} QueueGrows(cfg: Config, s: State, e: Event, x: SocketId)
    requires Inv(cfg, s) && Enabled(cfg, s, e) && x in s.sockets
    requires e.UpstreamSpoke? || s.sockets[x].owner != Held(e.task)
    ensures Pending(s.sockets, x) <= Pending(Next(cfg, s, e).sockets, x)
  {
    hide Next, Enabled, Inv, Escapes;
    StepOwners(cfg, s, e, x);
    if e.UpstreamSpoke? {
      SpokenIsQueued(cfg, s, e, x);
    }
  }

  /** A task that waits keeps its sockets, and their queues only grow. */
  lemma {:induction false} WaitingStaysSpent(cfg: Config, s: State, e: Event, t: TaskId)
    requires Inv(cfg, s) && Enabled(cfg, s, e) && t in s.tasks && (e.UpstreamSpoke? || t != e.task)
    requires !MayPark(cfg, s, t)
    ensures !MayPark(cfg, Next(cfg, s, e), t)
  {
    var s' := Next(cfg, s, e);
    hide Next, Enabled, Inv, TaskMayPark, Sockets;
    OtherTasksWait(cfg, s, e, t);
    HeldIsNotGone(cfg, s, t);
    hide Pending;
    forall x | x in Sockets(s.tasks[t]) ensures Pending(s.sockets, x) <= Pending(s'.sockets, x) {
      QueueGrows(cfg, s, e, x);
    }
    if MayPark(cfg, s', t) {
      MoreQueued(cfg, s.tasks[t], s.sockets, s'.sockets);
    }
  }

  lemma {:induction false} SpokenIsQueued(cfg: Config, s: State, e: Event, x: SocketId)
    requires Enabled(cfg, s, e) && e.UpstreamSpoke? && x in s.sockets
    ensures x in Next(cfg, s, e).sockets && s.sockets[x].pending <= Next(cfg, s, e).sockets[x].pending
  {
  }

  predicate Opens(e: Event) {
    e.BeginAttempt? || e.Proceed? || e.Connected? || e.ConnectFailed? || e.CreateSent? || e.CreateFailed?
  }

  lemma {:induction false} OpeningStaysSpent(cfg: Config, s: State, e: Event)
    requires Enabled(cfg, s, e) && Opens(e) && !MayPark(cfg, s, e.task)
    ensures !MayPark(cfg, Next(cfg, s, e), e.task)
  {
    var s' := Next(cfg, s, e);
    hide EndsLast, AllText, NoTerminal, CheckoutFrom, CreateRequest, Terminal;
    if e.CreateSent? {
      var x := SocketOf(s, e.task);
      if EndsLast(s.sockets[x].pending + e.answer) {
        EndsLastStart(s.sockets[x].pending, e.answer);
      }
    }
  }

  predicate Starts(e: Event) {
    e.FirstReceived? || e.FirstFailed? || e.FirstEscaped? || e.StreamStarted? || e.StreamNeverStarted?
  }

  lemma {:induction false} FirstStaysSpent(cfg: Config, s: State, e: Event)
    requires Enabled(cfg, s, e) && Starts(e) && !MayPark(cfg, s, e.task)
    requires e.StreamStarted? ==> s.tasks[e.task].shown == []
    ensures !MayPark(cfg, Next(cfg, s, e), e.task)
  {
    hide EndsLast, AllText, NoTerminal, CreateRequest, Terminal;
    if e.FirstReceived? {
      var pending := s.sockets[SocketOf(s, e.task)].pending;
      assert [pending[0]] + pending[1..] == pending;
    }
  }

  predicate Streams(e: Event) {
    e.StreamReceived? || e.StreamFailed? || e.Aborted?
  }

  lemma {:induction false} StreamStaysSpent(cfg: Config, s: State, e: Event)
    requires Enabled(cfg, s, e) && Streams(e) && !MayPark(cfg, s, e.task)
    ensures !MayPark(cfg, Next(cfg, s, e), e.task)
  {
    hide EndsLast, AllText, NoTerminal, CreateRequest, Terminal;
    if e.StreamReceived? {
      var pending := s.sockets[SocketOf(s, e.task)].pending;
      assert [pending[0]] + pending[1..] == pending;
    }
  }

  lemma {:induction false} ResumedStaysSpent(cfg: Config, s: State, t: TaskId, b: TaskId)
    requires IsRequest(s, t) && s.tasks[t].phase.Yielding? && OnSocket(s, t) && s.tasks[t].shown != [] && b !in s.tasks
    requires Last(s.tasks[t].shown).Text? && !MayPark(cfg, s, t)
    ensures !MayPark(cfg, Resume(cfg, s, t, b), t) && !MayPark(cfg, Resume(cfg, s, t, b), b)
  {
    var pending := s.sockets[SocketOf(s, t)].pending;
    EndsLastCons(Last(s.tasks[t].shown), pending);
    NothingEndsLast();
    hide EndsLast, AllText, NoTerminal, CreateRequest, Terminal, CompletedId;
  }

  lemma {:induction false} NothingEndsLast()
    ensures EndsLast([])
  {
  }

  predicate Releases(e: Event) {
    e.ProcessedSent? || e.ProcessedFailed? || e.ReleaseEntered? || e.DrainReceived? || e.DrainFailed?
  }

  lemma {:induction false} ReleaseStaysSpent(cfg: Config, s: State, e: Event)
    requires Enabled(cfg, s, e) && Releases(e) && !MayPark(cfg, s, e.task)
    ensures !MayPark(cfg, Next(cfg, s, e), e.task)
  {
    hide EndsLast, AllText, NoTerminal, CreateRequest, Terminal;
    if e.ProcessedSent? {
      AddNothing(s.sockets[SocketOf(s, e.task)].pending);
    }
  }

  lemma {:induction false} ClosingStaysSpent(cfg: Config, s: State, t: TaskId)
    requires t in s.tasks && Doomed(s.tasks[t]) != [] && Doomed(s.tasks[t])[0] in s.sockets && !MayPark(cfg, s, t)
    ensures !MayPark(cfg, CloseNext(s, t), t)
  {
    hide EndsLast, AllText, NoTerminal, CreateRequest;
  }

  lemma {:induction false} DrainMayPark(cfg: Config, s: State, t: TaskId, now: real)
    requires Enabled(cfg, s, DrainTimedOut(t, now))
    ensures MayPark(cfg, s, t)
  {
  }

  /** What the invariant says about the message at which a stream waits. */
  lemma {:induction false} ShownSoFar(cfg: Config, s: State, t: TaskId)
    requires Inv(cfg, s) && IsRequest(s, t)
    ensures s.tasks[t].phase.Primed? ==> s.tasks[t].shown == []
    ensures s.tasks[t].shown != [] ==> Last(s.tasks[t].shown).Text?
  {
    GoodTask(cfg, s, t);
    hide Inv, Wire, Key, CreateRequest;
  }

  lemma {:induction false} ActorStaysSpent(cfg: Config, s: State, e: Event)
    requires Inv(cfg, s) && Enabled(cfg, s, e) && !e.UpstreamSpoke? && !e.Spawn?
    requires e.task in s.tasks && !MayPark(cfg, s, e.task)
    ensures !MayPark(cfg, Next(cfg, s, e), e.task)
    ensures e.Resumed? ==> !MayPark(cfg, Next(cfg, s, e), e.background)
  {
    hide Next, Enabled, Inv, MayPark, Resume, CloseNext, Doomed;
    if Opens(e) {
      OpeningStaysSpent(cfg, s, e);
    } else if Starts(e) {
      if e.StreamStarted? {
        StreamStartedIs(cfg, s, e.task);
        ShownSoFar(cfg, s, e.task);
      }
      FirstStaysSpent(cfg, s, e);
    } else if Streams(e) {
      StreamStaysSpent(cfg, s, e);
    } else if Releases(e) {
      ReleaseStaysSpent(cfg, s, e);
    } else if e.CloseOne? {
      CloseOneIs(cfg, s, e.task);
      ClosingStaysSpent(cfg, s, e.task);
    } else if e.Resumed? {
      ResumedIs(cfg, s, e.task, e.background);
      ShownSoFar(cfg, s, e.task);
      ResumedStaysSpent(cfg, s, e.task, e.background);
    } else if e.DrainTimedOut? {
      DrainMayPark(cfg, s, e.task, e.now);
    } else {
      AcloseIs(cfg, s, e.task, e.order);
    }
  }

  /** New tasks: `aclose`, and the background task of a stream that returned. */
  lemma {:induction false} NewTaskMayNot(cfg: Config, s: State, e: Event, t: TaskId)
    requires Enabled(cfg, s, e) && !e.Spawn? && t !in s.tasks && MayPark(cfg, Next(cfg, s, e), t)
    ensures e.Resumed? && t == e.background && e.task in s.tasks
  {
    StepShape(cfg, s, e);
    hide Next, Enabled;
    if e.Resumed? {
      ResumedIs(cfg, s, e.task, e.background);
    }
  }

  lemma {:induction false} StepStaysSpent(cfg: Config, s: State, e: Event)
    requires Inv(cfg, s) && Enabled(cfg, s, e) && !e.Spawn? && NobodyMayPark(cfg, s)
    ensures NobodyMayPark(cfg, Next(cfg, s, e))
  {
    hide Next, Enabled, Inv, MayPark;
    forall t ensures !MayPark(cfg, Next(cfg, s, e), t) {
      if t !in s.tasks {
        if MayPark(cfg, Next(cfg, s, e), t) {
          NewTaskMayNot(cfg, s, e, t);
          ActorStaysSpent(cfg, s, e);
        }
      } else if e.UpstreamSpoke? || t != e.task {
        WaitingStaysSpent(cfg, s, e, t);
      } else {
        ActorStaysSpent(cfg, s, e);
      }
    }
  }

  lemma {:induction false} StepStaysEmpty(cfg: Config, s: State, e: Event)
    requires Enabled(cfg, s, e) && NobodyMayPark(cfg, s) && s.idle == map[]
    ensures Next(cfg, s, e).idle == map[]
  {
    hide Next, Enabled, MayPark;
    StepShape(cfg, s, e);
    if e.BeginAttempt? {
      BeginFindsNothing(cfg, s, e.task, e.now, e.open);
    } else if e.Aclose? {
      AcloseLeavesNothing(cfg, s, e.task, e.order);
    } else if e.DrainTimedOut? {
      DrainMayPark(cfg, s, e.task, e.now);
    }
  }

  lemma {:induction false} RunStaysEmpty(cfg: Config, s: State, events: seq<Event>)
    requires cfg.maxAttempts >= 1 && Inv(cfg, s) && IsRun(cfg, s, events) && NoSpawn(events)
    requires NobodyMayPark(cfg, s) && s.idle == map[]
    ensures EndOf(cfg, s, events).idle == map[]
    decreases |events|
  {
    hide Next, Enabled, Inv, NobodyMayPark;
    if events != [] {
      StepKeepsInvariant(cfg, s, events[0]);
      StepStaysSpent(cfg, s, events[0]);
      StepStaysEmpty(cfg, s, events[0]);
      RunStaysEmpty(cfg, Next(cfg, s, events[0]), events[1..]);
    }
  }

  // ---- Who can, may ----

  ghost predicate CanFill(cfg: Config, s: State) {
    exists events :: IsRun(cfg, s, events) && NoSpawn(events) && EndOf(cfg, s, events).idle != map[]
  }

  lemma {:induction false} FilledNow(cfg: Config, s: State)
    requires s.idle != map[]
    ensures CanFill(cfg, s)
  {
    assert IsRun(cfg, s, []) && NoSpawn([]) && EndOf(cfg, s, []) == s;
  }

  lemma {:induction false} FillsLater(cfg: Config, s: State, e: Event)
    requires Enabled(cfg, s, e) && !e.Spawn? && CanFill(cfg, Next(cfg, s, e))
    ensures CanFill(cfg, s)
  {
    hide Next, Enabled;
    var s' := Next(cfg, s, e);
    var rest :| IsRun(cfg, s', rest) && NoSpawn(rest) && EndOf(cfg, s', rest).idle != map[];
    RunCons(cfg, s, e, rest);
    assert NoSpawn([e] + rest);
  }

  lemma {:induction false} Fresh(ids: set<nat>) returns (n: nat)
    ensures forall i :: i in ids ==> i < n
    decreases |ids|
  {
    n := 0;
    if ids != {} {
      var i :| i in ids;
      var m := Fresh(ids - {i});
      n := if i < m then m else i + 1;
      forall j | j in ids ensures j < n {
        if j != i { assert j in ids - {i}; }
      }
    }
  }

  /** A task is on the socket that its phase names. */
  lemma {:induction false} OneSocket(cfg: Config, s: State, t: TaskId)
    requires Inv(cfg, s) && t in s.tasks && |Sockets(s.tasks[t])| == 1
    ensures OnSocket(s, t)
  {
    assert Sockets(s.tasks[t])[0] in Sockets(s.tasks[t]);
    HeldIsNotGone(cfg, s, t);
  }

  lemma {:induction false} ParkingRefills(cfg: Config, s: State, b: TaskId, now: real)
    requires IsBackground(s, b) && OnSocket(s, b) && cfg.maxIdle > 0 && s.idle == map[]
    ensures IdleUnder(Park(cfg, s, b, SocketOf(s, b), now), s.tasks[b].key, SocketOf(s, b))
  {
    var entry := IdleEntry(SocketOf(s, b), s.tasks[b].key, now, now);
    assert ReturnTo(s.idle, entry, cfg.maxIdle).idle[entry.key] == [entry];
    assert Ids([entry])[0] == entry.socket;
  }

  lemma {:induction false} DrainFills(cfg: Config, s: State, t: TaskId)
    requires cfg.maxAttempts >= 1 && Inv(cfg, s) && Retains(cfg) && IsBackground(s, t) && s.tasks[t].work.Draining? && MayPark(cfg, s, t)
    ensures CanFill(cfg, s)
  {
    OneSocket(cfg, s, t);
    DrainTimedOutIs(cfg, s, t, s.clock);
    hide Next, Enabled, Inv, Park, IsRun, EndOf, CanFill;
    if s.idle != map[] {
      FilledNow(cfg, s);
    } else {
      ParkingRefills(cfg, s, t, s.clock);
      FilledNow(cfg, Next(cfg, s, DrainTimedOut(t, s.clock)));
      FillsLater(cfg, s, DrainTimedOut(t, s.clock));
    }
  }

  lemma {:induction false} ReleaseDrains(cfg: Config, s: State, t: TaskId)
    requires Retains(cfg) && IsBackground(s, t) && s.tasks[t].work.Releasing? && MayPark(cfg, s, t)
    ensures Enabled(cfg, s, ReleaseEntered(t, true))
    ensures var s' := Next(cfg, s, ReleaseEntered(t, true)); IsBackground(s', t) && s'.tasks[t].work.Draining? && MayPark(cfg, s', t)
  {
  }

  lemma {:induction false} ProcessedReleases(cfg: Config, s: State, t: TaskId)
    requires OnSocket(s, t) && IsBackground(s, t) && s.tasks[t].work.SendingProcessed? && MayPark(cfg, s, t)
    ensures Enabled(cfg, s, ProcessedSent(t))
    ensures var s' := Next(cfg, s, ProcessedSent(t)); IsBackground(s', t) && s'.tasks[t].work.Releasing? && MayPark(cfg, s', t)
  {
  }

  lemma {:induction false} ReleaseFills(cfg: Config, s: State, t: TaskId)
    requires cfg.maxAttempts >= 1 && Inv(cfg, s) && Retains(cfg) && IsBackground(s, t) && s.tasks[t].work.Releasing? && MayPark(cfg, s, t)
    ensures CanFill(cfg, s)
  {
    hide Next, Enabled, Inv, CanFill, MayPark;
    ReleaseDrains(cfg, s, t);
    StepKeepsInvariant(cfg, s, ReleaseEntered(t, true));
    DrainFills(cfg, Next(cfg, s, ReleaseEntered(t, true)), t);
    FillsLater(cfg, s, ReleaseEntered(t, true));
  }

  lemma {:induction false} BackgroundFills(cfg: Config, s: State, t: TaskId)
    requires cfg.maxAttempts >= 1 && Inv(cfg, s) && Retains(cfg) && IsBackground(s, t) && MayPark(cfg, s, t)
    ensures CanFill(cfg, s)
  {
    hide Next, Enabled, Inv, CanFill;
    match s.tasks[t].work
    case Draining(_) => DrainFills(cfg, s, t);
    case Releasing(_) => ReleaseFills(cfg, s, t);
    case SendingProcessed(_, _) =>
      OneSocket(cfg, s, t);
      ProcessedReleases(cfg, s, t);
      StepKeepsInvariant(cfg, s, ProcessedSent(t));
      ReleaseFills(cfg, Next(cfg, s, ProcessedSent(t)), t);
      FillsLater(cfg, s, ProcessedSent(t));
  }

  lemma {:induction false} ReturnReleases(cfg: Config, s: State, t: TaskId, b: TaskId)
    requires IsRequest(s, t) && s.tasks[t].phase.Yielding? && OnSocket(s, t) && b !in s.tasks && MayPark(cfg, s, t)
    requires Terminal(Last(s.tasks[t].shown))
    ensures var s' := Resume(cfg, s, t, b); IsBackground(s', b) && MayPark(cfg, s', b)
  {
    EndsLastCons(Last(s.tasks[t].shown), s.sockets[SocketOf(s, t)].pending);
    hide EndsLast, CompletedId, Key;
  }

  lemma {:induction false} YieldReceives(cfg: Config, s: State, t: TaskId, b: TaskId)
    requires IsRequest(s, t) && s.tasks[t].phase.Yielding? && OnSocket(s, t) && b !in s.tasks && MayPark(cfg, s, t)
    requires !Terminal(Last(s.tasks[t].shown))
    ensures var s' := Resume(cfg, s, t, b);
      IsRequest(s', t) && s'.tasks[t].phase == Receiving(s.tasks[t].phase.socket) && MayPark(cfg, s', t) && s'.sockets == s.sockets
  {
    EndsLastCons(Last(s.tasks[t].shown), s.sockets[SocketOf(s, t)].pending);
    hide EndsLast, CompletedId, Key;
  }

  lemma {:induction false} ReceiveYields(cfg: Config, s: State, t: TaskId)
    requires IsRequest(s, t) && s.tasks[t].phase.Receiving? && HasPending(s, t) && MayPark(cfg, s, t)
    ensures var s', x := ReceiveNext(s, t), s.tasks[t].phase.socket;
      && IsRequest(s', t) && s'.tasks[t].phase == Yielding(x) && MayPark(cfg, s', t)
      && Pending(s'.sockets, x) == Pending(s.sockets, x)[1..]
  {
    var pending := s.sockets[SocketOf(s, t)].pending;
    assert [pending[0]] + pending[1..] == pending;
    assert pending[0].Text?;
    hide EndsLast;
  }

  /** What the invariant says about a queue: the answer is still to come, up to its last message. */
  lemma {:induction false} AnswerIsQueued(cfg: Config, s: State, t: TaskId)
    requires Inv(cfg, s) && IsRequest(s, t) && (s.tasks[t].phase.AwaitingFirst? || s.tasks[t].phase.Receiving?)
    ensures HasPending(s, t)
  {
    var task := s.tasks[t];
    OneSocket(cfg, s, t);
    GoodTask(cfg, s, t);
    hide Inv, Wire, Key, CreateRequest, Terminal;
    assert Last(task.answer) == (task.backlog + task.answer)[|task.backlog| + |task.answer| - 1];
  }

  lemma {:induction false} StreamFills(cfg: Config, s: State, t: TaskId)
    requires cfg.maxAttempts >= 1 && Inv(cfg, s) && Retains(cfg) && IsRequest(s, t) && MayPark(cfg, s, t)
    requires s.tasks[t].phase.Receiving? || s.tasks[t].phase.Yielding?
    ensures CanFill(cfg, s)
    decreases |Pending(s.sockets, s.tasks[t].phase.socket)|, s.tasks[t].phase.Yielding?
  {
    assert s.tasks[t].phase.Yielding? ==> s.tasks[t].shown != [];
    hide Next, Enabled, Inv, CanFill, MayPark, Resume, ReceiveNext, Terminal;
    OneSocket(cfg, s, t);
    if s.tasks[t].phase.Receiving? {
      AnswerIsQueued(cfg, s, t);
      StreamReceivedIs(cfg, s, t);
      ReceiveYields(cfg, s, t);
      StepKeepsInvariant(cfg, s, StreamReceived(t));
      StreamFills(cfg, Next(cfg, s, StreamReceived(t)), t);
      FillsLater(cfg, s, StreamReceived(t));
    } else {
      var b := Fresh(s.tasks.Keys);
      ResumedIs(cfg, s, t, b);
      StepKeepsInvariant(cfg, s, Resumed(t, b));
      if Terminal(Last(s.tasks[t].shown)) {
        ReturnReleases(cfg, s, t, b);
        BackgroundFills(cfg, Next(cfg, s, Resumed(t, b)), b);
      } else {
        YieldReceives(cfg, s, t, b);
        StreamFills(cfg, Next(cfg, s, Resumed(t, b)), t);
      }
      FillsLater(cfg, s, Resumed(t, b));
    }
  }

  lemma {:induction false} PrimedYields(cfg: Config, s: State, t: TaskId)
    requires IsRequest(s, t) && s.tasks[t].phase.Primed? && MayPark(cfg, s, t)
    ensures var s' := SetTask(s, t, Show(s.tasks[t], s.tasks[t].phase.socket, s.tasks[t].phase.first));
      IsRequest(s', t) && s'.tasks[t].phase.Yielding? && MayPark(cfg, s', t)
  {
    EndsLastCons(s.tasks[t].phase.first, Pending(s.sockets, s.tasks[t].phase.socket));
    hide EndsLast;
  }

  lemma {:induction false} PrimedFills(cfg: Config, s: State, t: TaskId)
    requires cfg.maxAttempts >= 1 && Inv(cfg, s) && Retains(cfg) && IsRequest(s, t) && s.tasks[t].phase.Primed? && MayPark(cfg, s, t)
    ensures CanFill(cfg, s)
  {
    hide Next, Enabled, Inv, CanFill, MayPark, Show, SetTask;
    StreamStartedIs(cfg, s, t);
    PrimedYields(cfg, s, t);
    StepKeepsInvariant(cfg, s, StreamStarted(t));
    StreamFills(cfg, Next(cfg, s, StreamStarted(t)), t);
    FillsLater(cfg, s, StreamStarted(t));
  }

  lemma {:induction false} FirstPrimes(cfg: Config, s: State, t: TaskId)
    requires IsRequest(s, t) && s.tasks[t].phase.AwaitingFirst? && HasPending(s, t) && EndsLast(Pending(s.sockets, s.tasks[t].phase.socket))
    ensures var s' := ReceiveFirst(s, t); IsRequest(s', t) && s'.tasks[t].phase.Primed? && MayPark(cfg, s', t)
  {
    var pending := s.sockets[SocketOf(s, t)].pending;
    assert [pending[0]] + pending[1..] == pending;
    hide EndsLast;
  }

  lemma {:induction false} AnsweredFills(cfg: Config, s: State, t: TaskId)
    requires cfg.maxAttempts >= 1 && Inv(cfg, s) && Retains(cfg) && IsRequest(s, t) && s.tasks[t].phase.AwaitingFirst?
    requires EndsLast(Pending(s.sockets, s.tasks[t].phase.socket))
    ensures CanFill(cfg, s)
  {
    hide Next, Enabled, Inv, CanFill, MayPark, ReceiveFirst, EndsLast;
    AnswerIsQueued(cfg, s, t);
    FirstReceivedIs(cfg, s, t);
    FirstPrimes(cfg, s, t);
    StepKeepsInvariant(cfg, s, FirstReceived(t));
    PrimedFills(cfg, Next(cfg, s, FirstReceived(t)), t);
    FillsLater(cfg, s, FirstReceived(t));
  }

  /** An answer of one message. */
  const COMPLETED := Text("{\"type\":\"response.completed\",\"response_id\":\"r\"}",
    Some(JObject(map["type" := JString("response.completed"), "response_id" := JString("r")])))

  lemma {:induction false} CompletedAnswers()
    ensures ValidAnswer([COMPLETED])
  {
    assert Last([COMPLETED]) == COMPLETED;
    assert "r" != "";
  }

  lemma {:induction false} CleanEndsLast(messages: seq<Message>, m: Message)
    requires AllText(messages) && NoTerminal(messages) && m.Text?
    ensures EndsLast(messages + [m])
  {
    hide Terminal;
    assert Front(messages + [m]) == messages;
  }

  lemma {:induction false} CreateAwaits(cfg: Config, s: State, t: TaskId)
    requires IsRequest(s, t) && s.tasks[t].phase.SendingCreate? && OnSocket(s, t)
    requires AllText(Pending(s.sockets, s.tasks[t].phase.socket)) && NoTerminal(Pending(s.sockets, s.tasks[t].phase.socket))
    ensures var s' := SendCreate(s, t, [COMPLETED]);
      IsRequest(s', t) && s'.tasks[t].phase.AwaitingFirst? && EndsLast(Pending(s'.sockets, s'.tasks[t].phase.socket))
  {
    CleanEndsLast(s.sockets[SocketOf(s, t)].pending, COMPLETED);
    hide EndsLast, NoTerminal, AllText;
  }

  lemma {:induction false} CleanFills(cfg: Config, s: State, t: TaskId)
    requires cfg.maxAttempts >= 1 && Inv(cfg, s) && Retains(cfg) && IsRequest(s, t) && s.tasks[t].phase.SendingCreate?
    requires AllText(Pending(s.sockets, s.tasks[t].phase.socket)) && NoTerminal(Pending(s.sockets, s.tasks[t].phase.socket))
    ensures CanFill(cfg, s)
  {
    hide Next, Enabled, Inv, CanFill, SendCreate, EndsLast, AllText, NoTerminal, ValidAnswer;
    OneSocket(cfg, s, t);
    CompletedAnswers();
    CreateSentIs(cfg, s, t, [COMPLETED]);
    CreateAwaits(cfg, s, t);
    StepKeepsInvariant(cfg, s, CreateSent(t, [COMPLETED]));
    AnsweredFills(cfg, Next(cfg, s, CreateSent(t, [COMPLETED])), t);
    FillsLater(cfg, s, CreateSent(t, [COMPLETED]));
  }

  lemma {:induction false} ConnectSends(cfg: Config, s: State, t: TaskId, x: SocketId)
    requires IsRequest(s, t) && s.tasks[t].phase.Connecting?
    ensures var s' := Connect(s, t, x);
      && IsRequest(s', t) && s'.tasks[t].phase == SendingCreate(x)
      && AllText(Pending(s'.sockets, x)) && NoTerminal(Pending(s'.sockets, x))
  {
  }

  lemma {:induction false} ConnectFills(cfg: Config, s: State, t: TaskId)
    requires cfg.maxAttempts >= 1 && Inv(cfg, s) && Retains(cfg) && IsRequest(s, t) && s.tasks[t].phase.Connecting?
    ensures CanFill(cfg, s)
  {
    hide Next, Enabled, Inv, CanFill, Connect, AllText, NoTerminal;
    var x := Fresh(s.sockets.Keys);
    ConnectedIs(cfg, s, t, x);
    ConnectSends(cfg, s, t, x);
    StepKeepsInvariant(cfg, s, Connected(t, x));
    CleanFills(cfg, Next(cfg, s, Connected(t, x)), t);
    FillsLater(cfg, s, Connected(t, x));
  }

  /** A request that has nothing left to close proceeds. */
  lemma {:induction false} ProceedMayPark(cfg: Config, s: State, t: TaskId)
    requires Inv(cfg, s) && IsRequest(s, t) && (s.tasks[t].phase.Sweeping? || s.tasks[t].phase.Failing?)
    requires Doomed(s.tasks[t]) == [] && MayPark(cfg, s, t)
    ensures Enabled(cfg, s, Proceed(t))
    ensures var s' := Next(cfg, s, Proceed(t));
      && IsRequest(s', t) && MayPark(cfg, s', t)
      && if s.tasks[t].phase.Failing? then s'.tasks[t].phase.Starting?
         else if s.tasks[t].phase.selected.Some? then s'.tasks[t].phase.SendingCreate? else s'.tasks[t].phase.Connecting?
  {
    GoodTask(cfg, s, t);
    hide Inv, Wire, Key, CreateRequest, EndsLast, AllText, NoTerminal;
  }

  lemma {:induction false} CloseMayPark(cfg: Config, s: State, t: TaskId)
    requires Inv(cfg, s) && IsRequest(s, t) && (s.tasks[t].phase.Sweeping? || s.tasks[t].phase.Failing?)
    requires Doomed(s.tasks[t]) != [] && MayPark(cfg, s, t)
    ensures Enabled(cfg, s, CloseOne(t))
    ensures var s' := Next(cfg, s, CloseOne(t));
      IsRequest(s', t) && s'.tasks[t] == WithDoomed(s.tasks[t], Doomed(s.tasks[t])[1..]) && MayPark(cfg, s', t)
  {
    HeldIsNotGone(cfg, s, t);
    assert Doomed(s.tasks[t])[0] in Doomed(s.tasks[t]);
    CloseOneIs(cfg, s, t);
    hide Inv, Next, Enabled, EndsLast, AllText, NoTerminal;
  }

  lemma {:induction false} BeginSweeps(cfg: Config, s: State, t: TaskId)
    requires Retains(cfg) && IsRequest(s, t) && s.tasks[t].phase.Starting? && s.idle == map[] && MayPark(cfg, s, t)
    ensures var s' := Begin(cfg, s, t, s.clock, {}); IsRequest(s', t) && s'.tasks[t].phase == Sweeping(None, [])
  {
    assert Bucket(s.idle, Key(cfg, s.tasks[t].req)) == [];
    hide Key, CreateRequest;
  }

  lemma {:induction false} SweptFills(cfg: Config, s: State, t: TaskId)
    requires cfg.maxAttempts >= 1 && Inv(cfg, s) && Retains(cfg) && IsRequest(s, t) && s.tasks[t].phase == Sweeping(None, [])
    ensures CanFill(cfg, s)
  {
    assert MayPark(cfg, s, t);
    hide Next, Enabled, Inv, CanFill, MayPark;
    ProceedMayPark(cfg, s, t);
    StepKeepsInvariant(cfg, s, Proceed(t));
    ConnectFills(cfg, Next(cfg, s, Proceed(t)), t);
    FillsLater(cfg, s, Proceed(t));
  }

  lemma {:induction false} StartFills(cfg: Config, s: State, t: TaskId)
    requires cfg.maxAttempts >= 1 && Inv(cfg, s) && Retains(cfg) && IsRequest(s, t) && s.tasks[t].phase.Starting? && MayPark(cfg, s, t)
    ensures CanFill(cfg, s)
  {
    hide Next, Enabled, Inv, CanFill, MayPark, Begin;
    if s.idle != map[] {
      FilledNow(cfg, s);
    } else {
      var e := BeginAttempt(t, s.clock, {});
      BeginAttemptIs(cfg, s, t, s.clock, {});
      BeginSweeps(cfg, s, t);
      StepKeepsInvariant(cfg, s, e);
      SweptFills(cfg, Next(cfg, s, e), t);
      FillsLater(cfg, s, e);
    }
  }

  lemma {:induction false} FailingFills(cfg: Config, s: State, t: TaskId)
    requires cfg.maxAttempts >= 1 && Inv(cfg, s) && Retains(cfg) && IsRequest(s, t) && s.tasks[t].phase.Failing? && MayPark(cfg, s, t)
    ensures CanFill(cfg, s)
    decreases |Doomed(s.tasks[t])|
  {
    hide Next, Enabled, Inv, CanFill, MayPark;
    if Doomed(s.tasks[t]) == [] {
      ProceedMayPark(cfg, s, t);
      StepKeepsInvariant(cfg, s, Proceed(t));
      StartFills(cfg, Next(cfg, s, Proceed(t)), t);
      FillsLater(cfg, s, Proceed(t));
    } else {
      CloseMayPark(cfg, s, t);
      StepKeepsInvariant(cfg, s, CloseOne(t));
      FailingFills(cfg, Next(cfg, s, CloseOne(t)), t);
      FillsLater(cfg, s, CloseOne(t));
    }
  }

  /** With an attempt left, a request can give up what it is on and start again. */
  lemma {:induction false} FailureRetries(cfg: Config, s: State, t: TaskId)
    requires IsRequest(s, t) && OnSocket(s, t) && s.tasks[t].attempt < cfg.maxAttempts
    requires s.tasks[t].phase.AwaitingFirst? || s.tasks[t].phase.SendingCreate?
    ensures var e := if s.tasks[t].phase.AwaitingFirst? then FirstFailed(t, 502) else CreateFailed(t, 502, []);
      && Enabled(cfg, s, e)
      && var s' := Next(cfg, s, e);
      IsRequest(s', t) && s'.tasks[t].phase.Failing? && MayPark(cfg, s', t)
  {
  }

  lemma {:induction false} RetryFills(cfg: Config, s: State, t: TaskId)
    requires cfg.maxAttempts >= 1 && Inv(cfg, s) && Retains(cfg) && IsRequest(s, t) && s.tasks[t].attempt < cfg.maxAttempts
    requires s.tasks[t].phase.AwaitingFirst? || s.tasks[t].phase.SendingCreate?
    ensures CanFill(cfg, s)
  {
    hide Next, Enabled, Inv, CanFill, MayPark;
    var e := if s.tasks[t].phase.AwaitingFirst? then FirstFailed(t, 502) else CreateFailed(t, 502, []);
    OneSocket(cfg, s, t);
    FailureRetries(cfg, s, t);
    StepKeepsInvariant(cfg, s, e);
    FailingFills(cfg, Next(cfg, s, e), t);
    FillsLater(cfg, s, e);
  }

  lemma {:induction false} SendFills(cfg: Config, s: State, t: TaskId)
    requires cfg.maxAttempts >= 1 && Inv(cfg, s) && Retains(cfg) && IsRequest(s, t) && s.tasks[t].phase.SendingCreate? && MayPark(cfg, s, t)
    ensures CanFill(cfg, s)
  {
    hide Inv, CanFill, AllText, NoTerminal;
    if s.tasks[t].attempt < cfg.maxAttempts {
      RetryFills(cfg, s, t);
    } else {
      CleanFills(cfg, s, t);
    }
  }

  lemma {:induction false} SweepFills(cfg: Config, s: State, t: TaskId)
    requires cfg.maxAttempts >= 1 && Inv(cfg, s) && Retains(cfg) && IsRequest(s, t) && s.tasks[t].phase.Sweeping? && MayPark(cfg, s, t)
    ensures CanFill(cfg, s)
    decreases |Doomed(s.tasks[t])|
  {
    hide Next, Enabled, Inv, CanFill, MayPark;
    if Doomed(s.tasks[t]) == [] {
      ProceedMayPark(cfg, s, t);
      StepKeepsInvariant(cfg, s, Proceed(t));
      if s.tasks[t].phase.selected.Some? {
        SendFills(cfg, Next(cfg, s, Proceed(t)), t);
      } else {
        ConnectFills(cfg, Next(cfg, s, Proceed(t)), t);
      }
      FillsLater(cfg, s, Proceed(t));
    } else {
      CloseMayPark(cfg, s, t);
      StepKeepsInvariant(cfg, s, CloseOne(t));
      SweepFills(cfg, Next(cfg, s, CloseOne(t)), t);
      FillsLater(cfg, s, CloseOne(t));
    }
  }

  lemma {:induction false} AwaitFills(cfg: Config, s: State, t: TaskId)
    requires cfg.maxAttempts >= 1 && Inv(cfg, s) && Retains(cfg) && IsRequest(s, t) && s.tasks[t].phase.AwaitingFirst? && MayPark(cfg, s, t)
    ensures CanFill(cfg, s)
  {
    hide Inv, CanFill, EndsLast;
    if s.tasks[t].attempt < cfg.maxAttempts {
      RetryFills(cfg, s, t);
    } else {
      AnsweredFills(cfg, s, t);
    }
  }

  /** Whoever may put a socket into the pool can be brought to do it. */
  lemma {:induction false} WhoMayCan(cfg: Config, s: State, t: TaskId)
    requires cfg.maxAttempts >= 1 && Inv(cfg, s) && Retains(cfg) && MayPark(cfg, s, t)
    ensures CanFill(cfg, s)
  {
    hide Inv, CanFill, EndsLast, AllText, NoTerminal, CreateRequest;
    if s.tasks[t].BackgroundTask? {
      BackgroundFills(cfg, s, t);
    } else {
      match s.tasks[t].phase
      case Starting => StartFills(cfg, s, t);
      case Sweeping(_, _) => SweepFills(cfg, s, t);
      case Connecting => ConnectFills(cfg, s, t);
      case SendingCreate(_) => SendFills(cfg, s, t);
      case AwaitingFirst(_) => AwaitFills(cfg, s, t);
      case Primed(_, _) => PrimedFills(cfg, s, t);
      case Receiving(_) => StreamFills(cfg, s, t);
      case Yielding(_) => StreamFills(cfg, s, t);
      case Failing(_, _) => FailingFills(cfg, s, t);
    }
  }

  // ---- Exactly ----

  /** An empty pool stays empty, over every continuation without a new request, if and only if the
      settings keep nothing or no task may put a socket into it. */
  lemma {:induction false} StaysEmptyExactly(cfg: Config, s: State)
    requires cfg.maxAttempts >= 1 && Inv(cfg, s) && s.idle == map[]
    ensures StaysEmpty(cfg, s) <==> !Retains(cfg) || NobodyMayPark(cfg, s)
  {
    hide Inv, MayPark, Retains;
    if !Retains(cfg) {
      forall events | IsRun(cfg, s, events) && NoSpawn(events) ensures EndOf(cfg, s, events).idle == map[] {
        NothingIsRetainedInRuns(cfg, s, events);
      }
    } else if NobodyMayPark(cfg, s) {
      forall events | IsRun(cfg, s, events) && NoSpawn(events) ensures EndOf(cfg, s, events).idle == map[] {
        RunStaysEmpty(cfg, s, events);
      }
    } else {
      var t :| MayPark(cfg, s, t);
      WhoMayCan(cfg, s, t);
    }
  }
}
