/** Who answers for each context, over whole runs. */
module BridgeOwnership {
  import opened Basics
  import opened PoolKeys
  import opened Messages
  import opened Pool
  import opened BridgeSystem
  import opened BridgeInvariants
  import opened BridgeShape
  import opened BridgePoolSteps
  import opened BridgeRuns

  predicate HeldBy(s: State, t: TaskId, x: SocketId) {
    t in s.tasks && x in Sockets(s.tasks[t])
  }

  predicate IdleUnder(s: State, k: PoolKey, x: SocketId) {
    x in Ids(Bucket(s.idle, k))
  }

  /** Exactly one of: one task holds it, one bucket has it, it was closed once, it escaped. */
  ghost predicate HasOneKeeper(s: State, x: SocketId)
    requires x in s.sockets
  {
    var held, idle := (exists t :: HeldBy(s, t, x)), (exists k :: IdleUnder(s, k, x));
    var closed, escaped := s.sockets[x].closes == 1, s.sockets[x].owner == Escaped;
    && s.sockets[x].closes <= 1
    && (held || idle || closed || escaped)
    && !(held && idle) && !(held && closed) && !(held && escaped)
    && !(idle && closed) && !(idle && escaped) && !(closed && escaped)
    && (forall t, t' :: HeldBy(s, t, x) && HeldBy(s, t', x) ==> t == t')
    && (forall k, k' :: IdleUnder(s, k, x) && IdleUnder(s, k', x) ==> k == k')
  }

  /** Single ownership and conservation: in every reachable state, no context serves two tasks,
      none is held while pooled, none is closed twice, and none is forgotten. */
  lemma {:induction false} EveryContextHasOneKeeper(cfg: Config, s: State, x: SocketId)
    requires cfg.maxAttempts >= 1 && Reachable(cfg, s) && x in s.sockets
    ensures HasOneKeeper(s, x)
  {
    ReachableIsGood(cfg, s);
    assert SocketOk(cfg, s, x);
    forall t | HeldBy(s, t, x) ensures s.sockets[x].owner == Held(t) {
      assert TaskOk(cfg, s, t);
    }
    forall k | IdleUnder(s, k, x) ensures s.sockets[x].owner == Pooled(k) {
      assert BucketOwned(s.sockets, k, s.idle[k]);
    }
    match s.sockets[x].owner
    case Held(t) => assert HeldBy(s, t, x);
    case Pooled(k) => assert IdleUnder(s, k, x);
    case _ =>
  }

  /** No task and no bucket lists a context twice, and they list only entered contexts. */
  lemma {:induction false} NoContextIsListedTwice(cfg: Config, s: State, t: TaskId, k: PoolKey)
    requires cfg.maxAttempts >= 1 && Reachable(cfg, s)
    ensures t in s.tasks ==> NoDuplicates(Sockets(s.tasks[t])) && forall x :: x in Sockets(s.tasks[t]) ==> x in s.sockets
    ensures NoDuplicates(Ids(Bucket(s.idle, k))) && forall x :: x in Ids(Bucket(s.idle, k)) ==> x in s.sockets
  {
    ReachableIsGood(cfg, s);
    if t in s.tasks { assert TaskOk(cfg, s, t); }
    if k in s.idle { assert BucketOwned(s.sockets, k, s.idle[k]); }
  }

  /** Every bucket of a reachable pool is sorted by last use, non-empty and within the limit. */
  lemma {:induction false} PoolStaysBounded(cfg: Config, s: State)
    requires cfg.maxAttempts >= 1 && Reachable(cfg, s)
    ensures PoolOk(s.idle, cfg.maxIdle, s.clock)
  {
    ReachableIsGood(cfg, s);
  }

  /** Without retention a checkout finds nothing and a release keeps nothing. */
  lemma {:induction false} BeginFindsNothing(cfg: Config, s: State, t: TaskId, now: real, open: set<SocketId>)
    requires Enabled(cfg, s, BeginAttempt(t, now, open)) && s.idle == map[]
    ensures Next(cfg, s, BeginAttempt(t, now, open)).idle == map[]
  {
    assert Next(cfg, s, BeginAttempt(t, now, open)) == Begin(cfg, s, t, now, open);
    hide Next, Enabled, Key, CreateRequest;
    CheckoutConserves(s.idle, Key(cfg, s.tasks[t].req), now, cfg.idleTimeout, open);
  }

  lemma {:induction false} AcloseLeavesNothing(cfg: Config, s: State, t: TaskId, order: seq<PoolKey>)
    requires Enabled(cfg, s, Aclose(t, order))
    ensures Next(cfg, s, Aclose(t, order)).idle == map[]
  {
  }

  lemma {:induction false} DrainIsDraining(cfg: Config, s: State, e: Event)
    requires Enabled(cfg, s, e) && e.DrainTimedOut?
    ensures IsBackground(s, e.task) && s.tasks[e.task].work.Draining?
  {
  }

  lemma {:induction false} NothingIsRetained(cfg: Config, s: State, e: Event)
    requires Inv(cfg, s) && Enabled(cfg, s, e) && !Retains(cfg) && s.idle == map[]
    ensures Next(cfg, s, e).idle == map[]
  {
    hide Next, Enabled, Inv;
    DrainingRetains(cfg, s);
    StepShape(cfg, s, e);
    if e.BeginAttempt? {
      BeginFindsNothing(cfg, s, e.task, e.now, e.open);
    } else if e.Aclose? {
      AcloseLeavesNothing(cfg, s, e.task, e.order);
    } else if e.DrainTimedOut? {
      DrainIsDraining(cfg, s, e);
    }
  }

  lemma {:induction false} DrainingRetains(cfg: Config, s: State)
    requires Inv(cfg, s)
    ensures forall t :: IsBackground(s, t) && s.tasks[t].work.Draining? ==> Retains(cfg)
  {
    forall t | IsBackground(s, t) && s.tasks[t].work.Draining? ensures Retains(cfg) {
      assert TaskOk(cfg, s, t);
    }
  }

  lemma {:induction false} NothingIsRetainedInRuns(cfg: Config, s: State, events: seq<Event>)
    requires cfg.maxAttempts >= 1 && Inv(cfg, s) && IsRun(cfg, s, events) && !Retains(cfg) && s.idle == map[]
    ensures EndOf(cfg, s, events).idle == map[]
    decreases |events|
  {
    if events != [] {
      StepKeepsInvariant(cfg, s, events[0]);
      NothingIsRetained(cfg, s, events[0]);
      NothingIsRetainedInRuns(cfg, Next(cfg, s, events[0]), events[1..]);
    }
  }

  /** Pooling switched off, a pool of size 0 and an idle time of 0 all disable retention: in no
      reachable state is any socket idle. */
  lemma {:induction false} RetentionCanBeDisabled(cfg: Config, s: State)
    requires cfg.maxAttempts >= 1 && Reachable(cfg, s) && !(cfg.pooled && cfg.maxIdle > 0 && cfg.idleTimeout > 0.0)
    ensures s.idle == map[] && forall x :: x in s.sockets ==> !s.sockets[x].owner.Pooled?
  {
    var events :| IsRun(cfg, Initial, events) && EndOf(cfg, Initial, events) == s;
    assert Inv(cfg, Initial);
    NothingIsRetainedInRuns(cfg, Initial, events);
    ReachableIsGood(cfg, s);
    forall x | x in s.sockets ensures !s.sockets[x].owner.Pooled? {
      assert SocketOk(cfg, s, x);
    }
  }

  // ---- What is gone stays gone ----

  predicate Gone(socket: Socket) {
    socket.owner == Closed || socket.owner == Escaped
  }

  /** The three ways out of a handler that close nothing. */
  predicate Escapes(s: State, e: Event) {
    match e
    case FirstEscaped(_) => true
    case StreamNeverStarted(_) => true
    case DrainReceived(t) => HasPending(s, t) && s.sockets[SocketOf(s, t)].pending[0].Undecodable?
    case _ => false
  }

  /** What one step may do to one context. */
  ghost predicate OwnerStep(s: State, e: Event, before: Socket, after: Socket) {
    && (Gone(before) ==> after == before.(pending := after.pending))
    && (after.owner == Escaped && before.owner != Escaped ==> Escapes(s, e))
    && after.opener == before.opener
    && before.log <= after.log
    && (!e.UpstreamSpoke? && before.owner != Held(e.task) ==> after.pending == before.pending)
    && (e.UpstreamSpoke? || before.owner != Held(e.task) ==> after.log == before.log)
    && (after.owner.Pooled? && !before.owner.Pooled? ==> e.DrainTimedOut? && before.owner == Held(e.task))
    && (after.owner.Held? && after.owner != before.owner ==>
          !e.UpstreamSpoke? && (after.owner.task == e.task || (e.Resumed? && after.owner.task == e.background)))
  }

  /** A task only ever changes what it holds. */
  lemma {:induction false} HeldIsNotGone(cfg: Config, s: State, t: TaskId)
    requires Inv(cfg, s) && t in s.tasks
    ensures forall x :: x in Sockets(s.tasks[t]) ==> x in s.sockets && s.sockets[x].owner == Held(t)
    ensures forall x :: x in Doomed(s.tasks[t]) ==> x in Sockets(s.tasks[t])
  {
    assert TaskOk(cfg, s, t);
  }

  lemma {:induction false} BeginOwners(cfg: Config, s: State, t: TaskId, now: real, open: set<SocketId>, x: SocketId)
    requires Inv(cfg, s) && IsRequest(s, t) && x in s.sockets
    ensures var s' := Begin(cfg, s, t, now, open);
      x in s'.sockets && (s'.sockets[x] == s.sockets[x] || (s.sockets[x].owner.Pooled? && s'.sockets[x] == s.sockets[x].(owner := Held(t))))
  {
    if CreateRequest(s.tasks[t].req.body).Ok? && cfg.pooled {
      CheckoutTakes(cfg, s, Key(cfg, s.tasks[t].req), now, open);
    }
  }

  lemma {:induction false} ParkOwners(cfg: Config, s: State, t: TaskId, now: real, x: SocketId)
    requires Inv(cfg, s) && IsBackground(s, t) && OnSocket(s, t) && cfg.maxIdle > 0 && x in s.sockets
    ensures var s' := Park(cfg, s, t, SocketOf(s, t), now);
      x in s'.sockets && (s'.sockets[x] == s.sockets[x] || (!Gone(s.sockets[x])
        && s'.sockets[x] == s.sockets[x].(owner := s'.sockets[x].owner)
        && (s'.sockets[x].owner == Held(t) || (s'.sockets[x].owner.Pooled? && s.sockets[x].owner == Held(t)))))
  {
    var y, key := SocketOf(s, t), s.tasks[t].key;
    HeldIsNotGone(cfg, s, t);
    assert y in Sockets(s.tasks[t]);
    BucketIdsOwned(cfg, s, key);
    var r := ReturnTo(s.idle, IdleEntry(y, key, now, now), cfg.maxIdle);
    ReturnSplits(s.idle, IdleEntry(y, key, now, now), cfg.maxIdle);
    hide Inv, ReturnTo, Bucket;
    if x in Ids(r.evicted) {
      assert x == y || x in Ids(Bucket(s.idle, key));
    }
  }

  lemma {:induction false} AcloseOwners(cfg: Config, s: State, t: TaskId, order: seq<PoolKey>, x: SocketId)
    requires Inv(cfg, s) && Enumerates(order, s.idle.Keys) && x in s.sockets
    ensures var s' := TakeAllIdle(s, t, order);
      && x in s'.sockets
      && s'.sockets[x] == if s.sockets[x].owner.Pooled? then s.sockets[x].(owner := Held(t)) else s.sockets[x]
  {
    FlattenedPool(s.idle, s.sockets, order);
    assert SocketOk(cfg, s, x);
  }

  predicate LeavesSocketsAlone(e: Event) {
    e.Spawn? || e.Proceed? || e.ConnectFailed? || e.FirstFailed? || e.StreamStarted? || e.StreamFailed? || e.Aborted?
    || e.ProcessedFailed? || e.ReleaseEntered? || e.DrainFailed?
  }

  lemma {:induction false} SocketsLeftAlone(cfg: Config, s: State, e: Event)
    requires Enabled(cfg, s, e) && LeavesSocketsAlone(e)
    ensures Next(cfg, s, e).sockets == s.sockets
  {
  }

  /** A step that changes one socket, held by the task that takes the step. */
  ghost predicate ChangesOwnSocket(s: State, e: Event, s': State, y: SocketId) {
    && !e.UpstreamSpoke? && y in s.sockets && s.sockets[y].owner == Held(e.task)
    && y in s'.sockets && s'.sockets == s.sockets[y := s'.sockets[y]]
    && var before, after := s.sockets[y], s'.sockets[y];
    && after.opener == before.opener && before.log <= after.log
    && (after.owner in {Held(e.task), Closed} || (after.owner == Escaped && Escapes(s, e))
        || (e.Resumed? && after.owner == Held(e.background)))
  }

  lemma {:induction false} OwnSocketSteps(s: State, e: Event, s': State, y: SocketId, x: SocketId)
    requires ChangesOwnSocket(s, e, s', y) && x in s.sockets
    ensures x in s'.sockets && OwnerStep(s, e, s.sockets[x], s'.sockets[x])
  {
    hide Escapes;
  }

  lemma {:induction false} OwnSocket(cfg: Config, s: State, t: TaskId)
    requires Inv(cfg, s) && OnSocket(s, t)
    ensures s.sockets[SocketOf(s, t)].owner == Held(t)
  {
    assert SocketOf(s, t) in Sockets(s.tasks[t]);
    HeldIsNotGone(cfg, s, t);
  }

  predicate UsesSocket(e: Event) {
    e.CreateSent? || e.CreateFailed? || e.FirstReceived? || e.StreamReceived? || e.DrainReceived? || e.FirstEscaped?
    || e.StreamNeverStarted? || e.Resumed? || e.ProcessedSent?
  }

  lemma {:induction false} UsesOwnSocket(cfg: Config, s: State, e: Event)
    requires Enabled(cfg, s, e) && UsesSocket(e)
    requires OnSocket(s, e.task) ==> s.sockets[SocketOf(s, e.task)].owner == Held(e.task)
    ensures OnSocket(s, e.task) && ChangesOwnSocket(s, e, Next(cfg, s, e), SocketOf(s, e.task))
  {
    hide Sockets, Terminal, CompletedId, ValidAnswer, Show;
  }

  lemma {:induction false} ClosesOwnSocket(cfg: Config, s: State, t: TaskId)
    requires Inv(cfg, s) && Enabled(cfg, s, CloseOne(t))
    ensures ChangesOwnSocket(s, CloseOne(t), CloseNext(s, t), Doomed(s.tasks[t])[0])
  {
    HeldIsNotGone(cfg, s, t);
    assert Doomed(s.tasks[t])[0] in Sockets(s.tasks[t]);
    hide Inv, Sockets, Doomed;
  }

  lemma {:induction false} BeginStepOwners(cfg: Config, s: State, e: Event, x: SocketId)
    requires Inv(cfg, s) && Enabled(cfg, s, e) && x in s.sockets && e.BeginAttempt?
    ensures x in Next(cfg, s, e).sockets
    ensures OwnerStep(s, e, s.sockets[x], Next(cfg, s, e).sockets[x])
  {
    hide Inv, Next, Enabled, Begin;
    BeginAttemptIs(cfg, s, e.task, e.now, e.open);
    BeginOwners(cfg, s, e.task, e.now, e.open, x);
  }

  lemma {:induction false} ParkStepOwners(cfg: Config, s: State, e: Event, x: SocketId)
    requires Inv(cfg, s) && Enabled(cfg, s, e) && x in s.sockets && e.DrainTimedOut?
    ensures x in Next(cfg, s, e).sockets
    ensures OwnerStep(s, e, s.sockets[x], Next(cfg, s, e).sockets[x])
  {
    hide Inv, Next, Enabled, Park;
    DrainTimedOutIs(cfg, s, e.task, e.now);
    ParkOwners(cfg, s, e.task, e.now, x);
  }

  lemma {:induction false} AcloseStepOwners(cfg: Config, s: State, e: Event, x: SocketId)
    requires Inv(cfg, s) && Enabled(cfg, s, e) && x in s.sockets && e.Aclose?
    ensures x in Next(cfg, s, e).sockets
    ensures OwnerStep(s, e, s.sockets[x], Next(cfg, s, e).sockets[x])
  {
    hide Inv, Next, Enabled, TakeAllIdle, Enumerates;
    AcloseIs(cfg, s, e.task, e.order);
    AcloseOwners(cfg, s, e.task, e.order, x);
  }

  lemma {:induction false} PoolStepOwners(cfg: Config, s: State, e: Event, x: SocketId)
    requires Inv(cfg, s) && Enabled(cfg, s, e) && x in s.sockets && (e.BeginAttempt? || e.DrainTimedOut? || e.Aclose?)
    ensures x in Next(cfg, s, e).sockets
    ensures OwnerStep(s, e, s.sockets[x], Next(cfg, s, e).sockets[x])
  {
    hide Inv, Next, Enabled;
    if e.BeginAttempt? {
      BeginStepOwners(cfg, s, e, x);
    } else if e.DrainTimedOut? {
      ParkStepOwners(cfg, s, e, x);
    } else {
      AcloseStepOwners(cfg, s, e, x);
    }
  }

  lemma {:induction false} UpstreamOwners(cfg: Config, s: State, e: Event, x: SocketId)
    requires Enabled(cfg, s, e) && x in s.sockets && e.UpstreamSpoke?
    ensures x in Next(cfg, s, e).sockets
    ensures OwnerStep(s, e, s.sockets[x], Next(cfg, s, e).sockets[x])
  {
  }

  lemma {:induction false} StepOwners(cfg: Config, s: State, e: Event, x: SocketId)
    requires Inv(cfg, s) && Enabled(cfg, s, e) && x in s.sockets
    ensures x in Next(cfg, s, e).sockets
    ensures OwnerStep(s, e, s.sockets[x], Next(cfg, s, e).sockets[x])
  {
    hide Next, Enabled, Inv, CloseNext, ChangesOwnSocket;
    if LeavesSocketsAlone(e) {
      SocketsLeftAlone(cfg, s, e);
    } else if e.BeginAttempt? || e.DrainTimedOut? || e.Aclose? {
      PoolStepOwners(cfg, s, e, x);
    } else if e.UpstreamSpoke? {
      UpstreamOwners(cfg, s, e, x);
    } else if e.CloseOne? {
      ClosingIsClosing(cfg, s, e);
      ClosesOwnSocket(cfg, s, e.task);
      OwnSocketSteps(s, e, CloseNext(s, e.task), Doomed(s.tasks[e.task])[0], x);
    } else if UsesSocket(e) {
      if OnSocket(s, e.task) {
        OwnSocket(cfg, s, e.task);
      }
      UsesOwnSocket(cfg, s, e);
      OwnSocketSteps(s, e, Next(cfg, s, e), SocketOf(s, e.task), x);
    } else {
      ConnectingEnters(cfg, s, e);
    }
  }

  lemma {:induction false} EscapeLeavesOneBehind(cfg: Config, s: State, e: Event)
    requires Inv(cfg, s) && Enabled(cfg, s, e) && Escapes(s, e)
    ensures SocketOf(s, e.task) in Next(cfg, s, e).sockets
    ensures Next(cfg, s, e).sockets[SocketOf(s, e.task)].owner == Escaped
  {
    hide Inv, CompletedId, ValidAnswer;
  }

  /** A context is final once it is closed or lost: over any continuation of a run, its log never
      grows, so nothing is sent on it, and it is never closed again. */
  lemma {:induction false} NothingAfterClose(cfg: Config, s: State, events: seq<Event>, x: SocketId)
    requires cfg.maxAttempts >= 1 && Inv(cfg, s) && IsRun(cfg, s, events) && x in s.sockets && Gone(s.sockets[x])
    ensures var s' := EndOf(cfg, s, events);
      x in s'.sockets && s'.sockets[x] == s.sockets[x].(pending := s'.sockets[x].pending)
    decreases |events|
  {
    if events != [] {
      StepKeepsInvariant(cfg, s, events[0]);
      StepOwners(cfg, s, events[0], x);
      NothingAfterClose(cfg, Next(cfg, s, events[0]), events[1..], x);
    }
  }

  // ---- What escapes ----

  ghost predicate NoneEscaped(s: State) {
    forall x :: x in s.sockets ==> s.sockets[x].owner != Escaped
  }

  ghost predicate SomethingEscapes(cfg: Config, s: State, events: seq<Event>)
    requires IsRun(cfg, s, events)
    decreases |events|
  {
    events != [] && (Escapes(s, events[0]) || SomethingEscapes(cfg, Next(cfg, s, events[0]), events[1..]))
  }

  lemma {:induction false} ConnectingEnters(cfg: Config, s: State, e: Event)
    requires Enabled(cfg, s, e) && e.Connected?
    ensures e.socket !in s.sockets
    ensures Next(cfg, s, e).sockets == s.sockets[e.socket := Socket(s.tasks[e.task].req, [], [], Held(e.task), 0)]
  {
  }

  lemma {:induction false} PoolStepsEnterNothing(cfg: Config, s: State, e: Event)
    requires Enabled(cfg, s, e) && (e.BeginAttempt? || e.DrainTimedOut? || e.Aclose? || e.UpstreamSpoke?)
    ensures Next(cfg, s, e).sockets.Keys == s.sockets.Keys
  {
    hide CheckoutFrom, ReturnTo, Flatten, CreateRequest, Key, Enumerates;
  }

  /** Contexts enter the system only by connecting. */
  lemma {:induction false} OnlyConnectingEnters(cfg: Config, s: State, e: Event)
    requires Inv(cfg, s) && Enabled(cfg, s, e)
    ensures !e.Connected? ==> Next(cfg, s, e).sockets.Keys == s.sockets.Keys
    ensures e.Connected? ==> e.socket !in s.sockets
    ensures e.Connected? ==> Next(cfg, s, e).sockets == s.sockets[e.socket := Socket(s.tasks[e.task].req, [], [], Held(e.task), 0)]
  {
    hide Next, Enabled, Inv;
    if LeavesSocketsAlone(e) {
      SocketsLeftAlone(cfg, s, e);
    } else if e.Connected? {
      ConnectingEnters(cfg, s, e);
    } else if e.CloseOne? {
      ClosingIsClosing(cfg, s, e);
      ClosesOwnSocket(cfg, s, e.task);
    } else if UsesSocket(e) {
      if OnSocket(s, e.task) {
        OwnSocket(cfg, s, e.task);
      }
      UsesOwnSocket(cfg, s, e);
    } else {
      PoolStepsEnterNothing(cfg, s, e);
    }
  }

  lemma {:induction false} ClosingIsClosing(cfg: Config, s: State, e: Event)
    requires Enabled(cfg, s, e) && e.CloseOne?
    ensures e.task in s.tasks && Doomed(s.tasks[e.task]) != [] && Doomed(s.tasks[e.task])[0] in s.sockets
    ensures Next(cfg, s, e) == CloseNext(s, e.task)
  {
  }

  lemma {:induction false} StepEscapes(cfg: Config, s: State, e: Event)
    requires Inv(cfg, s) && Enabled(cfg, s, e)
    ensures NoneEscaped(Next(cfg, s, e)) <==> NoneEscaped(s) && !Escapes(s, e)
  {
    hide Next, Enabled, Inv;
    var s' := Next(cfg, s, e);
    forall x | x in s.sockets ensures x in s'.sockets && OwnerStep(s, e, s.sockets[x], s'.sockets[x]) {
      StepOwners(cfg, s, e, x);
    }
    OnlyConnectingEnters(cfg, s, e);
    if Escapes(s, e) {
      EscapeLeavesOneBehind(cfg, s, e);
    }
  }

  lemma {:induction false} EscapedIffSomethingEscaped(cfg: Config, s: State, events: seq<Event>)
    requires cfg.maxAttempts >= 1 && Inv(cfg, s) && IsRun(cfg, s, events)
    ensures NoneEscaped(EndOf(cfg, s, events)) <==> NoneEscaped(s) && !SomethingEscapes(cfg, s, events)
    decreases |events|
  {
    if events != [] {
      StepEscapes(cfg, s, events[0]);
      StepKeepsInvariant(cfg, s, events[0]);
      EscapedIffSomethingEscaped(cfg, Next(cfg, s, events[0]), events[1..]);
    }
  }
}
