/** Shutting down: what `aclose` closes, and when the pool that it emptied stays empty. */
module BridgeShutdown {
  import opened PoolKeys
  import opened Pool
  import opened BridgeSystem
  import opened BridgeInvariants
  import opened BridgeShape
  import opened BridgeSteps
  import opened BridgePoolSteps
  import opened BridgeRuns
  import opened BridgeOwnership
  import opened BridgeRefill

  ghost predicate NothingIsHeld(s: State) {
    forall t :: t in s.tasks ==> Sockets(s.tasks[t]) == []
  }

  ghost predicate AllDone(s: State) {
    s.idle == map[] && NothingIsHeld(s)
  }

  /** Once every task is done and the pool is empty, every context ever entered has been closed
      exactly once, if and only if no handler let an exception escape on the way. */
  lemma {:induction false} AllClosedExactlyOnce(cfg: Config, events: seq<Event>)
    requires cfg.maxAttempts >= 1 && IsRun(cfg, Initial, events) && AllDone(EndOf(cfg, Initial, events))
    ensures var s := EndOf(cfg, Initial, events);
      (forall x :: x in s.sockets ==> s.sockets[x].closes == 1) <==> !SomethingEscapes(cfg, Initial, events)
  {
    var s := EndOf(cfg, Initial, events);
    assert Inv(cfg, Initial);
    RunKeepsInvariant(cfg, Initial, events);
    EscapedIffSomethingEscaped(cfg, Initial, events);
    forall x | x in s.sockets ensures s.sockets[x].closes == if s.sockets[x].owner == Escaped then 0 else 1 {
      assert SocketOk(cfg, s, x);
    }
  }

  function CloseAll(t: TaskId, n: nat): seq<Event> {
    if n == 0 then [] else [CloseOne(t)] + CloseAll(t, n - 1)
  }

  lemma {:induction false} ClosingStep(cfg: Config, s: State, t: TaskId)
    requires cfg.maxAttempts >= 1 && Inv(cfg, s) && t in s.tasks && s.tasks[t].AcloseTask? && Sockets(s.tasks[t]) != []
    ensures var xs, e := Sockets(s.tasks[t]), CloseOne(t);
      && Enabled(cfg, s, e) && Inv(cfg, Next(cfg, s, e))
      && Next(cfg, s, e).tasks == s.tasks[t := AcloseTask(xs[1..])] && Next(cfg, s, e).idle == s.idle
      && xs[0] in Next(cfg, s, e).sockets && Next(cfg, s, e).sockets[xs[0]].owner == Closed
      && Next(cfg, s, e).sockets[xs[0]].closes == 1
  {
    HeldIsNotGone(cfg, s, t);
    assert Sockets(s.tasks[t])[0] in Sockets(s.tasks[t]);
    assert SocketOk(cfg, s, Sockets(s.tasks[t])[0]);
    StepKeepsInvariant(cfg, s, CloseOne(t));
  }

  lemma {:induction false} ClosingLoop(cfg: Config, s: State, t: TaskId, xs: seq<SocketId>)
    requires cfg.maxAttempts >= 1 && Inv(cfg, s) && t in s.tasks && s.tasks[t] == AcloseTask(xs)
    ensures IsRun(cfg, s, CloseAll(t, |xs|))
    ensures var s' := EndOf(cfg, s, CloseAll(t, |xs|)); s'.tasks == s.tasks[t := AcloseTask([])] && s'.idle == s.idle
    decreases |xs|
  {
    hide Next, Enabled, Inv;
    if xs == [] {
      assert s.tasks == s.tasks[t := AcloseTask([])];
    } else {
      ClosingStep(cfg, s, t);
      assert s.tasks[t := AcloseTask(xs[1..])][t := AcloseTask([])] == s.tasks[t := AcloseTask([])];
      ClosingLoop(cfg, Next(cfg, s, CloseOne(t)), t, xs[1..]);
      RunCons(cfg, s, CloseOne(t), CloseAll(t, |xs| - 1));
    }
  }

  // ---- Every schedule of the closes ----

  /** A task that has nothing left to do but close what it holds. */
  predicate OnlyCloses(task: Task) {
    task.AcloseTask? || (task.BackgroundTask? && task.work.Shedding?)
  }

  /** A context that such a task is to close: waiting in its list, or closed. */
  ghost predicate BeingClosed(s: State, t: TaskId, x: SocketId) {
    && t in s.tasks && OnlyCloses(s.tasks[t]) && x in s.sockets
    && (s.sockets[x].owner == Held(t) || s.sockets[x].owner == Closed)
  }

  lemma {:induction false} ClosingGoesOn(cfg: Config, s: State, e: Event)
    requires Enabled(cfg, s, e) && !e.UpstreamSpoke? && e.task in s.tasks && OnlyCloses(s.tasks[e.task])
    ensures e.CloseOne?
    ensures e.task in CloseNext(s, e.task).tasks && OnlyCloses(CloseNext(s, e.task).tasks[e.task])
    ensures CloseNext(s, e.task).tasks[e.task].AcloseTask? == s.tasks[e.task].AcloseTask?
  {
  }

  lemma {:induction false} StillBeingClosed(cfg: Config, s: State, e: Event, t: TaskId, x: SocketId)
    requires cfg.maxAttempts >= 1 && Inv(cfg, s) && Enabled(cfg, s, e) && BeingClosed(s, t, x)
    ensures BeingClosed(Next(cfg, s, e), t, x)
    ensures Next(cfg, s, e).tasks[t].AcloseTask? == s.tasks[t].AcloseTask?
  {
    hide Next, Enabled, Inv, CloseNext, Sockets, OnlyCloses;
    var s' := Next(cfg, s, e);
    StepOwners(cfg, s, e, x);
    if e.UpstreamSpoke? || e.task != t {
      OtherTasksWait(cfg, s, e, t);
      if s.sockets[x].owner == Held(t) {
        StepKeepsInvariant(cfg, s, e);
        HoldersAreIn(cfg, s, t);
        HeldIsNotGone(cfg, s', t);
      }
    } else {
      ClosingGoesOn(cfg, s, e);
      ClosingIsClosing(cfg, s, e);
      ClosesOwnSocket(cfg, s, t);
    }
  }

  lemma {:induction false} BeingClosedOn(cfg: Config, s: State, events: seq<Event>, t: TaskId, x: SocketId)
    requires cfg.maxAttempts >= 1 && Inv(cfg, s) && IsRun(cfg, s, events) && BeingClosed(s, t, x)
    ensures BeingClosed(EndOf(cfg, s, events), t, x) && Inv(cfg, EndOf(cfg, s, events))
    ensures EndOf(cfg, s, events).tasks[t].AcloseTask? == s.tasks[t].AcloseTask?
    decreases |events|
  {
    hide Next, Enabled, Inv, OnlyCloses;
    if events != [] {
      StillBeingClosed(cfg, s, events[0], t, x);
      StepKeepsInvariant(cfg, s, events[0]);
      BeingClosedOn(cfg, Next(cfg, s, events[0]), events[1..], t, x);
    }
  }

  /** However the closes of `aclose` interleave with the steps of all other tasks: a context that was
      idle when it was called is waiting to be closed by it, or was closed once, and none is waiting
      when its loop has ended. */
  lemma {:induction false} AcloseClosesUnderEverySchedule(
    cfg: Config, s: State, t: TaskId, order: seq<PoolKey>, rest: seq<Event>, x: SocketId)
    requires cfg.maxAttempts >= 1 && Inv(cfg, s) && Enabled(cfg, s, Aclose(t, order))
    requires IsRun(cfg, Next(cfg, s, Aclose(t, order)), rest) && x in s.sockets && s.sockets[x].owner.Pooled?
    ensures var end := EndOf(cfg, Next(cfg, s, Aclose(t, order)), rest);
      && t in end.tasks && end.tasks[t].AcloseTask? && x in end.sockets
      && end.sockets[x].closes == (if x in end.tasks[t].closing then 0 else 1)
      && (end.tasks[t] == AcloseTask([]) ==> end.sockets[x].closes == 1)
  {
    var s' := Next(cfg, s, Aclose(t, order));
    AcloseIs(cfg, s, t, order);
    AcloseOwners(cfg, s, t, order, x);
    assert s'.tasks[t].AcloseTask?;
    hide Next, Enabled, Inv, TakeAllIdle, Enumerates;
    StepKeepsInvariant(cfg, s, Aclose(t, order));
    BeingClosedOn(cfg, s', rest, t, x);
    ListedOrClosed(cfg, EndOf(cfg, s', rest), t, x);
  }

  lemma {:induction false} ListedOrClosed(cfg: Config, s: State, t: TaskId, x: SocketId)
    requires Inv(cfg, s) && BeingClosed(s, t, x)
    ensures s.sockets[x].closes == if x in Sockets(s.tasks[t]) then 0 else 1
    ensures s.sockets[x].owner == if x in Sockets(s.tasks[t]) then Held(t) else Closed
  {
    HeldIsNotGone(cfg, s, t);
    HoldersAreIn(cfg, s, t);
    assert SocketOk(cfg, s, x);
    hide Inv;
  }

  /** The ends of a background task's work on its socket that do not return it to the pool: sending
      `response.processed` failed, the settings keep nothing or the socket does not appear open when it is
      released, and the drain met a message or failed. */
  ghost predicate Discards(cfg: Config, s: State, e: Event) {
    || e.ProcessedFailed? || e.DrainFailed?
    || (e.ReleaseEntered? && !(e.appearsOpen && cfg.pooled && cfg.maxIdle > 0 && cfg.idleTimeout > 0.0))
    || (e.DrainReceived? && HasPending(s, e.task) && s.sockets[SocketOf(s, e.task)].pending[0].Text?)
  }

  lemma {:induction false} DiscardIsShed(cfg: Config, s: State, e: Event)
    requires Enabled(cfg, s, e) && Discards(cfg, s, e) && OnSocket(s, e.task)
    ensures var x, s' := SocketOf(s, e.task), Next(cfg, s, e);
      && e.task in s'.tasks && OnlyCloses(s'.tasks[e.task]) && !s'.tasks[e.task].AcloseTask?
      && x in s'.sockets && s'.sockets[x].owner == s.sockets[x].owner
  {
  }

  /** A socket that is not to be kept is never pooled again: over every continuation it waits to be closed
      by its background task, or was closed once, and it was when that task is done. */
  lemma {:induction false} DiscardedIsClosed(cfg: Config, s: State, e: Event, rest: seq<Event>)
    requires cfg.maxAttempts >= 1 && Inv(cfg, s) && Enabled(cfg, s, e) && Discards(cfg, s, e) && OnSocket(s, e.task)
    requires IsRun(cfg, Next(cfg, s, e), rest)
    ensures var x, end := SocketOf(s, e.task), EndOf(cfg, Next(cfg, s, e), rest);
      && e.task in end.tasks && x in end.sockets
      && (if x in Sockets(end.tasks[e.task]) then end.sockets[x].owner == Held(e.task) && end.sockets[x].closes == 0
          else end.sockets[x].owner == Closed && end.sockets[x].closes == 1)
  {
    var x, s' := SocketOf(s, e.task), Next(cfg, s, e);
    DiscardIsShed(cfg, s, e);
    OwnSocket(cfg, s, e.task);
    hide Next, Enabled, Inv, Discards, OnlyCloses, Sockets;
    StepKeepsInvariant(cfg, s, e);
    BeingClosedOn(cfg, s', rest, e.task, x);
    ListedOrClosed(cfg, EndOf(cfg, s', rest), e.task, x);
  }

  /** `aclose` can always run to its end, in any order of the buckets: it empties the pool and
      closes every context that was idle, and only its own task has changed. */
  lemma {:induction false} AcloseClosesEveryIdleContext(cfg: Config, s: State, t: TaskId, order: seq<PoolKey>)
    requires cfg.maxAttempts >= 1 && Inv(cfg, s) && t !in s.tasks && Enumerates(order, s.idle.Keys)
    ensures var events := [Aclose(t, order)] + CloseAll(t, |Flatten(s.idle, order)|);
      && IsRun(cfg, s, events)
      && EndOf(cfg, s, events).idle == map[]
      && EndOf(cfg, s, events).tasks == s.tasks[t := AcloseTask([])]
      && forall x :: x in s.sockets && s.sockets[x].owner.Pooled? ==>
           x in EndOf(cfg, s, events).sockets && EndOf(cfg, s, events).sockets[x].closes == 1
  {
    var e, s', rest := Aclose(t, order), TakeAllIdle(s, t, order), CloseAll(t, |Flatten(s.idle, order)|);
    AcloseIs(cfg, s, t, order);
    TakeAllIdleKeeps(cfg, s, t, order);
    AcloseTasks(s, t, order);
    hide Inv, Next, Enabled, TakeAllIdle, Enumerates, Flatten, Ids, CloseAll;
    ClosingLoop(cfg, s', t, Ids(Flatten(s.idle, order)));
    RunCons(cfg, s, e, rest);
    forall x | x in s.sockets && s.sockets[x].owner.Pooled?
      ensures var end := EndOf(cfg, s', rest); x in end.sockets && end.sockets[x].closes == 1
    {
      AcloseClosesUnderEverySchedule(cfg, s, t, order, rest, x);
    }
    hide IsRun, EndOf;
  }

  lemma {:induction false} AcloseTasks(s: State, t: TaskId, order: seq<PoolKey>)
    ensures var s', xs := TakeAllIdle(s, t, order), Ids(Flatten(s.idle, order));
      && s'.idle == map[] && s'.tasks == s.tasks[t := AcloseTask(xs)]
      && s'.tasks[t := AcloseTask([])] == s.tasks[t := AcloseTask([])]
  {
    hide Flatten, Ids;
  }

  /** `aclose` leaves a draining release where it is. */
  lemma {:induction false} DrainsOn(cfg: Config, s: State, t: TaskId, order: seq<PoolKey>, b: TaskId)
    requires Inv(cfg, s) && Enumerates(order, s.idle.Keys) && t !in s.tasks
    requires IsBackground(s, b) && OnSocket(s, b) && !HasPending(s, b)
    ensures var s' := TakeAllIdle(s, t, order);
      && s'.idle == map[] && s'.clock == s.clock && IsBackground(s', b) && s'.tasks[b] == s.tasks[b]
      && OnSocket(s', b) && SocketOf(s', b) == SocketOf(s, b) && !HasPending(s', b)
  {
    AcloseOwners(cfg, s, t, order, SocketOf(s, b));
    hide Inv, Reown, Flatten, Enumerates, Sockets;
  }

  /** `aclose` is not a barrier: a release that was still draining puts its socket back into the
      emptied pool, where nobody will close it. */
  lemma {:induction false} ReleaseRefillsAfterAclose(cfg: Config, s: State, t: TaskId, order: seq<PoolKey>, b: TaskId, now: real)
    requires cfg.maxAttempts >= 1 && Inv(cfg, s) && Enabled(cfg, s, Aclose(t, order)) && Enabled(cfg, s, DrainTimedOut(b, now))
    ensures var events := [Aclose(t, order)] + ([DrainTimedOut(b, now)] + []);
      && IsRun(cfg, s, events)
      && IdleUnder(EndOf(cfg, s, events), s.tasks[b].key, SocketOf(s, b))
  {
    var s' := TakeAllIdle(s, t, order);
    AcloseIs(cfg, s, t, order);
    DrainTimedOutIs(cfg, s, b, now);
    hide Next, Enabled, Inv, TakeAllIdle, Park, IdleUnder, Enumerates;
    DrainsOn(cfg, s, t, order, b);
    DrainTimedOutIs(cfg, s', b, now);
    ParkingRefills(cfg, s', b, now);
    RunCons(cfg, s', DrainTimedOut(b, now), []);
    RunCons(cfg, s, Aclose(t, order), [DrainTimedOut(b, now)] + []);
  }

  // ---- When the emptied pool stays empty ----

  lemma {:induction false} AcloseKeepsTasks(cfg: Config, s: State, t: TaskId, order: seq<PoolKey>)
    requires Inv(cfg, s) && Enabled(cfg, s, Aclose(t, order))
    ensures var s' := Next(cfg, s, Aclose(t, order));
      && s'.idle == map[] && t !in s.tasks && (forall u :: u in s.tasks ==> u in s'.tasks && s'.tasks[u] == s.tasks[u])
      && (forall u :: u in s'.tasks ==> u == t || u in s.tasks) && t in s'.tasks && s'.tasks[t].AcloseTask?
      && (forall x :: x in s.sockets ==> Pending(s'.sockets, x) == Pending(s.sockets, x))
  {
    var s' := Next(cfg, s, Aclose(t, order));
    AcloseIs(cfg, s, t, order);
    forall x | x in s.sockets ensures Pending(s'.sockets, x) == Pending(s.sockets, x) {
      AcloseOwners(cfg, s, t, order, x);
    }
    hide Inv, Next, Enabled, Enumerates, Flatten, Reown, Ids, Pending;
  }

  lemma {:induction false} AcloseMovesNobody(cfg: Config, s: State, t: TaskId, order: seq<PoolKey>)
    requires Inv(cfg, s) && Enabled(cfg, s, Aclose(t, order))
    ensures NobodyMayPark(cfg, Next(cfg, s, Aclose(t, order))) <==> NobodyMayPark(cfg, s)
  {
    var s' := Next(cfg, s, Aclose(t, order));
    hide Inv, Next, Enabled, Pending, Sockets, TaskMayPark;
    AcloseKeepsTasks(cfg, s, t, order);
    assert !MayPark(cfg, s', t) by { AcloseTaskMayNot(cfg, s'.tasks[t], s'.sockets); }
    forall u | u in s.tasks ensures MayPark(cfg, s', u) <==> MayPark(cfg, s, u) {
      HeldIsNotGone(cfg, s, u);
      if MayPark(cfg, s', u) {
        MoreQueued(cfg, s.tasks[u], s.sockets, s'.sockets);
      }
      if MayPark(cfg, s, u) {
        MoreQueued(cfg, s.tasks[u], s'.sockets, s.sockets);
      }
    }
    forall u ensures MayPark(cfg, s', u) <==> MayPark(cfg, s, u) {
      assert u in s'.tasks ==> u == t || u in s.tasks;
    }
  }

  lemma {:induction false} AcloseTaskMayNot(cfg: Config, task: Task, sockets: map<SocketId, Socket>)
    requires task.AcloseTask?
    ensures !TaskMayPark(cfg, task, sockets)
  {
  }

  /** `aclose` is final, short of a new request, if and only if the settings keep nothing or, at the
      moment of the call, no task may still put a socket into the pool. */
  lemma {:induction false} AcloseIsFinalExactly(cfg: Config, s: State, t: TaskId, order: seq<PoolKey>)
    requires cfg.maxAttempts >= 1 && Inv(cfg, s) && Enabled(cfg, s, Aclose(t, order))
    ensures StaysEmpty(cfg, Next(cfg, s, Aclose(t, order))) <==> !Retains(cfg) || NobodyMayPark(cfg, s)
  {
    hide Inv, Next, Enabled, NobodyMayPark, StaysEmpty, Retains, Pending;
    AcloseKeepsTasks(cfg, s, t, order);
    StepKeepsInvariant(cfg, s, Aclose(t, order));
    AcloseMovesNobody(cfg, s, t, order);
    StaysEmptyExactly(cfg, Next(cfg, s, Aclose(t, order)));
  }

  lemma {:induction false} IdleIsOpen(cfg: Config, s: State) returns (x: SocketId)
    requires Inv(cfg, s) && s.idle != map[]
    ensures x in s.sockets && s.sockets[x].owner.Pooled? && s.sockets[x].closes == 0
  {
    assert s.idle.Keys != {};
    var k :| k in s.idle;
    x := s.idle[k][0].socket;
    assert BucketOwned(s.sockets, k, s.idle[k]) && x == Ids(s.idle[k])[0];
    assert SocketOk(cfg, s, x);
  }

  /** Otherwise there is a continuation that leaves an open context in a pool that is shut down. */
  lemma {:induction false} OtherwiseOneIsLeftOpen(cfg: Config, s: State, t: TaskId, order: seq<PoolKey>)
    returns (rest: seq<Event>, x: SocketId)
    requires cfg.maxAttempts >= 1 && Inv(cfg, s) && Enabled(cfg, s, Aclose(t, order)) && Retains(cfg) && !NobodyMayPark(cfg, s)
    ensures IsRun(cfg, Next(cfg, s, Aclose(t, order)), rest) && NoSpawn(rest)
    ensures var end := EndOf(cfg, Next(cfg, s, Aclose(t, order)), rest);
      x in end.sockets && end.sockets[x].owner.Pooled? && end.sockets[x].closes == 0
  {
    hide Inv, Next, Enabled, NobodyMayPark, Retains;
    var s' := Next(cfg, s, Aclose(t, order));
    AcloseIsFinalExactly(cfg, s, t, order);
    rest :| IsRun(cfg, s', rest) && NoSpawn(rest) && EndOf(cfg, s', rest).idle != map[];
    StepKeepsInvariant(cfg, s, Aclose(t, order));
    RunKeepsInvariant(cfg, s', rest);
    x := IdleIsOpen(cfg, EndOf(cfg, s', rest));
  }

  ghost predicate RequestsAreDone(s: State) {
    forall u :: IsRequest(s, u) ==> s.tasks[u].phase.Done?
  }

  /** A background task that only closes, or on whose socket something is queued. */
  predicate GivesUpItsSocket(s: State, b: TaskId)
    requires IsBackground(s, b)
  {
    s.tasks[b].work.Shedding? || HasPending(s, b)
  }

  lemma {:induction false} BackgroundMayPark(cfg: Config, s: State, b: TaskId)
    requires Inv(cfg, s) && IsBackground(s, b)
    ensures MayPark(cfg, s, b) <==> !GivesUpItsSocket(s, b)
  {
    GoodTask(cfg, s, b);
    hide Inv, BodyOk;
    assert !s.tasks[b].work.Shedding? ==> Sockets(s.tasks[b])[0] in Sockets(s.tasks[b]);
  }

  /** Once all requests are done, it is final if and only if every background task is closing or has
      something queued on its socket, unless the settings keep nothing. */
  lemma {:induction false} AcloseIsFinalOnceRequestsAreDone(cfg: Config, s: State, t: TaskId, order: seq<PoolKey>)
    requires cfg.maxAttempts >= 1 && Inv(cfg, s) && Enabled(cfg, s, Aclose(t, order)) && RequestsAreDone(s)
    ensures StaysEmpty(cfg, Next(cfg, s, Aclose(t, order)))
      <==> !Retains(cfg) || forall b :: IsBackground(s, b) ==> GivesUpItsSocket(s, b)
  {
    AcloseIsFinalExactly(cfg, s, t, order);
    hide Inv, Next, Enabled, StaysEmpty, Retains, GivesUpItsSocket;
    forall b | IsBackground(s, b) ensures MayPark(cfg, s, b) <==> !GivesUpItsSocket(s, b) {
      BackgroundMayPark(cfg, s, b);
    }
    assert forall u :: MayPark(cfg, s, u) ==> IsBackground(s, u);
  }

  /** From `aclose` to where all closing has run, with no request coming later. */
  ghost predicate ShutsDown(cfg: Config, s: State, t: TaskId, order: seq<PoolKey>, rest: seq<Event>) {
    && Enabled(cfg, s, Aclose(t, order))
    && var s' := Next(cfg, s, Aclose(t, order));
    && IsRun(cfg, s', rest) && NoSpawn(rest) && NothingIsHeld(EndOf(cfg, s', rest))
  }

  /** `aclose` called when no task may put a socket into the pool any more, and no request comes
      later: when all closing has run, every context ever entered has been closed exactly once, if
      and only if no handler let an exception escape. Nothing is assumed of the pool at the end. */
  lemma {:induction false} AllClosedAfterAclose(
    cfg: Config, before: seq<Event>, t: TaskId, order: seq<PoolKey>, rest: seq<Event>)
    returns (events: seq<Event>)
    requires cfg.maxAttempts >= 1 && IsRun(cfg, Initial, before)
    requires var s := EndOf(cfg, Initial, before);
      ShutsDown(cfg, s, t, order, rest) && (!Retains(cfg) || NobodyMayPark(cfg, s))
    ensures events == before + ([Aclose(t, order)] + rest) && IsRun(cfg, Initial, events)
    ensures var end := EndOf(cfg, Initial, events);
      && end.idle == map[]
      && ((forall x :: x in end.sockets ==> end.sockets[x].closes == 1) <==> !SomethingEscapes(cfg, Initial, events))
  {
    assert Inv(cfg, Initial);
    hide Inv, Next, Enabled, NobodyMayPark, Retains, Sockets, SomethingEscapes;
    var s := EndOf(cfg, Initial, before);
    var s' := Next(cfg, s, Aclose(t, order));
    events := before + ([Aclose(t, order)] + rest);
    RunKeepsInvariant(cfg, Initial, before);
    AcloseIsFinalExactly(cfg, s, t, order);
    RunCons(cfg, s, Aclose(t, order), rest);
    LeadsOn(cfg, Initial, before, s, [Aclose(t, order)] + rest, EndOf(cfg, s', rest));
    AllClosedExactlyOnce(cfg, events);
  }

  /** In particular when all requests are done and every background task is past its release. */
  lemma {:induction false} AllClosedAfterAQuietAclose(
    cfg: Config, before: seq<Event>, t: TaskId, order: seq<PoolKey>, rest: seq<Event>)
    returns (events: seq<Event>)
    requires cfg.maxAttempts >= 1 && IsRun(cfg, Initial, before)
    requires var s := EndOf(cfg, Initial, before);
      && ShutsDown(cfg, s, t, order, rest)
      && RequestsAreDone(s) && forall b :: IsBackground(s, b) ==> s.tasks[b].work.Shedding?
    ensures events == before + ([Aclose(t, order)] + rest) && IsRun(cfg, Initial, events)
    ensures var end := EndOf(cfg, Initial, events);
      (forall x :: x in end.sockets ==> end.sockets[x].closes == 1) <==> !SomethingEscapes(cfg, Initial, events)
  {
    var s := EndOf(cfg, Initial, before);
    assert NobodyMayPark(cfg, s) by {
      forall u ensures !MayPark(cfg, s, u) { }
    }
    hide Inv, NobodyMayPark, Retains, ShutsDown, SomethingEscapes;
    events := AllClosedAfterAclose(cfg, before, t, order, rest);
  }
}
