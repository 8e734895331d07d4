/** What a request reports of its failed attempts, which sockets it is given and what is kept of them,
    and what may happen at every `await`. */
module BridgeReports {
  import opened Basics
  import opened Messages
  import opened Pool
  import opened PoolKeys
  import opened BridgeSystem
  import opened BridgeShape
  import opened BridgeRuns
  import opened BridgeWire

  /** The statuses with which attempts of the request failed, in the order of the run: opening, sending
      and waiting for the first message can fail. */
  ghost function StatusesOf(events: seq<Event>, t: TaskId): seq<nat> {
    if events == [] then []
    else
      (match events[0]
       case ConnectFailed(u, status) => if u == t then [status] else []
       case CreateFailed(u, status, _) => if u == t then [status] else []
       case FirstFailed(u, status) => if u == t then [status] else []
       case _ => [])
      + StatusesOf(events[1..], t)
  }

  /** The failures a request has on record, the one it is still cleaning up after included. */
  ghost function Recorded(s: State, t: TaskId): seq<nat> {
    if !IsRequest(s, t) then []
    else s.tasks[t].failures + if s.tasks[t].phase.Failing? then [s.tasks[t].phase.status] else []
  }

  predicate Fails(e: Event) {
    e.ConnectFailed? || e.CreateFailed? || e.FirstFailed?
  }

  lemma {:induction false} FailureIsRecorded(cfg: Config, s: State, e: Event)
    requires Enabled(cfg, s, e) && Fails(e)
    ensures Recorded(Next(cfg, s, e), e.task) == Recorded(s, e.task) + StatusesOf([e], e.task)
  {
    assert [e][1..] == [];
    assert StatusesOf([e], e.task) == [e.status] + [];
  }

  lemma {:induction false} OthersRecordNothing(cfg: Config, s: State, e: Event)
    requires Enabled(cfg, s, e) && !Fails(e) && !e.UpstreamSpoke? && !e.Proceed?
    ensures Recorded(Next(cfg, s, e), e.task) == Recorded(s, e.task)
  {
    hide Sockets, Terminal, CompletedId, CheckoutFrom, ReturnTo, Flatten, CreateRequest, Key, ValidAnswer, Enumerates, Reown,
         Ids, HasPending;
  }

  lemma {:induction false} ProceedRecords(cfg: Config, s: State, e: Event)
    requires Enabled(cfg, s, e) && e.Proceed?
    ensures Recorded(Next(cfg, s, e), e.task) == Recorded(s, e.task)
  {
  }

  lemma {:induction false} NothingOf(e: Event, t: TaskId)
    requires e.UpstreamSpoke? || e.task != t || !Fails(e)
    ensures StatusesOf([e], t) == []
  {
    assert [e][1..] == [];
  }

  lemma {:induction false} StepRecords(cfg: Config, s: State, e: Event, t: TaskId)
    requires Enabled(cfg, s, e)
    ensures Recorded(Next(cfg, s, e), t) == Recorded(s, t) + StatusesOf([e], t)
  {
    hide Next, Enabled, StatusesOf;
    if e.UpstreamSpoke? || e.task != t {
      NothingOf(e, t);
      if t in s.tasks {
        OtherTasksWait(cfg, s, e, t);
      } else {
        StepShape(cfg, s, e);
      }
    } else if Fails(e) {
      FailureIsRecorded(cfg, s, e);
    } else {
      NothingOf(e, t);
      if e.Proceed? {
        ProceedRecords(cfg, s, e);
      } else {
        OthersRecordNothing(cfg, s, e);
      }
    }
    AddNothing(Recorded(s, t));
  }

  lemma {:induction false} RunRecords(cfg: Config, s: State, events: seq<Event>, t: TaskId)
    requires IsRun(cfg, s, events)
    ensures Recorded(EndOf(cfg, s, events), t) == Recorded(s, t) + StatusesOf(events, t)
    decreases |events|
  {
    hide Next, Enabled, Recorded;
    if events == [] {
      AddNothing(Recorded(s, t));
    } else {
      var e, rest := events[0], events[1..];
      StepRecords(cfg, s, e, t);
      RunRecords(cfg, Next(cfg, s, e), rest, t);
      assert [e][1..] == [];
      assert StatusesOf(events, t) == StatusesOf([e], t) + StatusesOf(rest, t);
    }
  }

  /** What a request reports is what happened to it: the failures on record are the failing events of the
      run, in order, and when it gives up it reports the status of the last of them. */
  lemma {:induction false} FailuresAreTold(cfg: Config, events: seq<Event>, t: TaskId)
    requires cfg.maxAttempts >= 1 && IsRun(cfg, Initial, events) && IsRequest(EndOf(cfg, Initial, events), t)
    ensures var task, statuses := EndOf(cfg, Initial, events).tasks[t], StatusesOf(events, t);
      && task.failures + (if task.phase.Failing? then [task.phase.status] else []) == statuses
      && match task.phase
         case Done(Raised(status, attempts)) =>
           status == 400 || (|statuses| == attempts == cfg.maxAttempts && status == Last(statuses))
         case _ => true
  {
    RunRecords(cfg, Initial, events, t);
    var s := EndOf(cfg, Initial, events);
    assert [] + StatusesOf(events, t) == StatusesOf(events, t);
    assert Reachable(cfg, s);
    AttemptsAreHonest(cfg, s, t);
    AddNothing(s.tasks[t].failures);
    hide IsRun, EndOf, StatusesOf;
  }

  // ---- What the pool gives and keeps ----

  /** The newest socket that is within its age and appears open is taken, the newer ones are to be closed,
      newest first, and the older ones stay. */
  ghost predicate CutOff(
    bucket: seq<IdleEntry>, now: real, timeout: real, open: set<SocketId>, cut: int,
    selected: Option<SocketId>, doomed: seq<SocketId>, kept: seq<IdleEntry>)
  {
    && -1 <= cut < |bucket|
    && (forall j :: cut < j < |bucket| ==> now - bucket[j].lastUsedAt > timeout || bucket[j].socket !in open)
    && (if cut >= 0 then
          now - bucket[cut].lastUsedAt <= timeout && bucket[cut].socket in open && selected == Some(bucket[cut].socket) && kept == bucket[..cut]
        else selected == None && kept == [])
    && |doomed| == |bucket| - 1 - cut
    && forall i :: 0 <= i < |doomed| ==> doomed[i] == bucket[|bucket| - 1 - i].socket
  }

  /** The sockets of the entries from `from` on, newest first. */
  ghost predicate NewestFirst(bucket: seq<IdleEntry>, from: nat, doomed: seq<SocketId>) {
    && |doomed| + from == |bucket|
    && forall i :: 0 <= i < |doomed| ==> doomed[i] == bucket[|bucket| - 1 - i].socket
  }

  lemma {:induction false} ReversedIds(bucket: seq<IdleEntry>, from: nat)
    requires from <= |bucket|
    ensures NewestFirst(bucket, from, Ids(Reverse(bucket[from..])))
  {
  }

  lemma {:induction false} ScanCutsOff(bucket: seq<IdleEntry>, now: real, timeout: real, open: set<SocketId>) returns (cut: int)
    ensures var scan := ScanBucket(bucket, now, timeout, open);
      CutOff(bucket, now, timeout, open, cut, if scan.selected.Some? then Some(scan.selected.value.socket) else None, Ids(scan.stale), scan.kept)
  {
    hide ScanBucket, Reverse, Ids, NewestFirst, CutOff;
    cut := ScanCutsAtNewestUsable(bucket, now, timeout, open);
    ReversedIds(bucket, cut + 1);
    CutIsOff(bucket, now, timeout, open, cut, Ids(Reverse(bucket[cut + 1..])));
  }

  lemma {:induction false} CutIsOff(
    bucket: seq<IdleEntry>, now: real, timeout: real, open: set<SocketId>, cut: int, doomed: seq<SocketId>)
    requires CutAt(bucket, now, timeout, open, cut) && NewestFirst(bucket, cut + 1, doomed)
    ensures CutOff(bucket, now, timeout, open, cut, if cut >= 0 then Some(bucket[cut].socket) else None,
                   doomed, if cut >= 0 then bucket[..cut] else [])
  {
  }

  lemma {:induction false} StoredBucket(idle: Idle, key: PoolKey, bucket: seq<IdleEntry>)
    ensures Bucket(Store(idle, key, bucket), key) == bucket
  {
  }

  lemma {:induction false} CheckoutCutsOff(idle: Idle, key: PoolKey, now: real, timeout: real, open: set<SocketId>) returns (cut: int)
    ensures var c := CheckoutFrom(idle, key, now, timeout, open);
      CutOff(Bucket(idle, key), now, timeout, open, cut,
             if c.selected.Some? then Some(c.selected.value.socket) else None, Ids(c.stale), Bucket(c.idle, key))
  {
    hide ScanBucket, CutOff, Bucket, Store, Ids;
    cut := ScanCutsOff(Bucket(idle, key), now, timeout, open);
    StoredBucket(idle, key, ScanBucket(Bucket(idle, key), now, timeout, open).kept);
  }

  lemma {:induction false} BeginIs(cfg: Config, s: State, t: TaskId, now: real, open: set<SocketId>)
    requires IsRequest(s, t) && cfg.pooled && CreateRequest(s.tasks[t].req.body).Ok?
    ensures var c, s' := CheckoutFrom(s.idle, Key(cfg, s.tasks[t].req), now, cfg.idleTimeout, open), Begin(cfg, s, t, now, open);
      && IsRequest(s', t) && s'.idle == c.idle
      && s'.tasks[t].phase == Sweeping(if c.selected.Some? then Some(c.selected.value.socket) else None, Ids(c.stale))
  {
    hide CheckoutFrom, Key, CreateRequest, Reown, Sockets;
  }

  /** A request is given the newest socket of its bucket that is within its age and appears open. */
  lemma {:induction false} BeginChecksOut(cfg: Config, s: State, t: TaskId, now: real, open: set<SocketId>) returns (cut: int)
    requires Enabled(cfg, s, BeginAttempt(t, now, open)) && cfg.pooled && CreateRequest(s.tasks[t].req.body).Ok?
    ensures var key, s' := Key(cfg, s.tasks[t].req), Next(cfg, s, BeginAttempt(t, now, open));
      && IsRequest(s', t) && s'.tasks[t].phase.Sweeping?
      && CutOff(Bucket(s.idle, key), now, cfg.idleTimeout, open, cut,
                s'.tasks[t].phase.selected, s'.tasks[t].phase.doomed, Bucket(s'.idle, key))
      && forall k :: k != key ==> Bucket(s'.idle, k) == Bucket(s.idle, k)
  {
    var key := Key(cfg, s.tasks[t].req);
    BeginAttemptIs(cfg, s, t, now, open);
    hide Next, Enabled, CutOff, CheckoutFrom, Key, CreateRequest, Begin;
    BeginIs(cfg, s, t, now, open);
    cut := CheckoutCutsOff(s.idle, key, now, cfg.idleTimeout, open);
    forall k | k != key ensures Bucket(CheckoutFrom(s.idle, key, now, cfg.idleTimeout, open).idle, k) == Bucket(s.idle, k) {
      CheckoutKeepsOtherKeys(s.idle, key, now, cfg.idleTimeout, open, k);
    }
  }

  lemma {:induction false} ParkIs(cfg: Config, s: State, b: TaskId, x: SocketId, now: real)
    requires IsBackground(s, b) && x in s.sockets && cfg.maxIdle > 0
    ensures var r, s' := ReturnTo(s.idle, IdleEntry(x, s.tasks[b].key, now, now), cfg.maxIdle), Park(cfg, s, b, x, now);
      && s'.idle == r.idle && IsBackground(s', b) && s'.tasks[b].work == Shedding(Ids(r.evicted))
  {
    hide ReturnTo, Reown, Ids;
  }

  lemma {:induction false} ReturnedTo(idle: Idle, entry: IdleEntry, maxIdle: int)
    requires maxIdle > 0
    ensures var all := Bucket(idle, entry.key) + [entry];
      var excess := if |all| > maxIdle then |all| - maxIdle else 0;
      var r := ReturnTo(idle, entry, maxIdle);
      && Bucket(r.idle, entry.key) == all[excess..]
      && |Ids(r.evicted)| == excess && (forall i :: 0 <= i < excess ==> Ids(r.evicted)[i] == all[i].socket)
      && forall k :: k != entry.key ==> Bucket(r.idle, k) == Bucket(idle, k)
  {
  }

  /** A released socket goes to the end of its bucket, used just now; only as many of the oldest as are
      too many are taken out, and they are closed. */
  lemma {:induction false} ParkReturns(cfg: Config, s: State, b: TaskId, now: real)
    requires Enabled(cfg, s, DrainTimedOut(b, now))
    ensures var key, s' := s.tasks[b].key, Next(cfg, s, DrainTimedOut(b, now));
      var all := Bucket(s.idle, key) + [IdleEntry(SocketOf(s, b), key, now, now)];
      var excess := if |all| > cfg.maxIdle then |all| - cfg.maxIdle else 0;
      && Bucket(s'.idle, key) == all[excess..]
      && IsBackground(s', b) && s'.tasks[b].work.Shedding? && |s'.tasks[b].work.doomed| == excess
      && (forall i :: 0 <= i < excess ==> s'.tasks[b].work.doomed[i] == all[i].socket)
      && forall k :: k != key ==> Bucket(s'.idle, k) == Bucket(s.idle, k)
  {
    hide Next, Enabled, Park, ReturnTo, Ids, Bucket;
    DrainTimedOutIs(cfg, s, b, now);
    ParkIs(cfg, s, b, SocketOf(s, b), now);
    ReturnedTo(s.idle, IdleEntry(SocketOf(s, b), s.tasks[b].key, now, now), cfg.maxIdle);
  }

  // ---- What may happen ----

  /** What the invariant says of a task with one socket (`BridgeRefill.OneSocket`). */
  predicate HasItsSocket(s: State, t: TaskId)
    requires t in s.tasks
  {
    |Sockets(s.tasks[t])| == 1 ==> OnSocket(s, t)
  }

  /** While a request opens its socket and waits for the first message, each `await` may end well or
      badly, in every way the code tells apart. */
  lemma {:induction false} OpeningMayEnd(cfg: Config, s: State, t: TaskId, answer: seq<Message>, reply: seq<Message>)
    requires IsRequest(s, t) && ValidAnswer(answer) && HasItsSocket(s, t)
    ensures match s.tasks[t].phase
      case Starting => forall now, open :: now >= s.clock ==> Enabled(cfg, s, BeginAttempt(t, now, open))
      case Connecting =>
        && Enabled(cfg, s, ConnectFailed(t, 502)) && Enabled(cfg, s, ConnectFailed(t, 504))
        && forall x :: x !in s.sockets ==> Enabled(cfg, s, Connected(t, x))
      case SendingCreate(_) =>
        && Enabled(cfg, s, CreateSent(t, answer))
        && Enabled(cfg, s, CreateFailed(t, 502, reply)) && Enabled(cfg, s, CreateFailed(t, 504, reply))
      case AwaitingFirst(_) =>
        && (HasPending(s, t) ==> Enabled(cfg, s, FirstReceived(t))) && Enabled(cfg, s, FirstEscaped(t))
        && Enabled(cfg, s, FirstFailed(t, 502)) && Enabled(cfg, s, FirstFailed(t, 504))
      case _ => true
  {
    hide ValidAnswer;
  }

  /** While it streams, too. */
  lemma {:induction false} StreamMayEnd(cfg: Config, s: State, t: TaskId)
    requires IsRequest(s, t) && HasItsSocket(s, t)
    ensures match s.tasks[t].phase
      case Primed(_, _) => Enabled(cfg, s, StreamStarted(t)) && Enabled(cfg, s, StreamNeverStarted(t))
      case Receiving(_) => (HasPending(s, t) ==> Enabled(cfg, s, StreamReceived(t))) && Enabled(cfg, s, StreamFailed(t))
      case Yielding(_) =>
        && Enabled(cfg, s, Aborted(t))
        && forall b :: s.tasks[t].shown != [] && b !in s.tasks ==> Enabled(cfg, s, Resumed(t, b))
      case _ => true
  {
  }

  /** And while a background task has the socket. */
  lemma {:induction false} ReleaseMayEnd(cfg: Config, s: State, b: TaskId)
    requires IsBackground(s, b) && HasItsSocket(s, b)
    ensures match s.tasks[b].work
      case SendingProcessed(_, _) => Enabled(cfg, s, ProcessedSent(b)) && Enabled(cfg, s, ProcessedFailed(b))
      case Releasing(_) => Enabled(cfg, s, ReleaseEntered(b, true)) && Enabled(cfg, s, ReleaseEntered(b, false))
      case _ => true
  {
  }

  lemma {:induction false} DrainMayFail(cfg: Config, s: State, b: TaskId)
    requires IsBackground(s, b) && s.tasks[b].work.Draining?
    ensures Enabled(cfg, s, DrainFailed(b))
  {
  }

  lemma {:induction false} DrainMayEnd(cfg: Config, s: State, b: TaskId)
    requires IsBackground(s, b) && HasItsSocket(s, b) && s.tasks[b].work.Draining? && cfg.maxIdle > 0
    ensures Enabled(cfg, s, DrainFailed(b))
    ensures if HasPending(s, b) then Enabled(cfg, s, DrainReceived(b))
            else forall now :: now >= s.clock ==> Enabled(cfg, s, DrainTimedOut(b, now))
  {
    hide Enabled;
    DrainMayFail(cfg, s, b);
    DrainReceivedIs(cfg, s, b);
    forall now | now >= s.clock && !HasPending(s, b) ensures Enabled(cfg, s, DrainTimedOut(b, now)) {
      DrainTimedOutIs(cfg, s, b, now);
    }
  }
}
