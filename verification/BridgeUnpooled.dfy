/** The bridge with pooling switched off does everything the private bridge may do, so what a
    request goes through with a pool, it could have gone through without one. */
module BridgeUnpooled {
  import opened Basics
  import opened Messages
  import opened Pool
  import opened BridgeSystem
  import opened BridgeInvariants
  import opened BridgeShape
  import opened BridgeRuns
  import opened BridgeTransparency
  import opened BridgeRefinement

  /** What the client has been given. */
  function ShownIn(p: Private): seq<Message> {
    match p
    case Streaming(_, answer, k) => if k <= |answer| then answer[..k] else []
    case Whole(_, answer) => answer
    case CutShort(_, answer, k) => if k <= |answer| then answer[..k] else []
    case _ => []
  }

  /** Request 0 stands where the private bridge stands, on sockets numbered by its attempts. */
  ghost predicate Stands(cfg: Config, s: State, req: Request, p: Private) {
    && s.tasks.Keys == {0} && s.tasks[0].RequestTask? && s.tasks[0].req == req
    && s.tasks[0].backlog == [] && View(s.tasks[0]) == p && s.tasks[0].shown == ShownIn(p)
    && (forall x :: x in s.sockets ==> x <= s.tasks[0].attempt)
    && match p
       case Trying(n) => s.tasks[0].phase.Starting? && n !in s.sockets
       case Waiting(_, answer) => ValidAnswer(answer) && s.tasks[0].phase.AwaitingFirst? && Queued(s, s.tasks[0].phase.socket, answer)
       case Opened(_, answer) =>
         && ValidAnswer(answer) && s.tasks[0].phase.Primed? && s.tasks[0].phase.first == answer[0]
         && Queued(s, s.tasks[0].phase.socket, answer[1..])
       case Streaming(_, answer, k) =>
         && ValidAnswer(answer) && 0 < k <= |answer| && s.tasks[0].phase.Yielding? && Queued(s, s.tasks[0].phase.socket, answer[k..])
       case AttemptFailed(_, _) => |s.tasks[0].phase.doomed| <= 1 && forall x :: x in s.tasks[0].phase.doomed ==> x in s.sockets
       case _ => false
  }

  ghost predicate Queued(s: State, x: SocketId, pending: seq<Message>) {
    x in s.sockets && s.sockets[x].pending == pending
  }

  /** The request has come to its end there. */
  ghost predicate Ended(s: State, req: Request, p: Private) {
    0 in s.tasks && s.tasks[0].RequestTask? && s.tasks[0].req == req && View(s.tasks[0]) == p && s.tasks[0].shown == ShownIn(p)
  }

  predicate Final(p: Private) {
    p.Whole? || p.CutShort? || p.Refused? || p.Abandoned?
  }

  ghost predicate At(cfg: Config, s: State, req: Request, p: Private) {
    if Final(p) then Ended(s, req, p) else Stands(cfg, s, req, p)
  }

  // ---- Single events ----

  lemma {:induction false} BodyIsRefused(cfg: Config, s: State, req: Request)
    requires Stands(cfg, s, req, Trying(1)) && CreateRequest(req.body).Err?
    ensures var e := BeginAttempt(0, s.clock, {}); Enabled(cfg, s, e) && At(cfg, Next(cfg, s, e), req, Refused(400, 1))
  {
  }

  lemma {:induction false} Begins(cfg: Config, s: State, req: Request, n: nat)
    requires !cfg.pooled && Stands(cfg, s, req, Trying(n)) && CreateRequest(req.body).Ok?
    ensures var e := BeginAttempt(0, s.clock, {});
      Enabled(cfg, s, e) && Next(cfg, s, e) == s.(tasks := map[0 := s.tasks[0].(phase := Connecting)])
  {
  }

  /** Between the checkout that finds no pool and the connection. */
  ghost predicate Connects(cfg: Config, s: State, req: Request, n: nat) {
    && s.tasks.Keys == {0} && s.tasks[0].RequestTask? && s.tasks[0].req == req && s.tasks[0].phase.Connecting?
    && s.tasks[0].backlog == [] && s.tasks[0].shown == [] && s.tasks[0].attempt == n
    && forall x :: x in s.sockets ==> x < n
  }

  lemma {:induction false} ConnectingFails(cfg: Config, s: State, req: Request, n: nat, status: nat)
    requires Connects(cfg, s, req, n) && RetriableStatus(status)
    ensures var e := ConnectFailed(0, status); Enabled(cfg, s, e) && At(cfg, Next(cfg, s, e), req, AttemptFailed(n, status))
  {
  }

  lemma {:induction false} ConnectsAndSends(cfg: Config, s: State, req: Request, n: nat, answer: seq<Message>)
    requires Connects(cfg, s, req, n) && ValidAnswer(answer)
    ensures Enabled(cfg, s, Connected(0, n)) && Enabled(cfg, Next(cfg, s, Connected(0, n)), CreateSent(0, answer))
    ensures At(cfg, Next(cfg, Next(cfg, s, Connected(0, n)), CreateSent(0, answer)), req, Waiting(n, answer))
  {
    var s1 := Connect(s, 0, n);
    ConnectedIs(cfg, s, 0, n);
    CreateSentIs(cfg, s1, 0, answer);
    hide Next, Enabled, ValidAnswer;
    assert [] + answer == answer;
  }

  lemma {:induction false} FirstComes(cfg: Config, s: State, req: Request, n: nat, answer: seq<Message>)
    requires Stands(cfg, s, req, Waiting(n, answer))
    ensures Enabled(cfg, s, FirstReceived(0)) && At(cfg, Next(cfg, s, FirstReceived(0)), req, Opened(n, answer))
  {
    hide Terminal;
  }

  lemma {:induction false} FirstFails(cfg: Config, s: State, req: Request, n: nat, answer: seq<Message>, status: nat)
    requires Stands(cfg, s, req, Waiting(n, answer)) && RetriableStatus(status)
    ensures Enabled(cfg, s, FirstFailed(0, status)) && At(cfg, Next(cfg, s, FirstFailed(0, status)), req, AttemptFailed(n, status))
  {
    hide ValidAnswer;
  }

  lemma {:induction false} IsAbandoned(cfg: Config, s: State, req: Request, p: Private)
    requires Stands(cfg, s, req, p) && (p.Waiting? || p.Opened?)
    ensures var e := if p.Waiting? then FirstEscaped(0) else StreamNeverStarted(0);
      Enabled(cfg, s, e) && At(cfg, Next(cfg, s, e), req, Abandoned)
  {
    hide ValidAnswer;
  }

  lemma {:induction false} Starts(cfg: Config, s: State, req: Request, n: nat, answer: seq<Message>)
    requires Stands(cfg, s, req, Opened(n, answer))
    ensures Enabled(cfg, s, StreamStarted(0))
    ensures At(cfg, Next(cfg, s, StreamStarted(0)), req, if answer[0].Text? then Streaming(n, answer, 1) else CutShort(n, answer, 0))
  {
    assert [] + [answer[0]] == answer[..1];
    hide Terminal;
  }

  lemma {:induction false} ReceivesOneMore(cfg: Config, s: State, req: Request, n: nat, answer: seq<Message>, k: nat)
    requires s.tasks.Keys == {0} && s.tasks[0].RequestTask? && s.tasks[0].phase.Receiving? && s.tasks[0].attempt == n
    requires Stands(cfg, Turn(s, 0, Yielding(s.tasks[0].phase.socket)), req, Streaming(n, answer, k)) && k < |answer| && answer[k].Text?
    ensures HasPending(s, 0) && At(cfg, ReceiveNext(s, 0), req, Streaming(n, answer, k + 1))
  {
    hide ValidAnswer, Terminal;
    assert answer[..k] + [answer[k]] == answer[..k + 1] && answer[k..][1..] == answer[k + 1..];
  }

  lemma {:induction false} GoesOn(cfg: Config, s: State, req: Request, n: nat, answer: seq<Message>, k: nat)
    requires Stands(cfg, s, req, Streaming(n, answer, k)) && k < |answer| && answer[k].Text?
    ensures Enabled(cfg, s, Resumed(0, 1)) && Enabled(cfg, Next(cfg, s, Resumed(0, 1)), StreamReceived(0))
    ensures At(cfg, Next(cfg, Next(cfg, s, Resumed(0, 1)), StreamReceived(0)), req, Streaming(n, answer, k + 1))
  {
    var s1 := Turn(s, 0, Receiving(SocketOf(s, 0)));
    assert !Terminal(Last(answer[..k])) by { assert Last(answer[..k]) == Front(answer)[k - 1]; }
    ResumedIs(cfg, s, 0, 1);
    StreamReceivedIs(cfg, s1, 0);
    hide Next, Enabled, ValidAnswer, Terminal;
    assert Resume(cfg, s, 0, 1) == s1;
    ReceivesOneMore(cfg, s1, req, n, answer, k);
  }

  lemma {:induction false} Returns(cfg: Config, s: State, req: Request, n: nat, answer: seq<Message>)
    requires Stands(cfg, s, req, Streaming(n, answer, |answer|))
    ensures Enabled(cfg, s, Resumed(0, 1)) && At(cfg, Next(cfg, s, Resumed(0, 1)), req, Whole(n, answer))
  {
    assert answer[..|answer|] == answer;
    hide CompletedId, Key;
  }

  lemma {:induction false} IsCutShort(cfg: Config, s: State, req: Request, n: nat, answer: seq<Message>, k: nat)
    requires Stands(cfg, s, req, Streaming(n, answer, k))
    ensures Enabled(cfg, s, Aborted(0)) && At(cfg, Next(cfg, s, Aborted(0)), req, CutShort(n, answer, k))
  {
    hide ValidAnswer;
  }

  /** Its context, if it has one, is closed. */
  lemma {:induction false} FailedCloses(cfg: Config, s: State, req: Request, n: nat, status: nat)
    requires Stands(cfg, s, req, AttemptFailed(n, status)) && s.tasks[0].phase.doomed != []
    ensures Enabled(cfg, s, CloseOne(0))
    ensures var s' := Next(cfg, s, CloseOne(0)); Stands(cfg, s', req, AttemptFailed(n, status)) && s'.tasks[0].phase.doomed == []
  {
  }

  function AfterFailure(cfg: Config, n: nat, status: nat): Private {
    if n < cfg.maxAttempts then Trying(n + 1) else Refused(status, cfg.maxAttempts)
  }

  lemma {:induction false} FailedProceeds(cfg: Config, s: State, req: Request, n: nat, status: nat)
    requires Stands(cfg, s, req, AttemptFailed(n, status)) && s.tasks[0].phase.doomed == []
    ensures Enabled(cfg, s, Proceed(0)) && At(cfg, Next(cfg, s, Proceed(0)), req, AfterFailure(cfg, n, status))
  {
  }

  // ---- Steps of the private bridge ----

  lemma {:induction false} LeadsByTwo(cfg: Config, s: State, a: Event, b: Event)
    requires Enabled(cfg, s, a) && Enabled(cfg, Next(cfg, s, a), b)
    ensures Leads(cfg, s, [a] + [b], Next(cfg, Next(cfg, s, a), b))
  {
    hide Next, Enabled, Leads;
    LeadsByOne(cfg, s, a);
    LeadsByOne(cfg, Next(cfg, s, a), b);
    LeadsOn(cfg, s, [a], Next(cfg, s, a), [b], Next(cfg, Next(cfg, s, a), b));
  }

  lemma {:induction false} Tries(cfg: Config, s: State, req: Request, n: nat, p': Private) returns (events: seq<Event>, s': State)
    requires !cfg.pooled && Stands(cfg, s, req, Trying(n)) && p' != Trying(n)
    requires PrivateStep(cfg.maxAttempts, CreateRequest(req.body).Ok?, Trying(n), p')
    ensures Leads(cfg, s, events, s') && At(cfg, s', req, p')
  {
    var begin := BeginAttempt(0, s.clock, {});
    hide Next, Enabled, At, Leads, CreateRequest, ValidAnswer, RetriableStatus;
    if CreateRequest(req.body).Err? {
      BodyIsRefused(cfg, s, req);
      events, s' := [begin], Next(cfg, s, begin);
      LeadsByOne(cfg, s, begin);
    } else {
      Begins(cfg, s, req, n);
      var s1 := Next(cfg, s, begin);
      LeadsByOne(cfg, s, begin);
      assert Connects(cfg, s1, req, n);
      hide Stands, Connects;
      if p'.Waiting? {
        ConnectsAndSends(cfg, s1, req, n, p'.answer);
        var s2 := Next(cfg, s1, Connected(0, n));
        s' := Next(cfg, s2, CreateSent(0, p'.answer));
        LeadsByTwo(cfg, s1, Connected(0, n), CreateSent(0, p'.answer));
        events := [begin] + ([Connected(0, n)] + [CreateSent(0, p'.answer)]);
        LeadsOn(cfg, s, [begin], s1, [Connected(0, n)] + [CreateSent(0, p'.answer)], s');
      } else {
        var failed := ConnectFailed(0, p'.status);
        ConnectingFails(cfg, s1, req, n, p'.status);
        s', events := Next(cfg, s1, failed), [begin] + [failed];
        LeadsByOne(cfg, s1, failed);
        LeadsOn(cfg, s, [begin], s1, [failed], s');
      }
    }
  }

  lemma {:induction false} Waits(cfg: Config, s: State, req: Request, p: Private, p': Private) returns (events: seq<Event>, s': State)
    requires (p.Waiting? || p.Opened?) && Stands(cfg, s, req, p) && p' != p
    requires PrivateStep(cfg.maxAttempts, CreateRequest(req.body).Ok?, p, p')
    ensures Leads(cfg, s, events, s') && At(cfg, s', req, p')
  {
    hide Next, Enabled, At, Leads, CreateRequest, ValidAnswer, RetriableStatus, Stands;
    var e;
    if p'.Abandoned? {
      e := if p.Waiting? then FirstEscaped(0) else StreamNeverStarted(0);
      IsAbandoned(cfg, s, req, p);
    } else if p.Opened? {
      e := StreamStarted(0);
      Starts(cfg, s, req, p.attempt, p.answer);
    } else if p'.Opened? {
      e := FirstReceived(0);
      FirstComes(cfg, s, req, p.attempt, p.answer);
    } else {
      e := FirstFailed(0, p'.status);
      FirstFails(cfg, s, req, p.attempt, p.answer, p'.status);
    }
    events, s' := [e], Next(cfg, s, e);
    LeadsByOne(cfg, s, e);
  }

  lemma {:induction false} Streams(cfg: Config, s: State, req: Request, p: Private, p': Private) returns (events: seq<Event>, s': State)
    requires p.Streaming? && Stands(cfg, s, req, p) && p' != p
    requires PrivateStep(cfg.maxAttempts, CreateRequest(req.body).Ok?, p, p')
    ensures Leads(cfg, s, events, s') && At(cfg, s', req, p')
  {
    hide Next, Enabled, At, Leads, CreateRequest, ValidAnswer, Stands;
    if p'.Streaming? {
      GoesOn(cfg, s, req, p.attempt, p.answer, p.shown);
      events, s' := [Resumed(0, 1)] + [StreamReceived(0)], Next(cfg, Next(cfg, s, Resumed(0, 1)), StreamReceived(0));
      LeadsByTwo(cfg, s, Resumed(0, 1), StreamReceived(0));
    } else if p'.Whole? {
      Returns(cfg, s, req, p.attempt, p.answer);
      events, s' := [Resumed(0, 1)], Next(cfg, s, Resumed(0, 1));
      LeadsByOne(cfg, s, Resumed(0, 1));
    } else {
      IsCutShort(cfg, s, req, p.attempt, p.answer, p.shown);
      events, s' := [Aborted(0)], Next(cfg, s, Aborted(0));
      LeadsByOne(cfg, s, Aborted(0));
    }
  }

  lemma {:induction false} Fails(cfg: Config, s: State, req: Request, n: nat, status: nat) returns (events: seq<Event>, s': State)
    requires Stands(cfg, s, req, AttemptFailed(n, status))
    ensures Leads(cfg, s, events, s') && At(cfg, s', req, AfterFailure(cfg, n, status))
  {
    hide Next, Enabled, At, Leads, AfterFailure;
    if s.tasks[0].phase.doomed == [] {
      FailedProceeds(cfg, s, req, n, status);
      events, s' := [Proceed(0)], Next(cfg, s, Proceed(0));
      LeadsByOne(cfg, s, Proceed(0));
    } else {
      FailedCloses(cfg, s, req, n, status);
      var s1 := Next(cfg, s, CloseOne(0));
      FailedProceeds(cfg, s1, req, n, status);
      events, s' := [CloseOne(0)] + [Proceed(0)], Next(cfg, s1, Proceed(0));
      LeadsByTwo(cfg, s, CloseOne(0), Proceed(0));
    }
  }

  /** Whatever step the private bridge takes, the bridge without a pool can follow. */
  lemma {:induction false} Follows(cfg: Config, s: State, req: Request, p: Private, p': Private) returns (events: seq<Event>, s': State)
    requires !cfg.pooled && At(cfg, s, req, p) && PrivateStep(cfg.maxAttempts, CreateRequest(req.body).Ok?, p, p')
    ensures Leads(cfg, s, events, s') && At(cfg, s', req, p')
  {
    hide Next, Enabled, CreateRequest, ValidAnswer, Stands, Ended;
    if p == p' {
      events, s' := [], s;
    } else if p.Trying? {
      events, s' := Tries(cfg, s, req, p.attempt, p');
    } else if p.Waiting? || p.Opened? {
      events, s' := Waits(cfg, s, req, p, p');
    } else if p.Streaming? {
      events, s' := Streams(cfg, s, req, p, p');
    } else {
      events, s' := Fails(cfg, s, req, p.attempt, p.status);
    }
  }

  // ---- Whole runs ----

  /** In the course of the run, request 0 looks like each of the states in turn, like the first one
      at its beginning and like the last one at its end. */
  ghost predicate Shows(cfg: Config, s: State, events: seq<Event>, states: seq<Private>)
    decreases |states|
  {
    && states != [] && IsRequest(s, 0) && View(s.tasks[0]) == states[0]
    && if |states| == 1 then events == []
       else exists n: nat, s' :: n <= |events| && Leads(cfg, s, events[..n], s') && Shows(cfg, s', events[n..], states[1..])
  }

  lemma {:induction false} StandsAsSeen(cfg: Config, s: State, req: Request, p: Private)
    requires At(cfg, s, req, p)
    ensures IsRequest(s, 0) && View(s.tasks[0]) == p && s.tasks[0].req == req && s.tasks[0].shown == ShownIn(p)
  {
  }

  lemma {:induction false} ShowsRun(cfg: Config, s: State, req: Request, states: seq<Private>) returns (events: seq<Event>, s': State)
    requires !cfg.pooled && PrivateRun(cfg.maxAttempts, CreateRequest(req.body).Ok?, states) && At(cfg, s, req, states[0])
    ensures Leads(cfg, s, events, s') && At(cfg, s', req, Last(states)) && Shows(cfg, s, events, states)
    decreases |states|
  {
    hide Next, Enabled, CreateRequest, At, PrivateStep, View;
    StandsAsSeen(cfg, s, req, states[0]);
    if |states| == 1 {
      events, s' := [], s;
    } else {
      var first, s1 := Follows(cfg, s, req, states[0], states[1]);
      var rest := states[1..];
      assert PrivateRun(cfg.maxAttempts, CreateRequest(req.body).Ok?, rest) by {
        forall i | 0 < i < |rest| ensures PrivateStep(cfg.maxAttempts, CreateRequest(req.body).Ok?, rest[i - 1], rest[i]) {
          assert rest[i] == states[i + 1] && rest[i - 1] == states[i];
        }
      }
      var more;
      more, s' := ShowsRun(cfg, s1, req, rest);
      events := first + more;
      hide Leads;
      LeadsOn(cfg, s, first, s1, more, s');
      assert events[..|first|] == first && events[|first|..] == more;
    }
  }

  /** Every run of the private bridge is what one request looks like in a run, from the beginning,
      of the bridge with pooling off. */
  lemma {:induction false} PrivateRunsAreUnpooled(cfg: Config, req: Request, states: seq<Private>)
    returns (events: seq<Event>, s: State)
    requires !cfg.pooled && cfg.maxAttempts >= 1
    requires PrivateRun(cfg.maxAttempts, CreateRequest(req.body).Ok?, states) && states[0] == Trying(1)
    ensures Leads(cfg, Initial, [Spawn(0, req)] + events, s) && Shows(cfg, Next(cfg, Initial, Spawn(0, req)), events, states)
    ensures IsRequest(s, 0) && s.tasks[0].req == req && View(s.tasks[0]) == Last(states) && s.tasks[0].shown == ShownIn(Last(states))
  {
    var s1 := Next(cfg, Initial, Spawn(0, req));
    assert Enabled(cfg, Initial, Spawn(0, req)) && At(cfg, s1, req, Trying(1));
    hide Next, Enabled, CreateRequest, At, PrivateRun, Leads, Shows, View;
    LeadsByOne(cfg, Initial, Spawn(0, req));
    events, s := ShowsRun(cfg, s1, req, states);
    LeadsOn(cfg, Initial, [Spawn(0, req)], s1, events, s);
    StandsAsSeen(cfg, s, req, Last(states));
  }

  lemma {:induction false} ShownAsViewed(cfg: Config, s: State, t: TaskId)
    requires Inv(cfg, s) && IsRequest(s, t) && SeesOwnAnswer(s.tasks[t])
    ensures s.tasks[t].shown == ShownIn(View(s.tasks[t]))
  {
    var shown, answer := s.tasks[t].shown, s.tasks[t].answer;
    assert TaskOk(cfg, s, t);
    assert answer[..|shown|] == shown;
    hide Inv, Wire, ValidAnswer, CreateRequest;
  }

  /** Refinement of the bridge without a pool: in every run with a pool in which the upstream is
      quiet between exchanges, every request goes through what the same request can go through, in
      that order, in a run with pooling off, and stands in the end where it stands there, with all
      that its client was shown. */
  lemma {:induction false} EveryRequestIsAsWithoutPool(cfg: Config, events: seq<Event>, t: TaskId)
    returns (alone: seq<Event>, s: State)
    requires cfg.maxAttempts >= 1 && IsRun(cfg, Initial, events) && AllInTurn(cfg, Initial, events)
    requires IsRequest(EndOf(cfg, Initial, events), t)
    ensures var task, off := EndOf(cfg, Initial, events).tasks[t], cfg.(pooled := false);
      && Leads(off, Initial, [Spawn(0, task.req)] + alone, s)
      && Shows(off, Next(off, Initial, Spawn(0, task.req)), alone, Views(cfg, Initial, events, t))
      && IsRequest(s, 0) && s.tasks[0].req == task.req
      && View(s.tasks[0]) == View(task) && s.tasks[0].shown == task.shown
  {
    var end, off := EndOf(cfg, Initial, events), cfg.(pooled := false);
    assert Inv(cfg, Initial);
    hide Next, Enabled, CreateRequest, PrivateStep, Leads, Shows, View, Views, Inv;
    EveryRequestIsPrivate(cfg, events, t);
    PoolTransparency(cfg, events, t);
    RunKeepsInvariant(cfg, Initial, events);
    ShownAsViewed(cfg, end, t);
    alone, s := PrivateRunsAreUnpooled(off, end.tasks[t].req, Views(cfg, Initial, events, t));
  }
}
