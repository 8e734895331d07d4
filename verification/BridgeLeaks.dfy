/** Runs from the beginning that leave a context open with nobody to close it, one for each of the
    three exits that close nothing. */
module BridgeLeaks {
  import opened Basics
  import opened Messages
  import opened BridgeSystem
  import opened BridgeShape
  import opened BridgeShutdown
  import opened BridgeStray

  /** Everything is over, and the context was never closed. */
  ghost predicate OneIsLeftOpen(s: State) {
    0 in s.sockets && s.sockets[0].owner == Escaped && s.sockets[0].closes == 0 && AllDone(s)
  }

  /** Up to the create of the only request. */
  function SentRun(req: Request, done: Message): seq<Event> {
    [Spawn(0, req)] + [BeginAttempt(0, 0.0, {})] + ([Proceed(0)] + [Connected(0, 0)]) + [CreateSent(0, [done])]
  }

  function Awaiting(req: Request, done: Message): State {
    Single(req, AwaitingFirst(0), [SentCreate(req)], [done], [done], [])
  }

  function Opened(req: Request, done: Message): State {
    Single(req, Primed(0, done), [SentCreate(req), Received(done)], [], [done], [])
  }

  lemma {:induction false} SentRunLeads(cfg: Config, req: Request, done: Message)
    requires FirstUse(cfg, req, done)
    ensures Leads(cfg, Initial, SentRun(req, done), Awaiting(req, done))
  {
    FirstBegins(cfg, req, done);
    FirstConnects(cfg, req, done);
    FirstIsSent(cfg, req, done);
    var s1, s2 := Unconnected(req, Sweeping(None, [])), Single(req, SendingCreate(0), [], [], [], []);
    var a, b := [Spawn(0, req)] + [BeginAttempt(0, 0.0, {})], [Proceed(0)] + [Connected(0, 0)];
    hide Leads, Single, Unconnected, Terminal;
    LeadsOn(cfg, Initial, a, s1, b, s2);
    LeadsOn(cfg, Initial, a + b, s2, [CreateSent(0, [done])], Awaiting(req, done));
  }

  lemma {:induction false} FirstMayEscape(cfg: Config, req: Request, done: Message)
    ensures Enabled(cfg, Awaiting(req, done), FirstEscaped(0))
    ensures OneIsLeftOpen(Next(cfg, Awaiting(req, done), FirstEscaped(0)))
  {
  }

  /** The first `recv` raises something unexpected. */
  lemma {:induction false} FirstEscapeLeaks(cfg: Config, req: Request, done: Message) returns (s: State)
    requires FirstUse(cfg, req, done)
    ensures Leads(cfg, Initial, SentRun(req, done) + [FirstEscaped(0)], s) && OneIsLeftOpen(s)
  {
    hide Next, Enabled, Leads, Awaiting, SentRun, Terminal;
    SentRunLeads(cfg, req, done);
    FirstMayEscape(cfg, req, done);
    s := Next(cfg, Awaiting(req, done), FirstEscaped(0));
    LeadsByOne(cfg, Awaiting(req, done), FirstEscaped(0));
    LeadsOn(cfg, Initial, SentRun(req, done), Awaiting(req, done), [FirstEscaped(0)], s);
  }

  lemma {:induction false} OpenedMayBeDropped(cfg: Config, req: Request, done: Message)
    ensures Enabled(cfg, Opened(req, done), StreamNeverStarted(0))
    ensures OneIsLeftOpen(Next(cfg, Opened(req, done), StreamNeverStarted(0)))
  {
  }

  /** The generator is returned and never started. */
  lemma {:induction false} UnstartedStreamLeaks(cfg: Config, req: Request, done: Message) returns (s: State)
    requires FirstUse(cfg, req, done)
    ensures Leads(cfg, Initial, SentRun(req, done) + [FirstReceived(0)] + [StreamNeverStarted(0)], s) && OneIsLeftOpen(s)
  {
    SentRunLeads(cfg, req, done);
    FirstIsReceived(cfg, req, done);
    hide Next, Enabled, Leads, SentRun, Single, Terminal;
    OpenedMayBeDropped(cfg, req, done);
    s := Next(cfg, Opened(req, done), StreamNeverStarted(0));
    LeadsOn(cfg, Initial, SentRun(req, done), Awaiting(req, done), [FirstReceived(0)], Opened(req, done));
    LeadsByOne(cfg, Opened(req, done), StreamNeverStarted(0));
    LeadsOn(cfg, Initial, SentRun(req, done) + [FirstReceived(0)], Opened(req, done), [StreamNeverStarted(0)], s);
  }

  lemma {:induction false} DrainMayEscape(cfg: Config, req: Request, done: Message, log: seq<WireEvent>)
    ensures var s := Queue(Released(cfg, req, done, log, Draining(0)), 0, [Undecodable]);
      && IsBackground(s, 1) && s.tasks[1].work.Draining? && HasPending(s, 1)
      && OneIsLeftOpen(DrainOne(s, 1))
  {
    hide Key;
  }

  /** The drain of a release meets a binary message that does not decode. */
  lemma {:induction false} UndecodableDrainLeaks(cfg: Config, req: Request, done: Message) returns (s: State)
    requires FirstUse(cfg, req, done)
    ensures Leads(cfg, Initial, FirstRun(cfg, req, done) + [UpstreamSpoke(0, Undecodable)] + [DrainReceived(1)], s) && OneIsLeftOpen(s)
  {
    var s0 := Released(cfg, req, done, FirstLog(cfg, req, done), Draining(0));
    var s1 := Queue(s0, 0, [Undecodable]);
    hide Next, Enabled, Leads, FirstRun, FirstLog, Queue, DrainOne, OneIsLeftOpen, Terminal;
    FirstRunLeads(cfg, req, done);
    StrayArrives(cfg, s0, 0, Undecodable);
    DrainMayEscape(cfg, req, done, FirstLog(cfg, req, done));
    DrainReceivedIs(cfg, s1, 1);
    s := Next(cfg, s1, DrainReceived(1));
    LeadsByOne(cfg, s0, UpstreamSpoke(0, Undecodable));
    LeadsOn(cfg, Initial, FirstRun(cfg, req, done), s0, [UpstreamSpoke(0, Undecodable)], s1);
    LeadsByOne(cfg, s1, DrainReceived(1));
    LeadsOn(cfg, Initial, FirstRun(cfg, req, done) + [UpstreamSpoke(0, Undecodable)], s1, [DrainReceived(1)], s);
  }
}
