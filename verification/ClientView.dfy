/** The bridge and the byte pipeline joined: what the client of a request reads off the wire. */
module ClientView {
  import opened Basics
  import opened PyBytes
  import opened PyInt
  import opened HttpMessages
  import opened HttpResponses
  import opened Pipeline
  import opened BridgeSystem
  import opened BridgeInvariants
  import opened BridgeRuns
  import opened BridgeTransparency

  /** All of an answer that can be decoded is shown, and it ends its stream properly. */
  lemma {:induction false} WholeAnswerIsShown(answer: seq<Message>)
    requires ValidAnswer(answer) && forall i :: 0 <= i < |answer| ==> answer[i].Text?
    ensures ShownOf(answer) == answer && EndsProperly(answer)
  {
    hide Messages.Terminal;
    var rest := answer[1..];
    assert answer == [answer[0]] + rest;
    if rest == [] {
      assert Last(answer) == answer[0];
    } else {
      assert Last(rest) == Last(answer) && Front(rest) == Front(answer)[1..];
      assert answer[0] == Front(answer)[0];
      WholeAnswerIsShown(rest);
    }
  }

  /** The task's client was given its whole answer, all of it texts. */
  lemma {:induction false} CompletedHasItsAnswer(cfg: Config, events: seq<Event>, t: TaskId)
    requires cfg.maxAttempts >= 1 && IsRun(cfg, Initial, events) && AllInTurn(cfg, Initial, events)
    requires IsRequest(EndOf(cfg, Initial, events), t) && EndOf(cfg, Initial, events).tasks[t].phase == Done(Completed)
    ensures var task := EndOf(cfg, Initial, events).tasks[t];
      task.shown == task.answer && ValidAnswer(task.answer) && forall i :: 0 <= i < |task.answer| ==> task.answer[i].Text?
  {
    hide Next, Enabled;
    PoolTransparency(cfg, events, t);
    assert Inv(cfg, Initial);
    RunKeepsInvariant(cfg, Initial, events);
    assert TaskOk(cfg, EndOf(cfg, Initial, events), t);
  }

  /** From one end to the other: in every run with a pool in which the upstream is quiet between
      exchanges, what is written for a request whose stream returned is read by its client as the
      events of the upstream's answer to its own body, all of them, in order, if and only if their
      types are non-empty single lines. */
  lemma {:induction false} ClientReadsItsAnswer(
    cfg: Config, events: seq<Event>, t: TaskId, response: Response, suffix: Bytes, limit: nat)
    requires cfg.maxAttempts >= 1 && IsRun(cfg, Initial, events) && AllInTurn(cfg, Initial, events)
    requires IsRequest(EndOf(cfg, Initial, events), t) && EndOf(cfg, Initial, events).tasks[t].phase == Done(Completed)
    requires Without(response.phrase, CRLF) && WellFormedHeaders(response.headers)
    requires |Concat(ChunksOf(ShownOf(EndOf(cfg, Initial, events).tasks[t].shown)))| <= limit
    ensures var task := EndOf(cfg, Initial, events).tasks[t];
      var r := ReadResponse(Written(response, task.shown) + suffix, limit);
      && (forall i :: 0 <= i < |task.answer| ==> task.answer[i].Text?)
      && r.Ok? && r.value.Some? && r.value.value.body.rest == suffix
      && (ClientEvents(r.value.value.body.bytes) == Some(EventsOf(task.answer)) <==> PlainTypes(task.answer))
  {
    var task := EndOf(cfg, Initial, events).tasks[t];
    CompletedHasItsAnswer(cfg, events, t);
    hide Next, Enabled, IsRun, EndOf, AllInTurn, ReadResponse, Written, ClientEvents, PlainTypes, EventsOf, ChunksOf;
    WholeAnswerIsShown(task.answer);
    EndToEnd(response, task.shown, suffix, limit);
  }
}
