/** The two retry loops: HTTP requests until response headers, WebSockets until a first message. */
module Retries {
  import opened Basics

  // ---- What both loops have in common ----

  /** One attempt, seen from the loop: whether it failed in a way that is retried, whether it had a
      client (or context) that the loop answers for, and how long it waited. */
  datatype Try = Try(failed: bool, held: bool, waited: real)

  datatype Action = Opened(n: nat) | Closed(n: nat) | Slept

  /** The first attempt that ends the loop, or one more than the last. */
  function Stop(tries: nat -> Try, from: nat, max: nat): (n: nat)
    requires from <= max + 1
    ensures from <= n <= max + 1 && (forall i :: from <= i < n ==> tries(i).failed) && (n <= max ==> !tries(n).failed)
    decreases max + 1 - from
  {
    if from > max || !tries(from).failed then from else Stop(tries, from + 1, max)
  }

  function Opens(tries: nat -> Try, n: nat): seq<Action> {
    if tries(n).held then [Opened(n)] else []
  }

  function Closes(tries: nat -> Try, n: nat): seq<Action> {
    if tries(n).held then [Closed(n)] else []
  }

  function Pause(max: nat, backoff: real, n: nat): seq<Action> {
    if n < max && backoff != 0.0 then [Slept] else []
  }

  /** The actions of the first `n` attempts, all of them failed. */
  function FailedLog(tries: nat -> Try, max: nat, backoff: real, n: nat): seq<Action> {
    if n == 0 then [] else FailedLog(tries, max, backoff, n - 1) + FailedTry(tries, max, backoff, n)
  }

  function FailedTry(tries: nat -> Try, max: nat, backoff: real, n: nat): seq<Action> {
    Opens(tries, n) + Closes(tries, n) + Pause(max, backoff, n)
  }

  function LoopLog(tries: nat -> Try, max: nat, backoff: real): seq<Action> {
    var n := Stop(tries, 1, max);
    FailedLog(tries, max, backoff, n - 1) + if n <= max then Opens(tries, n) else []
  }

  function Cost(tries: nat -> Try, backoff: real, action: Action): real {
    match action
    case Opened(n) => tries(n).waited
    case Closed(_) => 0.0
    case Slept => backoff
  }

  function Waited(tries: nat -> Try, backoff: real, log: seq<Action>): real {
    if log == [] then 0.0 else Waited(tries, backoff, Front(log)) + Cost(tries, backoff, Last(log))
  }

  lemma {:induction false} WaitedAppend(tries: nat -> Try, backoff: real, a: seq<Action>, b: seq<Action>)
    ensures Waited(tries, backoff, a + b) == Waited(tries, backoff, a) + Waited(tries, backoff, b)
  {
    if b == [] {
      assert a + b == a;
    } else {
      assert Front(a + b) == a + Front(b);
      WaitedAppend(tries, backoff, a, Front(b));
    }
  }

  ghost predicate BoundedWaits(tries: nat -> Try, max: nat, timeout: real) {
    timeout >= 0.0 && forall n :: 1 <= n <= max ==> 0.0 <= tries(n).waited <= timeout
  }

  lemma {:induction false} OneWait(tries: nat -> Try, backoff: real, action: Action)
    ensures Waited(tries, backoff, [action]) == Cost(tries, backoff, action)
  {
    assert Front([action]) == [];
  }

  lemma {:induction false} OneTryWaits(tries: nat -> Try, max: nat, backoff: real, timeout: real, n: nat)
    requires BoundedWaits(tries, max, timeout) && 1 <= n <= max && backoff >= 0.0
    ensures Waited(tries, backoff, Opens(tries, n)) <= timeout
    ensures Waited(tries, backoff, FailedTry(tries, max, backoff, n)) <= timeout + if n < max then backoff else 0.0
  {
    OneWait(tries, backoff, Opened(n));
    OneWait(tries, backoff, Closed(n));
    OneWait(tries, backoff, Slept);
    WaitedAppend(tries, backoff, Opens(tries, n) + Closes(tries, n), Pause(max, backoff, n));
    WaitedAppend(tries, backoff, Opens(tries, n), Closes(tries, n));
  }

  /** What `n` waits and `pauses` pauses may take. */
  function Budget(n: nat, timeout: real, pauses: nat, backoff: real): real {
    n as real * timeout + pauses as real * backoff
  }

  lemma {:induction false} BudgetGrows(n: nat, timeout: real, pauses: nat, backoff: real)
    ensures Budget(n + 1, timeout, pauses, backoff) == Budget(n, timeout, pauses, backoff) + timeout
    ensures Budget(n, timeout, pauses + 1, backoff) == Budget(n, timeout, pauses, backoff) + backoff
  {
  }

  lemma {:induction false} BudgetIsMonotone(n: nat, n': nat, timeout: real, pauses: nat, pauses': nat, backoff: real)
    requires n <= n' && pauses <= pauses' && timeout >= 0.0 && backoff >= 0.0
    ensures Budget(n, timeout, pauses, backoff) <= Budget(n', timeout, pauses', backoff)
    decreases n' - n + pauses' - pauses
  {
    hide Budget;
    if n < n' {
      BudgetGrows(n, timeout, pauses, backoff);
      BudgetIsMonotone(n + 1, n', timeout, pauses, pauses', backoff);
    } else if pauses < pauses' {
      BudgetGrows(n, timeout, pauses, backoff);
      BudgetIsMonotone(n, n', timeout, pauses + 1, pauses', backoff);
    }
  }

  lemma {:induction false} FailedLogWaits(tries: nat -> Try, max: nat, backoff: real, timeout: real, n: nat)
    requires BoundedWaits(tries, max, timeout) && n <= max && backoff >= 0.0
    ensures Waited(tries, backoff, FailedLog(tries, max, backoff, n))
      <= Budget(n, timeout, if n < max || n == 0 then n else n - 1, backoff)
  {
    hide Budget, FailedTry;
    if n > 0 {
      FailedLogWaits(tries, max, backoff, timeout, n - 1);
      OneTryWaits(tries, max, backoff, timeout, n);
      hide Waited;
      WaitedAppend(tries, backoff, FailedLog(tries, max, backoff, n - 1), FailedTry(tries, max, backoff, n));
      BudgetGrows(n - 1, timeout, n - 1, backoff);
      BudgetGrows(n, timeout, n - 1, backoff);
    } else {
      NoBudget(timeout, backoff);
    }
  }

  lemma {:induction false} BudgetIs(n: nat, timeout: real, pauses: nat, backoff: real)
    ensures Budget(n, timeout, pauses, backoff) == n as real * timeout + pauses as real * backoff
  {
  }

  lemma {:induction false} NoBudget(timeout: real, backoff: real)
    ensures Budget(0, timeout, 0, backoff) == 0.0
  {
  }

  lemma {:induction false} LastTryWaits(tries: nat -> Try, max: nat, backoff: real, timeout: real, n: nat)
    requires 1 <= n <= max && BoundedWaits(tries, max, timeout) && backoff >= 0.0
    ensures Waited(tries, backoff, FailedLog(tries, max, backoff, n - 1) + Opens(tries, n)) <= Budget(n, timeout, n - 1, backoff)
  {
    hide *;
    FailedLogWaits(tries, max, backoff, timeout, n - 1);
    OneTryWaits(tries, max, backoff, timeout, n);
    WaitedAppend(tries, backoff, FailedLog(tries, max, backoff, n - 1), Opens(tries, n));
    BudgetGrows(n - 1, timeout, n - 1, backoff);
  }

  lemma {:induction false} LoopWaits(tries: nat -> Try, max: nat, backoff: real, timeout: real)
    requires max >= 1 && BoundedWaits(tries, max, timeout) && backoff >= 0.0
    ensures Waited(tries, backoff, LoopLog(tries, max, backoff)) <= Budget(max, timeout, max - 1, backoff)
  {
    hide Budget, Waited, FailedLog, Opens;
    var n := Stop(tries, 1, max);
    if n <= max {
      LastTryWaits(tries, max, backoff, timeout, n);
      BudgetIsMonotone(n, max, timeout, n - 1, max - 1, backoff);
    } else {
      FailedLogWaits(tries, max, backoff, timeout, max);
      AddNothing(FailedLog(tries, max, backoff, max));
    }
  }

  /** Over all waits and pauses, a loop of N attempts takes at most N * T + (N - 1) * B. */
  lemma {:induction false} TotalWaitIsBounded(tries: nat -> Try, max: nat, backoff: real, timeout: real)
    requires max >= 1 && BoundedWaits(tries, max, timeout) && backoff >= 0.0
    ensures Waited(tries, backoff, LoopLog(tries, max, backoff)) <= max as real * timeout + (max - 1) as real * backoff
  {
    hide *;
    LoopWaits(tries, max, backoff, timeout);
    BudgetIs(max, timeout, max - 1, backoff);
  }

  lemma {:induction false} FailedTryCounts(tries: nat -> Try, max: nat, backoff: real, n: nat, i: nat)
    ensures var part := multiset(FailedTry(tries, max, backoff, n));
      var mine := if n == i && tries(i).held then 1 else 0;
      part[Opened(i)] == mine && part[Closed(i)] == mine
  {
  }

  lemma {:induction false} FailedLogCounts(tries: nat -> Try, max: nat, backoff: real, n: nat, i: nat)
    ensures var log := multiset(FailedLog(tries, max, backoff, n));
      var mine := if 1 <= i <= n && tries(i).held then 1 else 0;
      log[Opened(i)] == mine && log[Closed(i)] == mine
  {
    hide FailedTry;
    if n > 0 {
      FailedLogCounts(tries, max, backoff, n - 1, i);
      FailedTryCounts(tries, max, backoff, n, i);
      Counted(FailedLog(tries, max, backoff, n - 1), FailedTry(tries, max, backoff, n), Opened(i));
      Counted(FailedLog(tries, max, backoff, n - 1), FailedTry(tries, max, backoff, n), Closed(i));
    }
  }

  lemma {:induction false} Counted(a: seq<Action>, b: seq<Action>, x: Action)
    ensures multiset(a + b)[x] == multiset(a)[x] + multiset(b)[x]
  {
  }

  /** Every client of a failed attempt is closed, exactly once; the client of the attempt that ends
      the loop is not closed by it; no attempt is made after that one, nor more than `max`. */
  lemma {:induction false} ClosedExactlyTheFailed(tries: nat -> Try, max: nat, backoff: real, i: nat)
    ensures var log, stop := multiset(LoopLog(tries, max, backoff)), Stop(tries, 1, max);
      && log[Opened(i)] == (if 1 <= i <= max && i <= stop && tries(i).held then 1 else 0)
      && log[Closed(i)] == (if 1 <= i < stop && tries(i).held then 1 else 0)
  {
    hide FailedLog, Stop, Opens;
    var n := Stop(tries, 1, max);
    var failed, last := FailedLog(tries, max, backoff, n - 1), if n <= max then Opens(tries, n) else [];
    FailedLogCounts(tries, max, backoff, n - 1, i);
    OpensCounts(tries, n, i);
    Counted(failed, last, Opened(i));
    Counted(failed, last, Closed(i));
  }

  lemma {:induction false} OpensCounts(tries: nat -> Try, n: nat, i: nat)
    ensures var part := multiset(Opens(tries, n));
      part[Opened(i)] == (if n == i && tries(i).held then 1 else 0) && part[Closed(i)] == 0
  {
  }

  /** How many pauses the loop makes: one after every failed attempt but the last possible one. */
  ghost function Pauses(tries: nat -> Try, max: nat, backoff: real): nat {
    var stop := Stop(tries, 1, max);
    if backoff == 0.0 || max == 0 then 0 else if stop <= max then stop - 1 else max - 1
  }

  lemma {:induction false} FailedLogPauses(tries: nat -> Try, max: nat, backoff: real, n: nat)
    requires n <= max
    ensures multiset(FailedLog(tries, max, backoff, n))[Slept]
      == if backoff == 0.0 || n == 0 then 0 else if n < max then n else n - 1
  {
    hide FailedTry;
    if n > 0 {
      FailedLogPauses(tries, max, backoff, n - 1);
      Counted(FailedLog(tries, max, backoff, n - 1), FailedTry(tries, max, backoff, n), Slept);
      FailedTryPauses(tries, max, backoff, n);
    }
  }

  lemma {:induction false} FailedTryPauses(tries: nat -> Try, max: nat, backoff: real, n: nat)
    ensures multiset(FailedTry(tries, max, backoff, n))[Slept] == if n < max && backoff != 0.0 then 1 else 0
  {
  }

  lemma {:induction false} PausesExactly(tries: nat -> Try, max: nat, backoff: real)
    ensures multiset(LoopLog(tries, max, backoff))[Slept] == Pauses(tries, max, backoff)
  {
    hide FailedLog;
    var n := Stop(tries, 1, max);
    FailedLogPauses(tries, max, backoff, n - 1);
    Counted(FailedLog(tries, max, backoff, n - 1), if n <= max then Opens(tries, n) else [], Slept);
  }

  /** What the first `n` attempts waited. */
  ghost function Elapsed(tries: nat -> Try, n: nat): real {
    if n == 0 then 0.0 else Elapsed(tries, n - 1) + tries(n).waited
  }

  ghost function PausedFor(pauses: nat, backoff: real): real {
    pauses as real * backoff
  }

  lemma {:induction false} PausesAddUp(a: nat, b: nat, backoff: real)
    ensures PausedFor(a + b, backoff) == PausedFor(a, backoff) + PausedFor(b, backoff)
    ensures PausedFor(0, backoff) == 0.0 && PausedFor(1, backoff) == backoff
  {
  }

  lemma {:induction false} FailedTryTakes(tries: nat -> Try, max: nat, backoff: real, n: nat)
    requires tries(n).held
    ensures Waited(tries, backoff, FailedTry(tries, max, backoff, n))
      == tries(n).waited + if n < max && backoff != 0.0 then backoff else 0.0
  {
    OneWait(tries, backoff, Opened(n));
    OneWait(tries, backoff, Closed(n));
    OneWait(tries, backoff, Slept);
    WaitedAppend(tries, backoff, Opens(tries, n) + Closes(tries, n), Pause(max, backoff, n));
    WaitedAppend(tries, backoff, Opens(tries, n), Closes(tries, n));
  }

  lemma {:induction false} FailedLogTakes(tries: nat -> Try, max: nat, backoff: real, n: nat)
    requires forall k :: tries(k).held
    ensures Waited(tries, backoff, FailedLog(tries, max, backoff, n))
      == Elapsed(tries, n) + PausedFor(multiset(FailedLog(tries, max, backoff, n))[Slept], backoff)
  {
    hide FailedTry, Waited, PausedFor;
    if n > 0 {
      var before, last := FailedLog(tries, max, backoff, n - 1), FailedTry(tries, max, backoff, n);
      FailedLogTakes(tries, max, backoff, n - 1);
      WaitedAppend(tries, backoff, before, last);
      FailedTryTakes(tries, max, backoff, n);
      Counted(before, last, Slept);
      FailedTryPauses(tries, max, backoff, n);
      PausesAddUp(multiset(before)[Slept], multiset(last)[Slept], backoff);
    } else {
      NothingWaited(tries, backoff);
      PausesAddUp(0, 0, backoff);
    }
  }

  lemma {:induction false} NothingWaited(tries: nat -> Try, backoff: real)
    ensures Waited(tries, backoff, []) == 0.0
  {
  }

  lemma {:induction false} LoopTakes(tries: nat -> Try, max: nat, backoff: real)
    requires forall k :: tries(k).held
    ensures var stop := Stop(tries, 1, max);
      Waited(tries, backoff, LoopLog(tries, max, backoff))
        == Elapsed(tries, if stop <= max then stop else max) + PausedFor(Pauses(tries, max, backoff), backoff)
  {
    hide Waited, FailedLog, Pauses, Stop, PausedFor;
    var stop := Stop(tries, 1, max);
    var failed, last := FailedLog(tries, max, backoff, stop - 1), if stop <= max then Opens(tries, stop) else [];
    PausesExactly(tries, max, backoff);
    FailedLogTakes(tries, max, backoff, stop - 1);
    WaitedAppend(tries, backoff, failed, last);
    Counted(failed, last, Slept);
    NothingWaited(tries, backoff);
    OneWait(tries, backoff, Opened(stop));
  }

  /** With a client for every attempt, the loop takes as long as the attempts it makes and its pauses. */
  lemma {:induction false} TimeExactly(tries: nat -> Try, max: nat, backoff: real)
    requires forall k :: tries(k).held
    ensures var stop := Stop(tries, 1, max);
      Waited(tries, backoff, LoopLog(tries, max, backoff))
        == Elapsed(tries, if stop <= max then stop else max) + Pauses(tries, max, backoff) as real * backoff
  {
    hide Waited, Pauses, Stop, LoopLog, Elapsed;
    LoopTakes(tries, max, backoff);
  }

  /** With a client for every attempt, the actions in their order: attempt by attempt it is opened, and
      if it fails closed, and then the loop pauses unless that was the last attempt or there is no
      pause to make. */
  lemma {:induction false} FailedLogInOrder(tries: nat -> Try, max: nat, backoff: real, n: nat, i: nat)
    requires (forall k :: tries(k).held) && 1 <= i <= n <= max
    ensures var log, step := FailedLog(tries, max, backoff, n), if backoff != 0.0 then 3 else 2;
      && |log| == (if n < max || backoff == 0.0 then step * n else step * n - 1)
      && log[step * (i - 1)] == Opened(i) && log[step * (i - 1) + 1] == Closed(i)
      && (i < max && backoff != 0.0 ==> log[step * (i - 1) + 2] == Slept)
  {
    if n > 1 {
      FailedLogInOrder(tries, max, backoff, n - 1, if i < n then i else n - 1);
    } else {
      assert FailedLog(tries, max, backoff, 0) == [];
    }
  }

  lemma {:induction false} ActionsInOrder(tries: nat -> Try, max: nat, backoff: real, i: nat)
    requires (forall k :: tries(k).held) && 1 <= i <= max && i <= Stop(tries, 1, max)
    ensures var log, stop, step := LoopLog(tries, max, backoff), Stop(tries, 1, max), if backoff != 0.0 then 3 else 2;
      && |log| == (if stop <= max then step * (stop - 1) + 1 else if backoff == 0.0 then 2 * max else 3 * max - 1)
      && log[step * (i - 1)] == Opened(i)
      && (i < stop ==> log[step * (i - 1) + 1] == Closed(i))
      && (i < stop && i < max && backoff != 0.0 ==> log[step * (i - 1) + 2] == Slept)
  {
    hide FailedLog, Stop;
    var stop := Stop(tries, 1, max);
    NothingLogged(tries, max, backoff);
    if stop > 1 {
      FailedLogInOrder(tries, max, backoff, stop - 1, if i < stop then i else stop - 1);
    }
    if backoff != 0.0 {
    } else {
    }
  }

  lemma {:induction false} NothingLogged(tries: nat -> Try, max: nat, backoff: real)
    ensures FailedLog(tries, max, backoff, 0) == []
  {
  }

  lemma {:induction false} TryLogged(tries: nat -> Try, max: nat, backoff: real, n: nat, before: seq<Action>)
    requires tries(n).held
    ensures before + FailedTry(tries, max, backoff, n) ==
      if n < max && backoff != 0.0 then before + [Opened(n)] + [Closed(n)] + [Slept] else before + [Opened(n)] + [Closed(n)]
  {
  }

  // ---- open_upstream_with_retries ----

  /** How entering the response stream ended; names are those of exception classes. */
  datatype HttpOutcome = Headers(status: nat) | HeaderTimeout | HttpTimeout(name: string) | HttpError(name: string) | HttpUnhandled

  datatype HttpAttempt = HttpAttempt(outcome: HttpOutcome, elapsed: real)

  datatype Failure = Failure(status: nat, code: string, reason: string)

  datatype Result =
    | Success(attempt: nat)
    | Refused(failure: Failure, attempts: nat)
    | Escaped(attempt: nat)                       // an exception that the loop does not handle

  function HttpTry(a: HttpAttempt): Try {
    Try(!a.outcome.Headers? && !a.outcome.HttpUnhandled?, true, a.elapsed)
  }

  function HttpTries(script: nat -> HttpAttempt): nat -> Try {
    (i: nat) => HttpTry(script(i))
  }

  function HttpFailure(o: HttpOutcome): Failure {
    match o
    case HeaderTimeout => Failure(504, "upstream_header_timeout", "")
    case HttpTimeout(name) => Failure(504, "upstream_timeout", name)
    case HttpError(name) => Failure(502, "upstream_request_error", name)
    case _ => Failure(502, "upstream_request_failed", "")
  }

  function HttpResult(script: nat -> HttpAttempt, max: nat): Result {
    var n := Stop(HttpTries(script), 1, max);
    if n <= max then
      if script(n).outcome.Headers? then Success(n) else Escaped(n)
    else Refused(if max == 0 then Failure(502, "upstream_request_failed", "") else HttpFailure(script(max).outcome), max)
  }

  method OpenUpstreamWithRetries(script: nat -> HttpAttempt, max: nat, backoff: real) returns (result: Result, log: seq<Action>)
    ensures result == HttpResult(script, max)
    ensures log == LoopLog(HttpTries(script), max, backoff)
  {
    hide FailedTry;
    ghost var tries := HttpTries(script);
    log := [];
    var lastErrorCode, lastStatusCode, lastReason := "upstream_request_failed", 502, "";
    var attempt := 1;
    while attempt <= max
      invariant 1 <= attempt <= max + 1
      invariant Stop(tries, 1, max) == Stop(tries, attempt, max)
      invariant log == FailedLog(tries, max, backoff, attempt - 1)
      invariant Failure(lastStatusCode, lastErrorCode, lastReason) ==
        if attempt == 1 then Failure(502, "upstream_request_failed", "") else HttpFailure(script(attempt - 1).outcome)
    {
      log := log + [Opened(attempt)];
      match script(attempt).outcome {
        case Headers(_) =>
          return Success(attempt), log;
        case HttpUnhandled =>
          return Escaped(attempt), log;
        case HeaderTimeout =>
          log := log + [Closed(attempt)];
          lastErrorCode, lastStatusCode, lastReason := "upstream_header_timeout", 504, "";
        case HttpTimeout(name) =>
          log := log + [Closed(attempt)];
          lastErrorCode, lastStatusCode, lastReason := "upstream_timeout", 504, name;
        case HttpError(name) =>
          log := log + [Closed(attempt)];
          lastErrorCode, lastStatusCode, lastReason := "upstream_request_error", 502, name;
      }
      if attempt < max && backoff != 0.0 {
        log := log + [Slept];
      }
      TryLogged(tries, max, backoff, attempt, FailedLog(tries, max, backoff, attempt - 1));
      attempt := attempt + 1;
    }
    result := Refused(Failure(lastStatusCode, lastErrorCode, lastReason), max);
  }

  predicate HttpRetried(o: HttpOutcome) {
    o.HeaderTimeout? || o.HttpTimeout? || o.HttpError?
  }

  /** How the last failure is reported. */
  ghost predicate HttpFails(o: HttpOutcome, failure: Failure) {
    match o
    case HeaderTimeout => failure.status == 504 && failure.code == "upstream_header_timeout"
    case HttpTimeout(name) => failure.status == 504 && failure.code == "upstream_timeout" && failure.reason == name
    case HttpError(name) => failure.status == 502 && failure.code == "upstream_request_error" && failure.reason == name
    case _ => false
  }

  /** Success names the first attempt with headers, after failures only; exhaustion names the last
      attempt and how that one failed: 504 for a timeout, 502 for any other error. */
  lemma {:induction false} HttpReportsHonestly(script: nat -> HttpAttempt, max: nat)
    requires max >= 1
    ensures match HttpResult(script, max)
      case Success(n) =>
        && 1 <= n <= max && script(n).outcome.Headers?
        && forall i: nat :: 1 <= i < n ==> HttpRetried(script(i).outcome)
      case Refused(failure, n) =>
        && n == max && HttpFails(script(max).outcome, failure)
        && forall i: nat :: 1 <= i <= max ==> HttpRetried(script(i).outcome)
      case Escaped(n) =>
        && 1 <= n <= max && script(n).outcome.HttpUnhandled?
        && forall i: nat :: 1 <= i < n ==> HttpRetried(script(i).outcome)
  {
    var tries, n := HttpTries(script), Stop(HttpTries(script), 1, max);
    forall i: nat | 1 <= i < n ensures HttpRetried(script(i).outcome) {
      assert tries(i).failed && HttpTry(script(i)).failed;
    }
  }

  lemma {:induction false} IsHttpTry(script: nat -> HttpAttempt, i: nat)
    ensures var t := HttpTries(script)(i);
      t.held && t.waited == script(i).elapsed && (t.failed <==> HttpRetried(script(i).outcome))
  {
    assert HttpTries(script)(i) == HttpTry(script(i));
  }

  /** Every attempt that is made has its own client, which is closed, once, exactly if the attempt fails. */
  lemma {:induction false} HttpClientsAreClosed(script: nat -> HttpAttempt, max: nat, backoff: real, i: nat)
    ensures var log := multiset(LoopLog(HttpTries(script), max, backoff));
      var made := 1 <= i <= max && forall k: nat :: 1 <= k < i ==> HttpRetried(script(k).outcome);
      && log[Opened(i)] == (if made then 1 else 0)
      && log[Closed(i)] == (if made && HttpRetried(script(i).outcome) then 1 else 0)
  {
    hide LoopLog, HttpRetried, HttpTries, Stop;
    ClosedExactlyTheFailed(HttpTries(script), max, backoff, i);
    forall k: nat ensures HttpTries(script)(k).held && (HttpTries(script)(k).failed <==> HttpRetried(script(k).outcome)) {
      IsHttpTry(script, k);
    }
    var stop := Stop(HttpTries(script), 1, max);
    assert stop < i && stop <= max ==> !HttpRetried(script(stop).outcome);
  }

  ghost function HttpElapsed(script: nat -> HttpAttempt, n: nat): real {
    if n == 0 then 0.0 else HttpElapsed(script, n - 1) + script(n).elapsed
  }

  lemma {:induction false} ElapsedOverHttp(script: nat -> HttpAttempt, n: nat)
    ensures Elapsed(HttpTries(script), n) == HttpElapsed(script, n)
  {
    hide HttpTries;
    if n > 0 {
      ElapsedOverHttp(script, n - 1);
      IsHttpTry(script, n);
    }
  }

  /** The loop takes as long as the attempts it makes, failed ones and the one that ends it, and its
      pauses. */
  lemma {:induction false} HttpTimeExactly(script: nat -> HttpAttempt, max: nat, backoff: real)
    ensures var tries := HttpTries(script);
      var stop := Stop(tries, 1, max);
      Waited(tries, backoff, LoopLog(tries, max, backoff))
        == HttpElapsed(script, if stop <= max then stop else max) + Pauses(tries, max, backoff) as real * backoff
  {
    hide Waited, Pauses, Stop, LoopLog, HttpElapsed, HttpTries;
    var tries := HttpTries(script);
    forall k: nat ensures tries(k).held {
      IsHttpTry(script, k);
    }
    TimeExactly(tries, max, backoff);
    var stop := Stop(tries, 1, max);
    ElapsedOverHttp(script, if stop <= max then stop else max);
  }

  // ---- open_websocket_bridge_with_retries ----

  /** How opening and the wait for the first message ended. `OpenFailed` is an error of
      `open_websocket_bridge`, which has then closed its own context. */
  datatype BridgeOutcome =
    | FirstMessage
    | FirstTimeout
    | FirstError(name: string)
    | OpenFailed(status: nat, code: string)
    | BridgeUnhandled

  datatype BridgeAttempt = BridgeAttempt(outcome: BridgeOutcome, elapsed: real)

  function BridgeTry(a: BridgeAttempt): Try {
    var o := a.outcome;
    Try(o.FirstTimeout? || o.FirstError? || (o.OpenFailed? && o.status >= 500), !o.OpenFailed?, a.elapsed)
  }

  function BridgeTries(script: nat -> BridgeAttempt): nat -> Try {
    (i: nat) => BridgeTry(script(i))
  }

  const NoFirstMessage := Failure(504, "websocket_first_message_timeout", "")

  function BridgeFailure(o: BridgeOutcome): Failure {
    match o
    case FirstError(name) => Failure(502, "websocket_first_message_error", name)
    case OpenFailed(status, code) => Failure(status, code, "")
    case _ => NoFirstMessage
  }

  function BridgeResult(script: nat -> BridgeAttempt, max: nat): Result {
    var n := Stop(BridgeTries(script), 1, max);
    if n > max then Refused(if max == 0 then NoFirstMessage else BridgeFailure(script(max).outcome), max)
    else
      match script(n).outcome
      case FirstMessage => Success(n)
      case OpenFailed(_, _) => Refused(BridgeFailure(script(n).outcome), n)
      case _ => Escaped(n)
  }

  lemma {:induction false} BridgeTryLogged(tries: nat -> Try, max: nat, backoff: real, n: nat, before: seq<Action>)
    ensures before + FailedTry(tries, max, backoff, n) ==
      before + (if tries(n).held then [Opened(n)] else []) + (if tries(n).held then [Closed(n)] else [])
             + (if n < max && backoff != 0.0 then [Slept] else [])
  {
  }

  method OpenBridgeWithRetries(script: nat -> BridgeAttempt, max: nat, backoff: real) returns (result: Result, log: seq<Action>)
    ensures result == BridgeResult(script, max)
    ensures log == LoopLog(BridgeTries(script), max, backoff)
  {
    hide FailedTry;
    ghost var tries := BridgeTries(script);
    log := [];
    var last := NoFirstMessage;
    var attempt := 1;
    while attempt <= max
      invariant 1 <= attempt <= max + 1
      invariant Stop(tries, 1, max) == Stop(tries, attempt, max)
      invariant log == FailedLog(tries, max, backoff, attempt - 1)
      invariant last == if attempt == 1 then NoFirstMessage else BridgeFailure(script(attempt - 1).outcome)
    {
      BridgeTryLogged(tries, max, backoff, attempt, log);
      ghost var before := log;
      match script(attempt).outcome {
        case FirstMessage =>
          return Success(attempt), log + [Opened(attempt)];
        case BridgeUnhandled =>
          return Escaped(attempt), log + [Opened(attempt)];
        case FirstTimeout =>
          last := NoFirstMessage;
          log := log + [Opened(attempt)];
          log := log + [Closed(attempt)];
        case FirstError(name) =>
          last := Failure(502, "websocket_first_message_error", name);
          log := log + [Opened(attempt)];
          log := log + [Closed(attempt)];
        case OpenFailed(status, code) =>
          if status < 500 {
            AddNothing(log);
            return Refused(Failure(status, code, ""), attempt), log;
          }
          last := Failure(status, code, "");
      }
      if attempt < max && backoff != 0.0 {
        log := log + [Slept];
      }
      assert log == before + FailedTry(tries, max, backoff, attempt);
      attempt := attempt + 1;
    }
    result := Refused(last, max);
  }

  predicate BridgeRetried(o: BridgeOutcome) {
    o.FirstTimeout? || o.FirstError? || (o.OpenFailed? && o.status >= 500)
  }

  /** How the last failure is reported. */
  ghost predicate BridgeFails(o: BridgeOutcome, failure: Failure) {
    match o
    case FirstTimeout => failure.status == 504 && failure.code == "websocket_first_message_timeout"
    case FirstError(name) => failure.status == 502 && failure.code == "websocket_first_message_error" && failure.reason == name
    case OpenFailed(status, code) => status >= 500 && failure.status == status && failure.code == code
    case _ => false
  }

  /** A refusal below 500 ends the loop at once and is passed on; success names the attempt that ended the
      loop, after failures only; exhaustion names the last attempt and how that one failed. */
  lemma {:induction false} BridgeReportsHonestly(script: nat -> BridgeAttempt, max: nat)
    requires max >= 1
    ensures match BridgeResult(script, max)
      case Success(n) =>
        && 1 <= n <= max && script(n).outcome.FirstMessage?
        && forall i: nat :: 1 <= i < n ==> BridgeRetried(script(i).outcome)
      case Refused(failure, n) =>
        && 1 <= n <= max
        && (forall i: nat :: 1 <= i < n ==> BridgeRetried(script(i).outcome))
        && if failure.status >= 500 then n == max && BridgeFails(script(n).outcome, failure)
           else script(n).outcome.OpenFailed? && failure.status == script(n).outcome.status && failure.code == script(n).outcome.code
      case Escaped(n) =>
        && 1 <= n <= max && script(n).outcome.BridgeUnhandled?
        && forall i: nat :: 1 <= i < n ==> BridgeRetried(script(i).outcome)
  {
    var tries, n := BridgeTries(script), Stop(BridgeTries(script), 1, max);
    forall i: nat | 1 <= i < n ensures BridgeRetried(script(i).outcome) {
      assert tries(i).failed && BridgeTry(script(i)).failed;
    }
  }

  lemma {:induction false} IsBridgeTry(script: nat -> BridgeAttempt, i: nat)
    ensures var t, o := BridgeTries(script)(i), script(i).outcome;
      (t.held <==> !o.OpenFailed?) && (t.failed <==> BridgeRetried(o))
  {
  }

  /** Every attempt whose opening succeeds has its own context, which is closed, once, exactly if no first
      message comes in time or waiting for it fails. */
  lemma {:induction false} BridgeContextsAreClosed(script: nat -> BridgeAttempt, max: nat, backoff: real, i: nat)
    ensures var log := multiset(LoopLog(BridgeTries(script), max, backoff));
      var made := 1 <= i <= max && forall k: nat :: 1 <= k < i ==> BridgeRetried(script(k).outcome);
      && log[Opened(i)] == (if made && !script(i).outcome.OpenFailed? then 1 else 0)
      && log[Closed(i)] == (if made && (script(i).outcome.FirstTimeout? || script(i).outcome.FirstError?) then 1 else 0)
  {
    hide LoopLog, BridgeTries, Stop;
    ClosedExactlyTheFailed(BridgeTries(script), max, backoff, i);
    forall k: nat ensures BridgeTries(script)(k).failed <==> BridgeRetried(script(k).outcome) {
      IsBridgeTry(script, k);
    }
    IsBridgeTry(script, i);
    hide BridgeRetried;
    var stop := Stop(BridgeTries(script), 1, max);
    assert stop < i && stop <= max ==> !BridgeRetried(script(stop).outcome);
    assert script(i).outcome.FirstTimeout? || script(i).outcome.FirstError? <==>
      BridgeRetried(script(i).outcome) && !script(i).outcome.OpenFailed? by { BridgeRetriedIs(script(i).outcome); }
  }

  lemma {:induction false} BridgeRetriedIs(o: BridgeOutcome)
    ensures o.FirstTimeout? || o.FirstError? <==> BridgeRetried(o) && !o.OpenFailed?
  {
  }
}
