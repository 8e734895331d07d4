/** The retry loop of the step system is the retry loop as it is written. */
module BridgeRetries {
  import opened BridgeSystem
  import opened BridgeInvariants
  import opened BridgeRuns
  import opened BridgeWire
  import opened Retries

  /** Outcomes of attempts that tell of the same failures as the request's history. */
  ghost predicate TellsOf(script: nat -> BridgeAttempt, failures: seq<nat>) {
    forall n: nat :: 1 <= n <= |failures| ==>
      BridgeTry(script(n)).failed && BridgeFailure(script(n).outcome).status == failures[n - 1]
  }

  predicate HasFirstMessage(phase: Phase) {
    || phase.Primed? || phase.Receiving? || phase.Yielding? || phase.Ending? || phase == Done(Completed) || phase == Done(Cut)
  }

  /** What came after the failures, if the loop got any further. */
  ghost predicate TellsOfEnd(script: nat -> BridgeAttempt, task: Task)
    requires task.RequestTask?
  {
    && (HasFirstMessage(task.phase) ==> script(task.attempt).outcome.FirstMessage?)
    && (task.phase.Done? && task.phase.outcome.Raised? && task.phase.outcome.status == 400 ==>
          script(1).outcome.OpenFailed? && script(1).outcome.status == 400)
  }

  lemma {:induction false} StopsAfter(script: nat -> BridgeAttempt, from: nat, n: nat, max: nat)
    requires from <= n <= max + 1 && (forall i: nat :: from <= i < n ==> BridgeTry(script(i)).failed)
    requires n <= max ==> !BridgeTry(script(n)).failed
    ensures Stop(BridgeTries(script), from, max) == n
    decreases n - from
  {
    if from < n {
      StopsAfter(script, from + 1, n, max);
    }
  }

  /** For every reachable request and every list of outcomes that tells of what it went through, the
      loop as written returns what the request reports: the attempt of its first message, or the
      status and the attempt of its error. */
  lemma {:induction false} RetryLoopsAgree(cfg: Config, s: State, t: TaskId, script: nat -> BridgeAttempt)
    requires cfg.maxAttempts >= 1 && Reachable(cfg, s) && IsRequest(s, t)
    requires TellsOf(script, s.tasks[t].failures) && TellsOfEnd(script, s.tasks[t])
    ensures var phase, result := s.tasks[t].phase, BridgeResult(script, cfg.maxAttempts);
      && (HasFirstMessage(phase) ==> result == Success(s.tasks[t].attempt))
      && (phase.Done? && phase.outcome.Raised? ==>
            result.Refused? && result.failure.status == phase.outcome.status && result.attempts == phase.outcome.attempts)
  {
    var task := s.tasks[t];
    AttemptsAreHonest(cfg, s, t);
    hide Inv, Reachable, Stop;
    if HasFirstMessage(task.phase) {
      StopsAfter(script, 1, task.attempt, cfg.maxAttempts);
    } else if task.phase.Done? && task.phase.outcome.Raised? {
      if task.phase.outcome.status == 400 {
        StopsAfter(script, 1, 1, cfg.maxAttempts);
      } else {
        StopsAfter(script, 1, cfg.maxAttempts + 1, cfg.maxAttempts);
      }
    }
  }
}
