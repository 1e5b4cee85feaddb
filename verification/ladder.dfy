/**
 The retry ladder: how often a dispatch runs, how long it waits in all, and what the webhook's retry
 count says about it.
 */
module Ladder {
  import opened Vocabulary
  import opened Entities
  import opened Pipeline
  import opened Exclusion

  function TotalDelay(retries: nat): nat {
    if retries == 0 then 0 else TotalDelay(retries - 1) + RetryDelay(retries - 1)
  }

  lemma Powers()
    ensures Power2(9) == 512 && Power2(8) == 256
    ensures forall n: nat :: n >= 9 ==> Power2(n) >= 512
    ensures forall n: nat :: n <= 8 ==> Power2(n) <= 256
  {
    assert Power2(4) == 16;
    assert Power2(8) == 256;
    forall n: nat | n >= 9 ensures Power2(n) >= 512 { PowerGrows(9, n); }
    forall n: nat | n <= 8 ensures Power2(n) <= 256 { PowerGrows(n, 8); }
  }

  lemma {:induction false} PowerGrows(a: nat, b: nat)
    requires a <= b
    ensures Power2(a) <= Power2(b)
  {
    if a < b { PowerGrows(a, b - 1); }
  }

  // Doubling up to the five-minute cap, then five minutes a time.
  lemma {:induction false} TotalDelayClosedForm(n: nat)
    ensures TotalDelay(n) == if n <= 9 then Power2(n) - 1 else 511 + 300 * (n - 9)
  {
    Powers();
    if n > 0 { TotalDelayClosedForm(n - 1); }
  }

  predicate Active(p: Phase) {
    p.Looked? || p.Holding? || p.Gating?
  }

  // The account of one dispatch: six runs at most beyond those a crash undid.
  predicate Accounted(t: Task) {
    && t.retries <= MAX_RETRIES
    && t.delay == TotalDelay(t.retries)
    && t.runs == t.retries + t.crashes + (if t.phase.Waiting? then 0 else 1)
  }

  ghost predicate AllAccounted(s: State) {
    forall t :: 0 <= t < |s.tasks| ==> Accounted(s.tasks[t])
  }

  lemma AccountKept(s: State, step: Step)
    requires AllAccounted(s)
    ensures AllAccounted(Apply(s, step))
  {
    var after := Apply(s, step);
    forall t | 0 <= t < |after.tasks| ensures Accounted(after.tasks[t]) {
      TaskAccountKept(s, step, t);
    }
  }

  lemma TaskAccountKept(s: State, step: Step, t: nat)
    requires t < |Apply(s, step).tasks| && (t < |s.tasks| ==> Accounted(s.tasks[t]))
    ensures Accounted(Apply(s, step).tasks[t])
  {
    if step.FailRetryable? {
      FailureAccount(s, step.task, t);
    } else if t < |s.tasks| {
      BalanceKept(s, step, t);
    } else {
      NewTaskAccounted(s, step, t);
    }
  }

  // Retries and delay only change in a retryable failure; runs go up as a queued task is taken up, and a
  // crash puts it back.
  lemma BalanceKept(s: State, step: Step, t: nat)
    requires !step.FailRetryable? && t < |s.tasks|
    ensures t < |Apply(s, step).tasks|
    ensures var before, after := s.tasks[t], Apply(s, step).tasks[t];
      && after.retries == before.retries && after.delay == before.delay
      && after.runs - after.crashes - (if after.phase.Waiting? then 0 else 1)
         == before.runs - before.crashes - (if before.phase.Waiting? then 0 else 1)
  {
    match step
    case Look(_) =>
    case Claim(_) =>
    case Succeed(_, _) =>
    case Gate(_, _) =>
    case FailPermanently(_) =>
    case Break(_) =>
    case Crash(_) =>
    case _ =>
  }

  lemma NewTaskAccounted(s: State, step: Step, t: nat)
    requires |s.tasks| <= t < |Apply(s, step).tasks|
    ensures Accounted(Apply(s, step).tasks[t])
  {
  }

  lemma FailureAccount(s: State, u: nat, t: nat)
    requires t < |s.tasks| && Accounted(s.tasks[t])
    ensures t < |Apply(s, FailRetryable(u)).tasks| && Accounted(Apply(s, FailRetryable(u)).tasks[t])
  {
    assert TotalDelay(s.tasks[t].retries + 1) == TotalDelay(s.tasks[t].retries) + RetryDelay(s.tasks[t].retries);
  }

  // In every run, whatever interleaves: no dispatch is executed more than six times plus once per crash,
  // nor waits longer than the five delays of a full ladder.
  lemma {:induction false} DispatchesAreBounded(steps: seq<Step>)
    ensures AllAccounted(Run(Init(), steps))
    ensures forall t :: 0 <= t < |Run(Init(), steps).tasks| ==>
      var task := Run(Init(), steps).tasks[t];
      task.runs <= MAX_RETRIES + 1 + task.crashes && task.delay <= 31
  {
    if steps != [] {
      DispatchesAreBounded(steps[..|steps| - 1]);
      AccountKept(Run(Init(), steps[..|steps| - 1]), steps[|steps| - 1]);
    }
    forall n: nat | n <= MAX_RETRIES ensures TotalDelay(n) <= 31 {
      TotalDelayClosedForm(n);
      PowerGrows(n, 5);
      assert Power2(5) == 32;
    }
  }

  // -- the webhook's own count ---------------------------------------------------------------

  // An unfinished task has no more retries behind it than its webhook has recorded, nor than it saw itself.
  predicate CountCovers(s: State, t: nat)
    requires t < |s.tasks|
  {
    var task := s.tasks[t];
    && task.webhook in s.webhooks
    && (!task.phase.Done? ==> task.retries <= s.webhooks[task.webhook].retryCount)
    && (Active(task.phase) ==> task.retries <= task.phase.copy.retryCount)
  }

  // Queued retries never outnumber the recorded count, and a dead letter has seen the whole ladder.
  ghost predicate Counted(s: State) {
    && (forall t :: 0 <= t < |s.tasks| ==> CountCovers(s, t))
    && (forall w :: w in s.webhooks && s.webhooks[w].status == DEAD_LETTER ==> s.webhooks[w].retryCount >= MAX_RETRIES + 1)
  }

  // Task t, failing, would record fewer failures than task u of the same webhook has retries behind it.
  predicate Undercuts(s: State, t: nat, u: nat) {
    && t < |s.tasks| && s.tasks[t].phase.Holding?
    && u < |s.tasks| && u != t && s.tasks[u].webhook == s.tasks[t].webhook && !s.tasks[u].phase.Done?
    && s.tasks[u].retries > s.tasks[t].phase.copy.retryCount + 1
  }

  ghost predicate FallsBehind(s: State, step: Step) {
    step.FailRetryable? && exists u: nat :: Undercuts(s, step.task, u)
  }

  lemma FailureCovered(s: State, t: nat, u: nat)
    requires Tidy(s) && t < |s.tasks| && s.tasks[t].phase.Holding? && u < |s.tasks|
    requires CountCovers(s, t) && CountCovers(s, u)
    ensures u < |Apply(s, FailRetryable(t)).tasks|
    ensures CountCovers(Apply(s, FailRetryable(t)), u) <==> !Undercuts(s, t, u)
  {
  }

  lemma CoverKept(s: State, step: Step, t: nat)
    requires Tidy(s) && !step.FailRetryable? && t < |s.tasks| && CountCovers(s, t)
    ensures t < |Apply(s, step).tasks| && CountCovers(Apply(s, step), t)
  {
    CountStays(s, step, s.tasks[t].webhook);
    CopyAfter(s, step, t);
  }

  lemma CountStays(s: State, step: Step, w: nat)
    requires !step.FailRetryable? && w in s.webhooks
    ensures w in Apply(s, step).webhooks && Apply(s, step).webhooks[w].retryCount == s.webhooks[w].retryCount
  {
  }

  // A copy is taken from the row as a task looks, and kept.
  lemma CopyAfter(s: State, step: Step, t: nat)
    requires Tidy(s) && !step.FailRetryable? && t < |s.tasks|
    ensures t < |Apply(s, step).tasks|
    ensures var before, after := s.tasks[t], Apply(s, step).tasks[t];
      && after.webhook == before.webhook && after.retries == before.retries
      && (before.phase.Done? ==> after.phase.Done?)
      && (Active(after.phase) ==>
            if Active(before.phase) then after.phase.copy == before.phase.copy
            else after.phase.copy == s.webhooks[before.webhook])
  {
    match step
    case Look(_) =>
    case Claim(_) =>
    case Succeed(_, _) =>
    case Gate(_, _) =>
    case FailPermanently(_) =>
    case Break(_) =>
    case Crash(_) =>
    case _ =>
  }

  lemma NewTaskCovered(s: State, step: Step, t: nat)
    requires Tidy(s) && |s.tasks| <= t < |Apply(s, step).tasks|
    ensures CountCovers(Apply(s, step), t)
  {
  }

  // A step that writes no failure of this webhook makes no dead letter of it and leaves its count.
  lemma SameWebhook(s: State, step: Step, w: nat)
    requires w in Apply(s, step).webhooks && Apply(s, step).webhooks[w].status == DEAD_LETTER
    requires step.FailRetryable? && step.task < |s.tasks| ==> s.tasks[step.task].webhook != w
    ensures w in s.webhooks && s.webhooks[w] == Apply(s, step).webhooks[w]
  {
  }

  lemma DeadLetterKept(s: State, step: Step, w: nat)
    requires Counted(s)
    requires w in Apply(s, step).webhooks && Apply(s, step).webhooks[w].status == DEAD_LETTER
    ensures Apply(s, step).webhooks[w].retryCount >= MAX_RETRIES + 1
  {
    if step.FailRetryable? && step.task < |s.tasks| && s.tasks[step.task].webhook == w {
      assert CountCovers(s, step.task);
    } else {
      SameWebhook(s, step, w);
    }
  }

  lemma TaskCovered(s: State, step: Step, t: nat)
    requires Tidy(s) && Counted(s) && !FallsBehind(s, step) && t < |Apply(s, step).tasks|
    ensures CountCovers(Apply(s, step), t)
  {
    if t >= |s.tasks| {
      NewTaskCovered(s, step, t);
    } else if step.FailRetryable? && step.task < |s.tasks| && s.tasks[step.task].phase.Holding? {
      FailureCovered(s, step.task, t);
    } else if !step.FailRetryable? {
      CoverKept(s, step, t);
    } else {
      assert CountCovers(s, t);
    }
  }

  // Every step keeps queued retries within the count and dead letters beyond the ladder, except exactly a
  // failure that undercuts another unfinished dispatch of its webhook.
  lemma CountKeptExactly(s: State, step: Step)
    requires Tidy(s) && Counted(s)
    ensures Counted(Apply(s, step)) <==> !FallsBehind(s, step)
  {
    var after := Apply(s, step);
    if FallsBehind(s, step) {
      var u: nat :| Undercuts(s, step.task, u);
      FailureCovered(s, step.task, u);
    } else {
      forall t | 0 <= t < |after.tasks| ensures CountCovers(after, t) {
        TaskCovered(s, step, t);
      }
      forall w | w in after.webhooks && after.webhooks[w].status == DEAD_LETTER
        ensures after.webhooks[w].retryCount >= MAX_RETRIES + 1
      {
        DeadLetterKept(s, step, w);
      }
    }
  }

  // A webhook with a single unfinished dispatch never falls behind; it takes two at a time.
  lemma AloneNeverFallsBehind(s: State, step: Step)
    requires Tidy(s) && Counted(s)
    requires forall t, u | 0 <= t < |s.tasks| && 0 <= u < |s.tasks| && s.tasks[t].webhook == s.tasks[u].webhook ::
      !s.tasks[t].phase.Done? && !s.tasks[u].phase.Done? ==> t == u
    ensures Counted(Apply(s, step))
  {
    CountKeptExactly(s, step);
  }

  // Over any run without such a failure, the account holds throughout.
  lemma {:induction false} CountOverRuns(steps: seq<Step>)
    requires Avoids(steps, FallsBehind)
    ensures Tidy(Run(Init(), steps)) && Counted(Run(Init(), steps))
  {
    if steps != [] {
      AvoidsPrefix(steps, FallsBehind);
      CountOverRuns(steps[..|steps| - 1]);
      CountKeptExactly(Run(Init(), steps[..|steps| - 1]), steps[|steps| - 1]);
      TidyKept(Run(Init(), steps[..|steps| - 1]), steps[|steps| - 1]);
    }
  }

  // One unforced replay of a webhook that is waiting for its retry is enough to lose counts: the replay's
  // worker looks early, the first dispatch fails twice more, and the stale copy is written over both.
  lemma RetryCountCanFallBehind() returns (s: State)
    ensures Reachable(s) && 0 in s.webhooks && |s.tasks| == 2
    ensures s.tasks[0].phase.Waiting? && s.tasks[0].webhook == 0
    ensures s.tasks[0].retries == 3 && s.webhooks[0].retryCount == 2
  {
    InitReachable();
    s := StepReachable(Init(), Ingest(0));
    s := FailOnce(s, 0, 0);
    s := StepReachable(s, Replay(0, false));
    LookEffect(s, 1);
    s := StepReachable(s, Look(1));
    s := FailOnce(s, 0, 0);
    s := FailOnce(s, 0, 0);
    LateFailure(s, 1, 0);
    s := StepReachable(s, Claim(1));
    s := StepReachable(s, FailRetryable(1));
  }

  // A queued dispatch runs, claims its webhook and fails transiently, undisturbed.
  lemma FailOnce(s: State, t: nat, w: nat) returns (after: State)
    requires Reachable(s) && Ready(s, t, w) && s.tasks[t].retries < MAX_RETRIES
    ensures Reachable(after) && |after.tasks| == |s.tasks|
    ensures after.webhooks == s.webhooks[w := Webhook(FAILED, s.webhooks[w].retryCount + 1)]
    ensures after.tasks[t].phase.Waiting? && after.tasks[t].webhook == w && after.tasks[t].retries == s.tasks[t].retries + 1
    ensures forall u :: 0 <= u < |s.tasks| && u != t ==> after.tasks[u] == s.tasks[u]
  {
    var claimed := Claimed(s, t, w);
    FailureEffect(claimed, t, w);
    after := StepReachable(claimed, FailRetryable(t));
  }

  lemma FailureEffect(s: State, t: nat, w: nat)
    requires t < |s.tasks| && s.tasks[t].phase.Holding? && s.tasks[t].webhook == w && s.tasks[t].retries < MAX_RETRIES
    ensures var after := Apply(s, FailRetryable(t));
      && |after.tasks| == |s.tasks|
      && after.webhooks == s.webhooks[w := Webhook(FAILED, s.tasks[t].phase.copy.retryCount + 1)]
      && after.tasks[t].phase.Waiting? && after.tasks[t].webhook == w && after.tasks[t].retries == s.tasks[t].retries + 1
      && (forall u :: 0 <= u < |s.tasks| && u != t ==> after.tasks[u] == s.tasks[u])
  {
  }

  lemma LookEffect(s: State, t: nat)
    requires t < |s.tasks| && s.tasks[t].phase.Waiting? && s.tasks[t].webhook in s.webhooks
    requires s.webhooks[s.tasks[t].webhook].status != NORMALIZED
    ensures var after := Apply(s, Look(t));
      && |after.tasks| == |s.tasks| && after.webhooks == s.webhooks
      && after.tasks[t] == s.tasks[t].(phase := Looked(s.webhooks[s.tasks[t].webhook]), runs := s.tasks[t].runs + 1)
      && (forall u :: 0 <= u < |s.tasks| && u != t ==> after.tasks[u] == s.tasks[u])
  {
  }

  // A worker that looked before the others failed claims now, and fails in its turn.
  lemma LateFailure(s: State, t: nat, w: nat)
    requires t < |s.tasks| && s.tasks[t].phase.Looked? && s.tasks[t].webhook == w && s.tasks[t].retries < MAX_RETRIES
    requires w in s.webhooks && s.webhooks[w].status == FAILED
    ensures var after := Apply(Apply(s, Claim(t)), FailRetryable(t));
      && |after.tasks| == |s.tasks|
      && after.webhooks == s.webhooks[w := Webhook(FAILED, s.tasks[t].phase.copy.retryCount + 1)]
      && (forall u :: 0 <= u < |s.tasks| && u != t ==> after.tasks[u] == s.tasks[u])
  {
    var claimed := Apply(s, Claim(t));
    assert claimed.tasks == s.tasks[t := s.tasks[t].(phase := Holding(s.tasks[t].phase.copy))];
    FailureEffect(claimed, t, w);
  }
}
