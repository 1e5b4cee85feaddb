/**
 At most one worker is between its claim and its outcome for a webhook, and the row says so.
 */
module Exclusion {
  import opened Vocabulary
  import opened Entities
  import opened Pipeline

  // The task is between its claim and its recorded outcome.
  predicate Holds(s: State, t: nat, w: nat) {
    t < |s.tasks| && s.tasks[t].phase.Holding? && s.tasks[t].webhook == w
  }

  ghost predicate Held(s: State, w: nat) {
    exists t: nat :: Holds(s, t, w)
  }

  ghost predicate Tidy(s: State) {
    && (forall t :: 0 <= t < |s.tasks| ==> s.tasks[t].webhook in s.webhooks)
    && (forall w :: w in s.events ==> w in s.webhooks)
  }

  ghost predicate Exclusive(s: State) {
    && Tidy(s)
    && (forall t, u, w :: Holds(s, t, w) && Holds(s, u, w) ==> t == u)
    && (forall t, w :: Holds(s, t, w) ==> w in s.webhooks && s.webhooks[w].status == PROCESSING)
  }

  // A forced replay of the webhook, or an unexpected failure of a task of it that is not its holder.
  predicate DisturbsAt(s: State, step: Step, w: nat) {
    match step
    case Replay(v, force) => force && v == w
    case Break(t) =>
      && t < |s.tasks| && s.tasks[t].webhook == w
      && (s.tasks[t].phase.Looked? || s.tasks[t].phase.Gating?)
    case _ => false
  }

  ghost predicate Disturbs(s: State, step: Step) {
    exists t: nat, w: nat :: Holds(s, t, w) && DisturbsAt(s, step, w)
  }

  lemma TidyKept(s: State, step: Step)
    requires Tidy(s)
    ensures Tidy(Apply(s, step))
  {
  }

  // A holder after the step was a holder before it, or has just claimed.
  lemma HoldersAfter(s: State, step: Step, t: nat, w: nat)
    requires Tidy(s) && Holds(Apply(s, step), t, w)
    ensures Holds(s, t, w) ||
      (step == Claim(t) && t < |s.tasks| && s.tasks[t].webhook == w && s.webhooks[w].status != PROCESSING)
    ensures step == Claim(t) && !Holds(s, t, w) ==> Apply(s, step).webhooks[w].status == PROCESSING
  {
  }

  // Only a disturbing step changes the status of a webhook under its holder's hands.
  lemma StatusAfter(s: State, step: Step, t: nat, w: nat)
    requires Exclusive(s) && Holds(s, t, w)
    ensures DisturbsAt(s, step, w) ==> Holds(Apply(s, step), t, w)
    ensures w in Apply(s, step).webhooks
    ensures Holds(Apply(s, step), t, w) ==>
      (Apply(s, step).webhooks[w].status == PROCESSING <==> !DisturbsAt(s, step, w))
  {
    match step
    case Succeed(u, _) => OtherHolder(s, t, w, u);
    case FailRetryable(u) => OtherHolder(s, t, w, u);
    case FailPermanently(u) => OtherHolder(s, t, w, u);
    case Break(u) => OtherHolder(s, t, w, u);
    case _ =>
  }

  lemma OtherHolder(s: State, t: nat, w: nat, u: nat)
    requires Exclusive(s) && Holds(s, t, w)
    ensures u < |s.tasks| && s.tasks[u].phase.Holding? ==> u == t || s.tasks[u].webhook != w
  {
    if u < |s.tasks| && s.tasks[u].phase.Holding? && s.tasks[u].webhook == w {
      assert Holds(s, u, w);
    }
  }

  // Every step keeps exclusion except exactly the disturbing ones.
  lemma ExclusionKeptExactly(s: State, step: Step)
    requires Exclusive(s)
    ensures Exclusive(Apply(s, step)) <==> !Disturbs(s, step)
  {
    TidyKept(s, step);
    var after := Apply(s, step);
    if Disturbs(s, step) {
      var t: nat, w: nat :| Holds(s, t, w) && DisturbsAt(s, step, w);
      StatusAfter(s, step, t, w);
    } else {
      forall t, u, w | Holds(after, t, w) && Holds(after, u, w) ensures t == u {
        HoldersAfter(s, step, t, w);
        HoldersAfter(s, step, u, w);
      }
      forall t, w | Holds(after, t, w) ensures w in after.webhooks && after.webhooks[w].status == PROCESSING {
        HoldersAfter(s, step, t, w);
        if Holds(s, t, w) {
          StatusAfter(s, step, t, w);
        }
      }
    }
  }

  // Over any run without a disturbing step, exclusion holds throughout.
  lemma {:induction false} ExclusionOverRuns(steps: seq<Step>)
    requires Avoids(steps, Disturbs)
    ensures Exclusive(Run(Init(), steps))
  {
    if steps != [] {
      AvoidsPrefix(steps, Disturbs);
      ExclusionOverRuns(steps[..|steps| - 1]);
      ExclusionKeptExactly(Run(Init(), steps[..|steps| - 1]), steps[|steps| - 1]);
    }
  }

  // A forced replay of a webhook in hand: its dispatch is claimed beside the first.
  lemma TwoWorkersAfterAForcedReplay() returns (s: State)
    ensures Reachable(s) && Holds(s, 0, 0) && Holds(s, 1, 0)
  {
    InitReachable();
    s := StepReachable(Init(), Ingest(0));
    s := Claimed(s, 0, 0);
    s := StepReachable(s, Replay(0, true));
    s := Claimed(s, 1, 0);
  }

  // Without any force: a waiting retry and a replay; one worker looks, the other claims, the first fails
  // unexpectedly and writes FAILED, and the next replay finds nothing in its way.
  lemma TwoWorkersAfterAForeignFailure() returns (s: State)
    ensures Reachable(s) && Holds(s, 0, 0) && Holds(s, 2, 0)
  {
    s := ARetryAndAReplay();
    s := StepReachable(s, Look(1));
    s := Claimed(s, 0, 0);
    s := StepReachable(s, Break(1));
    s := StepReachable(s, Replay(0, false));
    s := Claimed(s, 2, 0);
  }

  lemma ARetryAndAReplay() returns (s: State)
    ensures Reachable(s) && |s.tasks| == 2 && Ready(s, 0, 0) && Ready(s, 1, 0)
  {
    InitReachable();
    s := StepReachable(Init(), Ingest(0));
    s := Claimed(s, 0, 0);
    s := StepReachable(s, FailRetryable(0));
    s := StepReachable(s, Replay(0, false));
  }

  // -- a webhook stuck by a crash -------------------------------------------------------------

  // PROCESSING with nobody on it.
  ghost predicate Stuck(s: State, w: nat) {
    w in s.webhooks && s.webhooks[w].status == PROCESSING && !Held(s, w)
  }

  // A stuck webhook is released by exactly a forced replay, or an unexpected failure of a task that had
  // already looked at it or is still at its gate; redelivered messages find PROCESSING and give up.
  lemma StuckUntilReleased(s: State, step: Step, w: nat)
    requires Tidy(s) && Stuck(s, w)
    ensures Stuck(Apply(s, step), w) <==> !DisturbsAt(s, step, w)
  {
    NobodyTakesIt(s, step, w);
    StatusOfStuck(s, step, w);
  }

  lemma NobodyTakesIt(s: State, step: Step, w: nat)
    requires Tidy(s) && Stuck(s, w)
    ensures !Held(Apply(s, step), w)
  {
    forall t: nat ensures !Holds(Apply(s, step), t, w) {
      if Holds(Apply(s, step), t, w) {
        HoldersAfter(s, step, t, w);
      }
    }
  }

  lemma StatusOfStuck(s: State, step: Step, w: nat)
    requires Tidy(s) && Stuck(s, w)
    ensures w in Apply(s, step).webhooks
    ensures Apply(s, step).webhooks[w].status == PROCESSING <==> !DisturbsAt(s, step, w)
  {
    assert forall t :: 0 <= t < |s.tasks| && s.tasks[t].webhook == w ==> !Holds(s, t, w);
  }

  // Every outcome a worker records takes its webhook out of PROCESSING, so that a person can replay it
  // without force whatever else is going on.
  lemma EveryOutcomeCanBeReplayed(s: State, step: Step, t: nat, w: nat)
    requires Tidy(s) && Holds(s, t, w)
    requires step in {FailRetryable(t), FailPermanently(t), Break(t)} || (step.Succeed? && step.task == t)
    ensures var after := Apply(s, step);
      && w in after.webhooks && t < |after.tasks| && !Holds(after, t, w)
      && after.webhooks[w].status ==
         (if step.Succeed? then NORMALIZED
          else if step.FailRetryable? && s.tasks[t].retries >= 5 then DEAD_LETTER else FAILED)
      && (after.tasks[t].phase.Waiting? <==> step.FailRetryable? && s.tasks[t].retries < 5)
      && QueuesAFreshTask(after, Apply(after, Replay(w, false)), w)
  {
  }

  predicate QueuesAFreshTask(s: State, after: State, w: nat) {
    && |after.tasks| == |s.tasks| + 1 && after.tasks[..|s.tasks|] == s.tasks
    && after.tasks[|s.tasks|].webhook == w && after.tasks[|s.tasks|].phase == Waiting
    && w in after.webhooks && after.webhooks[w].status == RECEIVED
  }

  // The worker that is lost is the only one on the webhook, and the row says PROCESSING.
  ghost predicate LosesHolder(s: State, step: Step, w: nat) {
    && step.Crash? && Holds(s, step.task, w) && (forall u: nat :: Holds(s, u, w) ==> u == step.task)
    && w in s.webhooks && s.webhooks[w].status == PROCESSING
  }

  // Losing the last worker between its claim and its outcome is the only way to get stuck; no outcome does it.
  lemma GetsStuckExactly(s: State, step: Step, w: nat)
    requires Tidy(s)
    ensures Stuck(Apply(s, step), w) && !Stuck(s, w) <==> LosesHolder(s, step, w)
  {
    if LosesHolder(s, step, w) {
      CrashEmptiesIt(s, step.task, w);
    } else if Stuck(Apply(s, step), w) && !Stuck(s, w) {
      OnlyCrashesStick(s, step, w);
    }
  }

  lemma CrashEmptiesIt(s: State, t: nat, w: nat)
    requires Tidy(s) && LosesHolder(s, Crash(t), w)
    ensures Stuck(Apply(s, Crash(t)), w) && !Stuck(s, w)
  {
    forall u: nat ensures !Holds(Apply(s, Crash(t)), u, w) {
      if Holds(Apply(s, Crash(t)), u, w) {
        HoldersAfter(s, Crash(t), u, w);
      }
    }
  }

  lemma OnlyCrashesStick(s: State, step: Step, w: nat)
    requires Tidy(s) && Stuck(Apply(s, step), w) && !Stuck(s, w)
    ensures LosesHolder(s, step, w)
  {
    var after := Apply(s, step);
    HeldUntilNow(s, step, w);
    var t: nat :| Holds(s, t, w);
    assert !Holds(after, t, w);
    LeavesHolding(s, step, t, w);
    forall u: nat | Holds(s, u, w) ensures u == step.task {
      assert !Holds(after, u, w);
      LeavesHolding(s, step, u, w);
    }
  }

  // No step but a claim turns a row to PROCESSING, and a claim is a holder.
  lemma HeldUntilNow(s: State, step: Step, w: nat)
    requires Tidy(s) && Stuck(Apply(s, step), w) && !Stuck(s, w)
    ensures w in s.webhooks && s.webhooks[w].status == PROCESSING && Held(s, w)
  {
    if step.Claim? {
      assert !Holds(Apply(s, step), step.task, w);
    }
  }

  // A holder leaves with an outcome, which the row shows, or is lost.
  lemma LeavesHolding(s: State, step: Step, t: nat, w: nat)
    requires Tidy(s) && Holds(s, t, w) && !Holds(Apply(s, step), t, w)
    requires w in Apply(s, step).webhooks && Apply(s, step).webhooks[w].status == PROCESSING
    ensures step == Crash(t)
  {
  }

  // With one worker at most on each webhook: exactly a crash of the one that has it.
  lemma GetsStuckByItsHolder(s: State, step: Step, w: nat)
    requires Exclusive(s)
    ensures Stuck(Apply(s, step), w) && !Stuck(s, w) <==> step.Crash? && Holds(s, step.task, w)
  {
    GetsStuckExactly(s, step, w);
  }

  // What the i-th step of a run does to the webhook, in the state it is taken in.
  ghost predicate LosesAt(steps: seq<Step>, i: nat, w: nat)
    requires i < |steps|
  {
    LosesHolder(Run(Init(), steps[..i]), steps[i], w)
  }

  predicate FreesAt(steps: seq<Step>, i: nat, w: nat)
    requires i < |steps|
  {
    DisturbsAt(Run(Init(), steps[..i]), steps[i], w)
  }

  ghost predicate LostAndNotFreed(steps: seq<Step>, i: nat, w: nat)
    requires i < |steps|
  {
    LosesAt(steps, i, w) && forall j: nat :: i < j < |steps| ==> !FreesAt(steps, j, w)
  }

  // Of any run at all: a webhook is stuck at its end exactly when its last worker was lost at some point
  // and nothing has released it since.
  lemma {:induction false} StuckAfterRunExactly(steps: seq<Step>, w: nat)
    ensures Tidy(Run(Init(), steps))
    ensures Stuck(Run(Init(), steps), w) <==> exists i: nat :: i < |steps| && LostAndNotFreed(steps, i, w)
  {
    if steps != [] {
      var n := |steps| - 1;
      var s := Run(Init(), steps[..n]);
      StuckAfterRunExactly(steps[..n], w);
      TidyKept(s, steps[n]);
      GetsStuckExactly(s, steps[n], w);
      if Stuck(s, w) {
        StuckUntilReleased(s, steps[n], w);
      }
      LostSnoc(steps, w);
    }
  }

  lemma LostSnoc(steps: seq<Step>, w: nat)
    requires steps != []
    ensures var n := |steps| - 1;
      (exists i: nat :: i < |steps| && LostAndNotFreed(steps, i, w)) <==>
      LosesAt(steps, n, w) || (!FreesAt(steps, n, w) && exists i: nat :: i < n && LostAndNotFreed(steps[..n], i, w))
  {
    var n := |steps| - 1;
    forall i: nat | i < n
      ensures LostAndNotFreed(steps, i, w) <==> LostAndNotFreed(steps[..n], i, w) && !FreesAt(steps, n, w)
    {
      LostBefore(steps, i, w);
    }
    assert LostAndNotFreed(steps, n, w) <==> LosesAt(steps, n, w);
  }

  lemma SameBefore(steps: seq<Step>, n: nat, i: nat, w: nat)
    requires i < n <= |steps|
    ensures LosesAt(steps[..n], i, w) <==> LosesAt(steps, i, w)
    ensures FreesAt(steps[..n], i, w) <==> FreesAt(steps, i, w)
  {
    assert steps[..n][..i] == steps[..i];
  }

  lemma LostBefore(steps: seq<Step>, i: nat, w: nat)
    requires i < |steps| - 1
    ensures var n := |steps| - 1;
      LostAndNotFreed(steps, i, w) <==> LostAndNotFreed(steps[..n], i, w) && !FreesAt(steps, n, w)
  {
    var n := |steps| - 1;
    forall j: nat | j < n
      ensures LosesAt(steps[..n], j, w) <==> LosesAt(steps, j, w)
      ensures FreesAt(steps[..n], j, w) <==> FreesAt(steps, j, w)
    {
      SameBefore(steps, n, j, w);
    }
  }

  // A crash leaves the webhook stuck, and the failure of another task, which had looked before, frees it.
  lemma AForeignFailureFreesAStuckWebhook() returns (s: State, after: State)
    ensures Reachable(s) && Stuck(s, 0) && Reachable(after) && after == Apply(s, Break(1)) && !Stuck(after, 0)
  {
    s := ARetryAndAReplay();
    s := StepReachable(s, Look(1));
    s := Claimed(s, 0, 0);
    s := StepReachable(s, Crash(0));
    assert forall t: nat :: !Holds(s, t, 0);
    after := StepReachable(s, Break(1));
  }

  // Redelivery alone never helps: without a releasing step it stays stuck for ever.
  lemma {:induction false} StuckForever(s: State, steps: seq<Step>, w: nat)
    requires Tidy(s) && Stuck(s, w)
    requires forall i :: 0 <= i < |steps| ==> !DisturbsAt(Run(s, steps[..i]), steps[i], w)
    ensures Tidy(Run(s, steps)) && Stuck(Run(s, steps), w)
  {
    if steps != [] {
      var n := |steps| - 1;
      forall i | 0 <= i < n ensures !DisturbsAt(Run(s, steps[..n][..i]), steps[..n][i], w) {
        assert steps[..n][..i] == steps[..i] && steps[..n][i] == steps[i];
      }
      StuckForever(s, steps[..n], w);
      StuckUntilReleased(Run(s, steps[..n]), steps[n], w);
      TidyKept(Run(s, steps[..n]), steps[n]);
    }
  }
}
