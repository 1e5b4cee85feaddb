/**
 The pipeline over its shared tables, as atomic steps that workers, reviewers and operators interleave.

 A task is one dispatch of the worker function: it waits in a queue, looks at its webhook without a
 lock, claims it under the row lock, records an outcome, and finally runs the confidence gate. A crash
 returns its message to the queue. Step arguments carry whatever the outside world decides.
 */
module Pipeline {
  import opened Vocabulary
  import opened Entities

  const MAX_RETRIES := 5

  datatype ProcessingStatus = RECEIVED | PROCESSING | NORMALIZED | FAILED | DEAD_LETTER

  datatype Webhook = Webhook(status: ProcessingStatus, retryCount: nat)

  datatype Reading = Reading(key: EntityKey, status: Status, time: int, confidence: int)

  datatype Decision = APPROVE | REJECT

  /** One row per webhook, rewritten by every normalisation; `generation` numbers the normalisations. */
  datatype Event = Event(
    reading: Reading, generation: nat, requiresReview: bool, reviewedAt: Option<int>, decision: Option<Decision>)

  // `copy` is the webhook as the task saw it before taking any lock.
  datatype Phase =
    | Waiting
    | Looked(copy: Webhook)
    | Holding(copy: Webhook)
    | Gating(copy: Webhook, event: Event)
    | Done

  datatype Task = Task(webhook: nat, retries: nat, phase: Phase, runs: nat, crashes: nat, delay: nat)

  datatype State = State(
    webhooks: map<nat, Webhook>,
    events: map<nat, Event>,
    entities: Rows,
    tasks: seq<Task>,
    log: seq<Promotion>,
    generations: nat,
    rejected: set<nat>)

  datatype Step =
    | Ingest(webhook: nat)
    | Look(task: nat)
    | Claim(task: nat)
    | Succeed(task: nat, reading: Reading)
    | Gate(task: nat, threshold: int)
    | FailRetryable(task: nat)
    | FailPermanently(task: nat)
    | Break(task: nat)
    | Crash(task: nat)
    | Review(webhook: nat, decision: Decision, at: int)
    | Replay(webhook: nat, force: bool)

  function Init(): State {
    State(map[], map[], map[], [], [], 0, {})
  }

  function NewTask(webhook: nat): Task {
    Task(webhook, 0, Waiting, 0, 0, 0)
  }

  function RetryDelay(attempt: nat): nat {
    if Power2(attempt) < 300 then Power2(attempt) else 300
  }

  function Power2(n: nat): nat {
    if n == 0 then 1 else 2 * Power2(n - 1)
  }

  function PromotionOf(webhook: nat, e: Event): Promotion {
    Promotion(e.reading.key, e.reading.status, e.reading.time, webhook, e.generation)
  }

  function Promote(s: State, webhook: nat, e: Event): State {
    var p := PromotionOf(webhook, e);
    s.(entities := Upserted(s.entities, p), log := s.log + [p])
  }

  function SetStatus(s: State, webhook: nat, status: ProcessingStatus): State {
    if webhook in s.webhooks then s.(webhooks := s.webhooks[webhook := s.webhooks[webhook].(status := status)]) else s
  }

  function SetPhase(s: State, task: nat, phase: Phase): State
    requires task < |s.tasks|
  {
    s.(tasks := s.tasks[task := s.tasks[task].(phase := phase)])
  }

  // -- the steps; a step that does not apply leaves everything as it is -----------------------

  function ApplyIngest(s: State, webhook: nat): State {
    if webhook in s.webhooks then s
    else s.(webhooks := s.webhooks[webhook := Webhook(RECEIVED, 0)], tasks := s.tasks + [NewTask(webhook)])
  }

  // A webhook that is gone or already normalised ends the task.
  function ApplyLook(s: State, t: nat): State {
    if t >= |s.tasks| || !s.tasks[t].phase.Waiting? then s
    else
      var task := s.tasks[t];
      var phase :=
        if task.webhook !in s.webhooks || s.webhooks[task.webhook].status == NORMALIZED then Done
        else Looked(s.webhooks[task.webhook]);
      s.(tasks := s.tasks[t := task.(phase := phase, runs := task.runs + 1)])
  }

  // Under the row lock only PROCESSING is a reason to stop.
  function ApplyClaim(s: State, t: nat): State {
    if t >= |s.tasks| || !s.tasks[t].phase.Looked? then s
    else
      var task := s.tasks[t];
      if task.webhook !in s.webhooks || s.webhooks[task.webhook].status == PROCESSING then SetPhase(s, t, Done)
      else SetPhase(SetStatus(s, task.webhook, PROCESSING), t, Holding(task.phase.copy))
  }

  function ApplySucceed(s: State, t: nat, reading: Reading): State {
    if t >= |s.tasks| || !s.tasks[t].phase.Holding? then s
    else
      var w := s.tasks[t].webhook;
      var event := Event(reading, s.generations, false, None, None);
      var stored := s.(events := s.events[w := event], generations := s.generations + 1);
      SetPhase(SetStatus(stored, w, NORMALIZED), t, Gating(s.tasks[t].phase.copy, event))
  }

  // The gate acts on the event it was handed; holding it only touches the review flag of the row.
  function ApplyGate(s: State, t: nat, threshold: int): State {
    if t >= |s.tasks| || !s.tasks[t].phase.Gating? then s
    else
      var w, event := s.tasks[t].webhook, s.tasks[t].phase.event;
      var gated :=
        if event.reading.confidence >= threshold then Promote(s, w, event)
        else if w in s.events then s.(events := s.events[w := s.events[w].(requiresReview := true)])
        else s;
      SetPhase(gated, t, Done)
  }

  // The count written is one more than the copy's, whatever the row says by now.
  function ApplyFailRetryable(s: State, t: nat): State {
    if t >= |s.tasks| || !s.tasks[t].phase.Holding? then s
    else
      var task := s.tasks[t];
      var count := task.phase.copy.retryCount + 1;
      if task.retries + 1 > MAX_RETRIES then
        SetPhase(s.(webhooks := s.webhooks[task.webhook := Webhook(DEAD_LETTER, count)]), t, Done)
      else
        s.(webhooks := s.webhooks[task.webhook := Webhook(FAILED, count)],
           tasks := s.tasks[t := task.(phase := Waiting, retries := task.retries + 1,
                                       delay := task.delay + RetryDelay(task.retries))])
  }

  function ApplyFailPermanently(s: State, t: nat): State {
    if t >= |s.tasks| || !s.tasks[t].phase.Holding? then s
    else SetPhase(SetStatus(s, s.tasks[t].webhook, FAILED), t, Done)
  }

  // An unexpected exception anywhere between the look and the end of the gate.
  function ApplyBreak(s: State, t: nat): State {
    if t >= |s.tasks| || s.tasks[t].phase.Waiting? || s.tasks[t].phase.Done? then s
    else SetPhase(SetStatus(s, s.tasks[t].webhook, FAILED), t, Done)
  }

  // The worker is lost; its unacknowledged message goes back to the queue.
  function ApplyCrash(s: State, t: nat): State {
    if t >= |s.tasks| || s.tasks[t].phase.Waiting? || s.tasks[t].phase.Done? then s
    else s.(tasks := s.tasks[t := s.tasks[t].(phase := Waiting, crashes := s.tasks[t].crashes + 1)])
  }

  predicate Reviewable(s: State, webhook: nat) {
    webhook in s.events && s.events[webhook].requiresReview && s.events[webhook].reviewedAt.None?
  }

  function ApplyReview(s: State, webhook: nat, decision: Decision, at: int): State {
    if !Reviewable(s, webhook) then s
    else
      var event := s.events[webhook];
      var decided := if decision == APPROVE then Promote(s, webhook, event) else s.(rejected := s.rejected + {event.generation});
      decided.(events := s.events[webhook := event.(reviewedAt := Some(at), decision := Some(decision))])
  }

  function ApplyReplay(s: State, webhook: nat, force: bool): State {
    if webhook !in s.webhooks then s
    else if s.webhooks[webhook].status in {PROCESSING, RECEIVED} && !force then s
    else SetStatus(s, webhook, RECEIVED).(tasks := s.tasks + [NewTask(webhook)])
  }

  function Apply(s: State, step: Step): State {
    match step
    case Ingest(w) => ApplyIngest(s, w)
    case Look(t) => ApplyLook(s, t)
    case Claim(t) => ApplyClaim(s, t)
    case Succeed(t, r) => ApplySucceed(s, t, r)
    case Gate(t, threshold) => ApplyGate(s, t, threshold)
    case FailRetryable(t) => ApplyFailRetryable(s, t)
    case FailPermanently(t) => ApplyFailPermanently(s, t)
    case Break(t) => ApplyBreak(s, t)
    case Crash(t) => ApplyCrash(s, t)
    case Review(w, d, at) => ApplyReview(s, w, d, at)
    case Replay(w, force) => ApplyReplay(s, w, force)
  }

  function Run(s: State, steps: seq<Step>): State {
    if steps == [] then s else Apply(Run(s, steps[..|steps| - 1]), steps[|steps| - 1])
  }

  // No step of the run is one that `bad` warns about in the state it is taken in.
  ghost predicate Avoids(steps: seq<Step>, bad: (State, Step) -> bool) {
    forall i :: 0 <= i < |steps| ==> !bad(Run(Init(), steps[..i]), steps[i])
  }

  lemma AvoidsPrefix(steps: seq<Step>, bad: (State, Step) -> bool)
    requires Avoids(steps, bad) && steps != []
    ensures var n := |steps| - 1; Avoids(steps[..n], bad) && !bad(Run(Init(), steps[..n]), steps[n])
  {
    var n := |steps| - 1;
    forall i | 0 <= i < n ensures !bad(Run(Init(), steps[..n][..i]), steps[..n][i]) {
      assert steps[..n][..i] == steps[..i];
      assert steps[..n][i] == steps[i];
    }
  }

  ghost predicate Reachable(s: State) {
    exists steps :: Run(Init(), steps) == s
  }

  lemma InitReachable()
    ensures Reachable(Init())
  {
    assert Run(Init(), []) == Init();
  }

  // A queued dispatch of a webhook that a worker may take up.
  predicate Ready(s: State, t: nat, w: nat) {
    && t < |s.tasks| && s.tasks[t].phase.Waiting? && s.tasks[t].webhook == w
    && w in s.webhooks && s.webhooks[w].status != NORMALIZED && s.webhooks[w].status != PROCESSING
  }

  // Undisturbed, it looks at its webhook and claims it.
  lemma Claimed(s: State, t: nat, w: nat) returns (after: State)
    requires Reachable(s) && Ready(s, t, w)
    ensures Reachable(after)
    ensures after == s.(webhooks := s.webhooks[w := s.webhooks[w].(status := PROCESSING)],
                        tasks := s.tasks[t := s.tasks[t].(phase := Holding(s.webhooks[w]), runs := s.tasks[t].runs + 1)])
  {
    ClaimEffect(s, t, w);
    after := StepReachable(s, Look(t));
    after := StepReachable(after, Claim(t));
  }

  lemma ClaimEffect(s: State, t: nat, w: nat)
    requires Ready(s, t, w)
    ensures Apply(Apply(s, Look(t)), Claim(t)) ==
      s.(webhooks := s.webhooks[w := s.webhooks[w].(status := PROCESSING)],
         tasks := s.tasks[t := s.tasks[t].(phase := Holding(s.webhooks[w]), runs := s.tasks[t].runs + 1)])
  {
    var looked := s.tasks[t].(phase := Looked(s.webhooks[w]), runs := s.tasks[t].runs + 1);
    assert Apply(s, Look(t)) == s.(tasks := s.tasks[t := looked]);
  }

  lemma StepReachable(s: State, step: Step) returns (after: State)
    requires Reachable(s)
    ensures after == Apply(s, step) && Reachable(after)
  {
    after := Apply(s, step);
    var steps :| Run(Init(), steps) == s;
    assert (steps + [step])[..|steps|] == steps;
    assert Run(Init(), steps + [step]) == after;
  }
}
