/**
 The service's tables as one object, updated in place. Every method is one atomic piece of the code and
 refines one step of the pipeline, so what is proved of every run of steps holds of these tables.
 */
module Gateway {
  import opened Vocabulary
  import opened Entities
  import opened Pipeline

  datatype ReviewResult = NoHeldEvent | AlreadyDecided | Recorded(updated: bool)

  // Of the row of this webhook, the status and nothing else; of every other row, nothing.
  predicate Saved(before: map<nat, Webhook>, after: map<nat, Webhook>, webhook: nat, status: ProcessingStatus) {
    && after.Keys == before.Keys
    && (webhook in after ==> after[webhook] == Webhook(status, before[webhook].retryCount))
    && forall w :: w in after && w != webhook ==> after[w] == before[w]
  }

  class Tables {
    var webhooks: map<nat, Webhook>
    var events: map<nat, Event>
    const states: EntityStates
    var tasks: seq<Task>
    var generations: nat
    ghost var rejected: set<nat>

    ghost predicate Valid()
      reads this, states
    {
      states.Valid()
    }

    ghost function View(): State
      reads this, states
    {
      State(webhooks, events, states.rows, tasks, states.log, generations, rejected)
    }

    constructor ()
      ensures Valid() && fresh(states) && View() == Init()
    {
      webhooks, events, tasks, generations, rejected := map[], map[], [], 0, {};
      states := new EntityStates();
    }

    method Finish(t: nat)
      requires t < |tasks|
      modifies this`tasks
      ensures tasks == old(tasks)[t := old(tasks)[t].(phase := Done)]
    {
      tasks := tasks[t := tasks[t].(phase := Done)];
    }

    method SaveStatus(webhook: nat, status: ProcessingStatus)
      modifies this`webhooks
      ensures webhooks == if webhook in old(webhooks)
                          then old(webhooks)[webhook := old(webhooks)[webhook].(status := status)] else old(webhooks)
    {
      if webhook in webhooks {
        webhooks := webhooks[webhook := webhooks[webhook].(status := status)];
      }
    }

    // -- ingestion and replay ---------------------------------------------------------------------

    method Ingest(webhook: nat) returns (created: bool)
      requires Valid()
      modifies this
      ensures Valid() && View() == Apply(old(View()), Step.Ingest(webhook))
      ensures created <==> webhook !in old(webhooks)
      ensures created ==> webhooks == old(webhooks)[webhook := Webhook(RECEIVED, 0)] && tasks == old(tasks) + [NewTask(webhook)]
      ensures !created ==> View() == old(View())
    {
      created := webhook !in webhooks;
      if created {
        webhooks := webhooks[webhook := Webhook(RECEIVED, 0)];
        tasks := tasks + [NewTask(webhook)];
      }
    }

    method Replay(webhook: nat, force: bool) returns (queued: bool)
      requires Valid()
      modifies this
      ensures Valid() && View() == Apply(old(View()), Step.Replay(webhook, force))
      ensures queued <==>
        webhook in old(webhooks) && (force || old(webhooks)[webhook].status !in {PROCESSING, RECEIVED})
      ensures queued ==> tasks == old(tasks) + [NewTask(webhook)]
      ensures queued ==> webhooks == old(webhooks)[webhook := Webhook(RECEIVED, old(webhooks)[webhook].retryCount)]
      ensures !queued ==> View() == old(View())
    {
      if webhook !in webhooks {
        return false;
      }
      var inFlight := {PROCESSING, RECEIVED};
      if webhooks[webhook].status in inFlight && !force {
        return false;
      }
      SaveStatus(webhook, RECEIVED);
      tasks := tasks + [NewTask(webhook)];
      return true;
    }

    // -- the worker ---------------------------------------------------------------------------------

    method LookUp(t: nat) returns (goOn: bool)
      requires Valid() && t < |tasks| && tasks[t].phase.Waiting?
      modifies this
      ensures Valid() && View() == Apply(old(View()), Look(t))
      ensures var task := old(tasks)[t];
        && (goOn <==> task.webhook in webhooks && webhooks[task.webhook].status != NORMALIZED)
        && tasks == old(tasks)[t := task.(runs := task.runs + 1,
                                          phase := if goOn then Looked(webhooks[task.webhook]) else Done)]
      ensures webhooks == old(webhooks) && events == old(events)
    {
      var task := tasks[t];
      tasks := tasks[t := task.(runs := task.runs + 1)];
      if task.webhook !in webhooks {
        Finish(t);
        return false;
      }
      var webhook := webhooks[task.webhook];
      if webhook.status == NORMALIZED {
        Finish(t);
        return false;
      }
      tasks := tasks[t := tasks[t].(phase := Looked(webhook))];
      return true;
    }

    method Claim(t: nat) returns (claimed: bool)
      requires Valid() && t < |tasks| && tasks[t].phase.Looked?
      modifies this
      ensures Valid() && View() == Apply(old(View()), Step.Claim(t))
      ensures var task := old(tasks)[t];
        && (claimed <==> task.webhook in old(webhooks) && old(webhooks)[task.webhook].status != PROCESSING)
        && tasks == old(tasks)[t := task.(phase := if claimed then Holding(task.phase.copy) else Done)]
        && (claimed ==> webhooks == old(webhooks)[task.webhook := Webhook(PROCESSING, old(webhooks)[task.webhook].retryCount)])
      ensures !claimed ==> webhooks == old(webhooks)
      ensures events == old(events)
    {
      var task := tasks[t];
      if task.webhook !in webhooks || webhooks[task.webhook].status == PROCESSING {
        Finish(t);
        return false;
      }
      SaveStatus(task.webhook, PROCESSING);
      tasks := tasks[t := task.(phase := Holding(task.phase.copy))];
      return true;
    }

    method CreateForWebhook(t: nat, reading: Reading) returns (event: Event)
      requires Valid() && t < |tasks| && tasks[t].phase.Holding?
      modifies this
      ensures Valid() && View() == Apply(old(View()), Succeed(t, reading))
      ensures event.reading == reading && event.decision.None? && !event.requiresReview
      ensures event.generation == old(generations) && event.reviewedAt.None? && generations == old(generations) + 1
      ensures var task := old(tasks)[t];
        && events == old(events)[task.webhook := event]
        && tasks == old(tasks)[t := task.(phase := Gating(task.phase.copy, event))]
      ensures Saved(old(webhooks), webhooks, old(tasks)[t].webhook, NORMALIZED)
    {
      var task := tasks[t];
      event := Event(reading, generations, false, None, None);
      generations := generations + 1;
      events := events[task.webhook := event];
      SaveStatus(task.webhook, NORMALIZED);
      tasks := tasks[t := task.(phase := Gating(task.phase.copy, event))];
    }

    method ApplyConfidenceGate(t: nat, threshold: int) returns (held: bool)
      requires Valid() && t < |tasks| && tasks[t].phase.Gating?
      modifies this, states
      ensures Valid() && View() == Apply(old(View()), Gate(t, threshold))
      ensures held <==> old(tasks)[t].phase.event.reading.confidence < threshold
      ensures held ==> states.rows == old(states.rows) && states.log == old(states.log)
      ensures var w := old(tasks)[t].webhook;
        held && w in old(events) ==> events == old(events)[w := old(events)[w].(requiresReview := true)]
      ensures !held || old(tasks)[t].webhook !in old(events) ==> events == old(events)
      ensures !held ==> states.log == old(states.log) + [PromotionOf(old(tasks)[t].webhook, old(tasks)[t].phase.event)]
      ensures tasks == old(tasks)[t := old(tasks)[t].(phase := Done)] && webhooks == old(webhooks)
    {
      var w, event := tasks[t].webhook, tasks[t].phase.event;
      held := event.reading.confidence < threshold;
      if held {
        if w in events {
          events := events[w := events[w].(requiresReview := true)];
        }
      } else {
        var _ := states.UpsertIfNewer(PromotionOf(w, event));
      }
      Finish(t);
    }

    method HandleRetryable(t: nat) returns (retrying: bool)
      requires Valid() && t < |tasks| && tasks[t].phase.Holding?
      modifies this
      ensures Valid() && View() == Apply(old(View()), FailRetryable(t))
      ensures retrying <==> old(tasks)[t].retries < MAX_RETRIES
      ensures var task := old(tasks)[t];
        && webhooks == old(webhooks)[task.webhook := Webhook(if retrying then FAILED else DEAD_LETTER,
                                                             task.phase.copy.retryCount + 1)]
        && (retrying ==> tasks == old(tasks)[t := task.(phase := Waiting, retries := task.retries + 1,
                                                        delay := task.delay + RetryDelay(task.retries))])
        && (!retrying ==> tasks == old(tasks)[t := task.(phase := Done)])
      ensures events == old(events)
    {
      var task := tasks[t];
      var saved := Webhook(FAILED, task.phase.copy.retryCount + 1);
      webhooks := webhooks[task.webhook := saved];
      var delay := RetryDelay(task.retries);
      retrying := task.retries + 1 <= MAX_RETRIES;
      if retrying {
        tasks := tasks[t := task.(phase := Waiting, retries := task.retries + 1, delay := task.delay + delay)];
      } else {
        SaveStatus(task.webhook, DEAD_LETTER);
        Finish(t);
      }
    }

    method HandlePermanent(t: nat)
      requires Valid() && t < |tasks| && tasks[t].phase.Holding?
      modifies this
      ensures Valid() && View() == Apply(old(View()), FailPermanently(t))
      ensures Saved(old(webhooks), webhooks, old(tasks)[t].webhook, FAILED)
      ensures tasks == old(tasks)[t := old(tasks)[t].(phase := Done)] && events == old(events)
    {
      SaveStatus(tasks[t].webhook, FAILED);
      Finish(t);
    }

    method HandleUnexpected(t: nat)
      requires Valid() && t < |tasks| && (tasks[t].phase.Looked? || tasks[t].phase.Holding? || tasks[t].phase.Gating?)
      modifies this
      ensures Valid() && View() == Apply(old(View()), Break(t))
      ensures Saved(old(webhooks), webhooks, old(tasks)[t].webhook, FAILED)
      ensures tasks == old(tasks)[t := old(tasks)[t].(phase := Done)] && events == old(events)
    {
      SaveStatus(tasks[t].webhook, FAILED);
      Finish(t);
    }

    // -- review ---------------------------------------------------------------------------------------

    // True is answered for every approval, including one too old to change the projection.
    method ApplyReviewDecision(webhook: nat, decision: Decision, now: int) returns (r: ReviewResult)
      requires Valid()
      modifies this, states
      ensures Valid() && View() == Apply(old(View()), Review(webhook, decision, now))
      ensures r.NoHeldEvent? <==> webhook !in old(events) || !old(events)[webhook].requiresReview
      ensures r.Recorded? <==> Reviewable(old(View()), webhook)
      ensures r.Recorded? ==>
        && r.updated == (decision == APPROVE)
        && events == old(events)[webhook := old(events)[webhook].(reviewedAt := Some(now), decision := Some(decision))]
        && states.log == old(states.log) + (if r.updated then [PromotionOf(webhook, old(events)[webhook])] else [])
      ensures webhooks == old(webhooks) && tasks == old(tasks)
      ensures !r.Recorded? ==> View() == old(View())
    {
      if webhook !in events || !events[webhook].requiresReview {
        return NoHeldEvent;
      }
      var event := events[webhook];
      if event.reviewedAt.Some? {
        return AlreadyDecided;
      }
      var updated := false;
      if decision == APPROVE {
        var _ := states.UpsertIfNewer(PromotionOf(webhook, event));
        updated := true;
      } else {
        rejected := rejected + {event.generation};
      }
      event := event.(reviewedAt := Some(now), decision := Some(decision));
      events := events[webhook := event];
      return Recorded(updated);
    }
  }
}
