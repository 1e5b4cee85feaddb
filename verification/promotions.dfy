/**
 What reaches the projection: the projection is the log, decisions are final until a new normalisation,
 and how often one normalisation can be promoted.
 */
module Promotions {
  import opened Vocabulary
  import opened Entities
  import opened Pipeline
  import opened Exclusion

  // -- what every step keeps -------------------------------------------------------------------

  predicate DecisionConsistent(e: Event) {
    && (e.decision.Some? <==> e.reviewedAt.Some?)
    && (e.decision.Some? ==> e.requiresReview)
  }

  ghost predicate NormalizedHaveEvents(s: State) {
    && (forall w :: w in s.webhooks && s.webhooks[w].status == NORMALIZED ==> w in s.events)
    && (forall t :: 0 <= t < |s.tasks| && s.tasks[t].phase.Gating? ==> s.tasks[t].webhook in s.events)
  }

  ghost predicate DecisionsConsistent(s: State) {
    forall w :: w in s.events ==> DecisionConsistent(s.events[w])
  }

  ghost predicate Consistent(s: State) {
    s.entities == Replayed(s.log) && NormalizedHaveEvents(s) && DecisionsConsistent(s)
  }

  lemma ReplayedSnoc(log: seq<Promotion>, p: Promotion)
    ensures Replayed(log + [p]) == Upserted(Replayed(log), p)
  {
    assert (log + [p])[..|log|] == log;
  }

  // The promotion a step makes, if any.
  function Promotes(s: State, step: Step): Option<Promotion> {
    match step
    case Gate(t, threshold) =>
      if t < |s.tasks| && s.tasks[t].phase.Gating? && s.tasks[t].phase.event.reading.confidence >= threshold
      then Some(PromotionOf(s.tasks[t].webhook, s.tasks[t].phase.event)) else None
    case Review(w, decision, _) =>
      if Reviewable(s, w) && decision == APPROVE then Some(PromotionOf(w, s.events[w])) else None
    case _ => None
  }

  // A step appends its promotion to the log and puts it to the projection, or leaves both alone.
  lemma LogAfter(s: State, step: Step)
    ensures var p, after := Promotes(s, step), Apply(s, step);
      if p.Some? then after.log == s.log + [p.value] && after.entities == Upserted(s.entities, p.value)
      else after.log == s.log && after.entities == s.entities
  {
  }

  lemma ProjectionKept(s: State, step: Step)
    requires s.entities == Replayed(s.log)
    ensures Apply(s, step).entities == Replayed(Apply(s, step).log)
  {
    LogAfter(s, step);
    if Promotes(s, step).Some? {
      ReplayedSnoc(s.log, Promotes(s, step).value);
    }
  }

  lemma EventsGrow(s: State, step: Step, w: nat)
    ensures w in s.events ==> w in Apply(s, step).events
  {
  }

  lemma NormalizedAfter(s: State, step: Step, w: nat)
    requires w in Apply(s, step).webhooks && Apply(s, step).webhooks[w].status == NORMALIZED
    ensures (w in s.webhooks && s.webhooks[w].status == NORMALIZED) || w in Apply(s, step).events
  {
  }

  lemma GatingAfter(s: State, step: Step, t: nat)
    requires t < |Apply(s, step).tasks| && Apply(s, step).tasks[t].phase.Gating?
    ensures var w := Apply(s, step).tasks[t].webhook;
      (t < |s.tasks| && s.tasks[t].phase.Gating? && s.tasks[t].webhook == w) || w in Apply(s, step).events
  {
  }

  lemma EventsKept(s: State, step: Step)
    requires NormalizedHaveEvents(s)
    ensures NormalizedHaveEvents(Apply(s, step))
  {
    var after := Apply(s, step);
    forall w: nat | w in after.webhooks && after.webhooks[w].status == NORMALIZED ensures w in after.events {
      NormalizedAfter(s, step, w);
      EventsGrow(s, step, w);
    }
    forall t | 0 <= t < |after.tasks| && after.tasks[t].phase.Gating? ensures after.tasks[t].webhook in after.events {
      GatingAfter(s, step, t);
      EventsGrow(s, step, after.tasks[t].webhook);
    }
  }

  lemma DecisionsKept(s: State, step: Step)
    requires DecisionsConsistent(s)
    ensures DecisionsConsistent(Apply(s, step))
  {
  }

  lemma ConsistencyKept(s: State, step: Step)
    requires Consistent(s)
    ensures Consistent(Apply(s, step))
  {
    ProjectionKept(s, step);
    EventsKept(s, step);
    DecisionsKept(s, step);
  }

  // In every reachable state the projection is the first newest promotion of each entity, a normalised
  // webhook has its event, and a recorded decision is on a held, reviewed event.
  lemma {:induction false} ConsistencyOverRuns(steps: seq<Step>)
    ensures Consistent(Run(Init(), steps))
  {
    if steps != [] {
      ConsistencyOverRuns(steps[..|steps| - 1]);
      ConsistencyKept(Run(Init(), steps[..|steps| - 1]), steps[|steps| - 1]);
    }
  }

  lemma ProjectionOverRuns(steps: seq<Step>, key: EntityKey) returns (i: nat)
    ensures var s := Run(Init(), steps);
      && (key in s.entities <==> Promoted(s.log, key))
      && (key in s.entities ==> FirstNewest(s.log, key, i) && s.entities[key] == EntityRow(s.log[i].status, s.log[i].time, s.log[i].event))
  {
    ConsistencyOverRuns(steps);
    i := RowIsFirstNewest(Run(Init(), steps).log, key);
  }

  // No step takes an entity away, moves it back in time, or unwrites a promotion.
  lemma StepsOnlyMoveForward(s: State, step: Step)
    ensures s.log <= Apply(s, step).log
    ensures forall k :: k in s.entities ==>
      k in Apply(s, step).entities && s.entities[k].time <= Apply(s, step).entities[k].time
  {
    LogAfter(s, step);
  }

  // A recorded decision stays exactly as it is until its webhook is normalised again.
  lemma DecisionsAreFinal(s: State, step: Step, w: nat)
    requires w in s.events && DecisionConsistent(s.events[w]) && s.events[w].decision.Some?
    requires step.Succeed? ==> step.task >= |s.tasks| || s.tasks[step.task].webhook != w
    ensures w in Apply(s, step).events && Apply(s, step).events[w] == s.events[w]
  {
  }

  // -- how often one normalisation is promoted -----------------------------------------------------

  function Times(log: seq<Promotion>, generation: nat): nat {
    if log == [] then 0
    else Times(log[..|log| - 1], generation) + (if log[|log| - 1].generation == generation then 1 else 0)
  }

  lemma TimesSnoc(log: seq<Promotion>, p: Promotion, generation: nat)
    ensures Times(log + [p], generation) == Times(log, generation) + (if p.generation == generation then 1 else 0)
  {
    assert (log + [p])[..|log|] == log;
  }

  predicate AtGate(s: State, t: nat, generation: nat) {
    t < |s.tasks| && s.tasks[t].phase.Gating? && s.tasks[t].phase.event.generation == generation
  }

  predicate RowIs(s: State, w: nat, generation: nat) {
    w in s.events && s.events[w].generation == generation
  }

  // Each normalisation has its own number, carried by at most one gate and one row of one webhook.
  ghost predicate Numbered(s: State) {
    && (forall g: nat :: g >= s.generations ==> Times(s.log, g) == 0 && g !in s.rejected)
    && (forall t: nat, g: nat :: AtGate(s, t, g) ==> g < s.generations)
    && (forall t: nat, u: nat, g: nat :: AtGate(s, t, g) && AtGate(s, u, g) ==> t == u)
    && (forall w: nat, g: nat :: RowIs(s, w, g) ==> g < s.generations)
    && (forall v: nat, w: nat, g: nat :: RowIs(s, v, g) && RowIs(s, w, g) ==> v == w)
    && (forall t: nat, w: nat, g: nat :: AtGate(s, t, g) && RowIs(s, w, g) ==> s.tasks[t].webhook == w)
  }

  // The step is the normalisation that takes the next number, for this task and this webhook.
  predicate Normalises(s: State, step: Step, t: nat, w: nat) {
    step.Succeed? && step.task == t && t < |s.tasks| && s.tasks[t].phase.Holding? && s.tasks[t].webhook == w
  }

  lemma AtGateAfter(s: State, step: Step, t: nat, g: nat)
    requires AtGate(Apply(s, step), t, g)
    ensures t < |s.tasks| && Apply(s, step).tasks[t].webhook == s.tasks[t].webhook
    ensures AtGate(s, t, g) || (Normalises(s, step, t, s.tasks[t].webhook) && g == s.generations)
    ensures !Normalises(s, step, t, s.tasks[t].webhook) ==> AtGate(s, t, g) && !(step.Gate? && step.task == t)
  {
  }

  lemma RowAfter(s: State, step: Step, w: nat, g: nat)
    requires RowIs(Apply(s, step), w, g)
    ensures RowIs(s, w, g) || (step.Succeed? && Normalises(s, step, step.task, w) && g == s.generations)
  {
  }

  lemma TimesAfter(s: State, step: Step, g: nat)
    ensures Times(Apply(s, step).log, g) ==
      Times(s.log, g) + (if Promotes(s, step).Some? && Promotes(s, step).value.generation == g then 1 else 0)
  {
    LogAfter(s, step);
    if Promotes(s, step).Some? {
      TimesSnoc(s.log, Promotes(s, step).value, g);
    }
  }

  lemma RejectedAfter(s: State, step: Step, g: nat)
    ensures g in Apply(s, step).rejected <==>
      g in s.rejected || (step.Review? && Reviewable(s, step.webhook) && step.decision == REJECT
                          && s.events[step.webhook].generation == g)
  {
  }

  lemma NumberedKept(s: State, step: Step)
    requires Numbered(s)
    ensures Numbered(Apply(s, step))
  {
    var after := Apply(s, step);
    assert after.generations >= s.generations;
    forall g: nat | g >= after.generations ensures Times(after.log, g) == 0 && g !in after.rejected {
      TimesAfter(s, step, g);
      RejectedAfter(s, step, g);
      PromotesNumbered(s, step);
      assert step.Review? && Reviewable(s, step.webhook) ==> RowIs(s, step.webhook, s.events[step.webhook].generation);
    }
    forall t: nat, g: nat | AtGate(after, t, g) ensures g < after.generations {
      AtGateAfter(s, step, t, g);
    }
    forall t: nat, u: nat, g: nat | AtGate(after, t, g) && AtGate(after, u, g) ensures t == u {
      AtGateAfter(s, step, t, g);
      AtGateAfter(s, step, u, g);
    }
    forall w: nat, g: nat | RowIs(after, w, g) ensures g < after.generations {
      RowAfter(s, step, w, g);
    }
    forall v: nat, w: nat, g: nat | RowIs(after, v, g) && RowIs(after, w, g) ensures v == w {
      RowAfter(s, step, v, g);
      RowAfter(s, step, w, g);
    }
    forall t: nat, w: nat, g: nat | AtGate(after, t, g) && RowIs(after, w, g) ensures after.tasks[t].webhook == w {
      AtGateAfter(s, step, t, g);
      RowAfter(s, step, w, g);
    }
  }

  // Only a gate's own event or a row's own reading is ever promoted.
  lemma PromotesNumbered(s: State, step: Step)
    ensures Promotes(s, step).Some? ==>
      var g := Promotes(s, step).value.generation;
      || (step.Gate? && AtGate(s, step.task, g))
      || (step.Review? && Reviewable(s, step.webhook) && RowIs(s, step.webhook, g))
  {
  }

  // -- at most one promotion per normalisation -----------------------------------------------------

  ghost predicate StillAtGate(s: State, g: nat) {
    exists t: nat :: AtGate(s, t, g)
  }

  // A normalisation is promoted at most once, by its gate or by an approval, and never after a rejection.
  ghost predicate PromotedOnce(s: State) {
    && Numbered(s)
    && (forall g: nat :: Times(s.log, g) <= 1)
    && (forall g: nat :: g in s.rejected ==> Times(s.log, g) == 0)
    && (forall t: nat, g: nat :: AtGate(s, t, g) ==> Times(s.log, g) == 0 && g !in s.rejected)
    && (forall w: nat, g: nat :: RowIs(s, w, g) ==> HeldOnlyBy(s, w, g))
  }

  // A held row is out of the gate; while it awaits its decision nothing has become of it.
  ghost predicate HeldOnlyBy(s: State, w: nat, g: nat)
    requires RowIs(s, w, g)
  {
    var e := s.events[w];
    && (g in s.rejected ==> e.reviewedAt.Some?)
    && (e.requiresReview ==> !StillAtGate(s, g))
    && (e.requiresReview && e.reviewedAt.None? ==> Times(s.log, g) == 0)
  }

  // A late gate holds its own reading but flags the row of a newer one, already promoted or still gated.
  ghost predicate HoldsTheWrongReading(s: State, step: Step) {
    && step.Gate? && step.task < |s.tasks| && s.tasks[step.task].phase.Gating?
    && var w, e := s.tasks[step.task].webhook, s.tasks[step.task].phase.event;
    && e.reading.confidence < step.threshold
    && w in s.events && s.events[w].generation != e.generation && !s.events[w].requiresReview
    && (Times(s.log, s.events[w].generation) > 0 || StillAtGate(s, s.events[w].generation))
  }

  // A normalisation at its gate after the step was there before it, and its gate has not been run.
  lemma GatesBefore(s: State, step: Step, g: nat)
    requires g < s.generations
    ensures forall t: nat :: AtGate(Apply(s, step), t, g) ==> AtGate(s, t, g) && !(step.Gate? && step.task == t)
  {
    forall t: nat | AtGate(Apply(s, step), t, g) ensures AtGate(s, t, g) && !(step.Gate? && step.task == t) {
      AtGateAfter(s, step, t, g);
    }
  }

  lemma PromotesOnlyTheUnsettled(s: State, step: Step)
    requires PromotedOnce(s) && Promotes(s, step).Some?
    ensures var g := Promotes(s, step).value.generation; Times(s.log, g) == 0 && g !in s.rejected
    ensures var g := Promotes(s, step).value.generation; !StillAtGate(Apply(s, step), g)
  {
    PromotesNumbered(s, step);
    var g := Promotes(s, step).value.generation;
    if step.Review? {
      assert RowIs(s, step.webhook, g) && HeldOnlyBy(s, step.webhook, g);
    }
    GatesBefore(s, step, g);
  }

  lemma RejectsOnlyTheUnsettled(s: State, step: Step, g: nat)
    requires PromotedOnce(s) && g in Apply(s, step).rejected && g !in s.rejected
    ensures Times(s.log, g) == 0 && !StillAtGate(s, g) && Promotes(s, step).None?
  {
    RejectedAfter(s, step, g);
    assert RowIs(s, step.webhook, g) && HeldOnlyBy(s, step.webhook, g);
  }

  lemma CountsKept(s: State, step: Step, g: nat)
    requires PromotedOnce(s)
    ensures Times(Apply(s, step).log, g) <= 1
    ensures g in Apply(s, step).rejected ==> Times(Apply(s, step).log, g) == 0
  {
    TimesAfter(s, step, g);
    if Promotes(s, step).Some? {
      PromotesOnlyTheUnsettled(s, step);
    }
    if g in Apply(s, step).rejected && g !in s.rejected {
      RejectsOnlyTheUnsettled(s, step, g);
    }
  }

  lemma GatesKept(s: State, step: Step, t: nat, g: nat)
    requires PromotedOnce(s) && AtGate(Apply(s, step), t, g)
    ensures Times(Apply(s, step).log, g) == 0 && g !in Apply(s, step).rejected
  {
    AtGateAfter(s, step, t, g);
    TimesAfter(s, step, g);
    if Promotes(s, step).Some? {
      PromotesOnlyTheUnsettled(s, step);
    }
    if g in Apply(s, step).rejected && g !in s.rejected {
      RejectsOnlyTheUnsettled(s, step, g);
    }
  }

  // What a step does to a row: normalise it afresh, flag it, decide it, or leave it.
  lemma FlagAfter(s: State, step: Step, w: nat, g: nat)
    requires RowIs(s, w, g) && RowIs(Apply(s, step), w, g) && g < s.generations
    ensures var e, f := s.events[w], Apply(s, step).events[w];
      && (e.reviewedAt.Some? ==> f.reviewedAt.Some?)
      && (f.requiresReview ==> e.requiresReview || Flags(s, step, w))
      && (e.requiresReview || Flags(s, step, w) ==> f.requiresReview)
      && (f.reviewedAt.Some? && e.reviewedAt.None? <==> step.Review? && step.webhook == w && Reviewable(s, w))
  {
  }

  predicate Flags(s: State, step: Step, w: nat) {
    && step.Gate? && step.task < |s.tasks| && s.tasks[step.task].phase.Gating? && s.tasks[step.task].webhook == w
    && s.tasks[step.task].phase.event.reading.confidence < step.threshold
  }

  lemma GateStaysEmpty(s: State, step: Step, g: nat)
    requires g < s.generations && !StillAtGate(s, g)
    ensures !StillAtGate(Apply(s, step), g)
  {
    GatesBefore(s, step, g);
  }

  // The gate that flags its own row leaves it.
  lemma OwnGateLeaves(s: State, step: Step, w: nat, g: nat)
    requires Numbered(s) && Flags(s, step, w) && AtGate(s, step.task, g)
    ensures !StillAtGate(Apply(s, step), g)
  {
    GatesBefore(s, step, g);
  }

  lemma OldRowKept(s: State, step: Step, w: nat, g: nat)
    requires PromotedOnce(s) && !HoldsTheWrongReading(s, step)
    requires RowIs(s, w, g) && RowIs(Apply(s, step), w, g)
    ensures HeldOnlyBy(Apply(s, step), w, g)
  {
    var after := Apply(s, step);
    assert HeldOnlyBy(s, w, g);
    FlagAfter(s, step, w, g);
    TimesAfter(s, step, g);
    RejectedAfter(s, step, g);
    PromotesNumbered(s, step);
    if g in after.rejected && g !in s.rejected {
      assert RowIs(s, step.webhook, g);
    }
    if s.events[w].requiresReview {
      GateStaysEmpty(s, step, g);
    } else if Flags(s, step, w) {
      if AtGate(s, step.task, g) {
        OwnGateLeaves(s, step, w, g);
      } else {
        GateStaysEmpty(s, step, g);
      }
    }
  }

  lemma NewRowKept(s: State, step: Step, w: nat)
    requires Numbered(s) && step.Succeed? && Normalises(s, step, step.task, w)
    ensures RowIs(Apply(s, step), w, s.generations) && HeldOnlyBy(Apply(s, step), w, s.generations)
  {
  }

  // The wrong row is the only way a normalisation can come to be promoted twice, or after a rejection.
  lemma PromotedOnceKeptExactly(s: State, step: Step)
    requires PromotedOnce(s) && DecisionsConsistent(s)
    ensures PromotedOnce(Apply(s, step)) <==> !HoldsTheWrongReading(s, step)
  {
    if HoldsTheWrongReading(s, step) {
      WrongRowBreaks(s, step);
    } else {
      PromotedOnceKept(s, step);
    }
  }

  lemma PromotedOnceKept(s: State, step: Step)
    requires PromotedOnce(s) && !HoldsTheWrongReading(s, step)
    ensures PromotedOnce(Apply(s, step))
  {
    var after := Apply(s, step);
    NumberedKept(s, step);
    forall g: nat ensures Times(after.log, g) <= 1 && (g in after.rejected ==> Times(after.log, g) == 0) {
      CountsKept(s, step, g);
    }
    forall t: nat, g: nat | AtGate(after, t, g) ensures Times(after.log, g) == 0 && g !in after.rejected {
      GatesKept(s, step, t, g);
    }
    forall w: nat, g: nat | RowIs(after, w, g) ensures HeldOnlyBy(after, w, g) {
      RowAfter(s, step, w, g);
      if RowIs(s, w, g) {
        OldRowKept(s, step, w, g);
      } else {
        NewRowKept(s, step, w);
      }
    }
  }

  lemma WrongRowBreaks(s: State, step: Step)
    requires PromotedOnce(s) && DecisionsConsistent(s) && HoldsTheWrongReading(s, step)
    ensures !PromotedOnce(Apply(s, step))
  {
    var after := Apply(s, step);
    var w := s.tasks[step.task].webhook;
    var g := s.events[w].generation;
    assert RowIs(s, w, g) && RowIs(after, w, g) && DecisionConsistent(s.events[w]);
    TimesAfter(s, step, g);
    assert after.events[w].requiresReview && after.events[w].reviewedAt.None?;
    if StillAtGate(s, g) {
      var t: nat :| AtGate(s, t, g);
      assert AtGate(after, t, g);
    }
  }

  // Over any run without such a late hold: one promotion at most, and none after a rejection.
  lemma {:induction false} PromotedOnceOverRuns(steps: seq<Step>)
    requires Avoids(steps, HoldsTheWrongReading)
    ensures PromotedOnce(Run(Init(), steps))
  {
    if steps != [] {
      AvoidsPrefix(steps, HoldsTheWrongReading);
      PromotedOnceOverRuns(steps[..|steps| - 1]);
      PromotedOnceKept(Run(Init(), steps[..|steps| - 1]), steps[|steps| - 1]);
    }
  }

  // -- what a late hold leads to -------------------------------------------------------------------

  // No step of the continuation is itself a late hold.
  ghost predicate Clean(s: State, steps: seq<Step>) {
    forall i :: 0 <= i < |steps| ==> !HoldsTheWrongReading(Run(s, steps[..i]), steps[i])
  }

  ghost predicate PromotesTwice(s: State, steps: seq<Step>, g: nat) {
    Clean(s, steps) && Times(Run(s, steps).log, g) >= 2
  }

  lemma {:induction false} CleanKeepsPromotedOnce(s: State, steps: seq<Step>)
    requires PromotedOnce(s) && Clean(s, steps)
    ensures PromotedOnce(Run(s, steps))
  {
    if steps != [] {
      var n := |steps| - 1;
      forall i | 0 <= i < n ensures !HoldsTheWrongReading(Run(s, steps[..n][..i]), steps[..n][i]) {
        assert steps[..n][..i] == steps[..i] && steps[..n][i] == steps[i];
      }
      CleanKeepsPromotedOnce(s, steps[..n]);
      PromotedOnceKept(Run(s, steps[..n]), steps[n]);
    }
  }

  lemma OneCleanStep(s: State, step: Step)
    requires !HoldsTheWrongReading(s, step)
    ensures Clean(s, [step]) && Run(s, [step]) == Apply(s, step)
  {
    assert [step][..0] == [];
  }

  lemma TwoCleanSteps(s: State, first: Step, second: Step)
    requires !HoldsTheWrongReading(s, first) && !HoldsTheWrongReading(Apply(s, first), second)
    ensures Clean(s, [first, second]) && Run(s, [first, second]) == Apply(Apply(s, first), second)
  {
    assert [first, second][..0] == [] && [first, second][..1] == [first];
    OneCleanStep(s, first);
  }

  lemma LateHoldEffect(s: State, step: Step)
    requires DecisionsConsistent(s) && HoldsTheWrongReading(s, step)
    ensures var flagged, w := Apply(s, step), s.tasks[step.task].webhook;
      && flagged.log == s.log && Reviewable(flagged, w) && RowIs(flagged, w, s.events[w].generation)
      && (forall t: nat :: AtGate(s, t, s.events[w].generation) ==> AtGate(flagged, t, s.events[w].generation))
  {
    assert DecisionConsistent(s.events[s.tasks[step.task].webhook]);
  }

  lemma ApprovalEffect(s: State, w: nat, g: nat)
    requires Reviewable(s, w) && RowIs(s, w, g)
    ensures var approved := Apply(s, Review(w, APPROVE, 0));
      && Times(approved.log, g) == Times(s.log, g) + 1
      && (forall t: nat :: AtGate(s, t, g) ==> AtGate(approved, t, g))
  {
    TimesAfter(s, Review(w, APPROVE, 0), g);
  }

  lemma ReleaseEffect(s: State, t: nat, g: nat)
    requires AtGate(s, t, g)
    ensures Times(Apply(s, Gate(t, s.tasks[t].phase.event.reading.confidence)).log, g) == Times(s.log, g) + 1
  {
    TimesAfter(s, Gate(t, s.tasks[t].phase.event.reading.confidence), g);
  }

  // Approving the flagged row promotes its reading; if a gate still has that reading, it promotes it too.
  lemma WrongHoldPromotesTwice(s: State, step: Step) returns (steps: seq<Step>, g: nat)
    requires PromotedOnce(s) && DecisionsConsistent(s) && HoldsTheWrongReading(s, step)
    ensures |steps| <= 2 && PromotesTwice(Apply(s, step), steps, g)
  {
    var flagged, w := Apply(s, step), s.tasks[step.task].webhook;
    g := s.events[w].generation;
    LateHoldEffect(s, step);
    ApprovalEffect(flagged, w, g);
    var approve := Review(w, APPROVE, 0);
    if StillAtGate(s, g) {
      var t: nat :| AtGate(s, t, g);
      var approved := Apply(flagged, approve);
      ReleaseEffect(approved, t, g);
      var release := Gate(t, approved.tasks[t].phase.event.reading.confidence);
      TwoCleanSteps(flagged, approve, release);
      steps := [approve, release];
    } else {
      OneCleanStep(flagged, approve);
      steps := [approve];
    }
  }

  // So after a step, some run without further late holds can promote a reading twice if and only if the
  // step was a late hold.
  lemma TwiceIsPossibleExactly(s: State, step: Step)
    requires PromotedOnce(s) && DecisionsConsistent(s)
    ensures (exists steps, g: nat :: PromotesTwice(Apply(s, step), steps, g)) <==> HoldsTheWrongReading(s, step)
  {
    if HoldsTheWrongReading(s, step) {
      var steps, g := WrongHoldPromotesTwice(s, step);
    } else {
      PromotedOnceKept(s, step);
      forall steps, g: nat | Clean(Apply(s, step), steps) ensures Times(Run(Apply(s, step), steps).log, g) <= 1 {
        CleanKeepsPromotedOnce(Apply(s, step), steps);
      }
    }
  }

  // Two workers of one replayed webhook are enough: the slow one holds the row the fast one promoted,
  // and approving it promotes the same normalisation again.
  lemma OneNormalisationPromotedTwice(low: Reading, high: Reading) returns (s: State)
    requires low.confidence < 700 <= high.confidence
    ensures Reachable(s) && Times(s.log, 1) == 2
  {
    InitReachable();
    s := StepReachable(Init(), Ingest(0));
    s := NormaliseOnce(s, 0, 0, low);
    s := StepReachable(s, Replay(0, false));
    s := NormaliseOnce(s, 1, 0, high);
    LateHold(s, low, high);
    s := StepReachable(s, Gate(1, 700));
    s := StepReachable(s, Gate(0, 700));
    s := StepReachable(s, Review(0, APPROVE, 0));
  }

  // Both at the gate, the row is the faster one's: its promotion, the late hold, and an approval.
  lemma LateHold(s: State, low: Reading, high: Reading)
    requires low.confidence < 700 <= high.confidence && s.log == [] && |s.tasks| == 2
    requires 0 in s.events && s.events[0] == Event(high, 1, false, None, None)
    requires forall t :: 0 <= t < 2 ==> s.tasks[t].phase.Gating? && s.tasks[t].webhook == 0
    requires s.tasks[0].phase.event.reading == low && s.tasks[1].phase.event == s.events[0]
    ensures Times(Apply(Apply(Apply(s, Gate(1, 700)), Gate(0, 700)), Review(0, APPROVE, 0)).log, 1) == 2
  {
    var p := Promotion(high.key, high.status, high.time, 0, 1);
    var one := Apply(s, Gate(1, 700));
    assert one.log == [] + [p] && one.events == s.events && one.tasks[0] == s.tasks[0];
    var two := Apply(one, Gate(0, 700));
    assert two.log == one.log && two.events[0] == Event(high, 1, true, None, None);
    assert Apply(two, Review(0, APPROVE, 0)).log == one.log + [p];
    TimesSnoc([], p, 1);
    TimesSnoc([] + [p], p, 1);
  }

  // A queued dispatch runs up to its gate.
  lemma NormaliseOnce(s: State, t: nat, w: nat, reading: Reading) returns (after: State)
    requires Reachable(s) && Ready(s, t, w) && s.webhooks[w].status == RECEIVED
    ensures Reachable(after) && |after.tasks| == |s.tasks| && after.log == s.log
    ensures after.generations == s.generations + 1
    ensures after.webhooks == s.webhooks[w := s.webhooks[w].(status := NORMALIZED)]
    ensures after.events == s.events[w := Event(reading, s.generations, false, None, None)]
    ensures after.tasks[t].phase.Gating? && after.tasks[t].webhook == w && after.tasks[t].phase.event == after.events[w]
    ensures forall u :: 0 <= u < |s.tasks| && u != t ==> after.tasks[u] == s.tasks[u]
  {
    after := Claimed(s, t, w);
    after := StepReachable(after, Succeed(t, reading));
  }

  // -- no normalisation is forgotten ---------------------------------------------------------------

  // The row's reading is at its gate, in the projection's history, or held for a person.
  ghost predicate SettledRow(s: State, w: nat, g: nat)
    requires RowIs(s, w, g)
  {
    StillAtGate(s, g) || Times(s.log, g) > 0 || s.events[w].requiresReview
  }

  ghost predicate Settled(s: State) {
    forall w: nat, g: nat :: RowIs(s, w, g) ==> SettledRow(s, w, g)
  }

  // A worker is lost, or fails, between storing the row and gating it.
  ghost predicate Drops(s: State, step: Step) {
    && (step.Crash? || step.Break?)
    && step.task < |s.tasks| && s.tasks[step.task].phase.Gating?
    && var w, g := s.tasks[step.task].webhook, s.tasks[step.task].phase.event.generation;
    && RowIs(s, w, g) && !s.events[w].requiresReview && Times(s.log, g) == 0
  }

  // A gate holds the row of its own reading, or promotes it; any other departure drops it.
  lemma SettledRowKept(s: State, step: Step, w: nat, g: nat)
    requires Numbered(s) && !Drops(s, step)
    requires RowIs(s, w, g) && SettledRow(s, w, g) && RowIs(Apply(s, step), w, g)
    ensures SettledRow(Apply(s, step), w, g)
  {
    FlagAfter(s, step, w, g);
    TimesAfter(s, step, g);
    if StillAtGate(s, g) && Times(s.log, g) == 0 && !s.events[w].requiresReview {
      var t: nat :| AtGate(s, t, g);
      assert s.tasks[t].webhook == w;
      GateAfter(s, step, t, g);
    }
  }

  // A gate stays as it is unless it is run or its worker is lost; run, it promotes or flags.
  lemma GateAfter(s: State, step: Step, t: nat, g: nat)
    requires AtGate(s, t, g)
    ensures AtGate(Apply(s, step), t, g) || ((step.Gate? || step.Crash? || step.Break?) && step.task == t)
    ensures step.Gate? && step.task == t ==>
      Flags(s, step, s.tasks[t].webhook) || (Promotes(s, step).Some? && Promotes(s, step).value.generation == g)
  {
  }

  lemma SettledKeptExactly(s: State, step: Step)
    requires Numbered(s) && Settled(s)
    ensures Settled(Apply(s, step)) <==> !Drops(s, step)
  {
    var after := Apply(s, step);
    if Drops(s, step) {
      var w, g := s.tasks[step.task].webhook, s.tasks[step.task].phase.event.generation;
      assert RowIs(after, w, g);
      if StillAtGate(after, g) {
        var t: nat :| AtGate(after, t, g);
        AtGateAfter(s, step, t, g);
        assert AtGate(s, t, g) && AtGate(s, step.task, g);
      }
    } else {
      forall w: nat, g: nat | RowIs(after, w, g) ensures SettledRow(after, w, g) {
        RowAfter(s, step, w, g);
        if RowIs(s, w, g) {
          SettledRowKept(s, step, w, g);
        } else {
          assert AtGate(after, step.task, g);
        }
      }
    }
  }

  // Over any run that loses no worker at a gate, every current reading is gated, promoted or held.
  lemma {:induction false} SettledOverRuns(steps: seq<Step>)
    requires Avoids(steps, Drops)
    ensures Numbered(Run(Init(), steps)) && Settled(Run(Init(), steps))
  {
    if steps != [] {
      AvoidsPrefix(steps, Drops);
      SettledOverRuns(steps[..|steps| - 1]);
      NumberedKept(Run(Init(), steps[..|steps| - 1]), steps[|steps| - 1]);
      SettledKeptExactly(Run(Init(), steps[..|steps| - 1]), steps[|steps| - 1]);
    }
  }

  // A worker lost at the gate: the redelivered message finds NORMALIZED and ends, and the reading is
  // neither promoted nor held.
  lemma AReadingCanBeDropped(reading: Reading) returns (s: State)
    ensures Reachable(s) && RowIs(s, 0, 0) && !SettledRow(s, 0, 0)
    ensures |s.tasks| == 1 && s.tasks[0].phase.Done? && 0 in s.webhooks && s.webhooks[0].status == NORMALIZED
  {
    InitReachable();
    s := StepReachable(Init(), Ingest(0));
    s := NormaliseOnce(s, 0, 0, reading);
    assert s.log == [];
    s := StepReachable(s, Crash(0));
    s := StepReachable(s, Look(0));
    assert forall t: nat :: !AtGate(s, t, 0);
  }
}
