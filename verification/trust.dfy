/**
 The reader and the pipeline together: what an entity's state can come from without a person's say.
 */
module Trust {
  import opened Vocabulary
  import opened Payload
  import opened Entities
  import opened Pipeline
  import opened Promotions
  import Schemas
  import RulesBackend

  // Everything one normalisation consults beside the stored payload.
  datatype Context = Context(lex: Lexicon, profile: Option<VendorProfile>, parse: RulesBackend.TimestampParser, now: int)

  // The reader the workers run: one lexicon, one timestamp parser, and the profiles that are in force for
  // a webhook's vendor at one time or another.
  datatype Reader = Reader(
    lex: Lexicon, parse: RulesBackend.TimestampParser, inForce: (nat, Option<VendorProfile>) -> bool)
  {
    ghost predicate Typed() {
      forall w, profile :: inForce(w, profile) ==> RulesBackend.TypedProfile(profile)
    }

    // The contexts this reader can be in when it reads webhook w; only the clock is free.
    ghost predicate Runs(w: nat, c: Context) {
      c.lex == lex && c.parse == parse && inForce(w, c.profile)
    }
  }

  function ReadWith(payload: Json, c: Context): RulesBackend.Reading {
    RulesBackend.NormalizeFlat(c.lex, Flatten(payload, ""), c.profile, c.parse, c.now)
  }

  predicate ReadFrom(payload: Json, c: Context, reading: Pipeline.Reading) {
    && ReadWith(payload, c).Read?
    && var r := ReadWith(payload, c).result;
    && reading == Pipeline.Reading(EntityKey(r.entityType, r.entityId), r.canonicalStatus, r.eventTime, r.confidence)
  }

  // This reader, with some profile in force and at some time, reads the payload so.
  ghost predicate ReadBy(reader: Reader, w: nat, payload: Json, reading: Pipeline.Reading) {
    exists c :: reader.Runs(w, c) && ReadFrom(payload, c, reading)
  }

  // Type known, status word known, time supplied by the payload.
  ghost predicate Unguessed(payload: Json, c: Context) {
    && ReadWith(payload, c).Read?
    && var r := ReadWith(payload, c).result;
    && (r.entityType == SHIPMENT || r.entityType == INVOICE)
    && RulesBackend.StatusRecognised(c.lex, r.entityType,
         FirstValue(Flatten(payload, ""), RulesBackend.StatusKeys(c.lex, c.profile)), c.profile)
    && RulesBackend.EventTime(c.lex, Flatten(payload, ""), c.profile, c.parse, c.now).2
  }

  // The step stores a reading that is not this reader's of that webhook's payload, or gates with another
  // threshold than the default.
  ghost predicate Strays(reader: Reader, payloads: nat -> Json, s: State, step: Pipeline.Step) {
    match step
    case Succeed(t, reading) =>
      && t < |s.tasks| && s.tasks[t].phase.Holding?
      && !ReadBy(reader, s.tasks[t].webhook, payloads(s.tasks[t].webhook), reading)
    case Gate(_, threshold) => threshold != RulesBackend.DEFAULT_THRESHOLD
    case _ => false
  }

  type Sanction = (nat, Pipeline.Reading) -> bool

  // Every reading at a gate or in the table is a sanctioned one for its webhook.
  ghost predicate AllSanctioned(s: State, ok: Sanction) {
    && (forall t: nat :: t < |s.tasks| && s.tasks[t].phase.Gating? ==> ok(s.tasks[t].webhook, s.tasks[t].phase.event.reading))
    && (forall w: nat :: w in s.events ==> ok(w, s.events[w].reading))
  }

  lemma SanctionKept(s: State, step: Pipeline.Step, ok: Sanction)
    requires AllSanctioned(s, ok)
    requires step.Succeed? && step.task < |s.tasks| && s.tasks[step.task].phase.Holding? ==>
      ok(s.tasks[step.task].webhook, step.reading)
    ensures AllSanctioned(Apply(s, step), ok)
  {
    var after := Apply(s, step);
    forall t: nat | t < |after.tasks| && after.tasks[t].phase.Gating?
      ensures ok(after.tasks[t].webhook, after.tasks[t].phase.event.reading)
    {
      GatedAfter(s, step, t);
    }
    forall w: nat | w in after.events ensures ok(w, after.events[w].reading) {
      StoredAfter(s, step, w);
    }
  }

  predicate Stores(s: State, step: Pipeline.Step, w: nat, reading: Pipeline.Reading) {
    && step.Succeed? && step.task < |s.tasks| && s.tasks[step.task].phase.Holding?
    && s.tasks[step.task].webhook == w && step.reading == reading
  }

  // A reading at a gate, or in the table, was there before or has just been stored.
  lemma GatedAfter(s: State, step: Pipeline.Step, t: nat)
    requires t < |Apply(s, step).tasks| && Apply(s, step).tasks[t].phase.Gating?
    ensures var task := Apply(s, step).tasks[t];
      (t < |s.tasks| && s.tasks[t].webhook == task.webhook && s.tasks[t].phase == task.phase)
      || Stores(s, step, task.webhook, task.phase.event.reading)
  {
  }

  lemma StoredAfter(s: State, step: Pipeline.Step, w: nat)
    requires w in Apply(s, step).events
    ensures var reading := Apply(s, step).events[w].reading;
      (w in s.events && s.events[w].reading == reading) || Stores(s, step, w, reading)
  {
  }

  ghost function OwnPayload(reader: Reader, payloads: nat -> Json): Sanction {
    (w: nat, reading: Pipeline.Reading) => ReadBy(reader, w, payloads(w), reading)
  }

  // Every reading at a gate or in the table is this reader's, of the payload stored for that webhook.
  ghost predicate Sourced(reader: Reader, payloads: nat -> Json, s: State) {
    AllSanctioned(s, OwnPayload(reader, payloads))
  }

  lemma SourcedKept(reader: Reader, payloads: nat -> Json, s: State, step: Pipeline.Step)
    requires Sourced(reader, payloads, s) && !Strays(reader, payloads, s, step)
    ensures Sourced(reader, payloads, Apply(s, step))
  {
    SanctionKept(s, step, OwnPayload(reader, payloads));
  }

  ghost predicate Faithful(reader: Reader, payloads: nat -> Json, steps: seq<Pipeline.Step>) {
    forall i :: 0 <= i < |steps| ==> !Strays(reader, payloads, Run(Init(), steps[..i]), steps[i])
  }

  lemma FaithfulPrefix(reader: Reader, payloads: nat -> Json, steps: seq<Pipeline.Step>, n: nat)
    requires Faithful(reader, payloads, steps) && n <= |steps|
    ensures Faithful(reader, payloads, steps[..n])
  {
    forall i | 0 <= i < n ensures !Strays(reader, payloads, Run(Init(), steps[..n][..i]), steps[..n][i]) {
      assert steps[..n][..i] == steps[..i] && steps[..n][i] == steps[i];
    }
  }

  lemma {:induction false} SourcedOverRuns(reader: Reader, payloads: nat -> Json, steps: seq<Pipeline.Step>)
    requires Faithful(reader, payloads, steps)
    ensures Sourced(reader, payloads, Run(Init(), steps))
  {
    if steps != [] {
      var n := |steps| - 1;
      FaithfulPrefix(reader, payloads, steps, n);
      SourcedOverRuns(reader, payloads, steps[..n]);
      SourcedKept(reader, payloads, Run(Init(), steps[..n]), steps[n]);
    }
  }

  lemma EvidenceOfTime(payload: Json, c: Context)
    requires RulesBackend.TypedProfile(c.profile) && ReadWith(payload, c).Read?
    ensures Schemas.EventTimeField in ReadWith(payload, c).result.evidence.fieldsFound <==>
            RulesBackend.EventTime(c.lex, Flatten(payload, ""), c.profile, c.parse, c.now).2
  {
    var flat := Flatten(payload, "");
    var id := FirstEntry(flat, RulesBackend.IdKeys(c.lex, c.profile));
    var idKey := if id.Entry? then id.key else "";
    var typed := RulesBackend.Classify(c.lex, flat, idKey, c.profile);
    var raw := FirstValue(flat, RulesBackend.StatusKeys(c.lex, c.profile));
    RulesBackend.ClassifyMeans(c.lex, flat, idKey, c.profile);
    RulesBackend.AssembleMeans(if id.Entry? then RulesBackend.IdText(id.value) else "", typed, raw,
                               RulesBackend.StatusOf(c.lex, typed.0, raw, c.profile),
                               RulesBackend.EventTime(c.lex, flat, c.profile, c.parse, c.now), c.profile);
  }

  // A stored reading clears the default threshold exactly when nothing in it was guessed.
  lemma TrustedExactlyWhenUnguessed(payload: Json, c: Context, reading: Pipeline.Reading)
    requires RulesBackend.TypedProfile(c.profile) && ReadFrom(payload, c, reading)
    ensures reading.confidence >= RulesBackend.DEFAULT_THRESHOLD <==> Unguessed(payload, c)
  {
    RulesBackend.GateReleasesExactlyTheUnguessed(c.lex, Flatten(payload, ""), c.profile, c.parse, c.now);
    EvidenceOfTime(payload, c);
  }

  // In any run of workers that all use one reader, whatever interleaves: a promotion no person made is what
  // that very reader, with a profile in force for the webhook, makes of the webhook's own payload, and
  // nothing in it was guessed.
  lemma UnreviewedPromotionsAreUnguessed(reader: Reader, payloads: nat -> Json, steps: seq<Pipeline.Step>, i: nat)
    returns (c: Context)
    requires reader.Typed() && Faithful(reader, payloads, steps) && i < |steps| && !steps[i].Review?
    requires Promotes(Run(Init(), steps[..i]), steps[i]).Some?
    ensures var p := Promotes(Run(Init(), steps[..i]), steps[i]).value;
      && Run(Init(), steps[..i + 1]).log == Run(Init(), steps[..i]).log + [p]
      && reader.Runs(p.event, c) && Unguessed(payloads(p.event), c)
      && var r := ReadWith(payloads(p.event), c).result;
      && p.key == EntityKey(r.entityType, r.entityId) && p.status == r.canonicalStatus && p.time == r.eventTime
  {
    var s := Run(Init(), steps[..i]);
    FaithfulPrefix(reader, payloads, steps, i);
    SourcedOverRuns(reader, payloads, steps[..i]);
    assert steps[..i + 1][..i] == steps[..i] && steps[..i + 1][i] == steps[i];
    assert !Strays(reader, payloads, s, steps[i]);
    var task := s.tasks[steps[i].task];
    assert OwnPayload(reader, payloads)(task.webhook, task.phase.event.reading);
    c :| reader.Runs(task.webhook, c) && ReadFrom(payloads(task.webhook), c, task.phase.event.reading);
    TrustedExactlyWhenUnguessed(payloads(task.webhook), c, task.phase.event.reading);
    LogAfter(s, steps[i]);
  }

  // A payload the reader knows no status word for, or no time, is never promoted without a person: for
  // every profile in force and at any time, its reading is held.
  lemma GuessedPayloadsWait(reader: Reader, payloads: nat -> Json, steps: seq<Pipeline.Step>, i: nat, w: nat)
    requires reader.Typed() && Faithful(reader, payloads, steps) && i < |steps| && !steps[i].Review?
    requires forall c :: reader.Runs(w, c) ==> !Unguessed(payloads(w), c)
    ensures Promotes(Run(Init(), steps[..i]), steps[i]).Some? ==>
      Promotes(Run(Init(), steps[..i]), steps[i]).value.event != w
  {
    if Promotes(Run(Init(), steps[..i]), steps[i]).Some? {
      var c := UnreviewedPromotionsAreUnguessed(reader, payloads, steps, i);
    }
  }
}
