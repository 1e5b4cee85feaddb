/**
 Accepting deliveries at most once while several processes insert at the same time.

 A delivery probes for its key, inserts, and on a violated constraint recovers the row that was in its
 way, first by key and then by event id. Other deliveries may move between any two of these moments.
 */
module Intake {
  import opened Vocabulary
  import opened Payload
  import Keys

  datatype Row = Row(vendor: string, key: string, externalId: Option<string>)

  datatype Phase =
    | Probing
    | Inserting
    | Recovering
    | RecoveringByEvent
    | Created(row: nat)
    | Settled(row: nat, created: bool)
    | Raised
    | Lost(made: Option<nat>)

  datatype Delivery = Delivery(wanted: Row, phase: Phase)

  /** `enqueued` counts the messages sent to the worker for each row. */
  datatype State = State(rows: seq<Row>, deliveries: seq<Delivery>, enqueued: multiset<nat>)

  datatype Step = Arrive(wanted: Row) | Advance(delivery: nat) | Die(delivery: nat)

  function Init(): State {
    State([], [], multiset{})
  }

  predicate SameKey(r: Row, w: Row) {
    r.vendor == w.vendor && r.key == w.key
  }

  predicate SameEvent(r: Row, w: Row) {
    r.vendor == w.vendor && r.externalId.Some? && r.externalId == w.externalId
  }

  // The two rows cannot both be in the table.
  predicate Clash(r: Row, w: Row) {
    SameKey(r, w) || SameEvent(r, w)
  }

  // The position of the first row that satisfies the test, or -1.
  function Position(rows: seq<Row>, test: Row -> bool): (r: int)
    ensures -1 <= r < |rows|
    ensures r >= 0 ==> test(rows[r]) && forall k :: 0 <= k < r ==> !test(rows[k])
    ensures r < 0 ==> forall k :: 0 <= k < |rows| ==> !test(rows[k])
  {
    if rows == [] then -1
    else
      var front := Position(rows[..|rows| - 1], test);
      if front >= 0 then front else if test(rows[|rows| - 1]) then |rows| - 1 else -1
  }

  function ByKey(rows: seq<Row>, w: Row): int {
    Position(rows, r => SameKey(r, w))
  }

  function ByEvent(rows: seq<Row>, w: Row): int {
    Position(rows, r => SameEvent(r, w))
  }

  predicate Violates(rows: seq<Row>, w: Row) {
    ByKey(rows, w) >= 0 || ByEvent(rows, w) >= 0
  }

  function Truthy(text: Option<string>): bool {
    text.Some? && text.value != ""
  }

  function NextPhase(rows: seq<Row>, d: Delivery): Phase {
    match d.phase
    case Probing => if ByKey(rows, d.wanted) >= 0 then Settled(ByKey(rows, d.wanted), false) else Inserting
    case Inserting => if Violates(rows, d.wanted) then Recovering else Created(|rows|)
    case Recovering =>
      if ByKey(rows, d.wanted) >= 0 then Settled(ByKey(rows, d.wanted), false)
      else if Truthy(d.wanted.externalId) then RecoveringByEvent
      else Raised
    case RecoveringByEvent =>
      if ByEvent(rows, d.wanted) >= 0 then Settled(ByEvent(rows, d.wanted), false) else Raised
    case Created(row) => Settled(row, true)
    case _ => d.phase
  }

  function ApplyAdvance(s: State, i: nat): State {
    if i >= |s.deliveries| then s
    else
      var d := s.deliveries[i];
      var next := NextPhase(s.rows, d);
      State(if d.phase.Inserting? && next.Created? then s.rows + [d.wanted] else s.rows,
            s.deliveries[i := d.(phase := next)],
            if d.phase.Created? then s.enqueued + multiset{d.phase.row} else s.enqueued)
  }

  predicate Finished(p: Phase) {
    p.Settled? || p.Raised? || p.Lost?
  }

  // The process disappears; a row it has committed stays.
  function ApplyDie(s: State, i: nat): State {
    if i >= |s.deliveries| || Finished(s.deliveries[i].phase) then s
    else
      var p := s.deliveries[i].phase;
      s.(deliveries := s.deliveries[i := s.deliveries[i].(phase := Lost(if p.Created? then Some(p.row) else None))])
  }

  function Apply(s: State, step: Step): State {
    match step
    case Arrive(w) => s.(deliveries := s.deliveries + [Delivery(w, Probing)])
    case Advance(i) => ApplyAdvance(s, i)
    case Die(i) => ApplyDie(s, i)
  }

  function Run(s: State, steps: seq<Step>): State {
    if steps == [] then s else Apply(Run(s, steps[..|steps| - 1]), steps[|steps| - 1])
  }

  // -- what every step keeps ----------------------------------------------------------------------

  ghost predicate Unique(rows: seq<Row>) {
    forall i, j :: 0 <= i < j < |rows| ==> !Clash(rows[i], rows[j])
  }

  ghost predicate Matched(rows: seq<Row>, w: Row) {
    exists i :: 0 <= i < |rows| && Clash(rows[i], w)
  }

  ghost predicate MatchedByEvent(rows: seq<Row>, w: Row) {
    exists i :: 0 <= i < |rows| && SameEvent(rows[i], w)
  }

  // Recovery is entered only with a row in the way; the row answered is one that clashes.
  ghost predicate Grounded(rows: seq<Row>, d: Delivery) {
    match d.phase
    case Recovering => Matched(rows, d.wanted)
    case RecoveringByEvent => MatchedByEvent(rows, d.wanted)
    case Created(row) => row < |rows| && rows[row] == d.wanted
    case Settled(row, created) =>
      row < |rows| && (if created then rows[row] == d.wanted else Clash(rows[row], d.wanted))
    case Lost(made) => made.Some? ==> made.value < |rows| && rows[made.value] == d.wanted
    case Raised => d.wanted.externalId == Some("") && Matched(rows, d.wanted)
    case _ => true
  }

  predicate Made(s: State, i: nat, row: nat) {
    i < |s.deliveries| && s.deliveries[i].phase in {Created(row), Settled(row, true), Lost(Some(row))}
  }

  ghost predicate HasMaker(s: State, row: nat) {
    exists i: nat :: Made(s, i, row)
  }

  // Every row was made by exactly one delivery, and enqueued once that delivery has settled.
  ghost predicate Attributed(s: State) {
    && (forall r: nat :: r < |s.rows| ==> HasMaker(s, r))
    && (forall i: nat, j: nat, r: nat :: Made(s, i, r) && Made(s, j, r) ==> i == j)
    && (forall i: nat, r: nat :: Made(s, i, r) ==>
          r < |s.rows| && s.enqueued[r] == (if s.deliveries[i].phase.Settled? then 1 else 0))
    && (forall r: nat :: r >= |s.rows| ==> s.enqueued[r] == 0)
  }

  ghost predicate AllGrounded(s: State) {
    forall i :: 0 <= i < |s.deliveries| ==> Grounded(s.rows, s.deliveries[i])
  }

  ghost predicate Sound(s: State) {
    Unique(s.rows) && AllGrounded(s) && Attributed(s)
  }

  lemma ViolatesMeans(rows: seq<Row>, w: Row)
    ensures Violates(rows, w) <==> Matched(rows, w)
    ensures ByEvent(rows, w) >= 0 <==> MatchedByEvent(rows, w)
  {
    if Matched(rows, w) {
      var i :| 0 <= i < |rows| && Clash(rows[i], w);
    }
    if ByKey(rows, w) >= 0 { assert Clash(rows[ByKey(rows, w)], w); }
    if ByEvent(rows, w) >= 0 { assert Clash(rows[ByEvent(rows, w)], w); }
  }

  lemma GroundedGrows(rows: seq<Row>, more: seq<Row>, d: Delivery)
    requires rows <= more && Grounded(rows, d)
    ensures Grounded(more, d)
  {
  }

  lemma RowsGrow(s: State, step: Step)
    ensures s.rows <= Apply(s, step).rows
  {
  }

  lemma AdvanceGrounded(s: State, i: nat)
    requires i < |s.deliveries| && Grounded(s.rows, s.deliveries[i])
    ensures Grounded(ApplyAdvance(s, i).rows, ApplyAdvance(s, i).deliveries[i])
  {
    var d := s.deliveries[i];
    ViolatesMeans(s.rows, d.wanted);
    if d.phase.Recovering? && ByKey(s.rows, d.wanted) < 0 {
      var k :| 0 <= k < |s.rows| && Clash(s.rows[k], d.wanted);
      assert SameEvent(s.rows[k], d.wanted);
    }
  }

  lemma GroundedKept(s: State, step: Step)
    requires AllGrounded(s)
    ensures AllGrounded(Apply(s, step))
  {
    var after := Apply(s, step);
    RowsGrow(s, step);
    forall i | 0 <= i < |after.deliveries| ensures Grounded(after.rows, after.deliveries[i]) {
      if step.Advance? && step.delivery == i {
        AdvanceGrounded(s, i);
      } else if i < |s.deliveries| && after.deliveries[i] == s.deliveries[i] {
        GroundedGrows(s.rows, after.rows, s.deliveries[i]);
      }
    }
  }

  lemma UniqueKept(s: State, step: Step)
    requires Unique(s.rows)
    ensures Unique(Apply(s, step).rows)
  {
    if step.Advance? && step.delivery < |s.deliveries| {
      ViolatesMeans(s.rows, s.deliveries[step.delivery].wanted);
    }
  }

  predicate Makes(s: State, step: Step, i: nat, r: nat) {
    && step == Advance(i) && i < |s.deliveries| && s.deliveries[i].phase.Inserting?
    && !Violates(s.rows, s.deliveries[i].wanted) && r == |s.rows|
  }

  lemma MadeAfter(s: State, step: Step, i: nat, r: nat)
    ensures Made(Apply(s, step), i, r) <==> Made(s, i, r) || Makes(s, step, i, r)
  {
  }

  lemma RowsAfter(s: State, step: Step)
    ensures |Apply(s, step).rows| == |s.rows| + (if step.Advance? && Makes(s, step, step.delivery, |s.rows|) then 1 else 0)
  {
  }

  predicate Enqueues(s: State, step: Step, r: nat) {
    step.Advance? && step.delivery < |s.deliveries| && s.deliveries[step.delivery].phase == Created(r)
  }

  lemma EnqueuedAfter(s: State, step: Step, r: nat)
    ensures Apply(s, step).enqueued[r] == s.enqueued[r] + (if Enqueues(s, step, r) then 1 else 0)
    ensures Enqueues(s, step, r) ==> Made(s, step.delivery, r)
  {
  }

  lemma SettlesAfter(s: State, step: Step, i: nat, r: nat)
    requires Made(s, i, r)
    ensures Made(Apply(s, step), i, r)
    ensures Apply(s, step).deliveries[i].phase.Settled? <==>
      s.deliveries[i].phase.Settled? || (step == Advance(i) && Enqueues(s, step, r))
  {
  }

  lemma EnqueuedOnce(s: State, step: Step, i: nat, r: nat)
    requires Attributed(s) && Made(Apply(s, step), i, r)
    ensures r < |Apply(s, step).rows|
    ensures Apply(s, step).enqueued[r] == (if Apply(s, step).deliveries[i].phase.Settled? then 1 else 0)
  {
    MadeAfter(s, step, i, r);
    EnqueuedAfter(s, step, r);
    RowsAfter(s, step);
    if Made(s, i, r) {
      SettlesAfter(s, step, i, r);
    }
  }

  lemma AttributedKept(s: State, step: Step)
    requires Attributed(s)
    ensures Attributed(Apply(s, step))
  {
    var after := Apply(s, step);
    RowsAfter(s, step);
    forall r: nat | r < |after.rows| ensures HasMaker(after, r) {
      if r < |s.rows| {
        assert HasMaker(s, r);
        var i: nat :| Made(s, i, r);
        MadeAfter(s, step, i, r);
      } else {
        MadeAfter(s, step, step.delivery, r);
      }
    }
    forall i: nat, j: nat, r: nat | Made(after, i, r) && Made(after, j, r) ensures i == j {
      MadeAfter(s, step, i, r);
      MadeAfter(s, step, j, r);
    }
    forall i: nat, r: nat | Made(after, i, r)
      ensures r < |after.rows| && after.enqueued[r] == (if after.deliveries[i].phase.Settled? then 1 else 0)
    {
      EnqueuedOnce(s, step, i, r);
    }
    forall r: nat | r >= |after.rows| ensures after.enqueued[r] == 0 {
      EnqueuedAfter(s, step, r);
    }
  }

  lemma SoundKept(s: State, step: Step)
    requires Sound(s)
    ensures Sound(Apply(s, step))
  {
    UniqueKept(s, step);
    GroundedKept(s, step);
    AttributedKept(s, step);
  }

  // However deliveries interleave and processes die: no two rows clash, every answer is a row that is
  // the delivery's own or clashes with it, and every row is enqueued once by the delivery that made it.
  lemma {:induction false} IntakeOverRuns(steps: seq<Step>)
    ensures Sound(Run(Init(), steps))
  {
    if steps != [] {
      IntakeOverRuns(steps[..|steps| - 1]);
      SoundKept(Run(Init(), steps[..|steps| - 1]), steps[|steps| - 1]);
    }
  }

  // Recovery comes away empty-handed exactly for a delivery whose event id is the empty text and whose
  // key no row has: such an id takes part in the constraint but not in the lookup.
  lemma RecoveryFailsExactly(rows: seq<Row>, d: Delivery)
    requires Grounded(rows, d) && (d.phase.Recovering? || d.phase.RecoveringByEvent?)
    ensures NextPhase(rows, d).Raised? <==>
      d.phase.Recovering? && ByKey(rows, d.wanted) < 0 && d.wanted.externalId == Some("")
  {
    ViolatesMeans(rows, d.wanted);
    if d.phase.Recovering? && ByKey(rows, d.wanted) < 0 {
      var k :| 0 <= k < |rows| && Clash(rows[k], d.wanted);
      assert SameEvent(rows[k], d.wanted);
    }
  }

  // Two deliveries under different keys with the empty text for an event id: the second is refused with
  // an error although its row was made.
  lemma AnEmptyEventIdIsRefused(vendor: string, k: string, other: string)
    requires k != other
    ensures var first, second := Row(vendor, k, Some("")), Row(vendor, other, Some(""));
      var s := Apply(Apply(Apply(Init(), Arrive(first)), Advance(0)), Advance(0));
      var t := Apply(Apply(Apply(Apply(s, Arrive(second)), Advance(1)), Advance(1)), Advance(1));
      && s.deliveries[0].phase == Created(0) && s.rows == [first]
      && t.deliveries[1].phase.Raised? && t.rows == [first]
  {
    var first, second := Row(vendor, k, Some("")), Row(vendor, other, Some(""));
    var s := Apply(Apply(Apply(Init(), Arrive(first)), Advance(0)), Advance(0));
    assert s.deliveries == [Delivery(first, Created(0))] && s.rows == [first];
    var probed := Apply(Apply(s, Arrive(second)), Advance(1));
    assert probed.deliveries == [Delivery(first, Created(0)), Delivery(second, Inserting)] && probed.rows == [first];
    assert SameEvent(probed.rows[0], second) && !SameKey(probed.rows[0], second);
    var refused := Apply(probed, Advance(1));
    assert refused.deliveries == [Delivery(first, Created(0)), Delivery(second, Recovering)];
  }

  // -- redelivery -----------------------------------------------------------------------------------

  // Once some row clashes with a delivery, it goes on to create nothing, whatever the others do.
  lemma {:induction false} MatchedCreatesNothing(s: State, steps: seq<Step>, i: nat)
    requires i < |s.deliveries| && Matched(s.rows, s.deliveries[i].wanted)
    requires forall r: nat :: !Made(s, i, r)
    ensures var after := Run(s, steps);
      && i < |after.deliveries| && after.deliveries[i].wanted == s.deliveries[i].wanted
      && Matched(after.rows, s.deliveries[i].wanted)
      && forall r: nat :: !Made(after, i, r)
  {
    if steps != [] {
      var n := |steps| - 1;
      MatchedCreatesNothing(s, steps[..n], i);
      var before := Run(s, steps[..n]);
      RowsGrow(before, steps[n]);
      ViolatesMeans(before.rows, s.deliveries[i].wanted);
      forall r: nat ensures !Made(Apply(before, steps[n]), i, r) {
        MadeAfter(before, steps[n], i, r);
      }
    }
  }

  // A move of such a delivery touches neither the table nor the queue.
  lemma MatchedMovesNothing(s: State, i: nat)
    requires i < |s.deliveries| && Matched(s.rows, s.deliveries[i].wanted)
    requires forall r: nat :: !Made(s, i, r)
    ensures ApplyAdvance(s, i).rows == s.rows && ApplyAdvance(s, i).enqueued == s.enqueued
  {
    ViolatesMeans(s.rows, s.deliveries[i].wanted);
    assert s.deliveries[i].phase.Created? ==> Made(s, i, s.deliveries[i].phase.row);
  }

  // A delivery that was ever answered, delivered again: its row is still there, and in any continuation the
  // repeat makes no row, and none of its moves puts a row in the table or a message in the queue.
  lemma RedeliveryIsAbsorbed(s: State, i: nat, steps: seq<Step>)
    requires Sound(s) && i < |s.deliveries| && s.deliveries[i].phase.Settled?
    ensures var again, n := Apply(s, Arrive(s.deliveries[i].wanted)), |s.deliveries|;
      && again.rows == s.rows && again.enqueued == s.enqueued && n < |Run(again, steps).deliveries|
      && (forall r: nat :: !Made(Run(again, steps), n, r))
      && (forall k :: 0 <= k < |steps| && steps[k] == Advance(n) ==>
            && Run(again, steps[..k + 1]).rows == Run(again, steps[..k]).rows
            && Run(again, steps[..k + 1]).enqueued == Run(again, steps[..k]).enqueued)
  {
    var d, n := s.deliveries[i], |s.deliveries|;
    var again := Apply(s, Arrive(d.wanted));
    assert Grounded(s.rows, d);
    assert Clash(s.rows[d.phase.row], d.wanted);
    MatchedCreatesNothing(again, steps, n);
    forall k | 0 <= k < |steps| && steps[k] == Advance(n)
      ensures Run(again, steps[..k + 1]).rows == Run(again, steps[..k]).rows
      ensures Run(again, steps[..k + 1]).enqueued == Run(again, steps[..k]).enqueued
    {
      MatchedCreatesNothing(again, steps[..k], n);
      MatchedMovesNothing(Run(again, steps[..k]), n);
      assert steps[..k + 1][..k] == steps[..k];
    }
  }

  // -- a row whose process died before sending its message ---------------------------------------------

  lemma {:induction false} LostStays(s: State, i: nat, r: nat, steps: seq<Step>)
    requires i < |s.deliveries| && s.deliveries[i].phase == Lost(Some(r))
    ensures i < |Run(s, steps).deliveries| && Run(s, steps).deliveries[i] == s.deliveries[i]
  {
    if steps != [] {
      LostStays(s, i, r, steps[..|steps| - 1]);
    }
  }

  lemma {:induction false} SoundRun(s: State, steps: seq<Step>)
    requires Sound(s)
    ensures Sound(Run(s, steps))
  {
    if steps != [] {
      SoundRun(s, steps[..|steps| - 1]);
      SoundKept(Run(s, steps[..|steps| - 1]), steps[|steps| - 1]);
    }
  }

  // Its row stays in the table and is never enqueued, in any continuation; and whoever delivers the same
  // again is absorbed by it.
  lemma ALostRowIsNeverEnqueued(s: State, i: nat, r: nat, steps: seq<Step>)
    requires Sound(s) && i < |s.deliveries| && s.deliveries[i].phase == Lost(Some(r))
    ensures var after := Run(s, steps);
      r < |after.rows| && after.rows[r] == s.deliveries[i].wanted && after.enqueued[r] == 0
  {
    LostStays(s, i, r, steps);
    SoundRun(s, steps);
    assert Made(Run(s, steps), i, r);
    assert Grounded(Run(s, steps).rows, Run(s, steps).deliveries[i]);
  }

  // An insert, and then a crash: the event is accepted and lost.
  lemma ARowCanBeLost(w: Row)
    ensures var s := Apply(Apply(Apply(Apply(Init(), Arrive(w)), Advance(0)), Advance(0)), Die(0));
      s.rows == [w] && s.enqueued == multiset{} && s.deliveries == [Delivery(w, Lost(Some(0)))]
  {
    var probed := Apply(Apply(Init(), Arrive(w)), Advance(0));
    assert probed.deliveries == [Delivery(w, Inserting)] && probed.rows == [];
    var made := Apply(probed, Advance(0));
    assert made.deliveries == [Delivery(w, Created(0))] && made.rows == [w];
  }

  // -- progress ---------------------------------------------------------------------------------------

  function Remaining(p: Phase): nat {
    match p
    case Probing => 4
    case Inserting => 3
    case Recovering => 2
    case RecoveringByEvent => 1
    case Created(_) => 1
    case _ => 0
  }

  lemma FourMovesSettle(s: State, i: nat)
    requires i < |s.deliveries| && !Finished(s.deliveries[i].phase)
    ensures Remaining(ApplyAdvance(s, i).deliveries[i].phase) < Remaining(s.deliveries[i].phase) <= 4
    ensures Finished(ApplyAdvance(s, i).deliveries[i].phase) <==> Remaining(ApplyAdvance(s, i).deliveries[i].phase) == 0
  {
  }

  function Advanced(s: State, i: nat, moves: nat): (after: State)
    ensures |after.deliveries| == |s.deliveries|
  {
    if moves == 0 then s else ApplyAdvance(Advanced(s, i, moves - 1), i)
  }

  function At(s: State, i: nat, phase: Phase): State
    requires i < |s.deliveries|
  {
    s.(deliveries := s.deliveries[i := s.deliveries[i].(phase := phase)])
  }

  // A move that makes no row and sends no message changes the delivery's own phase alone.
  lemma MovesFrom(s: State, i: nat, p: Phase)
    requires i < |s.deliveries| && !p.Created?
    ensures var next := NextPhase(s.rows, s.deliveries[i].(phase := p));
      !next.Created? ==> ApplyAdvance(At(s, i, p), i) == At(s, i, next)
  {
  }

  lemma FourMoves(s: State, i: nat)
    ensures Advanced(s, i, 4) == ApplyAdvance(ApplyAdvance(ApplyAdvance(ApplyAdvance(s, i), i), i), i)
  {
    assert Advanced(s, i, 0) == s;
    assert Advanced(s, i, 1) == ApplyAdvance(s, i);
    assert Advanced(s, i, 2) == ApplyAdvance(ApplyAdvance(s, i), i);
    assert Advanced(s, i, 3) == ApplyAdvance(ApplyAdvance(ApplyAdvance(s, i), i), i);
  }

  // Left alone, a delivery whose key some row has settles on that row.
  lemma LeftAloneItIsFound(s: State, i: nat)
    requires i < |s.deliveries| && s.deliveries[i].phase.Probing? && ByKey(s.rows, s.deliveries[i].wanted) >= 0
    ensures Advanced(s, i, 4) == At(s, i, Settled(ByKey(s.rows, s.deliveries[i].wanted), false))
  {
    var end := Settled(ByKey(s.rows, s.deliveries[i].wanted), false);
    MovesFrom(s, i, Probing);
    MovesFrom(s, i, end);
    assert At(s, i, Probing) == s;
    FourMoves(s, i);
  }

  // One that clashes by its event id alone settles on the row that has the id, or is refused, as said above.
  lemma LeftAloneItIsMatched(s: State, i: nat)
    requires i < |s.deliveries| && s.deliveries[i].phase.Probing?
    requires ByKey(s.rows, s.deliveries[i].wanted) < 0 && MatchedByEvent(s.rows, s.deliveries[i].wanted)
    ensures var w := s.deliveries[i].wanted;
      && ByEvent(s.rows, w) >= 0 && SameEvent(s.rows[ByEvent(s.rows, w)], w)
      && Advanced(s, i, 4) == At(s, i, if w.externalId == Some("") then Raised else Settled(ByEvent(s.rows, w), false))
  {
    var w := s.deliveries[i].wanted;
    ViolatesMeans(s.rows, w);
    RecoversAlone(s, i);
    FourMoves(s, i);
    EndsRecovery(s, i);
  }

  lemma EndsRecovery(s: State, i: nat)
    requires i < |s.deliveries|
    requires ByKey(s.rows, s.deliveries[i].wanted) < 0 && ByEvent(s.rows, s.deliveries[i].wanted) >= 0
    ensures var w := s.deliveries[i].wanted;
      ApplyAdvance(ApplyAdvance(At(s, i, Recovering), i), i) ==
      At(s, i, if w.externalId == Some("") then Raised else Settled(ByEvent(s.rows, w), false))
  {
    MovesFrom(s, i, Recovering);
    if s.deliveries[i].wanted.externalId == Some("") {
      MovesFrom(s, i, Raised);
    } else {
      MovesFrom(s, i, RecoveringByEvent);
    }
  }

  lemma RecoversAlone(s: State, i: nat)
    requires i < |s.deliveries| && s.deliveries[i].phase.Probing?
    requires ByKey(s.rows, s.deliveries[i].wanted) < 0 && ByEvent(s.rows, s.deliveries[i].wanted) >= 0
    ensures ApplyAdvance(ApplyAdvance(s, i), i) == At(s, i, Recovering)
  {
    MovesFrom(s, i, Probing);
    MovesFrom(s, i, Inserting);
    assert At(s, i, Probing) == s;
  }

  // And one that no row clashes with makes its row, and one message for it.
  lemma LeftAloneItIsCreated(s: State, i: nat)
    requires i < |s.deliveries| && s.deliveries[i].phase.Probing? && !Matched(s.rows, s.deliveries[i].wanted)
    ensures var n := |s.rows|;
      Advanced(s, i, 4) ==
      At(s, i, Settled(n, true)).(rows := s.rows + [s.deliveries[i].wanted], enqueued := s.enqueued + multiset{n})
  {
    var n, w := |s.rows|, s.deliveries[i].wanted;
    ViolatesMeans(s.rows, w);
    MovesFrom(s, i, Probing);
    assert At(s, i, Probing) == s;
    FourMoves(s, i);
    var made := At(s, i, Created(n)).(rows := s.rows + [w]);
    assert ApplyAdvance(At(s, i, Inserting), i) == made;
    var done := At(made, i, Settled(n, true)).(enqueued := s.enqueued + multiset{n});
    assert ApplyAdvance(made, i) == done;
    assert ApplyAdvance(done, i) == done;
  }

  // -- the table ----------------------------------------------------------------------------------------

  datatype CreateResult = Accepted(row: nat, created: bool) | IntegrityError

  class RawWebhooks {
    var rows: seq<Row>
    var enqueued: multiset<nat>

    ghost predicate Valid()
      reads this
    {
      Unique(rows)
    }

    constructor ()
      ensures Valid() && rows == [] && enqueued == multiset{}
    {
      rows, enqueued := [], multiset{};
    }

    method Insert(w: Row) returns (row: Option<nat>)
      requires Valid()
      modifies this`rows
      ensures Valid()
      ensures row.None? <==> Matched(old(rows), w)
      ensures rows == if row.Some? then old(rows) + [w] else old(rows)
      ensures row.Some? ==> row.value == |old(rows)|
    {
      ViolatesMeans(rows, w);
      if ByKey(rows, w) >= 0 || ByEvent(rows, w) >= 0 {
        return None;
      }
      row := Some(|rows|);
      rows := rows + [w];
    }

    // Undisturbed: a row is made exactly when none clashes; otherwise the one with the same key answers,
    // or failing that the one with the same event id.
    method CreateOrGet(w: Row) returns (r: CreateResult)
      requires Valid()
      modifies this`rows
      ensures Valid()
      ensures r.IntegrityError? <==>
        ByKey(old(rows), w) < 0 && MatchedByEvent(old(rows), w) && w.externalId == Some("")
      ensures r.Accepted? ==> r.created == !Matched(old(rows), w) && r.row < |rows| && Clash(rows[r.row], w)
      ensures rows == if r.Accepted? && r.created then old(rows) + [w] else old(rows)
      ensures r.Accepted? && ByKey(old(rows), w) >= 0 ==> SameKey(rows[r.row], w)
    {
      ViolatesMeans(rows, w);
      var probe := ByKey(rows, w);
      if probe >= 0 {
        return Accepted(probe, false);
      }
      var inserted := Insert(w);
      if inserted.Some? {
        return Accepted(inserted.value, true);
      }
      var found := ByKey(rows, w);
      if found < 0 && Truthy(w.externalId) {
        found := ByEvent(rows, w);
      }
      if found < 0 {
        return IntegrityError;
      }
      return Accepted(found, false);
    }

    // Accepting a payload never fails, and sends one message exactly when it made a row.
    method Ingest(host: Keys.Host, vendor: string, payload: Json, supplied: Option<string>)
      returns (row: nat, created: bool)
      requires Valid()
      modifies this
      ensures Valid()
      ensures row < |rows| && Clash(rows[row], WantedRow(host, vendor, payload, supplied))
      ensures created == !Matched(old(rows), WantedRow(host, vendor, payload, supplied))
      ensures rows == old(rows) + (if created then [WantedRow(host, vendor, payload, supplied)] else [])
      ensures enqueued == old(enqueued) + (if created then multiset{row} else multiset{})
      ensures created ==> row == |old(rows)|
    {
      var externalId := Keys.ExternalEventId(host, payload, Keys.KNOWN_EVENT_ID_KEYS);
      var key := Keys.IdempotencyKey(host, vendor, payload, externalId, supplied);
      var i, text := Keys.ExternalEventIdMeans(host, payload, Keys.KNOWN_EVENT_ID_KEYS);
      var r := CreateOrGet(Row(vendor, key, externalId));
      row, created := r.row, r.created;
      if created {
        enqueued := enqueued + multiset{row};
      }
    }
  }

  // The row a delivery asks for.
  function WantedRow(host: Keys.Host, vendor: string, payload: Json, supplied: Option<string>): Row {
    var externalId := Keys.ExternalEventId(host, payload, Keys.KNOWN_EVENT_ID_KEYS);
    Row(vendor, Keys.IdempotencyKey(host, vendor, payload, externalId, supplied), externalId)
  }

  function EventId(host: Keys.Host, payload: Json): Option<string> {
    Keys.ExternalEventId(host, payload, Keys.KNOWN_EVENT_ID_KEYS)
  }

  function LongKey(host: Keys.Host, vendor: string, payload: Json, supplied: Option<string>): string {
    Keys.RawKey(vendor, Keys.IdentityOf(host, payload, EventId(host, payload), supplied))
  }

  // Neither key, before it is fitted to its column, is the fitted form of the other.
  predicate NoMasquerade(host: Keys.Host, x: string, y: string) {
    !Keys.Masquerades(host.digest, x, y) && !Keys.Masquerades(host.digest, y, x)
  }

  // Two deliveries share a row exactly when one vendor sends both and they say that they are the same event,
  // by header, then event id, then payload, or carry the same event id; masquerading keys are the one exception.
  lemma DeliveriesShareARowExactly(host: Keys.Host, vendor: string, a: Json, h: Option<string>,
                                   other: string, b: Json, k: Option<string>)
    requires host.Sized() && Keys.Apart(host, host.serialize(a), host.serialize(b))
    requires Keys.Apart(host, LongKey(host, vendor, a, h), LongKey(host, other, b, k))
    ensures Clash(WantedRow(host, vendor, a, h), WantedRow(host, other, b, k)) <==>
      && vendor == other
      && (|| Keys.SameEventSent(host, a, EventId(host, a), h, b, EventId(host, b), k)
          || (EventId(host, a).Some? && EventId(host, a) == EventId(host, b))
          || !NoMasquerade(host, LongKey(host, vendor, a, h), LongKey(host, vendor, b, k)))
  {
    EventIdsNotEmpty(host, a);
    EventIdsNotEmpty(host, b);
    Keys.SameIdentityExactly(host, a, EventId(host, a), h, b, EventId(host, b), k);
    if vendor == other {
      var v, w := Keys.IdentityOf(host, a, EventId(host, a), h), Keys.IdentityOf(host, b, EventId(host, b), k);
      Keys.RawKeysDistinguish(vendor, v, w);
      Keys.KeysCoincideExactly(host, vendor, v, w);
    }
  }

  lemma EventIdsNotEmpty(host: Keys.Host, payload: Json)
    ensures EventId(host, payload) != Some("")
  {
    var i, text := Keys.ExternalEventIdMeans(host, payload, Keys.KNOWN_EVENT_ID_KEYS);
  }

  // With nothing but the payload to go by, and a vendor name that fits its column, there is no exception:
  // one row if and only if the payloads serialise alike.
  lemma UnnamedDeliveriesShareARowExactly(host: Keys.Host, vendor: string, a: Json, h: Option<string>, b: Json, k: Option<string>)
    requires host.Sized() && Keys.Apart(host, host.serialize(a), host.serialize(b)) && |vendor| <= 128
    requires Keys.HeaderSent(h).None? && Keys.HeaderSent(k).None? && EventId(host, a).None? && EventId(host, b).None?
    ensures Clash(WantedRow(host, vendor, a, h), WantedRow(host, vendor, b, k)) <==> host.serialize(a) == host.serialize(b)
  {
    var x, y := host.digest(host.serialize(a)), host.digest(host.serialize(b));
    assert |x| == |y| == 64;
    Keys.SamePrefix("payload:" + vendor + ":", x, y);
  }
}
