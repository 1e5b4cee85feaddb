/**
 The latest-state projection: one row per entity, replaced only by a strictly newer event.

 The ghost log records every promotion as the event stood when it was promoted; a later replay may
 rewrite the event row, so the projection is compared with the log and not with current rows.
 */
module Entities {
  import opened Vocabulary

  datatype EntityKey = EntityKey(entityType: EntityType, entityId: string)

  datatype EntityRow = EntityRow(status: Status, time: int, event: nat)

  datatype Promotion = Promotion(key: EntityKey, status: Status, time: int, event: nat, generation: nat)

  type Rows = map<EntityKey, EntityRow>

  function RowOf(p: Promotion): EntityRow {
    EntityRow(p.status, p.time, p.event)
  }

  function Upserted(rows: Rows, p: Promotion): Rows {
    if p.key !in rows || p.time > rows[p.key].time then rows[p.key := RowOf(p)] else rows
  }

  function Replayed(log: seq<Promotion>): Rows {
    if log == [] then map[] else Upserted(Replayed(log[..|log| - 1]), log[|log| - 1])
  }

  class EntityStates {
    var rows: Rows
    ghost var log: seq<Promotion>

    ghost predicate Valid()
      reads this
    {
      rows == Replayed(log)
    }

    constructor ()
      ensures Valid() && rows == map[] && log == []
    {
      rows, log := map[], [];
    }

    method UpsertIfNewer(p: Promotion) returns (row: EntityRow)
      requires Valid()
      modifies this
      ensures Valid() && log == old(log) + [p]
      ensures rows == Upserted(old(rows), p) && p.key in rows && row == rows[p.key]
    {
      log := log + [p];
      assert log[..|log| - 1] == old(log);
      if p.key !in rows {
        row := EntityRow(p.status, p.time, p.event);
        rows := rows[p.key := row];
        return;
      }
      row := rows[p.key];
      if p.time > row.time {
        row := row.(status := p.status, time := p.time, event := p.event);
        rows := rows[p.key := row];
      }
    }
  }

  // The first promotion of the entity with the greatest event time.
  ghost predicate FirstNewest(log: seq<Promotion>, key: EntityKey, i: nat) {
    && i < |log| && log[i].key == key
    && (forall j :: 0 <= j < |log| && log[j].key == key ==> log[j].time <= log[i].time)
    && (forall j :: 0 <= j < i && log[j].key == key ==> log[j].time < log[i].time)
  }

  ghost predicate Promoted(log: seq<Promotion>, key: EntityKey) {
    exists i :: 0 <= i < |log| && log[i].key == key
  }

  // An entity has a row exactly when it was promoted, and the row is its first newest promotion.
  lemma {:induction false} RowIsFirstNewest(log: seq<Promotion>, key: EntityKey) returns (i: nat)
    ensures key in Replayed(log) <==> Promoted(log, key)
    ensures key in Replayed(log) ==> FirstNewest(log, key, i) && Replayed(log)[key] == EntityRow(log[i].status, log[i].time, log[i].event)
  {
    i := 0;
    if log != [] {
      var n := |log| - 1;
      var front := log[..n];
      i := RowIsFirstNewest(front, key);
      assert forall k :: 0 <= k < n ==> log[k] == front[k];
      if log[n].key == key && (key !in Replayed(front) || log[n].time > Replayed(front)[key].time) {
        i := n;
      }
      if Promoted(log, key) && log[n].key != key {
        var k :| 0 <= k < |log| && log[k].key == key;
        assert front[k].key == key;
      }
    }
  }

  // Promoting never takes a row away or moves it back in time.
  lemma UpsertMonotone(rows: Rows, p: Promotion, key: EntityKey)
    requires key in rows
    ensures key in Upserted(rows, p) && rows[key].time <= Upserted(rows, p)[key].time
    ensures Upserted(rows, p)[key] != rows[key] ==> p.key == key && p.time > rows[key].time
  {
  }

  ghost predicate DistinctTimes(log: seq<Promotion>, key: EntityKey) {
    forall i, j | 0 <= i < |log| && 0 <= j < |log| && log[i].key == key && log[j].key == key ::
      log[i].time == log[j].time ==> RowOf(log[i]) == RowOf(log[j])
  }

  // Two histories with the same promotions, in whatever order, agree on which entities exist and how
  // recent they are; where equal times carry equal contents they agree on the whole row.
  lemma PromotionOrderDoesNotMatter(a: seq<Promotion>, b: seq<Promotion>, key: EntityKey)
    requires multiset(a) == multiset(b)
    ensures key in Replayed(a) <==> key in Replayed(b)
    ensures key in Replayed(a) ==> Replayed(a)[key].time == Replayed(b)[key].time
    ensures key in Replayed(a) && DistinctTimes(a, key) ==> Replayed(a)[key] == Replayed(b)[key]
  {
    var i := RowIsFirstNewest(a, key);
    var j := RowIsFirstNewest(b, key);
    forall p ensures p in a <==> p in b {
      assert p in multiset(a) <==> p in multiset(b);
    }
    if Promoted(a, key) {
      var k :| 0 <= k < |a| && a[k].key == key;
      assert a[k] in b;
    }
    if Promoted(b, key) {
      var k :| 0 <= k < |b| && b[k].key == key;
      assert b[k] in a;
      assert a[i] in b && b[j] in a;
    }
  }
}
