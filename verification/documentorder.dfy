/**
 Which of several fields of one name a lookup answers: the flattening lists the paths in the order of the
 document, so it is the first.
 */
module DocumentOrder {
  import opened Text
  import opened Ordering
  import opened OrderedDict
  import opened Payload

  // The place of a step among its siblings, and what lies below it.
  function Place(j: Json, step: Step): int {
    match step
    case Key(k) => if j.Object? then Find(j.fields, k) else -1
    case Index(i) => i
  }

  predicate Enters(j: Json, step: Step) {
    match step
    case Key(k) => j.Object? && Find(j.fields, k) >= 0
    case Index(i) => j.List? && i < |j.items|
  }

  function Below(j: Json, step: Step): Json
    requires Enters(j, step)
  {
    match step
    case Key(k) => j.fields[Find(j.fields, k)].value
    case Index(i) => j.items[i]
  }

  // Where the two addresses part, the first takes the earlier place.
  predicate Precedes(j: Json, p: seq<Step>, q: seq<Step>)
    decreases |p|
  {
    && p != [] && q != [] && Enters(j, p[0]) && Enters(j, q[0])
    && if p[0] == q[0] then Precedes(Below(j, p[0]), p[1..], q[1..]) else Place(j, p[0]) < Place(j, q[0])
  }

  // Any two fields are in order, one way or the other.
  lemma {:induction false} InOneOrder(j: Json, p: seq<Step>, v: Scalar, q: seq<Step>, w: Scalar)
    requires LeafAt(j, p, v) && LeafAt(j, q, w) && p != q
    ensures Precedes(j, p, q) || Precedes(j, q, p)
    decreases |p|
  {
    if p != [] && q != [] && p[0] == q[0] {
      assert p == [p[0]] + p[1..] && q == [q[0]] + q[1..];
      InOneOrder(Below(j, p[0]), p[1..], v, q[1..], w);
    }
  }

  // -- the order of the keys ----------------------------------------------------------------

  ghost predicate Ahead(keys: seq<string>, a: string, b: string) {
    exists m, n :: 0 <= m < n < |keys| && keys[m] == a && keys[n] == b
  }

  lemma AheadGrows(keys: seq<string>, more: seq<string>, a: string, b: string)
    requires keys <= more && Ahead(keys, a, b)
    ensures Ahead(more, a, b)
  {
    var m, n :| 0 <= m < n < |keys| && keys[m] == a && keys[n] == b;
    assert more[m] == a && more[n] == b;
  }

  // What comes later is behind what was there.
  lemma LaterIsBehind(keys: seq<string>, more: seq<string>, a: string, b: string)
    requires keys <= more && a in keys && b in more && b !in keys
    ensures Ahead(more, a, b)
  {
    var m :| 0 <= m < |keys| && keys[m] == a;
    var n :| 0 <= n < |more| && more[n] == b;
    assert m < |keys| <= n;
  }

  lemma {:induction false} AheadAmongAbsent(keys: seq<string>, at: map<string, Scalar>, a: string, b: string)
    requires Ahead(keys, a, b) && a !in at && b !in at
    ensures Ahead(Absent(keys, at), a, b)
  {
    var m, n :| 0 <= m < n < |keys| && keys[m] == a && keys[n] == b;
    var rest := Absent(keys[1..], at);
    if m > 0 {
      assert keys[1..][m - 1] == a && keys[1..][n - 1] == b;
      AheadAmongAbsent(keys[1..], at, a, b);
      if keys[0] !in at {
        var i, k :| 0 <= i < k < |rest| && rest[i] == a && rest[k] == b;
        assert ([keys[0]] + rest)[i + 1] == a && ([keys[0]] + rest)[k + 1] == b;
      }
    } else {
      assert keys[1..][n - 1] == b;
      assert b in rest;
      var k :| 0 <= k < |rest| && rest[k] == b;
      assert ([a] + rest)[0] == a && ([a] + rest)[k + 1] == b;
    }
  }

  lemma AheadInUpdate(d: Dict<Scalar>, e: Dict<Scalar>, a: string, b: string)
    requires Ahead(e.keys, a, b) && a !in d.at && b !in d.at
    ensures Ahead(d.Update(e).keys, a, b)
  {
    AheadAmongAbsent(e.keys, d.at, a, b);
    var rest := Absent(e.keys, d.at);
    var i, k :| 0 <= i < k < |rest| && rest[i] == a && rest[k] == b;
    assert (d.keys + rest)[|d.keys| + i] == a && (d.keys + rest)[|d.keys| + k] == b;
  }

  // -- the order of the paths -----------------------------------------------------------------

  // An address whose path cannot be mistaken for a name.
  predicate Deep(prefix: string, steps: seq<Step>) {
    steps != [] && (prefix != "" || |steps| >= 2)
  }

  lemma DeepMarked(prefix: string, steps: seq<Step>)
    requires Deep(prefix, steps) && PlainSteps(steps)
    ensures !PlainKey(Render(prefix, steps))
  {
    if prefix == "" {
      DeepPathMarked(steps);
    } else {
      PathBelowMarked(prefix, steps);
    }
  }

  lemma SamePath(prefix: string, p: seq<Step>, q: seq<Step>)
    requires PlainSteps(p) && PlainSteps(q) && p != [] && q != [] && Render(prefix, p) == Render(prefix, q)
    ensures p == q
  {
    if prefix == "" {
      RenderInjective(p, q);
    } else {
      RenderTail(prefix, p);
      RenderTail(prefix, q);
      assert (prefix + Tail(p))[|prefix|..] == Tail(p) && (prefix + Tail(q))[|prefix|..] == Tail(q);
      TailInjective(p, q);
    }
  }

  lemma NotAmongItems(items: seq<Json>, n: nat, prefix: string, q: seq<Step>)
    requires WellKeyed(List(items)) && n < |items| && Deep(prefix, q) && PlainSteps(q) && q[0] == Index(n)
    ensures Render(prefix, q) !in FlattenItems(items[..n], prefix).at
  {
    var p := Render(prefix, q);
    if p in FlattenItems(items[..n], prefix).at {
      var steps := OriginItem(items[..n], items[..n], prefix, p);
      DeepMarked(prefix, q);
      assert steps[|steps| - 1] in steps;
      SamePath(prefix, steps, q);
    }
  }

  lemma NotAmongFields(fields: seq<Field>, n: nat, prefix: string, q: seq<Step>)
    requires WellKeyed(Object(fields)) && n < |fields| && Deep(prefix, q) && PlainSteps(q) && q[0] == Key(fields[n].key)
    ensures Render(prefix, q) !in FlattenFields(fields[..n], prefix).at
  {
    var p := Render(prefix, q);
    if p in FlattenFields(fields[..n], prefix).at {
      assert WellKeyed(Object(fields[..n]));
      var steps := OriginField(fields[..n], fields[..n], prefix, p);
      DeepMarked(prefix, q);
      assert steps[|steps| - 1] in steps;
      SamePath(prefix, steps, q);
    }
  }

  // Both are fields of j whose paths cannot be mistaken, the first before the second.
  ghost predicate Parted(j: Json, prefix: string, p: seq<Step>, v: Scalar, q: seq<Step>, w: Scalar) {
    && WellKeyed(j) && FieldLeaf(j, p, v) && FieldLeaf(j, q, w) && Deep(prefix, p) && Deep(prefix, q)
    && PlainSteps(p) && PlainSteps(q) && Precedes(j, p, q)
  }

  lemma PartedBelow(j: Json, prefix: string, p: seq<Step>, v: Scalar, q: seq<Step>, w: Scalar)
    requires Parted(j, prefix, p, v, q, w) && p[0] == q[0]
    ensures Parted(Below(j, p[0]), StepPath(prefix, p[0]), p[1..], v, q[1..], w)
  {
    assert Precedes(Below(j, p[0]), p[1..], q[1..]);
    assert p[1..][|p| - 2] == p[|p| - 1] && q[1..][|q| - 2] == q[|q| - 1];
    assert p[0] in p;
  }

  lemma {:induction false} PathsInOrder(j: Json, prefix: string, p: seq<Step>, v: Scalar, q: seq<Step>, w: Scalar)
    requires Parted(j, prefix, p, v, q, w)
    ensures Ahead(Flatten(j, prefix).keys, Render(prefix, p), Render(prefix, q))
    decreases j, 1
  {
    match j
    case List(items) => ItemsInOrder(items, prefix, p, v, q, w);
    case Object(fields) => FieldsInOrder(fields, prefix, p, v, q, w);
  }

  lemma {:induction false} ItemsInOrder(items: seq<Json>, prefix: string, p: seq<Step>, v: Scalar, q: seq<Step>, w: Scalar)
    requires Parted(List(items), prefix, p, v, q, w)
    ensures Ahead(FlattenItems(items, prefix).keys, Render(prefix, p), Render(prefix, q))
    decreases items, 0
  {
    var n := |items| - 1;
    if q[0].index < n {
      ItemsInOrder(items[..n], prefix, p, v, q, w);
      AheadGrows(FlattenItems(items[..n], prefix).keys, FlattenItems(items, prefix).keys, Render(prefix, p), Render(prefix, q));
    } else if p[0].index < n {
      LastItemIsBehind(items, prefix, p, v, q, w);
    } else {
      PartedBelow(List(items), prefix, p, v, q, w);
      PathsInOrder(items[n], ItemPath(prefix, n), p[1..], v, q[1..], w);
      LastItemInOrder(items, prefix, p, v, q, w);
    }
  }

  lemma LastItemIsBehind(items: seq<Json>, prefix: string, p: seq<Step>, v: Scalar, q: seq<Step>, w: Scalar)
    requires Parted(List(items), prefix, p, v, q, w) && p[0].index < |items| - 1 == q[0].index
    ensures Ahead(FlattenItems(items, prefix).keys, Render(prefix, p), Render(prefix, q))
  {
    var n := |items| - 1;
    NotAmongItems(items, n, prefix, q);
    PresentItem(items[..n], p[0].index, prefix, p, v);
    PresentItem(items, n, prefix, q, w);
    FlattenItemsValid(items[..n], prefix);
    FlattenItemsValid(items, prefix);
    LaterIsBehind(FlattenItems(items[..n], prefix).keys, FlattenItems(items, prefix).keys, Render(prefix, p), Render(prefix, q));
  }

  lemma LastItemInOrder(items: seq<Json>, prefix: string, p: seq<Step>, v: Scalar, q: seq<Step>, w: Scalar)
    requires Parted(List(items), prefix, p, v, q, w) && p[0] == q[0] == Index(|items| - 1)
    requires Ahead(Flatten(items[|items| - 1], ItemPath(prefix, |items| - 1)).keys, Render(prefix, p), Render(prefix, q))
    ensures Ahead(FlattenItems(items, prefix).keys, Render(prefix, p), Render(prefix, q))
  {
    var n := |items| - 1;
    NotAmongItems(items, n, prefix, p);
    NotAmongItems(items, n, prefix, q);
    AheadInUpdate(FlattenItems(items[..n], prefix), Flatten(items[n], ItemPath(prefix, n)), Render(prefix, p), Render(prefix, q));
  }

  lemma FieldKeysGrow(fields: seq<Field>, prefix: string)
    requires fields != []
    ensures FlattenFields(fields[..|fields| - 1], prefix).keys <= FlattenFields(fields, prefix).keys
  {
  }

  // Fields before the last are in order without it.
  lemma PartedBefore(fields: seq<Field>, prefix: string, p: seq<Step>, v: Scalar, q: seq<Step>, w: Scalar)
    requires Parted(Object(fields), prefix, p, v, q, w) && Find(fields, q[0].key) < |fields| - 1
    ensures Parted(Object(fields[..|fields| - 1]), prefix, p, v, q, w)
  {
    var n := |fields| - 1;
    assert Find(fields, p[0].key) < n;
    FoundBefore(fields, p[0].key);
    FoundBefore(fields, q[0].key);
    assert WellKeyed(Object(fields[..n]));
  }

  lemma FoundBefore(fields: seq<Field>, key: string)
    requires fields != [] && Find(fields, key) < |fields| - 1
    ensures Find(fields[..|fields| - 1], key) == Find(fields, key)
  {
  }

  lemma {:induction false} FieldsInOrder(fields: seq<Field>, prefix: string, p: seq<Step>, v: Scalar, q: seq<Step>, w: Scalar)
    requires Parted(Object(fields), prefix, p, v, q, w)
    ensures Ahead(FlattenFields(fields, prefix).keys, Render(prefix, p), Render(prefix, q))
    decreases fields, 0
  {
    var n := |fields| - 1;
    var i, k := Find(fields, p[0].key), Find(fields, q[0].key);
    if k < n {
      PartedBefore(fields, prefix, p, v, q, w);
      FieldsInOrder(fields[..n], prefix, p, v, q, w);
      FieldKeysGrow(fields, prefix);
      AheadGrows(FlattenFields(fields[..n], prefix).keys, FlattenFields(fields, prefix).keys, Render(prefix, p), Render(prefix, q));
    } else if i < n {
      LastFieldIsBehind(fields, prefix, p, v, q, w);
    } else {
      PartedBelow(Object(fields), prefix, p, v, q, w);
      PathsInOrder(fields[n].value, FieldPath(prefix, fields[n].key), p[1..], v, q[1..], w);
      LastFieldsInOrder(fields, prefix, p, v, q, w);
    }
  }

  lemma LastFieldIsBehind(fields: seq<Field>, prefix: string, p: seq<Step>, v: Scalar, q: seq<Step>, w: Scalar)
    requires Parted(Object(fields), prefix, p, v, q, w)
    requires Find(fields, p[0].key) < |fields| - 1 == Find(fields, q[0].key)
    ensures Ahead(FlattenFields(fields, prefix).keys, Render(prefix, p), Render(prefix, q))
  {
    var n := |fields| - 1;
    FoundBefore(fields, p[0].key);
    NotAmongFields(fields, n, prefix, q);
    PresentField(fields[..n], Find(fields, p[0].key), prefix, p, v);
    PresentField(fields, n, prefix, q, w);
    FlattenFieldsValid(fields[..n], prefix);
    FlattenFieldsValid(fields, prefix);
    FieldKeysGrow(fields, prefix);
    LaterIsBehind(FlattenFields(fields[..n], prefix).keys, FlattenFields(fields, prefix).keys, Render(prefix, p), Render(prefix, q));
  }

  lemma LastFieldsInOrder(fields: seq<Field>, prefix: string, p: seq<Step>, v: Scalar, q: seq<Step>, w: Scalar)
    requires Parted(Object(fields), prefix, p, v, q, w) && p[0] == q[0]
    requires Find(fields, p[0].key) == |fields| - 1 && !fields[|fields| - 1].value.Leaf?
    requires var last := fields[|fields| - 1];
      Ahead(Flatten(last.value, FieldPath(prefix, last.key)).keys, Render(prefix, p), Render(prefix, q))
    ensures Ahead(FlattenFields(fields, prefix).keys, Render(prefix, p), Render(prefix, q))
  {
    var n := |fields| - 1;
    NotAmongFields(fields, n, prefix, p);
    NotAmongFields(fields, n, prefix, q);
    AheadInUpdate(FlattenFields(fields[..n], prefix), Flatten(fields[n].value, FieldPath(prefix, fields[n].key)),
                  Render(prefix, p), Render(prefix, q));
  }

  // -- which field answers -----------------------------------------------------------------------

  // A field below the top level that is not blank and has this name.
  ghost predicate Candidate(j: Json, steps: seq<Step>, v: Scalar, name: string) {
    FieldLeaf(j, steps, v) && |steps| >= 2 && LeafName(steps) == name && !Blank(v)
  }

  // What a path that ends in a name, when the name itself is no entry, is the path of.
  lemma EndingIsCandidate(j: Json, fk: string, name: string) returns (steps: seq<Step>)
    requires WellKeyed(j) && !Hit(Flatten(j, ""), name) && SuffixHit(Flatten(j, ""), fk, name)
    ensures Candidate(j, steps, Flatten(j, "").at[fk], name) && PlainSteps(steps) && fk == Render("", steps)
  {
    var v := Flatten(j, "").at[fk];
    steps := Origin(j, "", fk);
    EndsInName(j, steps, v);
    assert steps[|steps| - 1] in steps;
    SplitOne(LeafName(steps), '.');
    if |steps| == 1 {
      RenderOne(steps);
    }
  }

  lemma RenderOne(steps: seq<Step>)
    requires |steps| == 1 && steps[0].Key?
    ensures Render("", steps) == LeafName(steps)
  {
    assert steps[1..] == [];
  }

  // When no requested key is an entry as it stands: the earliest requested name that some field below the top
  // level has decides, and of the fields of that name that are not blank the first in the document answers.
  lemma FirstFieldAnswers(j: Json, keys: seq<string>, i: nat, p: seq<Step>, v: Scalar)
    requires WellKeyed(j) && i < |keys| && Candidate(j, p, v, keys[i])
    requires forall k :: k in keys ==> !Hit(Flatten(j, ""), k)
    requires forall k :: 0 <= k < i ==> !FoundBelow(j, keys[k])
    requires forall q, w :: Candidate(j, q, w, keys[i]) ==> !Precedes(j, q, p)
    ensures FirstEntry(Flatten(j, ""), keys) == Entry(keys[i], v)
  {
    var flat := Flatten(j, "");
    FlattenValid(j, "");
    FlattenPinsEveryDeepLeaf(j, p, v);
    AddressPlain(j, p, v);
    EndsInName(j, p, v);
    var n :| 0 <= n < |flat.keys| && flat.keys[n] == Render("", p);
    forall m | 0 <= m < n ensures !SuffixHit(flat, flat.keys[m], keys[i]) {
      if SuffixHit(flat, flat.keys[m], keys[i]) {
        AnswersFirst(j, keys[i], p, v, m, n);
      }
    }
    forall k, fk | 0 <= k < i && fk in flat.keys ensures !SuffixHit(flat, fk, keys[k]) {
      if SuffixHit(flat, fk, keys[k]) {
        var steps := EndingIsCandidate(j, fk, keys[k]);
      }
    }
    EarliestEndingDecides(flat, keys, i, n);
  }

  lemma AnswersFirst(j: Json, name: string, p: seq<Step>, v: Scalar, m: nat, n: nat)
    requires WellKeyed(j) && Candidate(j, p, v, name) && PlainSteps(p) && !Hit(Flatten(j, ""), name)
    requires m < n < |Flatten(j, "").keys| && Flatten(j, "").keys[n] == Render("", p)
    requires SuffixHit(Flatten(j, ""), Flatten(j, "").keys[m], name)
    ensures exists q, w :: Candidate(j, q, w, name) && Precedes(j, q, p)
  {
    var flat := Flatten(j, "");
    FlattenValid(j, "");
    var q := EndingIsCandidate(j, flat.keys[m], name);
    var w := flat.at[flat.keys[m]];
    assert p != q;
    InOneOrder(j, p, v, q, w);
    if Precedes(j, p, q) {
      PathsInOrder(j, "", p, v, q, w);
    }
  }
}
