/**
 Payloads as trees, their flat index, and lookup in that index.

 A scalar field is entered twice, by its whole path and by its own name. The theorems say what can be
 relied on: which entries pin one leaf, which can be overwritten, and when a lookup succeeds.
 */
module Payload {
  import opened Text
  import opened OrderedDict

  // A float is carried as the text the host language renders it to.
  datatype Scalar = Null | Bool(b: bool) | Int(i: int) | Float(repr: string) | Str(s: string)

  datatype Field = Field(key: string, value: Json)

  datatype Json = Leaf(scalar: Scalar) | List(items: seq<Json>) | Object(fields: seq<Field>)

  function ScalarText(v: Scalar): string {
    match v
    case Null => "None"
    case Bool(b) => if b then "True" else "False"
    case Int(i) => IntText(i)
    case Float(r) => r
    case Str(s) => s
  }

  // Of one kind, only equal values are written alike.
  lemma ScalarTextDistinguishes(a: Scalar, b: Scalar)
    requires (a.Null? <==> b.Null?) && (a.Bool? <==> b.Bool?) && (a.Int? <==> b.Int?) && (a.Str? <==> b.Str?)
    ensures ScalarText(a) == ScalarText(b) <==> a == b
  {
    if a.Int? {
      IntTextDistinguishes(a.i, b.i);
    }
  }

  // Values the readers treat as absent.
  predicate Blank(v: Scalar) {
    v == Null || v == Str("")
  }

  // -- flattening ----------------------------------------------------------

  function FieldPath(prefix: string, key: string): string {
    if prefix != "" then prefix + "." + key else key
  }

  function ItemPath(prefix: string, index: nat): string {
    prefix + "[" + Decimal(index) + "]"
  }

  function Flatten(j: Json, prefix: string): Dict<Scalar>
    decreases j
  {
    match j
    case Leaf(_) => Empty()
    case List(items) => FlattenItems(items, prefix)
    case Object(fields) => FlattenFields(fields, prefix)
  }

  function FlattenItems(items: seq<Json>, prefix: string): Dict<Scalar>
    decreases items
  {
    if items == [] then Empty()
    else
      var n := |items| - 1;
      FlattenItems(items[..n], prefix).Update(Flatten(items[n], ItemPath(prefix, n)))
  }

  function FlattenFields(fields: seq<Field>, prefix: string): Dict<Scalar>
    decreases fields
  {
    if fields == [] then Empty()
    else
      var n := |fields| - 1;
      var out := FlattenFields(fields[..n], prefix);
      var path := FieldPath(prefix, fields[n].key);
      match fields[n].value
      case Leaf(v) => out.Put(path, v).SetDefault(fields[n].key, v)
      case _ => out.Update(Flatten(fields[n].value, path))
  }

  method FlattenPayload(payload: Json, prefix: string) returns (out: Dict<Scalar>)
    ensures out == Flatten(payload, prefix)
    decreases payload
  {
    out := Empty();
    match payload {
      case Object(fields) =>
        for i := 0 to |fields|
          invariant out == FlattenFields(fields[..i], prefix)
        {
          var key, value := fields[i].key, fields[i].value;
          var path := if prefix != "" then prefix + "." + key else key;
          if value.Leaf? {
            out := out.Put(path, value.scalar);
            out := out.SetDefault(key, value.scalar);
          } else {
            var nested := FlattenPayload(value, path);
            out := out.Update(nested);
          }
          assert fields[..i + 1][..i] == fields[..i];
        }
        assert fields[..|fields|] == fields;
      case List(items) =>
        for i := 0 to |items|
          invariant out == FlattenItems(items[..i], prefix)
        {
          var nested := FlattenPayload(items[i], prefix + "[" + Decimal(i) + "]");
          out := out.Update(nested);
          assert items[..i + 1][..i] == items[..i];
        }
        assert items[..|items|] == items;
      case Leaf(_) =>
    }
  }

  // -- leaves and their addresses --------------------------------------------

  datatype Step = Key(key: string) | Index(index: nat)

  // The position of a key among an object's fields, or -1.
  function Find(fields: seq<Field>, key: string): (r: int)
    ensures -1 <= r < |fields|
    ensures r >= 0 ==> fields[r].key == key
    ensures r == -1 ==> forall i :: 0 <= i < |fields| ==> fields[i].key != key
  {
    if fields == [] then -1
    else if fields[|fields| - 1].key == key then |fields| - 1
    else Find(fields[..|fields| - 1], key)
  }

  // Following the steps from j ends at the scalar v.
  predicate LeafAt(j: Json, steps: seq<Step>, v: Scalar)
    decreases |steps|
  {
    if steps == [] then j == Leaf(v)
    else match steps[0]
      case Key(k) =>
        j.Object? && Find(j.fields, k) >= 0 && LeafAt(j.fields[Find(j.fields, k)].value, steps[1..], v)
      case Index(i) =>
        j.List? && i < |j.items| && LeafAt(j.items[i], steps[1..], v)
  }

  // A scalar stored under a key of some object, however deep; bare array elements are not fields.
  predicate FieldLeaf(j: Json, steps: seq<Step>, v: Scalar) {
    steps != [] && steps[|steps| - 1].Key? && LeafAt(j, steps, v)
  }

  function LeafName(steps: seq<Step>): string
    requires steps != [] && steps[|steps| - 1].Key?
  {
    steps[|steps| - 1].key
  }

  lemma {:induction false} LeafAtUnique(j: Json, steps: seq<Step>, v: Scalar, w: Scalar)
    requires LeafAt(j, steps, v) && LeafAt(j, steps, w)
    ensures v == w
    decreases |steps|
  {
    if steps != [] {
      match steps[0]
      case Key(k) => LeafAtUnique(j.fields[Find(j.fields, k)].value, steps[1..], v, w);
      case Index(i) => LeafAtUnique(j.items[i], steps[1..], v, w);
    }
  }

  function StepPath(prefix: string, step: Step): string {
    match step
    case Key(k) => FieldPath(prefix, k)
    case Index(i) => ItemPath(prefix, i)
  }

  // The path the flattening gives to an address below `prefix`.
  function Render(prefix: string, steps: seq<Step>): string
    decreases |steps|
  {
    if steps == [] then prefix else Render(StepPath(prefix, steps[0]), steps[1..])
  }

  predicate Marker(c: char) {
    c == '.' || c == '['
  }

  predicate PlainKey(k: string) {
    k != "" && '.' !in k && '[' !in k
  }

  predicate PlainSteps(steps: seq<Step>) {
    forall s :: s in steps && s.Key? ==> PlainKey(s.key)
  }

  // Object keys are non-empty, carry no path punctuation and do not repeat within one object.
  predicate WellKeyed(j: Json)
    decreases j
  {
    match j
    case Leaf(_) => true
    case List(items) => forall i :: 0 <= i < |items| ==> WellKeyed(items[i])
    case Object(fields) =>
      && (forall i :: 0 <= i < |fields| ==> PlainKey(fields[i].key) && WellKeyed(fields[i].value))
      && (forall i, k :: 0 <= i < k < |fields| ==> fields[i].key != fields[k].key)
  }

  lemma FindAt(fields: seq<Field>, i: nat)
    requires i < |fields|
    requires forall i, k :: 0 <= i < k < |fields| ==> fields[i].key != fields[k].key
    ensures Find(fields, fields[i].key) == i
  {
    var r := Find(fields, fields[i].key);
    assert r >= 0;
  }

  // -- soundness: every entry comes from a leaf -------------------------------

  ghost predicate Names(p: string, prefix: string, steps: seq<Step>)
    requires steps != [] && steps[|steps| - 1].Key?
  {
    p == Render(prefix, steps) || p == LeafName(steps)
  }

  lemma {:induction false} Origin(j: Json, prefix: string, p: string) returns (steps: seq<Step>)
    requires WellKeyed(j) && p in Flatten(j, prefix).at
    ensures FieldLeaf(j, steps, Flatten(j, prefix).at[p])
    ensures Names(p, prefix, steps)
    ensures PlainSteps(steps)
    decreases j, 1
  {
    match j {
      case Object(fields) => steps := OriginField(fields, fields, prefix, p);
      case List(items) => steps := OriginItem(items, items, prefix, p);
    }
  }

  lemma StepIntoItem(all: seq<Json>, n: nat, prefix: string, rest: seq<Step>, v: Scalar)
    requires n < |all| && FieldLeaf(all[n], rest, v) && PlainSteps(rest)
    ensures var steps := [Index(n)] + rest;
      && FieldLeaf(List(all), steps, v) && PlainSteps(steps)
      && LeafName(steps) == LeafName(rest) && Render(prefix, steps) == Render(ItemPath(prefix, n), rest)
  {
    assert ([Index(n)] + rest)[1..] == rest;
  }

  lemma {:induction false} OriginItem(all: seq<Json>, items: seq<Json>, prefix: string, p: string)
    returns (steps: seq<Step>)
    requires items <= all && WellKeyed(List(all)) && p in FlattenItems(items, prefix).at
    ensures FieldLeaf(List(all), steps, FlattenItems(items, prefix).at[p])
    ensures Names(p, prefix, steps)
    ensures PlainSteps(steps)
    decreases items, 0
  {
    var n := |items| - 1;
    assert items[n] == all[n];
    if p in Flatten(items[n], ItemPath(prefix, n)).at {
      var rest := Origin(items[n], ItemPath(prefix, n), p);
      StepIntoItem(all, n, prefix, rest, Flatten(items[n], ItemPath(prefix, n)).at[p]);
      steps := [Index(n)] + rest;
    } else {
      steps := OriginItem(all, items[..n], prefix, p);
    }
  }

  lemma {:induction false} OriginField(all: seq<Field>, fields: seq<Field>, prefix: string, p: string)
    returns (steps: seq<Step>)
    requires fields <= all && WellKeyed(Object(all)) && p in FlattenFields(fields, prefix).at
    ensures FieldLeaf(Object(all), steps, FlattenFields(fields, prefix).at[p])
    ensures Names(p, prefix, steps)
    ensures PlainSteps(steps)
    decreases fields, 0
  {
    var n := |fields| - 1;
    var f := fields[n];
    assert f == all[n];
    FindAt(all, n);
    var path := FieldPath(prefix, f.key);
    var before := FlattenFields(fields[..n], prefix).at;
    if f.value.Leaf? {
      if p == path || (p == f.key && p !in before) {
        steps := [Key(f.key)];
        assert steps[1..] == [];
        assert Render(prefix, steps) == Render(path, []);
      } else {
        steps := OriginField(all, fields[..n], prefix, p);
      }
    } else if p in Flatten(f.value, path).at {
      var rest := Origin(f.value, path, p);
      steps := [Key(f.key)] + rest;
      assert steps[1..] == rest;
    } else {
      steps := OriginField(all, fields[..n], prefix, p);
    }
  }

  // -- completeness: every leaf is indexed under its path and its name --------

  ghost predicate Indexed(d: Dict<Scalar>, prefix: string, steps: seq<Step>)
    requires steps != [] && steps[|steps| - 1].Key?
  {
    Render(prefix, steps) in d.at && LeafName(steps) in d.at
  }

  lemma {:induction false} Present(j: Json, prefix: string, steps: seq<Step>, v: Scalar)
    requires FieldLeaf(j, steps, v)
    ensures Indexed(Flatten(j, prefix), prefix, steps)
    decreases j, 1
  {
    match steps[0] {
      case Key(k) => PresentField(j.fields, Find(j.fields, k), prefix, steps, v);
      case Index(i) => PresentItem(j.items, i, prefix, steps, v);
    }
  }

  lemma {:induction false} PresentItem(items: seq<Json>, i: nat, prefix: string, steps: seq<Step>, v: Scalar)
    requires i < |items| && |steps| >= 2 && steps[|steps| - 1].Key? && steps[0] == Index(i)
    requires LeafAt(items[i], steps[1..], v)
    ensures Indexed(FlattenItems(items, prefix), prefix, steps)
    decreases items, 0
  {
    var n := |items| - 1;
    if i < n {
      PresentItem(items[..n], i, prefix, steps, v);
    } else {
      Present(items[n], ItemPath(prefix, n), steps[1..], v);
      assert LeafName(steps) == LeafName(steps[1..]);
    }
  }

  // Nothing drops out of the index when a field is added.
  lemma FieldsGrow(fields: seq<Field>, prefix: string, p: string)
    requires fields != [] && p in FlattenFields(fields[..|fields| - 1], prefix).at
    ensures p in FlattenFields(fields, prefix).at
  {
  }

  lemma {:induction false} PresentField(fields: seq<Field>, i: nat, prefix: string, steps: seq<Step>, v: Scalar)
    requires i < |fields| && steps != [] && steps[|steps| - 1].Key? && steps[0] == Key(fields[i].key)
    requires LeafAt(fields[i].value, steps[1..], v)
    ensures Indexed(FlattenFields(fields, prefix), prefix, steps)
    decreases fields, 0
  {
    var n := |fields| - 1;
    var p, name := Render(prefix, steps), LeafName(steps);
    if i < n {
      PresentField(fields[..n], i, prefix, steps, v);
      FieldsGrow(fields, prefix, p);
      FieldsGrow(fields, prefix, name);
    } else if steps[1..] == [] {
      assert Render(prefix, steps) == FieldPath(prefix, fields[n].key);
    } else {
      Present(fields[n].value, FieldPath(prefix, fields[n].key), steps[1..], v);
      assert name == LeafName(steps[1..]);
    }
  }

  // -- unique decoding ---------------------------------------------------------

  function Segment(step: Step): (s: string)
    ensures s != []
  {
    match step
    case Key(k) => "." + k
    case Index(i) => "[" + Decimal(i) + "]"
  }

  function Tail(steps: seq<Step>): string {
    if steps == [] then "" else Segment(steps[0]) + Tail(steps[1..])
  }

  lemma StepSegment(prefix: string, step: Step)
    ensures prefix != "" ==> StepPath(prefix, step) == prefix + Segment(step)
    ensures prefix == "" && step.Key? ==> StepPath(prefix, step) == step.key && Segment(step) == "." + step.key
    ensures prefix == "" && step.Index? ==> StepPath(prefix, step) == Segment(step)
  {
    match step
    case Key(k) => assert prefix + "." + k == prefix + ("." + k);
    case Index(i) => assert prefix + "[" + Decimal(i) + "]" == prefix + ("[" + Decimal(i) + "]");
  }

  lemma Regroup(a: string, b: string, c: string)
    ensures (a + b) + c == a + (b + c)
  {
  }

  lemma {:induction false} RenderTail(prefix: string, steps: seq<Step>)
    requires prefix != ""
    ensures Render(prefix, steps) == prefix + Tail(steps)
    decreases |steps|
  {
    if steps != [] {
      StepSegment(prefix, steps[0]);
      RenderTail(StepPath(prefix, steps[0]), steps[1..]);
      Regroup(prefix, Segment(steps[0]), Tail(steps[1..]));
    }
  }

  lemma SegmentMarked(step: Step)
    requires step.Key? ==> PlainKey(step.key)
    ensures Marker(Segment(step)[0])
    ensures forall i :: 0 < i < |Segment(step)| ==> !Marker(Segment(step)[i])
  {
    var s := Segment(step);
    match step
    case Key(k) =>
      forall i | 0 < i < |s| ensures !Marker(s[i]) { assert s[i] == k[i - 1]; }
    case Index(n) =>
      var d := Decimal(n);
      forall i | 0 < i < |s| ensures !Marker(s[i]) {
        if i <= |d| {
          assert s[i] == d[i - 1] && d[i - 1] in d;
        } else {
          assert s[i] == ']';
        }
      }
  }

  lemma SegmentInjective(a: Step, b: Step)
    requires Segment(a) == Segment(b)
    ensures a == b
  {
    assert Segment(a)[0] == (if a.Key? then '.' else '[');
    assert Segment(b)[0] == (if b.Key? then '.' else '[');
    match (a, b)
    case (Key(k), Key(l)) =>
      assert Segment(a)[1..] == k && Segment(b)[1..] == l;
    case (Index(i), Index(n)) =>
      assert Segment(a)[1..|Segment(a)| - 1] == Decimal(i);
      assert Segment(b)[1..|Segment(b)| - 1] == Decimal(n);
      DecimalRoundTrip(i);
      DecimalRoundTrip(n);
    case _ =>
  }

  lemma NextMarker(s: string, cut: nat, plain: nat)
    requires 0 < cut <= |s| && plain <= |s|
    requires cut == |s| || Marker(s[cut])
    requires forall i :: 0 < i < plain ==> !Marker(s[i])
    ensures plain <= cut
  {
  }

  // Two texts cut at their second marker are cut at the same place.
  lemma CutUnique(a: string, r: string, b: string, q: string)
    requires a != [] && b != [] && a + r == b + q
    requires forall i :: 0 < i < |a| ==> !Marker(a[i])
    requires forall i :: 0 < i < |b| ==> !Marker(b[i])
    requires r == [] || Marker(r[0])
    requires q == [] || Marker(q[0])
    ensures a == b && r == q
  {
    var s := a + r;
    assert r != [] ==> s[|a|] == r[0];
    assert q != [] ==> s[|b|] == q[0];
    assert forall i :: 0 <= i < |b| ==> s[i] == b[i];
    NextMarker(s, |a|, |b|);
    NextMarker(s, |b|, |a|);
    assert a == s[..|a|] && b == s[..|b|];
    assert r == s[|a|..] && q == s[|b|..];
  }

  lemma {:induction false} TailInjective(s: seq<Step>, t: seq<Step>)
    requires PlainSteps(s) && PlainSteps(t) && Tail(s) == Tail(t)
    ensures s == t
  {
    if s != [] && t != [] {
      SegmentMarked(s[0]);
      SegmentMarked(t[0]);
      if s[1..] != [] { SegmentMarked(s[1]); }
      if t[1..] != [] { SegmentMarked(t[1]); }
      CutUnique(Segment(s[0]), Tail(s[1..]), Segment(t[0]), Tail(t[1..]));
      SegmentInjective(s[0], t[0]);
      TailInjective(s[1..], t[1..]);
      assert s == [s[0]] + s[1..] && t == [t[0]] + t[1..];
    }
  }

  // At the top level the leading dot of a key is dropped.
  lemma RenderTop(steps: seq<Step>)
    requires steps != [] && PlainSteps(steps)
    ensures steps[0].Key? ==> Tail(steps) == "." + Render("", steps)
    ensures steps[0].Index? ==> Tail(steps) == Render("", steps)
    ensures Render("", steps) != "" && (Render("", steps)[0] == '[' <==> steps[0].Index?)
  {
    var p, rest := StepPath("", steps[0]), Tail(steps[1..]);
    assert steps[0] in steps;
    StepSegment("", steps[0]);
    RenderTail(p, steps[1..]);
    assert Render("", steps)[0] == p[0];
    if steps[0].Key? {
      Regroup(".", p, rest);
    } else {
      assert Segment(steps[0])[0] == '[';
    }
  }

  lemma RenderInjective(s: seq<Step>, t: seq<Step>)
    requires s != [] && t != [] && PlainSteps(s) && PlainSteps(t)
    requires Render("", s) == Render("", t)
    ensures s == t
  {
    RenderTop(s);
    RenderTop(t);
    TailInjective(s, t);
  }

  lemma DeepPathMarked(steps: seq<Step>)
    requires |steps| >= 2 && PlainSteps(steps)
    ensures '.' in Render("", steps) || '[' in Render("", steps)
  {
    var p := StepPath("", steps[0]);
    RenderTail(p, steps[1..]);
    SegmentMarked(steps[1]);
    assert Render("", steps)[|p|] == Segment(steps[1])[0];
  }

  lemma {:induction false} AddressPlain(j: Json, steps: seq<Step>, v: Scalar)
    requires WellKeyed(j) && LeafAt(j, steps, v)
    ensures PlainSteps(steps)
    decreases |steps|
  {
    if steps != [] {
      match steps[0]
      case Key(k) => AddressPlain(j.fields[Find(j.fields, k)].value, steps[1..], v);
      case Index(i) => AddressPlain(j.items[i], steps[1..], v);
      assert steps == [steps[0]] + steps[1..];
    }
  }

  // The main result: below the top level a rendered path names one leaf, and holds its value.
  lemma FlattenPinsEveryDeepLeaf(j: Json, steps: seq<Step>, v: Scalar)
    requires WellKeyed(j) && FieldLeaf(j, steps, v) && |steps| >= 2
    ensures var flat := Flatten(j, "");
      Render("", steps) in flat.at && flat.at[Render("", steps)] == v && LeafName(steps) in flat.at
    ensures forall other, w :: FieldLeaf(j, other, w) && Render("", other) == Render("", steps) ==> other == steps
  {
    var p := Render("", steps);
    AddressPlain(j, steps, v);
    Present(j, "", steps, v);
    DeepPathMarked(steps);
    var found := Origin(j, "", p);
    assert PlainKey(LeafName(found));
    RenderInjective(found, steps);
    LeafAtUnique(j, steps, v, Flatten(j, "").at[p]);
    forall other, w | FieldLeaf(j, other, w) && Render("", other) == p ensures other == steps {
      AddressPlain(j, other, w);
      RenderInjective(other, steps);
    }
  }

  // Keys of the index are exactly the rendered paths and the bare names of the leaves.
  lemma FlattenInventsNothing(j: Json, p: string)
    requires WellKeyed(j)
    ensures p in Flatten(j, "").at <==>
      exists steps, v :: FieldLeaf(j, steps, v) && Names(p, "", steps)
    ensures p in Flatten(j, "").at ==>
      exists steps :: FieldLeaf(j, steps, Flatten(j, "").at[p]) && Names(p, "", steps)
  {
    if p in Flatten(j, "").at {
      var steps := Origin(j, "", p);
    }
    forall steps, v | FieldLeaf(j, steps, v) && Names(p, "", steps) ensures p in Flatten(j, "").at {
      Present(j, "", steps, v);
    }
  }

  lemma {:induction false} FlattenValid(j: Json, prefix: string)
    ensures Flatten(j, prefix).Valid()
    decreases j, 1
  {
    match j
    case Leaf(_) =>
    case List(items) => FlattenItemsValid(items, prefix);
    case Object(fields) => FlattenFieldsValid(fields, prefix);
  }

  lemma {:induction false} FlattenItemsValid(items: seq<Json>, prefix: string)
    ensures FlattenItems(items, prefix).Valid()
    decreases items, 0
  {
    if items != [] {
      var n := |items| - 1;
      FlattenItemsValid(items[..n], prefix);
      FlattenValid(items[n], ItemPath(prefix, n));
      UpdateValid(FlattenItems(items[..n], prefix), Flatten(items[n], ItemPath(prefix, n)));
    }
  }

  lemma {:induction false} FlattenFieldsValid(fields: seq<Field>, prefix: string)
    ensures FlattenFields(fields, prefix).Valid()
    decreases fields, 0
  {
    if fields != [] {
      var n := |fields| - 1;
      var out := FlattenFields(fields[..n], prefix);
      FlattenFieldsValid(fields[..n], prefix);
      if !fields[n].value.Leaf? {
        FlattenValid(fields[n].value, FieldPath(prefix, fields[n].key));
        UpdateValid(out, Flatten(fields[n].value, FieldPath(prefix, fields[n].key)));
      }
    }
  }

  // -- looking a field up --------------------------------------------------------

  datatype Found = Missing | Entry(key: string, value: Scalar)

  predicate Hit(flat: Dict<Scalar>, key: string) {
    key in flat.at && !Blank(flat.at[key])
  }

  predicate SuffixHit(flat: Dict<Scalar>, flatKey: string, key: string) {
    Hit(flat, flatKey) && LastPart(flatKey, '.') == key
  }

  function DirectEntry(flat: Dict<Scalar>, keys: seq<string>): Found {
    if keys == [] then Missing
    else if Hit(flat, keys[0]) then Entry(keys[0], flat.at[keys[0]])
    else DirectEntry(flat, keys[1..])
  }

  function SuffixEntryFor(flat: Dict<Scalar>, flatKeys: seq<string>, key: string): Found {
    if flatKeys == [] then Missing
    else if SuffixHit(flat, flatKeys[0], key) then Entry(key, flat.at[flatKeys[0]])
    else SuffixEntryFor(flat, flatKeys[1..], key)
  }

  function SuffixEntry(flat: Dict<Scalar>, keys: seq<string>): Found {
    if keys == [] then Missing
    else
      var r := SuffixEntryFor(flat, flat.keys, keys[0]);
      if r.Entry? then r else SuffixEntry(flat, keys[1..])
  }

  // All keys are tried as whole entries first, and only then as endings of paths.
  function FirstEntry(flat: Dict<Scalar>, keys: seq<string>): Found {
    var direct := DirectEntry(flat, keys);
    if direct.Entry? then direct else SuffixEntry(flat, keys)
  }

  function FirstValue(flat: Dict<Scalar>, keys: seq<string>): Scalar {
    match FirstEntry(flat, keys)
    case Missing => Null
    case Entry(_, v) => v
  }

  method FindFirstEntry(flat: Dict<Scalar>, keys: seq<string>) returns (r: Found)
    requires flat.Valid()
    ensures r == FirstEntry(flat, keys)
  {
    for i := 0 to |keys|
      invariant DirectEntry(flat, keys) == DirectEntry(flat, keys[i..])
    {
      if keys[i] in flat.at && !Blank(flat.at[keys[i]]) {
        return Entry(keys[i], flat.at[keys[i]]);
      }
    }
    for i := 0 to |keys|
      invariant DirectEntry(flat, keys) == Missing
      invariant SuffixEntry(flat, keys) == SuffixEntry(flat, keys[i..])
    {
      for n := 0 to |flat.keys|
        invariant SuffixEntryFor(flat, flat.keys, keys[i]) == SuffixEntryFor(flat, flat.keys[n..], keys[i])
      {
        var parts := Split(flat.keys[n], '.');
        if parts[|parts| - 1] == keys[i] && !Blank(flat.at[flat.keys[n]]) {
          return Entry(keys[i], flat.at[flat.keys[n]]);
        }
      }
    }
    return Missing;
  }

  lemma {:induction false} DirectEntryMeans(flat: Dict<Scalar>, keys: seq<string>)
    ensures match DirectEntry(flat, keys)
      case Missing => forall k :: k in keys ==> !Hit(flat, k)
      case Entry(k, v) => k in keys && Hit(flat, k) && v == flat.at[k]
  {
    if keys != [] {
      DirectEntryMeans(flat, keys[1..]);
      assert forall k :: k in keys <==> k == keys[0] || k in keys[1..];
    }
  }

  lemma {:induction false} SuffixEntryForMeans(flat: Dict<Scalar>, flatKeys: seq<string>, key: string)
    ensures match SuffixEntryFor(flat, flatKeys, key)
      case Missing => forall fk :: fk in flatKeys ==> !SuffixHit(flat, fk, key)
      case Entry(k, v) => k == key && exists fk :: fk in flatKeys && SuffixHit(flat, fk, key) && v == flat.at[fk]
  {
    if flatKeys != [] {
      SuffixEntryForMeans(flat, flatKeys[1..], key);
      assert flatKeys[0] in flatKeys;
      assert forall k :: k in flatKeys <==> k == flatKeys[0] || k in flatKeys[1..];
    }
  }

  lemma {:induction false} SuffixEntryMeans(flat: Dict<Scalar>, keys: seq<string>)
    requires flat.Valid()
    ensures match SuffixEntry(flat, keys)
      case Missing => forall k, fk :: k in keys ==> !SuffixHit(flat, fk, k)
      case Entry(k, v) => k in keys && exists fk :: SuffixHit(flat, fk, k) && v == flat.at[fk]
  {
    if keys != [] {
      SuffixEntryForMeans(flat, flat.keys, keys[0]);
      SuffixEntryMeans(flat, keys[1..]);
      assert forall k :: k in keys <==> k == keys[0] || k in keys[1..];
    }
  }

  // A lookup succeeds exactly when some requested key names, or ends, a non-blank entry.
  lemma FirstEntryMeans(flat: Dict<Scalar>, keys: seq<string>)
    requires flat.Valid()
    ensures FirstEntry(flat, keys).Entry? <==>
      exists k, fk :: k in keys && Hit(flat, fk) && (fk == k || LastPart(fk, '.') == k)
    ensures var r := FirstEntry(flat, keys);
      r.Entry? ==>
        && r.key in keys
        && exists fk :: Hit(flat, fk) && flat.at[fk] == r.value && (fk == r.key || LastPart(fk, '.') == r.key)
  {
    DirectEntryMeans(flat, keys);
    SuffixEntryMeans(flat, keys);
    if exists k, fk :: k in keys && Hit(flat, fk) && (fk == k || LastPart(fk, '.') == k) {
      var k, fk :| k in keys && Hit(flat, fk) && (fk == k || LastPart(fk, '.') == k);
      assert fk == k || SuffixHit(flat, fk, k);
    }
  }

  // Among the requested keys the earliest that is itself present and not blank decides.
  lemma {:induction false} EarliestWholeKeyDecides(flat: Dict<Scalar>, keys: seq<string>, i: nat)
    requires i < |keys| && Hit(flat, keys[i]) && forall k :: 0 <= k < i ==> !Hit(flat, keys[k])
    ensures DirectEntry(flat, keys) == Entry(keys[i], flat.at[keys[i]])
    ensures FirstEntry(flat, keys) == Entry(keys[i], flat.at[keys[i]])
  {
    if i > 0 {
      assert !Hit(flat, keys[0]);
      EarliestWholeKeyDecides(flat, keys[1..], i - 1);
    }
  }

  lemma {:induction false} EarliestEntryFor(flat: Dict<Scalar>, flatKeys: seq<string>, key: string, n: nat)
    requires n < |flatKeys| && SuffixHit(flat, flatKeys[n], key)
    requires forall k :: 0 <= k < n ==> !SuffixHit(flat, flatKeys[k], key)
    ensures SuffixEntryFor(flat, flatKeys, key) == Entry(key, flat.at[flatKeys[n]])
  {
    if n > 0 {
      assert !SuffixHit(flat, flatKeys[0], key);
      EarliestEntryFor(flat, flatKeys[1..], key, n - 1);
    }
  }

  lemma {:induction false} NoEntryFor(flat: Dict<Scalar>, flatKeys: seq<string>, key: string)
    requires forall fk :: fk in flatKeys ==> !SuffixHit(flat, fk, key)
    ensures SuffixEntryFor(flat, flatKeys, key) == Missing
  {
    if flatKeys != [] {
      assert flatKeys[0] in flatKeys;
      NoEntryFor(flat, flatKeys[1..], key);
    }
  }

  lemma {:induction false} EarliestEndingAmong(flat: Dict<Scalar>, keys: seq<string>, i: nat, n: nat)
    requires i < |keys| && n < |flat.keys| && SuffixHit(flat, flat.keys[n], keys[i])
    requires forall m :: 0 <= m < n ==> !SuffixHit(flat, flat.keys[m], keys[i])
    requires forall k, fk :: 0 <= k < i && fk in flat.keys ==> !SuffixHit(flat, fk, keys[k])
    ensures SuffixEntry(flat, keys) == Entry(keys[i], flat.at[flat.keys[n]])
  {
    if i == 0 {
      EarliestEntryFor(flat, flat.keys, keys[0], n);
    } else {
      NoEntryFor(flat, flat.keys, keys[0]);
      EarliestEndingAmong(flat, keys[1..], i - 1, n);
    }
  }

  // When no requested key is present whole, the earliest that some path ends in decides, and of those
  // paths the first in the order of the flattening supplies the value.
  lemma EarliestEndingDecides(flat: Dict<Scalar>, keys: seq<string>, i: nat, n: nat)
    requires forall k :: k in keys ==> !Hit(flat, k)
    requires i < |keys| && n < |flat.keys| && SuffixHit(flat, flat.keys[n], keys[i])
    requires forall m :: 0 <= m < n ==> !SuffixHit(flat, flat.keys[m], keys[i])
    requires forall k, fk :: 0 <= k < i && fk in flat.keys ==> !SuffixHit(flat, fk, keys[k])
    ensures FirstEntry(flat, keys) == Entry(keys[i], flat.at[flat.keys[n]])
  {
    DirectEntryMeans(flat, keys);
    EarliestEndingAmong(flat, keys, i, n);
  }

  lemma {:induction false} RenderLast(prefix: string, steps: seq<Step>)
    requires steps != [] && steps[|steps| - 1].Key?
    ensures Render(prefix, steps) == FieldPath(Render(prefix, steps[..|steps| - 1]), LeafName(steps))
    decreases |steps|
  {
    if |steps| > 1 {
      var rest := steps[1..];
      RenderLast(StepPath(prefix, steps[0]), rest);
      assert steps[..|steps| - 1][1..] == rest[..|rest| - 1];
    } else {
      assert steps[1..] == [] && steps[..0] == [];
    }
  }

  // A requested name that some non-blank nested field carries is always found, and what is returned
  // is the value of a real field reached under the key that is reported.
  lemma LookupFindsNestedField(j: Json, keys: seq<string>, steps: seq<Step>, v: Scalar)
    requires WellKeyed(j) && FieldLeaf(j, steps, v) && |steps| >= 2
    requires !Blank(v) && LeafName(steps) in keys
    ensures var r := FirstEntry(Flatten(j, ""), keys);
      && r.Entry? && r.key in keys && !Blank(r.value)
      && exists other :: FieldLeaf(j, other, r.value) && (Render("", other) == r.key || LeafName(other) == r.key)
  {
    var flat := Flatten(j, "");
    FlattenValid(j, "");
    FlattenPinsEveryDeepLeaf(j, steps, v);
    AddressPlain(j, steps, v);
    EndsInName(j, steps, v);
    assert Hit(flat, Render("", steps));
    FirstEntryMeans(flat, keys);
    var r := FirstEntry(flat, keys);
    var fk :| Hit(flat, fk) && flat.at[fk] == r.value && (fk == r.key || LastPart(fk, '.') == r.key);
    var other := Origin(j, "", fk);
    EndsInName(j, other, r.value);
    assert FieldLeaf(j, other, r.value);
    if fk == LeafName(other) {
      SplitOne(fk, '.');
    }
  }

  lemma EndsInName(j: Json, steps: seq<Step>, v: Scalar)
    requires WellKeyed(j) && FieldLeaf(j, steps, v)
    ensures LastPart(Render("", steps), '.') == LeafName(steps)
  {
    var name, above := LeafName(steps), Render("", steps[..|steps| - 1]);
    AddressPlain(j, steps, v);
    assert steps[|steps| - 1] in steps;
    RenderLast("", steps);
    if above != "" {
      LastPartOf(above, '.', name);
    } else {
      SplitOne(name, '.');
    }
  }

  // -- top-level names ------------------------------------------------------------------------------

  // Somewhere inside, at whatever depth, some object has a scalar field of this name.
  predicate Carries(j: Json, name: string)
    decreases j
  {
    match j
    case Leaf(_) => false
    case List(items) => exists i :: 0 <= i < |items| && Carries(items[i], name)
    case Object(fields) => exists i :: 0 <= i < |fields| && FieldCarries(fields[i], name)
  }

  predicate FieldCarries(f: Field, name: string)
    decreases f
  {
    if f.value.Leaf? then f.key == name else Carries(f.value, name)
  }

  // Below a prefix every path has punctuation, so a plain name is in the index exactly when a field has it.
  lemma {:induction false} CarriesExactly(j: Json, prefix: string, name: string)
    requires prefix != "" && PlainKey(name)
    ensures name in Flatten(j, prefix).at <==> Carries(j, name)
    decreases j, 1
  {
    match j
    case Leaf(_) =>
    case List(items) => ItemsCarryExactly(items, prefix, name);
    case Object(fields) => FieldsCarryExactly(fields, prefix, name);
  }

  lemma {:induction false} ItemsCarryExactly(items: seq<Json>, prefix: string, name: string)
    requires prefix != "" && PlainKey(name)
    ensures name in FlattenItems(items, prefix).at <==> exists i :: 0 <= i < |items| && Carries(items[i], name)
    decreases items, 0
  {
    if items != [] {
      var n := |items| - 1;
      ItemsCarryExactly(items[..n], prefix, name);
      CarriesExactly(items[n], ItemPath(prefix, n), name);
      assert forall i :: 0 <= i < n ==> items[..n][i] == items[i];
    }
  }

  lemma {:induction false} FieldsCarryExactly(fields: seq<Field>, prefix: string, name: string)
    requires prefix != "" && PlainKey(name)
    ensures name in FlattenFields(fields, prefix).at <==> exists i :: 0 <= i < |fields| && FieldCarries(fields[i], name)
    decreases fields, 0
  {
    if fields != [] {
      var n := |fields| - 1;
      FieldsCarryExactly(fields[..n], prefix, name);
      assert forall i :: 0 <= i < n ==> fields[..n][i] == fields[i];
      PathBelow(prefix, fields[n].key, name);
      if fields[n].value.Leaf? {
        LastScalar(fields, prefix, name);
      } else {
        CarriesExactly(fields[n].value, FieldPath(prefix, fields[n].key), name);
        LastContainer(fields, prefix, name);
      }
    }
  }

  lemma LastScalar(fields: seq<Field>, prefix: string, name: string)
    requires fields != [] && fields[|fields| - 1].value.Leaf?
    ensures var n := |fields| - 1;
      name in FlattenFields(fields, prefix).at <==>
        name in FlattenFields(fields[..n], prefix).at || name == FieldPath(prefix, fields[n].key) || name == fields[n].key
  {
  }

  lemma LastContainer(fields: seq<Field>, prefix: string, name: string)
    requires fields != [] && !fields[|fields| - 1].value.Leaf?
    ensures var n := |fields| - 1;
      name in FlattenFields(fields, prefix).at <==>
        name in FlattenFields(fields[..n], prefix).at
        || name in Flatten(fields[n].value, FieldPath(prefix, fields[n].key)).at
  {
  }

  lemma PathBelow(prefix: string, key: string, name: string)
    requires prefix != "" && PlainKey(name)
    ensures FieldPath(prefix, key) != name && FieldPath(prefix, key) != ""
  {
    assert FieldPath(prefix, key)[|prefix|] == '.';
  }

  // The last field of an object that is itself a container and carries the name somewhere inside, or -1.
  function LastCarrier(fields: seq<Field>, name: string): (r: int)
    ensures -1 <= r < |fields|
    ensures r >= 0 ==> Carries(fields[r].value, name)
    ensures forall i :: r < i < |fields| ==> !Carries(fields[i].value, name)
  {
    if fields == [] then -1
    else
      var n := |fields| - 1;
      if Carries(fields[n].value, name) then n else LastCarrier(fields[..n], name)
  }

  predicate PlainDistinct(fields: seq<Field>) {
    && (forall i :: 0 <= i < |fields| ==> PlainKey(fields[i].key))
    && (forall i, k :: 0 <= i < k < |fields| ==> fields[i].key != fields[k].key)
  }

  // What field i's name is answered: the last container after it that carries the name supplies the value.
  ghost predicate AnsweredByCarrier(fields: seq<Field>, i: nat, v: Scalar)
    requires i < |fields|
  {
    var name, flat := fields[i].key, FlattenFields(fields, "").at;
    var c := LastCarrier(fields, name);
    && name in flat
    && (c > i ==> name in Flatten(fields[c].value, fields[c].key).at)
    && flat[name] == if c > i then Flatten(fields[c].value, fields[c].key).at[name] else v
  }

  lemma {:induction false} TopLevelValue(fields: seq<Field>, i: nat, v: Scalar)
    requires PlainDistinct(fields) && i < |fields| && fields[i].value == Leaf(v)
    ensures AnsweredByCarrier(fields, i, v)
  {
    var n := |fields| - 1;
    if i == n {
      TopLevelStep(fields, fields[i].key);
    } else {
      assert fields[..n][i] == fields[i];
      TopLevelValue(fields[..n], i, v);
      OneFieldMore(fields, i, v);
    }
  }

  lemma OneFieldMore(fields: seq<Field>, i: nat, v: Scalar)
    requires PlainDistinct(fields) && i < |fields| - 1 && AnsweredByCarrier(fields[..|fields| - 1], i, v)
    ensures AnsweredByCarrier(fields, i, v)
  {
    var n := |fields| - 1;
    var name := fields[i].key;
    assert fields[n].key != name;
    TopLevelStep(fields, name);
    if Carries(fields[n].value, name) {
      assert LastCarrier(fields, name) == n;
    } else {
      CarrierStays(fields, name);
      StillAnswered(fields, i, v);
    }
  }

  lemma CarrierStays(fields: seq<Field>, name: string)
    requires fields != [] && !Carries(fields[|fields| - 1].value, name)
    ensures var c := LastCarrier(fields, name);
      && c == LastCarrier(fields[..|fields| - 1], name)
      && (c >= 0 ==> fields[..|fields| - 1][c] == fields[c])
  {
  }

  lemma StillAnswered(fields: seq<Field>, i: nat, v: Scalar)
    requires i < |fields| - 1 && AnsweredByCarrier(fields[..|fields| - 1], i, v)
    requires var n, name := |fields| - 1, fields[i].key;
      var c, before, after := LastCarrier(fields, name), FlattenFields(fields[..n], "").at, FlattenFields(fields, "").at;
      && c == LastCarrier(fields[..n], name) && (c >= 0 ==> c < n && fields[..n][c] == fields[c])
      && (name in before ==> name in after && after[name] == before[name])
    ensures AnsweredByCarrier(fields, i, v)
  {
    assert fields[..|fields| - 1][i] == fields[i];
  }

  lemma PathBelowMarked(prefix: string, steps: seq<Step>)
    requires prefix != "" && steps != [] && PlainSteps(steps)
    ensures '.' in Render(prefix, steps) || '[' in Render(prefix, steps)
  {
    RenderTail(prefix, steps);
    SegmentMarked(steps[0]);
    assert Render(prefix, steps)[|prefix|] == Segment(steps[0])[0];
  }

  // What a container has in its index under a plain name is the value of a field of that name inside it.
  lemma FieldInside(fields: seq<Field>, c: nat, name: string) returns (steps: seq<Step>)
    requires WellKeyed(Object(fields)) && PlainKey(name) && c < |fields|
    requires name in Flatten(fields[c].value, fields[c].key).at
    ensures |steps| >= 2 && steps[0] == Key(fields[c].key)
    ensures FieldLeaf(Object(fields), steps, Flatten(fields[c].value, fields[c].key).at[name]) && LeafName(steps) == name
  {
    var inner := Origin(fields[c].value, fields[c].key, name);
    PathBelowMarked(fields[c].key, inner);
    FindAt(fields, c);
    steps := [Key(fields[c].key)] + inner;
    assert steps[1..] == inner;
  }

  // The guarantee stops at the top level: a top-level scalar answers to its own name exactly as long as
  // no later container holds a field of that name; otherwise it is answered the value of such a field, in
  // the last container that holds one.
  lemma TopLevelNameBelongsToLastCarrier(fields: seq<Field>, i: nat, v: Scalar) returns (steps: seq<Step>)
    requires WellKeyed(Object(fields)) && i < |fields| && fields[i].value == Leaf(v)
    ensures var name, flat := fields[i].key, Flatten(Object(fields), "").at;
      var c := LastCarrier(fields, name);
      && name in flat
      && FieldLeaf(Object(fields), steps, flat[name]) && LeafName(steps) == name
      && steps[0] == Key(if c > i then fields[c].key else name) && (|steps| >= 2 <==> c > i)
  {
    var name := fields[i].key;
    var c := LastCarrier(fields, name);
    TopLevelValue(fields, i, v);
    if c > i {
      steps := FieldInside(fields, c, name);
    } else {
      FindAt(fields, i);
      steps := [Key(name)];
      assert steps[1..] == [];
    }
  }

  // A last container that carries the name overrides it; a last scalar of another name leaves it.
  lemma TopLevelStep(fields: seq<Field>, name: string)
    requires fields != [] && PlainKey(name) && PlainKey(fields[|fields| - 1].key)
    ensures var n := |fields| - 1;
      var f, before, after := fields[n], FlattenFields(fields[..n], "").at, FlattenFields(fields, "").at;
      && (f.value.Leaf? && f.key != name && name in before ==> name in after && after[name] == before[name])
      && (f.value.Leaf? && f.key == name ==> name in after && after[name] == f.value.scalar)
      && (Carries(f.value, name) ==> name in Flatten(f.value, f.key).at && name in after
                                     && after[name] == Flatten(f.value, f.key).at[name])
      && (!f.value.Leaf? && !Carries(f.value, name) && name in before ==> name in after && after[name] == before[name])
  {
    var f := fields[|fields| - 1];
    CarriesExactly(f.value, f.key, name);
  }

  // A family of payloads that lose their top-level value: {k: v, c: {k: w}} answers w for k.
  lemma TopLevelKeyCanBeReplaced(k: string, c: string, v: Scalar, w: Scalar)
    requires PlainKey(k) && PlainKey(c) && k != c
    ensures var j := Object([Field(k, Leaf(v)), Field(c, Object([Field(k, Leaf(w))]))]);
      WellKeyed(j) && k in Flatten(j, "").at && Flatten(j, "").at[k] == w
  {
    var inner := [Field(k, Leaf(w))];
    var fields := [Field(k, Leaf(v)), Field(c, Object(inner))];
    assert inner[..0] == [];
    assert WellKeyed(fields[1].value);
    InnerName(inner[0], c);
    assert FieldCarries(inner[0], k);
    assert LastCarrier(fields, k) == 1;
    TopLevelValue(fields, 0, v);
  }

  lemma InnerName(f: Field, prefix: string)
    requires PlainKey(f.key) && f.value.Leaf? && prefix != ""
    ensures var flat := Flatten(Object([f]), prefix).at; f.key in flat && flat[f.key] == f.value.scalar
  {
    assert [f][..0] == [];
    var path := prefix + "." + f.key;
    assert path[|prefix|] == '.';
    assert path != f.key;
    assert FlattenFields([], prefix) == Empty();
    assert Flatten(Object([f]), prefix) == Empty().Put(path, f.value.scalar).SetDefault(f.key, f.value.scalar);
  }

  // -- when a requested name is found ----------------------------------------------------------------

  // Some field below the top level has this name and a value that is not blank.
  ghost predicate FoundBelow(j: Json, name: string) {
    exists steps, v :: FieldLeaf(j, steps, v) && |steps| >= 2 && LeafName(steps) == name && !Blank(v)
  }

  // A top-level scalar of this name is not blank, and no later container holds a field of the name.
  predicate FoundOnTop(j: Json, name: string) {
    && j.Object?
    && exists i :: 0 <= i < |j.fields| && j.fields[i].key == name && j.fields[i].value.Leaf?
                   && !Blank(j.fields[i].value.scalar) && LastCarrier(j.fields, name) <= i
  }

  lemma FoundOnTopIsHit(j: Json, name: string)
    requires WellKeyed(j) && FoundOnTop(j, name)
    ensures Hit(Flatten(j, ""), name)
  {
    var i :| 0 <= i < |j.fields| && j.fields[i].key == name && j.fields[i].value.Leaf?
             && !Blank(j.fields[i].value.scalar) && LastCarrier(j.fields, name) <= i;
    TopLevelValue(j.fields, i, j.fields[i].value.scalar);
  }

  // Some field below the top level has this path and a value that is not blank.
  ghost predicate FoundByPath(j: Json, path: string) {
    exists steps, v :: FieldLeaf(j, steps, v) && |steps| >= 2 && Render("", steps) == path && !Blank(v)
  }

  // What a requested key can be answered from: a path, a name below the top level, or a name on top of it.
  ghost predicate Supplied(j: Json, key: string) {
    FoundByPath(j, key) || FoundBelow(j, key) || FoundOnTop(j, key)
  }

  // The field's path or its own name is among the keys.
  ghost predicate Requested(steps: seq<Step>, keys: seq<string>)
    requires steps != [] && steps[|steps| - 1].Key?
  {
    Render("", steps) in keys || LeafName(steps) in keys
  }

  // The field that an entry answering to a key belongs to.
  lemma FieldOfHit(j: Json, key: string, fk: string) returns (steps: seq<Step>)
    requires WellKeyed(j) && fk in Flatten(j, "").at && (fk == key || LastPart(fk, '.') == key)
    ensures FieldLeaf(j, steps, Flatten(j, "").at[fk])
    ensures key == Render("", steps) || key == LeafName(steps)
    ensures |steps| == 1 ==> fk == key == LeafName(steps)
  {
    var v := Flatten(j, "").at[fk];
    steps := Origin(j, "", fk);
    EndsInName(j, steps, v);
    SplitOne(LeafName(steps), '.');
    if |steps| == 1 {
      assert Render("", steps) == LeafName(steps) by { assert steps[1..] == []; }
    }
  }

  // Where a non-blank entry that answers to a key can come from.
  lemma HitIsSupplied(j: Json, key: string, fk: string)
    requires WellKeyed(j) && Hit(Flatten(j, ""), fk) && (fk == key || LastPart(fk, '.') == key)
    ensures Supplied(j, key)
  {
    var v := Flatten(j, "").at[fk];
    var steps := FieldOfHit(j, key, fk);
    if |steps| == 1 {
      assert steps == [Key(key)];
      TopLevelHit(j, key, v);
    }
  }

  lemma TopLevelHit(j: Json, name: string, v: Scalar)
    requires WellKeyed(j) && FieldLeaf(j, [Key(name)], v) && !Blank(v)
    requires name in Flatten(j, "").at && Flatten(j, "").at[name] == v
    ensures FoundBelow(j, name) || FoundOnTop(j, name)
  {
    var i := Find(j.fields, name);
    assert [Key(name)][1..] == [];
    assert LeafAt(j.fields[i].value, [], v);
    var found := TopLevelNameBelongsToLastCarrier(j.fields, i, v);
    assert |found| >= 2 ==> FieldLeaf(j, found, v) && LeafName(found) == name;
  }

  lemma SuppliedIsFound(j: Json, keys: seq<string>, key: string)
    requires WellKeyed(j) && key in keys && Supplied(j, key)
    ensures FirstEntry(Flatten(j, ""), keys).Entry?
  {
    FlattenValid(j, "");
    if FoundByPath(j, key) {
      FoundByPathIsHit(j, key);
      HitAnswers(Flatten(j, ""), keys, key);
    } else if FoundBelow(j, key) {
      var steps, v :| FieldLeaf(j, steps, v) && |steps| >= 2 && LeafName(steps) == key && !Blank(v);
      LookupFindsNestedField(j, keys, steps, v);
    } else {
      FoundOnTopIsHit(j, key);
      HitAnswers(Flatten(j, ""), keys, key);
    }
  }

  lemma FoundByPathIsHit(j: Json, path: string)
    requires WellKeyed(j) && FoundByPath(j, path)
    ensures Hit(Flatten(j, ""), path)
  {
    var steps, v :| FieldLeaf(j, steps, v) && |steps| >= 2 && Render("", steps) == path && !Blank(v);
    FlattenPinsEveryDeepLeaf(j, steps, v);
  }

  lemma HitAnswers(flat: Dict<Scalar>, keys: seq<string>, key: string)
    requires flat.Valid() && key in keys && Hit(flat, key)
    ensures FirstEntry(flat, keys).Entry?
  {
    FirstEntryMeans(flat, keys);
  }

  // Whatever is requested, paths or names, the lookup succeeds if and only if some requested key is the path
  // or the name of a non-blank field below the top level, or the name of a non-blank top-level scalar that no
  // later container overrides.
  lemma LookupSucceedsExactly(j: Json, keys: seq<string>)
    requires WellKeyed(j)
    ensures FirstEntry(Flatten(j, ""), keys).Entry? <==> exists k :: k in keys && Supplied(j, k)
  {
    var flat := Flatten(j, "");
    FlattenValid(j, "");
    FirstEntryMeans(flat, keys);
    if FirstEntry(flat, keys).Entry? {
      var k, fk :| k in keys && Hit(flat, fk) && (fk == k || LastPart(fk, '.') == k);
      HitIsSupplied(j, k, fk);
    }
    forall k | k in keys && Supplied(j, k) ensures FirstEntry(flat, keys).Entry? {
      SuppliedIsFound(j, keys, k);
    }
  }

  // And what it answers is the non-blank value of a real field that was requested by path or by name.
  lemma LookupAnswersAField(j: Json, keys: seq<string>) returns (steps: seq<Step>)
    requires WellKeyed(j) && FirstEntry(Flatten(j, ""), keys).Entry?
    ensures FieldLeaf(j, steps, FirstEntry(Flatten(j, ""), keys).value) && Requested(steps, keys)
    ensures !Blank(FirstEntry(Flatten(j, ""), keys).value)
  {
    var flat := Flatten(j, "");
    var r := FirstEntry(flat, keys);
    FlattenValid(j, "");
    FirstEntryMeans(flat, keys);
    var fk :| Hit(flat, fk) && flat.at[fk] == r.value && (fk == r.key || LastPart(fk, '.') == r.key);
    steps := FieldOfHit(j, r.key, fk);
  }

  // A family of payloads with a plain top-level value that the lookup does not find: {k: v, c: {k: ""}}.
  lemma ATopLevelValueCanBeHidden(k: string, c: string, v: Scalar)
    requires PlainKey(k) && PlainKey(c) && k != c
    ensures var j := Object([Field(k, Leaf(v)), Field(c, Object([Field(k, Leaf(Str("")))]))]);
      WellKeyed(j) && FirstEntry(Flatten(j, ""), [k]) == Missing
  {
    var blank := Str("");
    var inner := [Field(k, Leaf(blank))];
    var fields := [Field(k, Leaf(v)), Field(c, Object(inner))];
    var j := Object(fields);
    TopLevelKeyCanBeReplaced(k, c, v, blank);
    FlattenValid(j, "");
    FirstEntryMeans(Flatten(j, ""), [k]);
    if FirstEntry(Flatten(j, ""), [k]).Entry? {
      var fk :| Hit(Flatten(j, ""), fk) && (fk == k || LastPart(fk, '.') == k);
      HitIsSupplied(j, k, fk);
      NothingElseNamed(k, c, v);
    }
  }

  lemma InsideOne(v: Scalar, steps: seq<Step>, w: Scalar)
    ensures LeafAt(Leaf(v), steps, w) <==> steps == [] && w == v
  {
  }

  lemma NothingElseNamed(k: string, c: string, v: Scalar)
    requires PlainKey(k) && PlainKey(c) && k != c
    ensures var j := Object([Field(k, Leaf(v)), Field(c, Object([Field(k, Leaf(Str("")))]))]);
      !Supplied(j, k)
  {
    var inner := [Field(k, Leaf(Str("")))];
    var fields := [Field(k, Leaf(v)), Field(c, Object(inner))];
    assert FieldCarries(inner[0], k);
    assert LastCarrier(fields, k) == 1;
    forall steps: seq<Step>, w | FieldLeaf(Object(fields), steps, w) && |steps| >= 2 ensures Blank(w) {
      InsideOne(v, steps[1..], w);
      assert LeafAt(Object(inner), steps[1..], w);
      InsideOne(Str(""), steps[1..][1..], w);
    }
  }
}
