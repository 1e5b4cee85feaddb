/**
 The host language's dictionary: a finite map together with the order in which its keys were inserted.
 Assigning to a present key keeps its position.
 */
module OrderedDict {
  import opened Ordering

  datatype Dict<V> = Dict(keys: seq<string>, at: map<string, V>) {

    ghost predicate Valid() {
      && (forall k :: k in keys <==> k in at)
      && Distinct(keys)
    }

    function Put(k: string, v: V): Dict<V> {
      Dict(if k in at then keys else keys + [k], at[k := v])
    }

    function SetDefault(k: string, v: V): Dict<V> {
      if k in at then this else Put(k, v)
    }

    function Update(other: Dict<V>): Dict<V> {
      Dict(keys + Absent(other.keys, at), at + other.at)
    }
  }

  function Empty<V>(): Dict<V> {
    Dict([], map[])
  }

  function Absent<V>(keys: seq<string>, at: map<string, V>): (r: seq<string>)
    ensures forall k :: k in r <==> k in keys && k !in at
  {
    if keys == [] then []
    else if keys[0] in at then Absent(keys[1..], at)
    else [keys[0]] + Absent(keys[1..], at)
  }

  lemma {:induction false} AbsentDistinct<V>(keys: seq<string>, at: map<string, V>)
    requires Distinct(keys)
    ensures Distinct(Absent(keys, at))
  {
    if keys != [] {
      AbsentDistinct(keys[1..], at);
      var rest := Absent(keys[1..], at);
      assert keys[0] !in keys[1..];
      assert keys[0] !in rest;
      assert Distinct([keys[0]] + rest);
    }
  }

  lemma DistinctConcat<T>(a: seq<T>, b: seq<T>)
    requires Distinct(a) && Distinct(b) && forall x :: x in a ==> x !in b
    ensures Distinct(a + b)
  {
    forall i, j | 0 <= i < j < |a + b| ensures (a + b)[i] != (a + b)[j] {
      if i < |a| <= j {
        assert a[i] in a && b[j - |a|] in b;
      }
    }
  }

  lemma UpdateValid<V>(d: Dict<V>, e: Dict<V>)
    requires d.Valid() && e.Valid()
    ensures d.Update(e).Valid()
  {
    AbsentDistinct(e.keys, d.at);
    DistinctConcat(d.keys, Absent(e.keys, d.at));
    assert forall k :: k in d.Update(e).keys <==> k in d.keys || k in Absent(e.keys, d.at);
  }
}
