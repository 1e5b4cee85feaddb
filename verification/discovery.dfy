/**
 Inferring a profile for a vendor by looking at samples of its payloads. The theorems say that the order
 of the samples cannot show, and that a vocabulary inferred this way changes no reading.
 */
module Discovery {
  import opened Text
  import opened Ordering
  import opened OrderedDict
  import opened Payload
  import opened Vocabulary
  import opened StatusTokens
  import opened RulesBackend
  import opened Readings

  const MAX_STATUS_LENGTH := 64

  // -- reading the samples ---------------------------------------------------

  // The value one sample contributes to a path, if it has one worth counting.
  function Contribution(path: string): Dict<Scalar> -> seq<Scalar> {
    (flat: Dict<Scalar>) => if Hit(flat, path) then [flat.at[path]] else []
  }

  // The non-blank values a path held across the samples, in order.
  function Seen(samples: seq<Dict<Scalar>>, path: string): seq<Scalar> {
    FlatMap(samples, Contribution(path))
  }

  function Held(values: Dict<seq<Scalar>>, path: string): seq<Scalar> {
    if path in values.at then values.at[path] else []
  }

  // `values` is `before` with the sample's values at the paths in `done` added.
  ghost predicate Added(values: Dict<seq<Scalar>>, before: Dict<seq<Scalar>>, flat: Dict<Scalar>, done: set<string>) {
    && values.Valid()
    && (forall p :: p in values.at <==> p in before.at || (p in done && Hit(flat, p)))
    && (forall p :: Held(values, p) == Held(before, p) + Extra(flat, done, p))
  }

  function Extra(flat: Dict<Scalar>, done: set<string>, path: string): seq<Scalar> {
    if path in done && Hit(flat, path) then [flat.at[path]] else []
  }

  function Append(values: Dict<seq<Scalar>>, path: string, v: Scalar): Dict<seq<Scalar>> {
    var ready := values.SetDefault(path, []);
    ready.Put(path, ready.at[path] + [v])
  }

  lemma AppendMeans(values: Dict<seq<Scalar>>, path: string, v: Scalar)
    requires values.Valid()
    ensures var after := Append(values, path, v);
      && after.Valid()
      && (forall p :: p in after.at <==> p in values.at || p == path)
      && (forall p :: Held(after, p) == Held(values, p) + (if p == path then [v] else []))
  {
    assert values.SetDefault(path, []).Valid();
  }

  lemma AddedOne(values: Dict<seq<Scalar>>, before: Dict<seq<Scalar>>, flat: Dict<Scalar>, done: set<string>, path: string)
    requires Added(values, before, flat, done) && path in flat.at && path !in done
    ensures Added(if Hit(flat, path) then Append(values, path, flat.at[path]) else values, before, flat, done + {path})
  {
    if Hit(flat, path) {
      AppendMeans(values, path, flat.at[path]);
    }
    var after := if Hit(flat, path) then Append(values, path, flat.at[path]) else values;
    forall p ensures Held(after, p) == Held(before, p) + Extra(flat, done + {path}, p) {
      assert Held(values, p) == Held(before, p) + Extra(flat, done, p);
      assert p != path ==> Extra(flat, done + {path}, p) == Extra(flat, done, p);
      assert p == path ==> Held(values, p) == Held(before, p);
    }
  }

  method AddSample(before: Dict<seq<Scalar>>, flat: Dict<Scalar>) returns (values: Dict<seq<Scalar>>)
    requires before.Valid() && flat.Valid()
    ensures values.Valid()
    ensures forall p :: p in values.at <==> p in before.at || Hit(flat, p)
    ensures forall p :: Held(values, p) == Held(before, p) + Contribution(p)(flat)
  {
    values := before;
    ghost var done: set<string> := {};
    for n := 0 to |flat.keys|
      invariant forall i :: 0 <= i < n ==> flat.keys[i] in done
      invariant forall i :: n <= i < |flat.keys| ==> flat.keys[i] !in done
      invariant Added(values, before, flat, done)
    {
      var path := flat.keys[n];
      AddedOne(values, before, flat, done, path);
      if !Blank(flat.at[path]) {
        ghost var last := values;
        values := values.SetDefault(path, []);
        values := values.Put(path, values.at[path] + [flat.at[path]]);
        assert values == Append(last, path, flat.at[path]);
      }
      done := done + {path};
    }
    forall p | Hit(flat, p) ensures p in done {
      assert p in flat.keys;
    }
  }

  lemma SeenSnoc(samples: seq<Dict<Scalar>>, flat: Dict<Scalar>, p: string)
    ensures Seen(samples + [flat], p) == Seen(samples, p) + Contribution(p)(flat)
  {
    FlatMapConcat(samples, [flat], Contribution(p));
    assert [flat][1..] == [];
  }

  // `values` holds, for each path with anything to count, what the samples said there.
  ghost predicate Collected(values: Dict<seq<Scalar>>, samples: seq<Dict<Scalar>>) {
    && values.Valid()
    && (forall p :: p in values.at <==> Seen(samples, p) != [])
    && (forall p :: Held(values, p) == Seen(samples, p))
  }

  lemma CollectedAt(values: Dict<seq<Scalar>>, samples: seq<Dict<Scalar>>, path: string)
    requires Collected(values, samples)
    ensures path in values.keys <==> Seen(samples, path) != []
    ensures path in values.keys ==> path in values.at && values.at[path] == Seen(samples, path)
  {
    assert Held(values, path) == Seen(samples, path);
  }

  lemma CollectedSnoc(before: Dict<seq<Scalar>>, values: Dict<seq<Scalar>>, samples: seq<Dict<Scalar>>, flat: Dict<Scalar>)
    requires Collected(before, samples) && values.Valid()
    requires forall p :: p in values.at <==> p in before.at || Hit(flat, p)
    requires forall p :: Held(values, p) == Held(before, p) + Contribution(p)(flat)
    ensures Collected(values, samples + [flat])
  {
    forall p ensures Held(values, p) == Seen(samples + [flat], p)
      ensures p in values.at <==> Seen(samples + [flat], p) != []
    {
      SeenSnoc(samples, flat, p);
    }
  }

  method PathValues(samples: seq<Dict<Scalar>>) returns (values: Dict<seq<Scalar>>)
    requires forall s :: s in samples ==> s.Valid()
    ensures Collected(values, samples)
  {
    values := Empty();
    for i := 0 to |samples|
      invariant Collected(values, samples[..i])
    {
      ghost var before := values;
      values := AddSample(values, samples[i]);
      CollectedSnoc(before, values, samples[..i], samples[i]);
      assert samples[..i + 1] == samples[..i] + [samples[i]];
    }
    assert samples[..|samples|] == samples;
  }

  // -- ranking paths -----------------------------------------------------------

  function IndexOf(keys: seq<string>, key: string): int {
    if keys == [] then -1
    else if keys[0] == key then 0
    else var i := IndexOf(keys[1..], key); if i < 0 then -1 else i + 1
  }

  // The earlier its last segment stands among the keys the higher; one if it merely contains a key.
  function NameScore(path: string, keys: seq<string>): int {
    var leaf := LastPart(path, '.');
    var i := IndexOf(keys, leaf);
    if i >= 0 then |keys| - i
    else if exists k | k in keys :: Occurs(Lower(k), Lower(leaf)) then 1
    else 0
  }

  type PathTest = (string, seq<Scalar>) -> bool

  datatype Scored = Scored(score: int, coverage: int, path: string)

  predicate Before(a: Scored, b: Scored) {
    || a.score > b.score
    || (a.score == b.score && a.coverage > b.coverage)
    || (a.score == b.score && a.coverage == b.coverage && StringLess(a.path, b.path))
  }

  lemma BeforeTotal()
    ensures StrictTotal(Before)
  {
    forall x: Scored, y: Scored, z: Scored ensures Before(x, y) && Before(y, z) ==> Before(x, z) {
      if StringLess(x.path, y.path) && StringLess(y.path, z.path) {
        StringLessTransitive(x.path, y.path, z.path);
      }
    }
    forall x: Scored, y: Scored ensures x != y ==> Before(x, y) || Before(y, x) {
      StringLessConnected(x.path, y.path);
    }
    forall x: Scored ensures !Before(x, x) {
      StringLessConnected(x.path, x.path);
    }
  }

  function ScoreOf(samples: seq<Dict<Scalar>>, keys: seq<string>, path: string): Scored {
    Scored(NameScore(path, keys), |Seen(samples, path)|, path)
  }

  predicate Passes(samples: seq<Dict<Scalar>>, test: PathTest, path: string) {
    Seen(samples, path) != [] && test(path, Seen(samples, path))
  }

  // A path worth proposing: it passes the test, and its name or its full coverage vouches for it.
  predicate Eligible(samples: seq<Dict<Scalar>>, keys: seq<string>, test: PathTest, path: string) {
    && Passes(samples, test, path)
    && (NameScore(path, keys) > 0 || |Seen(samples, path)| == |samples|)
  }

  // r lists exactly the eligible paths, best first.
  ghost predicate IsRanking(r: seq<string>, samples: seq<Dict<Scalar>>, keys: seq<string>, test: PathTest) {
    && (forall p :: p in r <==> Eligible(samples, keys, test, p))
    && (forall i, j :: 0 <= i < j < |r| ==> Before(ScoreOf(samples, keys, r[i]), ScoreOf(samples, keys, r[j])))
  }

  // `scored` lists the paths in `done` that pass the test, with their scores.
  ghost predicate Scores(scored: seq<Scored>, done: set<string>, samples: seq<Dict<Scalar>>, keys: seq<string>, test: PathTest) {
    && Distinct(scored)
    && (forall s :: s in scored ==> s.path in done && Passes(samples, test, s.path) && s == ScoreOf(samples, keys, s.path))
    && (forall p :: p in done && Passes(samples, test, p) ==> ScoreOf(samples, keys, p) in scored)
  }

  lemma ScoresOneMore(scored: seq<Scored>, done: set<string>, samples: seq<Dict<Scalar>>, keys: seq<string>,
                      test: PathTest, path: string)
    requires Scores(scored, done, samples, keys, test) && path !in done
    ensures Scores(if Passes(samples, test, path) then scored + [ScoreOf(samples, keys, path)] else scored,
                   done + {path}, samples, keys, test)
  {
  }

  method ScorePath(path: string, seen: seq<Scalar>, scored: seq<Scored>, ghost done: set<string>,
                   ghost samples: seq<Dict<Scalar>>, keys: seq<string>, test: PathTest)
    returns (after: seq<Scored>)
    requires seen == Seen(samples, path) != [] && path !in done
    requires Scores(scored, done, samples, keys, test)
    ensures Scores(after, done + {path}, samples, keys, test)
  {
    ScoresOneMore(scored, done, samples, keys, test, path);
    after := scored;
    if test(path, seen) {
      after := after + [Scored(NameScore(path, keys), |seen|, path)];
    }
  }

  method ScorePaths(values: Dict<seq<Scalar>>, ghost samples: seq<Dict<Scalar>>, keys: seq<string>, test: PathTest)
    returns (scored: seq<Scored>)
    requires Collected(values, samples)
    ensures Scores(scored, values.at.Keys, samples, keys, test)
  {
    scored := [];
    ghost var done: set<string> := {};
    for i := 0 to |values.keys|
      invariant forall n :: 0 <= n < i ==> values.keys[n] in done
      invariant forall n :: i <= n < |values.keys| ==> values.keys[n] !in done
      invariant done <= values.at.Keys
      invariant Scores(scored, done, samples, keys, test)
    {
      var path := values.keys[i];
      NextKey(values, samples, i);
      scored := ScorePath(path, values.at[path], scored, done, samples, keys, test);
      done := done + {path};
    }
    AllDone(values, done);
  }

  lemma AllDone(values: Dict<seq<Scalar>>, done: set<string>)
    requires values.Valid() && done <= values.at.Keys
    requires forall n :: 0 <= n < |values.keys| ==> values.keys[n] in done
    ensures done == values.at.Keys
  {
    forall p | p in values.at.Keys ensures p in done {
      assert p in values.keys;
    }
  }

  lemma NextKey(values: Dict<seq<Scalar>>, samples: seq<Dict<Scalar>>, i: nat)
    requires Collected(values, samples) && i < |values.keys|
    ensures var path := values.keys[i]; path in values.at && values.at[path] == Seen(samples, path) != []
    ensures forall n :: 0 <= n < |values.keys| && n != i ==> values.keys[n] != values.keys[i]
  {
    assert values.keys[i] in values.keys;
    CollectedAt(values, samples, values.keys[i]);
  }

  predicate Vouched(s: Scored, sampleCount: nat) {
    s.score > 0 || s.coverage == sampleCount
  }

  method SelectPaths(sorted: seq<Scored>, sampleCount: nat) returns (r: seq<string>, ghost from: seq<nat>)
    ensures |from| == |r|
    ensures forall a :: 0 <= a < |r| ==> from[a] < |sorted| && Vouched(sorted[from[a]], sampleCount) && sorted[from[a]].path == r[a]
    ensures forall a, b :: 0 <= a < b < |r| ==> from[a] < from[b]
    ensures forall n :: 0 <= n < |sorted| && Vouched(sorted[n], sampleCount) ==> sorted[n].path in r
  {
    r, from := [], [];
    for i := 0 to |sorted|
      invariant |from| == |r|
      invariant forall a :: 0 <= a < |r| ==> from[a] < i && Vouched(sorted[from[a]], sampleCount) && sorted[from[a]].path == r[a]
      invariant forall a, b :: 0 <= a < b < |r| ==> from[a] < from[b]
      invariant forall n :: 0 <= n < i && Vouched(sorted[n], sampleCount) ==> sorted[n].path in r
    {
      if Vouched(sorted[i], sampleCount) {
        r, from := r + [sorted[i].path], from + [i];
      }
    }
  }

  method Rank(values: Dict<seq<Scalar>>, ghost samples: seq<Dict<Scalar>>, sampleCount: nat, keys: seq<string>,
              test: PathTest) returns (r: seq<string>)
    requires Collected(values, samples) && sampleCount == |samples|
    ensures IsRanking(r, samples, keys, test)
  {
    var scored := ScorePaths(values, samples, keys, test);
    BeforeTotal();
    SortSorted(scored, Before);
    ghost var from;
    r, from := SelectPaths(Sort(scored, Before), sampleCount);
    forall p | Passes(samples, test, p) ensures p in values.at.Keys {
      CollectedAt(values, samples, p);
    }
    RankingFrom(r, from, scored, samples, keys, test, values.at.Keys);
  }

  lemma RankingFrom(r: seq<string>, from: seq<nat>, scored: seq<Scored>, samples: seq<Dict<Scalar>>, keys: seq<string>,
                    test: PathTest, all: set<string>)
    requires var sorted := Sort(scored, Before);
      && StrictlySorted(sorted, Before) && |from| == |r|
      && (forall y :: y in sorted <==> y in scored)
      && (forall a :: 0 <= a < |r| ==> from[a] < |sorted| && Vouched(sorted[from[a]], |samples|) && sorted[from[a]].path == r[a])
      && (forall a, b :: 0 <= a < b < |r| ==> from[a] < from[b])
      && (forall n :: 0 <= n < |sorted| && Vouched(sorted[n], |samples|) ==> sorted[n].path in r)
    requires Scores(scored, all, samples, keys, test) && forall p :: Passes(samples, test, p) ==> p in all
    ensures IsRanking(r, samples, keys, test)
  {
    var sorted := Sort(scored, Before);
    forall a | 0 <= a < |r| ensures sorted[from[a]] == ScoreOf(samples, keys, r[a]) && Eligible(samples, keys, test, r[a]) {
      assert sorted[from[a]] in sorted;
    }
    forall p | Eligible(samples, keys, test, p) ensures p in r {
      assert ScoreOf(samples, keys, p) in sorted;
    }
  }

  // A ranking is determined by what the samples say, so it is unique.
  lemma RankingUnique(r: seq<string>, q: seq<string>, samples: seq<Dict<Scalar>>, keys: seq<string>, test: PathTest)
    requires IsRanking(r, samples, keys, test) && IsRanking(q, samples, keys, test)
    ensures r == q
  {
    var less := (a: string, b: string) => Before(ScoreOf(samples, keys, a), ScoreOf(samples, keys, b));
    BeforeTotal();
    forall x: string, y: string ensures x != y ==> less(x, y) || less(y, x) {
      assert ScoreOf(samples, keys, x).path == x && ScoreOf(samples, keys, y).path == y;
    }
    SortedUnique(r, q, less);
  }

  // -- what a field behaves like -----------------------------------------------

  predicate AllParse(seen: seq<Scalar>, parse: TimestampParser) {
    forall v | v in seen :: ParseTimestamp(parse, v).Some?
  }

  function Texts(seen: seq<Scalar>): set<string> {
    set v | v in seen :: ScalarText(v)
  }

  // Different every time, and not a timestamp.
  function LooksLikeIdentifier(parse: TimestampParser): PathTest {
    (path: string, seen: seq<Scalar>) =>
      && (forall v | v in seen :: v.Str? || v.Int? || v.Bool?)
      && !AllParse(seen, parse)
      && |Texts(seen)| == |seen| && |seen| > 0
  }

  function Words(seen: seq<Scalar>): set<string> {
    set v | v in seen :: Lower(Strip(ScalarText(v)))
  }

  // Short words without digits; a constant, or a lone sample, needs its name to vouch for it.
  function LooksLikeStatus(statusKeys: seq<string>): PathTest {
    (path: string, seen: seq<Scalar>) =>
      && (forall v | v in seen :: v.Str? && |v.s| <= MAX_STATUS_LENGTH && forall c | c in v.s :: !IsDigit(c))
      && (|Words(seen)| == 1 || |seen| == 1 ==> NameScore(path, statusKeys) > 0)
  }

  function LooksLikeTime(parse: TimestampParser): PathTest {
    (path: string, seen: seq<Scalar>) => AllParse(seen, parse)
  }

  // The test sees a bag of values, not a sequence.
  ghost predicate OrderFree(test: PathTest) {
    forall p: string, a: seq<Scalar>, b: seq<Scalar> :: multiset(a) == multiset(b) ==> test(p, a) == test(p, b)
  }

  lemma TestsOrderFree(parse: TimestampParser, statusKeys: seq<string>)
    ensures OrderFree(LooksLikeIdentifier(parse))
    ensures OrderFree(LooksLikeStatus(statusKeys))
    ensures OrderFree(LooksLikeTime(parse))
  {
    forall p: string, a: seq<Scalar>, b: seq<Scalar> | multiset(a) == multiset(b)
      ensures LooksLikeIdentifier(parse)(p, a) == LooksLikeIdentifier(parse)(p, b)
      ensures LooksLikeStatus(statusKeys)(p, a) == LooksLikeStatus(statusKeys)(p, b)
      ensures LooksLikeTime(parse)(p, a) == LooksLikeTime(parse)(p, b)
    {
      SameMembers(a, b);
      assert Texts(a) == Texts(b);
      assert Words(a) == Words(b);
    }
  }

  lemma SeenPermuted(a: seq<Dict<Scalar>>, b: seq<Dict<Scalar>>, p: string)
    requires multiset(a) == multiset(b)
    ensures multiset(Seen(a, p)) == multiset(Seen(b, p))
    ensures |Seen(a, p)| == |Seen(b, p)|
  {
    FlatMapPermuted(a, b, Contribution(p));
    SameMembers(Seen(a, p), Seen(b, p));
  }

  lemma RankingOrderFree(r: seq<string>, q: seq<string>, a: seq<Dict<Scalar>>, b: seq<Dict<Scalar>>,
                         keys: seq<string>, test: PathTest)
    requires multiset(a) == multiset(b) && OrderFree(test)
    requires IsRanking(r, a, keys, test) && IsRanking(q, b, keys, test)
    ensures r == q
  {
    SameMembers(a, b);
    forall p ensures Eligible(a, keys, test, p) == Eligible(b, keys, test, p)
      ensures ScoreOf(a, keys, p) == ScoreOf(b, keys, p)
    {
      SeenPermuted(a, b, p);
      assert test(p, Seen(a, p)) == test(p, Seen(b, p));
    }
    RankingUnique(r, q, b, keys, test);
  }

  // -- entity type ---------------------------------------------------------------

  function SampleHints(lex: Lexicon): Dict<Scalar> -> seq<string> {
    (flat: Dict<Scalar>) => HintWords(lex, flat)
  }

  function TypeFromHints(lex: Lexicon, blob: string): Option<EntityType> {
    var shipment, invoice := HintCount(lex.shipmentHints, blob), HintCount(lex.invoiceHints, blob);
    if shipment > invoice && shipment > 0 then Some(SHIPMENT)
    else if invoice > shipment && invoice > 0 then Some(INVOICE)
    else None
  }

  function ClassifySamples(lex: Lexicon, samples: seq<Dict<Scalar>>, idPath: string): Option<EntityType> {
    var leaf := Lower(LastPart(idPath, '.'));
    if leaf in lex.shipmentIdKeys then Some(SHIPMENT)
    else if leaf in lex.invoiceIdKeys then Some(INVOICE)
    else TypeFromHints(lex, HintBlob(FlatMap(samples, SampleHints(lex))))
  }

  lemma {:induction false} HintCountOrderFree(hints: seq<string>, a: seq<string>, b: seq<string>)
    requires forall h :: h in hints ==> PlainHint(h)
    requires multiset(a) == multiset(b)
    ensures HintCount(hints, HintBlob(a)) == HintCount(hints, HintBlob(b))
  {
    if hints != [] {
      var n := |hints| - 1;
      SameMembers(a, b);
      HintInBlob(hints[n], a);
      HintInBlob(hints[n], b);
      HintCountOrderFree(hints[..n], a, b);
    }
  }

  lemma ClassifySamplesOrderFree(lex: Lexicon, a: seq<Dict<Scalar>>, b: seq<Dict<Scalar>>, idPath: string)
    requires lex.PlainHints() && multiset(a) == multiset(b)
    ensures ClassifySamples(lex, a, idPath) == ClassifySamples(lex, b, idPath)
  {
    FlatMapPermuted(a, b, SampleHints(lex));
    var u, v := FlatMap(a, SampleHints(lex)), FlatMap(b, SampleHints(lex));
    HintCountOrderFree(lex.shipmentHints, u, v);
    HintCountOrderFree(lex.invoiceHints, u, v);
  }

  // -- status words ----------------------------------------------------------------

  // The first ending of the token, from `start` on, that the table knows.
  function MeaningFrom(parts: seq<string>, start: nat, table: map<string, Status>): Option<Status>
    requires start <= |parts|
    decreases |parts| - start
  {
    if start == |parts| then None
    else if Suffix(parts, start) in table then Some(table[Suffix(parts, start)])
    else MeaningFrom(parts, start + 1, table)
  }

  function Meaning(token: string, table: map<string, Status>): Option<Status> {
    if token in table then Some(table[token]) else MeaningFrom(Split(token, '_'), 1, table)
  }

  function Dedupe(s: seq<string>): (r: seq<string>)
    ensures forall x :: x in r <==> x in s
    ensures Distinct(r)
  {
    if s == [] then []
    else
      var rest := Dedupe(s[1..]);
      if s[0] in rest then rest else [s[0]] + rest
  }

  lemma StringLessTotal()
    ensures StrictTotal(StringLess)
  {
    forall x: string, y: string, z: string ensures StringLess(x, y) && StringLess(y, z) ==> StringLess(x, z) {
      if StringLess(x, y) && StringLess(y, z) { StringLessTransitive(x, y, z); }
    }
    forall x: string, y: string ensures (x != y ==> StringLess(x, y) || StringLess(y, x)) && !StringLess(x, x) {
      StringLessConnected(x, y);
    }
  }

  // Distinct members in text order.
  function SortedSet(s: seq<string>): (r: seq<string>)
    ensures forall x :: x in r <==> x in s
    ensures Distinct(r)
  {
    StringLessTotal();
    SortSorted(Dedupe(s), StringLess);
    Sort(Dedupe(s), StringLess)
  }

  lemma SortedSetSorted(s: seq<string>)
    ensures StrictlySorted(SortedSet(s), StringLess)
  {
    StringLessTotal();
    SortSorted(Dedupe(s), StringLess);
  }

  lemma SortedSetOrderFree(a: seq<string>, b: seq<string>)
    requires forall x :: x in a <==> x in b
    ensures SortedSet(a) == SortedSet(b)
  {
    StringLessTotal();
    SortOrderFree(Dedupe(a), Dedupe(b), StringLess);
  }

  function Unread(tokens: seq<string>, table: map<string, Status>): seq<string> {
    FlatMap(tokens, (t: string) => if Meaning(t, table).None? then [t] else [])
  }

  method MatchEnding(parts: seq<string>, table: map<string, Status>) returns (matched: Option<Status>)
    requires |parts| >= 1
    ensures matched == MeaningFrom(parts, 1, table)
  {
    for start := 1 to |parts|
      invariant MeaningFrom(parts, 1, table) == MeaningFrom(parts, start, table)
    {
      if Suffix(parts, start) in table {
        return Some(table[Suffix(parts, start)]);
      }
    }
    return None;
  }

  method MapStatuses(table: map<string, Status>, tokens: seq<string>)
    returns (mapping: map<string, Option<Status>>, unmapped: seq<string>)
    ensures mapping.Keys == set t | t in tokens
    ensures forall t :: t in mapping ==> mapping[t] == Meaning(t, table)
    ensures unmapped == SortedSet(Unread(tokens, table))
  {
    mapping := map[];
    var pending: seq<string> := [];
    ghost var unread := (t: string) => if Meaning(t, table).None? then [t] else [];
    for i := 0 to |tokens|
      invariant mapping.Keys == set t | t in tokens[..i]
      invariant forall t :: t in mapping ==> mapping[t] == Meaning(t, table)
      invariant pending == FlatMap(tokens[..i], unread)
    {
      var token := tokens[i];
      assert tokens[..i + 1] == tokens[..i] + [token];
      FlatMapConcat(tokens[..i], [token], unread);
      assert [token][1..] == [];
      if token in table {
        mapping := mapping[token := Some(table[token])];
      } else {
        var matched := MatchEnding(Split(token, '_'), table);
        mapping := mapping[token := matched];
        if matched.None? {
          pending := pending + [token];
        }
      }
    }
    assert tokens[..|tokens|] == tokens;
    unmapped := SortedSet(pending);
  }

  // -- a discovered vocabulary never changes what a word means ---------------------

  // Every entry agrees with what the generic table makes of the word.
  ghost predicate Faithful(words: map<string, Status>, table: map<string, Status>) {
    forall t :: t in words ==> Meaning(t, table) == Some(words[t])
  }

  lemma {:induction false} MeaningShift(parts: seq<string>, i: nat, start: nat, table: map<string, Status>)
    requires i + start <= |parts|
    ensures MeaningFrom(parts[i..], start, table) == MeaningFrom(parts, i + start, table)
    decreases |parts| - start
  {
    if i + start < |parts| {
      assert parts[i..][start..] == parts[i + start..];
      MeaningShift(parts, i, start + 1, table);
    }
  }

  // An ending of a token is split into the remaining parts of the token.
  lemma EndingMeaning(parts: seq<string>, i: nat, table: map<string, Status>)
    requires i < |parts| && forall p :: p in parts ==> '_' !in p
    ensures Meaning(Suffix(parts, i), table) == MeaningFrom(parts, i, table)
  {
    assert forall p :: p in parts[i..] ==> p in parts;
    SplitJoin(parts[i..], '_');
    assert "_" == ['_'];
    MeaningShift(parts, i, 1, table);
  }

  lemma {:induction false} GenericReading(parts: seq<string>, start: nat, table: map<string, Status>, default: Status)
    requires start <= |parts|
    ensures ReadEnding(parts, start, map[], table, default) ==
      match MeaningFrom(parts, start, table) case Some(s) => (s, 750) case None => (default, 300)
    decreases |parts| - start
  {
    if start < |parts| {
      GenericReading(parts, start + 1, table, default);
    }
  }

  lemma {:induction false} FaithfulEnding(parts: seq<string>, start: nat, words: map<string, Status>,
                                          table: map<string, Status>, default: Status)
    requires start <= |parts| && Faithful(words, table)
    requires forall p :: p in parts ==> '_' !in p
    ensures SameReading(ReadEnding(parts, start, map[], table, default), ReadEnding(parts, start, words, table, default))
    decreases |parts| - start
  {
    if start < |parts| {
      GenericReading(parts, start, table, default);
      FaithfulEnding(parts, start + 1, words, table, default);
      EndingMeaning(parts, start, table);
    }
  }

  // The same status, never less sure, and a guess exactly when it was a guess before.
  predicate SameReading(plain: (Status, int), informed: (Status, int)) {
    && informed.0 == plain.0
    && informed.1 >= plain.1
    && (informed.1 >= DEFAULT_THRESHOLD <==> plain.1 >= DEFAULT_THRESHOLD)
  }

  // Under a faithful vocabulary every status text is read as it was without one.
  lemma FaithfulWordsPreserveStatus(lex: Lexicon, entityType: EntityType, raw: Scalar, profile: VendorProfile)
    requires Faithful(profile.statusMap, ReaderTable(lex, entityType))
    ensures SameReading(StatusOf(lex, entityType, raw, None), StatusOf(lex, entityType, raw, Some(profile)))
  {
    if entityType != UNCLASSIFIED && !raw.Null? {
      var token := StatusToken(ScalarText(raw));
      var parts, table, default := Split(token, '_'), ReaderTable(lex, entityType), DefaultStatus(entityType);
      JoinSplit(token, '_');
      assert "_" == ['_'];
      FaithfulEnding(parts, 1, profile.statusMap, table, default);
      GenericReading(parts, 1, table, default);
    }
  }

  // -- the proposal ------------------------------------------------------------------

  datatype DiscoveryMethod = STATISTICAL | MODEL_ASSISTED

  datatype Warning =
    | NoIdentifierFound
    | NoStatusFound
    | TypeUnclear
    | DroppedPaths(count: nat)
    | IgnoredType(text: string)
    | IgnoredMapping(token: string, text: string)

  datatype DiscoveryResult = DiscoveryResult(
    profile: VendorProfile, how: DiscoveryMethod, sampleCount: nat, unmapped: seq<string>, warnings: seq<Warning>)

  function FirstFour(paths: seq<string>): (kept: seq<string>)
    ensures kept <= paths && |kept| == Min(4, |paths|)
  {
    if |paths| > 4 then paths[..4] else paths
  }

  function Head(paths: seq<string>): string {
    if paths == [] then "" else paths[0]
  }

  function Token(): Scalar -> seq<string> {
    (v: Scalar) => [StatusToken(ScalarText(v))]
  }

  // The distinct status words seen at the chosen path, in text order.
  function TokensAt(samples: seq<Dict<Scalar>>, statusPaths: seq<string>): seq<string> {
    if statusPaths == [] then [] else SortedSet(FlatMap(Seen(samples, statusPaths[0]), Token()))
  }

  function TypeWords(t: Option<EntityType>, lex: Lexicon): map<string, Status> {
    if t.Some? then lex.Words(t.value) else map[]
  }

  function Mapped(tokens: seq<string>, table: map<string, Status>): map<string, Status> {
    map t | t in tokens && Meaning(t, table).Some? :: Meaning(t, table).value
  }

  function Result(vendor: string, entityType: Option<EntityType>, count: nat, idPaths: seq<string>,
                  statusPaths: seq<string>, timePaths: seq<string>, statusMap: map<string, Status>,
                  unmapped: seq<string>): DiscoveryResult
  {
    DiscoveryResult(
      VendorProfile(vendor, entityType, FirstFour(idPaths), FirstFour(statusPaths), FirstFour(timePaths),
                    statusMap, "DISCOVERED", count, ""),
      STATISTICAL, count, unmapped,
      (if idPaths == [] then [NoIdentifierFound] else []) +
      (if statusPaths == [] then [NoStatusFound] else []) +
      (if entityType.None? then [TypeUnclear] else []))
  }

  // The profile the three rankings and the samples call for.
  function Proposal(lex: Lexicon, vendor: string, samples: seq<Dict<Scalar>>, idPaths: seq<string>,
                    statusPaths: seq<string>, timePaths: seq<string>): DiscoveryResult
  {
    var entityType := ClassifySamples(lex, samples, Head(idPaths));
    var table := TypeWords(entityType, lex);
    var tokens := TokensAt(samples, statusPaths);
    Result(vendor, entityType, |samples|, idPaths, statusPaths, timePaths,
           Mapped(tokens, table), SortedSet(Unread(tokens, table)))
  }

  function FlattenEach(payloads: seq<Json>): seq<Dict<Scalar>> {
    FlatMap(payloads, (j: Json) => [Flatten(j, "")])
  }

  ghost predicate Rankings(lex: Lexicon, parse: TimestampParser, samples: seq<Dict<Scalar>>, idPaths: seq<string>,
                           statusPaths: seq<string>, timePaths: seq<string>)
  {
    && IsRanking(idPaths, samples, lex.idKeys, LooksLikeIdentifier(parse))
    && IsRanking(statusPaths, samples, lex.statusKeys, LooksLikeStatus(lex.statusKeys))
    && IsRanking(timePaths, samples, lex.timeKeys, LooksLikeTime(parse))
  }

  // What statistical discovery may answer for these payloads; one answer only, as shown below.
  ghost predicate IsDiscovery(r: DiscoveryResult, lex: Lexicon, parse: TimestampParser, vendor: string, payloads: seq<Json>) {
    var samples := FlattenEach(payloads);
    exists ids, statuses, times ::
      Rankings(lex, parse, samples, ids, statuses, times) && r == Proposal(lex, vendor, samples, ids, statuses, times)
  }

  method FlattenSamples(payloads: seq<Json>) returns (samples: seq<Dict<Scalar>>)
    ensures samples == FlattenEach(payloads)
    ensures forall s :: s in samples ==> s.Valid()
  {
    samples := [];
    for i := 0 to |payloads|
      invariant samples == FlattenEach(payloads[..i])
      invariant forall s :: s in samples ==> s.Valid()
    {
      var flat := FlattenPayload(payloads[i], "");
      FlattenValid(payloads[i], "");
      assert payloads[..i + 1] == payloads[..i] + [payloads[i]];
      FlatMapConcat(payloads[..i], [payloads[i]], (j: Json) => [Flatten(j, "")]);
      assert [payloads[i]][1..] == [];
      samples := samples + [flat];
    }
    assert payloads[..|payloads|] == payloads;
  }

  // Words nobody could interpret are recorded as null and leave no entry.
  function Known(mapping: map<string, Option<Status>>): map<string, Status> {
    map t | t in mapping && mapping[t].Some? :: mapping[t].value
  }

  lemma KnownMapped(mapping: map<string, Option<Status>>, tokens: seq<string>, table: map<string, Status>)
    requires mapping.Keys == set t | t in tokens
    requires forall t :: t in mapping ==> mapping[t] == Meaning(t, table)
    ensures Known(mapping) == Mapped(tokens, table)
  {
    forall t ensures t in Known(mapping) <==> t in Mapped(tokens, table) {
      assert t in mapping.Keys <==> t in tokens;
    }
  }

  method ReadVocabulary(table: map<string, Status>, values: Dict<seq<Scalar>>, ghost samples: seq<Dict<Scalar>>,
                        statusPaths: seq<string>)
    returns (statusMap: map<string, Status>, unmapped: seq<string>)
    requires Collected(values, samples)
    requires statusPaths != [] ==> Seen(samples, statusPaths[0]) != []
    ensures statusMap == Mapped(TokensAt(samples, statusPaths), table)
    ensures unmapped == SortedSet(Unread(TokensAt(samples, statusPaths), table))
  {
    var tokens: seq<string> := [];
    if statusPaths != [] {
      assert Held(values, statusPaths[0]) == Seen(samples, statusPaths[0]);
      tokens := SortedSet(FlatMap(values.at[statusPaths[0]], Token()));
    }
    var mapping;
    mapping, unmapped := MapStatuses(table, tokens);
    KnownMapped(mapping, tokens, table);
    statusMap := Known(mapping);
  }

  method RankAll(lex: Lexicon, parse: TimestampParser, values: Dict<seq<Scalar>>, samples: seq<Dict<Scalar>>)
    returns (ids: seq<string>, statuses: seq<string>, times: seq<string>)
    requires Collected(values, samples)
    ensures Rankings(lex, parse, samples, ids, statuses, times)
    ensures statuses != [] ==> Seen(samples, statuses[0]) != []
  {
    ids := Rank(values, samples, |samples|, lex.idKeys, LooksLikeIdentifier(parse));
    statuses := Rank(values, samples, |samples|, lex.statusKeys, LooksLikeStatus(lex.statusKeys));
    times := Rank(values, samples, |samples|, lex.timeKeys, LooksLikeTime(parse));
    assert statuses != [] ==> Eligible(samples, lex.statusKeys, LooksLikeStatus(lex.statusKeys), statuses[0]);
  }

  method DiscoverStatistically(lex: Lexicon, parse: TimestampParser, vendor: string, payloads: seq<Json>)
    returns (r: DiscoveryResult)
    ensures IsDiscovery(r, lex, parse, vendor, payloads)
  {
    var samples := FlattenSamples(payloads);
    var values := PathValues(samples);
    var ids, statuses, times := RankAll(lex, parse, values, samples);
    var entityType := ClassifySamples(lex, samples, Head(ids));
    var statusMap, unmapped := ReadVocabulary(TypeWords(entityType, lex), values, samples, statuses);
    r := Result(vendor, entityType, |samples|, ids, statuses, times, statusMap, unmapped);
  }

  lemma TokensOrderFree(a: seq<Dict<Scalar>>, b: seq<Dict<Scalar>>, statusPaths: seq<string>)
    requires multiset(a) == multiset(b)
    ensures TokensAt(a, statusPaths) == TokensAt(b, statusPaths)
  {
    if statusPaths != [] {
      var u, v := Seen(a, statusPaths[0]), Seen(b, statusPaths[0]);
      SeenPermuted(a, b, statusPaths[0]);
      FlatMapPermuted(u, v, Token());
      SameMembers(FlatMap(u, Token()), FlatMap(v, Token()));
      SortedSetOrderFree(FlatMap(u, Token()), FlatMap(v, Token()));
    }
  }

  // Shuffling the samples changes nothing in the answer.
  lemma DiscoveryIgnoresSampleOrder(r: DiscoveryResult, q: DiscoveryResult, lex: Lexicon, parse: TimestampParser,
                                    vendor: string, payloads: seq<Json>, shuffled: seq<Json>)
    requires lex.PlainHints() && multiset(payloads) == multiset(shuffled)
    requires IsDiscovery(r, lex, parse, vendor, payloads) && IsDiscovery(q, lex, parse, vendor, shuffled)
    ensures r == q
  {
    var a, b := FlattenEach(payloads), FlattenEach(shuffled);
    FlatMapPermuted(payloads, shuffled, (j: Json) => [Flatten(j, "")]);
    SameMembers(a, b);
    TestsOrderFree(parse, lex.statusKeys);
    var ids, statuses, times :|
      Rankings(lex, parse, a, ids, statuses, times) && r == Proposal(lex, vendor, a, ids, statuses, times);
    var ids', statuses', times' :|
      Rankings(lex, parse, b, ids', statuses', times') && q == Proposal(lex, vendor, b, ids', statuses', times');
    RankingOrderFree(ids, ids', a, b, lex.idKeys, LooksLikeIdentifier(parse));
    RankingOrderFree(statuses, statuses', a, b, lex.statusKeys, LooksLikeStatus(lex.statusKeys));
    RankingOrderFree(times, times', a, b, lex.timeKeys, LooksLikeTime(parse));
    ClassifySamplesOrderFree(lex, a, b, Head(ids));
    TokensOrderFree(a, b, statuses);
  }

  // A discovered profile reads every status text of its own type as the generic reader does.
  lemma DiscoveredVocabularyPreservesMeaning(r: DiscoveryResult, lex: Lexicon, parse: TimestampParser, vendor: string,
                                             payloads: seq<Json>, entityType: EntityType, raw: Scalar)
    requires IsDiscovery(r, lex, parse, vendor, payloads)
    requires r.profile.entityType.Some? ==> r.profile.entityType.value == entityType
    ensures SameReading(StatusOf(lex, entityType, raw, None), StatusOf(lex, entityType, raw, Some(r.profile)))
  {
    var samples := FlattenEach(payloads);
    var ids, statuses, times :|
      Rankings(lex, parse, samples, ids, statuses, times) && r == Proposal(lex, vendor, samples, ids, statuses, times);
    ProposalVocabulary(lex, vendor, samples, ids, statuses, times);
    DiscoveredWordsFaithful(TokensAt(samples, statuses), r.profile.entityType, lex, entityType);
    FaithfulWordsPreserveStatus(lex, entityType, raw, r.profile);
  }

  lemma ProposalVocabulary(lex: Lexicon, vendor: string, samples: seq<Dict<Scalar>>, ids: seq<string>,
                           statuses: seq<string>, times: seq<string>)
    ensures var p := Proposal(lex, vendor, samples, ids, statuses, times).profile;
      && p.statusMap == Mapped(TokensAt(samples, statuses), TypeWords(p.entityType, lex))
      && (p.entityType == None || p.entityType == Some(SHIPMENT) || p.entityType == Some(INVOICE))
  {
  }

  lemma DiscoveredWordsFaithful(tokens: seq<string>, found: Option<EntityType>, lex: Lexicon, entityType: EntityType)
    requires found.Some? ==> found.value == entityType && (entityType == SHIPMENT || entityType == INVOICE)
    ensures Faithful(Mapped(tokens, TypeWords(found, lex)), ReaderTable(lex, entityType))
  {
    if found.None? {
      forall t ensures Meaning(t, map[]).None? {
        NothingWithoutATable(Split(t, '_'), 1);
      }
    }
  }

  lemma {:induction false} NothingWithoutATable(parts: seq<string>, start: nat)
    requires start <= |parts|
    ensures MeaningFrom(parts, start, map[]).None?
    decreases |parts| - start
  {
    if start < |parts| {
      NothingWithoutATable(parts, start + 1);
    }
  }
}
