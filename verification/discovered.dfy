/**
 What statistical discovery answers, read off the samples: which paths, in which order, which type and which
 words. Nothing here is stated in terms of how the discovery computes them.
 */
module Discovered {
  import opened Text
  import opened Ordering
  import opened OrderedDict
  import opened Payload
  import opened Vocabulary
  import opened StatusTokens
  import opened RulesBackend
  import opened Readings
  import opened Discovery

  // -- what the samples say at a path ------------------------------------------------------------

  // The samples that have something at the path.
  ghost function Coverage(samples: seq<Dict<Scalar>>, path: string): nat {
    |set i: nat | i < |samples| && Hit(samples[i], path)|
  }

  lemma {:induction false} SeenCounts(samples: seq<Dict<Scalar>>, path: string)
    ensures |Seen(samples, path)| == Coverage(samples, path)
  {
    if samples != [] {
      var n := |samples| - 1;
      SeenCounts(samples[..n], path);
      assert samples == samples[..n] + [samples[n]];
      SeenSnoc(samples[..n], samples[n], path);
      CoverageSnoc(samples, path);
    }
  }

  lemma CoverageSnoc(samples: seq<Dict<Scalar>>, path: string)
    requires samples != []
    ensures var n := |samples| - 1;
      Coverage(samples, path) == Coverage(samples[..n], path) + (if Hit(samples[n], path) then 1 else 0)
  {
    var n := |samples| - 1;
    var before := set i: nat | i < n && Hit(samples[..n][i], path);
    var all := set i: nat | i < |samples| && Hit(samples[i], path);
    assert all == before + (if Hit(samples[n], path) then {n} else {});
    assert n !in before;
  }

  lemma {:induction false} SeenMeans(samples: seq<Dict<Scalar>>, path: string, v: Scalar)
    ensures v in Seen(samples, path) <==> exists flat :: flat in samples && Hit(flat, path) && flat.at[path] == v
  {
    if samples != [] {
      var n := |samples| - 1;
      SeenMeans(samples[..n], path, v);
      assert samples == samples[..n] + [samples[n]];
      SeenSnoc(samples[..n], samples[n], path);
      assert forall flat :: flat in samples <==> flat in samples[..n] || flat == samples[n];
    }
  }

  // A path's own name among the keys: the earlier the higher, one for merely containing a key, else nothing.
  lemma {:induction false} IndexMeans(keys: seq<string>, key: string)
    ensures var i := IndexOf(keys, key);
      && -1 <= i < |keys| && (i < 0 <==> key !in keys)
      && (i >= 0 ==> keys[i] == key && forall k :: 0 <= k < i ==> keys[k] != key)
  {
    if keys != [] {
      IndexMeans(keys[1..], key);
      assert forall k :: k in keys <==> k == keys[0] || k in keys[1..];
    }
  }

  lemma NameScoreMeans(path: string, keys: seq<string>)
    ensures var name := LastPart(path, '.');
      && (forall i | 0 <= i < |keys| && keys[i] == name && (forall k :: 0 <= k < i ==> keys[k] != name) ::
            NameScore(path, keys) == |keys| - i)
      && (name !in keys ==>
            NameScore(path, keys) == if exists k :: k in keys && Occurs(Lower(k), Lower(name)) then 1 else 0)
  {
    IndexMeans(keys, LastPart(path, '.'));
  }

  // Exactly the paths that behave as asked and are vouched for, by their name or by being in every sample;
  // the better name first, then the better covered, then in text order.
  ghost predicate Ranked(r: seq<string>, samples: seq<Dict<Scalar>>, keys: seq<string>, good: PathTest) {
    && (forall p :: p in r <==>
          && Coverage(samples, p) > 0 && good(p, Seen(samples, p))
          && (NameScore(p, keys) > 0 || Coverage(samples, p) == |samples|))
    && (forall i, j | 0 <= i < j < |r| ::
          var a, b := NameScore(r[i], keys), NameScore(r[j], keys);
          a > b || (a == b && (Coverage(samples, r[i]) > Coverage(samples, r[j])
                               || (Coverage(samples, r[i]) == Coverage(samples, r[j]) && StringLess(r[i], r[j])))))
  }

  lemma RankingIsRanked(r: seq<string>, samples: seq<Dict<Scalar>>, keys: seq<string>, test: PathTest)
    requires IsRanking(r, samples, keys, test)
    ensures Ranked(r, samples, keys, test)
  {
    forall p ensures |Seen(samples, p)| == Coverage(samples, p) {
      SeenCounts(samples, p);
    }
    forall i, j | 0 <= i < j < |r| ensures Before(ScoreOf(samples, keys, r[i]), ScoreOf(samples, keys, r[j])) {
    }
  }

  // -- what a field behaves like ---------------------------------------------------------------------

  ghost predicate AllDistinct(seen: seq<Scalar>) {
    forall i, j :: 0 <= i < j < |seen| ==> ScalarText(seen[i]) != ScalarText(seen[j])
  }

  lemma {:induction false} DistinctTexts(seen: seq<Scalar>)
    ensures |Texts(seen)| <= |seen|
    ensures |Texts(seen)| == |seen| <==> AllDistinct(seen)
  {
    if seen != [] {
      var n := |seen| - 1;
      DistinctTexts(seen[..n]);
      TextsSnoc(seen);
      DistinctSnoc(seen);
    }
  }

  lemma TextsSnoc(seen: seq<Scalar>)
    requires seen != []
    ensures var n := |seen| - 1; Texts(seen) == Texts(seen[..n]) + {ScalarText(seen[n])}
  {
    var n := |seen| - 1;
    assert seen == seen[..n] + [seen[n]];
    assert forall v :: v in seen <==> v in seen[..n] || v == seen[n];
  }

  lemma DistinctSnoc(seen: seq<Scalar>)
    requires seen != []
    ensures var n := |seen| - 1; AllDistinct(seen) <==> AllDistinct(seen[..n]) && ScalarText(seen[n]) !in Texts(seen[..n])
  {
    var n := |seen| - 1;
    var front := seen[..n];
    if AllDistinct(front) && ScalarText(seen[n]) !in Texts(front) {
      forall i, j | 0 <= i < j < |seen| ensures ScalarText(seen[i]) != ScalarText(seen[j]) {
        assert seen[i] == front[i] && front[i] in front && ScalarText(front[i]) in Texts(front);
        if j < n {
          assert seen[j] == front[j];
        }
      }
    }
    if AllDistinct(seen) {
      forall v | v in front ensures ScalarText(v) != ScalarText(seen[n]) {
        var i :| 0 <= i < n && front[i] == v;
        assert seen[i] == v;
      }
      forall i, j | 0 <= i < j < n ensures ScalarText(front[i]) != ScalarText(front[j]) {
        assert front[i] == seen[i] && front[j] == seen[j];
      }
    }
  }

  function Word(v: Scalar): string {
    Lower(Strip(ScalarText(v)))
  }

  ghost predicate OneWord(seen: seq<Scalar>) {
    seen != [] && forall v :: v in seen ==> Word(v) == Word(seen[0])
  }

  lemma OneWordMeans(seen: seq<Scalar>)
    ensures |Discovery.Words(seen)| == 1 <==> OneWord(seen)
  {
    var words := Discovery.Words(seen);
    if OneWord(seen) {
      OneWordAlone(seen);
    } else if seen != [] {
      var v :| v in seen && Word(v) != Word(seen[0]);
      assert Word(v) in words && Word(seen[0]) in words;
      TwoMembers(words, Word(v), Word(seen[0]));
    } else {
      assert words == {};
    }
  }

  lemma OneWordAlone(seen: seq<Scalar>)
    requires OneWord(seen)
    ensures |Discovery.Words(seen)| == 1
  {
    assert seen[0] in seen && Word(seen[0]) in Discovery.Words(seen);
    assert Discovery.Words(seen) == {Word(seen[0])};
  }

  lemma TwoMembers(words: set<string>, a: string, b: string)
    requires a in words && b in words && a != b
    ensures |words| > 1
  {
    var rest := words - {a};
    assert b in rest && words == {a} + rest;
  }

  // An identifier is text or a whole number, never the same twice, and not all of it timestamps. A status is
  // short text without digits, which a name must vouch for when it never varies or was seen once. A time is
  // whatever always parses.
  lemma TestsMean(parse: TimestampParser, statusKeys: seq<string>, path: string, seen: seq<Scalar>)
    ensures LooksLikeIdentifier(parse)(path, seen) <==>
      && seen != [] && (forall v :: v in seen ==> v.Str? || v.Int? || v.Bool?)
      && (exists v :: v in seen && Parsed(parse, v).None?)
      && AllDistinct(seen)
    ensures LooksLikeStatus(statusKeys)(path, seen) <==>
      && (forall v :: v in seen ==> v.Str? && |v.s| <= 64 && forall c :: c in v.s ==> !IsDigit(c))
      && (OneWord(seen) ==> NameScore(path, statusKeys) > 0)
    ensures LooksLikeTime(parse)(path, seen) <==> forall v :: v in seen ==> Parsed(parse, v).Some?
  {
    DistinctTexts(seen);
    OneWordMeans(seen);
  }

  // -- the type -----------------------------------------------------------------------------------------

  // A hint is seen when some entry of some sample has it.
  ghost predicate Hinted(lex: Lexicon, samples: seq<Dict<Scalar>>, h: string) {
    exists flat :: flat in samples && HintedBy(lex, flat, h)
  }

  // The name of the best identifier path decides, else the hints; a tie leaves the type open.
  ghost predicate TypeFound(lex: Lexicon, samples: seq<Dict<Scalar>>, idPath: string, t: Option<EntityType>) {
    var name := Lower(LastPart(idPath, '.'));
    var shipment := Tally(lex.shipmentHints, h => Hinted(lex, samples, h));
    var invoice := Tally(lex.invoiceHints, h => Hinted(lex, samples, h));
    && (t == Some(SHIPMENT) <==> name in lex.shipmentIdKeys || (name !in lex.invoiceIdKeys && shipment > invoice))
    && (t == Some(INVOICE) <==> name !in lex.shipmentIdKeys && (name in lex.invoiceIdKeys || invoice > shipment))
    && (t == None <==> name !in lex.shipmentIdKeys && name !in lex.invoiceIdKeys && shipment == invoice)
  }

  lemma HintsOfSamples(lex: Lexicon, samples: seq<Dict<Scalar>>, h: string)
    requires forall flat :: flat in samples ==> flat.Valid()
    ensures (exists w :: w in FlatMap(samples, SampleHints(lex)) && Occurs(h, Lower(w))) <==> Hinted(lex, samples, h)
  {
    forall w ensures w in FlatMap(samples, SampleHints(lex)) <==>
      exists flat :: flat in samples && w in HintWords(lex, flat)
    {
      InFlatMap(samples, SampleHints(lex), w);
    }
    forall flat | flat in samples
      ensures (exists w :: w in HintWords(lex, flat) && Occurs(h, Lower(w))) <==> HintedBy(lex, flat, h)
    {
      HintWordsMeans(lex, flat, h);
    }
  }

  lemma ClassifySamplesMeans(lex: Lexicon, samples: seq<Dict<Scalar>>, idPath: string)
    requires lex.PlainHints() && forall flat :: flat in samples ==> flat.Valid()
    ensures TypeFound(lex, samples, idPath, ClassifySamples(lex, samples, idPath))
  {
    var seen := (h: string) => Hinted(lex, samples, h);
    var words := FlatMap(samples, SampleHints(lex));
    forall h ensures seen(h) <==> exists w :: w in words && Occurs(h, Lower(w)) {
      HintsOfSamples(lex, samples, h);
    }
    HintCountMeans(lex.shipmentHints, words, seen);
    HintCountMeans(lex.invoiceHints, words, seen);
  }

  // On one sample discovery and the reader agree: the same type, and none where the reader leaves it open.
  lemma OneSampleAgrees(lex: Lexicon, flat: Dict<Scalar>, idPath: string)
    ensures ClassifySamples(lex, [flat], idPath) ==
      (var t := Classify(lex, flat, idPath, None).0; if t == UNCLASSIFIED then None else Some(t))
  {
    assert [flat][1..] == [];
    assert FlatMap([flat], SampleHints(lex)) == HintWords(lex, flat) + [];
    assert HintWords(lex, flat) + [] == HintWords(lex, flat);
  }

  // -- the words -------------------------------------------------------------------------------------------

  function TableFor(lex: Lexicon, t: Option<EntityType>): map<string, Status> {
    if t == Some(SHIPMENT) then lex.shipmentWords else if t == Some(INVOICE) then lex.invoiceWords else map[]
  }

  // Some sample has this status word at the path.
  ghost predicate SeenWord(samples: seq<Dict<Scalar>>, path: string, t: string) {
    exists flat :: flat in samples && Hit(flat, path) && StatusToken(ScalarText(flat.at[path])) == t
  }

  lemma TokensAtMeans(samples: seq<Dict<Scalar>>, statusPaths: seq<string>, t: string)
    ensures t in TokensAt(samples, statusPaths) <==> statusPaths != [] && SeenWord(samples, statusPaths[0], t)
  {
    if statusPaths != [] {
      var path := statusPaths[0];
      InFlatMap(Seen(samples, path), Token(), t);
      if t in TokensAt(samples, statusPaths) {
        var v :| v in Seen(samples, path) && t in Token()(v);
        SeenMeans(samples, path, v);
      }
      if SeenWord(samples, path, t) {
        var flat :| flat in samples && Hit(flat, path) && StatusToken(ScalarText(flat.at[path])) == t;
        SeenMeans(samples, path, flat.at[path]);
      }
    }
  }

  // The meaning of a word is that of its longest ending in the table, and it has none if no ending is there.
  lemma MeaningReads(token: string, table: map<string, Status>, default: Status)
    ensures Meaning(token, table).Some? ==>
      exists score :: score >= 750 && WordRead(Split(token, '_'), map[], table, default, Meaning(token, table).value, score)
    ensures Meaning(token, table).None? <==> UnknownBefore(Split(token, '_'), |Split(token, '_')|, map[], table)
  {
    var parts := Split(token, '_');
    TokenReads(token, map[], table, default);
    GenericReading(parts, 1, table, default);
    ReadTokenMeans(token, map[], table, default);
    var r := ReadToken(token, map[], table, default);
    assert Meaning(token, table).Some? ==> r.0 == Meaning(token, table).value && r.1 >= 750;
    assert Meaning(token, table).None? ==> r == (default, 300);
    forall i | 0 <= i < |parts| ensures Suffix(parts, i) == Join(parts[i..], "_") {
    }
    if UnknownBefore(parts, |parts|, map[], table) {
      UnknownTokenReads(token, map[], table, default);
    } else {
      var i :| 0 <= i < |parts| && KnownFrom(parts, i, map[], table);
      assert Suffix(parts, i) in table;
    }
  }

  // -- the whole answer ---------------------------------------------------------------------------------------

  // Of one word: where it is, and what it means there.
  ghost predicate WordFound(r: DiscoveryResult, samples: seq<Dict<Scalar>>, statuses: seq<string>,
                            table: map<string, Status>, t: string)
  {
    && (t in r.profile.statusMap || t in r.unmapped <==> statuses != [] && SeenWord(samples, statuses[0], t))
    && (t in r.profile.statusMap ==>
          exists score :: score >= 750 && WordRead(Split(t, '_'), map[], table, UNKNOWN, r.profile.statusMap[t], score))
    && (t in r.unmapped ==> UnknownBefore(Split(t, '_'), |Split(t, '_')|, map[], table))
  }

  // Each word seen at the best status path is in the map with the meaning of its longest known ending, or is
  // reported, in text order, for having none; nothing else is in either.
  ghost predicate WordsFound(r: DiscoveryResult, samples: seq<Dict<Scalar>>, statuses: seq<string>, table: map<string, Status>) {
    (forall t :: WordFound(r, samples, statuses, table, t)) && StrictlySorted(r.unmapped, StringLess)
  }

  lemma UnreadMembers(tokens: seq<string>, table: map<string, Status>, t: string)
    ensures t in Unread(tokens, table) <==> t in tokens && Meaning(t, table).None?
  {
    InFlatMap(tokens, (t: string) => if Meaning(t, table).None? then [t] else [], t);
  }

  lemma ProposalWordFound(lex: Lexicon, vendor: string, samples: seq<Dict<Scalar>>, ids: seq<string>,
                          statuses: seq<string>, times: seq<string>, t: string)
    ensures var r := Proposal(lex, vendor, samples, ids, statuses, times);
      WordFound(r, samples, statuses, TypeWords(r.profile.entityType, lex), t)
  {
    var r := Proposal(lex, vendor, samples, ids, statuses, times);
    var table, tokens := TypeWords(r.profile.entityType, lex), TokensAt(samples, statuses);
    UnreadMembers(tokens, table, t);
    TokensAtMeans(samples, statuses, t);
    MeaningReads(t, table, UNKNOWN);
    assert t in r.unmapped <==> t in tokens && Meaning(t, table).None?;
    assert t in r.profile.statusMap <==> t in tokens && Meaning(t, table).Some?;
  }

  lemma ProposalWordsFound(lex: Lexicon, vendor: string, samples: seq<Dict<Scalar>>, ids: seq<string>,
                           statuses: seq<string>, times: seq<string>)
    ensures var r := Proposal(lex, vendor, samples, ids, statuses, times);
      WordsFound(r, samples, statuses, TypeWords(r.profile.entityType, lex))
  {
    var r := Proposal(lex, vendor, samples, ids, statuses, times);
    var table := TypeWords(r.profile.entityType, lex);
    forall t ensures WordFound(r, samples, statuses, table, t) {
      ProposalWordFound(lex, vendor, samples, ids, statuses, times, t);
    }
    SortedSetSorted(Unread(TokensAt(samples, statuses), table));
  }

  // The profile names the vendor and the number of samples, keeps the best four of each ranking, and the
  // warnings say what was not found.
  ghost predicate ProfileFound(r: DiscoveryResult, vendor: string, count: nat, ids: seq<string>, statuses: seq<string>,
                               times: seq<string>)
  {
    && r.profile.vendor == vendor && r.profile.sampleCount == r.sampleCount == count
    && r.profile.idPaths <= ids && |r.profile.idPaths| == Min(4, |ids|)
    && r.profile.statusPaths <= statuses && |r.profile.statusPaths| == Min(4, |statuses|)
    && r.profile.timePaths <= times && |r.profile.timePaths| == Min(4, |times|)
    && (NoIdentifierFound in r.warnings <==> ids == []) && (NoStatusFound in r.warnings <==> statuses == [])
    && (TypeUnclear in r.warnings <==> r.profile.entityType == None)
  }

  // The best identifier path, if any.
  function Best(ids: seq<string>): string {
    if ids == [] then "" else ids[0]
  }

  lemma ProposalProfile(lex: Lexicon, vendor: string, samples: seq<Dict<Scalar>>, ids: seq<string>, statuses: seq<string>,
                        times: seq<string>)
    ensures var r := Proposal(lex, vendor, samples, ids, statuses, times);
      && ProfileFound(r, vendor, |samples|, ids, statuses, times)
      && r.profile.entityType == ClassifySamples(lex, samples, Best(ids))
  {
    var t := ClassifySamples(lex, samples, Best(ids));
    var tokens, table := TokensAt(samples, statuses), TypeWords(t, lex);
    ResultProfile(vendor, t, |samples|, ids, statuses, times, Mapped(tokens, table), SortedSet(Unread(tokens, table)));
  }

  lemma ResultProfile(vendor: string, t: Option<EntityType>, count: nat, ids: seq<string>, statuses: seq<string>,
                      times: seq<string>, words: map<string, Status>, unmapped: seq<string>)
    ensures var r := Result(vendor, t, count, ids, statuses, times, words, unmapped);
      ProfileFound(r, vendor, count, ids, statuses, times) && r.profile.entityType == t
  {
  }

  ghost predicate RankedPaths(lex: Lexicon, parse: TimestampParser, samples: seq<Dict<Scalar>>, ids: seq<string>,
                              statuses: seq<string>, times: seq<string>)
  {
    && Ranked(ids, samples, lex.idKeys, LooksLikeIdentifier(parse))
    && Ranked(statuses, samples, lex.statusKeys, LooksLikeStatus(lex.statusKeys))
    && Ranked(times, samples, lex.timeKeys, LooksLikeTime(parse))
  }

  // The whole answer, for samples as they are flattened.
  lemma DiscoveryMeans(r: DiscoveryResult, lex: Lexicon, parse: TimestampParser, vendor: string, payloads: seq<Json>)
    returns (ids: seq<string>, statuses: seq<string>, times: seq<string>)
    requires IsDiscovery(r, lex, parse, vendor, payloads) && lex.PlainHints()
    ensures var samples := FlattenEach(payloads);
      && RankedPaths(lex, parse, samples, ids, statuses, times)
      && ProfileFound(r, vendor, |payloads|, ids, statuses, times)
      && TypeFound(lex, samples, Best(ids), r.profile.entityType)
      && WordsFound(r, samples, statuses, TableFor(lex, r.profile.entityType))
  {
    var samples := FlattenEach(payloads);
    ids, statuses, times :|
      Rankings(lex, parse, samples, ids, statuses, times) && r == Proposal(lex, vendor, samples, ids, statuses, times);
    SamplesValid(payloads);
    ProposalMeans(lex, parse, vendor, samples, ids, statuses, times);
  }

  lemma SameTable(lex: Lexicon, t: Option<EntityType>)
    ensures TypeWords(t, lex) == TableFor(lex, t)
  {
  }

  lemma ProposalMeans(lex: Lexicon, parse: TimestampParser, vendor: string, samples: seq<Dict<Scalar>>, ids: seq<string>,
                      statuses: seq<string>, times: seq<string>)
    requires Rankings(lex, parse, samples, ids, statuses, times)
    requires lex.PlainHints() && forall flat :: flat in samples ==> flat.Valid()
    ensures var r := Proposal(lex, vendor, samples, ids, statuses, times);
      && RankedPaths(lex, parse, samples, ids, statuses, times)
      && ProfileFound(r, vendor, |samples|, ids, statuses, times)
      && TypeFound(lex, samples, Best(ids), r.profile.entityType)
      && WordsFound(r, samples, statuses, TableFor(lex, r.profile.entityType))
  {
    var r := Proposal(lex, vendor, samples, ids, statuses, times);
    RankingsMean(lex, parse, samples, ids, statuses, times);
    ProposalProfile(lex, vendor, samples, ids, statuses, times);
    ClassifySamplesMeans(lex, samples, Best(ids));
    ProposalWordsFound(lex, vendor, samples, ids, statuses, times);
    SameTable(lex, r.profile.entityType);
  }

  lemma RankingsMean(lex: Lexicon, parse: TimestampParser, samples: seq<Dict<Scalar>>, ids: seq<string>,
                     statuses: seq<string>, times: seq<string>)
    requires Rankings(lex, parse, samples, ids, statuses, times)
    ensures RankedPaths(lex, parse, samples, ids, statuses, times)
  {
    RankingIsRanked(ids, samples, lex.idKeys, LooksLikeIdentifier(parse));
    RankingIsRanked(statuses, samples, lex.statusKeys, LooksLikeStatus(lex.statusKeys));
    RankingIsRanked(times, samples, lex.timeKeys, LooksLikeTime(parse));
  }

  lemma {:induction false} SamplesValid(payloads: seq<Json>)
    ensures |FlattenEach(payloads)| == |payloads|
    ensures forall flat :: flat in FlattenEach(payloads) ==> flat.Valid()
  {
    if payloads != [] {
      SamplesValid(payloads[1..]);
      FlattenValid(payloads[0], "");
    }
  }
}
