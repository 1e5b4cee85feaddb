/**
 Merging an untrusted proposal into a statistical discovery, and what of the discovery's guarantees
 survives whatever was proposed.
 */
module DiscoveryMerge {
  import opened Text
  import opened Ordering
  import opened OrderedDict
  import opened Payload
  import opened Vocabulary
  import opened StatusTokens
  import opened RulesBackend
  import opened Discovery

  // -- the model's proposal ------------------------------------------------------------

  datatype Mapping = Mapping(word: string, canonical: Option<string>)

  /** Whatever the model answered; nothing in it is trusted. Blank texts stand for absent fields. */
  datatype ModelProposal = ModelProposal(
    entityType: string, idPaths: seq<Json>, statusPaths: seq<Json>, timePaths: seq<Json>,
    statusMap: seq<Mapping>, notes: string)

  predicate KnownPath(samples: seq<Dict<Scalar>>, path: string) {
    exists s | s in samples :: path in s.at
  }

  function PathText(): Json -> seq<string> {
    (j: Json) =>
      if j.Leaf? && (j.scalar.Str? || j.scalar.Int? || j.scalar.Bool?) then [ScalarText(j.scalar)] else []
  }

  function Keep(paths: seq<string>, test: string -> bool): (r: seq<string>)
    ensures forall p :: p in r <==> p in paths && test(p)
    ensures |r| <= |paths|
  {
    if paths == [] then []
    else
      var n := |paths| - 1;
      Keep(paths[..n], test) + (if test(paths[n]) then [paths[n]] else [])
  }

  // The proposed paths that exist, in the model's order, then what only the samples showed.
  function KeepPaths(samples: seq<Dict<Scalar>>, proposed: seq<string>, existing: seq<string>): seq<string> {
    var valid := Keep(proposed, p => KnownPath(samples, p));
    valid + Keep(existing, p => p !in valid)
  }

  function DroppedWarning(samples: seq<Dict<Scalar>>, proposed: seq<string>): seq<Warning> {
    var dropped := |proposed| - |Keep(proposed, p => KnownPath(samples, p))|;
    if dropped > 0 then [DroppedPaths(dropped)] else []
  }

  function MergedType(base: Option<EntityType>, proposed: string): Option<EntityType> {
    if proposed == "" then base
    else
      var t := ParseType(Upper(proposed));
      if Listed(t) then Some(t) else base
  }

  datatype Draft = Draft(words: map<string, Status>, unmapped: seq<string>, warnings: seq<Warning>)

  function ProposedStatus(m: Mapping): Status
    requires m.canonical.Some?
  {
    ParseStatus(Upper(m.canonical.value))
  }

  predicate Accepts(m: Mapping, allowed: set<Status>) {
    m.canonical.Some? && ProposedStatus(m) in allowed
  }

  function Without(words: seq<string>, token: string): (r: seq<string>)
    ensures forall w :: w in r <==> w in words && w != token
  {
    Keep(words, w => w != token)
  }

  function MergeEntry(d: Draft, m: Mapping, allowed: set<Status>): Draft {
    var token := StatusToken(m.word);
    if m.canonical.None? then d
    else if Accepts(m, allowed) then
      d.(words := d.words[token := ProposedStatus(m)], unmapped := Without(d.unmapped, token))
    else
      d.(warnings := d.warnings + [IgnoredMapping(token, Upper(m.canonical.value))])
  }

  function MergeEntries(d: Draft, entries: seq<Mapping>, allowed: set<Status>): Draft {
    if entries == [] then d
    else MergeEntry(MergeEntries(d, entries[..|entries| - 1], allowed), entries[|entries| - 1], allowed)
  }

  function TypeWarning(proposed: string): seq<Warning> {
    if proposed != "" && !Listed(ParseType(Upper(proposed))) then [IgnoredType(Upper(proposed))] else []
  }

  function Opening(base: DiscoveryResult, proposal: ModelProposal): Draft {
    Draft(base.profile.statusMap, base.unmapped, base.warnings + TypeWarning(proposal.entityType))
  }

  function Allowed(lex: Lexicon, base: DiscoveryResult, proposal: ModelProposal): set<Status> {
    TypeWords(MergedType(base.profile.entityType, proposal.entityType), lex).Values
  }

  function Merged(lex: Lexicon, base: DiscoveryResult, proposal: ModelProposal, samples: seq<Dict<Scalar>>)
    : DiscoveryResult
  {
    var draft := MergeEntries(Opening(base, proposal), proposal.statusMap, Allowed(lex, base, proposal));
    Finish(base, MergedType(base.profile.entityType, proposal.entityType), draft, samples,
           FlatMap(proposal.idPaths, PathText()), FlatMap(proposal.statusPaths, PathText()),
           FlatMap(proposal.timePaths, PathText()), proposal.notes)
  }

  const MAX_NOTES := 500

  function FirstChars(s: string, n: nat): string {
    if |s| > n then s[..n] else s
  }

  function Finish(base: DiscoveryResult, entityType: Option<EntityType>, draft: Draft, samples: seq<Dict<Scalar>>,
                  ids: seq<string>, statuses: seq<string>, times: seq<string>, notes: string): DiscoveryResult
  {
    DiscoveryResult(
      VendorProfile(base.profile.vendor, entityType,
                    FirstFour(KeepPaths(samples, ids, base.profile.idPaths)),
                    FirstFour(KeepPaths(samples, statuses, base.profile.statusPaths)),
                    FirstFour(KeepPaths(samples, times, base.profile.timePaths)),
                    draft.words, "DISCOVERED", base.sampleCount, FirstChars(Strip(notes), MAX_NOTES)),
      MODEL_ASSISTED, base.sampleCount, SortedSet(draft.unmapped),
      draft.warnings + DroppedWarning(samples, ids) + DroppedWarning(samples, statuses) + DroppedWarning(samples, times))
  }

  method MergeWords(opening: Draft, entries: seq<Mapping>, allowed: set<Status>) returns (draft: Draft)
    ensures draft == MergeEntries(opening, entries, allowed)
  {
    draft := opening;
    for i := 0 to |entries|
      invariant draft == MergeEntries(opening, entries[..i], allowed)
    {
      assert entries[..i + 1][..i] == entries[..i];
      draft := MergeEntry(draft, entries[i], allowed);
    }
    assert entries[..|entries|] == entries;
  }

  // -- what survives a merge -----------------------------------------------------------

  // Tokens the proposal gave an accepted meaning.
  ghost predicate Overridden(entries: seq<Mapping>, allowed: set<Status>, token: string) {
    exists i :: 0 <= i < |entries| && Accepts(entries[i], allowed) && StatusToken(entries[i].word) == token
  }

  lemma OverriddenSnoc(entries: seq<Mapping>, m: Mapping, allowed: set<Status>, t: string)
    ensures Overridden(entries + [m], allowed, t) <==>
      Overridden(entries, allowed, t) || (Accepts(m, allowed) && StatusToken(m.word) == t)
  {
    var all := entries + [m];
    if Overridden(entries, allowed, t) {
      var i :| 0 <= i < |entries| && Accepts(entries[i], allowed) && StatusToken(entries[i].word) == t;
      assert all[i] == entries[i];
    }
    assert all[|entries|] == m;
    if Overridden(all, allowed, t) {
      var i :| 0 <= i < |all| && Accepts(all[i], allowed) && StatusToken(all[i].word) == t;
      assert i < |entries| ==> entries[i] == all[i];
    }
  }

  // How one draft differs from another at a token that was, or was not, given a new meaning.
  ghost predicate Follows(d: Draft, m: Draft, allowed: set<Status>, t: string, overridden: bool) {
    if overridden then t in m.words && m.words[t] in allowed && t !in m.unmapped
    else
      && (t in m.words <==> t in d.words) && (t in d.words ==> m.words[t] == d.words[t])
      && (t in m.unmapped <==> t in d.unmapped)
  }

  lemma {:induction false} MergeEntriesMeans(d: Draft, entries: seq<Mapping>, allowed: set<Status>, t: string)
    ensures Follows(d, MergeEntries(d, entries, allowed), allowed, t, Overridden(entries, allowed, t))
  {
    if entries != [] {
      var n := |entries| - 1;
      var front, m := entries[..n], entries[n];
      MergeEntriesMeans(d, front, allowed, t);
      assert front + [m] == entries;
      OverriddenSnoc(front, m, allowed, t);
      MergeEntryMeans(MergeEntries(d, front, allowed), m, allowed, t);
    }
  }

  lemma MergeEntryMeans(d: Draft, m: Mapping, allowed: set<Status>, t: string)
    ensures Follows(d, MergeEntry(d, m, allowed), allowed, t, Accepts(m, allowed) && StatusToken(m.word) == t)
  {
  }

  ghost predicate PathsKnown(p: VendorProfile, samples: seq<Dict<Scalar>>) {
    forall path :: path in p.idPaths || path in p.statusPaths || path in p.timePaths ==> KnownPath(samples, path)
  }

  // Each of the words is either mapped or reported as unmapped, and nothing else is reported.
  ghost predicate WordsAccounted(r: DiscoveryResult, tokens: seq<string>) {
    && (forall t :: t in tokens ==> (t in r.profile.statusMap <==> t !in r.unmapped))
    && (forall t :: t in r.unmapped ==> t in tokens)
  }

  // The map has no words but these.
  ghost predicate WordsFrom(r: DiscoveryResult, tokens: seq<string>) {
    forall t :: t in r.profile.statusMap ==> t in tokens
  }

  lemma SeenIsKnown(samples: seq<Dict<Scalar>>, path: string)
    requires Seen(samples, path) != []
    ensures KnownPath(samples, path)
  {
    if !Hit(samples[0], path) {
      assert Seen(samples, path) == Seen(samples[1..], path);
      SeenIsKnown(samples[1..], path);
    }
  }

  lemma UnreadMeans(tokens: seq<string>, table: map<string, Status>)
    ensures forall t :: t in Unread(tokens, table) <==> t in tokens && Meaning(t, table).None?
  {
    if tokens != [] {
      UnreadMeans(tokens[1..], table);
    }
  }

  lemma {:induction false} MeaningFits(parts: seq<string>, start: nat, table: map<string, Status>, t: EntityType)
    requires start <= |parts| && forall w :: w in table ==> StatusFits(table[w], t)
    ensures MeaningFrom(parts, start, table).Some? ==> StatusFits(MeaningFrom(parts, start, table).value, t)
    decreases |parts| - start
  {
    if start < |parts| {
      MeaningFits(parts, start + 1, table, t);
    }
  }

  lemma RankedPathsKnown(r: seq<string>, samples: seq<Dict<Scalar>>, keys: seq<string>, test: PathTest)
    requires IsRanking(r, samples, keys, test)
    ensures forall p :: p in FirstFour(r) ==> KnownPath(samples, p)
  {
    forall p | p in FirstFour(r) ensures KnownPath(samples, p) {
      assert p in r && Eligible(samples, keys, test, p);
      SeenIsKnown(samples, p);
    }
  }

  lemma MappedFits(tokens: seq<string>, table: map<string, Status>, t: Option<EntityType>)
    requires t.None? ==> table == map[]
    requires t.Some? ==> forall w :: w in table ==> StatusFits(table[w], t.value)
    ensures forall w :: w in Mapped(tokens, table) ==> t.Some? && StatusFits(Mapped(tokens, table)[w], t.value)
  {
    forall w | w in Mapped(tokens, table) ensures t.Some? && StatusFits(Mapped(tokens, table)[w], t.value) {
      if t.Some? {
        MeaningFits(Split(w, '_'), 1, table, t.value);
      } else {
        NothingWithoutATable(Split(w, '_'), 1);
      }
    }
  }

  // The statistical reading is grounded: its paths occur, its words are accounted for, and its profile
  // is one the reader can always use.
  lemma StatisticalDiscoveryGrounded(r: DiscoveryResult, lex: Lexicon, parse: TimestampParser, vendor: string,
                                     payloads: seq<Json>)
    requires lex.Canonical() && IsDiscovery(r, lex, parse, vendor, payloads)
    ensures PathsKnown(r.profile, FlattenEach(payloads))
    ensures WordsAccounted(r, TokensAt(FlattenEach(payloads), r.profile.statusPaths))
    ensures WordsFrom(r, TokensAt(FlattenEach(payloads), r.profile.statusPaths))
    ensures WellFormedProfile(Some(r.profile)) && r.profile.entityType != Some(UNCLASSIFIED)
  {
    var samples := FlattenEach(payloads);
    var ids, statuses, times :|
      Rankings(lex, parse, samples, ids, statuses, times) && r == Proposal(lex, vendor, samples, ids, statuses, times);
    RankingsKnown(lex, parse, samples, ids, statuses, times);
    ProposalGrounded(lex, vendor, samples, ids, statuses, times);
    ProposalWords(lex, vendor, samples, ids, statuses, times);
  }

  lemma ProposalWords(lex: Lexicon, vendor: string, samples: seq<Dict<Scalar>>, ids: seq<string>,
                      statuses: seq<string>, times: seq<string>)
    requires lex.Canonical()
    ensures var r := Proposal(lex, vendor, samples, ids, statuses, times);
      && WordsAccounted(r, TokensAt(samples, r.profile.statusPaths))
      && WordsFrom(r, TokensAt(samples, r.profile.statusPaths)) && WellFormedProfile(Some(r.profile))
  {
    ProposalGrounded(lex, vendor, samples, ids, statuses, times);
    var t := ClassifySamples(lex, samples, Head(ids));
    var tokens, table := TokensAt(samples, statuses), TypeWords(t, lex);
    UnreadMeans(tokens, table);
    MappedFits(tokens, table, t);
  }

  lemma ProposalGrounded(lex: Lexicon, vendor: string, samples: seq<Dict<Scalar>>, ids: seq<string>,
                         statuses: seq<string>, times: seq<string>)
    ensures var r := Proposal(lex, vendor, samples, ids, statuses, times);
      var t := ClassifySamples(lex, samples, Head(ids));
      var tokens, table := TokensAt(samples, statuses), TypeWords(t, lex);
      && r.profile.entityType == t && r.profile.statusMap == Mapped(tokens, table)
      && r.profile.statusPaths == FirstFour(statuses) && TokensAt(samples, r.profile.statusPaths) == tokens
      && r.profile.idPaths == FirstFour(ids) && r.profile.timePaths == FirstFour(times)
      && r.unmapped == SortedSet(Unread(tokens, table))
      && (t == None || t == Some(SHIPMENT) || t == Some(INVOICE))
  {
  }

  lemma RankingsKnown(lex: Lexicon, parse: TimestampParser, samples: seq<Dict<Scalar>>, ids: seq<string>,
                      statuses: seq<string>, times: seq<string>)
    requires Rankings(lex, parse, samples, ids, statuses, times)
    ensures forall p :: p in FirstFour(ids) || p in FirstFour(statuses) || p in FirstFour(times) ==> KnownPath(samples, p)
  {
    RankedPathsKnown(ids, samples, lex.idKeys, LooksLikeIdentifier(parse));
    RankedPathsKnown(statuses, samples, lex.statusKeys, LooksLikeStatus(lex.statusKeys));
    RankedPathsKnown(times, samples, lex.timeKeys, LooksLikeTime(parse));
  }

  lemma KeptPathsKnown(samples: seq<Dict<Scalar>>, proposed: seq<string>, existing: seq<string>)
    requires forall p :: p in existing ==> KnownPath(samples, p)
    ensures forall p :: p in FirstFour(KeepPaths(samples, proposed, existing)) ==> KnownPath(samples, p)
  {
    forall p | p in FirstFour(KeepPaths(samples, proposed, existing)) ensures KnownPath(samples, p) {
      assert p in KeepPaths(samples, proposed, existing);
    }
  }

  lemma MergedPathsKnown(lex: Lexicon, base: DiscoveryResult, proposal: ModelProposal, samples: seq<Dict<Scalar>>)
    requires PathsKnown(base.profile, samples)
    ensures PathsKnown(Merged(lex, base, proposal, samples).profile, samples)
  {
    KeptPathsKnown(samples, FlatMap(proposal.idPaths, PathText()), base.profile.idPaths);
    KeptPathsKnown(samples, FlatMap(proposal.statusPaths, PathText()), base.profile.statusPaths);
    KeptPathsKnown(samples, FlatMap(proposal.timePaths, PathText()), base.profile.timePaths);
  }

  lemma MergedWordsAccounted(lex: Lexicon, base: DiscoveryResult, proposal: ModelProposal, samples: seq<Dict<Scalar>>,
                             tokens: seq<string>)
    requires WordsAccounted(base, tokens)
    ensures WordsAccounted(Merged(lex, base, proposal, samples), tokens)
  {
    var r, allowed := Merged(lex, base, proposal, samples), Allowed(lex, base, proposal);
    forall t ensures t in tokens ==> (t in r.profile.statusMap <==> t !in r.unmapped)
      ensures t in r.unmapped ==> t in tokens
    {
      MergeEntriesMeans(Opening(base, proposal), proposal.statusMap, allowed, t);
    }
  }

  // However wild the proposal, the merged profile only names paths the samples have, and every word
  // seen stays accounted for.
  lemma MergeStaysGrounded(lex: Lexicon, base: DiscoveryResult, proposal: ModelProposal, samples: seq<Dict<Scalar>>,
                           tokens: seq<string>)
    requires PathsKnown(base.profile, samples) && WordsAccounted(base, tokens)
    ensures var r := Merged(lex, base, proposal, samples);
      PathsKnown(r.profile, samples) && WordsAccounted(r, tokens)
  {
    MergedPathsKnown(lex, base, proposal, samples);
    MergedWordsAccounted(lex, base, proposal, samples, tokens);
  }

  // The status path that the merged profile puts first: the first proposed one that the samples have, or
  // failing that the base's.
  function ChosenStatusPath(base: DiscoveryResult, proposal: ModelProposal, samples: seq<Dict<Scalar>>): string {
    var valid := Keep(FlatMap(proposal.statusPaths, PathText()), p => KnownPath(samples, p));
    if valid != [] then valid[0] else Head(base.profile.statusPaths)
  }

  lemma {:induction false} KeepAll(paths: seq<string>, test: string -> bool)
    requires forall p :: p in paths ==> test(p)
    ensures Keep(paths, test) == paths
  {
    if paths != [] {
      var n := |paths| - 1;
      var front := paths[..n];
      forall p | p in front ensures test(p) {
        assert p in paths;
      }
      KeepAll(front, test);
      assert test(paths[n]) by { assert paths[n] in paths; }
      assert paths == front + [paths[n]];
    }
  }

  lemma ChosenIsFirst(lex: Lexicon, base: DiscoveryResult, proposal: ModelProposal, samples: seq<Dict<Scalar>>)
    ensures Head(Merged(lex, base, proposal, samples).profile.statusPaths) == ChosenStatusPath(base, proposal, samples)
  {
    var valid := Keep(FlatMap(proposal.statusPaths, PathText()), p => KnownPath(samples, p));
    if valid == [] {
      KeepAll(base.profile.statusPaths, p => p !in valid);
    }
  }

  // The model may put another status path first. The words seen there are all mapped or reported if and
  // only if each of them was seen at the base's path too or was given a meaning by the proposal.
  lemma ChosenPathAccountedExactly(lex: Lexicon, base: DiscoveryResult, proposal: ModelProposal,
                                   samples: seq<Dict<Scalar>>, tokens: seq<string>)
    requires WordsAccounted(base, tokens) && WordsFrom(base, tokens)
    ensures var r := Merged(lex, base, proposal, samples);
      var chosen := TokensAt(samples, r.profile.statusPaths);
      (forall t :: t in chosen ==> t in r.profile.statusMap || t in r.unmapped) <==>
      (forall t :: t in chosen ==> t in tokens || Overridden(proposal.statusMap, Allowed(lex, base, proposal), t))
  {
    var r, allowed := Merged(lex, base, proposal, samples), Allowed(lex, base, proposal);
    forall t
      ensures t in r.profile.statusMap || t in r.unmapped <==> t in tokens || Overridden(proposal.statusMap, allowed, t)
    {
      MergeEntriesMeans(Opening(base, proposal), proposal.statusMap, allowed, t);
    }
  }

  // A proposal that puts another known path first and maps nothing leaves a word seen only there unmapped
  // and unreported.
  lemma AWordCanGoUnreported(lex: Lexicon, base: DiscoveryResult, proposal: ModelProposal, samples: seq<Dict<Scalar>>,
                             tokens: seq<string>, t: string)
    requires WordsAccounted(base, tokens) && WordsFrom(base, tokens) && proposal.statusMap == []
    requires t in TokensAt(samples, [ChosenStatusPath(base, proposal, samples)]) && t !in tokens
    requires FlatMap(proposal.statusPaths, PathText()) == [ChosenStatusPath(base, proposal, samples)]
    requires KnownPath(samples, ChosenStatusPath(base, proposal, samples))
    ensures var r := Merged(lex, base, proposal, samples);
      t in TokensAt(samples, r.profile.statusPaths) && t !in r.profile.statusMap && t !in r.unmapped
  {
    var r, allowed := Merged(lex, base, proposal, samples), Allowed(lex, base, proposal);
    var p := ChosenStatusPath(base, proposal, samples);
    KeepAll([p], q => KnownPath(samples, q));
    ChosenIsFirst(lex, base, proposal, samples);
    MergeEntriesMeans(Opening(base, proposal), proposal.statusMap, allowed, t);
  }

  // What the proposal added is canonical for the merged type; everything else is the base's own entry.
  lemma MergedWordsComeFromSomewhere(lex: Lexicon, base: DiscoveryResult, proposal: ModelProposal,
                                     samples: seq<Dict<Scalar>>, t: string)
    requires lex.Canonical() && t in Merged(lex, base, proposal, samples).profile.statusMap
    ensures var p := Merged(lex, base, proposal, samples).profile;
      if Overridden(proposal.statusMap, Allowed(lex, base, proposal), t)
      then p.entityType.Some? && StatusFits(p.statusMap[t], p.entityType.value)
      else t in base.profile.statusMap && p.statusMap[t] == base.profile.statusMap[t]
  {
    MergeEntriesMeans(Opening(base, proposal), proposal.statusMap, Allowed(lex, base, proposal), t);
  }

  // The merged profile is one the reader can always use exactly when the model left the entity type
  // alone, or gave every word the statistical pass had mapped a meaning of the new type.
  lemma MergedProfileWellFormed(lex: Lexicon, base: DiscoveryResult, proposal: ModelProposal, samples: seq<Dict<Scalar>>)
    requires lex.Canonical() && WellFormedProfile(Some(base.profile))
    ensures var merged := MergedType(base.profile.entityType, proposal.entityType);
      WellFormedProfile(Some(Merged(lex, base, proposal, samples).profile)) <==>
        || merged == base.profile.entityType
        || forall t :: t in base.profile.statusMap ==> Overridden(proposal.statusMap, Allowed(lex, base, proposal), t)
  {
    var p, allowed := Merged(lex, base, proposal, samples).profile, Allowed(lex, base, proposal);
    if p.entityType == base.profile.entityType
      || forall t :: t in base.profile.statusMap ==> Overridden(proposal.statusMap, allowed, t)
    {
      forall t | t in p.statusMap ensures p.entityType.Some? && StatusFits(p.statusMap[t], p.entityType.value) {
        MergedWordsComeFromSomewhere(lex, base, proposal, samples, t);
        assert t in base.profile.statusMap ==> t in VendorWords(Some(base.profile));
      }
      assert TypedProfile(Some(p));
    } else {
      var t :| t in base.profile.statusMap && !Overridden(proposal.statusMap, allowed, t);
      MergeEntriesMeans(Opening(base, proposal), proposal.statusMap, allowed, t);
      assert t in VendorWords(Some(p)) && p.statusMap[t] == base.profile.statusMap[t];
      assert t in VendorWords(Some(base.profile));
      FitsOneType(base.profile.statusMap[t], base.profile.entityType.value);
    }
  }

  // Changing the type of a profile that maps a word, and saying nothing of the word, is enough to spoil it.
  lemma AMergeCanSpoilAProfile(lex: Lexicon, base: DiscoveryResult, proposal: ModelProposal, samples: seq<Dict<Scalar>>, w: string)
    requires lex.Canonical() && WellFormedProfile(Some(base.profile)) && w in base.profile.statusMap
    requires MergedType(base.profile.entityType, proposal.entityType) != base.profile.entityType
    requires proposal.statusMap == []
    ensures !WellFormedProfile(Some(Merged(lex, base, proposal, samples).profile))
  {
    MergedProfileWellFormed(lex, base, proposal, samples);
    assert !Overridden(proposal.statusMap, Allowed(lex, base, proposal), w);
  }

  lemma FitsOneType(s: Status, t: EntityType)
    requires StatusFits(s, t)
    ensures forall u :: StatusFits(s, u) ==> u == t
  {
  }

  // -- the merge, step by step -----------------------------------------------------------

  method KeepWhere(paths: seq<string>, test: string -> bool) returns (kept: seq<string>)
    ensures kept == Keep(paths, test)
  {
    kept := [];
    for i := 0 to |paths|
      invariant kept == Keep(paths[..i], test)
    {
      assert paths[..i + 1][..i] == paths[..i];
      if test(paths[i]) {
        kept := kept + [paths[i]];
      }
    }
    assert paths[..|paths|] == paths;
  }

  method PathTexts(raw: seq<Json>) returns (paths: seq<string>)
    ensures paths == FlatMap(raw, PathText())
  {
    paths := [];
    for i := 0 to |raw|
      invariant paths == FlatMap(raw[..i], PathText())
    {
      assert raw[..i + 1] == raw[..i] + [raw[i]];
      FlatMapConcat(raw[..i], [raw[i]], PathText());
      assert [raw[i]][1..] == [];
      if raw[i].Leaf? && (raw[i].scalar.Str? || raw[i].scalar.Int? || raw[i].scalar.Bool?) {
        paths := paths + [ScalarText(raw[i].scalar)];
      }
    }
    assert raw[..|raw|] == raw;
  }

  // What is kept is exactly the proposed paths that the samples have and the paths found before; a warning
  // says how many proposed ones were not.
  method KeepProposed(samples: seq<Dict<Scalar>>, raw: seq<Json>, existing: seq<string>, warnings: seq<Warning>)
    returns (kept: seq<string>, warned: seq<Warning>)
    ensures kept == KeepPaths(samples, FlatMap(raw, PathText()), existing)
    ensures warned == warnings + DroppedWarning(samples, FlatMap(raw, PathText()))
    ensures forall p :: p in kept <==> (p in FlatMap(raw, PathText()) && KnownPath(samples, p)) || p in existing
  {
    var proposed := PathTexts(raw);
    var valid := KeepWhere(proposed, p => KnownPath(samples, p));
    warned := warnings;
    if |proposed| - |valid| > 0 {
      warned := warned + [DroppedPaths(|proposed| - |valid|)];
    }
    var more := KeepWhere(existing, p => p !in valid);
    kept := valid + more;
    KeptExactly(samples, proposed, existing);
  }

  lemma KeptExactly(samples: seq<Dict<Scalar>>, proposed: seq<string>, existing: seq<string>)
    ensures forall p :: p in KeepPaths(samples, proposed, existing) <==>
      (p in proposed && KnownPath(samples, p)) || p in existing
  {
  }

  // Whatever the model proposes, the caller gets a profile of the same vendor whose paths all occur in the
  // samples if the base's did, in which every word the base accounted for is still mapped or reported, and
  // which the reader can use unless the type was changed over a word that the proposal left alone.
  method MergeModelProposal(lex: Lexicon, base: DiscoveryResult, proposal: ModelProposal, samples: seq<Dict<Scalar>>)
    returns (r: DiscoveryResult)
    ensures r == Merged(lex, base, proposal, samples)
    ensures r.profile.vendor == base.profile.vendor && r.sampleCount == base.sampleCount
    ensures PathsKnown(base.profile, samples) ==> PathsKnown(r.profile, samples)
    ensures forall tokens: seq<string> :: WordsAccounted(base, tokens) ==> WordsAccounted(r, tokens)
    ensures lex.Canonical() && WellFormedProfile(Some(base.profile)) ==>
      (WellFormedProfile(Some(r.profile)) <==>
        || r.profile.entityType == base.profile.entityType
        || forall t :: t in base.profile.statusMap ==> Overridden(proposal.statusMap, Allowed(lex, base, proposal), t))
  {
    var warnings := base.warnings;
    var entityType := base.profile.entityType;
    if proposal.entityType != "" {
      var proposed := ParseType(Upper(proposal.entityType));
      if Listed(proposed) {
        entityType := Some(proposed);
      } else {
        warnings := warnings + [IgnoredType(Upper(proposal.entityType))];
      }
    }
    var opening := Draft(base.profile.statusMap, base.unmapped, warnings);
    assert opening == Opening(base, proposal);
    var draft := MergeWords(opening, proposal.statusMap, TypeWords(entityType, lex).Values);
    var ids, statuses, times;
    warnings := draft.warnings;
    ids, warnings := KeepProposed(samples, proposal.idPaths, base.profile.idPaths, warnings);
    statuses, warnings := KeepProposed(samples, proposal.statusPaths, base.profile.statusPaths, warnings);
    times, warnings := KeepProposed(samples, proposal.timePaths, base.profile.timePaths, warnings);
    r := DiscoveryResult(
      VendorProfile(base.profile.vendor, entityType, FirstFour(ids), FirstFour(statuses), FirstFour(times), draft.words,
                    "DISCOVERED", base.sampleCount, FirstChars(Strip(proposal.notes), MAX_NOTES)),
      MODEL_ASSISTED, base.sampleCount, SortedSet(draft.unmapped), warnings);
    MergeServes(lex, base, proposal, samples);
  }

  lemma MergeServes(lex: Lexicon, base: DiscoveryResult, proposal: ModelProposal, samples: seq<Dict<Scalar>>)
    ensures var r := Merged(lex, base, proposal, samples);
      && (PathsKnown(base.profile, samples) ==> PathsKnown(r.profile, samples))
      && (forall tokens: seq<string> :: WordsAccounted(base, tokens) ==> WordsAccounted(r, tokens))
      && (lex.Canonical() && WellFormedProfile(Some(base.profile)) ==>
            (WellFormedProfile(Some(r.profile)) <==>
              || r.profile.entityType == base.profile.entityType
              || forall t :: t in base.profile.statusMap ==> Overridden(proposal.statusMap, Allowed(lex, base, proposal), t)))
  {
    var r := Merged(lex, base, proposal, samples);
    if PathsKnown(base.profile, samples) {
      MergedPathsKnown(lex, base, proposal, samples);
    }
    forall tokens: seq<string> | WordsAccounted(base, tokens) ensures WordsAccounted(r, tokens) {
      MergedWordsAccounted(lex, base, proposal, samples, tokens);
    }
    if lex.Canonical() && WellFormedProfile(Some(base.profile)) {
      MergedProfileWellFormed(lex, base, proposal, samples);
    }
  }
}
