/**
 What a merged discovery takes from the model and what it leaves, read off the proposal: the type, the words,
 the order of the paths, the notes and the warnings.
 */
module Merges {
  import opened Text
  import opened Ordering
  import opened Selections
  import opened OrderedDict
  import opened Payload
  import opened Vocabulary
  import opened StatusTokens
  import opened RulesBackend
  import opened Discovery
  import opened DiscoveryMerge

  // -- the type --------------------------------------------------------------------------------

  // A listed type replaces the one found, in whatever case it is written; anything else leaves it.
  lemma MergedTypeMeans(base: Option<EntityType>, proposed: string)
    ensures forall t :: Listed(t) && SameWithoutCase(proposed, TypeName(t)) ==> MergedType(base, proposed) == Some(t)
    ensures (forall t :: Listed(t) ==> !SameWithoutCase(proposed, TypeName(t))) ==> MergedType(base, proposed) == base
  {
    forall t | Listed(t) ensures ParseType(Upper(proposed)) == t <==> SameWithoutCase(proposed, TypeName(t)) {
      NamesAType(proposed, t);
    }
    assert proposed == "" ==> forall t :: Listed(t) ==> !SameWithoutCase(proposed, TypeName(t));
  }

  // -- the words -------------------------------------------------------------------------------

  // The entry gives the word a status of the merged type, in whatever case it is written.
  predicate Gives(m: Mapping, t: EntityType, word: string, s: Status) {
    StatusToken(m.word) == word && m.canonical.Some? && StatusFits(s, t) && SameWithoutCase(m.canonical.value, StatusName(s))
  }

  // Shipment and invoice words may be given a meaning, and no other type's.
  predicate Meaningful(t: Option<EntityType>) {
    t == Some(SHIPMENT) || t == Some(INVOICE)
  }

  lemma AllowedMeans(lex: Lexicon, base: DiscoveryResult, proposal: ModelProposal, s: Status)
    requires lex.Canonical()
    ensures var t := MergedType(base.profile.entityType, proposal.entityType);
      s in Allowed(lex, base, proposal) <==> Meaningful(t) && StatusFits(s, t.value)
  {
  }

  lemma AcceptsMeans(lex: Lexicon, base: DiscoveryResult, proposal: ModelProposal, m: Mapping, s: Status)
    requires lex.Canonical()
    ensures var t := MergedType(base.profile.entityType, proposal.entityType);
      Accepts(m, Allowed(lex, base, proposal)) && ProposedStatus(m) == s <==> Meaningful(t) && Gives(m, t.value, StatusToken(m.word), s)
  {
    AllowedMeans(lex, base, proposal, s);
    if m.canonical.Some? && !s.Other? {
      NamesAStatus(m.canonical.value, s);
    }
  }

  // The i-th entry is the last that gives the word a status.
  ghost predicate LastSays(entries: seq<Mapping>, allowed: set<Status>, word: string, i: nat) {
    && i < |entries| && StatusToken(entries[i].word) == word && Accepts(entries[i], allowed)
    && forall k :: i < k < |entries| ==> StatusToken(entries[k].word) != word || !Accepts(entries[k], allowed)
  }

  lemma {:induction false} LastEntryDecides(d: Draft, entries: seq<Mapping>, allowed: set<Status>, word: string, i: nat)
    requires LastSays(entries, allowed, word, i)
    ensures var r := MergeEntries(d, entries, allowed); word in r.words && r.words[word] == ProposedStatus(entries[i])
  {
    var n := |entries| - 1;
    if i < n {
      assert LastSays(entries[..n], allowed, word, i);
      LastEntryDecides(d, entries[..n], allowed, word, i);
    }
  }

  // The last entry that gives a word a status decides it; a word that no entry gives one keeps the base's, and
  // is reported as unmapped exactly when the base reported it.
  ghost predicate WordMerged(base: DiscoveryResult, r: DiscoveryResult, entries: seq<Mapping>, t: Option<EntityType>, word: string) {
    && (forall i, s | 0 <= i < |entries| && Meaningful(t) && Gives(entries[i], t.value, word, s) && NoneGives(entries, i + 1, t, word) ::
          word in r.profile.statusMap && r.profile.statusMap[word] == s && word !in r.unmapped)
    && (NoneGives(entries, 0, t, word) ==>
          && (word in r.profile.statusMap <==> word in base.profile.statusMap)
          && (word in base.profile.statusMap ==> r.profile.statusMap[word] == base.profile.statusMap[word])
          && (word in r.unmapped <==> word in base.unmapped))
  }

  ghost predicate NoneGives(entries: seq<Mapping>, from: nat, t: Option<EntityType>, word: string) {
    Meaningful(t) ==> forall k, s :: from <= k < |entries| ==> !Gives(entries[k], t.value, word, s)
  }

  lemma MergedWordsMean(lex: Lexicon, base: DiscoveryResult, proposal: ModelProposal, samples: seq<Dict<Scalar>>, word: string)
    requires lex.Canonical()
    ensures WordMerged(base, Merged(lex, base, proposal, samples), proposal.statusMap,
                       MergedType(base.profile.entityType, proposal.entityType), word)
  {
    var entries, allowed := proposal.statusMap, Allowed(lex, base, proposal);
    var t := MergedType(base.profile.entityType, proposal.entityType);
    var opening := Opening(base, proposal);
    MergeEntriesMeans(opening, entries, allowed, word);
    forall k | 0 <= k < |entries|
      ensures Accepts(entries[k], allowed) ==> Meaningful(t) && Gives(entries[k], t.value, StatusToken(entries[k].word), ProposedStatus(entries[k]))
      ensures forall s :: Meaningful(t) && Gives(entries[k], t.value, word, s) ==> Accepts(entries[k], allowed) && ProposedStatus(entries[k]) == s
    {
      EntryMeans(lex, base, proposal, entries[k], word);
    }
    forall i, s | 0 <= i < |entries| && Meaningful(t) && Gives(entries[i], t.value, word, s) && NoneGives(entries, i + 1, t, word)
      ensures var r := MergeEntries(opening, entries, allowed);
        word in r.words && r.words[word] == s && word !in r.unmapped
    {
      assert LastSays(entries, allowed, word, i);
      LastEntryDecides(opening, entries, allowed, word, i);
      assert Overridden(entries, allowed, word);
    }
  }

  lemma EntryMeans(lex: Lexicon, base: DiscoveryResult, proposal: ModelProposal, m: Mapping, word: string)
    requires lex.Canonical()
    ensures var t, allowed := MergedType(base.profile.entityType, proposal.entityType), Allowed(lex, base, proposal);
      && (Accepts(m, allowed) ==> Meaningful(t) && Gives(m, t.value, StatusToken(m.word), ProposedStatus(m)))
      && (forall s :: Meaningful(t) && Gives(m, t.value, word, s) ==> Accepts(m, allowed) && ProposedStatus(m) == s)
  {
    forall s {
      AcceptsMeans(lex, base, proposal, m, s);
    }
    if m.canonical.Some? {
      AcceptsMeans(lex, base, proposal, m, ProposedStatus(m));
    }
  }

  // -- the paths --------------------------------------------------------------------------------

  lemma {:induction false} KeepMeans(paths: seq<string>, test: string -> bool)
    ensures Selected(Keep(paths, test), paths, test, (p: string) => p)
  {
    var itself := (p: string) => p;
    if paths == [] {
      SelectedNone(test, itself);
    } else {
      var n := |paths| - 1;
      KeepMeans(paths[..n], test);
      SelectedSnoc(Keep(paths[..n], test), paths[..n], paths[n], test, itself);
      assert paths[..n] + [paths[n]] == paths;
    }
  }

  // Proposed as text or as a whole number, and found in some sample.
  predicate Usable(samples: seq<Dict<Scalar>>, j: Json) {
    j.Leaf? && (j.scalar.Str? || j.scalar.Int? || j.scalar.Bool?) && KnownPath(samples, ScalarText(j.scalar))
  }

  function TextOf(j: Json): string {
    if j.Leaf? then ScalarText(j.scalar) else ""
  }

  lemma {:induction false} ModelPathsMean(samples: seq<Dict<Scalar>>, raw: seq<Json>)
    ensures Selected(Keep(FlatMap(raw, PathText()), p => KnownPath(samples, p)), raw, j => Usable(samples, j), TextOf)
  {
    var known, usable := p => KnownPath(samples, p), j => Usable(samples, j);
    if raw == [] {
      SelectedNone(usable, TextOf);
    } else {
      var n := |raw| - 1;
      var kept := Keep(FlatMap(raw[..n], PathText()), known);
      ModelPathsMean(samples, raw[..n]);
      KeptSnoc(samples, raw[..n], raw[n]);
      SelectedSnoc(kept, raw[..n], raw[n], usable, TextOf);
      assert raw[..n] + [raw[n]] == raw;
      assert Keep(FlatMap(raw, PathText()), known) == kept + (if usable(raw[n]) then [TextOf(raw[n])] else []);
    }
  }

  lemma KeptSnoc(samples: seq<Dict<Scalar>>, raw: seq<Json>, j: Json)
    ensures var known := (p: string) => KnownPath(samples, p);
      Keep(FlatMap(raw + [j], PathText()), known) ==
      Keep(FlatMap(raw, PathText()), known) + (if Usable(samples, j) then [TextOf(j)] else [])
  {
    FlatMapConcat(raw, [j], PathText());
    assert [j][1..] == [];
    var before, more := FlatMap(raw, PathText()), PathText()(j);
    assert FlatMap([j], PathText()) == more;
    if more == [] {
      assert before + more == before;
    } else {
      assert (before + more)[..|before|] == before;
    }
  }

  // The usable proposals in the model's order, then the paths found before that are not among them, in
  // theirs; the first four of these.
  ghost predicate PathsMerged(r: seq<string>, samples: seq<Dict<Scalar>>, raw: seq<Json>, existing: seq<string>) {
    exists theirs, ours :: TheirsThenOurs(theirs, ours, samples, raw, existing)
                           && r <= theirs + ours && |r| == Min(4, |theirs + ours|)
  }

  ghost predicate TheirsThenOurs(theirs: seq<string>, ours: seq<string>, samples: seq<Dict<Scalar>>, raw: seq<Json>,
                                 existing: seq<string>)
  {
    && Selected(theirs, raw, j => Usable(samples, j), TextOf)
    && Selected(ours, existing, p => p !in theirs, (p: string) => p)
  }

  lemma KeepPathsMeans(samples: seq<Dict<Scalar>>, raw: seq<Json>, existing: seq<string>)
    ensures PathsMerged(FirstFour(KeepPaths(samples, FlatMap(raw, PathText()), existing)), samples, raw, existing)
  {
    var theirs := Keep(FlatMap(raw, PathText()), p => KnownPath(samples, p));
    var ours := Keep(existing, p => p !in theirs);
    ModelPathsMean(samples, raw);
    KeepMeans(existing, p => p !in theirs);
    assert TheirsThenOurs(theirs, ours, samples, raw, existing);
    assert KeepPaths(samples, FlatMap(raw, PathText()), existing) == theirs + ours;
  }

  // -- the whole merge ---------------------------------------------------------------------------

  // What is not up to the model.
  ghost predicate FixedFields(base: DiscoveryResult, proposal: ModelProposal, r: DiscoveryResult) {
    && r.profile.vendor == base.profile.vendor && r.profile.sampleCount == r.sampleCount == base.sampleCount
    && r.how == MODEL_ASSISTED && r.profile.source == "DISCOVERED"
    && r.profile.notes <= Strip(proposal.notes) && |r.profile.notes| == Min(500, |Strip(proposal.notes)|)
    && StrictlySorted(r.unmapped, StringLess) && base.warnings <= r.warnings
  }

  lemma MergeFixes(lex: Lexicon, base: DiscoveryResult, proposal: ModelProposal, samples: seq<Dict<Scalar>>)
    ensures FixedFields(base, proposal, Merged(lex, base, proposal, samples))
  {
    var draft := MergeEntries(Opening(base, proposal), proposal.statusMap, Allowed(lex, base, proposal));
    WarningsGrow(Opening(base, proposal), proposal.statusMap, Allowed(lex, base, proposal));
    SortedSetSorted(draft.unmapped);
  }

  lemma {:induction false} WarningsGrow(d: Draft, entries: seq<Mapping>, allowed: set<Status>)
    ensures d.warnings <= MergeEntries(d, entries, allowed).warnings
  {
    if entries != [] {
      WarningsGrow(d, entries[..|entries| - 1], allowed);
    }
  }

  // -- the warnings --------------------------------------------------------------------------------

  function Textual(j: Json): bool {
    j.Leaf? && (j.scalar.Str? || j.scalar.Int? || j.scalar.Bool?)
  }

  // How many of the proposed paths no sample has.
  ghost function Dropped(samples: seq<Dict<Scalar>>, raw: seq<Json>): nat {
    |set i: nat | i < |raw| && Textual(raw[i]) && !Usable(samples, raw[i])|
  }

  lemma {:induction false} DroppedMeans(samples: seq<Dict<Scalar>>, raw: seq<Json>)
    ensures var texts := FlatMap(raw, PathText());
      |texts| - |Keep(texts, p => KnownPath(samples, p))| == Dropped(samples, raw)
  {
    if raw != [] {
      var n := |raw| - 1;
      DroppedMeans(samples, raw[..n]);
      KeptSnoc(samples, raw[..n], raw[n]);
      FlatMapConcat(raw[..n], [raw[n]], PathText());
      assert [raw[n]][1..] == [] && raw[..n] + [raw[n]] == raw;
      DroppedSnoc(samples, raw);
    }
  }

  lemma DroppedSnoc(samples: seq<Dict<Scalar>>, raw: seq<Json>)
    requires raw != []
    ensures var n := |raw| - 1;
      Dropped(samples, raw) ==
      Dropped(samples, raw[..n]) + (if Textual(raw[n]) && !Usable(samples, raw[n]) then 1 else 0)
  {
    var n := |raw| - 1;
    var before := set i: nat | i < n && Textual(raw[..n][i]) && !Usable(samples, raw[..n][i]);
    var all := set i: nat | i < |raw| && Textual(raw[i]) && !Usable(samples, raw[i]);
    assert all == before + (if Textual(raw[n]) && !Usable(samples, raw[n]) then {n} else {});
    assert n !in before;
  }

  // Something is said of a type that is none, of an entry that names no status of the merged type, and of
  // proposed paths that are in no sample, with their number; and of nothing else.
  ghost predicate Warned(base: DiscoveryResult, proposal: ModelProposal, samples: seq<Dict<Scalar>>, allowed: set<Status>,
                         w: Warning)
  {
    match w
    case IgnoredType(text) =>
      && proposal.entityType != "" && text == Upper(proposal.entityType)
      && forall t :: Listed(t) ==> !SameWithoutCase(proposal.entityType, TypeName(t))
    case IgnoredMapping(token, text) =>
      exists i :: 0 <= i < |proposal.statusMap| && Refuses(proposal.statusMap[i], allowed, token, text)
    case DroppedPaths(count) =>
      count > 0 && (count == Dropped(samples, proposal.idPaths) || count == Dropped(samples, proposal.statusPaths)
                    || count == Dropped(samples, proposal.timePaths))
    case _ => false
  }

  predicate Refuses(m: Mapping, allowed: set<Status>, token: string, text: string) {
    m.canonical.Some? && !Accepts(m, allowed) && token == StatusToken(m.word) && text == Upper(m.canonical.value)
  }

  lemma {:induction false} EntriesWarn(d: Draft, entries: seq<Mapping>, allowed: set<Status>, w: Warning)
    ensures w in MergeEntries(d, entries, allowed).warnings <==>
      w in d.warnings || (w.IgnoredMapping? && exists i :: 0 <= i < |entries| && Refuses(entries[i], allowed, w.token, w.text))
  {
    if entries != [] {
      var n := |entries| - 1;
      EntriesWarn(d, entries[..n], allowed, w);
      assert forall i :: 0 <= i < n ==> entries[..n][i] == entries[i];
    }
  }

  lemma TypeWarns(proposed: string, w: Warning)
    ensures w in TypeWarning(proposed) <==>
      && w == IgnoredType(Upper(proposed)) && proposed != ""
      && forall t :: Listed(t) ==> !SameWithoutCase(proposed, TypeName(t))
  {
    forall t | Listed(t) ensures ParseType(Upper(proposed)) == t <==> SameWithoutCase(proposed, TypeName(t)) {
      NamesAType(proposed, t);
    }
  }

  lemma DroppedWarns(samples: seq<Dict<Scalar>>, raw: seq<Json>, w: Warning)
    ensures w in DroppedWarning(samples, FlatMap(raw, PathText())) <==>
      w == DroppedPaths(Dropped(samples, raw)) && Dropped(samples, raw) > 0
  {
    DroppedMeans(samples, raw);
  }

  lemma WarningsAdded(lex: Lexicon, base: DiscoveryResult, proposal: ModelProposal, samples: seq<Dict<Scalar>>, w: Warning)
    ensures w in Merged(lex, base, proposal, samples).warnings <==>
      || w in MergeEntries(Opening(base, proposal), proposal.statusMap, Allowed(lex, base, proposal)).warnings
      || w in DroppedWarning(samples, FlatMap(proposal.idPaths, PathText()))
      || w in DroppedWarning(samples, FlatMap(proposal.statusPaths, PathText()))
      || w in DroppedWarning(samples, FlatMap(proposal.timePaths, PathText()))
  {
  }

  lemma OpeningWarns(base: DiscoveryResult, proposal: ModelProposal, w: Warning)
    ensures w in Opening(base, proposal).warnings <==> w in base.warnings || w in TypeWarning(proposal.entityType)
  {
  }

  // Beside what the base said, a merge says exactly this.
  lemma MergeWarnsExactly(lex: Lexicon, base: DiscoveryResult, proposal: ModelProposal, samples: seq<Dict<Scalar>>, w: Warning)
    ensures w in Merged(lex, base, proposal, samples).warnings <==>
      w in base.warnings || Warned(base, proposal, samples, Allowed(lex, base, proposal), w)
  {
    var allowed := Allowed(lex, base, proposal);
    WarningsAdded(lex, base, proposal, samples, w);
    EntriesWarn(Opening(base, proposal), proposal.statusMap, allowed, w);
    OpeningWarns(base, proposal, w);
    WarnedPieces(base, proposal, samples, allowed, w);
  }

  lemma WarnedPieces(base: DiscoveryResult, proposal: ModelProposal, samples: seq<Dict<Scalar>>, allowed: set<Status>, w: Warning)
    ensures Warned(base, proposal, samples, allowed, w) <==>
      || w in TypeWarning(proposal.entityType)
      || (w.IgnoredMapping? && exists i :: 0 <= i < |proposal.statusMap| && Refuses(proposal.statusMap[i], allowed, w.token, w.text))
      || w in DroppedWarning(samples, FlatMap(proposal.idPaths, PathText()))
      || w in DroppedWarning(samples, FlatMap(proposal.statusPaths, PathText()))
      || w in DroppedWarning(samples, FlatMap(proposal.timePaths, PathText()))
  {
    TypeWarns(proposal.entityType, w);
    DroppedWarns(samples, proposal.idPaths, w);
    DroppedWarns(samples, proposal.statusPaths, w);
    DroppedWarns(samples, proposal.timePaths, w);
  }

  // Everything a merge answers: the type and the words as the model gives them where it may, its usable paths
  // first, and the rest as the samples had it.
  lemma MergeMeans(lex: Lexicon, base: DiscoveryResult, proposal: ModelProposal, samples: seq<Dict<Scalar>>, t: EntityType)
    requires lex.Canonical()
    ensures var r := Merged(lex, base, proposal, samples);
      && (Listed(t) && SameWithoutCase(proposal.entityType, TypeName(t)) ==> r.profile.entityType == Some(t))
      && ((forall u :: Listed(u) ==> !SameWithoutCase(proposal.entityType, TypeName(u))) ==>
            r.profile.entityType == base.profile.entityType)
      && (forall word :: WordMerged(base, r, proposal.statusMap, r.profile.entityType, word))
      && PathsMerged(r.profile.idPaths, samples, proposal.idPaths, base.profile.idPaths)
      && PathsMerged(r.profile.statusPaths, samples, proposal.statusPaths, base.profile.statusPaths)
      && PathsMerged(r.profile.timePaths, samples, proposal.timePaths, base.profile.timePaths)
      && FixedFields(base, proposal, r)
  {
    var r := Merged(lex, base, proposal, samples);
    MergedTypeMeans(base.profile.entityType, proposal.entityType);
    KeepPathsMeans(samples, proposal.idPaths, base.profile.idPaths);
    KeepPathsMeans(samples, proposal.statusPaths, base.profile.statusPaths);
    KeepPathsMeans(samples, proposal.timePaths, base.profile.timePaths);
    MergeFixes(lex, base, proposal, samples);
    forall word ensures WordMerged(base, r, proposal.statusMap, r.profile.entityType, word) {
      MergedWordsMean(lex, base, proposal, samples, word);
    }
  }
}
