/**
 The rule-based reader: which entity a payload is about, what happened to it, when, and how much of
 that had to be guessed. Confidence counts thousandths.

 Timestamp parsing is a parameter: any function from scalars to instants will do.
 */
module RulesBackend {
  import opened Text
  import opened Ordering
  import opened OrderedDict
  import opened Payload
  import opened Vocabulary
  import opened StatusTokens
  import opened Schemas

  const PROFILE_CONFIDENCE := 970
  const ID_KEY_CONFIDENCE := 900
  const DEFAULT_THRESHOLD := 700

  type TimestampParser = Scalar -> Option<int>

  function ParseTimestamp(parse: TimestampParser, raw: Scalar): Option<int> {
    if raw.Null? then None else parse(raw)
  }

  // -- what the profile adds -----------------------------------------------

  function IdKeys(lex: Lexicon, profile: Option<VendorProfile>): seq<string> {
    if profile.Some? then profile.value.idPaths + lex.idKeys else lex.idKeys
  }

  function StatusKeys(lex: Lexicon, profile: Option<VendorProfile>): seq<string> {
    if profile.Some? then profile.value.statusPaths + lex.statusKeys else lex.statusKeys
  }

  function TimeKeys(lex: Lexicon, profile: Option<VendorProfile>): seq<string> {
    if profile.Some? then profile.value.timePaths + lex.timeKeys else lex.timeKeys
  }

  function VendorWords(profile: Option<VendorProfile>): map<string, Status> {
    if profile.Some? then profile.value.statusMap else map[]
  }

  // -- entity type -------------------------------------------------------------

  // What one flattened entry adds to the hint text; entries that name the sender add nothing.
  function HintWord(lex: Lexicon, flat: Dict<Scalar>): string -> seq<string> {
    (key: string) =>
      if key !in flat.at || Lower(LastPart(key, '.')) in lex.vendorNamingKeys then []
      else [key + " " + ScalarText(flat.at[key])]
  }

  function HintWords(lex: Lexicon, flat: Dict<Scalar>): seq<string> {
    FlatMap(flat.keys, HintWord(lex, flat))
  }

  function HintBlob(words: seq<string>): string {
    Lower(Join(words, " "))
  }

  function HintCount(hints: seq<string>, blob: string): nat {
    if hints == [] then 0
    else HintCount(hints[..|hints| - 1], blob) + (if Occurs(hints[|hints| - 1], blob) then 1 else 0)
  }

  // The entity type and confidence when the identifier's own key or the payload's words must tell.
  function Classify(lex: Lexicon, flat: Dict<Scalar>, idKey: string, profile: Option<VendorProfile>): (EntityType, int) {
    if profile.Some? && profile.value.entityType.Some? then (profile.value.entityType.value, PROFILE_CONFIDENCE)
    else
      var leaf := Lower(LastPart(idKey, '.'));
      if leaf in lex.shipmentIdKeys then (SHIPMENT, ID_KEY_CONFIDENCE)
      else if leaf in lex.invoiceIdKeys then (INVOICE, ID_KEY_CONFIDENCE)
      else
        var blob := HintBlob(HintWords(lex, flat));
        ClassifyByHints(HintCount(lex.shipmentHints, blob), HintCount(lex.invoiceHints, blob))
  }

  function ClassifyByHints(shipment: nat, invoice: nat): (EntityType, int) {
    if shipment > invoice && shipment > 0 then (SHIPMENT, Min(950, 600 + 100 * shipment))
    else if invoice > shipment && invoice > 0 then (INVOICE, Min(950, 600 + 100 * invoice))
    else (UNCLASSIFIED, 200)
  }

  // -- status --------------------------------------------------------------------

  function Suffix(parts: seq<string>, start: nat): string
    requires start <= |parts|
  {
    Join(parts[start..], "_")
  }

  // The reading of the longest known ending that starts at `start` or later.
  function ReadEnding(parts: seq<string>, start: nat, words: map<string, Status>, table: map<string, Status>,
                      default: Status): (Status, int)
    requires start <= |parts|
    decreases |parts| - start
  {
    if start == |parts| then (default, 300)
    else
      var ending := Suffix(parts, start);
      if ending in words then (words[ending], PROFILE_CONFIDENCE)
      else if ending in table then (table[ending], 750)
      else ReadEnding(parts, start + 1, words, table, default)
  }

  function ReadToken(token: string, words: map<string, Status>, table: map<string, Status>, default: Status)
    : (Status, int)
  {
    if token in words then (words[token], PROFILE_CONFIDENCE)
    else if token in table then (table[token], 900)
    else ReadEnding(Split(token, '_'), 1, words, table, default)
  }

  // The reader falls back to the invoice vocabulary for anything that is not a shipment.
  function ReaderTable(lex: Lexicon, entityType: EntityType): map<string, Status> {
    if entityType == SHIPMENT then lex.shipmentWords else lex.invoiceWords
  }

  function DefaultStatus(entityType: EntityType): Status {
    if entityType == SHIPMENT then IN_TRANSIT else ISSUED
  }

  function StatusOf(lex: Lexicon, entityType: EntityType, raw: Scalar, profile: Option<VendorProfile>): (Status, int) {
    if entityType == UNCLASSIFIED then (UNKNOWN, 200)
    else if raw.Null? then (DefaultStatus(entityType), 250)
    else ReadToken(StatusToken(ScalarText(raw)), VendorWords(profile), ReaderTable(lex, entityType), DefaultStatus(entityType))
  }

  method ReadStatus(lex: Lexicon, entityType: EntityType, raw: Scalar, profile: Option<VendorProfile>)
    returns (status: Status, confidence: int)
    ensures (status, confidence) == StatusOf(lex, entityType, raw, profile)
  {
    if entityType == UNCLASSIFIED { return UNKNOWN, 200; }
    var table := ReaderTable(lex, entityType);
    var default := DefaultStatus(entityType);
    if raw.Null? { return default, 250; }
    var key := StatusToken(ScalarText(raw));
    if profile.Some? && key in profile.value.statusMap {
      return profile.value.statusMap[key], PROFILE_CONFIDENCE;
    }
    if key in table { return table[key], 900; }
    var parts := Split(key, '_');
    for start := 1 to |parts|
      invariant StatusOf(lex, entityType, raw, profile) == ReadEnding(parts, start, VendorWords(profile), table, default)
    {
      var ending := Suffix(parts, start);
      if profile.Some? && ending in profile.value.statusMap {
        return profile.value.statusMap[ending], PROFILE_CONFIDENCE;
      }
      if ending in table { return table[ending], 750; }
    }
    return default, 300;
  }

  // Some ending of the token, the whole token included, is a word the reader knows.
  ghost predicate Recognised(token: string, words: map<string, Status>, table: map<string, Status>) {
    exists i :: 0 <= i < |Split(token, '_')| &&
      (Suffix(Split(token, '_'), i) in words || Suffix(Split(token, '_'), i) in table)
  }

  lemma {:induction false} ReadEndingMeans(parts: seq<string>, start: nat, words: map<string, Status>,
                                           table: map<string, Status>, default: Status)
    requires start <= |parts|
    ensures var r := ReadEnding(parts, start, words, table, default);
      (exists i :: start <= i < |parts| && (Suffix(parts, i) in words || Suffix(parts, i) in table)) <==>
      r.1 >= DEFAULT_THRESHOLD
    ensures ReadEnding(parts, start, words, table, default).1 in {300, 750, PROFILE_CONFIDENCE}
    ensures var r := ReadEnding(parts, start, words, table, default);
      r.1 < DEFAULT_THRESHOLD ==> r.0 == default
    decreases |parts| - start
  {
    if start < |parts| {
      ReadEndingMeans(parts, start + 1, words, table, default);
      var ending := Suffix(parts, start);
    }
  }

  // A token is read above the threshold exactly when some ending of it is known.
  lemma ReadTokenMeans(token: string, words: map<string, Status>, table: map<string, Status>, default: Status)
    ensures var r := ReadToken(token, words, table, default);
      && (r.1 >= DEFAULT_THRESHOLD <==> Recognised(token, words, table))
      && r.1 in {300, 750, 900, PROFILE_CONFIDENCE}
      && (!Recognised(token, words, table) ==> r == (default, 300))
  {
    var parts := Split(token, '_');
    JoinSplit(token, '_');
    assert Suffix(parts, 0) == token by { assert parts[0..] == parts; }
    ReadEndingMeans(parts, 1, words, table, default);
  }

  // The longest known ending decides, and the vendor's own words outrank the generic table there.
  lemma {:induction false} LongestEndingDecides(parts: seq<string>, start: nat, i: nat, words: map<string, Status>,
                                                table: map<string, Status>, default: Status)
    requires start <= i < |parts|
    requires forall k :: start <= k < i ==> Suffix(parts, k) !in words && Suffix(parts, k) !in table
    requires Suffix(parts, i) in words || Suffix(parts, i) in table
    ensures var e := Suffix(parts, i);
      ReadEnding(parts, start, words, table, default) ==
      if e in words then (words[e], PROFILE_CONFIDENCE) else (table[e], 750)
    decreases i - start
  {
    if start < i {
      assert Suffix(parts, start) !in words && Suffix(parts, start) !in table;
      LongestEndingDecides(parts, start + 1, i, words, table, default);
    }
  }

  // The whole token is its own longest ending, and the generic table is surer of it than of a part.
  lemma LongestKnownEndingIsTheReading(token: string, i: nat, words: map<string, Status>, table: map<string, Status>,
                                       default: Status)
    requires i < |Split(token, '_')|
    requires forall k :: 0 <= k < i ==> Suffix(Split(token, '_'), k) !in words && Suffix(Split(token, '_'), k) !in table
    requires Suffix(Split(token, '_'), i) in words || Suffix(Split(token, '_'), i) in table
    ensures var e := Suffix(Split(token, '_'), i);
      ReadToken(token, words, table, default) ==
      if e in words then (words[e], PROFILE_CONFIDENCE) else (table[e], if i == 0 then 900 else 750)
  {
    var parts := Split(token, '_');
    JoinSplit(token, '_');
    assert Suffix(parts, 0) == token by { assert parts[0..] == parts; }
    if i > 0 {
      assert Suffix(parts, 0) !in words && Suffix(parts, 0) !in table;
      LongestEndingDecides(parts, 1, i, words, table, default);
    }
  }

  // -- event time --------------------------------------------------------------

  // The instant, the confidence, and whether the payload supplied it.
  function EventTime(lex: Lexicon, flat: Dict<Scalar>, profile: Option<VendorProfile>, parse: TimestampParser, now: int)
    : (int, int, bool)
  {
    var pinned :=
      if profile.Some? && profile.value.timePaths != [] then
        ParseTimestamp(parse, FirstValue(flat, profile.value.timePaths))
      else None;
    if pinned.Some? then (pinned.value, PROFILE_CONFIDENCE, true)
    else
      var found := ParseTimestamp(parse, FirstValue(flat, TimeKeys(lex, profile)));
      if found.Some? then (found.value, 950, true) else (now, 400, false)
  }

  // -- the whole reading -----------------------------------------------------------

  datatype Reading = Read(result: NormalizationResult) | NoIdentifier | Malformed(defect: Defect)

  function IdText(v: Scalar): string {
    if v.Null? then "" else Strip(ScalarText(v))
  }

  function EvidenceFor(raw: Scalar, timeFound: bool, profile: Option<VendorProfile>): (e: Evidence)
    ensures EventTimeField in e.fieldsFound <==> timeFound
    ensures StatusField in e.fieldsFound <==> !raw.Null?
  {
    Evidence(ScalarText(raw),
             {EntityIdField} + (if raw.Null? then {} else {StatusField}) + (if timeFound then {EventTimeField} else {}),
             if profile.Some? then Some(profile.value.vendor) else None)
  }

  // The confidence is the least of the three; an empty identifier leaves nothing to assemble.
  function Assemble(entityId: string, typed: (EntityType, int), raw: Scalar, status: (Status, int),
                    timed: (int, int, bool), profile: Option<VendorProfile>): Reading
  {
    if entityId == "" then NoIdentifier
    else
      var evidence := EvidenceFor(raw, timed.2, profile);
      match FromDict(typed.0, entityId, status.0, Some(timed.0), Min(typed.1, Min(status.1, timed.1)), evidence)
      case Accepted(r) => Read(r)
      case Refused(d) => Malformed(d)
  }

  function NormalizeFlat(lex: Lexicon, flat: Dict<Scalar>, profile: Option<VendorProfile>, parse: TimestampParser,
                         now: int): Reading
  {
    var id := FirstEntry(flat, IdKeys(lex, profile));
    var typed := Classify(lex, flat, if id.Entry? then id.key else "", profile);
    var raw := FirstValue(flat, StatusKeys(lex, profile));
    Assemble(if id.Entry? then IdText(id.value) else "", typed, raw, StatusOf(lex, typed.0, raw, profile),
             EventTime(lex, flat, profile, parse, now), profile)
  }

  method Normalize(lex: Lexicon, payload: Json, profile: Option<VendorProfile>, parse: TimestampParser, now: int)
    returns (r: Reading)
    ensures r == NormalizeFlat(lex, Flatten(payload, ""), profile, parse, now)
  {
    var flat := FlattenPayload(payload, "");
    FlattenValid(payload, "");
    var id := FindFirstEntry(flat, IdKeys(lex, profile));
    var entityId := if id.Entry? then IdText(id.value) else "";
    var typed := Classify(lex, flat, if id.Entry? then id.key else "", profile);
    var found := FindFirstEntry(flat, StatusKeys(lex, profile));
    var raw := if found.Entry? then found.value else Null;
    var status, confidence := ReadStatus(lex, typed.0, raw, profile);
    var timed := EventTime(lex, flat, profile, parse, now);
    r := Assemble(entityId, typed, raw, (status, confidence), timed, profile);
  }

  // -- what the confidence means -----------------------------------------------------

  // The profile's type is one the table's column admits.
  predicate TypedProfile(profile: Option<VendorProfile>) {
    profile.Some? && profile.value.entityType.Some? ==> Listed(profile.value.entityType.value)
  }

  // A profile the write path admits: statuses canonical for its type, and none without a type.
  predicate WellFormedProfile(profile: Option<VendorProfile>) {
    && TypedProfile(profile)
    && forall w :: w in VendorWords(profile) ==>
      profile.value.entityType.Some? && StatusFits(VendorWords(profile)[w], profile.value.entityType.value)
  }

  lemma ClassifyMeans(lex: Lexicon, flat: Dict<Scalar>, idKey: string, profile: Option<VendorProfile>)
    requires TypedProfile(profile)
    ensures var (t, c) := Classify(lex, flat, idKey, profile);
      && Listed(t) && 0 <= c <= 1000
      && (t != UNCLASSIFIED ==> c >= DEFAULT_THRESHOLD)
      && (profile.Some? && profile.value.entityType.Some? ==> t == profile.value.entityType.value)
  {
  }

  // Without a profile's word the identifier's own key decides, and failing that the larger count of
  // hints; only a tie, or silence, leaves the payload unclassified.
  lemma ClassifyDecides(lex: Lexicon, flat: Dict<Scalar>, idKey: string, profile: Option<VendorProfile>)
    requires profile.Some? ==> profile.value.entityType.None?
    ensures var leaf := Lower(LastPart(idKey, '.'));
      var blob := HintBlob(HintWords(lex, flat));
      var shipment, invoice := HintCount(lex.shipmentHints, blob), HintCount(lex.invoiceHints, blob);
      var (t, c) := Classify(lex, flat, idKey, profile);
      && (t == SHIPMENT <==> leaf in lex.shipmentIdKeys || (leaf !in lex.invoiceIdKeys && shipment > invoice))
      && (t == INVOICE <==> leaf !in lex.shipmentIdKeys && (leaf in lex.invoiceIdKeys || invoice > shipment))
      && (t == UNCLASSIFIED <==> leaf !in lex.shipmentIdKeys && leaf !in lex.invoiceIdKeys && shipment == invoice)
      && (c < DEFAULT_THRESHOLD <==> t == UNCLASSIFIED)
  {
  }

  ghost predicate StatusRecognised(lex: Lexicon, entityType: EntityType, raw: Scalar, profile: Option<VendorProfile>) {
    !raw.Null? && Recognised(StatusToken(ScalarText(raw)), VendorWords(profile), ReaderTable(lex, entityType))
  }

  lemma StatusConfidenceMeans(lex: Lexicon, entityType: EntityType, raw: Scalar, profile: Option<VendorProfile>)
    ensures var (s, c) := StatusOf(lex, entityType, raw, profile);
      && 0 <= c <= 1000
      && (c >= DEFAULT_THRESHOLD <==> entityType != UNCLASSIFIED && StatusRecognised(lex, entityType, raw, profile))
  {
    if entityType != UNCLASSIFIED && !raw.Null? {
      ReadTokenMeans(StatusToken(ScalarText(raw)), VendorWords(profile), ReaderTable(lex, entityType), DefaultStatus(entityType));
    }
  }

  lemma AssembleMeans(entityId: string, typed: (EntityType, int), raw: Scalar, status: (Status, int),
                      timed: (int, int, bool), profile: Option<VendorProfile>)
    requires Listed(typed.0)
    ensures var r := Assemble(entityId, typed, raw, status, timed, profile);
      && (r == NoIdentifier <==> entityId == "")
      && (r.Read? ==>
            && r.result.entityType == typed.0 && r.result.entityId == Strip(entityId)
            && r.result.canonicalStatus == CanonicalStatus(status.0) && r.result.evidence == EvidenceFor(raw, timed.2, profile)
            && (StatusFits(status.0, typed.0) ==> r.result.canonicalStatus == status.0)
            && r.result.confidence == Min(typed.1, Min(status.1, timed.1))
            && r.result.eventTime == timed.0
            && (EventTimeField in r.result.evidence.fieldsFound <==> timed.2))
      && ((Strip(entityId) == entityId && StatusFits(status.0, typed.0) &&
           0 <= typed.1 <= 1000 && 0 <= status.1 <= 1000 && 0 <= timed.1 <= 1000) ==> !r.Malformed?)
  {
    if entityId != "" {
      var confidence, evidence := Min(typed.1, Min(status.1, timed.1)), EvidenceFor(raw, timed.2, profile);
      FromDictMeans(typed.0, entityId, status.0, timed.0, confidence, evidence);
      if StatusFits(status.0, typed.0) {
        CanonicalFixed(typed.0, status.0);
      }
      var verdict := FromDict(typed.0, entityId, status.0, Some(timed.0), confidence, evidence);
      assert Assemble(entityId, typed, raw, status, timed, profile) ==
        if verdict.Accepted? then Read(verdict.result) else Malformed(verdict.defect);
    }
  }

  lemma EventTimeMeans(lex: Lexicon, flat: Dict<Scalar>, profile: Option<VendorProfile>, parse: TimestampParser, now: int)
    ensures var (t, c, found) := EventTime(lex, flat, profile, parse, now);
      if found then 950 <= c <= PROFILE_CONFIDENCE else t == now && c == 400
    ensures EventTime(lex, flat, profile, parse, now).2 ==>
      exists raw :: raw != Null && parse(raw) == Some(EventTime(lex, flat, profile, parse, now).0)
        && (raw == FirstValue(flat, TimeKeys(lex, profile)) || (profile.Some? && raw == FirstValue(flat, profile.value.timePaths)))
    ensures profile.Some? ==>
      var pinned := ParseTimestamp(parse, FirstValue(flat, profile.value.timePaths));
      pinned.Some? ==> EventTime(lex, flat, profile, parse, now) == (pinned.value, PROFILE_CONFIDENCE, true)
  {
  }

  // The gate at its default threshold releases a reading exactly when it names a shipment or an
  // invoice, some ending of its status word is known, and the payload itself supplied the time.
  lemma GateReleasesExactlyTheUnguessed(lex: Lexicon, flat: Dict<Scalar>, profile: Option<VendorProfile>,
                                        parse: TimestampParser, now: int)
    requires TypedProfile(profile)
    requires NormalizeFlat(lex, flat, profile, parse, now).Read?
    ensures var r := NormalizeFlat(lex, flat, profile, parse, now).result;
      r.confidence >= DEFAULT_THRESHOLD <==>
        && (r.entityType == SHIPMENT || r.entityType == INVOICE)
        && StatusRecognised(lex, r.entityType, FirstValue(flat, StatusKeys(lex, profile)), profile)
        && EventTimeField in r.evidence.fieldsFound
    ensures var r := NormalizeFlat(lex, flat, profile, parse, now).result;
      EventTimeField !in r.evidence.fieldsFound ==> r.eventTime == now && r.confidence <= 400
  {
    var id := FirstEntry(flat, IdKeys(lex, profile));
    var raw := FirstValue(flat, StatusKeys(lex, profile));
    var idKey := if id.Entry? then id.key else "";
    var typed := Classify(lex, flat, idKey, profile);
    ClassifyMeans(lex, flat, idKey, profile);
    StatusConfidenceMeans(lex, typed.0, raw, profile);
    EventTimeMeans(lex, flat, profile, parse, now);
    AssembleMeans(if id.Entry? then IdText(id.value) else "", typed, raw, StatusOf(lex, typed.0, raw, profile),
                  EventTime(lex, flat, profile, parse, now), profile);
  }

  lemma {:induction false} ReadEndingCanonical(parts: seq<string>, start: nat, words: map<string, Status>,
                                               table: map<string, Status>, default: Status, t: EntityType)
    requires start <= |parts| && StatusFits(default, t)
    requires forall w :: w in words ==> StatusFits(words[w], t)
    requires forall w :: w in table ==> StatusFits(table[w], t)
    ensures StatusFits(ReadEnding(parts, start, words, table, default).0, t)
    decreases |parts| - start
  {
    if start < |parts| {
      ReadEndingCanonical(parts, start + 1, words, table, default, t);
    }
  }

  lemma StatusCanonical(lex: Lexicon, entityType: EntityType, raw: Scalar, profile: Option<VendorProfile>)
    requires lex.Canonical() && Listed(entityType) && WellFormedProfile(profile)
    requires profile.Some? && profile.value.entityType.Some? ==> profile.value.entityType.value == entityType
    ensures StatusFits(StatusOf(lex, entityType, raw, profile).0, entityType)
  {
    if entityType != UNCLASSIFIED && !raw.Null? {
      assert ReaderTable(lex, entityType) == lex.Words(entityType);
      var token := StatusToken(ScalarText(raw));
      ReadEndingCanonical(Split(token, '_'), 1, VendorWords(profile), lex.Words(entityType),
                          DefaultStatus(entityType), entityType);
    }
  }

  // With a well-formed profile the only thing that can stop a reading is a missing identifier.
  lemma OnlyAMissingIdentifierFails(lex: Lexicon, flat: Dict<Scalar>, profile: Option<VendorProfile>, parse: TimestampParser, now: int)
    requires lex.Canonical() && WellFormedProfile(profile)
    ensures var id := FirstEntry(flat, IdKeys(lex, profile));
      NormalizeFlat(lex, flat, profile, parse, now) == NoIdentifier <==> !id.Entry? || IdText(id.value) == ""
    ensures !NormalizeFlat(lex, flat, profile, parse, now).Malformed?
  {
    var id := FirstEntry(flat, IdKeys(lex, profile));
    var raw := FirstValue(flat, StatusKeys(lex, profile));
    var idKey := if id.Entry? then id.key else "";
    var typed := Classify(lex, flat, idKey, profile);
    ClassifyMeans(lex, flat, idKey, profile);
    StatusCanonical(lex, typed.0, raw, profile);
    StatusConfidenceMeans(lex, typed.0, raw, profile);
    EventTimeMeans(lex, flat, profile, parse, now);
    var entityId := if id.Entry? then IdText(id.value) else "";
    IdTextStripped(id);
    AssembleMeans(entityId, typed, raw, StatusOf(lex, typed.0, raw, profile),
                  EventTime(lex, flat, profile, parse, now), profile);
  }

  // No identifier key has anything in the payload to be answered from.
  ghost predicate Unsupplied(payload: Json, keys: seq<string>) {
    forall k :: k in keys ==> !Supplied(payload, k)
  }

  // A requested field that is not blank and yet nothing but white space.
  ghost predicate OnlySpace(payload: Json, keys: seq<string>, v: Scalar) {
    !Blank(v) && IdText(v) == "" && exists steps :: FieldLeaf(payload, steps, v) && Requested(steps, keys)
  }

  // For any profile, its paths dotted or not: the reading fails for want of an identifier if and only if no
  // identifier key is supplied by the payload, or one is and the field that answers is only white space.
  lemma ReadingFailsExactly(lex: Lexicon, payload: Json, profile: Option<VendorProfile>, parse: TimestampParser, now: int)
    requires lex.Canonical() && WellFormedProfile(profile) && WellKeyed(payload)
    ensures var keys := IdKeys(lex, profile);
      NormalizeFlat(lex, Flatten(payload, ""), profile, parse, now) == NoIdentifier <==>
        || Unsupplied(payload, keys)
        || (!Unsupplied(payload, keys) && OnlySpace(payload, keys, FirstValue(Flatten(payload, ""), keys)))
  {
    var keys := IdKeys(lex, profile);
    OnlyAMissingIdentifierFails(lex, Flatten(payload, ""), profile, parse, now);
    LookupSucceedsExactly(payload, keys);
    if FirstEntry(Flatten(payload, ""), keys).Entry? {
      var steps := LookupAnswersAField(payload, keys);
    }
  }

  // So for a payload without such fields it is the payload alone that decides.
  lemma ReadingFailsWithoutSpaces(lex: Lexicon, payload: Json, profile: Option<VendorProfile>, parse: TimestampParser, now: int)
    requires lex.Canonical() && WellFormedProfile(profile) && WellKeyed(payload)
    requires forall v :: !OnlySpace(payload, IdKeys(lex, profile), v)
    ensures NormalizeFlat(lex, Flatten(payload, ""), profile, parse, now) == NoIdentifier <==>
      Unsupplied(payload, IdKeys(lex, profile))
  {
    ReadingFailsExactly(lex, payload, profile, parse, now);
  }

  lemma IdTextStripped(id: Found)
    ensures id.Entry? ==> Strip(IdText(id.value)) == IdText(id.value)
    ensures Strip("") == ""
  {
    if id.Entry? { StripFixed(IdText(id.value)); }
  }
}
