/**
 What a reading says: its identifier, type, status and time, and the score of each, given by lookups in the
 flattened payload. Nothing here is stated in terms of how the reader computes them.
 */
module Readings {
  import opened Text
  import opened Ordering
  import opened OrderedDict
  import opened Payload
  import opened Vocabulary
  import opened StatusTokens
  import opened Schemas
  import opened RulesBackend

  // -- hints -----------------------------------------------------------------------------

  lemma LowerSpaced(a: string, b: string)
    ensures Lower(a + " " + b) == Lower(a) + " " + Lower(b)
  {
  }

  lemma {:induction false} LowerJoin(words: seq<string>)
    ensures Lower(Join(words, " ")) == Join(LowerEach(words), " ")
  {
    if |words| > 1 {
      LowerJoin(words[1..]);
      assert LowerEach(words)[1..] == LowerEach(words[1..]);
      LowerSpaced(words[0], Join(words[1..], " "));
    }
  }

  // Hints have no space, so none can straddle two entries of the hint text.
  lemma HintInBlob(h: string, words: seq<string>)
    requires PlainHint(h)
    ensures Occurs(h, HintBlob(words)) <==> exists w :: w in words && Occurs(h, Lower(w))
  {
    LowerJoin(words);
    var lowered := LowerEach(words);
    OccursJoin(h, lowered, ' ');
    assert " " == [' '];
    forall w | w in words ensures Lower(w) in lowered {
      var i :| 0 <= i < |words| && words[i] == w;
      assert lowered[i] == Lower(w);
    }
    forall l | l in lowered ensures exists w :: w in words && Lower(w) == l {
      var i :| 0 <= i < |lowered| && lowered[i] == l;
      assert words[i] in words && Lower(words[i]) == l;
    }
  }

  // Some entry that does not name the sender has the hint in its key or in its value.
  ghost predicate HintedBy(lex: Lexicon, flat: Dict<Scalar>, h: string) {
    exists k :: k in flat.at && Lower(LastPart(k, '.')) !in lex.vendorNamingKeys
                && Occurs(h, Lower(k + " " + ScalarText(flat.at[k])))
  }

  lemma {:induction false} InFlatMap<T, U>(s: seq<T>, f: T -> seq<U>, y: U)
    ensures y in FlatMap(s, f) <==> exists x :: x in s && y in f(x)
  {
    if s != [] {
      InFlatMap(s[1..], f, y);
      assert forall x :: x in s <==> x == s[0] || x in s[1..];
    }
  }

  lemma HintWordsMeans(lex: Lexicon, flat: Dict<Scalar>, h: string)
    requires flat.Valid()
    ensures (exists w :: w in HintWords(lex, flat) && Occurs(h, Lower(w))) <==> HintedBy(lex, flat, h)
  {
    forall w ensures w in HintWords(lex, flat) <==> exists k :: k in flat.keys && w in HintWord(lex, flat)(k) {
      InFlatMap(flat.keys, HintWord(lex, flat), w);
    }
    forall k | k in flat.at && Lower(LastPart(k, '.')) !in lex.vendorNamingKeys
      ensures k + " " + ScalarText(flat.at[k]) in HintWord(lex, flat)(k)
    {
    }
  }

  // How many of the hints have been seen.
  ghost function Tally(hints: seq<string>, seen: string -> bool): nat {
    |set i: nat | i < |hints| && seen(hints[i])|
  }

  lemma {:induction false} HintCountMeans(hints: seq<string>, words: seq<string>, seen: string -> bool)
    requires forall h :: h in hints ==> PlainHint(h)
    requires forall h :: h in hints ==> (seen(h) <==> exists w :: w in words && Occurs(h, Lower(w)))
    ensures HintCount(hints, HintBlob(words)) == Tally(hints, seen)
  {
    if hints != [] {
      var n := |hints| - 1;
      var front := hints[..n];
      assert forall h :: h in front ==> h in hints;
      HintCountMeans(front, words, seen);
      assert hints[n] in hints;
      HintInBlob(hints[n], words);
      TallySnoc(hints, seen);
    }
  }

  lemma TallySnoc(hints: seq<string>, seen: string -> bool)
    requires hints != []
    ensures var n := |hints| - 1;
      Tally(hints, seen) == Tally(hints[..n], seen) + (if seen(hints[n]) then 1 else 0)
  {
    var n := |hints| - 1;
    var front := set i: nat | i < n && seen(hints[..n][i]);
    var all := set i: nat | i < |hints| && seen(hints[i]);
    assert all == front + (if seen(hints[n]) then {n} else {});
    assert n !in front;
  }

  // -- the type ----------------------------------------------------------------------------

  // The profile's type; else what the identifier's own name says; else the type more hints speak for.
  ghost predicate TypeRead(lex: Lexicon, flat: Dict<Scalar>, idKey: string, profile: Option<VendorProfile>,
                           t: EntityType, score: int)
  {
    if profile.Some? && profile.value.entityType.Some? then
      t == profile.value.entityType.value && score == 970
    else
      var name := Lower(LastPart(idKey, '.'));
      if name in lex.shipmentIdKeys then t == SHIPMENT && score == 900
      else if name in lex.invoiceIdKeys then t == INVOICE && score == 900
      else
        var shipment := Tally(lex.shipmentHints, h => HintedBy(lex, flat, h));
        var invoice := Tally(lex.invoiceHints, h => HintedBy(lex, flat, h));
        && (shipment > invoice ==> t == SHIPMENT && score == Min(950, 600 + 100 * shipment))
        && (invoice > shipment ==> t == INVOICE && score == Min(950, 600 + 100 * invoice))
        && (shipment == invoice ==> t == UNCLASSIFIED && score == 200)
  }

  lemma HintsTallied(lex: Lexicon, flat: Dict<Scalar>)
    requires lex.PlainHints() && flat.Valid()
    ensures var blob := HintBlob(HintWords(lex, flat));
      && HintCount(lex.shipmentHints, blob) == Tally(lex.shipmentHints, h => HintedBy(lex, flat, h))
      && HintCount(lex.invoiceHints, blob) == Tally(lex.invoiceHints, h => HintedBy(lex, flat, h))
  {
    var seen := (h: string) => HintedBy(lex, flat, h);
    forall h ensures seen(h) <==> exists w :: w in HintWords(lex, flat) && Occurs(h, Lower(w)) {
      HintWordsMeans(lex, flat, h);
    }
    HintCountMeans(lex.shipmentHints, HintWords(lex, flat), seen);
    HintCountMeans(lex.invoiceHints, HintWords(lex, flat), seen);
  }

  lemma ClassifyReads(lex: Lexicon, flat: Dict<Scalar>, idKey: string, profile: Option<VendorProfile>)
    requires lex.PlainHints() && flat.Valid()
    ensures var typed := Classify(lex, flat, idKey, profile); TypeRead(lex, flat, idKey, profile, typed.0, typed.1)
  {
    HintsTallied(lex, flat);
  }

  // -- the status ----------------------------------------------------------------------------

  function Words(profile: Option<VendorProfile>): map<string, Status> {
    if profile.Some? then profile.value.statusMap else map[]
  }

  function Table(lex: Lexicon, t: EntityType): map<string, Status> {
    if t.SHIPMENT? then lex.shipmentWords else lex.invoiceWords
  }

  // The ending of the token from its i-th part on is a word of the vendor's or of the table.
  predicate KnownFrom(parts: seq<string>, i: nat, words: map<string, Status>, table: map<string, Status>)
    requires i < |parts|
  {
    Join(parts[i..], "_") in words || Join(parts[i..], "_") in table
  }

  // The longest known ending decides, the vendor's word before the table's; the default is for none.
  ghost predicate WordRead(parts: seq<string>, words: map<string, Status>, table: map<string, Status>,
                           default: Status, status: Status, score: int)
  {
    && (forall i | 0 <= i < |parts| && KnownFrom(parts, i, words, table) && UnknownBefore(parts, i, words, table) ::
          var ending := Join(parts[i..], "_");
          if ending in words then status == words[ending] && score == 970
          else status == table[ending] && score == (if i == 0 then 900 else 750))
    && (UnknownBefore(parts, |parts|, words, table) ==> status == default && score == 300)
  }

  ghost predicate StatusRead(lex: Lexicon, t: EntityType, raw: Scalar, profile: Option<VendorProfile>,
                             status: Status, score: int)
  {
    var default := if t.SHIPMENT? then IN_TRANSIT else ISSUED;
    if t.UNCLASSIFIED? then status == UNKNOWN && score == 200
    else if raw.Null? then status == default && score == 250
    else WordRead(Split(StatusToken(ScalarText(raw)), '_'), Words(profile), Table(lex, t), default, status, score)
  }

  // No ending that starts before the i-th part is known.
  predicate UnknownBefore(parts: seq<string>, i: nat, words: map<string, Status>, table: map<string, Status>)
    requires i <= |parts|
  {
    forall k :: 0 <= k < i ==> !KnownFrom(parts, k, words, table)
  }

  lemma KnownEndingReads(token: string, i: nat, words: map<string, Status>, table: map<string, Status>, default: Status)
    requires i < |Split(token, '_')| && KnownFrom(Split(token, '_'), i, words, table)
    requires UnknownBefore(Split(token, '_'), i, words, table)
    ensures var ending := Join(Split(token, '_')[i..], "_");
      ReadToken(token, words, table, default) ==
      if ending in words then (words[ending], 970) else (table[ending], if i == 0 then 900 else 750)
  {
    var parts := Split(token, '_');
    forall k | 0 <= k < i ensures Suffix(parts, k) !in words && Suffix(parts, k) !in table {
      assert !KnownFrom(parts, k, words, table);
    }
    LongestKnownEndingIsTheReading(token, i, words, table, default);
  }

  lemma UnknownTokenReads(token: string, words: map<string, Status>, table: map<string, Status>, default: Status)
    requires UnknownBefore(Split(token, '_'), |Split(token, '_')|, words, table)
    ensures ReadToken(token, words, table, default) == (default, 300)
  {
    var parts := Split(token, '_');
    forall k | 0 <= k < |parts| ensures Suffix(parts, k) !in words && Suffix(parts, k) !in table {
      assert !KnownFrom(parts, k, words, table);
    }
    ReadTokenMeans(token, words, table, default);
  }

  lemma TokenReads(token: string, words: map<string, Status>, table: map<string, Status>, default: Status)
    ensures var r := ReadToken(token, words, table, default);
      WordRead(Split(token, '_'), words, table, default, r.0, r.1)
  {
    var parts := Split(token, '_');
    forall i | 0 <= i < |parts| && KnownFrom(parts, i, words, table) && UnknownBefore(parts, i, words, table)
      ensures var ending := Join(parts[i..], "_");
        ReadToken(token, words, table, default) ==
        if ending in words then (words[ending], 970) else (table[ending], if i == 0 then 900 else 750)
    {
      KnownEndingReads(token, i, words, table, default);
    }
    if UnknownBefore(parts, |parts|, words, table) {
      UnknownTokenReads(token, words, table, default);
    }
  }

  lemma StatusReads(lex: Lexicon, t: EntityType, raw: Scalar, profile: Option<VendorProfile>)
    ensures var s := StatusOf(lex, t, raw, profile); StatusRead(lex, t, raw, profile, s.0, s.1)
  {
    if !t.UNCLASSIFIED? && !raw.Null? {
      TokenReads(StatusToken(ScalarText(raw)), Words(profile), Table(lex, t), if t.SHIPMENT? then IN_TRANSIT else ISSUED);
    }
  }

  function LowerName(s: Status): string {
    match s
    case PICKED_UP => "picked_up"
    case IN_TRANSIT => "in_transit"
    case OUT_FOR_DELIVERY => "out_for_delivery"
    case DELIVERED => "delivered"
    case ISSUED => "issued"
    case PAID => "paid"
    case VOIDED => "voided"
    case REFUNDED => "refunded"
    case UNKNOWN => "unknown"
    case Other(text) => Lower(text)
  }

  lemma LowerNames(s: Status)
    ensures Lower(StatusName(s)) == LowerName(s)
  {
    match s
    case PICKED_UP => assert Lower("PICKED_UP") == "picked_up";
    case IN_TRANSIT => assert Lower("IN_TRANSIT") == "in_transit";
    case OUT_FOR_DELIVERY => assert Lower("OUT_FOR_DELIVERY") == "out_for_delivery";
    case DELIVERED => assert Lower("DELIVERED") == "delivered";
    case ISSUED => assert Lower("ISSUED") == "issued";
    case _ =>
  }

  lemma LettersAreATokenOfTheirOwn(word: string)
    requires forall c :: c in word ==> 'a' <= c <= 'z'
    ensures WellFormedToken(word)
  {
    forall i | 0 <= i < |word| ensures 'a' <= word[i] <= 'z' {
      assert word[i] in word;
    }
  }

  lemma NamesAreTokens(s: Status)
    requires !s.Other?
    ensures WellFormedToken(LowerName(s))
  {
    match s
    case PICKED_UP => assert WellFormedToken("picked_up");
    case IN_TRANSIT => assert WellFormedToken("in_transit");
    case OUT_FOR_DELIVERY => assert WellFormedToken("out_for_delivery");
    case _ => LettersAreATokenOfTheirOwn(LowerName(s));
  }

  lemma NamesAreWords(s: Status)
    ensures StatusFits(s, SHIPMENT) ==> LowerName(s) in SHIPMENT_WORDS && SHIPMENT_WORDS[LowerName(s)] == s
    ensures StatusFits(s, INVOICE) ==> LowerName(s) in INVOICE_WORDS && INVOICE_WORDS[LowerName(s)] == s
  {
  }

  lemma WholeWordIsRead(lex: Lexicon, t: EntityType, text: string)
    requires t != UNCLASSIFIED && StatusToken(text) in ReaderTable(lex, t)
    ensures StatusOf(lex, t, Str(text), None) == (ReaderTable(lex, t)[StatusToken(text)], 900)
  {
  }

  // In the lexicon in use, a vendor that says the canonical name of a status is understood, at 900: the name is
  // a word of its type's table, for that very status.
  lemma CanonicalNamesAreUnderstood(t: EntityType, s: Status)
    requires (t == SHIPMENT || t == INVOICE) && StatusFits(s, t)
    ensures StatusOf(GATEWAY, t, Str(StatusName(s)), None) == (s, 900)
  {
    LowerNames(s);
    NamesAreTokens(s);
    NamesAreWords(s);
    StatusTokenOfUpper(StatusName(s));
    WholeWordIsRead(GATEWAY, t, StatusName(s));
  }

  // -- the time ---------------------------------------------------------------------------------

  function Parsed(parse: TimestampParser, raw: Scalar): Option<int> {
    if raw.Null? then None else parse(raw)
  }

  // What the profile's own paths lead to, if it parses; else what any time key leads to, if that does; else
  // the time of arrival.
  predicate TimeRead(lex: Lexicon, flat: Dict<Scalar>, profile: Option<VendorProfile>, parse: TimestampParser, now: int,
                     time: int, score: int, found: bool)
  {
    var own := if profile.Some? then profile.value.timePaths else [];
    var pinned, any := Parsed(parse, FirstValue(flat, own)), Parsed(parse, FirstValue(flat, own + lex.timeKeys));
    if pinned.Some? then time == pinned.value && score == 970 && found
    else if any.Some? then time == any.value && score == 950 && found
    else time == now && score == 400 && !found
  }

  lemma TimeReads(lex: Lexicon, flat: Dict<Scalar>, profile: Option<VendorProfile>, parse: TimestampParser, now: int)
    ensures var e := EventTime(lex, flat, profile, parse, now); TimeRead(lex, flat, profile, parse, now, e.0, e.1, e.2)
  {
    assert [] + lex.timeKeys == lex.timeKeys;
  }

  // -- the whole reading --------------------------------------------------------------------------

  function Own(profile: Option<VendorProfile>, paths: VendorProfile -> seq<string>): seq<string> {
    if profile.Some? then paths(profile.value) else []
  }

  // The fields of a reading, by the pieces it is put together from.
  lemma ReadingParts(lex: Lexicon, flat: Dict<Scalar>, profile: Option<VendorProfile>, parse: TimestampParser, now: int)
    requires flat.Valid() && TypedProfile(profile) && NormalizeFlat(lex, flat, profile, parse, now).Read?
    ensures var r := NormalizeFlat(lex, flat, profile, parse, now).result;
      var id := FirstEntry(flat, Own(profile, (p: VendorProfile) => p.idPaths) + lex.idKeys);
      var raw := FirstValue(flat, Own(profile, (p: VendorProfile) => p.statusPaths) + lex.statusKeys);
      && id.Entry? && r.entityId == Strip(ScalarText(id.value)) && r.entityId != ""
      && (var typed, timed := Classify(lex, flat, id.key, profile), EventTime(lex, flat, profile, parse, now);
          var said := StatusOf(lex, typed.0, raw, profile);
          && r.entityType == typed.0 && r.canonicalStatus == CanonicalStatus(said.0) && r.eventTime == timed.0
          && r.confidence == Min(typed.1, Min(said.1, timed.1))
          && (EventTimeField in r.evidence.fieldsFound <==> timed.2))
      && r.evidence.sourceStatus == ScalarText(raw) && (StatusField in r.evidence.fieldsFound <==> !raw.Null?)
      && r.evidence.vendorProfile == (if profile.Some? then Some(profile.value.vendor) else None)
  {
    assert [] + lex.idKeys == lex.idKeys && [] + lex.statusKeys == lex.statusKeys;
    var id := FirstEntry(flat, IdKeys(lex, profile));
    var raw := FirstValue(flat, StatusKeys(lex, profile));
    FirstEntryMeans(flat, IdKeys(lex, profile));
    var idKey := if id.Entry? then id.key else "";
    var typed := Classify(lex, flat, idKey, profile);
    ClassifyMeans(lex, flat, idKey, profile);
    AssembleMeans(if id.Entry? then IdText(id.value) else "", typed, raw, StatusOf(lex, typed.0, raw, profile),
                  EventTime(lex, flat, profile, parse, now), profile);
    IdTextStripped(id);
  }

  // Whatever the reader answers: the identifier is the stripped text of the field that answers the identifier
  // keys, the type, the status and the time are as read above from the fields that answer theirs, the vendor's
  // paths before the generic names, and the confidence is the least of the three scores.
  lemma ReadingMeans(lex: Lexicon, flat: Dict<Scalar>, profile: Option<VendorProfile>, parse: TimestampParser, now: int)
    returns (status: Status, typeScore: int, statusScore: int, timeScore: int)
    requires lex.PlainHints() && flat.Valid() && TypedProfile(profile)
    requires NormalizeFlat(lex, flat, profile, parse, now).Read?
    ensures var r := NormalizeFlat(lex, flat, profile, parse, now).result;
      var id := FirstEntry(flat, Own(profile, (p: VendorProfile) => p.idPaths) + lex.idKeys);
      var raw := FirstValue(flat, Own(profile, (p: VendorProfile) => p.statusPaths) + lex.statusKeys);
      && id.Entry? && r.entityId == Strip(ScalarText(id.value)) && r.entityId != ""
      && TypeRead(lex, flat, id.key, profile, r.entityType, typeScore)
      && StatusRead(lex, r.entityType, raw, profile, status, statusScore)
      && r.canonicalStatus == CanonicalStatus(status)
      && (lex.Canonical() && WellFormedProfile(profile) ==> r.canonicalStatus == status)
      && TimeRead(lex, flat, profile, parse, now, r.eventTime, timeScore, EventTimeField in r.evidence.fieldsFound)
      && r.confidence == Min(typeScore, Min(statusScore, timeScore))
      && r.evidence.sourceStatus == ScalarText(raw) && (StatusField in r.evidence.fieldsFound <==> !raw.Null?)
      && r.evidence.vendorProfile == (if profile.Some? then Some(profile.value.vendor) else None)
  {
    var id := FirstEntry(flat, Own(profile, (p: VendorProfile) => p.idPaths) + lex.idKeys);
    var raw := FirstValue(flat, Own(profile, (p: VendorProfile) => p.statusPaths) + lex.statusKeys);
    ReadingParts(lex, flat, profile, parse, now);
    var typed, timed := Classify(lex, flat, id.key, profile), EventTime(lex, flat, profile, parse, now);
    var said := StatusOf(lex, typed.0, raw, profile);
    ClassifyReads(lex, flat, id.key, profile);
    StatusReads(lex, typed.0, raw, profile);
    TimeReads(lex, flat, profile, parse, now);
    if lex.Canonical() && WellFormedProfile(profile) {
      StatusCanonical(lex, typed.0, raw, profile);
    }
    status, typeScore, statusScore, timeScore := said.0, typed.1, said.1, timed.1;
  }
}
