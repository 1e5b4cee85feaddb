/**
 When two deliveries are one: event ids taken from the payload, keys built from what the sender supplied,
 and the collisions that cutting a key to its column can cause.

 The digest is any function to 64 characters; where two particular keys must not collide under it, the
 theorem says so.
 */
module Keys {
  import opened Text
  import opened Vocabulary
  import opened Payload

  const MAX_LENGTH := 255
  const DIGEST_LENGTH := 64

  const KNOWN_EVENT_ID_KEYS: seq<string> :=
    ["event_id", "eventId", "external_event_id", "externalEventId", "id", "message_id"]

  type Digest = string -> string

  // What the host language prints and serialises, and the digest in use.
  datatype Host = Host(nested: Json -> string, serialize: Json -> string, digest: Digest) {
    function Print(value: Json): string {
      if value.Leaf? then ScalarText(value.scalar) else nested(value)
    }

    ghost predicate Sized() {
      forall s :: |digest(s)| == DIGEST_LENGTH
    }

    // A digest is written in hexadecimal.
    ghost predicate Hexadecimal() {
      Sized() && forall s, c :: c in digest(s) ==> IsDigit(c) || 'a' <= c <= 'f'
    }
  }

  // -- the vendor's own event id ----------------------------------------------------------------

  // Absent and null read alike.
  function Get(payload: Json, key: string): Option<Json> {
    if !payload.Object? || Find(payload.fields, key) < 0 then None
    else
      var value := payload.fields[Find(payload.fields, key)].value;
      if value == Leaf(Null) then None else Some(value)
  }

  predicate Identifies(host: Host, payload: Json, key: string) {
    Get(payload, key).Some? && Strip(host.Print(Get(payload, key).value)) != ""
  }

  function Truncated(s: string): string {
    if |s| <= MAX_LENGTH then s else s[..MAX_LENGTH]
  }

  function ExternalEventId(host: Host, payload: Json, known: seq<string>): Option<string> {
    if known == [] then None
    else if Identifies(host, payload, known[0]) then Some(Truncated(host.Print(Get(payload, known[0]).value)))
    else ExternalEventId(host, payload, known[1..])
  }

  // What the payload says under a key: the text of its last field of that name, unless null or blank.
  ghost predicate Says(host: Host, payload: Json, key: string, text: string) {
    && payload.Object? && Strip(text) != ""
    && exists i :: 0 <= i < |payload.fields|
         && payload.fields[i].key == key && (forall k :: i < k < |payload.fields| ==> payload.fields[k].key != key)
         && payload.fields[i].value != Leaf(Null) && text == host.Print(payload.fields[i].value)
  }

  lemma IdentifiesMeans(host: Host, payload: Json, key: string)
    ensures Identifies(host, payload, key) ==> Says(host, payload, key, host.Print(Get(payload, key).value))
    ensures forall text :: Says(host, payload, key, text) ==>
      Identifies(host, payload, key) && text == host.Print(Get(payload, key).value)
  {
    if payload.Object? {
      LastOfItsName(payload.fields, key);
    }
  }

  lemma {:induction false} LastOfItsName(fields: seq<Field>, key: string)
    ensures forall k :: Find(fields, key) < k < |fields| ==> fields[k].key != key
  {
    if fields != [] && fields[|fields| - 1].key != key {
      LastOfItsName(fields[..|fields| - 1], key);
    }
  }

  ghost predicate Silent(host: Host, payload: Json, key: string) {
    forall text :: !Says(host, payload, key, text)
  }

  // The first known key that says anything decides; what is returned is what it says, cut to its column, and
  // is never empty enough to be mistaken for absent.
  lemma {:induction false} ExternalEventIdMeans(host: Host, payload: Json, known: seq<string>) returns (i: nat, text: string)
    ensures ExternalEventId(host, payload, known).None? <==> forall key :: key in known ==> Silent(host, payload, key)
    ensures ExternalEventId(host, payload, known).Some? ==>
      && i < |known| && Says(host, payload, known[i], text) && (forall k :: 0 <= k < i ==> Silent(host, payload, known[k]))
      && ExternalEventId(host, payload, known).value == (if |text| <= 255 then text else text[..255])
      && ExternalEventId(host, payload, known).value != ""
  {
    i, text := 0, "";
    if known != [] {
      IdentifiesMeans(host, payload, known[0]);
      assert known[0] in known;
      if Identifies(host, payload, known[0]) {
        text := host.Print(Get(payload, known[0]).value);
        NotBlank(text);
      } else {
        var j, said := ExternalEventIdMeans(host, payload, known[1..]);
        i, text := j + 1, said;
        assert forall k :: k in known <==> k == known[0] || k in known[1..];
        forall k | 0 <= k < i && k < |known| ensures Silent(host, payload, known[k]) || ExternalEventId(host, payload, known).None? {
          assert k > 0 ==> known[k] == known[1..][k - 1];
        }
      }
    }
  }

  lemma NotBlank(s: string)
    requires Strip(s) != ""
    ensures s != ""
  {
  }

  // -- fitting a key into its column --------------------------------------------------------------

  function Fit(digest: Digest, key: string): string {
    if |key| <= MAX_LENGTH then key else key[..MAX_LENGTH - DIGEST_LENGTH - 1] + ":" + digest(key)
  }

  lemma FitMeans(digest: Digest, key: string)
    requires |digest(key)| == DIGEST_LENGTH
    ensures |Fit(digest, key)| <= MAX_LENGTH
    ensures Fit(digest, Fit(digest, key)) == Fit(digest, key)
    ensures Fit(digest, key) == key <==> |key| <= MAX_LENGTH
    ensures |key| > MAX_LENGTH ==> |Fit(digest, key)| == MAX_LENGTH && key[..190] == Fit(digest, key)[..190]
  {
  }

  // A key that is itself what the other one would be fitted to.
  predicate Masquerades(digest: Digest, short: string, long: string) {
    |short| == MAX_LENGTH && |long| > MAX_LENGTH && short == long[..MAX_LENGTH - DIGEST_LENGTH - 1] + ":" + digest(long)
  }

  // Two different keys whose digests differ fit to the same text in exactly one way.
  lemma FitCollidesExactly(digest: Digest, a: string, b: string)
    requires |digest(a)| == |digest(b)| == DIGEST_LENGTH
    requires a != b ==> digest(a) != digest(b)
    ensures Fit(digest, a) == Fit(digest, b) <==> a == b || Masquerades(digest, a, b) || Masquerades(digest, b, a)
  {
    if |a| > MAX_LENGTH && |b| > MAX_LENGTH && a != b {
      assert Fit(digest, a)[191..] == digest(a);
      assert Fit(digest, b)[191..] == digest(b);
    }
  }

  // -- the idempotency key --------------------------------------------------------------------------

  // What a delivery says about which event it is, most authoritative source first.
  datatype Identity = ByHeader(key: string) | ByEventId(id: string) | ByPayload(digest: string)

  function IdentityOf(host: Host, payload: Json, externalEventId: Option<string>, supplied: Option<string>): Identity {
    if supplied.Some? && Strip(supplied.value) != "" then ByHeader(Strip(supplied.value))
    else if externalEventId.Some? && externalEventId.value != "" then ByEventId(externalEventId.value)
    else ByPayload(host.digest(host.serialize(payload)))
  }

  function RawKey(vendor: string, identity: Identity): string {
    match identity
    case ByHeader(key) => "header:" + vendor + ":" + key
    case ByEventId(id) => "external:" + vendor + ":" + id
    case ByPayload(digest) => "payload:" + vendor + ":" + digest
  }

  function IdempotencyKey(host: Host, vendor: string, payload: Json, externalEventId: Option<string>,
                          supplied: Option<string>): string
  {
    Fit(host.digest, RawKey(vendor, IdentityOf(host, payload, externalEventId, supplied)))
  }

  lemma SamePrefix(prefix: string, a: string, b: string)
    ensures prefix + a == prefix + b <==> a == b
  {
    assert (prefix + a)[|prefix|..] == a;
    assert (prefix + b)[|prefix|..] == b;
  }

  // Before fitting, one vendor's keys coincide only for the same identity: never across sources, and
  // within a source only for the same text.
  lemma RawKeysDistinguish(vendor: string, a: Identity, b: Identity)
    ensures RawKey(vendor, a) == RawKey(vendor, b) <==> a == b
  {
    match a
    case ByHeader(x) =>
      assert RawKey(vendor, a)[0] == 'h';
      if b.ByHeader? { SamePrefix("header:" + vendor + ":", x, b.key); }
    case ByEventId(x) =>
      assert RawKey(vendor, a)[0] == 'e';
      if b.ByEventId? { SamePrefix("external:" + vendor + ":", x, b.id); }
    case ByPayload(x) =>
      assert RawKey(vendor, a)[0] == 'p';
      if b.ByPayload? { SamePrefix("payload:" + vendor + ":", x, b.digest); }
  }

  // Two identities of one vendor get one key exactly when they are the same identity, or one of them is
  // long and the other spells out its fitted form.
  lemma KeysCoincideExactly(host: Host, vendor: string, a: Identity, b: Identity)
    requires host.Sized()
    requires a != b ==> host.digest(RawKey(vendor, a)) != host.digest(RawKey(vendor, b))
    ensures Fit(host.digest, RawKey(vendor, a)) == Fit(host.digest, RawKey(vendor, b)) <==>
      || a == b
      || Masquerades(host.digest, RawKey(vendor, a), RawKey(vendor, b))
      || Masquerades(host.digest, RawKey(vendor, b), RawKey(vendor, a))
  {
    RawKeysDistinguish(vendor, a, b);
    FitCollidesExactly(host.digest, RawKey(vendor, a), RawKey(vendor, b));
  }

  // -- what was sent -------------------------------------------------------------------------------

  function HeaderSent(supplied: Option<string>): Option<string> {
    if supplied.None? || Strip(supplied.value) == "" then None else Some(Strip(supplied.value))
  }

  // The two deliveries say that they are the same event: a header that is not blank is compared before any
  // event id, an event id before the payload, and never one kind with another.
  predicate SameEventSent(host: Host, a: Json, idA: Option<string>, h: Option<string>,
                          b: Json, idB: Option<string>, k: Option<string>)
  {
    if HeaderSent(h).Some? || HeaderSent(k).Some? then HeaderSent(h) == HeaderSent(k)
    else if idA.Some? || idB.Some? then idA == idB
    else host.serialize(a) == host.serialize(b)
  }

  // The digest does not confuse these two texts.
  predicate Apart(host: Host, s: string, t: string) {
    s != t ==> host.digest(s) != host.digest(t)
  }

  lemma SameIdentityExactly(host: Host, a: Json, idA: Option<string>, h: Option<string>, b: Json, idB: Option<string>,
                            k: Option<string>)
    requires Apart(host, host.serialize(a), host.serialize(b)) && idA != Some("") && idB != Some("")
    ensures IdentityOf(host, a, idA, h) == IdentityOf(host, b, idB, k) <==> SameEventSent(host, a, idA, h, b, idB, k)
  {
  }

  lemma HexadecimalNotBlank(host: Host, s: string, c: char)
    requires host.Hexadecimal() && c in host.digest(s)
    ensures !IsSpace(c)
  {
    assert IsDigit(c) || 'a' <= c <= 'f';
  }

  // What a fitted header key looks like after its lead: the start of the header, a colon and a digest.
  lemma FittedHeader(host: Host, lead: string, key: string) returns (other: string)
    requires host.Hexadecimal() && |lead| <= 190 && |lead + key| > MAX_LENGTH && key != "" && !IsSpace(key[0])
    ensures Fit(host.digest, lead + key) == lead + other && Strip(other) == other != "" && |lead + other| == MAX_LENGTH
  {
    var long := lead + key;
    var fitted := Fit(host.digest, long);
    assert |host.digest(long)| == DIGEST_LENGTH && |fitted| == MAX_LENGTH;
    other := fitted[|lead|..];
    assert fitted[..|lead|] == long[..|lead|] == lead;
    assert fitted == lead + other;
    var digest := host.digest(long);
    assert digest[DIGEST_LENGTH - 1] in digest;
    assert other[|other| - 1] == fitted[MAX_LENGTH - 1] == digest[DIGEST_LENGTH - 1];
    HexadecimalNotBlank(host, long, digest[DIGEST_LENGTH - 1]);
    assert other[0] == fitted[|lead|];
    assert fitted == long[..190] + (":" + digest);
    assert |lead| < 190 ==> fitted[|lead|] == long[|lead|] == key[0];
    assert |lead| == 190 ==> fitted[|lead|] == ':';
    StripFixed(other);
  }

  // The exception is a real one, and within a sender's reach: for any header whose key is too long there is
  // another header, with another text, that is given the same key.
  lemma AHeaderCanMasquerade(host: Host, vendor: string, a: Json, b: Json, idA: Option<string>, idB: Option<string>,
                             header: string) returns (other: string)
    requires host.Hexadecimal() && |"header:" + vendor + ":"| <= 190
    requires Strip(header) != "" && |"header:" + vendor + ":" + Strip(header)| > MAX_LENGTH
    ensures Strip(other) == other != Strip(header)
    ensures IdempotencyKey(host, vendor, b, idB, Some(other)) == IdempotencyKey(host, vendor, a, idA, Some(header))
  {
    var lead := "header:" + vendor + ":";
    var key := Strip(header);
    other := FittedHeader(host, lead, key);
    assert IdentityOf(host, a, idA, Some(header)) == ByHeader(key);
    assert IdentityOf(host, b, idB, Some(other)) == ByHeader(other);
    assert RawKey(vendor, ByHeader(key)) == lead + key;
    assert RawKey(vendor, ByHeader(other)) == lead + other;
  }
}
