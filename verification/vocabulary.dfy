/**
 The fixed vocabularies: entity types, canonical statuses, the words vendors use for them, and the key
 names the generic reader looks under.
 */
module Vocabulary {
  import opened Text

  datatype Option<+T> = None | Some(value: T)

  // The column's choices; any other text a caller may supply is carried along unread.
  datatype EntityType = SHIPMENT | INVOICE | UNCLASSIFIED | Unlisted(text: string)

  datatype Status =
    | PICKED_UP | IN_TRANSIT | OUT_FOR_DELIVERY | DELIVERED
    | ISSUED | PAID | VOIDED | REFUNDED
    | UNKNOWN
    | Other(text: string)

  predicate Listed(t: EntityType) {
    !t.Unlisted?
  }

  // The canonical statuses an entity type may take; none for an unlisted type.
  predicate StatusFits(s: Status, t: EntityType) {
    match t
    case SHIPMENT => s.PICKED_UP? || s.IN_TRANSIT? || s.OUT_FOR_DELIVERY? || s.DELIVERED?
    case INVOICE => s.ISSUED? || s.PAID? || s.VOIDED? || s.REFUNDED?
    case UNCLASSIFIED => s.UNKNOWN?
    case Unlisted(_) => false
  }

  const TYPE_NAMES: map<string, EntityType> :=
    map["SHIPMENT" := SHIPMENT, "INVOICE" := INVOICE, "UNCLASSIFIED" := UNCLASSIFIED]

  const STATUS_NAMES: map<string, Status> := map[
    "PICKED_UP" := PICKED_UP, "IN_TRANSIT" := IN_TRANSIT, "OUT_FOR_DELIVERY" := OUT_FOR_DELIVERY,
    "DELIVERED" := DELIVERED, "ISSUED" := ISSUED, "PAID" := PAID, "VOIDED" := VOIDED, "REFUNDED" := REFUNDED,
    "UNKNOWN" := UNKNOWN]

  function ParseType(text: string): EntityType {
    if text in TYPE_NAMES then TYPE_NAMES[text] else Unlisted(text)
  }

  function ParseStatus(text: string): Status {
    if text in STATUS_NAMES then STATUS_NAMES[text] else Other(text)
  }

  // Reading a type or status without regard to case.
  function CanonicalType(t: EntityType): EntityType {
    match t
    case Unlisted(text) => ParseType(Upper(text))
    case _ => t
  }

  function CanonicalStatus(s: Status): Status {
    match s
    case Other(text) => ParseStatus(Upper(text))
    case _ => s
  }

  // -- names, whatever their case -------------------------------------------------------------

  function TypeName(t: EntityType): string {
    match t
    case SHIPMENT => "SHIPMENT"
    case INVOICE => "INVOICE"
    case UNCLASSIFIED => "UNCLASSIFIED"
    case Unlisted(text) => text
  }

  function StatusName(s: Status): string {
    match s
    case PICKED_UP => "PICKED_UP"
    case IN_TRANSIT => "IN_TRANSIT"
    case OUT_FOR_DELIVERY => "OUT_FOR_DELIVERY"
    case DELIVERED => "DELIVERED"
    case ISSUED => "ISSUED"
    case PAID => "PAID"
    case VOIDED => "VOIDED"
    case REFUNDED => "REFUNDED"
    case UNKNOWN => "UNKNOWN"
    case Other(text) => text
  }

  lemma UpperFixed(s: string)
    requires forall c :: c in s ==> !('a' <= c <= 'z')
    ensures Upper(s) == s
  {
    forall i | 0 <= i < |s| ensures Upper(s)[i] == s[i] {
      assert s[i] in s;
    }
  }

  lemma NamesPlain()
    ensures forall t :: Listed(t) ==> forall c :: c in TypeName(t) ==> !('a' <= c <= 'z')
    ensures forall s: Status :: !s.Other? ==> forall c :: c in StatusName(s) ==> !('a' <= c <= 'z')
  {
  }

  lemma NamesAType(text: string, t: EntityType)
    requires Listed(t)
    ensures ParseType(Upper(text)) == t <==> SameWithoutCase(text, TypeName(t))
  {
    CaseForgotten(text, TypeName(t));
    NamesPlain();
    UpperFixed(TypeName(t));
  }

  lemma NamesAStatus(text: string, s: Status)
    requires !s.Other?
    ensures ParseStatus(Upper(text)) == s <==> SameWithoutCase(text, StatusName(s))
  {
    CaseForgotten(text, StatusName(s));
    NamesPlain();
    UpperFixed(StatusName(s));
  }

  // A type or a status stands for the listed one whose name its own name is, but for case.
  lemma CanonicalMeans(given: EntityType, t: EntityType, said: Status, s: Status)
    requires Listed(t) && !s.Other?
    ensures CanonicalType(given) == t <==> SameWithoutCase(TypeName(given), TypeName(t))
    ensures CanonicalStatus(said) == s <==> SameWithoutCase(StatusName(said), StatusName(s))
  {
    NamesAType(TypeName(given), t);
    NamesAStatus(StatusName(said), s);
    NamesPlain();
    if Listed(given) {
      UpperFixed(TypeName(given));
    }
    if !said.Other? {
      UpperFixed(StatusName(said));
    }
  }

  /**
   The words and key names the generic reader goes by. The theorems hold for any lexicon; `GATEWAY`
   is the one in use.
   */
  datatype Lexicon = Lexicon(
    idKeys: seq<string>, timeKeys: seq<string>, statusKeys: seq<string>,
    shipmentWords: map<string, Status>, invoiceWords: map<string, Status>,
    shipmentIdKeys: set<string>, invoiceIdKeys: set<string>,
    shipmentHints: seq<string>, invoiceHints: seq<string>,
    vendorNamingKeys: set<string>)
  {
    // The generic words for a type, as discovery looks them up.
    function Words(entityType: EntityType): map<string, Status> {
      match entityType
      case SHIPMENT => shipmentWords
      case INVOICE => invoiceWords
      case _ => map[]
    }

    // Words carry statuses of their own type, and every such status has a word.
    ghost predicate Canonical() {
      && (forall w :: w in shipmentWords ==> StatusFits(shipmentWords[w], SHIPMENT))
      && (forall w :: w in invoiceWords ==> StatusFits(invoiceWords[w], INVOICE))
      && (forall s :: StatusFits(s, SHIPMENT) ==> s in shipmentWords.Values)
      && (forall s :: StatusFits(s, INVOICE) ==> s in invoiceWords.Values)
    }

    // Hints are non-empty and contain no space.
    ghost predicate PlainHints() {
      && (forall h :: h in shipmentHints ==> PlainHint(h))
      && (forall h :: h in invoiceHints ==> PlainHint(h))
    }
  }

  const SHIPMENT_WORDS: map<string, Status> := map[
    "picked_up" := PICKED_UP, "pickup" := PICKED_UP, "collected" := PICKED_UP,
    "in_transit" := IN_TRANSIT, "intransit" := IN_TRANSIT, "transit" := IN_TRANSIT,
    "shipped" := IN_TRANSIT, "dispatched" := IN_TRANSIT, "departed" := IN_TRANSIT,
    "out_for_delivery" := OUT_FOR_DELIVERY, "outfordelivery" := OUT_FOR_DELIVERY,
    "delivered" := DELIVERED, "completed" := DELIVERED, "arrived" := DELIVERED]

  const INVOICE_WORDS: map<string, Status> := map[
    "issued" := ISSUED, "open" := ISSUED, "sent" := ISSUED, "pending" := ISSUED,
    "created" := ISSUED, "draft" := ISSUED,
    "paid" := PAID, "settled" := PAID, "payment_succeeded" := PAID,
    "voided" := VOIDED, "void" := VOIDED, "cancelled" := VOIDED, "canceled" := VOIDED,
    "refunded" := REFUNDED, "refund" := REFUNDED, "chargeback" := REFUNDED]

  const SHIPMENT_HINTS: seq<string> := [
    "shipment", "tracking", "carrier", "parcel", "delivery", "freight",
    "container", "vessel", "voyage", "cargo", "consignment", "waybill", "courier"]

  const INVOICE_HINTS: seq<string> := [
    "invoice", "billing", "payment", "amount_due", "charge", "remittance", "payable"]

  const GATEWAY := Lexicon(
    idKeys := [
    "shipment_id", "shipmentId", "tracking_number", "trackingNumber", "tracking_id",
    "shipment_reference", "shipmentReference", "container_no", "containerNo",
    "container_number", "containerNumber",
    "invoice_id", "invoiceId", "invoice_number", "invoiceNumber",
    "reference", "ref", "order_id", "orderId", "id", "uuid"],
    timeKeys := [
    "event_time", "eventTime", "occurred_at", "occurredAt", "timestamp", "ts",
    "created_at", "createdAt", "updated_at", "updatedAt", "date"],
    statusKeys := [
    "status", "state", "status_text", "statusText",
    "event", "event_type", "eventType", "phase", "lifecycle",
    "event_description", "eventDescription", "code", "type",
    "message", "description"],
    shipmentWords := SHIPMENT_WORDS,
    invoiceWords := INVOICE_WORDS,
    shipmentIdKeys := {
    "shipment_id", "shipmentid", "tracking_number", "trackingnumber", "tracking_id",
    "shipment_reference", "shipmentreference", "container_no", "containerno",
    "container_number", "containernumber"},
    invoiceIdKeys := {"invoice_id", "invoiceid", "invoice_number", "invoicenumber"},
    shipmentHints := SHIPMENT_HINTS,
    invoiceHints := INVOICE_HINTS,
    vendorNamingKeys := {"vendor", "source", "provider", "carrier"})

  lemma ShipmentWordsCanonical()
    ensures forall w :: w in SHIPMENT_WORDS ==> StatusFits(SHIPMENT_WORDS[w], SHIPMENT)
    ensures forall s :: StatusFits(s, SHIPMENT) ==> s in SHIPMENT_WORDS.Values
  {
    var m := SHIPMENT_WORDS;
    assert m["pickup"] == PICKED_UP && m["transit"] == IN_TRANSIT;
    assert m["outfordelivery"] == OUT_FOR_DELIVERY && m["arrived"] == DELIVERED;
  }

  lemma InvoiceWordsCanonical()
    ensures forall w :: w in INVOICE_WORDS ==> StatusFits(INVOICE_WORDS[w], INVOICE)
    ensures forall s :: StatusFits(s, INVOICE) ==> s in INVOICE_WORDS.Values
  {
    var m := INVOICE_WORDS;
    assert m["issued"] == ISSUED && m["paid"] == PAID;
    assert m["void"] == VOIDED && m["refund"] == REFUNDED;
  }

  predicate PlainHint(h: string) {
    h != "" && ' ' !in h
  }

  lemma ShipmentHintsPlain()
    ensures forall h :: h in SHIPMENT_HINTS ==> PlainHint(h)
  {
    assert PlainHint("shipment");
    assert PlainHint("tracking");
    assert PlainHint("carrier");
    assert PlainHint("parcel");
    assert PlainHint("delivery");
    assert PlainHint("freight");
    assert PlainHint("container");
    assert PlainHint("vessel");
    assert PlainHint("voyage");
    assert PlainHint("cargo");
    assert PlainHint("consignment");
    assert PlainHint("waybill");
    assert PlainHint("courier");
  }

  lemma InvoiceHintsPlain()
    ensures forall h :: h in INVOICE_HINTS ==> PlainHint(h)
  {
    assert PlainHint("invoice");
    assert PlainHint("billing");
    assert PlainHint("payment");
    assert PlainHint("amount_due");
    assert PlainHint("charge");
    assert PlainHint("remittance");
    assert PlainHint("payable");
  }

  lemma GatewayAdmissible()
    ensures GATEWAY.Canonical() && GATEWAY.PlainHints()
  {
    ShipmentWordsCanonical();
    InvoiceWordsCanonical();
    ShipmentHintsPlain();
    InvoiceHintsPlain();
  }

  /** What the reader has been told about one vendor's payloads; a blank entity type is None. */
  datatype VendorProfile = VendorProfile(
    vendor: string,
    entityType: Option<EntityType>,
    idPaths: seq<string>,
    statusPaths: seq<string>,
    timePaths: seq<string>,
    statusMap: map<string, Status>,
    source: string,
    sampleCount: nat,
    notes: string)
}
