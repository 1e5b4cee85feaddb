/**
 The strict shape a reading must have before anything is stored.
 */
module Schemas {
  import opened Text
  import opened Vocabulary

  datatype Defect = InvalidType | InvalidStatus | MissingEntityId | BadEventTime | BadConfidence

  // What the reader could point to in the payload.
  datatype FieldName = EntityIdField | StatusField | EventTimeField

  datatype Evidence = Evidence(sourceStatus: string, fieldsFound: set<FieldName>, vendorProfile: Option<string>)

  /** A reading; the confidence counts thousandths, the time is an instant on one common clock. */
  datatype NormalizationResult = NormalizationResult(
    entityType: EntityType, entityId: string, canonicalStatus: Status, eventTime: int, confidence: int, evidence: Evidence)

  datatype Verdict = Accepted(result: NormalizationResult) | Refused(defect: Defect)

  // `eventTime` is None when the text is not a timestamp with a zone.
  function Check(t: EntityType, id: string, s: Status, eventTime: Option<int>, confidence: int, evidence: Evidence)
    : (v: Verdict)
    ensures v.Accepted? ==>
      && StatusFits(v.result.canonicalStatus, v.result.entityType)
      && v.result.entityId != "" && 0 <= v.result.confidence <= 1000
  {
    if t.Unlisted? then Refused(InvalidType)
    else if !StatusFits(s, t) then Refused(InvalidStatus)
    else if id == "" then Refused(MissingEntityId)
    else if eventTime.None? then Refused(BadEventTime)
    else if confidence < 0 || confidence > 1000 then Refused(BadConfidence)
    else Accepted(NormalizationResult(t, id, s, eventTime.value, confidence, evidence))
  }

  function FromDict(entityType: EntityType, entityId: string, canonicalStatus: Status, eventTime: Option<int>,
                    confidence: int, evidence: Evidence): Verdict
  {
    Check(CanonicalType(entityType), Strip(entityId), CanonicalStatus(canonicalStatus), eventTime, confidence, evidence)
  }

  lemma CanonicalFixed(t: EntityType, s: Status)
    requires StatusFits(s, t)
    ensures CanonicalStatus(s) == s
  {
  }

  // Whatever is stored fits its type; and a fitting reading with an identifier is always stored as it is.
  lemma FromDictMeans(entityType: EntityType, entityId: string, status: Status, time: int, confidence: int,
                      evidence: Evidence)
    requires Listed(entityType)
    ensures var v := FromDict(entityType, entityId, status, Some(time), confidence, evidence);
      v.Accepted? ==>
        && v.result.entityType == entityType && v.result.eventTime == time
        && v.result.confidence == confidence && v.result.evidence == evidence
        && v.result.entityId == Strip(entityId) && v.result.canonicalStatus == CanonicalStatus(status)
    ensures
      StatusFits(status, entityType) && entityId != "" && Strip(entityId) == entityId && 0 <= confidence <= 1000 ==>
      FromDict(entityType, entityId, status, Some(time), confidence, evidence) ==
      Accepted(NormalizationResult(entityType, entityId, status, time, confidence, evidence))
  {
    if StatusFits(status, entityType) {
      CanonicalFixed(entityType, status);
    }
  }

  // The type and the status name, in whatever case, a type of the column and a status that it may take.
  ghost predicate Named(entityType: EntityType, status: Status, t: EntityType, s: Status) {
    && Listed(t) && StatusFits(s, t)
    && SameWithoutCase(TypeName(entityType), TypeName(t)) && SameWithoutCase(StatusName(status), StatusName(s))
  }

  // Of any input at all: it is accepted exactly when it names a type and a status of that type, identifies an
  // entity, has a time, and a confidence between none and all of it; and then it is stored under those names.
  lemma FromDictAcceptsExactly(entityType: EntityType, entityId: string, status: Status, time: Option<int>,
                               confidence: int, evidence: Evidence)
    ensures var v := FromDict(entityType, entityId, status, time, confidence, evidence);
      && (v.Accepted? <==>
            && (exists t, s :: Named(entityType, status, t, s))
            && Strip(entityId) != "" && time.Some? && 0 <= confidence <= 1000)
      && (v.Accepted? ==>
            && Named(entityType, status, v.result.entityType, v.result.canonicalStatus)
            && v.result == NormalizationResult(v.result.entityType, Strip(entityId), v.result.canonicalStatus, time.value,
                                               confidence, evidence))
  {
    var t, s := CanonicalType(entityType), CanonicalStatus(status);
    forall u, c | Listed(u) && StatusFits(c, u)
      ensures Named(entityType, status, u, c) <==> t == u && s == c
    {
      CanonicalMeans(entityType, u, status, c);
    }
  }
}
