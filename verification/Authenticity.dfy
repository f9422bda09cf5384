/** Raw event envelopes and the trust policy that guards every indexer write. */
module Authenticity {
  import opened Options

  /** A field of a decoded JSON object: missing, present with the wrong type or
      out of shape, or usable. On the envelope an explicit null counts as missing;
      inside `data` it is ill, because the coercion raises on it. */
  datatype Field<+T> = Absent | Ill | Val(value: T)

  /** The keys of an event's `data` object that the indexer reads. A required
      key that is missing or cannot be coerced is `None`. */
  datatype Data = Data(
    source: Option<string>, name: Option<string>, asset: Option<string>,
    price: Option<int>, numSources: Field<int>, timestamp: Field<int>)

  datatype Raw =
    | NotObject
    | Row(ledger: Option<int>, eventIndex: Field<int>, timestamp: Option<int>, contractId: Option<string>,
          topic: Option<string>, ledgerHash: Field<string>, data: Option<Data>)
  {
    function Ledger(): Option<int> { if Row? then ledger else None }
    function Index(): Field<int> { if Row? then eventIndex else Absent }
  }

  datatype Code =
    | MalformedEvent | ContractMismatch | UnknownTopic | LedgerRange
    | LedgerHashMissing | LedgerHashInconsistent | LedgerTimeRegression

  datatype Policy = Policy(
    expectedContractId: Option<string>, minLedger: int, requireLedgerHash: bool, allowedTopics: seq<string>)

  datatype Event = Event(
    ledger: int, index: int, hash: Option<string>, timestamp: int, contractId: string, topic: string, data: Data)

  datatype Verdict = Refused(code: Code) | Verified(event: Event)

  /** True for a string that `strip()` would empty. */
  predicate Blank(s: string) {
    forall i | 0 <= i < |s| :: s[i] in " \t\n\r"
  }

  /** Python's `a or b` on optional strings: the empty string is falsy. */
  function Or(a: Option<string>, b: Option<string>): Option<string> {
    if a.Some? && a.value != "" then a else b
  }

  /** What a verified event proves about the row it came from, and nothing in it is invented. */
  ghost predicate Proves(row: Raw, policy: Policy, pinned: Option<string>, lastClose: Option<int>, index: int, e: Event) {
    && row.Row?
    && row.ledger == Some(e.ledger) && policy.minLedger <= e.ledger
    && row.eventIndex == (if row.eventIndex.Absent? then Absent else Val(e.index))
    && (row.eventIndex.Absent? ==> e.index == index) && 0 <= e.index
    && row.timestamp == Some(e.timestamp) && 0 < e.timestamp
    && row.contractId == Some(e.contractId) && !Blank(e.contractId)
    && (Or(policy.expectedContractId, pinned).Some? ==> Some(e.contractId) == Or(policy.expectedContractId, pinned))
    && row.topic == Some(e.topic) && !Blank(e.topic)
    && (policy.allowedTopics == [] || e.topic in policy.allowedTopics)
    && row.ledgerHash == (if e.hash.Some? then Val(e.hash.value) else Absent)
    && (policy.requireLedgerHash ==> e.hash.Some?)
    && (lastClose.Some? ==> lastClose.value <= e.timestamp)
    && row.data == Some(e.data)
  }

  /** `verify_event`: the checks in the order the code makes them. */
  function VerifyEvent(row: Raw, policy: Policy, pinned: Option<string>, lastClose: Option<int>, index: int): Verdict {
    if row.NotObject? then Refused(MalformedEvent)
    else if row.ledger.None? || row.ledger.value < policy.minLedger then Refused(LedgerRange)
    else
    var idx := if row.eventIndex.Absent? then Val(index) else row.eventIndex;
    if idx.Ill? || idx.value < 0 then Refused(MalformedEvent)
    else if row.timestamp.None? || row.timestamp.value <= 0 then Refused(MalformedEvent)
    else if row.contractId.None? || Blank(row.contractId.value) then Refused(MalformedEvent)
    else
    var expected := Or(policy.expectedContractId, pinned);
    if expected.Some? && row.contractId != expected then Refused(ContractMismatch)
    else if row.topic.None? || Blank(row.topic.value) then Refused(MalformedEvent)
    else if policy.allowedTopics != [] && row.topic.value !in policy.allowedTopics then Refused(UnknownTopic)
    else if row.ledgerHash.Ill? then Refused(MalformedEvent)
    else if row.ledgerHash.Absent? && policy.requireLedgerHash then Refused(LedgerHashMissing)
    else if lastClose.Some? && row.timestamp.value < lastClose.value then Refused(LedgerTimeRegression)
    else if row.data.None? then Refused(MalformedEvent)
    else
    var hash := if row.ledgerHash.Val? then Some(row.ledgerHash.value) else None;
    Verified(Event(row.ledger.value, idx.value, hash, row.timestamp.value, row.contractId.value,
                   row.topic.value, row.data.value))
  }

  /** A row is admitted exactly when some event is proved by it, and then as that event. */
  lemma VerifiedExactly(row: Raw, policy: Policy, pinned: Option<string>, lastClose: Option<int>, index: int, e: Event)
    ensures VerifyEvent(row, policy, pinned, lastClose, index) == Verified(e)
            <==> Proves(row, policy, pinned, lastClose, index, e)
  {}
}
