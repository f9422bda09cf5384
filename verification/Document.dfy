/** Whole payload documents: normalisation, re-encoding and the canonical form the digest covers. */
module Documents {
  import opened Authenticity
  import opened Sorting
  import opened Payloads

  datatype Operation = Operation(contractId: string, function_: string, args: seq<Entry>)
  datatype Payload = Payload(network: string, sourceAccount: string, fee: int, sequence: int, maxTime: int, operations: seq<Operation>)

  const SCHEMA := "oracle.tx_review.v1"
  const MAX_OPERATIONS := 16
  const MAX_ARGUMENTS := 32
  const DOCUMENT_FIELDS := ["network", "source_account", "fee", "sequence", "max_time", "operations", "schema"]
  const OPERATION_FIELDS := ["contract_id", "function", "args"]

  /** The endpoints the guard models. */
  const PRIVILEGED: seq<string> := [
    "initialize", "upgrade", "set_admin", "pause", "unpause", "pause_asset", "unpause_asset",
    "set_min_sources_required", "set_max_history_length", "set_max_price_deviation", "set_max_sources",
    "set_max_history_per_asset", "set_max_events_per_call", "set_max_aggregation_sources", "set_max_assets",
    "set_max_inactive_ledgers", "override_price", "remove_price_override", "propose_operation",
    "propose_operation_with_priority", "execute_operation", "cancel_operation", "set_timelock_duration",
    "set_admin_op_daily_limit"]

  predicate Privileged(function_: string) { function_ in PRIVILEGED }

  function RequireStr(j: Json): Outcome<string> {
    if j.Str? && !Blank(j.s) then Ok(j.s) else Fail(Malformed)
  }

  function RequireInt(j: Json, minimum: int): Outcome<int> {
    if !j.Int? then Fail(Malformed) else if j.i < minimum then Fail(ArgumentValue) else Ok(j.i)
  }

  function ArgumentsOf(raw: Json): Json
    requires raw.Obj?
  {
    Get(raw.fields, "args", Obj([]))
  }

  function NormaliseOperation(raw: Json, parse: Parser): Outcome<Operation> {
    if !raw.Obj? then Fail(Malformed)
    else if !OnlyKeys(raw.fields, OPERATION_FIELDS) then Fail(UnknownField)
    else
      var contract := RequireStr(Get(raw.fields, "contract_id", Null));
      if contract.Fail? then Fail(contract.code) else
      var f := RequireStr(Get(raw.fields, "function", Null));
      if f.Fail? then Fail(f.code)
      else if !Privileged(f.value) then Fail(UnknownFunction)
      else if !ArgumentsOf(raw).Obj? || |ArgumentsOf(raw).fields| > MAX_ARGUMENTS then Fail(Malformed)
      else
        var entries := NormaliseEntries(ArgumentsOf(raw).fields, parse);
        if entries.Fail? then Fail(entries.code) else Ok(Operation(contract.value, f.value, Sort(entries.value, EntryLe)))
  }

  function NormaliseOperations(raws: seq<Json>, parse: Parser): (r: Outcome<seq<Operation>>)
    ensures r.Ok? ==> |r.value| == |raws|
  {
    if raws == [] then Ok([]) else
    var n := |raws| - 1;
    match NormaliseOperations(raws[..n], parse)
    case Fail(code) => Fail(code)
    case Ok(done) =>
      match NormaliseOperation(raws[n], parse)
      case Fail(code) => Fail(code)
      case Ok(last) => Ok(done + [last])
  }

  /** The fields before the operations. */
  datatype Header = Header(network: string, sourceAccount: string, fee: int, sequence: int, maxTime: int)

  function NormaliseHeader(fields: seq<Member>): Outcome<Header> {
    if Get(fields, "schema", Str(SCHEMA)) != Str(SCHEMA) then Fail(Malformed)
    else if !OnlyKeys(fields, DOCUMENT_FIELDS) then Fail(UnknownField)
    else
      var network := RequireStr(Get(fields, "network", Null));
      if network.Fail? then Fail(network.code) else
      var source := RequireStr(Get(fields, "source_account", Null));
      if source.Fail? then Fail(source.code) else
      var fee := RequireInt(Get(fields, "fee", Int(0)), 0);
      if fee.Fail? then Fail(fee.code) else
      var sequence := RequireInt(Get(fields, "sequence", Null), 1);
      if sequence.Fail? then Fail(sequence.code) else
      var maxTime := RequireInt(Get(fields, "max_time", Int(0)), 0);
      if maxTime.Fail? then Fail(maxTime.code) else
      Ok(Header(network.value, source.value, fee.value, sequence.value, maxTime.value))
  }

  function Assemble(h: Header, operations: seq<Operation>): Payload {
    Payload(h.network, h.sourceAccount, h.fee, h.sequence, h.maxTime, operations)
  }

  function Normalise(doc: Json, parse: Parser): Outcome<Payload> {
    if !doc.Obj? then Fail(Malformed) else
    match NormaliseHeader(doc.fields)
    case Fail(code) => Fail(code)
    case Ok(header) =>
      var raws := Get(doc.fields, "operations", Null);
      if !raws.Arr? || raws.items == [] || |raws.items| > MAX_OPERATIONS then Fail(Malformed) else
      match NormaliseOperations(raws.items, parse)
      case Fail(code) => Fail(code)
      case Ok(operations) => Ok(Assemble(header, operations))
  }

  /** The loop over the operations: the first that is refused refuses the payload. */
  method NormalisePayload(doc: Json, parse: Parser) returns (r: Outcome<Payload>)
    ensures r == Normalise(doc, parse)
  {
    hide NormaliseHeader, NormaliseOperation;
    if !doc.Obj? { return Fail(Malformed); }
    var header := NormaliseHeader(doc.fields);
    if header.Fail? { return Fail(header.code); }
    var raws := Get(doc.fields, "operations", Null);
    if !raws.Arr? || raws.items == [] || |raws.items| > MAX_OPERATIONS { return Fail(Malformed); }
    var operations: seq<Operation> := [];
    for i := 0 to |raws.items|
      invariant NormaliseOperations(raws.items[..i], parse) == Ok(operations)
    {
      assert raws.items[..i + 1][..i] == raws.items[..i];
      var operation := NormaliseOperation(raws.items[i], parse);
      if operation.Fail? {
        OneRefused(raws.items, i, parse);
        return Fail(operation.code);
      }
      operations := operations + [operation.value];
    }
    assert raws.items[..|raws.items|] == raws.items;
    return Ok(Assemble(header.value, operations));
  }

  lemma {:induction false} OneRefused(raws: seq<Json>, i: nat, parse: Parser)
    requires i < |raws| && NormaliseOperations(raws[..i], parse).Ok? && NormaliseOperation(raws[i], parse).Fail?
    ensures NormaliseOperations(raws, parse) == Fail(NormaliseOperation(raws[i], parse).code)
    decreases |raws|
  {
    hide NormaliseOperation;
    var n := |raws| - 1;
    if i < n {
      assert raws[..n][..i] == raws[..i];
      OneRefused(raws[..n], i, parse);
    }
  }

  // -- which documents are one payload --------------------------------------

  ghost predicate AlikeOperations(a: Json, b: Json, parse: Parser) {
    && a.Obj? && b.Obj? && OnlyKeys(b.fields, OPERATION_FIELDS)
    && Get(a.fields, "contract_id", Null) == Get(b.fields, "contract_id", Null)
    && Get(a.fields, "function", Null) == Get(b.fields, "function", Null)
    && ArgumentsOf(a).Obj? && ArgumentsOf(b).Obj? && AlikeMembers(ArgumentsOf(a).fields, ArgumentsOf(b).fields, parse)
  }

  ghost predicate AlikeHeaders(a: seq<Member>, b: seq<Member>) {
    && Get(b, "schema", Str(SCHEMA)) == Str(SCHEMA) && OnlyKeys(b, DOCUMENT_FIELDS)
    && Get(a, "network", Null) == Get(b, "network", Null)
    && Get(a, "source_account", Null) == Get(b, "source_account", Null)
    && Get(a, "fee", Int(0)) == Get(b, "fee", Int(0))
    && Get(a, "sequence", Null) == Get(b, "sequence", Null)
    && Get(a, "max_time", Int(0)) == Get(b, "max_time", Int(0))
  }

  /** Equal up to the order of object keys, the spelling of integer arguments, and
      fields left to their defaults. Operations keep their order. */
  ghost predicate AlikeDocuments(a: Json, b: Json, parse: Parser) {
    && a.Obj? && b.Obj? && AlikeHeaders(a.fields, b.fields)
    && var xs, ys := Get(a.fields, "operations", Null), Get(b.fields, "operations", Null);
       && xs.Arr? && ys.Arr? && |xs.items| == |ys.items|
       && forall i | 0 <= i < |xs.items| :: AlikeOperations(xs.items[i], ys.items[i], parse)
  }

  lemma GetKeepsDicts(j: Json, key: string, default: Json)
    requires Dicts(j) && j.Obj? && Dicts(default)
    ensures Dicts(Get(j.fields, key, default))
  {}

  lemma SameOperationExactly(a: Json, b: Json, parse: Parser)
    requires Dicts(a) && Dicts(b) && NormaliseOperation(a, parse).Ok?
    ensures NormaliseOperation(b, parse) == NormaliseOperation(a, parse) <==> AlikeOperations(a, b, parse)
  {
    hide Blank, Privileged, NormaliseEntries, AlikeMembers, Sort, Get, OnlyKeys;
    if b.Obj? && ArgumentsOf(b).Obj? {
      GetKeepsDicts(a, "args", Obj([]));
      GetKeepsDicts(b, "args", Obj([]));
      var xs, ys := ArgumentsOf(a).fields, ArgumentsOf(b).fields;
      if |xs| == |ys| {
        SameMembersExactly(xs, ys, parse);
      } else {
        AlikeMembersLength(xs, ys, parse);
      }
    }
  }

  lemma AlikeMembersLength(a: seq<Member>, b: seq<Member>, parse: Parser)
    ensures AlikeMembers(a, b, parse) ==> |a| == |b|
  {}

  lemma {:induction false} OperationsExactly(raws: seq<Json>, parse: Parser)
    ensures NormaliseOperations(raws, parse).Ok? <==> forall i | 0 <= i < |raws| :: NormaliseOperation(raws[i], parse).Ok?
    ensures NormaliseOperations(raws, parse).Ok? ==>
              forall i | 0 <= i < |raws| :: NormaliseOperation(raws[i], parse) == Ok(NormaliseOperations(raws, parse).value[i])
  {
    hide NormaliseOperation;
    if raws != [] {
      var n := |raws| - 1;
      OperationsExactly(raws[..n], parse);
      forall i | 0 <= i < n ensures raws[..n][i] == raws[i] {
      }
    }
  }

  lemma SameOperations(a: seq<Json>, b: seq<Json>, parse: Parser)
    requires |a| == |b| && NormaliseOperations(a, parse).Ok?
    requires forall i | 0 <= i < |a| :: Dicts(a[i]) && Dicts(b[i])
    ensures NormaliseOperations(b, parse) == NormaliseOperations(a, parse)
       <==> forall i | 0 <= i < |a| :: AlikeOperations(a[i], b[i], parse)
  {
    hide NormaliseOperation, NormaliseOperations, AlikeOperations, Dicts;
    OperationsExactly(a, parse);
    OperationsExactly(b, parse);
    forall i | 0 <= i < |a|
      ensures NormaliseOperation(b[i], parse) == NormaliseOperation(a[i], parse) <==> AlikeOperations(a[i], b[i], parse)
    {
      SameOperationExactly(a[i], b[i], parse);
    }
    if forall i | 0 <= i < |a| :: AlikeOperations(a[i], b[i], parse) {
      assert NormaliseOperations(b, parse).value == NormaliseOperations(a, parse).value;
    }
  }

  lemma SameHeaderExactly(a: seq<Member>, b: seq<Member>)
    requires NormaliseHeader(a).Ok?
    ensures NormaliseHeader(b) == NormaliseHeader(a) <==> AlikeHeaders(a, b)
  {
    hide Blank, Get, OnlyKeys;
  }

  /** The documents that normalise to the payload of `a` are exactly those alike to `a`. */
  lemma SameDocumentExactly(a: Json, b: Json, parse: Parser)
    requires Dicts(a) && Dicts(b) && Normalise(a, parse).Ok?
    ensures Normalise(b, parse) == Normalise(a, parse) <==> AlikeDocuments(a, b, parse)
  {
    hide NormaliseHeader, AlikeHeaders, NormaliseOperations, AlikeOperations, Get;
    if b.Obj? {
      SameHeaderExactly(a.fields, b.fields);
      GetKeepsDicts(a, "operations", Null);
      GetKeepsDicts(b, "operations", Null);
      var xs, ys := Get(a.fields, "operations", Null), Get(b.fields, "operations", Null);
      if ys.Arr? && |xs.items| == |ys.items| {
        SameOperations(xs.items, ys.items, parse);
      }
    }
  }
}
