/** The canonical list form of a payload, which the digest covers, and the payload's own re-encoding. */
module Canonicals {
  import opened Authenticity
  import opened Sorting
  import opened Payloads
  import opened Documents

  // -- what normalising yields ----------------------------------------------

  ghost predicate NormalOperation(op: Operation) {
    !Blank(op.contractId) && !Blank(op.function_) && Privileged(op.function_) && |op.args| <= MAX_ARGUMENTS && NormalEntries(op.args)
  }

  ghost predicate NormalPayload(p: Payload) {
    && !Blank(p.network) && !Blank(p.sourceAccount) && p.fee >= 0 && p.sequence >= 1 && p.maxTime >= 0
    && 1 <= |p.operations| <= MAX_OPERATIONS
    && forall i | 0 <= i < |p.operations| :: NormalOperation(p.operations[i])
  }

  lemma OperationIsNormal(raw: Json, parse: Parser)
    requires Dicts(raw) && NormaliseOperation(raw, parse).Ok?
    ensures NormalOperation(NormaliseOperation(raw, parse).value)
  {
    hide Privileged, Blank, NormaliseEntries, NormalEntries, Sort, Get, OnlyKeys;
    GetKeepsDicts(raw, "args", Obj([]));
    EntriesAreNormal(ArgumentsOf(raw).fields, parse);
  }

  lemma PayloadIsNormal(doc: Json, parse: Parser)
    requires Dicts(doc) && Normalise(doc, parse).Ok?
    ensures NormalPayload(Normalise(doc, parse).value)
  {
    hide Blank, Get, OnlyKeys, NormaliseOperation, NormalOperation;
    var raws := Get(doc.fields, "operations", Null).items;
    GetKeepsDicts(doc, "operations", Null);
    OperationsExactly(raws, parse);
    forall i | 0 <= i < |raws| ensures NormalOperation(NormaliseOperations(raws, parse).value[i]) {
      OperationIsNormal(raws[i], parse);
    }
  }

  // -- re-encoding ----------------------------------------------------------

  function EncodeOperation(op: Operation): Json {
    Obj([Member("contract_id", Str(op.contractId)), Member("function", Str(op.function_)), Member("args", Obj(EncodeEntries(op.args)))])
  }

  function EncodeOperations(ops: seq<Operation>): (r: seq<Json>)
    ensures |r| == |ops|
    ensures forall i | 0 <= i < |ops| :: r[i] == EncodeOperation(ops[i])
  {
    if ops == [] then [] else EncodeOperations(ops[..|ops| - 1]) + [EncodeOperation(ops[|ops| - 1])]
  }

  function EncodeFields(p: Payload): seq<Member> {
    [Member("network", Str(p.network)), Member("source_account", Str(p.sourceAccount)), Member("fee", Int(p.fee)),
     Member("sequence", Int(p.sequence)), Member("max_time", Int(p.maxTime)), Member("operations", Arr(EncodeOperations(p.operations)))]
  }

  lemma OperationRoundTrip(op: Operation, parse: Parser)
    requires NormalOperation(op)
    ensures NormaliseOperation(EncodeOperation(op), parse) == Ok(op)
  {
    hide Privileged, Blank, NormaliseEntries, NormalEntries, Sort, Find;
    var fields := EncodeOperation(op).fields;
    assert UniqueKeys(fields) by {
      assert |"contract_id"| == 11 && |"function"| == 8 && |"args"| == 4;
    }
    FindUnique(fields, 0);
    FindUnique(fields, 1);
    FindUnique(fields, 2);
    EntriesRoundTrip(op.args, parse);
  }

  lemma FieldsRead(p: Payload)
    ensures var f := EncodeFields(p);
            && Get(f, "network", Null) == f[0].val && Get(f, "source_account", Null) == f[1].val && Get(f, "fee", Int(0)) == f[2].val
            && Get(f, "sequence", Null) == f[3].val && Get(f, "max_time", Int(0)) == f[4].val && Get(f, "operations", Null) == f[5].val
            && Get(f, "schema", Str(SCHEMA)) == Str(SCHEMA)
  {
    hide Find;
    var f := EncodeFields(p);
    assert |"network"| == 7 && |"source_account"| == 14 && |"fee"| == 3 && |"operations"| == 10 && |"schema"| == 6;
    assert |"sequence"| == 8 && |"max_time"| == 8 && "sequence"[0] != "max_time"[0];
    assert UniqueKeys(f);
    FindUnique(f, 0);
    FindUnique(f, 1);
    FindUnique(f, 2);
    FindUnique(f, 3);
    FindUnique(f, 4);
    FindUnique(f, 5);
  }

  /** Normalising a payload's own encoding gives the payload back. */
  lemma PayloadRoundTrip(p: Payload, parse: Parser)
    requires NormalPayload(p)
    ensures Normalise(Obj(EncodeFields(p)), parse) == Ok(p)
  {
    hide Get, Blank, NormalOperation, NormaliseOperation, NormaliseOperations;
    FieldsRead(p);
    var raws := EncodeOperations(p.operations);
    forall i | 0 <= i < |raws| ensures NormaliseOperation(raws[i], parse) == Ok(p.operations[i]) {
      OperationRoundTrip(p.operations[i], parse);
    }
    OperationsExactly(raws, parse);
    assert NormaliseOperations(raws, parse).value == p.operations;
  }

  /** Normalising twice is normalising once. */
  lemma NormalisingIsIdempotent(doc: Json, parse: Parser)
    requires Dicts(doc) && Normalise(doc, parse).Ok?
    ensures Normalise(Obj(EncodeFields(Normalise(doc, parse).value)), parse) == Normalise(doc, parse)
  {
    hide Normalise, NormalPayload, EncodeFields;
    PayloadIsNormal(doc, parse);
    PayloadRoundTrip(Normalise(doc, parse).value, parse);
  }

  // -- the canonical form ---------------------------------------------------

  function CanonicalTyped(t: Typed): Json
    decreases t
  {
    Arr([Str(NameOf(t.kind)), CanonicalValue(t.value)])
  }

  function CanonicalEntry(e: Entry): Json
    decreases e
  {
    Arr([Str(e.name), Str(NameOf(e.typed.kind)), CanonicalValue(e.typed.value)])
  }

  function CanonicalValue(v: Value): Json
    decreases v
  {
    match v
    case Number(i) => Int(i)
    case Flag(b) => Bool(b)
    case Chars(s) => Str(s)
    case Nothing => Null
    case Items(items) => Arr(CanonicalItems(items))
    case Entries(entries) => Arr(CanonicalEntries(entries))
  }

  function CanonicalItems(items: seq<Typed>): (r: seq<Json>)
    decreases items
    ensures |r| == |items|
    ensures forall i | 0 <= i < |items| :: r[i] == CanonicalTyped(items[i])
  {
    if items == [] then [] else CanonicalItems(items[..|items| - 1]) + [CanonicalTyped(items[|items| - 1])]
  }

  function CanonicalEntries(entries: seq<Entry>): (r: seq<Json>)
    decreases entries
    ensures |r| == |entries|
    ensures forall i | 0 <= i < |entries| :: r[i] == CanonicalEntry(entries[i])
  {
    if entries == [] then [] else CanonicalEntries(entries[..|entries| - 1]) + [CanonicalEntry(entries[|entries| - 1])]
  }

  function CanonicalOperation(op: Operation): Json {
    Arr([Str(op.contractId), Str(op.function_), Arr(CanonicalEntries(op.args))])
  }

  function CanonicalOperations(ops: seq<Operation>): (r: seq<Json>)
    ensures |r| == |ops|
    ensures forall i | 0 <= i < |ops| :: r[i] == CanonicalOperation(ops[i])
  {
    if ops == [] then [] else CanonicalOperations(ops[..|ops| - 1]) + [CanonicalOperation(ops[|ops| - 1])]
  }

  function Canonical(p: Payload): Json {
    Arr([Str(p.network), Str(p.sourceAccount), Int(p.fee), Int(p.sequence), Int(p.maxTime), Arr(CanonicalOperations(p.operations))])
  }

  lemma NamesAreDistinct(a: Kind, b: Kind)
    requires NameOf(a) == NameOf(b)
    ensures a == b
  {
    KindsAndNames(NameOf(a), a);
    KindsAndNames(NameOf(b), b);
  }

  /** An empty vec and an empty map have the same value form: only the type name keeps them apart. */
  lemma {:induction false} TypedInjective(a: Typed, b: Typed)
    requires Normal(a) && Normal(b) && a.kind == b.kind && CanonicalValue(a.value) == CanonicalValue(b.value)
    ensures a == b
    decreases a
  {
    hide NameOf, Blank;
    if a.kind == Vec {
      var xs, ys := a.value.items, b.value.items;
      assert |xs| == |CanonicalItems(xs)| == |ys|;
      forall i | 0 <= i < |xs| ensures xs[i] == ys[i] {
        assert CanonicalItems(xs)[i] == CanonicalTyped(xs[i]) && CanonicalItems(ys)[i] == CanonicalTyped(ys[i]);
        SplitTyped(xs[i], ys[i]);
        TypedInjective(xs[i], ys[i]);
      }
      assert xs == ys;
    } else if a.kind == Map {
      EntriesInjective(a.value.entries, b.value.entries);
    }
  }

  lemma SplitTyped(a: Typed, b: Typed)
    requires CanonicalTyped(a) == CanonicalTyped(b)
    ensures a.kind == b.kind && CanonicalValue(a.value) == CanonicalValue(b.value)
  {
    hide NameOf, CanonicalValue;
    var x, y := CanonicalTyped(a).items, CanonicalTyped(b).items;
    assert x[0] == y[0] && x[1] == y[1];
    NamesAreDistinct(a.kind, b.kind);
  }

  lemma SplitEntry(a: Entry, b: Entry)
    requires CanonicalEntry(a) == CanonicalEntry(b)
    ensures a.name == b.name && a.typed.kind == b.typed.kind && CanonicalValue(a.typed.value) == CanonicalValue(b.typed.value)
  {
    hide NameOf, CanonicalValue;
    var x, y := CanonicalEntry(a).items, CanonicalEntry(b).items;
    assert x[0] == y[0] && x[1] == y[1] && x[2] == y[2];
    NamesAreDistinct(a.typed.kind, b.typed.kind);
  }

  lemma {:induction false} EntriesInjective(a: seq<Entry>, b: seq<Entry>)
    requires NormalEntries(a) && NormalEntries(b) && CanonicalEntries(a) == CanonicalEntries(b)
    ensures a == b
    decreases a
  {
    hide NameOf, Normal, CanonicalEntry, CanonicalValue;
    assert |a| == |CanonicalEntries(a)| == |b|;
    forall i | 0 <= i < |a| ensures a[i] == b[i] {
      assert CanonicalEntries(a)[i] == CanonicalEntry(a[i]) && CanonicalEntries(b)[i] == CanonicalEntry(b[i]);
      SplitEntry(a[i], b[i]);
      TypedInjective(a[i].typed, b[i].typed);
    }
  }

  lemma OperationInjective(a: Operation, b: Operation)
    requires NormalOperation(a) && NormalOperation(b) && CanonicalOperation(a) == CanonicalOperation(b)
    ensures a == b
  {
    hide NormalEntries, Blank, Privileged, CanonicalEntries;
    var x, y := CanonicalOperation(a).items, CanonicalOperation(b).items;
    assert x[0] == y[0] && x[1] == y[1] && x[2] == y[2];
    EntriesInjective(a.args, b.args);
  }

  /** Different normalised payloads have different canonical forms. */
  lemma CanonicalIsInjective(p: Payload, q: Payload)
    requires NormalPayload(p) && NormalPayload(q) && Canonical(p) == Canonical(q)
    ensures p == q
  {
    hide Blank, NormalOperation, CanonicalOperation;
    var x, y := Canonical(p).items, Canonical(q).items;
    assert x[0] == y[0] && x[1] == y[1] && x[2] == y[2] && x[3] == y[3] && x[4] == y[4] && x[5] == y[5];
    assert |p.operations| == |CanonicalOperations(p.operations)| == |q.operations|;
    forall i | 0 <= i < |p.operations| ensures p.operations[i] == q.operations[i] {
      assert CanonicalOperations(p.operations)[i] == CanonicalOperation(p.operations[i]);
      assert CanonicalOperations(q.operations)[i] == CanonicalOperation(q.operations[i]);
      OperationInjective(p.operations[i], q.operations[i]);
    }
    assert p.operations == q.operations;
  }

  /** Two documents have one canonical form if and only if they are alike. */
  lemma SameCanonicalExactly(a: Json, b: Json, parse: Parser)
    requires Dicts(a) && Dicts(b) && Normalise(a, parse).Ok? && Normalise(b, parse).Ok?
    ensures Canonical(Normalise(a, parse).value) == Canonical(Normalise(b, parse).value) <==> AlikeDocuments(a, b, parse)
  {
    hide Normalise, NormalPayload, Canonical, AlikeDocuments;
    PayloadIsNormal(a, parse);
    PayloadIsNormal(b, parse);
    SameDocumentExactly(a, b, parse);
    if Canonical(Normalise(a, parse).value) == Canonical(Normalise(b, parse).value) {
      CanonicalIsInjective(Normalise(a, parse).value, Normalise(b, parse).value);
    }
  }
}
