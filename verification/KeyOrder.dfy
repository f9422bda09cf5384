/** Key order does not matter, at any nesting level. */
module KeyOrders {
  import opened Authenticity
  import opened Sorting
  import opened Payloads
  import opened Documents

  /** The same document with the keys of its objects in any order, at every level. */
  ghost predicate Reordered(a: Json, b: Json)
    decreases a
  {
    match a
    case Arr(xs) => b.Arr? && |xs| == |b.items| && forall i | 0 <= i < |xs| :: Reordered(xs[i], b.items[i])
    case Obj(fields) => b.Obj? && ReorderedFields(fields, b.fields)
    case _ => a == b
  }

  ghost predicate ReorderedFields(a: seq<Member>, b: seq<Member>)
    decreases a
  {
    && |a| == |b|
    && forall i | 0 <= i < |a| :: Find(b, a[i].key) < |b| && Reordered(a[i].val, b[Find(b, a[i].key)].val)
  }

  lemma {:induction false} Reflexive(j: Json)
    requires Dicts(j)
    ensures Reordered(j, j)
    decreases j
  {
    match j
    case Arr(items) =>
      forall i | 0 <= i < |items| ensures Reordered(items[i], items[i]) {
        Reflexive(items[i]);
      }
    case Obj(fields) =>
      forall i | 0 <= i < |fields| ensures Find(fields, fields[i].key) == i && Reordered(fields[i].val, fields[i].val) {
        FindUnique(fields, i);
        Reflexive(fields[i].val);
      }
    case _ =>
  }

  lemma {:induction false} Symmetric(a: Json, b: Json)
    requires Dicts(a) && Dicts(b) && Reordered(a, b)
    ensures Reordered(b, a)
    decreases a
  {
    match a
    case Arr(items) =>
      forall i | 0 <= i < |items| ensures Reordered(b.items[i], items[i]) {
        Symmetric(items[i], b.items[i]);
      }
    case Obj(fields) =>
      forall j | 0 <= j < |fields| ensures Find(fields, b.fields[j].key) < |fields| && Reordered(b.fields[j].val, fields[Find(fields, b.fields[j].key)].val) {
        KeysMatch(fields, b.fields, j);
        FindUnique(b.fields, j);
        var i := Find(fields, b.fields[j].key);
        Symmetric(fields[i].val, b.fields[j].val);
      }
    case _ =>
  }

  lemma ReorderedGet(a: seq<Member>, b: seq<Member>, key: string, default: Json)
    requires UniqueKeys(a) && UniqueKeys(b) && ReorderedFields(a, b) && Dicts(default)
    ensures Reordered(Get(a, key, default), Get(b, key, default))
    ensures Find(a, key) < |a| <==> Find(b, key) < |b|
  {
    hide Reordered;
    Reflexive(default);
    var m := Find(b, key);
    if m < |b| {
      KeysMatch(a, b, m);
    }
  }

  lemma ReorderedKeys(a: seq<Member>, b: seq<Member>, known: seq<string>)
    requires UniqueKeys(a) && ReorderedFields(a, b) && OnlyKeys(a, known)
    ensures OnlyKeys(b, known)
  {
    hide Reordered;
    forall j | 0 <= j < |b| ensures b[j].key in known {
      KeysMatch(a, b, j);
    }
  }

  lemma {:induction false} ReorderedIsAlike(a: Json, b: Json, parse: Parser)
    requires Dicts(a) && Dicts(b) && Reordered(a, b) && NormaliseTyped(a, parse).Ok?
    ensures Alike(a, b, parse)
    decreases a
  {
    hide KindOf, Blank, Get, OnlyKeys, AlikeValue;
    ReorderedGet(a.fields, b.fields, "type", Null);
    ReorderedGet(a.fields, b.fields, "value", Null);
    ReorderedKeys(a.fields, b.fields, ["type", "value"]);
    var kind := KindOf(Get(a.fields, "type", Null).s).value;
    var va, vb := a.fields[Find(a.fields, "value")].val, b.fields[Find(b.fields, "value")].val;
    GetFound(a.fields, "value");
    GetFound(b.fields, "value");
    ReorderedValueIsAlike(kind, va, vb, parse);
  }

  lemma GetFound(fields: seq<Member>, key: string)
    requires Find(fields, key) < |fields|
    ensures Get(fields, key, Null) == fields[Find(fields, key)].val
  {}

  lemma {:induction false} ReorderedValueIsAlike(kind: Kind, a: Json, b: Json, parse: Parser)
    requires Dicts(a) && Dicts(b) && Reordered(a, b) && NormaliseValue(kind, a, parse).Ok?
    ensures AlikeValue(kind, a, b, parse)
    decreases a
  {
    hide Scalar, NormaliseTyped, Alike;
    if kind == Vec {
      ItemsExactly(a.items, parse);
      forall i | 0 <= i < |a.items| ensures Alike(a.items[i], b.items[i], parse) {
        ReorderedIsAlike(a.items[i], b.items[i], parse);
      }
    } else if kind == Map {
      ReorderedMembersAlike(a.fields, b.fields, parse);
    } else {
      assert a == b by {
        ScalarIsLeaf(kind, a, parse);
      }
    }
  }

  lemma ScalarIsLeaf(kind: Kind, inner: Json, parse: Parser)
    requires Scalar(kind, inner, parse).Some?
    ensures !inner.Arr? && !inner.Obj?
  {
    hide Blank;
  }

  lemma {:induction false} ReorderedMembersAlike(a: seq<Member>, b: seq<Member>, parse: Parser)
    requires ReorderedFields(a, b) && NormaliseEntries(a, parse).Ok?
    requires forall i | 0 <= i < |a| :: Dicts(a[i].val)
    requires forall i | 0 <= i < |b| :: Dicts(b[i].val)
    ensures AlikeMembers(a, b, parse)
    decreases a
  {
    hide NormaliseTyped, Alike, Reordered, Dicts;
    EntriesExactly(a, parse);
    forall i | 0 <= i < |a| ensures Alike(a[i].val, b[Find(b, a[i].key)].val, parse) {
      ReorderedIsAlike(a[i].val, b[Find(b, a[i].key)].val, parse);
    }
  }

  lemma ReorderedOperationIsAlike(a: Json, b: Json, parse: Parser)
    requires Dicts(a) && Dicts(b) && Reordered(a, b) && NormaliseOperation(a, parse).Ok?
    ensures AlikeOperations(a, b, parse)
  {
    hide Blank, Privileged, NormaliseEntries, AlikeMembers, Sort, Get, OnlyKeys, ReorderedFields;
    ReorderedKeys(a.fields, b.fields, OPERATION_FIELDS);
    ReorderedGet(a.fields, b.fields, "contract_id", Null);
    ReorderedGet(a.fields, b.fields, "function", Null);
    ReorderedGet(a.fields, b.fields, "args", Obj([]));
    GetKeepsDicts(a, "args", Obj([]));
    GetKeepsDicts(b, "args", Obj([]));
    ReorderedMembersAlike(ArgumentsOf(a).fields, ArgumentsOf(b).fields, parse);
  }

  lemma ReorderedHeaderIsAlike(a: seq<Member>, b: seq<Member>)
    requires UniqueKeys(a) && UniqueKeys(b) && ReorderedFields(a, b) && NormaliseHeader(a).Ok?
    ensures AlikeHeaders(a, b)
  {
    hide Blank, Get, OnlyKeys, ReorderedFields;
    ReorderedKeys(a, b, DOCUMENT_FIELDS);
    ReorderedGet(a, b, "schema", Str(SCHEMA));
    ReorderedGet(a, b, "network", Null);
    ReorderedGet(a, b, "source_account", Null);
    ReorderedGet(a, b, "fee", Int(0));
    ReorderedGet(a, b, "sequence", Null);
    ReorderedGet(a, b, "max_time", Int(0));
  }

  lemma ReorderedDocumentIsAlike(a: Json, b: Json, parse: Parser)
    requires Dicts(a) && Dicts(b) && Reordered(a, b) && Normalise(a, parse).Ok?
    ensures AlikeDocuments(a, b, parse)
  {
    hide NormaliseHeader, AlikeHeaders, NormaliseOperations, AlikeOperations, Get, ReorderedFields;
    ReorderedHeaderIsAlike(a.fields, b.fields);
    ReorderedGet(a.fields, b.fields, "operations", Null);
    GetKeepsDicts(a, "operations", Null);
    GetKeepsDicts(b, "operations", Null);
    var xs, ys := Get(a.fields, "operations", Null), Get(b.fields, "operations", Null);
    OperationsExactly(xs.items, parse);
    forall i | 0 <= i < |xs.items| ensures AlikeOperations(xs.items[i], ys.items[i], parse) {
      ReorderedOperationIsAlike(xs.items[i], ys.items[i], parse);
    }
  }

  /** Key order at any level neither changes the payload nor makes a document acceptable. */
  lemma KeyOrderIsIrrelevant(a: Json, b: Json, parse: Parser)
    requires Dicts(a) && Dicts(b) && Reordered(a, b)
    ensures Normalise(a, parse).Ok? <==> Normalise(b, parse).Ok?
    ensures Normalise(a, parse).Ok? ==> Normalise(a, parse) == Normalise(b, parse)
  {
    hide Normalise, AlikeDocuments;
    Symmetric(a, b);
    if Normalise(a, parse).Ok? {
      ReorderedDocumentIsAlike(a, b, parse);
      SameDocumentExactly(a, b, parse);
    } else if Normalise(b, parse).Ok? {
      ReorderedDocumentIsAlike(b, a, parse);
      SameDocumentExactly(b, a, parse);
    }
  }
}
