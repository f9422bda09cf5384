/** Why a payload document is refused: the first thing wrong with it, in the order it is read. */
module Refusals {
  import opened Options
  import opened Authenticity
  import opened Sorting
  import opened Payloads
  import opened Documents

  ghost predicate Shows(text: string) {
    exists i :: 0 <= i < |text| && text[i] !in " \t\n\r"
  }

  ghost predicate Known(fields: seq<Member>, keys: seq<string>) {
    forall i | 0 <= i < |fields| :: fields[i].key in keys
  }

  lemma BlankTells(text: string)
    ensures Blank(text) <==> !Shows(text)
  {}

  /** The value of the first member of that name, or the default if there is none. */
  lemma GetTells(fields: seq<Member>, key: string, default: Json)
    ensures (forall i | 0 <= i < |fields| :: fields[i].key != key) ==> Get(fields, key, default) == default
    ensures forall i | 0 <= i < |fields| && fields[i].key == key && (forall j | 0 <= j < i :: fields[j].key != key) ::
              Get(fields, key, default) == fields[i].val
  {}

  // -- typed values ---------------------------------------------------------

  const UNSIGNED := ["u32", "u64", "u128"]
  const INTEGERS := ["i128", "i64"] + UNSIGNED

  /** An integer, or a string that spells one; not negative for an unsigned type. */
  ghost predicate Spells(name: string, inner: Json, parse: Parser, n: int) {
    (inner == Int(n) || (inner.Str? && parse(inner.s) == Some(n))) && (name in UNSIGNED ==> n >= 0)
  }

  /** The value fits a type without parts, and is then `value`. */
  ghost predicate Fits(name: string, inner: Json, parse: Parser, value: Value) {
    || (name in INTEGERS && value.Number? && Spells(name, inner, parse, value.i))
    || (name == "bool" && value.Flag? && inner == Bool(value.b))
    || (name in ["address", "symbol"] && value.Chars? && inner == Str(value.s) && Shows(value.s))
    || (name in ["string", "bytes"] && value.Chars? && inner == Str(value.s))
    || (name == "void" && value.Nothing? && inner.Null?)
  }

  const KINDS := INTEGERS + ["bool", "address", "symbol", "string", "bytes", "void", "vec", "map"]

  /** `code` is what is wrong with a typed value: of its shape, of its type, or of its value; of a list or an object
      the first wrong part decides. */
  ghost predicate Wrong(v: Json, parse: Parser, code: PayloadCode)
    decreases v, 0
  {
    if !v.Obj? then code == UntypedArgument
    else if !Known(v.fields, ["type", "value"]) then code == UnknownField
    else if !Get(v.fields, "type", Null).Str? then code == UntypedArgument
    else if forall i | 0 <= i < |v.fields| :: v.fields[i].key != "value" then code == ArgumentValue
    else
      var name, n := Get(v.fields, "type", Null).s, Find(v.fields, "value");
      n < |v.fields| && WrongValue(name, v.fields[n].val, parse, code)
  }

  /** Nothing is wrong with the value. */
  ghost predicate Fine(v: Json, parse: Parser)
    decreases v, 1
  {
    forall code :: !Wrong(v, parse, code)
  }

  ghost predicate WrongValue(name: string, inner: Json, parse: Parser, code: PayloadCode)
    decreases inner, 0
  {
    if name !in KINDS then code == UnknownArgumentType
    else if name == "vec" && inner.Arr? then
      exists i :: 0 <= i < |inner.items| && Wrong(inner.items[i], parse, code) && forall j | 0 <= j < i :: Fine(inner.items[j], parse)
    else if name == "map" && inner.Obj? then
      exists i :: 0 <= i < |inner.fields| && Wrong(inner.fields[i].val, parse, code)
                  && forall j | 0 <= j < i :: Fine(inner.fields[j].val, parse)
    else if name in ["vec", "map"] then code == ArgumentValue
    else code == ArgumentValue && forall value :: !Fits(name, inner, parse, value)
  }

  lemma {:induction false} FirstItem(items: seq<Json>, parse: Parser, code: PayloadCode)
    ensures NormaliseItems(items, parse) == Fail(code) <==>
            exists i :: 0 <= i < |items| && NormaliseTyped(items[i], parse) == Fail(code) && forall j | 0 <= j < i :: NormaliseTyped(items[j], parse).Ok?
  {
    hide NormaliseTyped;
    if items != [] {
      var n := |items| - 1;
      FirstItem(items[..n], parse, code);
      ItemsExactly(items[..n], parse);
      assert forall j | 0 <= j < n :: items[..n][j] == items[j];
      if NormaliseItems(items[..n], parse) == Fail(code) {
        var i :| 0 <= i < n && NormaliseTyped(items[..n][i], parse) == Fail(code) && forall j | 0 <= j < i :: NormaliseTyped(items[..n][j], parse).Ok?;
        assert NormaliseTyped(items[i], parse) == Fail(code);
      }
      if i :| 0 <= i < |items| && NormaliseTyped(items[i], parse) == Fail(code) && forall j | 0 <= j < i :: NormaliseTyped(items[j], parse).Ok? {
        if i < n {
          assert NormaliseTyped(items[..n][i], parse) == Fail(code);
        }
      }
    }
  }

  lemma {:induction false} FirstEntry(fields: seq<Member>, parse: Parser, code: PayloadCode)
    ensures NormaliseEntries(fields, parse) == Fail(code) <==>
            exists i :: 0 <= i < |fields| && NormaliseTyped(fields[i].val, parse) == Fail(code) && forall j | 0 <= j < i :: NormaliseTyped(fields[j].val, parse).Ok?
  {
    hide NormaliseTyped;
    if fields != [] {
      var n := |fields| - 1;
      FirstEntry(fields[..n], parse, code);
      EntriesExactly(fields[..n], parse);
      assert forall j | 0 <= j < n :: fields[..n][j] == fields[j];
      if NormaliseEntries(fields[..n], parse) == Fail(code) {
        var i :| 0 <= i < n && NormaliseTyped(fields[..n][i].val, parse) == Fail(code) && forall j | 0 <= j < i :: NormaliseTyped(fields[..n][j].val, parse).Ok?;
        assert NormaliseTyped(fields[i].val, parse) == Fail(code);
      }
      if i :| 0 <= i < |fields| && NormaliseTyped(fields[i].val, parse) == Fail(code) && forall j | 0 <= j < i :: NormaliseTyped(fields[j].val, parse).Ok? {
        if i < n {
          assert NormaliseTyped(fields[..n][i].val, parse) == Fail(code);
        }
      }
    }
  }

  /** The type names, and which kind each is. */
  lemma KindTells(name: string)
    ensures KindOf(name).Some? <==> name in KINDS
    ensures KindOf(name).Some? ==> NameOf(KindOf(name).value) == name
    ensures KindOf(name) == Some(Vec) <==> name == "vec"
    ensures KindOf(name) == Some(Map) <==> name == "map"
    ensures KindOf(name).Some? ==>
              var k := KindOf(name).value;
              && (k in {I128, I64, U32, U64, U128} <==> name in INTEGERS) && (k in {U32, U64, U128} <==> name in UNSIGNED)
              && (k == Boolean <==> name == "bool") && (k in {Address, Symbol} <==> name in ["address", "symbol"])
              && (k in {Text, Bytes} <==> name in ["string", "bytes"]) && (k == Void <==> name == "void")
  {
    forall k: Kind ensures KindOf(name) == Some(k) <==> name == NameOf(k) {
      KindsAndNames(name, k);
    }
    assert forall k: Kind :: NameOf(k) in KINDS by {
      forall k: Kind ensures NameOf(k) in KINDS {
        NamesListed(k);
      }
    }
    NamesAreKinds(name);
  }

  lemma NamesListed(k: Kind)
    ensures NameOf(k) in KINDS
  {
    assert KINDS[0] == "i128" && KINDS[1] == "i64" && KINDS[2] == "u32" && KINDS[3] == "u64" && KINDS[4] == "u128";
    assert KINDS[5] == "bool" && KINDS[6] == "address" && KINDS[7] == "symbol" && KINDS[8] == "string" && KINDS[9] == "bytes";
    assert KINDS[10] == "void" && KINDS[11] == "vec" && KINDS[12] == "map";
  }

  lemma NamesAreKinds(name: string)
    ensures name in KINDS ==> KindOf(name).Some?
  {}

  /** A scalar is read as the value that fits, and refused if none does. */
  lemma ScalarTells(name: string, inner: Json, parse: Parser)
    requires KindOf(name).Some? && KindOf(name).value !in {Vec, Map}
    ensures var r := Scalar(KindOf(name).value, inner, parse);
            && (r.Some? ==> Fits(name, inner, parse, r.value))
            && (forall value :: Fits(name, inner, parse, value) ==> r == Some(value))
  {
    KindTells(name);
    hide KindOf, NameOf, Blank, Shows;
    if inner.Str? {
      BlankTells(inner.s);
    }
    NamesApart(name);
  }

  lemma NamesApart(name: string)
    ensures !(name in INTEGERS && name in ["bool", "address", "symbol", "string", "bytes", "void"])
    ensures !(name == "bool" && name in ["address", "symbol", "string", "bytes", "void"])
    ensures !(name in ["address", "symbol"] && name in ["string", "bytes", "void"])
    ensures !(name in ["string", "bytes"] && name == "void")
  {
    KindTells(name);
  }

  /** A typed value is refused with a code if and only if that is what is wrong with it. */
  lemma {:induction false} TypedTells(v: Json, parse: Parser)
    ensures Agrees(v, parse)
    decreases v
  {
    if v.Obj? && Known(v.fields, ["type", "value"]) && Get(v.fields, "type", Null).Str? && Find(v.fields, "value") < |v.fields| {
      var name, n := Get(v.fields, "type", Null).s, Find(v.fields, "value");
      ValueTells(name, v.fields[n].val, parse);
      hide NormaliseValue, WrongValue, Get, Find;
      forall code ensures NormaliseTyped(v, parse) == Fail(code) <==> Wrong(v, parse, code) {
        assert !(forall i | 0 <= i < |v.fields| :: v.fields[i].key != "value");
        WrongIs(v, parse, code);
      }
    } else {
      hide NormaliseValue, WrongValue, KindOf;
      if v.Obj? { NoValue(v); }
    }
  }

  lemma NoValue(v: Json)
    requires v.Obj?
    ensures Find(v.fields, "value") == |v.fields| <==> forall i | 0 <= i < |v.fields| :: v.fields[i].key != "value"
  {}

  lemma WrongIs(v: Json, parse: Parser, code: PayloadCode)
    requires v.Obj? && Known(v.fields, ["type", "value"]) && Get(v.fields, "type", Null).Str? && Find(v.fields, "value") < |v.fields|
    ensures Wrong(v, parse, code) <==> WrongValue(Get(v.fields, "type", Null).s, v.fields[Find(v.fields, "value")].val, parse, code)
  {
    hide WrongValue;
  }

  lemma {:induction false} ValueTells(name: string, inner: Json, parse: Parser)
    ensures forall code :: WrongValue(name, inner, parse, code) <==>
              match KindOf(name)
              case None => code == UnknownArgumentType
              case Some(kind) => NormaliseValue(kind, inner, parse) == Fail(code)
    decreases inner
  {
    KindTells(name);
    hide KindOf, NameOf;
    if name == "vec" && inner.Arr? {
      forall i | 0 <= i < |inner.items| { TypedTells(inner.items[i], parse); }
      forall code { ItemsWrong(inner.items, parse, code); }
    } else if name == "map" && inner.Obj? {
      forall i | 0 <= i < |inner.fields| { TypedTells(inner.fields[i].val, parse); }
      forall code { EntriesWrong(inner.fields, parse, code); }
    } else if KindOf(name).Some? && name !in ["vec", "map"] {
      ScalarTells(name, inner, parse);
    }
    hide KindOf, Scalar, NormaliseItems, NormaliseEntries, Wrong, Fine, Fits;
  }

  /** The normaliser refuses the value with exactly the codes that are wrong with it. */
  ghost predicate Agrees(v: Json, parse: Parser) {
    forall code :: NormaliseTyped(v, parse) == Fail(code) <==> Wrong(v, parse, code)
  }

  lemma Agreeing(v: Json, parse: Parser, code: PayloadCode)
    requires Agrees(v, parse)
    ensures NormaliseTyped(v, parse) == Fail(code) <==> Wrong(v, parse, code)
    ensures NormaliseTyped(v, parse).Ok? <==> Fine(v, parse)
  {
    hide NormaliseTyped, Wrong;
    var r := NormaliseTyped(v, parse);
    if r.Fail? {
      assert Wrong(v, parse, r.code);
    }
  }

  lemma ItemsWrong(items: seq<Json>, parse: Parser, code: PayloadCode)
    requires forall i | 0 <= i < |items| :: Agrees(items[i], parse)
    ensures NormaliseItems(items, parse) == Fail(code) <==>
            exists i :: 0 <= i < |items| && Wrong(items[i], parse, code) && forall j | 0 <= j < i :: Fine(items[j], parse)
  {
    hide NormaliseTyped, Wrong, Fine, NormaliseItems, Agrees;
    FirstItem(items, parse, code);
    forall i | 0 <= i < |items|
      ensures NormaliseTyped(items[i], parse) == Fail(code) <==> Wrong(items[i], parse, code)
      ensures NormaliseTyped(items[i], parse).Ok? <==> Fine(items[i], parse)
    {
      Agreeing(items[i], parse, code);
    }
    if i :| 0 <= i < |items| && NormaliseTyped(items[i], parse) == Fail(code) && forall j | 0 <= j < i :: NormaliseTyped(items[j], parse).Ok? {
      assert Wrong(items[i], parse, code);
    }
    if i :| 0 <= i < |items| && Wrong(items[i], parse, code) && forall j | 0 <= j < i :: Fine(items[j], parse) {
      assert NormaliseTyped(items[i], parse) == Fail(code);
    }
  }

  lemma EntriesWrong(fields: seq<Member>, parse: Parser, code: PayloadCode)
    requires forall i | 0 <= i < |fields| :: Agrees(fields[i].val, parse)
    ensures NormaliseEntries(fields, parse) == Fail(code) <==>
            exists i :: 0 <= i < |fields| && Wrong(fields[i].val, parse, code) && forall j | 0 <= j < i :: Fine(fields[j].val, parse)
  {
    hide NormaliseTyped, Wrong, Fine, NormaliseEntries, Agrees;
    FirstEntry(fields, parse, code);
    forall i | 0 <= i < |fields|
      ensures NormaliseTyped(fields[i].val, parse) == Fail(code) <==> Wrong(fields[i].val, parse, code)
      ensures NormaliseTyped(fields[i].val, parse).Ok? <==> Fine(fields[i].val, parse)
    {
      Agreeing(fields[i].val, parse, code);
    }
    if i :| 0 <= i < |fields| && NormaliseTyped(fields[i].val, parse) == Fail(code) && forall j | 0 <= j < i :: NormaliseTyped(fields[j].val, parse).Ok? {
      assert Wrong(fields[i].val, parse, code);
    }
    if i :| 0 <= i < |fields| && Wrong(fields[i].val, parse, code) && forall j | 0 <= j < i :: Fine(fields[j].val, parse) {
      assert NormaliseTyped(fields[i].val, parse) == Fail(code);
    }
  }

  // -- operations -----------------------------------------------------------

  ghost predicate Legible(j: Json) { j.Str? && Shows(j.s) }

  lemma TextTells(j: Json)
    ensures RequireStr(j) == if Legible(j) then Ok(j.s) else Fail(Malformed)
  {
    if j.Str? {
      BlankTells(j.s);
    }
  }

  /** What an operation is asked, in order. */
  ghost predicate OperationPasses(raw: Json, k: nat) {
    match k
    case 0 => raw.Obj?
    case 1 => raw.Obj? && Known(raw.fields, OPERATION_FIELDS)
    case 2 => raw.Obj? && Legible(Get(raw.fields, "contract_id", Null))
    case 3 => raw.Obj? && Legible(Get(raw.fields, "function", Null))
    case 4 => raw.Obj? && Get(raw.fields, "function", Null).Str? && Get(raw.fields, "function", Null).s in PRIVILEGED
    case 5 => raw.Obj? && Get(raw.fields, "args", Obj([])).Obj?
    case _ => raw.Obj? && Get(raw.fields, "args", Obj([])).Obj? && |Get(raw.fields, "args", Obj([])).fields| <= MAX_ARGUMENTS
  }

  function OperationCode(k: nat): PayloadCode { if k == 1 then UnknownField else if k == 4 then UnknownFunction else Malformed }

  /** `op` is read off `raw`, its arguments sorted by name. */
  ghost predicate Reads(raw: Json, parse: Parser, op: Operation)
    requires raw.Obj?
  {
    var args := Get(raw.fields, "args", Obj([]));
    && Get(raw.fields, "contract_id", Null) == Str(op.contractId) && Get(raw.fields, "function", Null) == Str(op.function_)
    && args.Obj? && Ascending(op.args, EntryLe)
    && exists entries: seq<Entry> ::
         && |entries| == |args.fields| && multiset(op.args) == multiset(entries)
         && forall i | 0 <= i < |entries| :: entries[i].name == args.fields[i].key && NormaliseTyped(args.fields[i].val, parse) == Ok(entries[i].typed)
  }

  ghost predicate FirstWrongArgument(raw: Json, parse: Parser, code: PayloadCode)
    requires raw.Obj? && Get(raw.fields, "args", Obj([])).Obj?
  {
    var args := Get(raw.fields, "args", Obj([])).fields;
    exists i :: 0 <= i < |args| && Wrong(args[i].val, parse, code) && forall j | 0 <= j < i :: Fine(args[j].val, parse)
  }

  ghost predicate OperationVerdict(raw: Json, parse: Parser, k: nat) {
    && k <= 7 && (forall j: nat | j < k :: OperationPasses(raw, j))
    && (k < 7 ==> !OperationPasses(raw, k) && NormaliseOperation(raw, parse) == Fail(OperationCode(k)))
    && (k == 7 ==>
          && raw.Obj? && Get(raw.fields, "args", Obj([])).Obj?
          && (forall code :: NormaliseOperation(raw, parse) == Fail(code) <==> FirstWrongArgument(raw, parse, code))
          && (NormaliseOperation(raw, parse).Ok? ==> Reads(raw, parse, NormaliseOperation(raw, parse).value)))
  }

  /** An operation is refused for the first thing asked that it does not pass, then for its first wrong argument;
      otherwise it is read. */
  lemma OperationTells(raw: Json, parse: Parser) returns (k: nat)
    ensures OperationVerdict(raw, parse, k)
  {
    k := if !OperationPasses(raw, 0) then 0 else if !OperationPasses(raw, 1) then 1 else if !OperationPasses(raw, 2) then 2
      else if !OperationPasses(raw, 3) then 3 else if !OperationPasses(raw, 4) then 4 else if !OperationPasses(raw, 5) then 5
      else if !OperationPasses(raw, 6) then 6 else 7;
    if k < 7 {
      OperationRefused(raw, parse, k);
    } else {
      ArgumentsTell(raw, parse);
    }
  }

  lemma OperationRefused(raw: Json, parse: Parser, k: nat)
    requires k < 7 && (forall j: nat | j < k :: OperationPasses(raw, j)) && !OperationPasses(raw, k)
    ensures NormaliseOperation(raw, parse) == Fail(OperationCode(k))
  {
    if raw.Obj? {
      TextTells(Get(raw.fields, "contract_id", Null));
      TextTells(Get(raw.fields, "function", Null));
    }
    hide RequireStr, Legible, NormaliseEntries, Get;
    assert k > 0 ==> OperationPasses(raw, 0);
    assert k > 1 ==> OperationPasses(raw, 1);
    assert k > 2 ==> OperationPasses(raw, 2);
    assert k > 3 ==> OperationPasses(raw, 3);
    assert k > 4 ==> OperationPasses(raw, 4);
    assert k > 5 ==> OperationPasses(raw, 5);
  }

  lemma ArgumentsTell(raw: Json, parse: Parser)
    requires forall j: nat | j < 7 :: OperationPasses(raw, j)
    ensures raw.Obj? && Get(raw.fields, "args", Obj([])).Obj?
    ensures forall code :: NormaliseOperation(raw, parse) == Fail(code) <==> FirstWrongArgument(raw, parse, code)
    ensures NormaliseOperation(raw, parse).Ok? ==> Reads(raw, parse, NormaliseOperation(raw, parse).value)
  {
    ArgumentsDecide(raw, parse);
    var args := Get(raw.fields, "args", Obj([]));
    hide NormaliseOperation, NormaliseEntries, Get, OperationPasses;
    forall i | 0 <= i < |args.fields| ensures Agrees(args.fields[i].val, parse) { TypedTells(args.fields[i].val, parse); }
    forall code ensures NormaliseEntries(args.fields, parse) == Fail(code) <==> FirstWrongArgument(raw, parse, code) {
      EntriesWrong(args.fields, parse, code);
    }
    if NormaliseOperation(raw, parse).Ok? {
      ArgumentsRead(raw, parse);
    }
  }

  /** Once the rest is in order, the arguments decide. */
  lemma ArgumentsDecide(raw: Json, parse: Parser)
    requires forall j: nat | j < 7 :: OperationPasses(raw, j)
    ensures raw.Obj? && Get(raw.fields, "args", Obj([])).Obj?
    ensures Get(raw.fields, "contract_id", Null).Str? && Get(raw.fields, "function", Null).Str?
    ensures var r := NormaliseEntries(Get(raw.fields, "args", Obj([])).fields, parse);
            NormaliseOperation(raw, parse) == if r.Fail? then Fail(r.code)
              else Ok(Operation(Get(raw.fields, "contract_id", Null).s, Get(raw.fields, "function", Null).s, Sort(r.value, EntryLe)))
  {
    assert OperationPasses(raw, 0) && OperationPasses(raw, 1) && OperationPasses(raw, 2) && OperationPasses(raw, 3);
    assert OperationPasses(raw, 4) && OperationPasses(raw, 5) && OperationPasses(raw, 6);
    TextTells(Get(raw.fields, "contract_id", Null));
    TextTells(Get(raw.fields, "function", Null));
    hide RequireStr, Legible, NormaliseEntries, Get, Sort;
  }

  lemma ArgumentsRead(raw: Json, parse: Parser)
    requires raw.Obj? && Get(raw.fields, "args", Obj([])).Obj? && Get(raw.fields, "contract_id", Null).Str? && Get(raw.fields, "function", Null).Str?
    requires var r := NormaliseEntries(Get(raw.fields, "args", Obj([])).fields, parse);
             r.Ok? && NormaliseOperation(raw, parse) ==
               Ok(Operation(Get(raw.fields, "contract_id", Null).s, Get(raw.fields, "function", Null).s, Sort(r.value, EntryLe)))
    ensures Reads(raw, parse, NormaliseOperation(raw, parse).value)
  {
    var args := Get(raw.fields, "args", Obj([]));
    hide NormaliseOperation, NormaliseEntries, Get, Find, Sort, NormaliseTyped;
    EntriesExactly(args.fields, parse);
    EntryLeIsTotalPreorder();
    SortIsAscending(NormaliseEntries(args.fields, parse).value, EntryLe);
  }

  // -- documents ------------------------------------------------------------

  /** What a document is asked before its operations are read, in order. */
  ghost predicate DocumentPasses(doc: Json, k: nat) {
    doc.Obj? && var f := doc.fields;
    match k
    case 0 => true
    case 1 => Get(f, "schema", Str(SCHEMA)) == Str(SCHEMA)
    case 2 => Known(f, DOCUMENT_FIELDS)
    case 3 => Legible(Get(f, "network", Null))
    case 4 => Legible(Get(f, "source_account", Null))
    case 5 => Get(f, "fee", Int(0)).Int?
    case 6 => Get(f, "fee", Int(0)).Int? && Get(f, "fee", Int(0)).i >= 0
    case 7 => Get(f, "sequence", Null).Int?
    case 8 => Get(f, "sequence", Null).Int? && Get(f, "sequence", Null).i >= 1
    case 9 => Get(f, "max_time", Int(0)).Int?
    case 10 => Get(f, "max_time", Int(0)).Int? && Get(f, "max_time", Int(0)).i >= 0
    case _ => Listed(f)
  }

  /** A list of operations, neither empty nor too long. */
  ghost predicate Listed(f: seq<Member>) {
    Get(f, "operations", Null).Arr? && 0 < |Get(f, "operations", Null).items| <= MAX_OPERATIONS
  }

  function DocumentCode(k: nat): PayloadCode { if k == 2 then UnknownField else if k in {6, 8, 10} then ArgumentValue else Malformed }

  /** The first operation that is refused, and why. */
  ghost predicate FirstWrongOperation(doc: Json, parse: Parser, code: PayloadCode)
    requires doc.Obj? && Get(doc.fields, "operations", Null).Arr?
  {
    var raws := Get(doc.fields, "operations", Null).items;
    exists i :: 0 <= i < |raws| && NormaliseOperation(raws[i], parse) == Fail(code) && forall j | 0 <= j < i :: NormaliseOperation(raws[j], parse).Ok?
  }

  ghost predicate ReadsDocument(doc: Json, parse: Parser, p: Payload)
    requires doc.Obj? && Get(doc.fields, "operations", Null).Arr?
  {
    var f, raws := doc.fields, Get(doc.fields, "operations", Null).items;
    && Get(f, "network", Null) == Str(p.network) && Get(f, "source_account", Null) == Str(p.sourceAccount)
    && Get(f, "fee", Int(0)) == Int(p.fee) && Get(f, "sequence", Null) == Int(p.sequence) && Get(f, "max_time", Int(0)) == Int(p.maxTime)
    && |p.operations| == |raws| && forall i | 0 <= i < |raws| :: NormaliseOperation(raws[i], parse) == Ok(p.operations[i])
  }

  lemma {:induction false} FirstOperation(raws: seq<Json>, parse: Parser, code: PayloadCode)
    ensures NormaliseOperations(raws, parse) == Fail(code) <==>
            exists i :: 0 <= i < |raws| && NormaliseOperation(raws[i], parse) == Fail(code) && forall j | 0 <= j < i :: NormaliseOperation(raws[j], parse).Ok?
    ensures NormaliseOperations(raws, parse).Ok? ==>
              forall i | 0 <= i < |raws| :: NormaliseOperation(raws[i], parse) == Ok(NormaliseOperations(raws, parse).value[i])
  {
    hide NormaliseOperation;
    if raws != [] {
      var n := |raws| - 1;
      FirstOperation(raws[..n], parse, code);
      assert forall j | 0 <= j < n :: raws[..n][j] == raws[j];
      if NormaliseOperations(raws[..n], parse) == Fail(code) {
        var i :| 0 <= i < n && NormaliseOperation(raws[..n][i], parse) == Fail(code) && forall j | 0 <= j < i :: NormaliseOperation(raws[..n][j], parse).Ok?;
        assert NormaliseOperation(raws[i], parse) == Fail(code);
      }
      if i :| 0 <= i < |raws| && NormaliseOperation(raws[i], parse) == Fail(code) && forall j | 0 <= j < i :: NormaliseOperation(raws[j], parse).Ok? {
        if i < n {
          assert NormaliseOperation(raws[..n][i], parse) == Fail(code);
        }
      }
      if NormaliseOperations(raws[..n], parse).Fail? {
        FirstOperation(raws[..n], parse, NormaliseOperations(raws[..n], parse).code);
        var i :| 0 <= i < n && NormaliseOperation(raws[..n][i], parse).Fail?;
        assert NormaliseOperation(raws[i], parse).Fail?;
      }
    }
  }

  ghost predicate DocumentVerdict(doc: Json, parse: Parser, k: nat) {
    && k <= 12 && (forall j: nat | j < k :: DocumentPasses(doc, j))
    && (k < 12 ==> !DocumentPasses(doc, k) && Normalise(doc, parse) == Fail(DocumentCode(k)))
    && (k == 12 ==>
          && doc.Obj? && Get(doc.fields, "operations", Null).Arr?
          && (forall code :: Normalise(doc, parse) == Fail(code) <==> FirstWrongOperation(doc, parse, code))
          && (Normalise(doc, parse).Ok? ==> ReadsDocument(doc, parse, Normalise(doc, parse).value)))
  }

  /** A document is refused for the first thing asked that it does not pass, then for its first wrong operation;
      otherwise it is read. */
  lemma DocumentTells(doc: Json, parse: Parser) returns (k: nat)
    ensures DocumentVerdict(doc, parse, k)
  {
    if !doc.Obj? {
      k := 0;
    } else {
      hide DocumentVerdict, NormaliseHeader, HeaderReads;
      k := HeaderTells(doc);
      if k < 11 {
        HeaderRefuses(doc, parse, k);
      } else {
        k := OperationsTell(doc, parse);
      }
    }
  }

  lemma HeaderRefuses(doc: Json, parse: Parser, k: nat)
    requires doc.Obj? && k < 11 && (forall j: nat | j < k :: DocumentPasses(doc, j)) && !DocumentPasses(doc, k)
    requires NormaliseHeader(doc.fields) == Fail(DocumentCode(k))
    ensures DocumentVerdict(doc, parse, k)
  {
    HeaderFails(doc, parse);
    RefusedVerdict(doc, parse, k);
  }

  lemma HeaderFails(doc: Json, parse: Parser)
    requires doc.Obj? && NormaliseHeader(doc.fields).Fail?
    ensures Normalise(doc, parse) == Fail(NormaliseHeader(doc.fields).code)
  {
    hide NormaliseHeader;
  }

  lemma HeaderTells(doc: Json) returns (k: nat)
    requires doc.Obj?
    ensures 1 <= k <= 11 && (forall j: nat | j < k :: DocumentPasses(doc, j))
    ensures k < 11 ==> !DocumentPasses(doc, k) && NormaliseHeader(doc.fields) == Fail(DocumentCode(k))
    ensures k == 11 ==> NormaliseHeader(doc.fields).Ok? && HeaderReads(doc.fields, NormaliseHeader(doc.fields).value)
  {
    k := FirstUnpassed(doc, 1);
    assert DocumentPasses(doc, 0);
    HeaderIs(doc, k);
  }

  lemma FirstUnpassed(doc: Json, from: nat) returns (k: nat)
    requires from <= 11
    ensures from <= k <= 11 && (forall j: nat | from <= j < k :: DocumentPasses(doc, j)) && (k < 11 ==> !DocumentPasses(doc, k))
    decreases 11 - from
  {
    hide DocumentPasses;
    k := from;
    if from < 11 && DocumentPasses(doc, from) {
      k := FirstUnpassed(doc, from + 1);
    }
  }

  lemma HeaderIs(doc: Json, k: nat)
    requires doc.Obj? && 1 <= k <= 11 && (forall j: nat | 1 <= j < k :: DocumentPasses(doc, j)) && (k < 11 ==> !DocumentPasses(doc, k))
    ensures k < 11 ==> NormaliseHeader(doc.fields) == Fail(DocumentCode(k))
    ensures k == 11 ==> NormaliseHeader(doc.fields).Ok? && HeaderReads(doc.fields, NormaliseHeader(doc.fields).value)
  {
    TextTells(Get(doc.fields, "network", Null));
    TextTells(Get(doc.fields, "source_account", Null));
    hide RequireStr, Legible, Get;
    assert k > 1 ==> DocumentPasses(doc, 1);
    assert k > 2 ==> DocumentPasses(doc, 2);
    assert k > 3 ==> DocumentPasses(doc, 3);
    assert k > 4 ==> DocumentPasses(doc, 4);
    assert k > 5 ==> DocumentPasses(doc, 5);
    assert k > 6 ==> DocumentPasses(doc, 6);
    assert k > 7 ==> DocumentPasses(doc, 7);
    assert k > 8 ==> DocumentPasses(doc, 8);
    assert k > 9 ==> DocumentPasses(doc, 9);
    assert k > 10 ==> DocumentPasses(doc, 10);
  }

  ghost predicate HeaderReads(f: seq<Member>, h: Header) {
    && Get(f, "network", Null) == Str(h.network) && Get(f, "source_account", Null) == Str(h.sourceAccount)
    && Get(f, "fee", Int(0)) == Int(h.fee) && Get(f, "sequence", Null) == Int(h.sequence) && Get(f, "max_time", Int(0)) == Int(h.maxTime)
  }

  lemma OperationsTell(doc: Json, parse: Parser) returns (k: nat)
    requires doc.Obj? && NormaliseHeader(doc.fields).Ok? && HeaderReads(doc.fields, NormaliseHeader(doc.fields).value)
    requires forall j: nat | j < 11 :: DocumentPasses(doc, j)
    ensures DocumentVerdict(doc, parse, k)
  {
    hide DocumentVerdict, NormaliseHeader, HeaderReads, DocumentPasses, Listed;
    ListedIsLast(doc);
    OperationsDecide(doc, parse);
    if Listed(doc.fields) {
      k := 12;
      OperationsRead(doc, parse);
      ReadVerdict(doc, parse);
    } else {
      k := 11;
      RefusedVerdict(doc, parse, 11);
    }
  }

  lemma ListedIsLast(doc: Json)
    requires doc.Obj?
    ensures DocumentPasses(doc, 11) <==> Listed(doc.fields)
  {
    hide Listed;
  }

  lemma RefusedVerdict(doc: Json, parse: Parser, k: nat)
    requires k < 12 && (forall j: nat | j < k :: DocumentPasses(doc, j)) && !DocumentPasses(doc, k)
    requires Normalise(doc, parse) == Fail(DocumentCode(k))
    ensures DocumentVerdict(doc, parse, k)
  {
    hide Normalise, DocumentPasses;
  }

  lemma ReadVerdict(doc: Json, parse: Parser)
    requires forall j: nat | j < 12 :: DocumentPasses(doc, j)
    requires doc.Obj? && Get(doc.fields, "operations", Null).Arr?
    requires forall code :: Normalise(doc, parse) == Fail(code) <==> FirstWrongOperation(doc, parse, code)
    requires Normalise(doc, parse).Ok? ==> ReadsDocument(doc, parse, Normalise(doc, parse).value)
    ensures DocumentVerdict(doc, parse, 12)
  {
    hide Normalise, DocumentPasses, FirstWrongOperation, ReadsDocument, Get;
  }

  lemma OperationsRead(doc: Json, parse: Parser)
    requires doc.Obj? && NormaliseHeader(doc.fields).Ok? && HeaderReads(doc.fields, NormaliseHeader(doc.fields).value)
    requires Listed(doc.fields)
    ensures Get(doc.fields, "operations", Null).Arr?
    ensures forall code :: Normalise(doc, parse) == Fail(code) <==> FirstWrongOperation(doc, parse, code)
    ensures Normalise(doc, parse).Ok? ==> ReadsDocument(doc, parse, Normalise(doc, parse).value)
  {
    OperationsDecide(doc, parse);
    var raws := Get(doc.fields, "operations", Null).items;
    hide Normalise, NormaliseHeader, NormaliseOperations, NormaliseOperation, Get, Find;
    forall code ensures NormaliseOperations(raws, parse) == Fail(code) <==> FirstWrongOperation(doc, parse, code) {
      FirstOperation(raws, parse, code);
    }
    FirstOperation(raws, parse, Malformed);
  }

  /** Once the header is read, the operations decide. */
  lemma OperationsDecide(doc: Json, parse: Parser)
    requires doc.Obj? && NormaliseHeader(doc.fields).Ok?
    ensures !Listed(doc.fields) ==> Normalise(doc, parse) == Fail(Malformed)
    ensures Listed(doc.fields) ==>
              var r := NormaliseOperations(Get(doc.fields, "operations", Null).items, parse);
              Normalise(doc, parse) == if r.Fail? then Fail(r.code) else Ok(Assemble(NormaliseHeader(doc.fields).value, r.value))
  {
    hide NormaliseHeader, NormaliseOperations, Get;
  }
}
