/** Canonical form of a privileged transaction payload. */
module Payloads {
  import opened Options
  import opened Authenticity
  import opened Sorting
  import opened Strings

  /** A decoded JSON document. Objects keep the order their keys arrived in. */
  datatype Json =
    | Null | Bool(b: bool) | Int(i: int) | Float(r: real) | Str(s: string)
    | Arr(items: seq<Json>) | Obj(fields: seq<Member>)

  datatype Member = Member(key: string, val: Json)

  /** Decoded objects are dictionaries: no key twice, at any level. */
  ghost predicate Dicts(j: Json) {
    match j
    case Arr(items) => forall i | 0 <= i < |items| :: Dicts(items[i])
    case Obj(fields) => UniqueKeys(fields) && forall i | 0 <= i < |fields| :: Dicts(fields[i].val)
    case _ => true
  }

  ghost predicate UniqueKeys(fields: seq<Member>) {
    forall i, j | 0 <= i < j < |fields| :: fields[i].key != fields[j].key
  }

  /** Position of a key, or the length when it is missing. */
  function Find(fields: seq<Member>, key: string): (n: nat)
    ensures n <= |fields|
    ensures n < |fields| ==> fields[n].key == key
    ensures forall i | 0 <= i < n :: fields[i].key != key
  {
    if fields == [] || fields[0].key == key then 0 else 1 + Find(fields[1..], key)
  }

  function Get(fields: seq<Member>, key: string, default: Json): Json {
    var n := Find(fields, key);
    if n < |fields| then fields[n].val else default
  }

  predicate OnlyKeys(fields: seq<Member>, known: seq<string>) {
    forall i | 0 <= i < |fields| :: fields[i].key in known
  }

  // -- typed values ---------------------------------------------------------

  datatype Kind = I128 | I64 | U32 | U64 | U128 | Boolean | Address | Symbol | Text | Bytes | Void | Vec | Map

  function NameOf(k: Kind): string {
    match k
    case I128 => "i128" case I64 => "i64" case U32 => "u32" case U64 => "u64" case U128 => "u128"
    case Boolean => "bool" case Address => "address" case Symbol => "symbol" case Text => "string" case Bytes => "bytes"
    case Void => "void" case Vec => "vec" case Map => "map"
  }

  function KindOf(name: string): Option<Kind> {
    if name == "i128" then Some(I128) else if name == "i64" then Some(I64) else if name == "u32" then Some(U32)
    else if name == "u64" then Some(U64) else if name == "u128" then Some(U128) else if name == "bool" then Some(Boolean)
    else if name == "address" then Some(Address) else if name == "symbol" then Some(Symbol) else if name == "string" then Some(Text)
    else if name == "bytes" then Some(Bytes) else if name == "void" then Some(Void) else if name == "vec" then Some(Vec)
    else if name == "map" then Some(Map) else None
  }

  lemma KindsAndNames(name: string, k: Kind)
    ensures KindOf(name) == Some(k) <==> name == NameOf(k)
  {
    assert "i128" != "i64" && "u32" != "u64";
    match k
    case I128 => assert name == "i128" ==> KindOf(name) == Some(I128);
    case _ =>
  }

  predicate Integral(k: Kind) { k in {I128, I64, U32, U64, U128} }
  predicate Unsigned(k: Kind) { k in {U32, U64, U128} }

  datatype Value = Number(i: int) | Flag(b: bool) | Chars(s: string) | Nothing | Items(items: seq<Typed>) | Entries(entries: seq<Entry>)
  datatype Typed = Typed(kind: Kind, value: Value)
  datatype Entry = Entry(name: string, typed: Typed)

  predicate EntryLe(a: Entry, b: Entry) { StringLe(a.name, b.name) }

  datatype PayloadCode = Malformed | UnknownField | UnknownFunction | UntypedArgument | UnknownArgumentType | ArgumentValue
  datatype Outcome<+T> = Ok(value: T) | Fail(code: PayloadCode)

  /** `int(text, 10)`: which strings it accepts is left open. */
  type Parser = string -> Option<int>

  function NormaliseTyped(v: Json, parse: Parser): Outcome<Typed>
    decreases v
  {
    if !v.Obj? then Fail(UntypedArgument)
    else if !OnlyKeys(v.fields, ["type", "value"]) then Fail(UnknownField)
    else
      var t, n := Get(v.fields, "type", Null), Find(v.fields, "value");
      if !t.Str? then Fail(UntypedArgument)
      else if n == |v.fields| then Fail(ArgumentValue)
      else match KindOf(t.s)
        case None => Fail(UnknownArgumentType)
        case Some(kind) => NormaliseValue(kind, v.fields[n].val, parse)
  }

  function NormaliseValue(kind: Kind, inner: Json, parse: Parser): Outcome<Typed>
    decreases inner
  {
    match kind
    case Vec => (
      if !inner.Arr? then Fail(ArgumentValue) else
      match NormaliseItems(inner.items, parse)
      case Fail(code) => Fail(code)
      case Ok(items) => Ok(Typed(Vec, Items(items))))
    case Map => (
      if !inner.Obj? then Fail(ArgumentValue) else
      match NormaliseEntries(inner.fields, parse)
      case Fail(code) => Fail(code)
      case Ok(entries) => Ok(Typed(Map, Entries(Sort(entries, EntryLe)))))
    case _ =>
      match Scalar(kind, inner, parse)
      case None => Fail(ArgumentValue)
      case Some(value) => Ok(Typed(kind, value))
  }

  /** The scalar types: the value, unless it is refused. */
  function Scalar(kind: Kind, inner: Json, parse: Parser): Option<Value> {
    if Integral(kind) then
      var n := if inner.Str? then parse(inner.s) else if inner.Int? then Some(inner.i) else None;
      if n.None? || (Unsigned(kind) && n.value < 0) then None else Some(Number(n.value))
    else match kind
      case Boolean => if inner.Bool? then Some(Flag(inner.b)) else None
      case Address | Symbol => if inner.Str? && !Blank(inner.s) then Some(Chars(inner.s)) else None
      case Text | Bytes => if inner.Str? then Some(Chars(inner.s)) else None
      case Void => if inner.Null? then Some(Nothing) else None
      case _ => None
  }

  function NormaliseItems(items: seq<Json>, parse: Parser): (r: Outcome<seq<Typed>>)
    decreases items
    ensures r.Ok? ==> |r.value| == |items|
  {
    if items == [] then Ok([]) else
    var n := |items| - 1;
    match NormaliseItems(items[..n], parse)
    case Fail(code) => Fail(code)
    case Ok(done) =>
      match NormaliseTyped(items[n], parse)
      case Fail(code) => Fail(code)
      case Ok(last) => Ok(done + [last])
  }

  function NormaliseEntries(fields: seq<Member>, parse: Parser): (r: Outcome<seq<Entry>>)
    decreases fields
    ensures r.Ok? ==> |r.value| == |fields|
  {
    if fields == [] then Ok([]) else
    var n := |fields| - 1;
    match NormaliseEntries(fields[..n], parse)
    case Fail(code) => Fail(code)
    case Ok(done) =>
      match NormaliseTyped(fields[n].val, parse)
      case Fail(code) => Fail(code)
      case Ok(last) => Ok(done + [Entry(fields[n].key, last)])
  }

  // -- sequences of typed values --------------------------------------------

  lemma {:induction false} ItemsExactly(items: seq<Json>, parse: Parser)
    ensures NormaliseItems(items, parse).Ok? <==> forall i | 0 <= i < |items| :: NormaliseTyped(items[i], parse).Ok?
    ensures NormaliseItems(items, parse).Ok? ==>
              forall i | 0 <= i < |items| :: NormaliseTyped(items[i], parse) == Ok(NormaliseItems(items, parse).value[i])
  {
    hide NormaliseTyped;
    if items != [] {
      var n := |items| - 1;
      ItemsExactly(items[..n], parse);
      forall i | 0 <= i < n ensures items[..n][i] == items[i] {
      }
    }
  }

  lemma {:induction false} EntriesExactly(fields: seq<Member>, parse: Parser)
    ensures NormaliseEntries(fields, parse).Ok? <==> forall i | 0 <= i < |fields| :: NormaliseTyped(fields[i].val, parse).Ok?
    ensures NormaliseEntries(fields, parse).Ok? ==> forall i | 0 <= i < |fields| ::
              var e := NormaliseEntries(fields, parse).value[i];
              e.name == fields[i].key && NormaliseTyped(fields[i].val, parse) == Ok(e.typed)
  {
    hide NormaliseTyped;
    if fields != [] {
      var n := |fields| - 1;
      EntriesExactly(fields[..n], parse);
      forall i | 0 <= i < n ensures fields[..n][i] == fields[i] {
      }
    }
  }

  ghost predicate UniqueNames(entries: seq<Entry>) {
    forall i, j | 0 <= i < j < |entries| :: entries[i].name != entries[j].name
  }

  lemma EntryLeIsTotalPreorder()
    ensures TotalPreorder(EntryLe)
  {
    forall a, b ensures EntryLe(a, b) || EntryLe(b, a) {
      Total(a.name, b.name);
    }
    forall a, b, c | EntryLe(a, b) && EntryLe(b, c) ensures EntryLe(a, c) {
      Transitive(a.name, b.name, c.name);
    }
  }

  lemma UniqueNamesAreTieFree(entries: seq<Entry>)
    requires UniqueNames(entries)
    ensures Antisymmetric(entries, EntryLe) && Distinct(entries)
  {
    forall x, y | x in entries && y in entries && EntryLe(x, y) && EntryLe(y, x) ensures x == y {
      Antisymmetry(x.name, y.name);
    }
  }

  lemma SortKeepsNames(entries: seq<Entry>)
    requires UniqueNames(entries)
    ensures UniqueNames(Sort(entries, EntryLe)) && Ascending(Sort(entries, EntryLe), EntryLe)
  {
    EntryLeIsTotalPreorder();
    SortIsAscending(entries, EntryLe);
    UniqueNamesAreTieFree(entries);
    SortKeepsDistinct(entries, EntryLe);
    var s := Sort(entries, EntryLe);
    forall i, j | 0 <= i < j < |s| ensures s[i].name != s[j].name {
      SortIsPermutation(entries, s[i], EntryLe);
      SortIsPermutation(entries, s[j], EntryLe);
    }
  }

  /** Unique names and the same entries in any order sort to the same sequence, and only those do. */
  lemma SortedTheSame(a: seq<Entry>, b: seq<Entry>)
    requires UniqueNames(a) && |a| == |b|
    ensures Sort(a, EntryLe) == Sort(b, EntryLe) <==> forall i | 0 <= i < |a| :: a[i] in b
  {
    UniqueNamesAreTieFree(a);
    if forall i | 0 <= i < |a| :: a[i] in b {
      SameElements(a, b);
      EntryLeIsTotalPreorder();
      SortIgnoresOrder(a, b, EntryLe);
    }
    if Sort(a, EntryLe) == Sort(b, EntryLe) {
      forall i | 0 <= i < |a| ensures a[i] in b {
        SortIsPermutation(a, a[i], EntryLe);
        SortIsPermutation(b, a[i], EntryLe);
      }
    }
  }

  // -- what normalising yields ----------------------------------------------

  ghost predicate Normal(t: Typed) {
    match t.kind
    case Vec => t.value.Items? && forall i | 0 <= i < |t.value.items| :: Normal(t.value.items[i])
    case Map => t.value.Entries? && NormalEntries(t.value.entries)
    case _ => NormalScalar(t.kind, t.value)
  }

  ghost predicate NormalEntries(entries: seq<Entry>) {
    && UniqueNames(entries) && Ascending(entries, EntryLe)
    && forall i | 0 <= i < |entries| :: Normal(entries[i].typed)
  }

  predicate NormalScalar(kind: Kind, value: Value) {
    if kind in {I128, I64, U32, U64, U128} then value.Number? && (kind in {U32, U64, U128} ==> value.i >= 0)
    else match kind
      case Boolean => value.Flag?
      case Address | Symbol => value.Chars? && !Blank(value.s)
      case Text | Bytes => value.Chars?
      case Void => value.Nothing?
      case _ => false
  }

  lemma {:induction false} NormaliseIsNormal(v: Json, parse: Parser)
    requires Dicts(v) && NormaliseTyped(v, parse).Ok?
    ensures Normal(NormaliseTyped(v, parse).value)
    decreases v
  {
    hide KindOf, Blank;
    var kind := KindOf(Get(v.fields, "type", Null).s).value;
    var inner := v.fields[Find(v.fields, "value")].val;
    assert NormaliseTyped(v, parse) == NormaliseValue(kind, inner, parse);
    if kind == Vec {
      ItemsExactly(inner.items, parse);
      forall i | 0 <= i < |inner.items| ensures Normal(NormaliseItems(inner.items, parse).value[i]) {
        NormaliseIsNormal(inner.items[i], parse);
      }
    } else if kind == Map {
      EntriesAreNormal(inner.fields, parse);
    }
  }

  lemma {:induction false} EntriesAreNormal(fields: seq<Member>, parse: Parser)
    requires UniqueKeys(fields) && forall i | 0 <= i < |fields| :: Dicts(fields[i].val)
    requires NormaliseEntries(fields, parse).Ok?
    ensures NormalEntries(Sort(NormaliseEntries(fields, parse).value, EntryLe))
    decreases fields
  {
    var entries := NormaliseEntries(fields, parse).value;
    EntriesExactly(fields, parse);
    forall i | 0 <= i < |fields| ensures Normal(entries[i].typed) {
      NormaliseIsNormal(fields[i].val, parse);
    }
    SortKeepsNames(entries);
    forall i | 0 <= i < |entries| ensures Normal(Sort(entries, EntryLe)[i].typed) {
      SortAddsNothing(entries, i, EntryLe);
    }
  }

  // -- re-encoding ----------------------------------------------------------

  function EncodeTyped(t: Typed): Json
    decreases t
  {
    Obj([Member("type", Str(NameOf(t.kind))), Member("value", EncodeValue(t.value))])
  }

  function EncodeValue(v: Value): Json
    decreases v
  {
    match v
    case Number(i) => Int(i)
    case Flag(b) => Bool(b)
    case Chars(s) => Str(s)
    case Nothing => Null
    case Items(items) => Arr(EncodeItems(items))
    case Entries(entries) => Obj(EncodeEntries(entries))
  }

  function EncodeItems(items: seq<Typed>): (r: seq<Json>)
    decreases items
    ensures |r| == |items|
    ensures forall i | 0 <= i < |items| :: r[i] == EncodeTyped(items[i])
  {
    if items == [] then [] else EncodeItems(items[..|items| - 1]) + [EncodeTyped(items[|items| - 1])]
  }

  function EncodeEntries(entries: seq<Entry>): (r: seq<Member>)
    decreases entries
    ensures |r| == |entries|
    ensures forall i | 0 <= i < |entries| :: r[i] == Member(entries[i].name, EncodeTyped(entries[i].typed))
  {
    if entries == [] then [] else
    EncodeEntries(entries[..|entries| - 1]) + [Member(entries[|entries| - 1].name, EncodeTyped(entries[|entries| - 1].typed))]
  }

  /** Normalising the encoding of a normal value gives it back: nothing is lost and nothing drifts. */
  lemma {:induction false} TypedRoundTrip(t: Typed, parse: Parser)
    requires Normal(t)
    ensures NormaliseTyped(EncodeTyped(t), parse) == Ok(t)
    decreases t
  {
    hide KindOf, NameOf, NormaliseTyped, NormaliseValue, EncodeValue;
    KindsAndNames(NameOf(t.kind), t.kind);
    EnvelopeReads(NameOf(t.kind), EncodeValue(t.value), t.kind, parse);
    ValueRoundTrip(t, parse);
  }

  lemma {:induction false} ValueRoundTrip(t: Typed, parse: Parser)
    requires Normal(t)
    ensures NormaliseValue(t.kind, EncodeValue(t.value), parse) == Ok(t)
    decreases t.value
  {
    hide Blank, NormaliseTyped, NormaliseItems, NormaliseEntries, EncodeTyped, EncodeItems, EncodeEntries, Sort;
    if t.kind == Vec {
      var items := t.value.items;
      forall i | 0 <= i < |items| ensures NormaliseTyped(EncodeItems(items)[i], parse) == Ok(items[i]) {
        TypedRoundTrip(items[i], parse);
      }
      ItemsExactly(EncodeItems(items), parse);
      assert NormaliseItems(EncodeItems(items), parse).value == items;
    } else if t.kind == Map {
      EntriesRoundTrip(t.value.entries, parse);
    }
  }

  lemma EnvelopeReads(name: string, inner: Json, kind: Kind, parse: Parser)
    requires KindOf(name) == Some(kind)
    ensures NormaliseTyped(Obj([Member("type", Str(name)), Member("value", inner)]), parse) == NormaliseValue(kind, inner, parse)
  {
    hide KindOf, NormaliseValue;
    var fields := [Member("type", Str(name)), Member("value", inner)];
    assert Find(fields, "type") == 0;
    assert fields[1..][0].key == "value" && "type" != "value";
    assert Find(fields, "value") == 1;
  }

  lemma {:induction false} EntriesRoundTrip(entries: seq<Entry>, parse: Parser)
    requires NormalEntries(entries)
    ensures NormaliseEntries(EncodeEntries(entries), parse) == Ok(entries)
    ensures Sort(entries, EntryLe) == entries
    decreases entries
  {
    var fields := EncodeEntries(entries);
    forall i | 0 <= i < |entries| ensures NormaliseTyped(fields[i].val, parse) == Ok(entries[i].typed) {
      TypedRoundTrip(entries[i].typed, parse);
    }
    EntriesExactly(fields, parse);
    assert NormaliseEntries(fields, parse).value == entries;
    EntryLeIsTotalPreorder();
    UniqueNamesAreTieFree(entries);
    SortOfAscending(entries, EntryLe);
  }

  // -- which documents are one value ----------------------------------------

  /** The integer a number or decimal string stands for. */
  function Denotes(j: Json, parse: Parser): Option<int> {
    if j.Int? then Some(j.i) else if j.Str? then parse(j.s) else None
  }

  /** Equal up to the order of object keys and the spelling of integers. */
  ghost predicate Alike(a: Json, b: Json, parse: Parser)
    decreases a
  {
    && a.Obj? && b.Obj? && OnlyKeys(b.fields, ["type", "value"])
    && Get(a.fields, "type", Null) == Get(b.fields, "type", Null)
    && Find(a.fields, "value") < |a.fields| && Find(b.fields, "value") < |b.fields|
    && Get(a.fields, "type", Null).Str? && KindOf(Get(a.fields, "type", Null).s).Some?
    && AlikeValue(KindOf(Get(a.fields, "type", Null).s).value,
                  a.fields[Find(a.fields, "value")].val, b.fields[Find(b.fields, "value")].val, parse)
  }

  ghost predicate AlikeValue(kind: Kind, a: Json, b: Json, parse: Parser)
    decreases a
  {
    match kind
    case Vec => a.Arr? && b.Arr? && |a.items| == |b.items| && forall i | 0 <= i < |a.items| :: Alike(a.items[i], b.items[i], parse)
    case Map => a.Obj? && b.Obj? && AlikeMembers(a.fields, b.fields, parse)
    case _ => a == b || (Integral(kind) && Denotes(a, parse).Some? && Denotes(a, parse) == Denotes(b, parse))
  }

  ghost predicate AlikeMembers(a: seq<Member>, b: seq<Member>, parse: Parser)
    decreases a
  {
    && |a| == |b|
    && forall i | 0 <= i < |a| :: var n := Find(b, a[i].key);
         n < |b| && Alike(a[i].val, b[n].val, parse)
  }

  lemma ScalarsAlike(kind: Kind, a: Json, b: Json, parse: Parser)
    requires kind != Vec && kind != Map && Scalar(kind, a, parse).Some?
    ensures Scalar(kind, b, parse) == Scalar(kind, a, parse) <==> AlikeValue(kind, a, b, parse)
  {
    hide Blank;
  }

  lemma FindUnique(fields: seq<Member>, n: nat)
    requires UniqueKeys(fields) && n < |fields|
    ensures Find(fields, fields[n].key) == n
  {
    var m := Find(fields, fields[n].key);
    assert m <= n;
  }

  function Keys(fields: seq<Member>): seq<string> {
    seq(|fields|, i requires 0 <= i < |fields| => fields[i].key)
  }

  /** Unique keys, all found in an object of the same size, are its keys. */
  lemma KeysMatch(a: seq<Member>, b: seq<Member>, j: nat)
    requires UniqueKeys(a) && |a| == |b| && forall i | 0 <= i < |a| :: Find(b, a[i].key) < |b|
    requires j < |b|
    ensures Find(a, b[j].key) < |a|
  {
    forall i | 0 <= i < |a| ensures Keys(a)[i] in Keys(b) {
      assert Keys(b)[Find(b, a[i].key)] == a[i].key;
    }
    SameElements(Keys(a), Keys(b));
    assert Keys(b)[j] in multiset(Keys(a));
    assert Keys(b)[j] in Keys(a);
  }

  /** The documents with the canonical value of `a` are exactly those alike to `a`. */
  lemma {:induction false} SameValueExactly(a: Json, b: Json, parse: Parser)
    requires Dicts(a) && Dicts(b) && NormaliseTyped(a, parse).Ok?
    ensures NormaliseTyped(b, parse) == NormaliseTyped(a, parse) <==> Alike(a, b, parse)
    decreases a
  {
    hide KindOf, Blank, NormaliseValue, AlikeValue;
    var ta, na := Get(a.fields, "type", Null), Find(a.fields, "value");
    var kind := KindOf(ta.s).value;
    var va := a.fields[na].val;
    if b.Obj? && OnlyKeys(b.fields, ["type", "value"]) {
      var tb, nb := Get(b.fields, "type", Null), Find(b.fields, "value");
      if nb < |b.fields| && tb.Str? && KindOf(tb.s).Some? {
        var vb := b.fields[nb].val;
        KindKept(kind, va, parse);
        KindKept(KindOf(tb.s).value, vb, parse);
        if KindOf(tb.s).value == kind {
          KindsAndNames(ta.s, kind);
          KindsAndNames(tb.s, kind);
          SameInnerExactly(kind, va, vb, parse);
        }
      }
    }
  }

  lemma KindKept(kind: Kind, inner: Json, parse: Parser)
    ensures NormaliseValue(kind, inner, parse).Ok? ==> NormaliseValue(kind, inner, parse).value.kind == kind
  {}

  lemma {:induction false} SameInnerExactly(kind: Kind, a: Json, b: Json, parse: Parser)
    requires Dicts(a) && Dicts(b) && NormaliseValue(kind, a, parse).Ok?
    ensures NormaliseValue(kind, b, parse) == NormaliseValue(kind, a, parse) <==> AlikeValue(kind, a, b, parse)
    decreases a
  {
    hide Blank, Scalar;
    if kind == Vec {
      if b.Arr? && |a.items| == |b.items| {
        ItemsExactly(a.items, parse);
        ItemsExactly(b.items, parse);
        forall i | 0 <= i < |a.items|
          ensures NormaliseTyped(b.items[i], parse) == NormaliseTyped(a.items[i], parse) <==> Alike(a.items[i], b.items[i], parse)
        {
          SameValueExactly(a.items[i], b.items[i], parse);
        }
        SameItems(a.items, b.items, parse);
      }
    } else if kind == Map {
      if b.Obj? && |a.fields| == |b.fields| {
        SameMembersExactly(a.fields, b.fields, parse);
      }
    } else {
      ScalarsAlike(kind, a, b, parse);
    }
  }

  lemma SameItems(a: seq<Json>, b: seq<Json>, parse: Parser)
    requires |a| == |b| && NormaliseItems(a, parse).Ok?
    ensures NormaliseItems(b, parse) == NormaliseItems(a, parse)
       <==> forall i | 0 <= i < |a| :: NormaliseTyped(b[i], parse) == NormaliseTyped(a[i], parse)
  {
    hide NormaliseTyped, NormaliseItems;
    ItemsExactly(a, parse);
    ItemsExactly(b, parse);
    if forall i | 0 <= i < |a| :: NormaliseTyped(b[i], parse) == NormaliseTyped(a[i], parse) {
      assert NormaliseItems(b, parse).value == NormaliseItems(a, parse).value;
    }
  }

  /** Pairwise agreement of members found under the same key. */
  ghost predicate PairsDecided(a: seq<Member>, b: seq<Member>, parse: Parser) {
    forall i | 0 <= i < |a| && Find(b, a[i].key) < |b| ::
      NormaliseTyped(b[Find(b, a[i].key)].val, parse) == NormaliseTyped(a[i].val, parse) <==> Alike(a[i].val, b[Find(b, a[i].key)].val, parse)
  }

  lemma {:induction false} SameMembersExactly(a: seq<Member>, b: seq<Member>, parse: Parser)
    requires UniqueKeys(a) && UniqueKeys(b) && |a| == |b|
    requires forall i | 0 <= i < |a| :: Dicts(a[i].val) && Dicts(b[i].val)
    requires NormaliseEntries(a, parse).Ok?
    ensures (NormaliseEntries(b, parse).Ok? && Sort(NormaliseEntries(b, parse).value, EntryLe) == Sort(NormaliseEntries(a, parse).value, EntryLe))
       <==> AlikeMembers(a, b, parse)
    decreases a
  {
    hide NormaliseTyped, NormaliseEntries, Sort, Alike;
    EntriesExactly(a, parse);
    forall i | 0 <= i < |a| && Find(b, a[i].key) < |b|
      ensures NormaliseTyped(b[Find(b, a[i].key)].val, parse) == NormaliseTyped(a[i].val, parse)
         <==> Alike(a[i].val, b[Find(b, a[i].key)].val, parse)
    {
      SameValueExactly(a[i].val, b[Find(b, a[i].key)].val, parse);
    }
    if AlikeMembers(a, b, parse) {
      AlikeMembersNormalise(a, b, parse);
    }
    if NormaliseEntries(b, parse).Ok? {
      DecidedMembers(a, b, parse);
    }
  }

  lemma AlikeMembersNormalise(a: seq<Member>, b: seq<Member>, parse: Parser)
    requires UniqueKeys(a) && UniqueKeys(b) && PairsDecided(a, b, parse)
    requires NormaliseEntries(a, parse).Ok? && AlikeMembers(a, b, parse)
    ensures NormaliseEntries(b, parse).Ok?
  {
    hide NormaliseTyped, NormaliseEntries, Alike;
    EntriesExactly(a, parse);
    EntriesExactly(b, parse);
    forall j | 0 <= j < |b| ensures NormaliseTyped(b[j].val, parse).Ok? {
      KeysMatch(a, b, j);
      FindUnique(b, j);
    }
  }

  lemma DecidedMembers(a: seq<Member>, b: seq<Member>, parse: Parser)
    requires UniqueKeys(a) && UniqueKeys(b) && |a| == |b| && PairsDecided(a, b, parse)
    requires NormaliseEntries(a, parse).Ok? && NormaliseEntries(b, parse).Ok?
    ensures Sort(NormaliseEntries(b, parse).value, EntryLe) == Sort(NormaliseEntries(a, parse).value, EntryLe)
       <==> AlikeMembers(a, b, parse)
  {
    hide NormaliseTyped, NormaliseEntries, Sort, Alike;
    EntriesExactly(a, parse);
    EntriesExactly(b, parse);
    var ea, eb := NormaliseEntries(a, parse).value, NormaliseEntries(b, parse).value;
    SortedTheSame(ea, eb);
    forall i | 0 <= i < |a|
      ensures ea[i] in eb <==> Find(b, a[i].key) < |b| && eb[Find(b, a[i].key)] == ea[i]
    {
      if ea[i] in eb {
        var j :| 0 <= j < |b| && eb[j] == ea[i];
        FindUnique(b, j);
      }
    }
  }
}
