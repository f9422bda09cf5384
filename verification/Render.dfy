/** The summary a person reads: one line per fact and per operation, cut to a length. */
module Renders {
  import opened Authenticity
  import opened Payloads
  import opened Documents
  import opened Canonicals

  const MAX_LINES := 64
  const MAX_CHARS := 4096

  function Digit(d: nat): char
    requires d < 10
  {
    "0123456789"[d]
  }

  function Digits(n: nat): (s: string)
    ensures s != ""
  {
    if n < 10 then [Digit(n)] else Digits(n / 10) + [Digit(n % 10)]
  }

  function Decimal(n: int): string {
    if n < 0 then "-" + Digits(-n) else Digits(n)
  }

  function Join(parts: seq<string>, between: string): string {
    if parts == [] then ""
    else if |parts| == 1 then parts[0]
    else parts[0] + between + Join(parts[1..], between)
  }

  function RenderTyped(t: Typed): string
    decreases t
  {
    match t.value
    case Items(items) => "[" + Join(RenderItems(items), ", ") + "]"
    case Entries(entries) => "{" + Join(RenderEntries(entries, ": "), ", ") + "}"
    case Nothing => NameOf(t.kind)
    case Number(i) => NameOf(t.kind) + ":" + Decimal(i)
    case Flag(b) => NameOf(t.kind) + ":" + (if b then "True" else "False")
    case Chars(s) => NameOf(t.kind) + ":" + s
  }

  function RenderItems(items: seq<Typed>): seq<string>
    decreases items
  {
    if items == [] then [] else RenderItems(items[..|items| - 1]) + [RenderTyped(items[|items| - 1])]
  }

  function RenderEntries(entries: seq<Entry>, between: string): seq<string>
    decreases entries
  {
    if entries == [] then [] else
    RenderEntries(entries[..|entries| - 1], between)
    + [entries[|entries| - 1].name + between + RenderTyped(entries[|entries| - 1].typed)]
  }

  function RenderOperation(op: Operation): string {
    op.contractId + "::" + op.function_ + "(" + Join(RenderEntries(op.args, "="), ", ") + ")"
  }

  function OperationLines(ops: seq<Operation>): seq<string> {
    if ops == [] then [] else
    OperationLines(ops[..|ops| - 1]) + ["  " + Decimal(|ops|) + ". " + RenderOperation(ops[|ops| - 1])]
  }

  function Lines(p: Payload): seq<string> {
    ["PRIVILEGED TRANSACTION REVIEW",
     "network: " + p.network,
     "source account: " + p.sourceAccount,
     "fee: " + Decimal(p.fee) + " stroops",
     "sequence: " + Decimal(p.sequence),
     "max time: " + (if p.maxTime != 0 then Decimal(p.maxTime) else "none"),
     "operations:"] + OperationLines(p.operations)
  }

  function Take<T>(s: seq<T>, n: nat): seq<T> { if n <= |s| then s[..n] else s }

  /** `render`. */
  function Render(p: Payload): string {
    Take(Join(Take(Lines(p), MAX_LINES), "\n"), MAX_CHARS)
  }

  // -- what the summary says ------------------------------------------------

  /** The number a row of digits spells. */
  function Spelled(digits: string): nat {
    if digits == "" then 0 else
    10 * Spelled(digits[..|digits| - 1]) + Value(digits[|digits| - 1])
  }

  function Value(c: char): nat { if '0' <= c <= '9' then c as int - '0' as int else 0 }

  /** Digits spell the number they are of, with no zero in front. */
  lemma {:induction false} DigitsTell(n: nat)
    ensures Spelled(Digits(n)) == n && (n > 0 ==> Digits(n)[0] != '0')
  {
    DigitTells(n % 10);
    if n >= 10 {
      DigitsTell(n / 10);
      var s := Digits(n);
      assert s[..|s| - 1] == Digits(n / 10) && s[|s| - 1] == Digit(n % 10) && s[0] == Digits(n / 10)[0];
    } else {
      assert Digits(n)[..0] == "" && Digits(n)[0] == Digit(n);
    }
  }

  lemma DigitTells(d: nat)
    requires d < 10
    ensures Value(Digit(d)) == d && (d > 0 ==> Digit(d) != '0')
  {}

  lemma DecimalTells(n: int)
    ensures n >= 0 ==> Spelled(Decimal(n)) == n
    ensures n < 0 ==> Decimal(n)[0] == '-' && Spelled(Decimal(n)[1..]) == -n
  {
    DigitsTell(if n >= 0 then n else -n);
  }

  /** Joining puts the separator between the parts and nowhere else. */
  lemma {:induction false} JoinTells(parts: seq<string>, last: string, separator: string)
    ensures Join([], separator) == "" && Join([last], separator) == last
    ensures parts != [] ==> Join(parts + [last], separator) == Join(parts, separator) + separator + last
  {
    if |parts| == 1 {
      assert (parts + [last])[1..] == [last];
    } else if parts != [] {
      assert (parts + [last])[1..] == parts[1..] + [last] && parts == [parts[0]] + parts[1..];
      JoinTells(parts[1..], last, separator);
    }
  }

  lemma {:induction false} OperationLinesTell(ops: seq<Operation>, i: nat)
    requires i < |ops|
    ensures |OperationLines(ops)| == |ops|
    ensures OperationLines(ops)[i] ==
            "  " + Decimal(i + 1) + ". " + ops[i].contractId + "::" + ops[i].function_ + "(" + Join(RenderEntries(ops[i].args, "="), ", ") + ")"
  {
    hide Decimal, Join, RenderEntries;
    var n := |ops| - 1;
    if n > 0 {
      OperationLinesTell(ops[..n], if i < n then i else 0);
    }
  }

  lemma {:induction false} ItemsTell(items: seq<Typed>, i: nat)
    requires i < |items|
    ensures |RenderItems(items)| == |items| && RenderItems(items)[i] == RenderTyped(items[i])
  {
    hide RenderTyped;
    var n := |items| - 1;
    if n > 0 {
      ItemsTell(items[..n], if i < n then i else 0);
    }
  }

  lemma {:induction false} EntriesTell(entries: seq<Entry>, between: string, i: nat)
    requires i < |entries|
    ensures |RenderEntries(entries, between)| == |entries|
    ensures RenderEntries(entries, between)[i] == entries[i].name + between + RenderTyped(entries[i].typed)
  {
    hide RenderTyped;
    var n := |entries| - 1;
    if n > 0 {
      EntriesTell(entries[..n], between, if i < n then i else 0);
    }
  }

  /** A value reads as its type and its text, a list or an object as its parts in brackets. */
  lemma TypedTells(t: Typed)
    requires Normal(t)
    ensures t.kind == Boolean ==> RenderTyped(t) == if t.value.b then "bool:True" else "bool:False"
    ensures t.kind in {I128, I64, U32, U64, U128} ==> RenderTyped(t) == NameOf(t.kind) + ":" + Decimal(t.value.i)
    ensures t.kind in {Address, Symbol, Text, Bytes} ==> RenderTyped(t) == NameOf(t.kind) + ":" + t.value.s
    ensures t.kind == Void ==> RenderTyped(t) == "void"
    ensures t.kind == Vec ==> RenderTyped(t) == "[" + Join(RenderItems(t.value.items), ", ") + "]"
    ensures t.kind == Map ==> RenderTyped(t) == "{" + Join(RenderEntries(t.value.entries, ": "), ", ") + "}"
  {
    hide Decimal, Join, RenderItems, RenderEntries, Blank;
    if t.kind == Boolean {
      assert NameOf(t.kind) + ":" + "True" == "bool:True" && NameOf(t.kind) + ":" + "False" == "bool:False";
    }
  }

  /** A line for each fact a signer needs and for each operation in its place, and none cut off a payload the
      guard accepts unless the text itself is too long. */
  lemma LinesTell(p: Payload)
    requires NormalPayload(p)
    ensures |Lines(p)| == 7 + |p.operations| <= MAX_LINES
    ensures Lines(p)[0] == "PRIVILEGED TRANSACTION REVIEW" && Lines(p)[1] == "network: " + p.network
    ensures Lines(p)[2] == "source account: " + p.sourceAccount && Lines(p)[3] == "fee: " + Decimal(p.fee) + " stroops"
    ensures Lines(p)[4] == "sequence: " + Decimal(p.sequence) && Lines(p)[6] == "operations:"
    ensures p.maxTime == 0 ==> Lines(p)[5] == "max time: none"
    ensures p.maxTime > 0 ==> Lines(p)[5] == "max time: " + Decimal(p.maxTime)
    ensures forall i | 0 <= i < |p.operations| :: Lines(p)[7 + i] == OperationLines(p.operations)[i]
    ensures var text := Join(Lines(p), "\n");
            Render(p) == if |text| <= MAX_CHARS then text else text[..MAX_CHARS]
  {
    hide Decimal, Join, OperationLines;
    if p.operations != [] {
      OperationLinesTell(p.operations, 0);
    }
    assert Take(Lines(p), MAX_LINES) == Lines(p);
  }

  // -- where the cut falls --------------------------------------------------

  lemma StartsWith(p: Payload)
    ensures Join(Take(Lines(p), MAX_LINES), "\n") == "PRIVILEGED TRANSACTION REVIEW" + "\n" + ("network: " + p.network) + "\n"
                                                     + Join(Take(Lines(p), MAX_LINES)[2..], "\n")
  {
    hide Decimal, OperationLines;
    var all := Take(Lines(p), MAX_LINES);
    assert all[0] == "PRIVILEGED TRANSACTION REVIEW" && all[1] == "network: " + p.network;
    assert |all| > 2 && all[1..][1..] == all[2..] && all[1..][0] == all[1];
  }

  /** No summary is blank. */
  lemma RenderStarts(p: Payload)
    ensures |Render(p)| > 0 && Render(p)[0] == 'P'
  {
    hide Lines, Join;
    StartsWith(p);
    var text := Join(Take(Lines(p), MAX_LINES), "\n");
    assert text[0] == "PRIVILEGED TRANSACTION REVIEW"[0] == 'P';
    assert Render(p) == Take(text, MAX_CHARS);
  }

  /** A payload whose network name is just long enough is cut right after a line break. */
  lemma CutAfterLineBreak() returns (p: Payload)
    ensures NormalPayload(p)
    ensures |Render(p)| == MAX_CHARS && Render(p)[MAX_CHARS - 1] == '\n'
  {
    hide Lines, Join, Decimal;
    var network := seq(4056, _ => 'n');
    p := Payload(network, "G", 0, 1, 0, [Operation("C", "pause", [])]);
    assert network[0] == 'n' && "G"[0] == 'G' && "C"[0] == 'C' && "pause"[0] == 'p' && PRIVILEGED[3] == "pause";
    var head := "PRIVILEGED TRANSACTION REVIEW" + "\n" + ("network: " + network) + "\n";
    assert |"PRIVILEGED TRANSACTION REVIEW"| == 29 && |"network: "| == 9;
    assert |head| == MAX_CHARS && head[MAX_CHARS - 1] == '\n';
    StartsWith(p);
  }

  // -- what a rendering stands for ------------------------------------------

  lemma {:induction false} DigitsInjective(a: nat, b: nat)
    requires Digits(a) == Digits(b)
    ensures a == b
  {
    var x, y := Digits(a), Digits(b);
    assert x[|x| - 1] == Digit(a % 10) && y[|y| - 1] == Digit(b % 10);
    if a >= 10 && b >= 10 {
      assert x[..|x| - 1] == Digits(a / 10) && y[..|y| - 1] == Digits(b / 10);
      DigitsInjective(a / 10, b / 10);
    } else {
      assert a >= 10 ==> |x| > 1;
      assert b >= 10 ==> |y| > 1;
    }
  }

  lemma {:induction false} DigitsAreDigits(n: nat, i: nat)
    requires i < |Digits(n)|
    ensures Digits(n)[i] in "0123456789"
  {
    if n >= 10 && i < |Digits(n / 10)| {
      DigitsAreDigits(n / 10, i);
    }
  }

  lemma DecimalInjective(a: int, b: int)
    requires Decimal(a) == Decimal(b)
    ensures a == b
  {
    hide Digits;
    if a < 0 && b < 0 {
      assert Decimal(a)[1..] == Digits(-a) && Decimal(b)[1..] == Digits(-b);
      DigitsInjective(-a, -b);
    } else if a >= 0 && b >= 0 {
      DigitsInjective(a, b);
    } else {
      SignShows(a);
      SignShows(b);
    }
  }

  lemma SignShows(a: int)
    ensures Decimal(a) != "" && (Decimal(a)[0] == '-' <==> a < 0)
  {
    hide Digits;
    if a >= 0 {
      DigitsAreDigits(a, 0);
    }
  }

  /** What comes before the first colon, and what comes after it. */
  lemma SplitAtColon(a: string, x: string, b: string, y: string)
    requires ':' !in a && ':' !in b && a + ":" + x == b + ":" + y
    ensures a == b && x == y
  {
    var s := a + ":" + x;
    assert s[|a|] == ':' && s[|b|] == ':';
    assert forall k | 0 <= k < |a| :: s[k] == a[k];
    assert forall k | 0 <= k < |b| :: s[k] == b[k];
    assert |a| == |b|;
    assert a == s[..|a|] && b == s[..|b|] && x == s[|a| + 1..] && y == s[|b| + 1..];
  }

  lemma NamesHaveNoColon(k: Kind)
    ensures ':' !in NameOf(k) && NameOf(k) != "" && NameOf(k)[0] != '[' && NameOf(k)[0] != '{'
    ensures NameOf(k)[0] == 'v' <==> k in {Void, Vec, Map} && k != Map
  {}

  /** The text of a scalar after its type name. */
  function Body(v: Value): string {
    match v
    case Number(i) => Decimal(i)
    case Flag(b) => if b then "True" else "False"
    case Chars(s) => s
    case _ => ""
  }

  lemma ScalarForm(t: Typed)
    requires Normal(t)
    ensures t.kind == Vec ==> RenderTyped(t) != "" && RenderTyped(t)[0] == '['
    ensures t.kind == Map ==> RenderTyped(t) != "" && RenderTyped(t)[0] == '{'
    ensures t.kind == Void ==> RenderTyped(t) == NameOf(Void) && t.value == Nothing
    ensures t.kind !in {Vec, Map, Void} ==> RenderTyped(t) == NameOf(t.kind) + ":" + Body(t.value)
    ensures t.kind !in {Vec, Map} ==> RenderTyped(t) != "" && RenderTyped(t)[0] == NameOf(t.kind)[0]
  {
    hide NameOf, Blank, Join, Decimal, RenderItems, RenderEntries;
    NamesHaveNoColon(t.kind);
  }

  lemma BodyInjective(a: Typed, b: Typed)
    requires Normal(a) && Normal(b) && a.kind == b.kind && a.kind !in {Vec, Map, Void} && Body(a.value) == Body(b.value)
    ensures a == b
  {
    hide Blank, Decimal;
    if Integral(a.kind) {
      DecimalInjective(a.value.i, b.value.i);
    } else if a.kind == Boolean {
      assert |"True"| == 4 && |"False"| == 5;
    }
  }

  lemma HasColon(name: string, body: string)
    ensures ':' in name + ":" + body
  {
    assert (name + ":" + body)[|name|] == ':';
  }

  lemma ScalarsRenderApart(a: Typed, b: Typed)
    requires Normal(a) && Normal(b) && a.kind !in {Vec, Map} && RenderTyped(a) == RenderTyped(b)
    ensures a == b
  {
    hide NameOf, Normal, RenderTyped, Body;
    ScalarForm(a);
    ScalarForm(b);
    NamesHaveNoColon(a.kind);
    NamesHaveNoColon(b.kind);
    HasColon(NameOf(a.kind), Body(a.value));
    HasColon(NameOf(b.kind), Body(b.value));
    if a.kind != Void && b.kind !in {Vec, Map, Void} {
      SplitAtColon(NameOf(a.kind), Body(a.value), NameOf(b.kind), Body(b.value));
      NamesAreDistinct(a.kind, b.kind);
      BodyInjective(a, b);
    }
  }

  /** Whether a value of the kind can be told from every other value by its rendering. */
  ghost predicate Unambiguous(k: Kind) {
    forall a, b | Normal(a) && Normal(b) && a.kind == k && RenderTyped(a) == RenderTyped(b) :: a == b
  }

  function TextOf(s: string): Typed { Typed(Text, Chars(s)) }

  lemma RenderTexts(s: string, t: string)
    ensures RenderItems([TextOf(s)]) == ["string:" + s]
    ensures RenderItems([TextOf(s), TextOf(t)]) == ["string:" + s, "string:" + t]
    ensures Join(RenderItems([TextOf(s), TextOf(t)]), ", ") == "string:" + s + ", " + ("string:" + t)
  {
    assert NameOf(Text) + ":" == "string:";
    assert [TextOf(s)][..0] == [] && [TextOf(s), TextOf(t)][..1] == [TextOf(s)];
    assert RenderItems([TextOf(s)]) == [RenderTyped(TextOf(s))];
  }

  /** A comma inside a string reads like the one between two elements. */
  lemma VecsCollide()
    ensures !Unambiguous(Vec)
  {
    var a, b := Typed(Vec, Items([TextOf("x, string:y")])), Typed(Vec, Items([TextOf("x"), TextOf("y")]));
    RenderTexts("x, string:y", "");
    RenderTexts("x", "y");
    assert "string:" + "x" + ", " + ("string:" + "y") == "string:" + "x, string:y";
    hide RenderItems, Join;
    assert Join(["string:" + "x, string:y"], ", ") == "string:" + "x, string:y" by { JoinOne("string:" + "x, string:y"); }
    assert RenderTyped(a) == RenderTyped(b) && Normal(a) && Normal(b);
    assert |a.value.items| != |b.value.items|;
  }

  lemma JoinOne(s: string)
    ensures Join([s], ", ") == s
  {}

  lemma RenderPair(k: string, s: string, l: string, t: string)
    ensures RenderEntries([Entry(k, TextOf(s))], ": ") == [k + ": " + ("string:" + s)]
    ensures Join(RenderEntries([Entry(k, TextOf(s)), Entry(l, TextOf(t))], ": "), ", ")
         == k + ": " + ("string:" + s) + ", " + (l + ": " + ("string:" + t))
  {
    var x, y := Entry(k, TextOf(s)), Entry(l, TextOf(t));
    assert NameOf(Text) + ":" == "string:";
    assert [x][..0] == [] && [x, y][..1] == [x];
    assert RenderEntries([x], ": ") == [k + ": " + RenderTyped(x.typed)];
  }

  /** Where the text of one value could as well end and the next entry begin. */
  lemma Regroup(k: string, s: string, l: string, t: string)
    ensures k + ": " + ("string:" + s) + ", " + (l + ": " + ("string:" + t))
         == k + ": " + ("string:" + (s + ", " + (l + ": " + ("string:" + t))))
  {}

  function OneEntry(): Typed { Typed(Map, Entries([Entry("k", TextOf("x, l: string:y"))])) }
  function TwoEntries(): Typed { Typed(Map, Entries([Entry("k", TextOf("x")), Entry("l", TextOf("y"))])) }

  lemma BothNormal()
    ensures Normal(OneEntry()) && Normal(TwoEntries())
  {
    assert "k"[0] < "l"[0];
    assert EntryLe(Entry("k", TextOf("x")), Entry("l", TextOf("y")));
  }

  const CLASH := "{" + ("k" + ": " + ("string:" + "x, l: string:y")) + "}"

  lemma OneReads()
    ensures RenderTyped(OneEntry()) == CLASH
  {
    RenderPair("k", "x, l: string:y", "", "");
    hide RenderEntries, Join;
    JoinOne("k" + ": " + ("string:" + "x, l: string:y"));
  }

  lemma TwoRead()
    ensures RenderTyped(TwoEntries()) == CLASH
  {
    RenderPair("k", "x", "l", "y");
    hide RenderEntries, Join;
    Regroup("k", "x", "l", "y");
    assert "x" + ", " + ("l" + ": " + ("string:" + "y")) == "x, l: string:y";
  }

  lemma MapsCollide()
    ensures !Unambiguous(Map)
  {
    BothNormal();
    OneReads();
    TwoRead();
    hide RenderTyped, Normal;
    assert |OneEntry().value.entries| != |TwoEntries().value.entries|;
  }

  /** The rendering of a value is unambiguous for every kind but vec and map. */
  lemma UnambiguousExactly(k: Kind)
    ensures Unambiguous(k) <==> k != Vec && k != Map
  {
    hide Normal, RenderTyped;
    VecsCollide();
    MapsCollide();
    if k != Vec && k != Map {
      forall a, b | Normal(a) && Normal(b) && a.kind == k && RenderTyped(a) == RenderTyped(b) ensures a == b {
        ScalarsRenderApart(a, b);
      }
    }
  }
}
