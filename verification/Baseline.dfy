/** The unsafe-code baseline: counting findings against locating them. */
module Baselines {
  import opened Options
  import opened Sorting
  import opened Strings

  datatype Finding = Finding(id: string, path: string, line: int)

  /** Whether some allowlist entry covers a rule at a path; patterns are left open. */
  type Allowlist = (string, string) -> bool

  function KeyOf(f: Finding): string { f.id + ":" + f.path }

  function Count(findings: seq<Finding>, key: string): nat {
    if findings == [] then 0 else
    Count(findings[..|findings| - 1], key) + (if KeyOf(findings[|findings| - 1]) == key then 1 else 0)
  }

  lemma CountOneMore(findings: seq<Finding>, f: Finding, key: string)
    ensures Count(findings + [f], key) == Count(findings, key) + (if KeyOf(f) == key then 1 else 0)
  {
    assert (findings + [f])[..|findings|] == findings;
  }

  function Lookup(counts: map<string, int>, key: string): int {
    if key in counts then counts[key] else 0
  }

  /** The count of every key that occurs, and no other key. */
  ghost predicate Counts(counts: map<string, int>, findings: seq<Finding>) {
    forall key :: Lookup(counts, key) == Count(findings, key) && (key in counts <==> Count(findings, key) > 0)
  }

  method UnsafeCounts(findings: seq<Finding>) returns (counts: map<string, int>)
    ensures Counts(counts, findings)
  {
    counts := map[];
    for i := 0 to |findings|
      invariant Counts(counts, findings[..i])
    {
      assert findings[..i + 1][..i] == findings[..i];
      var key := KeyOf(findings[i]);
      counts := counts[key := Lookup(counts, key) + 1];
    }
    assert findings[..|findings|] == findings;
  }

  // -- the count view -------------------------------------------------------

  /** Exactly the keys that are wanted, each once, in key order. */
  ghost predicate Lists(keys: seq<string>, wanted: string -> bool) {
    Ascending(keys, StringLe) && Distinct(keys) && forall k :: k in keys <==> wanted(k)
  }

  lemma StringLeIsTotalPreorder()
    ensures TotalPreorder(StringLe)
  {
    forall a, b ensures StringLe(a, b) || StringLe(b, a) { Total(a, b); }
    forall a, b, c | StringLe(a, b) && StringLe(b, c) ensures StringLe(a, c) { Transitive(a, b, c); }
  }

  /** `sorted` over a set. */
  method SortedKeys(keys: set<string>) returns (sorted: seq<string>)
    ensures Ascending(sorted, StringLe) && Distinct(sorted) && forall k :: k in sorted <==> k in keys
  {
    var listed, left := [], keys;
    while left != {}
      invariant Distinct(listed) && left <= keys
      invariant forall k :: k in listed <==> k in keys - left
      decreases |left|
    {
      var k :| k in left;
      assert k !in listed;
      listed, left := listed + [k], left - {k};
    }
    sorted := Sort(listed, StringLe);
    StringLeIsTotalPreorder();
    SortIsAscending(listed, StringLe);
    SortKeepsDistinct(listed, StringLe);
    forall k ensures k in sorted <==> k in keys {
      SortIsPermutation(listed, k, StringLe);
    }
  }

  /** How far a key is over its baseline; under it when negative. */
  function Over(counts: map<string, int>, baseline: map<string, int>, key: string): int {
    Lookup(counts, key) - Lookup(baseline, key)
  }

  /** Accepted counts and the digest that approves them; the digest is an arbitrary function of the counts. */
  datatype UnsafeBaseline = UnsafeBaseline(counts: map<string, int>, approvedSha256: string)
  type Digest = map<string, int> -> string

  datatype Error = NoBaseline | NoApproval | Edited | Negative(key: string) | Slack(key: string)

  /** An approval is a digest, and that of the counts. */
  predicate Approved(b: UnsafeBaseline, digest: Digest) { b.approvedSha256 != "" && b.approvedSha256 == digest(b.counts) }

  function ApprovalErrors(b: UnsafeBaseline, digest: Digest): seq<Error> {
    if b.approvedSha256 == "" then [NoApproval] else if b.approvedSha256 != digest(b.counts) then [Edited] else []
  }

  lemma ApprovalTells(b: UnsafeBaseline, digest: Digest)
    ensures var errors := ApprovalErrors(b, digest);
            && (errors == [] <==> Approved(b, digest))
            && (errors == [NoApproval] <==> b.approvedSha256 == "")
            && (errors == [Edited] <==> b.approvedSha256 !in ["", digest(b.counts)])
  {}

  function Negatives(baseline: map<string, int>): string -> bool { k => Lookup(baseline, k) < 0 }

  function Each(keys: seq<string>, error: string -> Error): (r: seq<Error>)
    ensures |r| == |keys|
  {
    seq(|keys|, i requires 0 <= i < |keys| => error(keys[i]))
  }

  /** The errors of a baseline: its approval's, then its negative entries, in key order. */
  ghost predicate OwnErrors(errors: seq<Error>, b: UnsafeBaseline, digest: Digest) {
    exists negatives :: Lists(negatives, Negatives(b.counts)) && errors == ApprovalErrors(b, digest) + Each(negatives, k => Negative(k))
  }

  /** ... followed, in the comparison with what is observed, by the keys under their baseline. */
  ghost predicate AllErrors(errors: seq<Error>, counts: map<string, int>, b: UnsafeBaseline, digest: Digest) {
    exists own, slack ::
      OwnErrors(own, b, digest) && Lists(slack, Drifts(counts, b.counts)) && errors == own + Each(slack, k => Slack(k))
  }

  /** `UnsafeBaseline.errors`. */
  method Errors(b: UnsafeBaseline, digest: Digest) returns (errors: seq<Error>)
    ensures OwnErrors(errors, b, digest)
  {
    hide Lists, Select, StringLe;
    errors := ApprovalErrors(b, digest);
    var keys := SortedKeys(b.counts.Keys);
    ghost var below := Negatives(b.counts);
    SelectNothing(below);
    for i := 0 to |keys|
      invariant errors == ApprovalErrors(b, digest) + Each(Select(keys[..i], below), k => Negative(k))
    {
      SelectStep(keys, i, below);
      if b.counts[keys[i]] < 0 {
        errors := errors + [Negative(keys[i])];
      }
    }
    assert keys[..|keys|] == keys;
    SelectsAll(keys, map[], b.counts, below);
  }

  function Creeps(counts: map<string, int>, baseline: map<string, int>): string -> bool { k => Over(counts, baseline, k) > 0 }
  function Drifts(counts: map<string, int>, baseline: map<string, int>): string -> bool { k => Over(counts, baseline, k) < 0 }

  function Select(keys: seq<string>, wanted: string -> bool): seq<string> {
    if keys == [] then [] else
    Select(keys[..|keys| - 1], wanted) + (if wanted(keys[|keys| - 1]) then [keys[|keys| - 1]] else [])
  }

  lemma {:induction false} SelectKeepsOrder(keys: seq<string>, wanted: string -> bool)
    requires Ascending(keys, StringLe) && Distinct(keys)
    ensures Ascending(Select(keys, wanted), StringLe) && Distinct(Select(keys, wanted))
    ensures forall k :: k in Select(keys, wanted) <==> k in keys && wanted(k)
  {
    hide StringLe;
    if keys != [] {
      var n := |keys| - 1;
      var less := Select(keys[..n], wanted);
      SelectKeepsOrder(keys[..n], wanted);
      assert keys == keys[..n] + [keys[n]];
      forall i | 0 <= i < |less| ensures StringLe(less[i], keys[n]) && less[i] != keys[n] {
        assert less[i] in keys[..n];
      }
    }
  }

  /** Keys over their baseline, and the errors: the baseline's own and the keys under it, each in key order. */
  method CheckUnsafe(counts: map<string, int>, baseline: Option<UnsafeBaseline>, digest: Digest)
    returns (creep: seq<string>, errors: seq<Error>)
    ensures baseline.None? ==> creep == [] && errors == [NoBaseline]
    ensures baseline.Some? ==> Lists(creep, Creeps(counts, baseline.value.counts)) && AllErrors(errors, counts, baseline.value, digest)
  {
    hide Over, StringLe, Select, Lists, OwnErrors;
    if baseline.None? { return [], [NoBaseline]; }
    var accepted := baseline.value.counts;
    var own := Errors(baseline.value, digest);
    errors := own;
    var keys := SortedKeys(counts.Keys + accepted.Keys);
    creep := [];
    ghost var above, below := Creeps(counts, accepted), Drifts(counts, accepted);
    SelectNothing(above);
    SelectNothing(below);
    for i := 0 to |keys|
      invariant creep == Select(keys[..i], above) && errors == own + Each(Select(keys[..i], below), k => Slack(k))
    {
      SelectStep(keys, i, above);
      SelectStep(keys, i, below);
      var over := Over(counts, accepted, keys[i]);
      if over > 0 {
        creep := creep + [keys[i]];
      } else if over < 0 {
        errors := errors + [Slack(keys[i])];
      }
    }
    assert keys[..|keys|] == keys;
    SelectsAll(keys, counts, accepted, above);
    SelectsAll(keys, counts, accepted, below);
  }

  lemma SelectNothing(wanted: string -> bool)
    ensures Select([], wanted) == []
  {}

  lemma SelectStep(keys: seq<string>, i: nat, wanted: string -> bool)
    requires i < |keys|
    ensures Select(keys[..i + 1], wanted) == Select(keys[..i], wanted) + (if wanted(keys[i]) then [keys[i]] else [])
  {
    assert keys[..i + 1][..i] == keys[..i];
  }

  /** A key that neither side mentions is neither over nor under, nor negative. */
  lemma SelectsAll(keys: seq<string>, counts: map<string, int>, baseline: map<string, int>, wanted: string -> bool)
    requires Ascending(keys, StringLe) && Distinct(keys) && forall k :: k in keys <==> k in counts.Keys + baseline.Keys
    requires wanted == Creeps(counts, baseline) || wanted == Drifts(counts, baseline) || wanted == Negatives(baseline)
    ensures Lists(Select(keys, wanted), wanted)
  {
    hide StringLe, Select;
    SelectKeepsOrder(keys, wanted);
  }

  // -- the location view ----------------------------------------------------

  /** The findings beyond the baseline: those with at least the accepted number of the same key before them. */
  function Beyond(findings: seq<Finding>, baseline: map<string, int>): seq<Finding> {
    if findings == [] then [] else
    var n := |findings| - 1;
    Beyond(findings[..n], baseline)
    + (if Count(findings[..n], KeyOf(findings[n])) >= Lookup(baseline, KeyOf(findings[n])) then [findings[n]] else [])
  }

  function Positive(n: int): nat { if n > 0 then n else 0 }

  /** What is left of the baseline after `seen`. */
  ghost predicate Left(remaining: map<string, int>, baseline: map<string, int>, seen: seq<Finding>) {
    forall k :: Lookup(remaining, k) == Positive(Lookup(baseline, k) - Count(seen, k))
  }

  lemma Opening(baseline: map<string, int>)
    ensures Left(map k | k in baseline && baseline[k] > 0 :: baseline[k], baseline, [])
  {}

  /** A finding is accepted while its key has some left, that is while fewer than accepted came before it. */
  lemma Spend(remaining: map<string, int>, baseline: map<string, int>, seen: seq<Finding>, f: Finding)
    requires Left(remaining, baseline, seen)
    ensures Lookup(remaining, KeyOf(f)) > 0 ==>
              KeyOf(f) in remaining && Left(remaining[KeyOf(f) := remaining[KeyOf(f)] - 1], baseline, seen + [f])
    ensures Lookup(remaining, KeyOf(f)) <= 0 ==> Left(remaining, baseline, seen + [f])
    ensures Lookup(remaining, KeyOf(f)) > 0 <==> Count(seen, KeyOf(f)) < Lookup(baseline, KeyOf(f))
  {
    hide KeyOf, Count;
    forall k ensures Count(seen + [f], k) == Count(seen, k) + (if KeyOf(f) == k then 1 else 0) {
      CountOneMore(seen, f, k);
    }
  }

  /** `exceedances`: spends the baseline finding by finding. */
  method Exceedances(findings: seq<Finding>, baseline: map<string, int>) returns (beyond: seq<Finding>)
    ensures beyond == Beyond(findings, baseline)
  {
    hide KeyOf, Count, Lookup, Left;
    Opening(baseline);
    var remaining := map k | k in baseline && baseline[k] > 0 :: baseline[k];
    beyond := [];
    for i := 0 to |findings|
      invariant beyond == Beyond(findings[..i], baseline)
      invariant Left(remaining, baseline, findings[..i])
    {
      assert findings[..i + 1][..i] == findings[..i] && findings[..i + 1] == findings[..i] + [findings[i]];
      Spend(remaining, baseline, findings[..i], findings[i]);
      var key := KeyOf(findings[i]);
      if Lookup(remaining, key) > 0 {
        remaining := remaining[key := remaining[key] - 1];
      } else {
        beyond := beyond + [findings[i]];
      }
    }
    assert findings[..|findings|] == findings;
  }

  /** Exactly the excess of every key is reported. */
  lemma {:induction false} ExcessPerKey(findings: seq<Finding>, baseline: map<string, int>, key: string)
    ensures Count(Beyond(findings, baseline), key) == Positive(Count(findings, key) - Positive(Lookup(baseline, key)))
  {
    hide KeyOf, Lookup;
    if findings != [] {
      var n := |findings| - 1;
      ExcessPerKey(findings[..n], baseline, key);
      CountOneMore(Beyond(findings[..n], baseline), findings[n], key);
      assert Beyond(findings[..n], baseline) + [] == Beyond(findings[..n], baseline);
    }
  }

  function OfKey(findings: seq<Finding>, key: string): seq<Finding> {
    if findings == [] then [] else
    OfKey(findings[..|findings| - 1], key) + (if KeyOf(findings[|findings| - 1]) == key then [findings[|findings| - 1]] else [])
  }

  lemma OfKeyOneMore(findings: seq<Finding>, f: Finding, key: string)
    ensures OfKey(findings + [f], key) == OfKey(findings, key) + (if KeyOf(f) == key then [f] else [])
  {
    assert (findings + [f])[..|findings|] == findings;
  }

  /** And it is the last ones in scan order: the accepted ones come first. */
  lemma {:induction false} LastOnesOfKey(findings: seq<Finding>, baseline: map<string, int>, key: string)
    ensures |OfKey(findings, key)| == Count(findings, key)
    ensures OfKey(Beyond(findings, baseline), key) == Drop(OfKey(findings, key), Positive(Lookup(baseline, key)))
  {
    hide KeyOf, Lookup, Drop;
    if findings == [] {
      DropNothing(Positive(Lookup(baseline, key)));
    } else {
      var n := |findings| - 1;
      LastOnesOfKey(findings[..n], baseline, key);
      DropOneMore(OfKey(findings[..n], key), findings[n], Positive(Lookup(baseline, key)));
      OfKeyOneMore(Beyond(findings[..n], baseline), findings[n], key);
      OfKeyOneMore(findings[..n], findings[n], key);
      assert findings[..n] + [findings[n]] == findings;
      assert Beyond(findings[..n], baseline) + [] == Beyond(findings[..n], baseline);
      if KeyOf(findings[n]) != key {
        assert OfKey(findings, key) == OfKey(findings[..n], key);
      }
    }
  }

  lemma DropNothing(n: nat)
    ensures Drop([], n) == []
  {}

  lemma DropOneMore(s: seq<Finding>, f: Finding, n: nat)
    ensures Drop(s + [f], n) == Drop(s, n) + (if |s| >= n then [f] else [])
  {}

  function Drop(s: seq<Finding>, n: nat): seq<Finding> { if n <= |s| then s[n..] else [] }

  // -- the two views --------------------------------------------------------

  ghost predicate NonNegative(baseline: map<string, int>) {
    forall k | k in baseline :: baseline[k] >= 0
  }

  ghost predicate NoCreep(findings: seq<Finding>, baseline: map<string, int>) {
    forall k :: Count(findings, k) <= Lookup(baseline, k)
  }

  lemma CountInside(findings: seq<Finding>, i: nat)
    requires i < |findings|
    ensures Count(findings, KeyOf(findings[i])) > 0
  {
    if i < |findings| - 1 {
      CountInside(findings[..|findings| - 1], i);
    }
  }

  /** The counts show no creep if and only if nothing is located beyond the baseline
      and no entry of the baseline is negative. */
  lemma ViewsAgreeExactly(findings: seq<Finding>, baseline: map<string, int>)
    ensures NoCreep(findings, baseline) <==> Beyond(findings, baseline) == [] && NonNegative(baseline)
  {
    var beyond := Beyond(findings, baseline);
    forall k ensures Count(beyond, k) == Positive(Count(findings, k) - Positive(Lookup(baseline, k))) {
      ExcessPerKey(findings, baseline, k);
    }
    if beyond != [] {
      CountInside(beyond, 0);
      var k := KeyOf(beyond[0]);
      assert Count(findings, k) > Lookup(baseline, k);
    }
    if NoCreep(findings, baseline) {
      forall k | k in baseline ensures baseline[k] >= 0 {
        assert Count(findings, k) <= Lookup(baseline, k);
      }
    }
  }

  /** With a negative entry they part: nothing is located, and the count view still reports creep. */
  lemma NegativeEntryParts()
    ensures var baseline := map["R:f" := -1];
            Beyond([], baseline) == [] && !NoCreep([], baseline) && Over(map[], baseline, "R:f") > 0
  {
    assert Count([], "R:f") > Lookup(map["R:f" := -1], "R:f");
  }

  /** The gate is clean if and only if an approved baseline agrees with the counts on every key; a negative
      entry never passes, and nothing is then located beyond the baseline. */
  method Gate(findings: seq<Finding>, baseline: Option<UnsafeBaseline>, digest: Digest) returns (clean: bool)
    ensures clean <==> && baseline.Some? && Approved(baseline.value, digest)
                       && forall k :: Count(findings, k) == Lookup(baseline.value.counts, k)
    ensures clean ==> NonNegative(baseline.value.counts) && Beyond(findings, baseline.value.counts) == []
  {
    var counts := UnsafeCounts(findings);
    var creep, errors := CheckUnsafe(counts, baseline, digest);
    clean := creep == [] && errors == [];
    if baseline.Some? {
      EmptyLists(counts, baseline.value, digest, creep, errors);
      ViewsAgreeExactly(findings, baseline.value.counts);
    }
  }

  lemma EmptyLists(counts: map<string, int>, b: UnsafeBaseline, digest: Digest, creep: seq<string>, errors: seq<Error>)
    requires Lists(creep, Creeps(counts, b.counts)) && AllErrors(errors, counts, b, digest)
    requires forall k :: Lookup(counts, k) >= 0
    ensures creep == [] && errors == [] <==> Approved(b, digest) && forall k :: Lookup(counts, k) == Lookup(b.counts, k)
  {
    var own, slack :| OwnErrors(own, b, digest) && Lists(slack, Drifts(counts, b.counts)) && errors == own + Each(slack, k => Slack(k));
    var negatives :| Lists(negatives, Negatives(b.counts)) && own == ApprovalErrors(b, digest) + Each(negatives, k => Negative(k));
    if creep != [] { assert creep[0] in creep; }
    if slack != [] { assert slack[0] in slack; }
    if negatives != [] { assert negatives[0] in negatives; }
    if creep == [] && errors == [] {
      forall k ensures Lookup(counts, k) == Lookup(b.counts, k) {
        assert k !in creep && k !in slack;
      }
    }
  }

  // -- allowlisted pairs ----------------------------------------------------

  /** `str.partition(":")`: what precedes and what follows the first colon. */
  function Rule(key: string): string {
    if key == "" || key[0] == ':' then "" else [key[0]] + Rule(key[1..])
  }

  function Path(key: string): string {
    if key == "" then "" else if key[0] == ':' then key[1..] else Path(key[1..])
  }

  /** A key gives back the rule and path it was made of exactly when the rule has no colon. */
  lemma {:induction false} PartitionExactly(id: string, path: string)
    ensures Rule(id + ":" + path) == id && Path(id + ":" + path) == path <==> ':' !in id
  {
    var key := id + ":" + path;
    if id == "" {
      assert key[1..] == path;
    } else if id[0] == ':' {
      assert Rule(key) == "";
    } else {
      assert key[1..] == id[1..] + ":" + path;
      PartitionExactly(id[1..], path);
      assert id == [id[0]] + id[1..];
    }
  }

  /** `filter_allowlisted`: the findings no entry covers. */
  function New(findings: seq<Finding>, covers: Allowlist): seq<Finding> {
    if findings == [] then [] else
    var last := findings[|findings| - 1];
    New(findings[..|findings| - 1], covers) + (if covers(last.id, last.path) then [] else [last])
  }

  /** `effective_baseline`: the counts no entry covers. */
  function Effective(baseline: map<string, int>, covers: Allowlist): map<string, int> {
    map k | k in baseline && !covers(Rule(k), Path(k)) :: baseline[k]
  }

  lemma {:induction false} NewPerKey(findings: seq<Finding>, covers: Allowlist, key: string)
    requires forall i | 0 <= i < |findings| :: ':' !in findings[i].id
    ensures Count(New(findings, covers), key) == if covers(Rule(key), Path(key)) then 0 else Count(findings, key)
  {
    hide Rule, Path, KeyOf;
    if findings != [] {
      var n := |findings| - 1;
      NewPerKey(findings[..n], covers, key);
      RuleAndPath(findings[n]);
      CountOneMore(New(findings[..n], covers), findings[n], key);
      assert New(findings[..n], covers) + [] == New(findings[..n], covers);
    }
  }

  lemma RuleAndPath(f: Finding)
    requires ':' !in f.id
    ensures Rule(KeyOf(f)) == f.id && Path(KeyOf(f)) == f.path
  {
    PartitionExactly(f.id, f.path);
  }

  /** An allowlisted pair leaves both sides of the comparison, and no other pair moves. */
  lemma ScopedOutTogether(findings: seq<Finding>, baseline: map<string, int>, covers: Allowlist, key: string)
    requires forall i | 0 <= i < |findings| :: ':' !in findings[i].id
    ensures var out := covers(Rule(key), Path(key));
            && Count(New(findings, covers), key) == (if out then 0 else Count(findings, key))
            && Lookup(Effective(baseline, covers), key) == (if out then 0 else Lookup(baseline, key))
  {
    NewPerKey(findings, covers, key);
  }
}
