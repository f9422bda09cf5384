/** What the recomputed column of an aggregate is, in terms of the tables it is derived from. */
module Recomputes {
  import opened Options
  import opened Authenticity
  import opened Store
  import opened Medians
  import Sorting
  import Gaps

  /** The row at `j` is an earlier submission of the asset by the source. */
  ghost predicate Earlier(submissions: map<Key, Submission>, asset: string, source: string, at: Key, j: Key) {
    && j in submissions && submissions[j].asset == asset && submissions[j].source == source
    && (j.ledger < at.ledger || (j.ledger == at.ledger && j.index < at.index))
  }

  ghost predicate Removed(sources: map<string, Source>, source: string, ledger: int) {
    source in sources && sources[source].removed.Some? && sources[source].removed.value <= ledger
  }

  /** `price` is that of the source's last earlier row of the asset. */
  ghost predicate LastPrice(submissions: map<Key, Submission>, asset: string, source: string, at: Key, price: int) {
    exists j :: Earlier(submissions, asset, source, at, j) && submissions[j].price == price
      && forall i | Earlier(submissions, asset, source, at, i) && i != j ::
           i.ledger < j.ledger || (i.ledger == j.ledger && i.index < j.index)
  }

  /** One price for each source that has an earlier row of the asset and is not removed by then: its last. */
  ghost predicate PricesOf(names: seq<string>, prices: seq<int>, submissions: map<Key, Submission>, sources: map<string, Source>,
                           asset: string, at: Key) {
    && |names| == |prices| && Sorting.Distinct(names)
    && (forall x :: x in names <==> !Removed(sources, x, at.ledger) && exists j :: Earlier(submissions, asset, x, at, j))
    && forall i | 0 <= i < |names| :: LastPrice(submissions, asset, names[i], at, prices[i])
  }

  /** The recomputed column is the median of such prices. */
  ghost predicate Derived(a: Aggregate, at: Key, submissions: map<Key, Submission>, sources: map<string, Source>) {
    exists names, prices :: PricesOf(names, prices, submissions, sources, a.asset, at) && a.recomputed == Median(prices)
  }

  // -- the rows in order ----------------------------------------------------

  lemma {:induction false} InOrderLists(ks: set<Key>)
    ensures forall k :: k in InOrder(ks) <==> k in ks
    ensures forall i, j | 0 <= i < j < |InOrder(ks)| :: Before(InOrder(ks)[i], InOrder(ks)[j])
    decreases |ks|
  {
    if ks != {} {
      var f := First(ks);
      InOrderLists(ks - {f});
      assert forall k | k in ks - {f} :: Before(f, k);
    }
  }

  /** Whose price each of `LastPerSource` is. */
  function LastSources(rows: seq<Submission>): seq<string> {
    if rows == [] then []
    else if exists j | 1 <= j < |rows| :: rows[j].source == rows[0].source then LastSources(rows[1..])
    else [rows[0].source] + LastSources(rows[1..])
  }

  ghost predicate LastRow(rows: seq<Submission>, source: string, price: int, n: nat) {
    n < |rows| && rows[n].source == source && rows[n].price == price && forall m | n < m < |rows| :: rows[m].source != source
  }

  ghost predicate HasLast(rows: seq<Submission>, source: string, price: int) {
    exists n: nat :: LastRow(rows, source, price, n)
  }

  /** Some row is of the source. */
  ghost predicate Occurs(rows: seq<Submission>, source: string) { exists n :: 0 <= n < |rows| && rows[n].source == source }

  lemma OccursIn(rows: seq<Submission>, source: string)
    requires rows != []
    ensures Occurs(rows, source) <==> rows[0].source == source || Occurs(rows[1..], source)
    ensures Occurs(rows[1..], rows[0].source) <==> exists j | 1 <= j < |rows| :: rows[j].source == rows[0].source
  {
    forall n | 0 <= n < |rows| - 1 ensures rows[1..][n] == rows[n + 1] {}
    if n :| 0 <= n < |rows| && rows[n].source == source {
      assert n > 0 ==> rows[1..][n - 1].source == source;
    }
    if n :| 0 <= n < |rows[1..]| && rows[1..][n].source == source {
      assert rows[n + 1].source == source;
    }
    if j :| 1 <= j < |rows| && rows[j].source == rows[0].source {
      assert rows[1..][j - 1].source == rows[0].source;
    }
  }

  lemma LastCarries(rows: seq<Submission>, source: string, price: int)
    requires rows != [] && HasLast(rows[1..], source, price)
    ensures HasLast(rows, source, price)
  {
    var n: nat :| LastRow(rows[1..], source, price, n);
    forall m | n + 1 < m < |rows| ensures rows[m].source != source {
      assert rows[m] == rows[1..][m - 1];
    }
    assert LastRow(rows, source, price, n + 1);
  }

  lemma FirstIsLast(rows: seq<Submission>)
    requires rows != [] && !Occurs(rows[1..], rows[0].source)
    ensures HasLast(rows, rows[0].source, rows[0].price)
  {
    forall m | 0 < m < |rows| ensures rows[m].source != rows[0].source {
      assert rows[m] == rows[1..][m - 1];
    }
    assert LastRow(rows, rows[0].source, rows[0].price, 0);
  }

  lemma {:induction false} LastSourcesTell(rows: seq<Submission>)
    ensures Sorting.Distinct(LastSources(rows)) && forall x :: x in LastSources(rows) <==> Occurs(rows, x)
  {
    if rows != [] {
      LastSourcesTell(rows[1..]);
      forall x ensures Occurs(rows, x) <==> rows[0].source == x || Occurs(rows[1..], x) {
        OccursIn(rows, x);
      }
      OccursIn(rows, rows[0].source);
      hide Occurs;
    }
  }

  lemma {:induction false} LastPerSourceTells(rows: seq<Submission>)
    ensures |LastSources(rows)| == |LastPerSource(rows)|
    ensures forall i | 0 <= i < |LastSources(rows)| :: HasLast(rows, LastSources(rows)[i], LastPerSource(rows)[i])
  {
    if rows != [] {
      var rest := rows[1..];
      LastPerSourceTells(rest);
      OccursIn(rows, rows[0].source);
      hide Occurs, HasLast;
      forall i | 0 <= i < |LastSources(rest)| ensures HasLast(rows, LastSources(rest)[i], LastPerSource(rest)[i]) {
        LastCarries(rows, LastSources(rest)[i], LastPerSource(rest)[i]);
      }
      if !Occurs(rest, rows[0].source) {
        FirstIsLast(rows);
      }
    }
  }

  // -- the feeding rows -----------------------------------------------------

  lemma LatestPricesTell(submissions: map<Key, Submission>, sources: map<string, Source>, asset: string, at: Key)
    ensures var rows := RowsOf(submissions, FeedingKeys(submissions, sources, asset, at));
            PricesOf(LastSources(rows), LatestPrices(submissions, sources, asset, at), submissions, sources, asset, at)
  {
    hide InOrder, LastPerSource, LastSources;
    var ks := FeedingKeys(submissions, sources, asset, at);
    var order, rows := InOrder(ks), RowsOf(submissions, ks);
    var names, prices := LastSources(rows), LastPerSource(rows);
    InOrderLists(ks);
    LastSourcesTell(rows);
    LastPerSourceTells(rows);
    forall k ensures k in ks <==> k in submissions && Earlier(submissions, asset, submissions[k].source, at, k)
                                  && !Removed(sources, submissions[k].source, at.ledger) {}
    forall x ensures x in names <==> !Removed(sources, x, at.ledger) && exists j :: Earlier(submissions, asset, x, at, j) {
      if x in names {
        assert Occurs(rows, x);
        var n :| 0 <= n < |rows| && rows[n].source == x;
        assert order[n] in ks && Earlier(submissions, asset, x, at, order[n]);
      }
      if j :| Earlier(submissions, asset, x, at, j) && !Removed(sources, x, at.ledger) {
        assert j in ks;
        var n :| 0 <= n < |order| && order[n] == j;
        assert rows[n].source == x && Occurs(rows, x);
      }
    }
    forall i | 0 <= i < |names| ensures LastPrice(submissions, asset, names[i], at, prices[i]) {
      assert HasLast(rows, names[i], prices[i]);
      var n: nat :| LastRow(rows, names[i], prices[i], n);
      var j := order[n];
      assert j in ks && Earlier(submissions, asset, names[i], at, j);
      forall k | Earlier(submissions, asset, names[i], at, k) && k != j ensures Before(k, j) {
        assert k in ks;
        var m :| 0 <= m < |order| && order[m] == k;
        assert rows[m].source == names[i];
      }
    }
  }

  // -- every row of a run ---------------------------------------------------

  /** A written aggregate is the median of such prices over the tables as they stand, before and after. */
  lemma WriteDerives(s: Store, e: Event)
    requires Write(s, e).1.Added? && e.topic == "price_aggregated"
    ensures var (t, k) := (Write(s, e).0, Key(e.ledger, e.index));
            && t.submissions == s.submissions && t.sources == s.sources
            && k in t.aggregates && t.aggregates == s.aggregates[k := t.aggregates[k]]
            && Derived(t.aggregates[k], k, s.submissions, s.sources)
  {
    hide LatestPrices, Median, PricesOf, CloseGapAt;
    assert "price_aggregated" != "price_submitted" && "price_aggregated"[0] != "source_added"[0] == "source_removed"[0] by {
      assert |"price_aggregated"| == 16 && |"price_submitted"| == 15;
    }
    var k := Key(e.ledger, e.index);
    LatestPricesTell(s.submissions, s.sources, e.data.asset.GetOr(""), k);
    var rows := RowsOf(s.submissions, FeedingKeys(s.submissions, s.sources, e.data.asset.GetOr(""), k));
    var a := Write(s, e).0.aggregates[k];
    assert a.asset == e.data.asset.GetOr("") && a.recomputed == Median(LatestPrices(s.submissions, s.sources, a.asset, k));
    assert PricesOf(LastSources(rows), LatestPrices(s.submissions, s.sources, a.asset, k), s.submissions, s.sources, a.asset, k);
  }

  /** Every aggregate of `t` was there before or derives from the submissions and sources of `t`. */
  ghost predicate NewOnesDerive(s: Store, t: Store) {
    forall k | k in t.aggregates ::
      (k in s.aggregates && t.aggregates[k] == s.aggregates[k]) || Derived(t.aggregates[k], k, t.submissions, t.sources)
  }

  lemma WriteOthers(s: Store, e: Event)
    requires !(Write(s, e).1.Added? && e.topic == "price_aggregated")
    ensures Write(s, e).0.aggregates == s.aggregates
  {
    hide CloseGapAt, LatestPrices;
  }

  lemma AcceptDerives(s: Store, e: Event, allowGaps: bool)
    ensures NewOnesDerive(s, Accept(s, e, allowGaps).0)
  {
    hide Write, Derived;
    if Write(s, e).1.Added? && e.topic == "price_aggregated" {
      WriteDerives(s, e);
    } else {
      WriteOthers(s, e);
    }
  }

  lemma StepDerives(s: Store, policy: Policy, row: Raw, index: int, allowGaps: bool)
    ensures NewOnesDerive(s, IngestOne(s, policy, row, index, allowGaps).0)
  {
    hide VerifyEvent, CloseTimeFor, Accept, ForkInBatch, Derived, StoredHash, MaxLedger;
    match VerifyEvent(row, policy, s.contractId, CloseTimeFor(s.events, row), index)
    case Refused(_) =>
    case Verified(e) =>
      AcceptDerives(AfterHashCheck(Pin(s, e), e), e, allowGaps);
  }

  /** The stores a batch goes through, row by row, and those a run of batches and rollbacks goes through. */
  ghost function RowTrail(s: Store, policy: Policy, rows: seq<Raw>, counters: map<Option<int>, int>, allowGaps: bool): (r: seq<Store>)
    decreases |rows|
  {
    if rows == [] then [s] else
    var (s1, o) := IngestOne(s, policy, rows[0], Numbered(counters, rows[0]), allowGaps);
    [s] + (if o.Added? || o.Replayed? then RowTrail(s1, policy, rows[1..], Bump(counters, rows[0]), allowGaps) else [s1])
  }

  ghost function Trail(s: Store, policy: Policy, ops: seq<Gaps.Op>): (r: seq<Store>)
    decreases |ops|
  {
    if ops == [] then [s] else
    match ops[0]
    case RolledBack(l) => [s] + Trail(RollbackTo(s, l), policy, ops[1..])
    case Ingested(rows, allowGaps) =>
      var s0 := s.(batchHash := None);
      [s] + RowTrail(s0, policy, rows, map[], allowGaps)
      + Trail(IngestRows(s0, policy, rows, map[], allowGaps).0, policy, ops[1..])
  }

  /** Every aggregate of `t` derives from the submissions and sources of some store of the trail that holds it. */
  ghost predicate AllDerive(t: Store, trail: seq<Store>) {
    forall k | k in t.aggregates :: exists u | u in trail :: DerivedIn(u, k, t.aggregates[k])
  }

  ghost predicate DerivedIn(u: Store, k: Key, a: Aggregate) {
    k in u.aggregates && u.aggregates[k] == a && Derived(a, k, u.submissions, u.sources)
  }

  lemma DeriveOnward(s: Store, t: Store, past: seq<Store>, more: seq<Store>)
    requires AllDerive(s, past) && NewOnesDerive(s, t) && t in more
    ensures AllDerive(t, past + more)
  {
    hide Derived;
    forall k | k in t.aggregates ensures exists u | u in past + more :: DerivedIn(u, k, t.aggregates[k]) {
      if k in s.aggregates && t.aggregates[k] == s.aggregates[k] {
        var u :| u in past && DerivedIn(u, k, s.aggregates[k]);
        assert u in past + more;
      } else {
        assert t in past + more && DerivedIn(t, k, t.aggregates[k]);
      }
    }
  }

  lemma {:induction false} RowsDerive(s: Store, policy: Policy, rows: seq<Raw>, counters: map<Option<int>, int>, allowGaps: bool, past: seq<Store>)
    requires AllDerive(s, past)
    ensures AllDerive(IngestRows(s, policy, rows, counters, allowGaps).0, past + RowTrail(s, policy, rows, counters, allowGaps))
    decreases |rows|
  {
    hide IngestOne, AllDerive;
    if rows == [] {
      DeriveOnward(s, s, past, [s]) by { Unchanged(s); }
    } else {
      var i := Numbered(counters, rows[0]);
      var (s1, o) := IngestOne(s, policy, rows[0], i, allowGaps);
      StepDerives(s, policy, rows[0], i, allowGaps);
      if o.Added? || o.Replayed? {
        var rest := RowTrail(s1, policy, rows[1..], Bump(counters, rows[0]), allowGaps);
        DeriveOnward(s, s1, past, [s, s1]);
        RowsDerive(s1, policy, rows[1..], Bump(counters, rows[0]), allowGaps, past + [s, s1]);
        assert rest[0] == s1;
        SameStores(IngestRows(s1, policy, rows[1..], Bump(counters, rows[0]), allowGaps).0, past + [s, s1] + rest, past + ([s] + rest));
      } else {
        DeriveOnward(s, s1, past, [s, s1]);
        assert [s] + [s1] == [s, s1];
      }
    }
  }

  lemma Unchanged(s: Store)
    ensures NewOnesDerive(s, s)
  {}

  lemma SameStores(t: Store, a: seq<Store>, b: seq<Store>)
    requires AllDerive(t, a) && forall u | u in a :: u in b
    ensures AllDerive(t, b)
  {
    hide Derived;
  }

  lemma RollbackDerives(s: Store, ledger: int, past: seq<Store>)
    requires AllDerive(s, past)
    ensures AllDerive(RollbackTo(s, ledger), past)
  {
    hide Derived, MaxLedger;
    forall k | k in RollbackTo(s, ledger).aggregates
      ensures exists u | u in past :: DerivedIn(u, k, RollbackTo(s, ledger).aggregates[k])
    {
      assert k in s.aggregates && RollbackTo(s, ledger).aggregates[k] == s.aggregates[k];
    }
  }

  lemma {:induction false} RunDerives(s: Store, policy: Policy, ops: seq<Gaps.Op>, origin: int, past: seq<Store>)
    requires AllDerive(s, past)
    ensures AllDerive(Gaps.Run(s, policy, ops, origin).0, past + Trail(s, policy, ops))
    decreases |ops|
  {
    hide IngestRows, Gaps.Rows, RowTrail, AllDerive;
    if ops == [] {
      SameStores(s, past, past + [s]);
    } else {
      match ops[0]
      case RolledBack(l) =>
        RollbackDerives(s, l, past);
        RunDerives(RollbackTo(s, l), policy, ops[1..], origin, past);
        SameStores(Gaps.Run(RollbackTo(s, l), policy, ops[1..], origin).0, past + Trail(RollbackTo(s, l), policy, ops[1..]), past + Trail(s, policy, ops));
      case Ingested(rows, allowGaps) =>
        var s0 := s.(batchHash := None);
        MarkerDerives(s, past);
        RowsDerive(s0, policy, rows, map[], allowGaps, past);
        Gaps.RowsIsIngest(s0, policy, rows, map[], allowGaps, origin);
        var (s1, origin1, _) := Gaps.Rows(s0, policy, rows, map[], allowGaps, origin);
        var trail := RowTrail(s0, policy, rows, map[], allowGaps);
        RunDerives(s1, policy, ops[1..], origin1, past + trail);
        SameStores(Gaps.Run(s1, policy, ops[1..], origin1).0, past + trail + Trail(s1, policy, ops[1..]), past + Trail(s, policy, ops));
    }
  }

  lemma MarkerDerives(s: Store, past: seq<Store>)
    requires AllDerive(s, past)
    ensures AllDerive(s.(batchHash := None), past)
  {}

  /** In every state any run reaches from an empty store, the recomputed column of every aggregate is the median,
      over the tables as they stood at some point of the run with that aggregate in them, of the last earlier
      price of each source that has one for the asset and was not removed by its ledger. */
  lemma AlwaysDerived(policy: Policy, ops: seq<Gaps.Op>, origin: int)
    ensures AllDerive(Gaps.Run(Empty(policy), policy, ops, origin).0, Trail(Empty(policy), policy, ops))
  {
    hide Gaps.Run, Trail;
    RunDerives(Empty(policy), policy, ops, origin, []);
    assert [] + Trail(Empty(policy), policy, ops) == Trail(Empty(policy), policy, ops);
  }
}
