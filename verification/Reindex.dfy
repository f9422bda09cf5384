/** A reorganised store against one indexed from scratch. */
module Reindex {
  import opened Options
  import opened Authenticity
  import opened Store
  import opened Reorg
  import Resume

  // -- the surviving prefix -------------------------------------------------

  ghost predicate RowsBelow(rows: seq<Raw>, keep: int) {
    forall i | 0 <= i < |rows| :: rows[i].Ledger().Some? && rows[i].Ledger().value <= keep
  }

  lemma RollbackStaysLow(s: Store, l: int, keep: int)
    requires Low(s, keep)
    ensures Low(RollbackTo(s, l), keep)
  {}

  lemma MaterializeStaysLow(s: Store, e: Event, keep: int)
    requires Low(s, keep) && e.ledger <= keep
    ensures Materialize(s, e).Some? ==> Low(Materialize(s, e).value, keep)
  {
    hide LatestPrices;
  }

  lemma WriteStaysLow(s: Store, e: Event, keep: int)
    requires Low(s, keep) && e.ledger <= keep
    ensures Write(s, e).1.Added? ==> Low(Write(s, e).0, keep)
  {
    hide Materialize, CloseGapAt, WithJump;
    MaterializeStaysLow(s.(gaps := CloseGapAt(WithJump(s, e), e.ledger), events := s.events[Key(e.ledger, e.index) := e]), e, keep);
  }

  lemma LowByTables(s: Store, t: Store, keep: int)
    requires Low(s, keep) && SameTables(s, t)
    ensures Low(t, keep)
  {}

  lemma StepStaysLow(s: Store, policy: Policy, keep: int, row: Raw, index: int, allowGaps: bool)
    requires Low(s, keep) && row.Ledger().Some? && row.Ledger().value <= keep
    requires Taken(IngestOne(s, policy, row, index, allowGaps).1)
    ensures Low(IngestOne(s, policy, row, index, allowGaps).0, keep)
  {
    hide VerifyEvent, Write, CloseTimeFor, HashConflict, RollbackTo, Low, LastCloseTime, StoredHash, MaxLedger;
    assert Carried(s, policy, row, index).Verified?;
    CarriedFacts(s, policy, row, index);
    var e := Carried(s, policy, row, index).event;
    var s1 := Pin(s, e);
    var s2 := AfterHashCheck(s1, e);
    LowByTables(s, s1, keep);
    if HashConflict(s1, e) {
      ConflictIsSome(s1, e);
      LowByTables(s1, s1.(reorgs := s1.reorgs + [(e.ledger, StoredHash(s1.events, e.ledger).value, e.hash.value)]), keep);
      RollbackStaysLow(s1.(reorgs := s1.reorgs + [(e.ledger, StoredHash(s1.events, e.ledger).value, e.hash.value)]), e.ledger - 1, keep);
    }
    assert Low(s2, keep);
    WriteStaysLow(s2, e, keep);
    WriteEffect(s2, e);
  }

  lemma {:induction false} RowsStayLow(s: Store, policy: Policy, keep: int, rows: seq<Raw>, counters: map<Option<int>, int>, allowGaps: bool)
    requires Low(s, keep) && RowsBelow(rows, keep)
    requires IngestRows(s, policy, rows, counters, allowGaps).2.Done?
    ensures Low(IngestRows(s, policy, rows, counters, allowGaps).0, keep)
    decreases |rows|
  {
    hide IngestOne, Low;
    if rows != [] {
      var i := Numbered(counters, rows[0]);
      Resume.NeverDone(s, policy, rows[0], i, allowGaps);
      StepStaysLow(s, policy, keep, rows[0], i, allowGaps);
      RowsStayLow(IngestOne(s, policy, rows[0], i, allowGaps).0, policy, keep, rows[1..], Bump(counters, rows[0]), allowGaps);
    }
  }

  lemma AcceptedIsAboveFloor(s: Store, policy: Policy, row: Raw, index: int, allowGaps: bool)
    requires Taken(IngestOne(s, policy, row, index, allowGaps).1)
    ensures row.Ledger().Some? && row.Ledger().value >= policy.minLedger
  {}

  lemma {:induction false} AcceptedAboveFloor(s: Store, policy: Policy, rows: seq<Raw>, counters: map<Option<int>, int>, allowGaps: bool)
    requires IngestRows(s, policy, rows, counters, allowGaps).2.Done?
    ensures RowsAbove(rows, policy.minLedger - 1)
    decreases |rows|
  {
    hide IngestOne;
    if rows != [] {
      var i := Numbered(counters, rows[0]);
      Resume.NeverDone(s, policy, rows[0], i, allowGaps);
      AcceptedIsAboveFloor(s, policy, rows[0], i, allowGaps);
      AcceptedAboveFloor(IngestOne(s, policy, rows[0], i, allowGaps).0, policy, rows[1..], Bump(counters, rows[0]), allowGaps);
    }
  }

  lemma {:induction false} PrefixIsLow(s: Store, policy: Policy, keep: int, batches: seq<seq<Raw>>, allowGaps: bool)
    requires Low(s, keep) && forall i | 0 <= i < |batches| :: RowsBelow(batches[i], keep)
    requires Resume.Feed(s, policy, batches, allowGaps).2
    ensures Low(Resume.Feed(s, policy, batches, allowGaps).0, keep)
    ensures forall i | 0 <= i < |batches| :: RowsAbove(batches[i], policy.minLedger - 1)
    decreases |batches|
  {
    hide IngestRows, RowsAbove;
    if batches != [] {
      RowsStayLow(s.(batchHash := None), policy, keep, batches[0], map[], allowGaps);
      AcceptedAboveFloor(s.(batchHash := None), policy, batches[0], map[], allowGaps);
      PrefixIsLow(Ingest(s, policy, batches[0], allowGaps).0, policy, keep, batches[1..], allowGaps);
    }
  }

  lemma EmptyIsBase(policy: Policy, keep: int)
    ensures Below(Empty(policy), keep) && Sound(Empty(policy), policy)
  {}

  /** Indexing rows at or below `keep` from scratch leaves a store that lies below `keep`. */
  lemma PrefixIsBelow(policy: Policy, keep: int, batches: seq<seq<Raw>>, allowGaps: bool)
    requires forall i | 0 <= i < |batches| :: RowsBelow(batches[i], keep)
    requires Resume.Feed(Empty(policy), policy, batches, allowGaps).2
    ensures var s := Resume.Feed(Empty(policy), policy, batches, allowGaps).0; Below(s, keep) && Sound(s, policy)
  {
    hide Resume.Feed, RowsAbove, RowsBelow, Standing;
    var floor := policy.minLedger - 1;
    EmptyIsBase(policy, keep);
    EmptyIsBase(policy, floor);
    PrefixIsLow(Empty(policy), policy, keep, batches, allowGaps);
    BelowExtendsItself(Empty(policy), policy, floor);
    HistoryExtends(Empty(policy), Empty(policy), policy, floor, batches, allowGaps, true);
  }

  // -- equal views take equal steps -----------------------------------------

  lemma WriteSameView(a: Store, b: Store, e: Event)
    requires SameView(a, b)
    ensures Write(a, e).1 == Write(b, e).1
    ensures Write(a, e).1.Added? ==> SameView(Write(a, e).0, Write(b, e).0)
  {
    hide Materialize, CloseGapAt;
    var a1 := a.(gaps := CloseGapAt(WithJump(a, e), e.ledger), events := a.events[Key(e.ledger, e.index) := e]);
    var b1 := b.(gaps := CloseGapAt(WithJump(b, e), e.ledger), events := b.events[Key(e.ledger, e.index) := e]);
    MaterializeKeeps(a1, e);
    MaterializeKeeps(b1, e);
    MaterializeReads(a1, b1, e);
  }

  lemma AcceptSameView(a: Store, b: Store, e: Event, allowGaps: bool)
    requires SameView(a, b)
    ensures Accept(a, e, allowGaps).1 == Accept(b, e, allowGaps).1
    ensures Taken(Accept(a, e, allowGaps).1) ==> SameView(Accept(a, e, allowGaps).0, Accept(b, e, allowGaps).0)
  {
    hide Write;
    WriteSameView(a, b, e);
    WriteEffect(a, e);
  }

  lemma RollbackSameView(a: Store, b: Store, l: int)
    requires SameView(a, b)
    ensures SameView(RollbackTo(a, l), RollbackTo(b, l))
  {}

  lemma StepSameView(a: Store, b: Store, policy: Policy, row: Raw, index: int, allowGaps: bool)
    requires SameView(a, b)
    requires Taken(IngestOne(a, policy, row, index, allowGaps).1)
    ensures IngestOne(b, policy, row, index, allowGaps).1 == IngestOne(a, policy, row, index, allowGaps).1
    ensures SameView(IngestOne(a, policy, row, index, allowGaps).0, IngestOne(b, policy, row, index, allowGaps).0)
  {
    hide VerifyEvent, Accept, CloseTimeFor, StoredHash, RollbackTo;
    var e := Carried(a, policy, row, index).event;
    var a1, b1 := Pin(a, e), Pin(b, e);
    if HashConflict(a1, e) {
      var la := a1.reorgs + [(e.ledger, StoredHash(a1.events, e.ledger).value, e.hash.value)];
      var lb := b1.reorgs + [(e.ledger, StoredHash(b1.events, e.ledger).value, e.hash.value)];
      RollbackSameView(a1.(reorgs := la), b1.(reorgs := lb), e.ledger - 1);
    }
    AcceptSameView(AfterHashCheck(a1, e), AfterHashCheck(b1, e), e, allowGaps);
  }

  lemma {:induction false} RowsSameView(a: Store, b: Store, policy: Policy, rows: seq<Raw>, counters: map<Option<int>, int>, allowGaps: bool)
    requires SameView(a, b)
    requires IngestRows(a, policy, rows, counters, allowGaps).2.Done?
    ensures var (s, n, _) := IngestRows(a, policy, rows, counters, allowGaps);
            var (t, m, o) := IngestRows(b, policy, rows, counters, allowGaps);
            o.Done? && n == m && SameView(s, t)
    decreases |rows|
  {
    hide IngestOne, SameView;
    if rows != [] {
      var i := Numbered(counters, rows[0]);
      Resume.NeverDone(a, policy, rows[0], i, allowGaps);
      StepSameView(a, b, policy, rows[0], i, allowGaps);
      RowsSameView(IngestOne(a, policy, rows[0], i, allowGaps).0, IngestOne(b, policy, rows[0], i, allowGaps).0,
                   policy, rows[1..], Bump(counters, rows[0]), allowGaps);
    }
  }

  // -- the redelivered ledger -----------------------------------------------

  lemma NothingStoredAbove(s: Store, keep: int, e: Event)
    requires Below(s, keep) && e.ledger > keep
    ensures !HashConflict(s, e)
    ensures AtOrBelow(s.events, e.ledger) == AtOrBelow(s.events, keep)
  {
    assert AtLedger(s.events, e.ledger) == {};
  }

  /** A row verified against the reorganised history verifies against its prefix, as the same event. */
  lemma VerifiesAgain(s: Store, base: Store, policy: Policy, row: Raw, index: int)
    requires Carried(s, policy, row, index).Verified?
    requires var c := CloseTimeFor(base.events, row);
             c.Some? ==> CloseTimeFor(s.events, row).Some? && c.value <= CloseTimeFor(s.events, row).value
    requires base.contractId.Some? ==> base.contractId == s.contractId
    ensures Carried(base, policy, row, index) == Carried(s, policy, row, index)
  {
    hide CloseTimeFor;
  }

  lemma PinsAlike(s: Store, base: Store, policy: Policy, row: Raw, index: int)
    requires Sound(s, policy) && Sound(base, policy)
    requires Carried(s, policy, row, index).Verified?
    requires base.contractId.Some? ==> base.contractId == s.contractId
    ensures var e := Carried(s, policy, row, index).event; Pin(s, e).contractId == Pin(base, e).contractId
  {
    hide CloseTimeFor;
  }

  /** The first redelivered row: after its rollback the reorganised store and the prefix agree. */
  lemma RedeliveryMeetsPrefix(s: Store, base: Store, policy: Policy, keep: int, row: Raw, index: int, allowGaps: bool)
    requires Below(base, keep) && Sound(base, policy)
    requires Extends(s, base, policy, keep) && KeepSources(s.sources, keep) == base.sources
    requires s.batchHash == base.batchHash
    requires Carried(s, policy, row, index).Verified?
    requires var e := Carried(s, policy, row, index).event; e.ledger == keep + 1 && HashConflict(s, e)
    requires Taken(IngestOne(s, policy, row, index, allowGaps).1)
    ensures IngestOne(base, policy, row, index, allowGaps).1 == IngestOne(s, policy, row, index, allowGaps).1
    ensures SameView(IngestOne(s, policy, row, index, allowGaps).0, IngestOne(base, policy, row, index, allowGaps).0)
  {
    hide VerifyEvent, IngestOne, AfterHashCheck, Accept, Pin, LastCloseTime, MaxLedger, HashConflict, Below, NotEarlier;
    var e := Carried(s, policy, row, index).event;
    CarriedFacts(s, policy, row, index);
    CloseTimeAbove(s.events, keep, e.ledger);
    NothingStoredAbove(base, keep, e);
    SameCloseTimeAbove(base, keep, e);
    VerifiesAgain(s, base, policy, row, index);
    PinsAlike(s, base, policy, row, index);
    AcceptsAfterCheck(s, policy, row, index, allowGaps);
    AcceptsAfterCheck(base, policy, row, index, allowGaps);
    PinChangesContract(s, e);
    PinChangesContract(base, e);
    RolledBackView(Pin(s, e), Pin(base, e), keep, e);
    AcceptSameView(AfterHashCheck(Pin(s, e), e), Pin(base, e), e, allowGaps);
  }

  lemma PinChangesContract(s: Store, e: Event)
    ensures Pin(s, e) == s.(contractId := Pin(s, e).contractId)
    ensures HashConflict(Pin(s, e), e) <==> HashConflict(s, e)
    ensures !HashConflict(s, e) ==> AfterHashCheck(Pin(s, e), e) == Pin(s, e)
  {
    hide StoredHash;
  }

  /** A verified row that is no fork inside its batch goes through the hash check to the write path. */
  lemma AcceptsAfterCheck(s: Store, policy: Policy, row: Raw, index: int, allowGaps: bool)
    requires Carried(s, policy, row, index).Verified?
    requires Taken(IngestOne(s, policy, row, index, allowGaps).1) || !HashConflict(s, Carried(s, policy, row, index).event)
    ensures var e := Carried(s, policy, row, index).event;
            IngestOne(s, policy, row, index, allowGaps) == Accept(AfterHashCheck(Pin(s, e), e), e, allowGaps)
  {
    hide VerifyEvent, Accept, AfterHashCheck, StoredHash;
  }

  /** Rolling the reorganised store back to the prefix leaves the prefix's view. */
  lemma RolledBackView(s: Store, base: Store, keep: int, e: Event)
    requires e.ledger == keep + 1 && HashConflict(s, e)
    requires Keep(s.events, keep) == base.events && Keep(s.submissions, keep) == base.submissions
    requires Keep(s.aggregates, keep) == base.aggregates && KeepSources(s.sources, keep) == base.sources
    requires base.cursor == MaxLedger(base.events) && s.contractId == base.contractId && s.batchHash == base.batchHash
    ensures SameView(AfterHashCheck(s, e), base)
  {
    hide Keep, KeepSources, MaxLedger, HashConflict, StoredHash;
  }

  lemma SameCloseTimeAbove(s: Store, keep: int, e: Event)
    requires AtOrBelow(s.events, e.ledger) == AtOrBelow(s.events, keep)
    ensures LastCloseTime(s.events, e.ledger) == LastCloseTime(s.events, keep)
  {}

  // -- batches that replay, redeliver and replace ---------------------------

  /** `s` is what a history above `keep` made of `base`, which a rollback to `keep` brings back. */
  ghost predicate Restorable(s: Store, base: Store, policy: Policy, keep: int) {
    && Below(base, keep) && Sound(base, policy)
    && Extends(s, base, policy, keep) && KeepSources(s.sources, keep) == base.sources
  }

  lemma Unmarked(s: Store, base: Store, policy: Policy, keep: int)
    requires Restorable(s, base, policy, keep)
    ensures Restorable(s.(batchHash := None), base.(batchHash := None), policy, keep)
  {}

  /** The row is accepted as an event of `ledger` whose hash contradicts the stored one. */
  ghost predicate Redelivers(s: Store, policy: Policy, row: Raw, index: int, ledger: int) {
    var v := Carried(s, policy, row, index);
    v.Verified? && v.event.ledger == ledger && HashConflict(s, v.event)
  }

  /** The row is below `ledger` and the store has it already. */
  ghost predicate Replays(s: Store, policy: Policy, row: Raw, index: int, allowGaps: bool, ledger: int) {
    row.Ledger().Some? && row.Ledger().value < ledger && IngestOne(s, policy, row, index, allowGaps).1.Replayed?
  }

  /** Every row is a replay from below `ledger`. */
  ghost predicate OnlyReplays(s: Store, policy: Policy, rows: seq<Raw>, counters: map<Option<int>, int>, allowGaps: bool, ledger: int)
    decreases |rows|
  {
    rows == [] || (
      var i := Numbered(counters, rows[0]);
      && Replays(s, policy, rows[0], i, allowGaps, ledger)
      && OnlyReplays(IngestOne(s, policy, rows[0], i, allowGaps).0, policy, rows[1..], Bump(counters, rows[0]), allowGaps, ledger))
  }

  /** After some replays from below, if any, a row redelivers `ledger`. */
  ghost predicate RowsRedeliver(s: Store, policy: Policy, rows: seq<Raw>, counters: map<Option<int>, int>, allowGaps: bool, ledger: int)
    decreases |rows|
  {
    rows != [] && (
      var i := Numbered(counters, rows[0]);
      || Redelivers(s, policy, rows[0], i, ledger)
      || (&& Replays(s, policy, rows[0], i, allowGaps, ledger)
          && RowsRedeliver(IngestOne(s, policy, rows[0], i, allowGaps).0, policy, rows[1..], Bump(counters, rows[0]), allowGaps, ledger)))
  }

  ghost predicate BatchesRedeliver(s: Store, policy: Policy, batches: seq<seq<Raw>>, allowGaps: bool, ledger: int)
    decreases |batches|
  {
    batches != [] && (
      var s0 := s.(batchHash := None);
      || RowsRedeliver(s0, policy, batches[0], map[], allowGaps, ledger)
      || (&& OnlyReplays(s0, policy, batches[0], map[], allowGaps, ledger)
          && BatchesRedeliver(Ingest(s, policy, batches[0], allowGaps).0, policy, batches[1..], allowGaps, ledger)))
  }

  /** At or below `keep` the two stores read the same. */
  lemma SameBelow(s: Store, base: Store, keep: int, row: Raw, e: Event)
    requires Keep(s.events, keep) == base.events
    requires row.Ledger() == Some(e.ledger) && e.ledger <= keep
    ensures CloseTimeFor(s.events, row) == CloseTimeFor(base.events, row)
    ensures HashConflict(s, e) <==> HashConflict(base, e)
    ensures Key(e.ledger, e.index) in s.events <==> Key(e.ledger, e.index) in base.events
  {
    assert AtOrBelow(s.events, e.ledger) == AtOrBelow(base.events, e.ledger);
    assert AtLedger(s.events, e.ledger) == AtLedger(base.events, e.ledger);
  }

  /** A replay pins the contract at most. */
  lemma ReplayPins(s: Store, policy: Policy, row: Raw, index: int, allowGaps: bool)
    requires IngestOne(s, policy, row, index, allowGaps).1.Replayed?
    ensures var v := Carried(s, policy, row, index);
            && v.Verified? && row.Ledger() == Some(v.event.ledger) && !HashConflict(s, v.event)
            && IngestOne(s, policy, row, index, allowGaps).0 == Pin(s, v.event)
            && Key(v.event.ledger, v.event.index) in s.events
  {
    hide VerifyEvent, CloseTimeFor, StoredHash, Write, MaxLedger;
    assert Carried(s, policy, row, index).Verified?;
    var e := Carried(s, policy, row, index).event;
    CarriedFacts(s, policy, row, index);
    PinChangesContract(s, e);
    AcceptsAfterCheck(s, policy, row, index, allowGaps);
    WriteEffect(AfterHashCheck(Pin(s, e), e), e);
  }

  lemma ReplayStaysRestorable(s: Store, base: Store, policy: Policy, keep: int, row: Raw, index: int, allowGaps: bool)
    requires Restorable(s, base, policy, keep) && s.batchHash == base.batchHash
    requires Replays(s, policy, row, index, allowGaps, keep + 1)
    ensures IngestOne(base, policy, row, index, allowGaps).1.Replayed?
    ensures var t, u := IngestOne(s, policy, row, index, allowGaps).0, IngestOne(base, policy, row, index, allowGaps).0;
            Restorable(t, u, policy, keep) && t.batchHash == u.batchHash
  {
    hide IngestOne, VerifyEvent, CloseTimeFor, HashConflict, LastCloseTime, MaxLedger, Keep, KeepSources, NotEarlier, Low;
    ReplayPins(s, policy, row, index, allowGaps);
    var e := Carried(s, policy, row, index).event;
    SameBelow(s, base, keep, row, e);
    VerifiesAgain(s, base, policy, row, index);
    PinsAlike(s, base, policy, row, index);
    PinChangesContract(base, e);
    AcceptsAfterCheck(base, policy, row, index, allowGaps);
    PinExtends(s, base, policy, keep, row, index);
    PinKeepsBelow(base, policy, keep, row, index);
  }

  lemma PinKeepsBelow(base: Store, policy: Policy, keep: int, row: Raw, index: int)
    requires Below(base, keep) && Sound(base, policy) && Carried(base, policy, row, index).Verified?
    ensures var b := Pin(base, Carried(base, policy, row, index).event); Below(b, keep) && Sound(b, policy)
  {
    hide LastCloseTime, MaxLedger;
  }

  lemma {:induction false} ReplaysStayRestorable(s: Store, base: Store, policy: Policy, keep: int, rows: seq<Raw>,
                                                 counters: map<Option<int>, int>, allowGaps: bool)
    requires Restorable(s, base, policy, keep) && s.batchHash == base.batchHash
    requires OnlyReplays(s, policy, rows, counters, allowGaps, keep + 1)
    ensures var (t, n, _) := IngestRows(s, policy, rows, counters, allowGaps);
            var (u, m, o) := IngestRows(base, policy, rows, counters, allowGaps);
            o.Done? && n == m == 0 && Restorable(t, u, policy, keep)
    decreases |rows|
  {
    hide IngestOne, Restorable;
    if rows != [] {
      var i := Numbered(counters, rows[0]);
      ReplayStaysRestorable(s, base, policy, keep, rows[0], i, allowGaps);
      ReplaysStayRestorable(IngestOne(s, policy, rows[0], i, allowGaps).0, IngestOne(base, policy, rows[0], i, allowGaps).0,
                            policy, keep, rows[1..], Bump(counters, rows[0]), allowGaps);
    }
  }

  lemma {:induction false} RowsMeetPrefix(s: Store, base: Store, policy: Policy, keep: int, rows: seq<Raw>,
                                          counters: map<Option<int>, int>, allowGaps: bool)
    requires Restorable(s, base, policy, keep) && s.batchHash == base.batchHash
    requires RowsRedeliver(s, policy, rows, counters, allowGaps, keep + 1)
    requires IngestRows(s, policy, rows, counters, allowGaps).2.Done?
    ensures var (t, n, _) := IngestRows(s, policy, rows, counters, allowGaps);
            var (u, m, o) := IngestRows(base, policy, rows, counters, allowGaps);
            o.Done? && n == m && SameView(t, u)
    decreases |rows|
  {
    hide IngestOne, Below, Sound, Extends, KeepSources, Carried, HashConflict, SameView;
    var i := Numbered(counters, rows[0]);
    var s1, b1 := IngestOne(s, policy, rows[0], i, allowGaps).0, IngestOne(base, policy, rows[0], i, allowGaps).0;
    Resume.NeverDone(s, policy, rows[0], i, allowGaps);
    if Redelivers(s, policy, rows[0], i, keep + 1) {
      RedeliveryMeetsPrefix(s, base, policy, keep, rows[0], i, allowGaps);
      RowsSameView(s1, b1, policy, rows[1..], Bump(counters, rows[0]), allowGaps);
    } else {
      ReplayStaysRestorable(s, base, policy, keep, rows[0], i, allowGaps);
      RowsMeetPrefix(s1, b1, policy, keep, rows[1..], Bump(counters, rows[0]), allowGaps);
    }
  }

  lemma {:induction false} FeedSameView(a: Store, b: Store, policy: Policy, batches: seq<seq<Raw>>, allowGaps: bool)
    requires SameView(a, b)
    requires Resume.Feed(a, policy, batches, allowGaps).2
    ensures var (s, n, _) := Resume.Feed(a, policy, batches, allowGaps);
            var (t, m, o) := Resume.Feed(b, policy, batches, allowGaps);
            o && n == m && SameView(s, t)
    decreases |batches|
  {
    hide IngestRows;
    if batches != [] {
      RowsSameView(a.(batchHash := None), b.(batchHash := None), policy, batches[0], map[], allowGaps);
      FeedSameView(Ingest(a, policy, batches[0], allowGaps).0, Ingest(b, policy, batches[0], allowGaps).0, policy, batches[1..], allowGaps);
    }
  }

  lemma {:induction false} BatchesMeetPrefix(s: Store, base: Store, policy: Policy, keep: int, batches: seq<seq<Raw>>, allowGaps: bool)
    requires Restorable(s, base, policy, keep)
    requires BatchesRedeliver(s, policy, batches, allowGaps, keep + 1)
    requires Resume.Feed(s, policy, batches, allowGaps).2
    ensures var (t, n, _) := Resume.Feed(s, policy, batches, allowGaps);
            var (u, m, o) := Resume.Feed(base, policy, batches, allowGaps);
            o && n == m && SameView(t, u)
    decreases |batches|
  {
    hide IngestRows, Restorable, RowsRedeliver, OnlyReplays, SameView;
    var s0, b0 := s.(batchHash := None), base.(batchHash := None);
    var s1, b1 := Ingest(s, policy, batches[0], allowGaps).0, Ingest(base, policy, batches[0], allowGaps).0;
    Unmarked(s, base, policy, keep);
    if RowsRedeliver(s0, policy, batches[0], map[], allowGaps, keep + 1) {
      RowsMeetPrefix(s0, b0, policy, keep, batches[0], map[], allowGaps);
      FeedSameView(s1, b1, policy, batches[1..], allowGaps);
    } else {
      ReplaysStayRestorable(s0, b0, policy, keep, batches[0], map[], allowGaps);
      BatchesMeetPrefix(s1, b1, policy, keep, batches[1..], allowGaps);
    }
  }

  // -- gaps, when jumps are refused -----------------------------------------

  lemma StepWithoutGaps(s: Store, policy: Policy, row: Raw, index: int)
    requires s.gaps == {} && Taken(IngestOne(s, policy, row, index, false).1)
    ensures IngestOne(s, policy, row, index, false).0.gaps == {}
  {
    hide VerifyEvent, Write, CloseTimeFor, StoredHash, HashConflict, MaxLedger, CloseGapAt;
    var e := Carried(s, policy, row, index).event;
    AcceptsAfterCheck(s, policy, row, index, false);
    AcceptsWithoutGaps(AfterHashCheck(Pin(s, e), e), e);
  }

  lemma AcceptsWithoutGaps(s: Store, e: Event)
    requires s.gaps == {} && Taken(Accept(s, e, false).1)
    ensures Accept(s, e, false).0.gaps == {}
  {
    hide Write;
    WriteEffect(s, e);
  }

  lemma {:induction false} RowsWithoutGaps(s: Store, policy: Policy, rows: seq<Raw>, counters: map<Option<int>, int>)
    requires s.gaps == {} && IngestRows(s, policy, rows, counters, false).2.Done?
    ensures IngestRows(s, policy, rows, counters, false).0.gaps == {}
    decreases |rows|
  {
    hide IngestOne;
    if rows != [] {
      var i := Numbered(counters, rows[0]);
      Resume.NeverDone(s, policy, rows[0], i, false);
      StepWithoutGaps(s, policy, rows[0], i);
      RowsWithoutGaps(IngestOne(s, policy, rows[0], i, false).0, policy, rows[1..], Bump(counters, rows[0]));
    }
  }

  /** A run that refuses jumps and was refused nothing has no gaps. */
  lemma {:induction false} FeedWithoutGaps(s: Store, policy: Policy, batches: seq<seq<Raw>>)
    requires s.gaps == {} && Resume.Feed(s, policy, batches, false).2
    ensures Resume.Feed(s, policy, batches, false).0.gaps == {}
    decreases |batches|
  {
    hide IngestRows;
    if batches != [] {
      RowsWithoutGaps(s.(batchHash := None), policy, batches[0], map[]);
      FeedWithoutGaps(Ingest(s, policy, batches[0], false).0, policy, batches[1..]);
    }
  }

  // -- the theorem ----------------------------------------------------------

  /** Reorg equals re-index. Index some batches at or below `keep`, then any accepted history above it that
      re-adds none of the sources then known and removes none of those then removed; then feed batches which,
      after replaying what they like of the prefix, redeliver ledger `keep + 1` under a new hash and go on
      with whatever replaces it. The store ends with the events, submissions, aggregates (recomputed medians
      included), sources and cursor of indexing the prefix and those batches from an empty store, which
      accepts them and adds as many events; and with its gaps, if jumps are refused. */
  lemma ReorgIsReindex(policy: Policy, keep: int, prefix: seq<seq<Raw>>, replaced: seq<seq<Raw>>, replacement: seq<seq<Raw>>, allowGaps: bool)
    requires forall i | 0 <= i < |prefix| :: RowsBelow(prefix[i], keep)
    requires forall i | 0 <= i < |replaced| :: RowsAbove(replaced[i], keep)
    requires Resume.Feed(Empty(policy), policy, prefix, allowGaps).2
    requires var base := Resume.Feed(Empty(policy), policy, prefix, allowGaps).0;
             && Resume.Feed(base, policy, replaced, allowGaps).2
             && (forall e | e in WrittenByAll(base, policy, replaced, allowGaps) :: !Overwrites(base.sources, e))
             && var s := Resume.Feed(base, policy, replaced, allowGaps).0;
             && BatchesRedeliver(s, policy, replacement, allowGaps, keep + 1)
             && Resume.Feed(s, policy, replacement, allowGaps).2
    ensures var base := Resume.Feed(Empty(policy), policy, prefix, allowGaps).0;
            var s := Resume.Feed(base, policy, replaced, allowGaps).0;
            var (t, n, _) := Resume.Feed(s, policy, replacement, allowGaps);
            var (u, m, ok) := Resume.Feed(base, policy, replacement, allowGaps);
            && ok && n == m && SameTables(t, u) && t.contractId == u.contractId
            && (!allowGaps ==> t.gaps == u.gaps)
  {
    hide Resume.Feed, WrittenByAll, Overwrites, Extends, Below, Sound, RowsAbove, RowsBelow, BatchesRedeliver;
    var base := Resume.Feed(Empty(policy), policy, prefix, allowGaps).0;
    var s := Resume.Feed(base, policy, replaced, allowGaps).0;
    PrefixIsBelow(policy, keep, prefix, allowGaps);
    BelowExtendsItself(base, policy, keep);
    HistoryExtends(base, base, policy, keep, replaced, allowGaps, true);
    BatchesMeetPrefix(s, base, policy, keep, replacement, allowGaps);
    if !allowGaps {
      FeedWithoutGaps(Empty(policy), policy, prefix);
      FeedWithoutGaps(base, policy, replaced);
      FeedWithoutGaps(s, policy, replacement);
      FeedWithoutGaps(base, policy, replacement);
    }
  }
}
