/** The submission and aggregate tables against the events they are made of. */
module Views {
  import opened Options
  import opened Authenticity
  import opened Store
  import opened Medians
  import opened Examples
  import Gaps
  import Resume
  import Pump

  const SUBMITTED := "price_submitted"
  const AGGREGATED := "price_aggregated"

  predicate Priced(topic: string) { topic == SUBMITTED || topic == AGGREGATED }

  /** The row says what the event says; the event's own time stands in for a missing timestamp. */
  predicate SubmissionTells(sub: Submission, e: Event) {
    && e.data.asset == Some(sub.asset) && e.data.source == Some(sub.source) && e.data.price == Some(sub.price)
    && sub.timestamp == (if e.data.timestamp.Val? then e.data.timestamp.value else e.timestamp)
  }

  predicate AggregateTells(a: Aggregate, e: Event) {
    && e.data.asset == Some(a.asset) && e.data.price == Some(a.price)
    && a.numSources == (if e.data.numSources.Val? then e.data.numSources.value else 0)
    && a.timestamp == (if e.data.timestamp.Val? then e.data.timestamp.value else e.timestamp)
  }

  ghost predicate SubmissionsTell(events: map<Key, Event>, submissions: map<Key, Submission>) {
    && (forall k :: k in submissions <==> k in events && events[k].topic == SUBMITTED)
    && (forall k | k in submissions :: SubmissionTells(submissions[k], events[k]))
  }

  ghost predicate AggregatesTell(events: map<Key, Event>, aggregates: map<Key, Aggregate>) {
    && (forall k :: k in aggregates <==> k in events && events[k].topic == AGGREGATED)
    && (forall k | k in aggregates :: AggregateTells(aggregates[k], events[k]))
  }

  /** Both tables have a row for exactly the events of their topic, and it says what the event says. */
  ghost predicate Told(s: Store) {
    SubmissionsTell(s.events, s.submissions) && AggregatesTell(s.events, s.aggregates)
  }

  lemma TopicsDiffer()
    ensures SUBMITTED != AGGREGATED
    ensures forall t | t in ["source_added", "source_removed"] :: !Priced(t)
  {
    assert |SUBMITTED| == 15 && |AGGREGATED| == 16 && SUBMITTED[0] == AGGREGATED[0] == 'p';
    assert "source_added"[0] == "source_removed"[0] == 's';
  }

  lemma ToldByTables(s: Store, t: Store)
    requires Told(s) && s.events == t.events && s.submissions == t.submissions && s.aggregates == t.aggregates
    ensures Told(t)
  {}

  lemma RollbackKeepsTold(s: Store, ledger: int)
    requires Told(s)
    ensures Told(RollbackTo(s, ledger))
  {
    hide MaxLedger, SubmissionTells, AggregateTells;
  }

  lemma HashCheckKeepsTold(s: Store, e: Event)
    requires Told(s)
    ensures Told(AfterHashCheck(s, e))
  {
    hide Told, RollbackTo, StoredHash;
    if HashConflict(s, e) {
      var logged := s.(reorgs := s.reorgs + [(e.ledger, StoredHash(s.events, e.ledger).value, e.hash.value)]);
      ToldByTables(s, logged);
      RollbackKeepsTold(logged, e.ledger - 1);
    }
  }

  // -- one row --------------------------------------------------------------

  /** What the write path does to the three tables. */
  lemma Materialised(s: Store, e: Event)
    ensures var k := Key(e.ledger, e.index);
            var m := Materialize(s, e);
            && (m.Some? <==> Readable(e.topic, e.data))
            && (m.Some? && e.topic == SUBMITTED ==>
                  && k in m.value.submissions && m.value.submissions == s.submissions[k := m.value.submissions[k]]
                  && SubmissionTells(m.value.submissions[k], e))
            && (m.Some? && e.topic == AGGREGATED ==>
                  && k in m.value.aggregates && m.value.aggregates == s.aggregates[k := m.value.aggregates[k]]
                  && AggregateTells(m.value.aggregates[k], e))
            && (m.Some? && e.topic != SUBMITTED ==> m.value.submissions == s.submissions)
            && (m.Some? && e.topic != AGGREGATED ==> m.value.aggregates == s.aggregates)
  {
    hide LatestPrices, Median;
    TopicsDiffer();
  }

  /** A write adds a row exactly to the table of a readable event's topic. */
  lemma WrittenRows(s: Store, e: Event)
    ensures var k := Key(e.ledger, e.index);
            var t := Write(s, e).0;
            var readable := Readable(e.topic, e.data);
            && t.events == s.events[k := e] && t.reorgs == s.reorgs
            && AddsSubmission(s.submissions, e, t.submissions, e.topic == SUBMITTED && readable)
            && AddsAggregate(s.aggregates, e, t.aggregates, e.topic == AGGREGATED && readable)
  {
    hide Materialize, CloseGapAt, WithJump, Readable, SubmissionTells, AggregateTells;
    var s1 := s.(gaps := CloseGapAt(WithJump(s, e), e.ledger), events := s.events[Key(e.ledger, e.index) := e]);
    Materialised(s1, e);
    MaterializeKeeps(s1, e);
  }

  ghost predicate AddsSubmission(before: map<Key, Submission>, e: Event, after: map<Key, Submission>, added: bool) {
    var k := Key(e.ledger, e.index);
    if added then k in after && after == before[k := after[k]] && SubmissionTells(after[k], e) else after == before
  }

  ghost predicate AddsAggregate(before: map<Key, Aggregate>, e: Event, after: map<Key, Aggregate>, added: bool) {
    var k := Key(e.ledger, e.index);
    if added then k in after && after == before[k := after[k]] && AggregateTells(after[k], e) else after == before
  }

  lemma MoreSubmissions(events: map<Key, Event>, before: map<Key, Submission>, e: Event, after: map<Key, Submission>, readable: bool)
    requires SubmissionsTell(events, before) && Key(e.ledger, e.index) !in events
    requires AddsSubmission(before, e, after, e.topic == SUBMITTED && readable)
    ensures SubmissionsTell(events[Key(e.ledger, e.index) := e], after) <==> (e.topic == SUBMITTED ==> readable)
  {
    hide SubmissionTells;
    var k := Key(e.ledger, e.index);
    assert k !in before && k in events[k := e];
  }

  lemma MoreAggregates(events: map<Key, Event>, before: map<Key, Aggregate>, e: Event, after: map<Key, Aggregate>, readable: bool)
    requires AggregatesTell(events, before) && Key(e.ledger, e.index) !in events
    requires AddsAggregate(before, e, after, e.topic == AGGREGATED && readable)
    ensures AggregatesTell(events[Key(e.ledger, e.index) := e], after) <==> (e.topic == AGGREGATED ==> readable)
  {
    hide AggregateTells;
    var k := Key(e.ledger, e.index);
    assert k !in before && k in events[k := e];
  }

  lemma WriteTells(s: Store, e: Event)
    requires Told(s) && Key(e.ledger, e.index) !in s.events
    ensures Told(Write(s, e).0) <==> (Priced(e.topic) ==> Readable(e.topic, e.data))
  {
    hide Write, Readable, SubmissionsTell, AggregatesTell, AddsSubmission, AddsAggregate;
    var t := Write(s, e).0;
    WrittenRows(s, e);
    MoreSubmissions(s.events, s.submissions, e, t.submissions, Readable(e.topic, e.data));
    MoreAggregates(s.events, s.aggregates, e, t.aggregates, Readable(e.topic, e.data));
  }

  /** A verified new price event, not refused for a jump, without the data its topic needs. */
  ghost predicate Loses(s: Store, policy: Policy, row: Raw, index: int, allowGaps: bool) {
    var v := VerifyEvent(row, policy, s.contractId, CloseTimeFor(s.events, row), index);
    && v.Verified? && !ForkInBatch(Pin(s, v.event), v.event) && LosesIn(AfterHashCheck(Pin(s, v.event), v.event), v.event, allowGaps)
  }

  ghost predicate LosesIn(s: Store, e: Event, allowGaps: bool) {
    && Priced(e.topic) && !Readable(e.topic, e.data)
    && Key(e.ledger, e.index) !in s.events
    && (s.cursor.None? || e.ledger <= s.cursor.value + 1 || allowGaps)
  }

  lemma AcceptTells(s: Store, e: Event, allowGaps: bool)
    requires Told(s)
    ensures Told(Accept(s, e, allowGaps).0) <==> !LosesIn(s, e, allowGaps)
    ensures LosesIn(s, e, allowGaps) ==> Accept(s, e, allowGaps).1.Unreadable?
  {
    hide Told, Write, Readable;
    ReadableExactly(s, e);
    if Key(e.ledger, e.index) in s.events {
    } else if s.cursor.Some? && e.ledger > s.cursor.value + 1 && !allowGaps {
      ToldByTables(s, Accept(s, e, allowGaps).0);
    } else {
      WriteTells(s, e);
    }
  }

  /** One delivered row of any kind leaves the tables telling what the events say if and only if it is not
      such an event; and if it is, the row raises. */
  lemma StepTells(s: Store, policy: Policy, row: Raw, index: int, allowGaps: bool)
    requires Told(s)
    ensures Told(IngestOne(s, policy, row, index, allowGaps).0) <==> !Loses(s, policy, row, index, allowGaps)
    ensures Loses(s, policy, row, index, allowGaps) ==> IngestOne(s, policy, row, index, allowGaps).1.Unreadable?
  {
    hide VerifyEvent, CloseTimeFor, Accept, AfterHashCheck, ForkInBatch, Told, LosesIn;
    match VerifyEvent(row, policy, s.contractId, CloseTimeFor(s.events, row), index)
    case Refused(code) =>
      ToldByTables(s, s.(rejected := s.rejected + {Rejection(row, index, code)}));
    case Verified(e) =>
      var s1 := Pin(s, e);
      ToldByTables(s, s1);
      ToldByTables(s1, s1.(rejected := s1.rejected + {(e.ledger, e.index, LedgerHashInconsistent)}));
      if !ForkInBatch(s1, e) {
        HashCheckKeepsTold(s1, e);
        AcceptTells(AfterHashCheck(s1, e), e, allowGaps);
      }
  }

  // -- whole runs -----------------------------------------------------------

  /** Whether a row, if it is a price event, carries the data its topic needs. */
  predicate PriceReadable(row: Raw) {
    row.Row? && row.topic.Some? && row.data.Some? && Priced(row.topic.value) ==> Readable(row.topic.value, row.data.value)
  }

  lemma ReadableDoesNotLose(s: Store, policy: Policy, row: Raw, index: int, allowGaps: bool)
    requires PriceReadable(row)
    ensures !Loses(s, policy, row, index, allowGaps)
  {
    hide CloseTimeFor, AfterHashCheck, ForkInBatch, Readable, Priced;
  }

  lemma {:induction false} RowsTell(s: Store, policy: Policy, rows: seq<Raw>, counters: map<Option<int>, int>, allowGaps: bool)
    requires Told(s)
    requires (forall i | 0 <= i < |rows| :: PriceReadable(rows[i])) || IngestRows(s, policy, rows, counters, allowGaps).2.Done?
    ensures Told(IngestRows(s, policy, rows, counters, allowGaps).0)
    decreases |rows|
  {
    hide Told, IngestOne, Loses, PriceReadable;
    if rows != [] {
      var i := Numbered(counters, rows[0]);
      var (s1, o) := IngestOne(s, policy, rows[0], i, allowGaps);
      StepTells(s, policy, rows[0], i, allowGaps);
      Resume.NeverDone(s, policy, rows[0], i, allowGaps);
      if PriceReadable(rows[0]) {
        ReadableDoesNotLose(s, policy, rows[0], i, allowGaps);
      }
      if o.Added? || o.Replayed? {
        RowsTell(s1, policy, rows[1..], Bump(counters, rows[0]), allowGaps);
      }
    }
  }

  ghost predicate AllPriceReadable(ops: seq<Gaps.Op>) {
    forall i | 0 <= i < |ops| && ops[i].Ingested? :: forall j | 0 <= j < |ops[i].rows| :: PriceReadable(ops[i].rows[j])
  }

  /** Over price rows that can be read, every run of batches and rollbacks keeps the tables telling what the
      events say, whatever refusals, replays, jumps, reorgs and unreadable rows of other topics it contains. */
  lemma {:induction false} RunTells(s: Store, policy: Policy, ops: seq<Gaps.Op>, origin: int)
    requires Told(s) && AllPriceReadable(ops)
    ensures Told(Gaps.Run(s, policy, ops, origin).0)
    decreases |ops|
  {
    hide Told, IngestRows, Gaps.Rows, PriceReadable;
    if ops != [] {
      match ops[0]
      case RolledBack(l) =>
        RollbackKeepsTold(s, l);
        RunTells(RollbackTo(s, l), policy, ops[1..], origin);
      case Ingested(rows, allowGaps) =>
        var s0 := s.(batchHash := None);
        ToldByTables(s, s0);
        RowsTell(s0, policy, rows, map[], allowGaps);
        Gaps.RowsIsIngest(s0, policy, rows, map[], allowGaps, origin);
        var (s1, origin1, _) := Gaps.Rows(s0, policy, rows, map[], allowGaps, origin);
        RunTells(s1, policy, ops[1..], origin1);
    }
  }

  lemma EmptyIsTold(policy: Policy)
    ensures Told(Empty(policy))
  {}

  lemma AlwaysTold(policy: Policy, ops: seq<Gaps.Op>, origin: int)
    requires AllPriceReadable(ops)
    ensures Told(Gaps.Run(Empty(policy), policy, ops, origin).0)
  {
    hide Told;
    EmptyIsTold(policy);
    RunTells(Empty(policy), policy, ops, origin);
  }

  // -- what is lost stays lost ----------------------------------------------

  /** A price event is indexed and neither table has a row for it. */
  ghost predicate Lost(s: Store, k: Key) {
    k in s.events && Priced(s.events[k].topic) && k !in s.submissions && k !in s.aggregates
  }

  lemma WriteStaysLost(s: Store, e: Event, k: Key)
    requires Lost(s, k) && Key(e.ledger, e.index) !in s.events
    ensures Lost(Write(s, e).0, k)
  {
    hide Write, Readable, SubmissionTells, AggregateTells;
    WrittenRows(s, e);
  }

  /** The reorg log only grows, and unless it does what is lost stays lost. */
  ghost predicate StaysLost(s: Store, t: Store, k: Key) {
    |t.reorgs| >= |s.reorgs| && (Lost(s, k) && |t.reorgs| == |s.reorgs| ==> Lost(t, k))
  }

  /** No row brings a lost event back, unless it reorganises. */
  lemma StepStaysLost(s: Store, policy: Policy, row: Raw, index: int, allowGaps: bool, k: Key)
    ensures StaysLost(s, IngestOne(s, policy, row, index, allowGaps).0, k)
  {
    hide VerifyEvent, CloseTimeFor, Write, StoredHash, MaxLedger;
    match VerifyEvent(row, policy, s.contractId, CloseTimeFor(s.events, row), index)
    case Refused(code) =>
    case Verified(e) =>
      var s1 := Pin(s, e);
      if !ForkInBatch(s1, e) {
        var s2 := AfterHashCheck(s1, e);
        assert |s2.reorgs| > |s.reorgs| || (s2 == s1 && s2.reorgs == s.reorgs);
        AcceptKeepsLog(s2, e, allowGaps);
        if s2 == s1 && Lost(s2, k) && Key(e.ledger, e.index) !in s2.events {
          WriteStaysLost(s2, e, k);
        }
      }
  }

  lemma AcceptKeepsLog(s: Store, e: Event, allowGaps: bool)
    ensures Accept(s, e, allowGaps).0.reorgs == s.reorgs
  {
    hide Write;
    WrittenRows(s, e);
  }

  lemma {:induction false} RowsStayLost(s: Store, policy: Policy, rows: seq<Raw>, counters: map<Option<int>, int>, allowGaps: bool, k: Key)
    ensures StaysLost(s, IngestRows(s, policy, rows, counters, allowGaps).0, k)
    decreases |rows|
  {
    hide IngestOne, Lost;
    if rows != [] {
      var i := Numbered(counters, rows[0]);
      StepStaysLost(s, policy, rows[0], i, allowGaps, k);
      RowsStayLost(IngestOne(s, policy, rows[0], i, allowGaps).0, policy, rows[1..], Bump(counters, rows[0]), allowGaps, k);
    }
  }

  /** Whatever is delivered later, corrected events included, a lost event stays lost until a rollback below
      its ledger or a reorg. */
  lemma {:induction false} RunStaysLost(s: Store, policy: Policy, ops: seq<Gaps.Op>, origin: int, k: Key)
    requires forall i | 0 <= i < |ops| && ops[i].RolledBack? :: ops[i].ledger >= k.ledger
    ensures StaysLost(s, Gaps.Run(s, policy, ops, origin).0, k)
    decreases |ops|
  {
    hide IngestRows, Gaps.Rows;
    if ops != [] {
      match ops[0]
      case RolledBack(l) =>
        assert ops[0].ledger >= k.ledger;
        RunStaysLost(RollbackTo(s, l), policy, ops[1..], origin, k);
      case Ingested(rows, allowGaps) =>
        var s0 := s.(batchHash := None);
        RowsStayLost(s0, policy, rows, map[], allowGaps, k);
        Gaps.RowsIsIngest(s0, policy, rows, map[], allowGaps, origin);
        var (s1, origin1, _) := Gaps.Rows(s0, policy, rows, map[], allowGaps, origin);
        RunStaysLost(s1, policy, ops[1..], origin1, k);
    }
  }

  // -- delivering it again --------------------------------------------------

  /** After a write the ledger's last close time and stored hash are the event's or what they were. */
  lemma ReadAfterWrite(events: map<Key, Event>, e: Event)
    ensures var after := events[Key(e.ledger, e.index) := e];
            && (AtLedger(events, e.ledger) == {} ==> StoredHash(after, e.ledger) == e.hash && LastCloseTime(after, e.ledger) == Some(e.timestamp))
            && (StoredHash(after, e.ledger) == e.hash || StoredHash(after, e.ledger) == StoredHash(events, e.ledger))
            && (LastCloseTime(after, e.ledger) == Some(e.timestamp) || LastCloseTime(after, e.ledger) == LastCloseTime(events, e.ledger))
  {
    var k := Key(e.ledger, e.index);
    var after := events[k := e];
    var here, low := AtLedger(after, e.ledger), AtOrBelow(after, e.ledger);
    assert here == AtLedger(events, e.ledger) + {k} && low == AtOrBelow(events, e.ledger) + {k};
    if First(here) != k {
      assert First(here) in AtLedger(events, e.ledger);
    }
    if Last(low) != k {
      assert Last(low) in AtOrBelow(events, e.ledger);
      assert Before(k, Last(low)) && Last(low).ledger == e.ledger;
      assert Last(low) in AtLedger(events, e.ledger);
    }
  }

  /** A row that raised is replayed when it is delivered again, in the same form or with other data, in the
      same batch or another: the store takes it for indexed and stays as it was. */
  lemma RetryPassesOver(s: Store, policy: Policy, row: Raw, index: int, allowGaps: bool, data: Data, mark: Option<(int, string)>)
    requires IngestOne(s, policy, row, index, allowGaps).1.Unreadable?
    ensures row.Row?
    ensures var t := IngestOne(s, policy, row, index, allowGaps).0.(batchHash := mark);
            IngestOne(t, policy, row.(data := Some(data)), index, allowGaps) == (t, Replayed)
  {
    hide VerifyEvent, StoredHash, LastCloseTime, Write, AfterHashCheck, Accept;
    var v := VerifyEvent(row, policy, s.contractId, CloseTimeFor(s.events, row), index);
    assert v.Verified?;
    var e, again := v.event, v.event.(data := data);
    var s2 := AfterHashCheck(Pin(s, e), e);
    var t := IngestOne(s, policy, row, index, allowGaps).0.(batchHash := mark);
    UnreadableWrites(s2, e, allowGaps);
    WriteEffect(s2, e);
    ReadAfterWrite(s2.events, e);
    NothingLeft(Pin(s, e), e);
    PassedChecks(row, policy, s.contractId, CloseTimeFor(s.events, row), index);
    PassesAgain(row, policy, s.contractId, CloseTimeFor(s.events, row), index, data, t.contractId, CloseTimeFor(t.events, row));
    assert CloseTimeFor(t.events, row.(data := Some(data))) == CloseTimeFor(t.events, row);
    assert Pin(t, again) == t && !HashConflict(t, again);
    NothingLeft(t, again);
    assert Accept(t, again, allowGaps) == (t, Replayed) by { HeldIsReplayed(t, again, allowGaps); }
  }

  lemma UnreadableWrites(s: Store, e: Event, allowGaps: bool)
    requires Accept(s, e, allowGaps).1.Unreadable?
    ensures Accept(s, e, allowGaps).0 == Write(s, e).0
  {}

  lemma HeldIsReplayed(s: Store, e: Event, allowGaps: bool)
    requires Key(e.ledger, e.index) in s.events
    ensures Accept(s, e, allowGaps) == (s, Replayed)
  {}

  lemma PassedChecks(row: Raw, policy: Policy, pinned: Option<string>, lastClose: Option<int>, index: int)
    requires VerifyEvent(row, policy, pinned, lastClose, index).Verified?
    ensures var e := VerifyEvent(row, policy, pinned, lastClose, index).event;
            row.Row? && row.ledger == Some(e.ledger) && (lastClose.Some? ==> lastClose.value <= e.timestamp)
  {}

  /** Other data, the contract now pinned and a close time no later: the row passes the same checks. */
  lemma PassesAgain(row: Raw, policy: Policy, pinned: Option<string>, lastClose: Option<int>, index: int, data: Data,
                    pinned2: Option<string>, lastClose2: Option<int>)
    requires VerifyEvent(row, policy, pinned, lastClose, index).Verified?
    requires var e := VerifyEvent(row, policy, pinned, lastClose, index).event;
             && pinned2 == (if pinned.None? then Some(e.contractId) else pinned)
             && (lastClose2.Some? ==> lastClose2.value <= e.timestamp)
    ensures row.Row?
    ensures VerifyEvent(row.(data := Some(data)), policy, pinned2, lastClose2, index)
         == Verified(VerifyEvent(row, policy, pinned, lastClose, index).event.(data := data))
  {
    hide Blank;
  }

  /** A reorg leaves nothing at the ledger it was found at. */
  lemma NothingLeft(s: Store, e: Event)
    ensures HashConflict(s, e) ==> AtLedger(AfterHashCheck(s, e).events, e.ledger) == {}
    ensures !HashConflict(s, e) ==> AfterHashCheck(s, e) == s
    ensures AfterHashCheck(s, e).contractId == s.contractId
  {
    hide StoredHash, MaxLedger;
  }

  /** Readability is what it takes: the first row of a store, if it is admitted, is told if and only if it is no
      price event or can be read. */
  lemma FirstRowTells(policy: Policy, row: Raw, index: int, allowGaps: bool)
    requires VerifyEvent(row, policy, Empty(policy).contractId, None, index).Verified?
    ensures Told(IngestOne(Empty(policy), policy, row, index, allowGaps).0) <==> PriceReadable(row)
  {
    var s := Empty(policy);
    assert AtOrBelow(s.events, row.ledger.value) == {} && AtLedger(s.events, row.ledger.value) == {};
    assert CloseTimeFor(s.events, row) == None;
    var e := VerifyEvent(row, policy, s.contractId, None, index).event;
    assert row.topic == Some(e.topic) && row.data == Some(e.data) && row.ledger == Some(e.ledger);
    hide VerifyEvent, Readable, Priced, IngestOne, Told;
    EmptyIsTold(policy);
    StepTells(s, policy, row, index, allowGaps);
  }

  // -- no event is lost -----------------------------------------------------

  const NO_ASSET := NO_DATA.(source := Some("S"), price := Some(1))
  const WITH_ASSET := NO_ASSET.(asset := Some("A"))

  lemma ReplayedAlone(s: Store, policy: Policy, row: Raw, allowGaps: bool)
    requires row.Row? && row.eventIndex.Absent?
    requires var s0 := s.(batchHash := None); IngestOne(s0, policy, row, 0, allowGaps) == (s0, Replayed)
    ensures Ingest(s, policy, [row], allowGaps) == (s.(batchHash := None), 0, Done)
  {
    hide IngestOne;
    var s0 := s.(batchHash := None);
    assert Numbered(map[], row) == 0 && [row][1..] == [];
    assert IngestRows(s0, policy, [], Bump(map[], row), allowGaps) == (s0, 0, Done);
  }

  /** A price submission without its asset stops the batch; ingesting it again into the store as it stands, or
      the corrected event in its place, is accepted, adds nothing, and leaves the submission out of the table. */
  lemma LossIsSilent(policy: Policy) returns (row: Raw, corrected: Raw)
    requires Permissive(policy)
    ensures row.Row? && corrected.Row? && corrected == row.(data := corrected.data) && PriceReadable(corrected)
    ensures Ingest(Empty(policy), policy, [row], false).2.Unreadable?
    ensures var s := Ingest(Empty(policy), policy, [row], false).0;
            && Lost(s, Key(1, 0))
            && Ingest(s, policy, [row], false) == (s.(batchHash := None), 0, Done)
            && Ingest(s, policy, [corrected], false) == (s.(batchHash := None), 0, Done)
  {
    row, corrected := PlainRow(1, 1, SUBMITTED, NO_ASSET), PlainRow(1, 1, SUBMITTED, WITH_ASSET);
    var s0 := Empty(policy);
    UnreadableFirstRow(policy);
    var s := IngestOne(s0, policy, row, 0, false).0;
    assert Numbered(map[], row) == 0;
    RetryPassesOver(s0, policy, row, 0, false, NO_ASSET, None);
    RetryPassesOver(s0, policy, row, 0, false, WITH_ASSET, None);
    hide IngestOne;
    ReplayedAlone(s, policy, row, false);
    ReplayedAlone(s, policy, corrected, false);
  }

  lemma UnreadableFirstRow(policy: Policy)
    requires Permissive(policy)
    ensures var (s, o) := IngestOne(Empty(policy), policy, PlainRow(1, 1, SUBMITTED, NO_ASSET), 0, false);
            o.Unreadable? && Lost(s, Key(1, 0))
  {
    var s, row, e := Empty(policy), PlainRow(1, 1, SUBMITTED, NO_ASSET), PlainEvent(1, 0, 1, SUBMITTED, NO_ASSET);
    NoCloseTime(1);
    assert !Blank("C") by { assert "C"[0] == 'C'; }
    assert !Blank(SUBMITTED) by { assert SUBMITTED[0] == 'p'; }
    TopicsDiffer();
    hide Blank, LastCloseTime, Write;
    assert VerifyEvent(row, policy, s.contractId, CloseTimeFor(s.events, row), 0) == Verified(e);
    ReadableExactly(Pin(s, e), e);
    WrittenRows(Pin(s, e), e);
  }

  /** What plain `ingest` accepts is held: every row's key is indexed, and the tables tell what the events say. */
  lemma AcceptedIsHeld(policy: Policy, rows: seq<Raw>, allowGaps: bool)
    requires Resume.Ordered(rows) && Resume.OneHash(rows)
    requires Ingest(Empty(policy), policy, rows, allowGaps).2.Done?
    ensures Told(Ingest(Empty(policy), policy, rows, allowGaps).0)
    ensures AllHeld(Ingest(Empty(policy), policy, rows, allowGaps).0, rows)
  {
    hide IngestOne, Resume.Ordered, Resume.OneHash, Resume.Explicit, Resume.StampFrom, Told;
    var xs := Resume.Stamp(rows, None);
    Resume.AllExplicit(rows, None, 0);
    Resume.StampKeepsRows(rows, None, 0);
    Resume.StampingFrom(Empty(policy), policy, rows, map[], None, 0, allowGaps);
    Resume.AcceptedPrefix(policy, xs, |xs|, allowGaps);
    Resume.AfterIsIngest(policy, xs, |xs|, allowGaps);
    assert xs[|xs|..] == [];
    StampedIsSteady(rows);
    Resume.AfterTracks(policy, xs, |xs|, allowGaps);
    EmptyIsTold(policy);
    RowsTell(Empty(policy), policy, rows, map[], allowGaps);
  }

  ghost predicate AllHeld(s: Store, rows: seq<Raw>) {
    forall i | 0 <= i < |Resume.Stamp(rows, None)| ::
      var x := Resume.Stamp(rows, None)[i]; Resume.WellFormed(x) && Resume.KeyOf(x) in s.events
  }

  lemma StampedIsSteady(rows: seq<Raw>)
    requires Resume.Ordered(rows) && Resume.OneHash(rows)
    ensures Resume.Steady(Resume.Stamp(rows, None))
  {
    Resume.AllExplicit(rows, None, 0);
    Resume.StampKeepsRows(rows, None, 0);
  }

  /** Once a run of a pump history over a stream that plain `ingest` accepts finishes, no event is lost: each has
      its key indexed, and every indexed price event its row in the tables. */
  lemma NoEventIsLost(policy: Policy, rows: seq<Raw>, size: Raw -> nat, runs: seq<Pump.PumpRun>, last: Pump.PumpRun, allowGaps: bool)
    requires Resume.Ordered(rows) && Resume.OneCloseTime(rows) && Resume.OneHash(rows)
    requires Ingest(Empty(policy), policy, rows, allowGaps).2.Done?
    requires Pump.History(Empty(policy), policy, rows, size, runs, allowGaps)
    requires var s := Resume.RunAll(Empty(policy), policy, Pump.FedBy(runs), allowGaps).0;
             Pump.Happened(last, s, rows, size) && Pump.Finished(last)
    ensures var s := Resume.RunAll(Empty(policy), policy, Pump.FedBy(runs), allowGaps).0;
            var t := Resume.Feed(s, policy, last.fed, allowGaps).0;
            Told(t) && AllHeld(t, rows) && forall k :: !Lost(t, k)
  {
    hide Resume.Feed, Resume.RunAll, Resume.StampFrom, Resume.Ordered, Resume.OneCloseTime, Resume.OneHash, IngestRows,
         Pump.Happened, Pump.History, Pump.FedBy, SubmissionTells, AggregateTells;
    Pump.PumpHistory(policy, rows, size, runs, last, allowGaps);
    AcceptedIsHeld(policy, rows, allowGaps);
    var s := Resume.RunAll(Empty(policy), policy, Pump.FedBy(runs), allowGaps).0;
    ToldByTables(Ingest(Empty(policy), policy, rows, allowGaps).0, Resume.Feed(s, policy, last.fed, allowGaps).0);
  }
}
