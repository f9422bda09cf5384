/** Concrete streams at which the indexer's promises meet their limits. */
module Examples {
  import opened Options
  import opened Authenticity
  import opened Store
  import Resume
  import ResumeLimits
  import Reorg

  /** A policy that lets plain rows of contract "C" through. */
  ghost predicate Permissive(policy: Policy) {
    policy.minLedger <= 1 && policy.allowedTopics == [] && !policy.requireLedgerHash && Or(policy.expectedContractId, None).None?
  }

  const NO_DATA := Data(None, None, None, None, Absent, Absent)

  function PlainRow(ledger: int, at: int, topic: string, data: Data): Raw {
    Row(Some(ledger), Absent, Some(at), Some("C"), Some(topic), Absent, Some(data))
  }

  function PlainEvent(ledger: int, index: int, at: int, topic: string, data: Data): Event {
    Event(ledger, index, None, at, "C", topic, data)
  }

  /** Such a row, new and in order, is written and nothing else happens. */
  lemma PlainRowIsWritten(s: Store, policy: Policy, ledger: int, index: int, at: int, topic: string, data: Data, allowGaps: bool)
    requires Permissive(policy) && s.contractId in {None, Some("C")}
    requires ledger >= 1 && index >= 0 && at >= 1 && topic != "" && !Blank(topic) && Readable(topic, data)
    requires LastCloseTime(s.events, ledger).Some? ==> LastCloseTime(s.events, ledger).value <= at
    requires Key(ledger, index) !in s.events
    requires s.cursor.Some? && ledger > s.cursor.value + 1 ==> allowGaps
    ensures IngestOne(s, policy, PlainRow(ledger, at, topic, data), index, allowGaps)
         == Write(s.(contractId := Some("C")), PlainEvent(ledger, index, at, topic, data))
    ensures Write(s.(contractId := Some("C")), PlainEvent(ledger, index, at, topic, data)).1 == Added
  {
    var row, e := PlainRow(ledger, at, topic, data), PlainEvent(ledger, index, at, topic, data);
    assert !Blank("C") by { assert "C"[0] == 'C'; }
    hide LastCloseTime, Readable, Blank;
    assert VerifyEvent(row, policy, s.contractId, CloseTimeFor(s.events, row), index) == Verified(e);
    ReadableExactly(s.(contractId := Some("C")), e);
    hide VerifyEvent, Write;
    WriteEffect(s.(contractId := Some("C")), e);
  }

  lemma OneRow(s: Store, policy: Policy, row: Raw, allowGaps: bool)
    requires row.Row? && row.eventIndex.Absent?
    requires IngestOne(s.(batchHash := None), policy, row, 0, allowGaps).1.Added?
    ensures Ingest(s, policy, [row], allowGaps) == (IngestOne(s.(batchHash := None), policy, row, 0, allowGaps).0, 1, Done)
  {
    hide IngestOne;
    var s1 := IngestOne(s.(batchHash := None), policy, row, 0, allowGaps).0;
    assert Numbered(map[], row) == 0 && [row][1..] == [];
    assert IngestRows(s1, policy, [], Bump(map[], row), allowGaps) == (s1, 0, Done);
  }

  lemma CloseTimeOfOne(e: Event, ledger: int)
    ensures LastCloseTime(map[Key(e.ledger, e.index) := e], ledger) == if e.ledger <= ledger then Some(e.timestamp) else None
  {
    var events := map[Key(e.ledger, e.index) := e];
    assert AtOrBelow(events, ledger) == if e.ledger <= ledger then {Key(e.ledger, e.index)} else {};
  }

  lemma NoCloseTime(ledger: int)
    ensures LastCloseTime(map[], ledger) == None
  {
    assert AtOrBelow(map[], ledger) == {};
  }

  lemma MaxOfOne(e: Event)
    ensures MaxLedger(map[Key(e.ledger, e.index) := e]) == Some(e.ledger)
  {
    assert map[Key(e.ledger, e.index) := e].Keys == {Key(e.ledger, e.index)};
  }

  // -- two close times in one ledger ----------------------------------------

  const OTHER := "other"

  lemma OtherIsPlain()
    ensures !Blank(OTHER) && Readable(OTHER, NO_DATA)
    ensures OTHER !in ["source_added", "source_removed", "price_submitted", "price_aggregated"]
  {
    assert OTHER[0] == 'o' && "source_added"[0] == 's' && "source_removed"[0] == 's';
    assert "price_submitted"[0] == 'p' && "price_aggregated"[0] == 'p';
  }

  lemma OtherWrites(s: Store, ledger: int, index: int, at: int)
    ensures var e := PlainEvent(ledger, index, at, OTHER, NO_DATA);
            Write(s, e) == (s.(gaps := CloseGapAt(WithJump(s, e), ledger), events := s.events[Key(ledger, index) := e],
                               cursor := if s.cursor.None? || ledger > s.cursor.value then Some(ledger) else s.cursor), Added)
  {
    OtherIsPlain();
    hide CloseGapAt, WithJump, LatestPrices;
  }

  /** A stream plain `ingest` accepts although one ledger carries two close times: by
      `ResumeLimits.TwoCloseTimesRefuse` a crash after its second row cannot be resumed. */
  lemma TwoCloseTimesAreAccepted(policy: Policy) returns (rows: seq<Raw>)
    requires Permissive(policy)
    ensures |rows| == 2 && rows[0].Row? && rows[1].Row? && rows[0].ledger == rows[1].ledger && rows[0].timestamp != rows[1].timestamp
    ensures Resume.Ordered(rows) && Resume.OneHash(rows) && ResumeLimits.ArrivalNumbered(rows) && !Resume.OneCloseTime(rows)
    ensures Ingest(Empty(policy), policy, rows, false).2.Done?
    ensures exists p: nat :: p <= |Resume.Stamp(rows, None)|
              && var s := Resume.After(policy, Resume.Stamp(rows, None), p, false).0;
                 !Resume.Feed(s, policy, [Resume.Stamp(rows, s.cursor)], false).2
  {
    rows := [PlainRow(1, 1, OTHER, NO_DATA), PlainRow(1, 2, OTHER, NO_DATA)];
    TwoRowsAccepted(policy);
    ResumeLimits.ResumableExactly(policy, rows, false);
    assert rows[0].ledger == rows[1].ledger && rows[0].timestamp != rows[1].timestamp;
  }

  lemma TwoRowsAccepted(policy: Policy)
    requires Permissive(policy)
    ensures Ingest(Empty(policy), policy, [PlainRow(1, 1, OTHER, NO_DATA), PlainRow(1, 2, OTHER, NO_DATA)], false).2.Done?
  {
    var a, b := PlainRow(1, 1, OTHER, NO_DATA), PlainRow(1, 2, OTHER, NO_DATA);
    var s := Empty(policy);
    OtherIsPlain();
    NoCloseTime(1);
    PlainRowIsWritten(s, policy, 1, 0, 1, OTHER, NO_DATA, false);
    OtherWrites(s.(contractId := Some("C")), 1, 0, 1);
    var s1 := IngestOne(s, policy, a, 0, false).0;
    var e := PlainEvent(1, 0, 1, OTHER, NO_DATA);
    assert s1.events == map[Key(1, 0) := e] && s1.cursor == Some(1) && s1.contractId == Some("C");
    CloseTimeOfOne(e, 1);
    PlainRowIsWritten(s1, policy, 1, 1, 2, OTHER, NO_DATA, false);
    hide IngestOne;
    var c := Bump(map[], a);
    assert [a, b][1..] == [b] && [b][1..] == [];
    assert Numbered(map[], a) == 0 && Numbered(c, b) == 1;
    var s2 := IngestOne(s1, policy, b, 1, false).0;
    assert IngestRows(s2, policy, [], Bump(c, b), false) == (s2, 0, Done);
    assert IngestRows(s1, policy, [b], c, false) == (s2, 1, Done);
  }

  // -- a source added again -------------------------------------------------

  const ADDED := "source_added"
  const SOURCE := NO_DATA.(source := Some("S"))

  lemma AddedWrites(s: Store, ledger: int, at: int)
    ensures !Blank(ADDED) && Readable(ADDED, SOURCE)
    ensures var e := PlainEvent(ledger, 0, at, ADDED, SOURCE);
            Write(s, e) == (s.(gaps := CloseGapAt(WithJump(s, e), ledger), events := s.events[Key(ledger, 0) := e],
                               sources := s.sources["S" := Source(None, ledger, None)],
                               cursor := if s.cursor.None? || ledger > s.cursor.value then Some(ledger) else s.cursor), Added)
  {
    assert ADDED[0] == 's';
    hide CloseGapAt, WithJump, LatestPrices;
  }

  /** A source known at ledger 1 and added again at ledger 2 is gone after rolling back to ledger 1. */
  lemma ReAddedSourceIsLost(policy: Policy) returns (first: seq<Raw>, second: seq<Raw>)
    requires Permissive(policy)
    ensures Ingest(Empty(policy), policy, first, false).2.Done?
    ensures var base := Ingest(Empty(policy), policy, first, false).0;
            && Ingest(base, policy, second, false).2.Done?
            && "S" in base.sources && "S" !in RollbackTo(Ingest(base, policy, second, false).0, 1).sources
  {
    first, second := [PlainRow(1, 1, ADDED, SOURCE)], [PlainRow(2, 2, ADDED, SOURCE)];
    var s := Empty(policy);
    AddedWrites(s.(contractId := Some("C")), 1, 1);
    NoCloseTime(1);
    PlainRowIsWritten(s, policy, 1, 0, 1, ADDED, SOURCE, false);
    OneRow(s, policy, first[0], false);
    var base := Ingest(s, policy, first, false).0;
    var e := PlainEvent(1, 0, 1, ADDED, SOURCE);
    assert base.events == map[Key(1, 0) := e] && base.cursor == Some(1);
    CloseTimeOfOne(e, 2);
    AddedWrites(base.(contractId := Some("C")), 2, 2);
    PlainRowIsWritten(base, policy, 2, 0, 2, ADDED, SOURCE, false);
    OneRow(base, policy, second[0], false);
  }

  // -- a jump taken ---------------------------------------------------------

  lemma FirstLedger(policy: Policy, row: Raw)
    requires Permissive(policy) && row == PlainRow(1, 1, OTHER, NO_DATA)
    ensures Ingest(Empty(policy), policy, [row], false) ==
            (Empty(policy).(contractId := Some("C"), events := map[Key(1, 0) := PlainEvent(1, 0, 1, OTHER, NO_DATA)], cursor := Some(1)), 1, Done)
  {
    var s := Empty(policy);
    OtherIsPlain();
    OtherWrites(s.(contractId := Some("C")), 1, 0, 1);
    NoCloseTime(1);
    PlainRowIsWritten(s, policy, 1, 0, 1, OTHER, NO_DATA, false);
    OneRow(s, policy, row, false);
    assert CloseGapAt({}, 1) == {};
  }

  /** Ledger 1, then ledger 5 with gaps allowed, then a rollback to ledger 2: the tables are those of ledger 1
      again, and the gap over ledgers 2 to 4 is still recorded. */
  lemma JumpOutlivesRollback(policy: Policy) returns (first: seq<Raw>, second: seq<Raw>)
    requires Permissive(policy)
    ensures Ingest(Empty(policy), policy, first, false).2.Done?
    ensures var base := Ingest(Empty(policy), policy, first, false).0;
            && Ingest(base, policy, second, true).2.Done?
            && var back := RollbackTo(Ingest(base, policy, second, true).0, 2);
               Reorg.SameTables(back, base) && base.gaps == {} && back.gaps == {(2, 4)}
  {
    first, second := [PlainRow(1, 1, OTHER, NO_DATA)], [PlainRow(5, 5, OTHER, NO_DATA)];
    FirstLedger(policy, first[0]);
    var base := Ingest(Empty(policy), policy, first, false).0;
    var e, f := PlainEvent(1, 0, 1, OTHER, NO_DATA), PlainEvent(5, 0, 5, OTHER, NO_DATA);
    hide Ingest, IngestOne;
    OtherIsPlain();
    CloseTimeOfOne(e, 5);
    OtherWrites(base, 5, 0, 5);
    assert base.(contractId := Some("C")) == base && base.(batchHash := None) == base;
    PlainRowIsWritten(base, policy, 5, 0, 5, OTHER, NO_DATA, true);
    OneRow(base, policy, second[0], true);
    var after := Ingest(base, policy, second, true).0;
    JumpGap(base, f);
    assert after.events == map[Key(1, 0) := e, Key(5, 0) := f];
    RolledBack(after, base, e, f);
  }

  lemma JumpGap(s: Store, f: Event)
    requires s.gaps == {} && s.cursor == Some(1) && f.ledger == 5
    ensures CloseGapAt(WithJump(s, f), 5) == {(2, 4)}
  {}

  lemma RolledBack(after: Store, base: Store, e: Event, f: Event)
    requires e.ledger == 1 && f.ledger == 5 && base.events == map[Key(1, 0) := e] && after.events == map[Key(1, 0) := e, Key(5, 0) := f]
    requires after.sources == base.sources == map[] && after.submissions == base.submissions == map[]
    requires after.aggregates == base.aggregates == map[] && base.cursor == Some(1) && after.gaps == {(2, 4)} && e.index == 0
    ensures Reorg.SameTables(RollbackTo(after, 2), base) && RollbackTo(after, 2).gaps == {(2, 4)}
  {
    assert Keep(after.events, 2) == base.events;
    MaxOfOne(e);
  }
}
