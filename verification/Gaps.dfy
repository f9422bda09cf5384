/** Gap bookkeeping over every run of ingest calls and rollbacks. */
module Gaps {
  import opened Options
  import opened Authenticity
  import opened Store

  /** The invariant. `origin` is the ledger of the event that last made an empty store non-empty. */
  ghost predicate Inv(s: Store, origin: int) {
    && CursorIsMax(s)
    && GapsAreOpen(s)
    && (s.cursor.Some? ==> forall x | origin < x < s.cursor.value :: x in Ledgers(s.events) || InGap(s.gaps, x))
  }

  ghost predicate CursorIsMax(s: Store) {
    if s.events == map[] then s.cursor.None?
    else s.cursor.Some? && s.cursor.value in Ledgers(s.events) && forall l | l in Ledgers(s.events) :: l <= s.cursor.value
  }

  /** Every gap is a non-empty interval that starts just after an indexed ledger and holds none. */
  ghost predicate GapsAreOpen(s: Store) {
    forall g | g in s.gaps ::
      && g.0 <= g.1
      && g.0 - 1 in Ledgers(s.events)
      && forall l | l in Ledgers(s.events) :: !Covers(g, l)
  }

  ghost predicate InGap(gaps: set<(int, int)>, x: int) {
    exists g :: g in gaps && Covers(g, x)
  }

  /** A verified new event without the data its topic needs, above the cursor and not refused for a jump:
      its row is written, the cursor is not moved. */
  ghost predicate Strands(s: Store, policy: Policy, row: Raw, index: int, allowGaps: bool) {
    var v := VerifyEvent(row, policy, s.contractId, CloseTimeFor(s.events, row), index);
    && v.Verified? && !ForkInBatch(Pin(s, v.event), v.event) && StrandsIn(AfterHashCheck(Pin(s, v.event), v.event), v.event, allowGaps)
  }

  ghost predicate StrandsIn(s: Store, e: Event, allowGaps: bool) {
    && !Readable(e.topic, e.data)
    && Key(e.ledger, e.index) !in s.events
    && (s.cursor.None? || s.cursor.value < e.ledger <= s.cursor.value + 1 || (s.cursor.value < e.ledger && allowGaps))
  }

  /** The new origin, if this row is what makes the store non-empty. */
  ghost function OriginAfter(s: Store, policy: Policy, row: Raw, index: int, allowGaps: bool, origin: int): int {
    if !IngestOne(s, policy, row, index, allowGaps).1.Added? then origin else
    var e := VerifyEvent(row, policy, s.contractId, CloseTimeFor(s.events, row), index).event;
    if AfterHashCheck(Pin(s, e), e).events == map[] then e.ledger else origin
  }

  lemma LedgersOfKept(events: map<Key, Event>, ledger: int)
    ensures Ledgers(Keep(events, ledger)) == set l | l in Ledgers(events) && l <= ledger
  {
    forall l | l in Ledgers(events) && l <= ledger ensures l in Ledgers(Keep(events, ledger)) {
      var k :| k in events && k.ledger == l;
      assert k in Keep(events, ledger);
    }
  }

  lemma MaxLedgerIsMax(events: map<Key, Event>)
    ensures MaxLedger(events).None? <==> events == map[]
    ensures MaxLedger(events).Some? ==>
              MaxLedger(events).value in Ledgers(events) && forall l | l in Ledgers(events) :: l <= MaxLedger(events).value
  {
    if events != map[] {
      assert events.Keys != {};
    }
  }

  lemma RollbackKeepsInv(s: Store, ledger: int, origin: int)
    requires Inv(s, origin)
    ensures Inv(RollbackTo(s, ledger), origin)
  {
    var t := RollbackTo(s, ledger);
    LedgersOfKept(s.events, ledger);
    MaxLedgerIsMax(t.events);
    if t.cursor.Some? {
      forall x | origin < x < t.cursor.value ensures x in Ledgers(t.events) || InGap(t.gaps, x) {
        if x !in Ledgers(s.events) {
          var g :| g in s.gaps && Covers(g, x);
          assert g in t.gaps;
        }
      }
    }
  }

  /** Splitting never loses a missing ledger other than the one that arrived. */
  lemma SplitCovers(gaps: set<(int, int)>, ledger: int, x: int)
    ensures x != ledger ==> (InGap(CloseGapAt(gaps, ledger), x) <==> InGap(gaps, x))
    ensures !InGap(CloseGapAt(gaps, ledger), ledger)
  {
    if x != ledger && InGap(gaps, x) {
      var g :| g in gaps && Covers(g, x);
      if Covers(g, ledger) {
        var piece := if x < ledger then (g.0, ledger - 1) else (ledger + 1, g.1);
        assert piece in CloseGapAt(gaps, ledger) && Covers(piece, x);
      } else {
        assert g in CloseGapAt(gaps, ledger);
      }
    }
  }

  lemma LedgersOfWritten(events: map<Key, Event>, e: Event)
    ensures Ledgers(events[Key(e.ledger, e.index) := e]) == Ledgers(events) + {e.ledger}
  {
    var after := events[Key(e.ledger, e.index) := e];
    forall l | l in Ledgers(events) ensures l in Ledgers(after) {
      var k :| k in events && k.ledger == l;
      assert k in after;
    }
    assert Key(e.ledger, e.index) in after;
  }

  lemma JumpKeepsGaps(s: Store, ledger: int)
    requires CursorIsMax(s) && GapsAreOpen(s)
    requires s.cursor.Some? && ledger > s.cursor.value + 1
    ensures GapsAreOpen(s.(gaps := s.gaps + {(s.cursor.value + 1, ledger - 1)}))
  {}

  /** Writing one event, gap by gap: what the table says after the split. */
  lemma SplitKeepsGaps(s: Store, e: Event)
    requires GapsAreOpen(s)
    ensures GapsAreOpen(s.(gaps := CloseGapAt(s.gaps, e.ledger), events := s.events[Key(e.ledger, e.index) := e]))
  {
    LedgersOfWritten(s.events, e);
  }

  lemma WrittenCoverage(s: Store, e: Event, t: Store, o: Outcome, origin: int)
    requires Inv(s, origin) && Wrote(s, e, t, o) && t.cursor.Some?
    ensures forall x | (if s.events == map[] then e.ledger else origin) < x < t.cursor.value ::
              x in Ledgers(t.events) || InGap(t.gaps, x)
  {
    LedgersOfWritten(s.events, e);
    var before := WithJump(s, e);
    forall x | (if s.events == map[] then e.ledger else origin) < x < t.cursor.value && x !in Ledgers(t.events)
      ensures InGap(t.gaps, x)
    {
      SplitCovers(before, e.ledger, x);
      if s.cursor.Some? && x < s.cursor.value {
        var g :| g in s.gaps && Covers(g, x);
        assert g in before;
      } else {
        var g := (s.cursor.value + 1, e.ledger - 1);
        assert g in before && Covers(g, x);
      }
    }
  }

  /** A written event keeps the invariant exactly unless it is stranded above the cursor. */
  lemma WrittenKeepsInv(s: Store, e: Event, t: Store, o: Outcome, origin: int)
    requires Inv(s, origin) && Wrote(s, e, t, o)
    ensures o.Unreadable? && (s.cursor.None? || e.ledger > s.cursor.value) ==> !CursorIsMax(t)
    ensures !(o.Unreadable? && (s.cursor.None? || e.ledger > s.cursor.value)) ==>
              Inv(t, if s.events == map[] then e.ledger else origin)
  {
    LedgersOfWritten(s.events, e);
    var s0 := s.(gaps := WithJump(s, e));
    assert GapsAreOpen(s0) by {
      if s.cursor.Some? && e.ledger > s.cursor.value + 1 {
        JumpKeepsGaps(s, e.ledger);
      }
    }
    SplitKeepsGaps(s0, e);
    if t.cursor.Some? {
      WrittenCoverage(s, e, t, o, origin);
    }
  }

  lemma JumpKeepsInv(s: Store, ledger: int, origin: int)
    requires Inv(s, origin)
    requires s.cursor.Some? && ledger > s.cursor.value + 1
    ensures Inv(s.(gaps := s.gaps + {(s.cursor.value + 1, ledger - 1)}), origin)
  {
    JumpKeepsGaps(s, ledger);
    var gaps := s.gaps + {(s.cursor.value + 1, ledger - 1)};
    forall x | origin < x < s.cursor.value ensures x in Ledgers(s.events) || InGap(gaps, x) {
      if x !in Ledgers(s.events) {
        var h :| h in s.gaps && Covers(h, x);
        assert h in gaps;
      }
    }
  }

  lemma AcceptKeepsInv(s: Store, e: Event, allowGaps: bool, origin: int)
    requires Inv(s, origin)
    ensures var (t, o) := Accept(s, e, allowGaps);
            && (StrandsIn(s, e, allowGaps) ==> !CursorIsMax(t))
            && (!StrandsIn(s, e, allowGaps) ==> Inv(t, if o.Added? && s.events == map[] then e.ledger else origin))
  {
    ReadableExactly(s, e);
    hide Readable;
    if Key(e.ledger, e.index) in s.events {
    } else if s.cursor.Some? && e.ledger > s.cursor.value + 1 && !allowGaps {
      JumpKeepsInv(s, e.ledger, origin);
    } else {
      var (t, o) := Write(s, e);
      WriteEffect(s, e);
      WrittenKeepsInv(s, e, t, o, origin);
    }
  }

  /** One delivered row — accepted, replayed, refused, jumping or reorganising — keeps
      the invariant if and only if it does not strand an event above the cursor. */
  lemma StepKeepsInv(s: Store, policy: Policy, row: Raw, index: int, allowGaps: bool, origin: int)
    requires Inv(s, origin)
    ensures Inv(IngestOne(s, policy, row, index, allowGaps).0, OriginAfter(s, policy, row, index, allowGaps, origin))
            <==> !Strands(s, policy, row, index, allowGaps)
  {
    hide VerifyEvent, CloseTimeFor, Accept, AfterHashCheck, ForkInBatch, Inv, CursorIsMax, StrandsIn;
    match VerifyEvent(row, policy, s.contractId, CloseTimeFor(s.events, row), index)
    case Refused(code) =>
      BookkeepingKeepsInv(s, s.(rejected := s.rejected + {Rejection(row, index, code)}), origin);
    case Verified(e) =>
      var s1 := Pin(s, e);
      BookkeepingKeepsInv(s, s1, origin);
      BookkeepingKeepsInv(s, s1.(rejected := s1.rejected + {(e.ledger, e.index, LedgerHashInconsistent)}), origin);
      if !ForkInBatch(s1, e) {
        var s2 := AfterHashCheck(s1, e);
        HashCheckKeepsInv(s1, e, origin);
        AcceptKeepsInv(s2, e, allowGaps, origin);
        var t := Accept(s2, e, allowGaps).0;
        assert IngestOne(s, policy, row, index, allowGaps) == Accept(s2, e, allowGaps);
        InvHasCursor(t, OriginAfter(s, policy, row, index, allowGaps, origin));
      }
  }

  /** A stranding row raises, so the batch goes no further. */
  lemma StrandingStops(s: Store, policy: Policy, row: Raw, index: int, allowGaps: bool)
    ensures Strands(s, policy, row, index, allowGaps) ==> IngestOne(s, policy, row, index, allowGaps).1.Unreadable?
  {
    hide VerifyEvent, CloseTimeFor, AfterHashCheck, ForkInBatch, Write, Readable;
    var v := VerifyEvent(row, policy, s.contractId, CloseTimeFor(s.events, row), index);
    if v.Verified? {
      ReadableExactly(AfterHashCheck(Pin(s, v.event), v.event), v.event);
    }
  }

  /** The invariant is about events, cursor and gaps only. */
  lemma BookkeepingKeepsInv(s: Store, t: Store, origin: int)
    requires s.events == t.events && s.cursor == t.cursor && s.gaps == t.gaps
    ensures Inv(t, origin) <==> Inv(s, origin)
  {}

  lemma InvHasCursor(s: Store, origin: int)
    ensures Inv(s, origin) ==> CursorIsMax(s)
  {}

  lemma HashCheckKeepsInv(s: Store, e: Event, origin: int)
    requires Inv(s, origin)
    ensures Inv(AfterHashCheck(s, e), origin)
  {
    hide Inv, RollbackTo;
    if HashConflict(s, e) {
      var logged := s.(reorgs := s.reorgs + [(e.ledger, StoredHash(s.events, e.ledger).value, e.hash.value)]);
      BookkeepingKeepsInv(s, logged, origin);
      RollbackKeepsInv(logged, e.ledger - 1, origin);
    }
  }

  // -- whole runs -----------------------------------------------------------

  datatype Op = Ingested(rows: seq<Raw>, allowGaps: bool) | RolledBack(ledger: int)

  /** Runs the row loop, carrying the origin along; `clean` tells whether no row was stranded. */
  ghost function Rows(s: Store, policy: Policy, rows: seq<Raw>, counters: map<Option<int>, int>, allowGaps: bool, origin: int)
    : (r: (Store, int, bool))
    decreases |rows|
  {
    if rows == [] then (s, origin, true) else
    var i := Numbered(counters, rows[0]);
    var (s1, o) := IngestOne(s, policy, rows[0], i, allowGaps);
    var origin1 := OriginAfter(s, policy, rows[0], i, allowGaps, origin);
    var clean := !Strands(s, policy, rows[0], i, allowGaps);
    if o.Added? || o.Replayed? then
      Rows(s1, policy, rows[1..], Bump(counters, rows[0]), allowGaps, origin1)
    else (s1, origin1, clean)
  }

  ghost function Run(s: Store, policy: Policy, ops: seq<Op>, origin: int): (r: (Store, int, bool))
    decreases |ops|
  {
    if ops == [] then (s, origin, true) else
    match ops[0]
    case RolledBack(l) => Run(RollbackTo(s, l), policy, ops[1..], origin)
    case Ingested(rows, allowGaps) =>
      var (s1, origin1, clean) := Rows(s.(batchHash := None), policy, rows, map[], allowGaps, origin);
      var (s2, origin2, rest) := Run(s1, policy, ops[1..], origin1);
      (s2, origin2, clean && rest)
  }

  /** The ghost bookkeeping does not change what `ingest` does. */
  lemma {:induction false} RowsIsIngest(s: Store, policy: Policy, rows: seq<Raw>, counters: map<Option<int>, int>, allowGaps: bool, origin: int)
    ensures Rows(s, policy, rows, counters, allowGaps, origin).0 == IngestRows(s, policy, rows, counters, allowGaps).0
    decreases |rows|
  {
    if rows != [] {
      var i := Numbered(counters, rows[0]);
      var s1 := IngestOne(s, policy, rows[0], i, allowGaps).0;
      RowsIsIngest(s1, policy, rows[1..], Bump(counters, rows[0]), allowGaps,
                   OriginAfter(s, policy, rows[0], i, allowGaps, origin));
    }
  }

  lemma {:induction false} RowsKeepInv(s: Store, policy: Policy, rows: seq<Raw>, counters: map<Option<int>, int>, allowGaps: bool, origin: int)
    requires Inv(s, origin)
    ensures var (t, origin1, clean) := Rows(s, policy, rows, counters, allowGaps, origin);
            Inv(t, origin1) <==> clean
    decreases |rows|
  {
    hide IngestOne, OriginAfter, Inv;
    if rows != [] {
      var i := Numbered(counters, rows[0]);
      StepKeepsInv(s, policy, rows[0], i, allowGaps, origin);
      StrandingStops(s, policy, rows[0], i, allowGaps);
      hide Strands;
      var (s1, o) := IngestOne(s, policy, rows[0], i, allowGaps);
      if o.Added? || o.Replayed? {
        RowsKeepInv(s1, policy, rows[1..], Bump(counters, rows[0]), allowGaps,
                    OriginAfter(s, policy, rows[0], i, allowGaps, origin));
      }
    }
  }

  /** Every state reached from an empty store by ingest calls, with or without
      `allow_gaps`, and rollbacks satisfies the invariant, as long as no
      unreadable event is written above the cursor. */
  lemma {:induction false} RunKeepsInv(s: Store, policy: Policy, ops: seq<Op>, origin: int)
    requires Inv(s, origin)
    requires Run(s, policy, ops, origin).2
    ensures var (t, origin1, _) := Run(s, policy, ops, origin); Inv(t, origin1)
    decreases |ops|
  {
    if ops != [] {
      match ops[0]
      case RolledBack(l) =>
        RollbackKeepsInv(s, l, origin);
        RunKeepsInv(RollbackTo(s, l), policy, ops[1..], origin);
      case Ingested(rows, allowGaps) =>
        RowsKeepInv(s.(batchHash := None), policy, rows, map[], allowGaps, origin);
        var (s1, origin1, _) := Rows(s.(batchHash := None), policy, rows, map[], allowGaps, origin);
        RunKeepsInv(s1, policy, ops[1..], origin1);
    }
  }

  /** Whether a row, if it is admitted at all, carries the data its topic needs. */
  predicate RowReadable(row: Raw) {
    row.Row? && row.topic.Some? && row.data.Some? ==> Readable(row.topic.value, row.data.value)
  }

  ghost predicate AllReadable(ops: seq<Op>) {
    forall i | 0 <= i < |ops| && ops[i].Ingested? :: forall j | 0 <= j < |ops[i].rows| :: RowReadable(ops[i].rows[j])
  }

  lemma ReadableDoesNotStrand(s: Store, policy: Policy, row: Raw, index: int, allowGaps: bool)
    requires RowReadable(row)
    ensures !Strands(s, policy, row, index, allowGaps)
  {
    hide CloseTimeFor, AfterHashCheck, ForkInBatch, Readable;
  }

  lemma {:induction false} ReadableRowsAreClean(s: Store, policy: Policy, rows: seq<Raw>, counters: map<Option<int>, int>, allowGaps: bool, origin: int)
    requires forall j | 0 <= j < |rows| :: RowReadable(rows[j])
    ensures Rows(s, policy, rows, counters, allowGaps, origin).2
    decreases |rows|
  {
    if rows != [] {
      hide IngestOne, Strands, RowReadable;
      var i := Numbered(counters, rows[0]);
      ReadableDoesNotStrand(s, policy, rows[0], i, allowGaps);
      ReadableRowsAreClean(IngestOne(s, policy, rows[0], i, allowGaps).0, policy, rows[1..], Bump(counters, rows[0]), allowGaps,
                           OriginAfter(s, policy, rows[0], i, allowGaps, origin));
    }
  }

  /** Runs over readable rows strand nothing, whatever else they contain: refusals, replays, jumps, reorgs, rollbacks. */
  lemma {:induction false} ReadableRunsAreClean(s: Store, policy: Policy, ops: seq<Op>, origin: int)
    requires AllReadable(ops)
    ensures Run(s, policy, ops, origin).2
    decreases |ops|
  {
    if ops != [] {
      hide Rows, RowReadable;
      match ops[0]
      case RolledBack(l) => ReadableRunsAreClean(RollbackTo(s, l), policy, ops[1..], origin);
      case Ingested(rows, allowGaps) =>
        ReadableRowsAreClean(s.(batchHash := None), policy, rows, map[], allowGaps, origin);
        var (s1, origin1, _) := Rows(s.(batchHash := None), policy, rows, map[], allowGaps, origin);
        ReadableRunsAreClean(s1, policy, ops[1..], origin1);
    }
  }

  /** Every state reached from an empty store over readable rows satisfies the invariant. */
  lemma ReadableRunsKeepInv(policy: Policy, ops: seq<Op>, origin: int)
    requires AllReadable(ops)
    ensures var (t, origin1, _) := Run(Empty(policy), policy, ops, origin); Inv(t, origin1)
  {
    hide Run;
    ReadableRunsAreClean(Empty(policy), policy, ops, origin);
    RunKeepsInv(Empty(policy), policy, ops, origin);
  }

  /** And readability is what it takes: the first row of a store, if it is admitted, keeps the invariant
      if and only if it is readable. */
  lemma FirstRowExactly(policy: Policy, row: Raw, index: int, allowGaps: bool, origin: int)
    requires VerifyEvent(row, policy, Empty(policy).contractId, None, index).Verified?
    ensures Inv(IngestOne(Empty(policy), policy, row, index, allowGaps).0,
                OriginAfter(Empty(policy), policy, row, index, allowGaps, origin))
       <==> RowReadable(row)
  {
    var s := Empty(policy);
    assert AtOrBelow(s.events, row.ledger.value) == {};
    assert AtLedger(s.events, row.ledger.value) == {};
    assert CloseTimeFor(s.events, row) == None;
    var e := VerifyEvent(row, policy, s.contractId, None, index).event;
    assert row.topic == Some(e.topic) && row.data == Some(e.data) && row.ledger == Some(e.ledger);
    hide VerifyEvent, Readable, IngestOne, Inv, OriginAfter;
    StepKeepsInv(s, policy, row, index, allowGaps, origin) by {
      EmptyInv(policy, origin);
    }
  }

  lemma EmptyInv(policy: Policy, origin: int)
    ensures Inv(Empty(policy), origin)
  {}

  /** What a consumer may rely on: `trusted_ledger` never passes the cursor, from the origin up to it nothing
      is missing, and no later ledger would do: it is the cursor, or the next one is the first of a gap. */
  lemma TrustedIsComplete(s: Store, origin: int)
    requires Inv(s, origin)
    ensures Trusted(s).Some? <==> s.cursor.Some?
    ensures Trusted(s).Some? ==> Trusted(s).value <= s.cursor.value
    ensures Trusted(s).Some? ==> Trusted(s).value in Ledgers(s.events)
    ensures Trusted(s).Some? ==> forall x | origin < x <= Trusted(s).value :: x in Ledgers(s.events)
    ensures Trusted(s).Some? ==> Trusted(s) == s.cursor || exists g :: g in s.gaps && g.0 == Trusted(s).value + 1
  {
    MaxLedgerIsMax(s.events);
    if s.gaps != {} {
      var g :| g in s.gaps && g.0 == LeastStart(s.gaps);
      assert g.0 - 1 in Ledgers(s.events);
    }
  }

  /** The same for every state reachable over readable rows. */
  lemma TrustedAlways(policy: Policy, ops: seq<Op>, origin: int)
    requires AllReadable(ops)
    ensures var (t, origin1, _) := Run(Empty(policy), policy, ops, origin);
            && (Trusted(t).Some? <==> t.cursor.Some?)
            && (Trusted(t).Some? ==>
                  && Trusted(t).value <= t.cursor.value
                  && Trusted(t).value in Ledgers(t.events)
                  && forall x | origin1 < x <= Trusted(t).value :: x in Ledgers(t.events))
  {
    ReadableRunsKeepInv(policy, ops, origin);
    var (t, origin1, _) := Run(Empty(policy), policy, ops, origin);
    TrustedIsComplete(t, origin1);
  }

  /** The stranding branch is reachable: a price submission without an asset is
      enough to leave an indexed ledger with no cursor at all. */
  lemma UnreadableEventStrands(policy: Policy) returns (row: Raw)
    requires policy.minLedger <= 1 && policy.allowedTopics == [] && !policy.requireLedgerHash
    requires Or(policy.expectedContractId, None).None?
    ensures var s := IngestOne(Empty(policy), policy, row, 0, false).0;
            s.cursor.None? && 1 in Ledgers(s.events)
  {
    row := Row(Some(1), Absent, Some(1), Some("C"), Some("price_submitted"), Absent,
               Some(Data(None, None, None, None, Absent, Absent)));
    var s := Empty(policy);
    assert AtOrBelow(s.events, 1) == {};
    assert !Blank("C") by { assert "C"[0] == 'C'; }
    assert !Blank("price_submitted") by { assert "price_submitted"[0] == 'p'; }
    var e := Event(1, 0, None, 1, "C", "price_submitted", row.data.value);
    assert VerifyEvent(row, policy, None, None, 0) == Verified(e);
    LedgersOfWritten(s.events, e);
  }
}
