/** Reorg safety: rolling a ledger back and taking in its replacement is the
    same as never having seen what it replaced. */
module Reorg {
  import opened Options
  import opened Authenticity
  import opened Store
  import Gaps
  import Resume

  /** The tables a query reads. */
  ghost predicate SameTables(a: Store, b: Store) {
    && a.events == b.events && a.sources == b.sources && a.submissions == b.submissions
    && a.aggregates == b.aggregates && a.cursor == b.cursor
  }

  /** ... and what later rows are judged by. */
  ghost predicate SameView(a: Store, b: Store) {
    SameTables(a, b) && a.contractId == b.contractId && a.batchHash == b.batchHash
  }

  /** Everything in the tables lies at or below `keep`. */
  ghost predicate Low(s: Store, keep: int) {
    && (forall k | k in s.events :: k.ledger <= keep)
    && (forall k | k in s.submissions :: k.ledger <= keep)
    && (forall k | k in s.aggregates :: k.ledger <= keep)
    && (forall x | x in s.sources ::
          s.sources[x].added <= keep && (s.sources[x].removed.Some? ==> s.sources[x].removed.value <= keep))
  }

  /** ... and the cursor with it. */
  ghost predicate Below(s: Store, keep: int) {
    Low(s, keep) && s.cursor == MaxLedger(s.events)
  }

  ghost predicate Sound(s: Store, policy: Policy) {
    && s.cursor == MaxLedger(s.events)
    && (Or(policy.expectedContractId, None).Some? ==> s.contractId == policy.expectedContractId)
    && forall k | k in s.events :: k == Key(s.events[k].ledger, s.events[k].index)
  }

  // -- rolling back ---------------------------------------------------------

  lemma KeepTwice<V>(table: map<Key, V>, l: int, keep: int)
    requires keep <= l
    ensures Keep(Keep(table, l), keep) == Keep(table, keep)
  {}

  lemma KeepSourcesTwice(sources: map<string, Source>, l: int, keep: int)
    requires keep <= l
    ensures KeepSources(KeepSources(sources, l), keep) == KeepSources(sources, keep)
  {}

  /** A deeper rollback swallows a shallower one. */
  lemma RollbackTwice(s: Store, l: int, keep: int)
    requires keep <= l
    ensures SameTables(RollbackTo(RollbackTo(s, l), keep), RollbackTo(s, keep))
  {
    KeepTwice(s.events, l, keep);
    KeepTwice(s.submissions, l, keep);
    KeepTwice(s.aggregates, l, keep);
    KeepSourcesTwice(s.sources, l, keep);
  }

  lemma RollbackOfBelow(s: Store, keep: int)
    requires Below(s, keep)
    ensures SameTables(RollbackTo(s, keep), s)
  {
    assert Keep(s.events, keep) == s.events;
    assert Keep(s.submissions, keep) == s.submissions;
    assert Keep(s.aggregates, keep) == s.aggregates;
    assert KeepSources(s.sources, keep) == s.sources;
  }

  // -- which events a rollback can undo -------------------------------------

  /** `e` overwrites what `base` says of a source: it re-adds one that is
      there, or removes again one that was already removed. */
  predicate Overwrites(base: map<string, Source>, e: Event) {
    && e.data.source.Some? && e.data.source.value in base
    && (e.topic == "source_added" || (e.topic == "source_removed" && base[e.data.source.value].removed.Some?))
  }

  /** Some source of `base` is gone from `now`, or its removal is. */
  ghost predicate Damaged(base: map<string, Source>, now: map<string, Source>) {
    exists x :: x in base && (x !in now || (base[x].removed.Some? && now[x].removed.None?))
  }

  ghost function SourcesAfter(sources: map<string, Source>, e: Event): map<string, Source> {
    if e.data.source.None? then sources
    else if e.topic == "source_added" then sources[e.data.source.value := Source(e.data.name, e.ledger, None)]
    else if e.topic == "source_removed" && e.data.source.value in sources then
      sources[e.data.source.value := sources[e.data.source.value].(removed := Some(e.ledger))]
    else sources
  }

  lemma MaterializeSources(s: Store, e: Event)
    ensures Materialize(s, e).Some? ==> Materialize(s, e).value.sources == SourcesAfter(s.sources, e)
  {
    hide LatestPrices;
  }

  lemma KeepOfWritten<V>(table: map<Key, V>, k: Key, v: V, keep: int)
    requires k.ledger > keep
    ensures Keep(table[k := v], keep) == Keep(table, keep)
  {}

  lemma MaterializeKept(s: Store, e: Event, keep: int)
    requires e.ledger > keep
    ensures Materialize(s, e).Some? ==>
              && Keep(Materialize(s, e).value.submissions, keep) == Keep(s.submissions, keep)
              && Keep(Materialize(s, e).value.aggregates, keep) == Keep(s.aggregates, keep)
  {
    hide LatestPrices, Keep;
    var k := Key(e.ledger, e.index);
    if Materialize(s, e).Some? {
      var m := Materialize(s, e).value;
      if k in m.submissions {
        KeepOfWritten(s.submissions, k, m.submissions[k], keep);
      }
      if k in m.aggregates {
        KeepOfWritten(s.aggregates, k, m.aggregates[k], keep);
      }
    }
  }

  /** An event above `keep` is invisible to a rollback to `keep` exactly when it overwrites nothing kept. */
  lemma {:induction false} InvisibleExactly(sources: map<string, Source>, e: Event, keep: int)
    requires e.ledger > keep
    ensures KeepSources(SourcesAfter(sources, e), keep) == KeepSources(sources, keep)
            <==> !Overwrites(KeepSources(sources, keep), e)
  {
    var base, after := KeepSources(sources, keep), KeepSources(SourcesAfter(sources, e), keep);
    if Overwrites(base, e) {
      var x := e.data.source.value;
      assert x in base && (x !in after || after[x].removed.None?);
    } else {
      assert forall x :: x in after <==> x in base;
      assert after == base;
    }
  }

  /** Damage is never repaired by later events. */
  lemma DamageStays(base: map<string, Source>, sources: map<string, Source>, e: Event, keep: int)
    requires e.ledger > keep
    ensures Damaged(base, KeepSources(sources, keep)) ==> Damaged(base, KeepSources(SourcesAfter(sources, e), keep))
    ensures KeepSources(sources, keep) == base && Overwrites(base, e) ==> Damaged(base, KeepSources(SourcesAfter(sources, e), keep))
  {
    var now, after := KeepSources(sources, keep), KeepSources(SourcesAfter(sources, e), keep);
    if Damaged(base, now) {
      var x :| x in base && (x !in now || (base[x].removed.Some? && now[x].removed.None?));
      assert x !in after || (base[x].removed.Some? && after[x].removed.None?);
    }
    if now == base && Overwrites(base, e) {
      var x := e.data.source.value;
      assert x in base && (x !in after || (base[x].removed.Some? && after[x].removed.None?));
    }
  }

  // -- later history leaves what is below alone -----------------------------

  /** `s` is `base`, which lies at or below `keep`, plus some history above it. */
  ghost predicate Extends(s: Store, base: Store, policy: Policy, keep: int) {
    && Sound(s, policy)
    && Keep(s.events, keep) == base.events
    && Keep(s.submissions, keep) == base.submissions
    && Keep(s.aggregates, keep) == base.aggregates
    && (base.contractId.Some? ==> s.contractId == base.contractId)
    && NotEarlier(s.events, LastCloseTime(base.events, keep), keep)
  }

  ghost predicate NotEarlier(events: map<Key, Event>, floor: Option<int>, keep: int) {
    floor.Some? ==> forall k | k in events && k.ledger > keep :: floor.value <= events[k].timestamp
  }

  /** The last close time at or below `keep` only reads what a rollback to `keep` keeps. */
  lemma CloseTimeOfKept(events: map<Key, Event>, keep: int)
    ensures LastCloseTime(Keep(events, keep), keep) == LastCloseTime(events, keep)
  {
    assert AtOrBelow(Keep(events, keep), keep) == AtOrBelow(events, keep);
  }

  /** Above `keep`, the last close time never falls below the one at `keep`. */
  lemma CloseTimeAbove(events: map<Key, Event>, keep: int, ledger: int)
    requires ledger > keep
    requires NotEarlier(events, LastCloseTime(Keep(events, keep), keep), keep)
    ensures var floor := LastCloseTime(Keep(events, keep), keep);
            floor.Some? ==> LastCloseTime(events, ledger).Some? && floor.value <= LastCloseTime(events, ledger).value
  {
    CloseTimeOfKept(events, keep);
    var floor := LastCloseTime(events, keep);
    if floor.Some? {
      var low, high := AtOrBelow(events, keep), AtOrBelow(events, ledger);
      assert Last(low) in high;
      if Last(high).ledger <= keep {
        assert Last(high) in low;
      }
    }
  }

  lemma MaxLedgerOfWritten(events: map<Key, Event>, e: Event)
    ensures var c := MaxLedger(events);
            MaxLedger(events[Key(e.ledger, e.index) := e]) == (if c.None? || e.ledger > c.value then Some(e.ledger) else c)
  {
    Gaps.LedgersOfWritten(events, e);
    Gaps.MaxLedgerIsMax(events);
    Gaps.MaxLedgerIsMax(events[Key(e.ledger, e.index) := e]);
  }

  lemma RollbackExtends(s: Store, base: Store, policy: Policy, keep: int, l: int)
    requires Extends(s, base, policy, keep) && keep <= l
    ensures Extends(RollbackTo(s, l), base, policy, keep)
    ensures KeepSources(RollbackTo(s, l).sources, keep) == KeepSources(s.sources, keep)
  {
    RollbackTwice(s, l, keep);
  }

  /** A write above `keep`, table by table. */
  lemma WriteKeeps(s: Store, keep: int, e: Event)
    requires e.ledger > keep
    requires Write(s, e).1.Added?
    ensures var t := Write(s, e).0;
            && Keep(t.events, keep) == Keep(s.events, keep)
            && Keep(t.submissions, keep) == Keep(s.submissions, keep)
            && Keep(t.aggregates, keep) == Keep(s.aggregates, keep)
            && t.sources == SourcesAfter(s.sources, e)
  {
    hide Materialize, CloseGapAt, SourcesAfter, Keep;
    var s1 := s.(gaps := CloseGapAt(WithJump(s, e), e.ledger), events := s.events[Key(e.ledger, e.index) := e]);
    KeepOfWritten(s.events, Key(e.ledger, e.index), e, keep);
    MaterializeKeeps(s1, e);
    MaterializeSources(s1, e);
    MaterializeKept(s1, e, keep);
  }

  /** One event written above `keep`. */
  lemma WriteExtends(s: Store, base: Store, policy: Policy, keep: int, e: Event)
    requires Extends(s, base, policy, keep) && e.ledger > keep
    requires s.contractId.Some?
    requires LastCloseTime(base.events, keep).Some? ==> LastCloseTime(base.events, keep).value <= e.timestamp
    requires Write(s, e).1.Added?
    ensures Extends(Write(s, e).0, base, policy, keep)
    ensures Write(s, e).0.sources == SourcesAfter(s.sources, e)
  {
    hide Write, CloseGapAt, MaxLedger, LastCloseTime, SourcesAfter, Keep, WithJump;
    WriteEffect(s, e);
    WriteKeeps(s, keep, e);
    MaxLedgerOfWritten(s.events, e);
  }

  /** The event an accepted row carries. */
  ghost function Carried(s: Store, policy: Policy, row: Raw, index: int): Verdict {
    VerifyEvent(row, policy, s.contractId, CloseTimeFor(s.events, row), index)
  }

  lemma CarriedFacts(s: Store, policy: Policy, row: Raw, index: int)
    requires Carried(s, policy, row, index).Verified?
    ensures var e := Carried(s, policy, row, index).event;
            && row.Ledger() == Some(e.ledger)
            && (LastCloseTime(s.events, e.ledger).Some? ==> LastCloseTime(s.events, e.ledger).value <= e.timestamp)
            && (Or(policy.expectedContractId, s.contractId).Some? ==> Some(e.contractId) == Or(policy.expectedContractId, s.contractId))
  {
    hide LastCloseTime;
  }

  ghost predicate Taken(o: Outcome) { o.Added? || o.Replayed? }

  /** One accepted row above `keep`, whether it writes, replays or reorganises. */
  lemma StepExtends(s: Store, base: Store, policy: Policy, keep: int, row: Raw, index: int, allowGaps: bool)
    requires Extends(s, base, policy, keep)
    requires row.Ledger().Some? && row.Ledger().value > keep
    requires Taken(IngestOne(s, policy, row, index, allowGaps).1)
    ensures Carried(s, policy, row, index).Verified? && Carried(s, policy, row, index).event.ledger > keep
    ensures Extends(IngestOne(s, policy, row, index, allowGaps).0, base, policy, keep)
    ensures var (t, o) := IngestOne(s, policy, row, index, allowGaps);
            var e := Carried(s, policy, row, index).event;
            exists sources :: KeepSources(sources, keep) == KeepSources(s.sources, keep)
                              && t.sources == (if o.Added? then SourcesAfter(sources, e) else sources)
  {
    hide VerifyEvent, Write, CloseTimeFor, HashConflict, LastCloseTime, KeepSources, RollbackTo, StoredHash, ForkInBatch, SourcesAfter, Keep, NotEarlier;
    var e := Carried(s, policy, row, index).event;
    CarriedFacts(s, policy, row, index);
    CloseTimeAbove(s.events, keep, e.ledger);
    var s1 := Pin(s, e);
    PinExtends(s, base, policy, keep, row, index);
    var log := s1.reorgs + [(e.ledger, StoredHash(s1.events, e.ledger).GetOr(""), e.hash.GetOr(""))];
    var s2 := AfterHashCheck(s1, e);
    if HashConflict(s1, e) {
      var logged := s1.(reorgs := log);
      assert Extends(logged, base, policy, keep);
      RollbackExtends(logged, base, policy, keep, e.ledger - 1);
      ConflictIsSome(s1, e);
      RollbackKeepsContract(logged, e.ledger - 1);
      assert s2 == RollbackTo(logged, e.ledger - 1);
    }
    assert Extends(s2, base, policy, keep) && s2.contractId.Some?;
    assert KeepSources(s2.sources, keep) == KeepSources(s.sources, keep);
    assert IngestOne(s, policy, row, index, allowGaps) == Accept(s2, e, allowGaps);
    if IngestOne(s, policy, row, index, allowGaps).1.Added? {
      WriteExtends(s2, base, policy, keep, e);
      assert Accept(s2, e, allowGaps).0.sources == SourcesAfter(s2.sources, e);
    } else {
      WriteEffect(s2, e);
      assert Accept(s2, e, allowGaps).0 == s2;
    }
  }

  lemma ConflictIsSome(s: Store, e: Event)
    requires HashConflict(s, e)
    ensures StoredHash(s.events, e.ledger).Some? && e.hash.Some?
  {}

  lemma RollbackKeepsContract(s: Store, l: int)
    ensures RollbackTo(s, l).contractId == s.contractId && RollbackTo(s, l).batchHash == s.batchHash
  {}

  lemma PinExtends(s: Store, base: Store, policy: Policy, keep: int, row: Raw, index: int)
    requires Extends(s, base, policy, keep)
    requires Carried(s, policy, row, index).Verified?
    ensures Extends(Pin(s, Carried(s, policy, row, index).event), base, policy, keep)
  {
    hide LastCloseTime, MaxLedger;
  }

  // -- what a rollback leaves of the gaps -----------------------------------

  /** A write above `keep` that splits a gap reaching down to `keep`, or jumps from below it. */
  ghost predicate LeavesGap(s: Store, e: Event, keep: int) {
    || (exists g :: g in s.gaps && g.0 <= keep && Covers(g, e.ledger))
    || (s.cursor.Some? && s.cursor.value + 1 <= keep && e.ledger > s.cursor.value + 1
        && (s.cursor.value + 1, e.ledger - 1) !in s.gaps)
  }

  /** Rolling back over one write restores the gaps if and only if the write did neither: rollback
      deletes gaps by where they start, so one that starts at or below `keep` stays as the write left it. */
  lemma {:induction false} GapsRestoredExactly(s: Store, e: Event, keep: int)
    requires e.ledger > keep
    ensures KeepGaps(Write(s, e).0.gaps, keep) == KeepGaps(s.gaps, keep) <==> !LeavesGap(s, e, keep)
  {
    hide Write;
    WriteEffect(s, e);
    var after, before := KeepGaps(Write(s, e).0.gaps, keep), KeepGaps(s.gaps, keep);
    var jump := (s.cursor.GetOr(0) + 1, e.ledger - 1);
    if g :| g in s.gaps && g.0 <= keep && Covers(g, e.ledger) {
      assert g in before && g !in after;
    } else if LeavesGap(s, e, keep) {
      assert jump in after && jump !in before;
    } else {
      assert forall g :: g in after <==> g in before;
    }
  }

  // -- a whole later history ------------------------------------------------

  ghost predicate RowsAbove(rows: seq<Raw>, keep: int) {
    forall i | 0 <= i < |rows| :: rows[i].Ledger().Some? && rows[i].Ledger().value > keep
  }

  /** The events a batch writes, in order. */
  ghost function Written(s: Store, policy: Policy, rows: seq<Raw>, counters: map<Option<int>, int>, allowGaps: bool): (r: seq<Event>)
    decreases |rows|
  {
    if rows == [] then [] else
    var i := Numbered(counters, rows[0]);
    var (t, o) := IngestOne(s, policy, rows[0], i, allowGaps);
    (if o.Added? && Carried(s, policy, rows[0], i).Verified? then [Carried(s, policy, rows[0], i).event] else [])
    + (if Taken(o) then Written(t, policy, rows[1..], Bump(counters, rows[0]), allowGaps) else [])
  }

  ghost function WrittenByAll(s: Store, policy: Policy, batches: seq<seq<Raw>>, allowGaps: bool): (r: seq<Event>)
    decreases |batches|
  {
    if batches == [] then [] else
    var (t, _, o) := Ingest(s, policy, batches[0], allowGaps);
    Written(s.(batchHash := None), policy, batches[0], map[], allowGaps)
    + (if o.Done? then WrittenByAll(t, policy, batches[1..], allowGaps) else [])
  }

  /** How the kept sources stand after some history: intact, or damaged for good. */
  ghost predicate Standing(base: Store, s: Store, keep: int, intact: bool) {
    if intact then KeepSources(s.sources, keep) == base.sources else Damaged(base.sources, KeepSources(s.sources, keep))
  }

  lemma StepStanding(base: Store, s: Store, t: Store, e: Event, added: bool, sources: map<string, Source>, keep: int, intact: bool)
    requires e.ledger > keep
    requires KeepSources(sources, keep) == KeepSources(s.sources, keep)
    requires t.sources == (if added then SourcesAfter(sources, e) else sources)
    requires Standing(base, s, keep, intact)
    ensures Standing(base, t, keep, intact && !(added && Overwrites(base.sources, e)))
  {
    if added {
      InvisibleExactly(sources, e, keep);
      DamageStays(base.sources, sources, e, keep);
    }
  }

  lemma {:induction false} RowsExtend(s: Store, base: Store, policy: Policy, keep: int, rows: seq<Raw>,
                                      counters: map<Option<int>, int>, allowGaps: bool, intact: bool)
    requires Extends(s, base, policy, keep) && RowsAbove(rows, keep)
    requires Standing(base, s, keep, intact)
    requires IngestRows(s, policy, rows, counters, allowGaps).2.Done?
    ensures Extends(IngestRows(s, policy, rows, counters, allowGaps).0, base, policy, keep)
    ensures Standing(base, IngestRows(s, policy, rows, counters, allowGaps).0, keep,
                     intact && forall e | e in Written(s, policy, rows, counters, allowGaps) :: !Overwrites(base.sources, e))
    decreases |rows|
  {
    hide IngestOne, Extends, Standing, Overwrites, Carried;
    if rows != [] {
      var i := Numbered(counters, rows[0]);
      var (t, o) := IngestOne(s, policy, rows[0], i, allowGaps);
      Resume.NeverDone(s, policy, rows[0], i, allowGaps);
      StepExtends(s, base, policy, keep, rows[0], i, allowGaps);
      var e := Carried(s, policy, rows[0], i).event;
      var sources :| KeepSources(sources, keep) == KeepSources(s.sources, keep)
                     && t.sources == (if o.Added? then SourcesAfter(sources, e) else sources);
      StepStanding(base, s, t, e, o.Added?, sources, keep, intact);
      var intact1 := intact && !(o.Added? && Overwrites(base.sources, e));
      RowsExtend(t, base, policy, keep, rows[1..], Bump(counters, rows[0]), allowGaps, intact1);
      var rest := Written(t, policy, rows[1..], Bump(counters, rows[0]), allowGaps);
      assert Written(s, policy, rows, counters, allowGaps) == (if o.Added? then [e] else []) + rest;
    }
  }

  lemma {:induction false} HistoryExtends(s: Store, base: Store, policy: Policy, keep: int, batches: seq<seq<Raw>>, allowGaps: bool, intact: bool)
    requires Extends(s, base, policy, keep) && forall i | 0 <= i < |batches| :: RowsAbove(batches[i], keep)
    requires Standing(base, s, keep, intact)
    requires Resume.Feed(s, policy, batches, allowGaps).2
    ensures Extends(Resume.Feed(s, policy, batches, allowGaps).0, base, policy, keep)
    ensures Standing(base, Resume.Feed(s, policy, batches, allowGaps).0, keep,
                     intact && forall e | e in WrittenByAll(s, policy, batches, allowGaps) :: !Overwrites(base.sources, e))
    decreases |batches|
  {
    hide IngestRows, Extends, Standing, Overwrites, Written;
    if batches != [] {
      var s0 := s.(batchHash := None);
      MarkerIsIrrelevant(s, s0, base, policy, keep, intact);
      RowsExtend(s0, base, policy, keep, batches[0], map[], allowGaps, intact);
      var t := Ingest(s, policy, batches[0], allowGaps).0;
      var first := Written(s0, policy, batches[0], map[], allowGaps);
      HistoryExtends(t, base, policy, keep, batches[1..], allowGaps,
                     intact && forall e | e in first :: !Overwrites(base.sources, e));
      assert WrittenByAll(s, policy, batches, allowGaps) == first + WrittenByAll(t, policy, batches[1..], allowGaps);
    }
  }

  lemma MarkerIsIrrelevant(s: Store, t: Store, base: Store, policy: Policy, keep: int, intact: bool)
    requires Resume.Core(s) == Resume.Core(t)
    requires Extends(s, base, policy, keep) && Standing(base, s, keep, intact)
    ensures Extends(t, base, policy, keep) && Standing(base, t, keep, intact)
  {}

  /** A store at or below `keep` is its own base. */
  lemma BelowExtendsItself(s: Store, policy: Policy, keep: int)
    requires Below(s, keep) && Sound(s, policy)
    ensures Extends(s, s, policy, keep) && Standing(s, s, keep, true)
  {
    RollbackOfBelow(s, keep);
  }

  /** Rolling back to `keep` after any accepted history above it restores events, submissions,
      aggregates and cursor always, and the sources if and only if the history overwrote none that was kept. */
  lemma RollbackRestores(base: Store, policy: Policy, keep: int, later: seq<seq<Raw>>, allowGaps: bool)
    requires Below(base, keep) && Sound(base, policy)
    requires forall i | 0 <= i < |later| :: RowsAbove(later[i], keep)
    requires Resume.Feed(base, policy, later, allowGaps).2
    ensures var s := RollbackTo(Resume.Feed(base, policy, later, allowGaps).0, keep);
            && SameTables(s.(sources := base.sources), base)
            && (s.sources == base.sources
                <==> forall e | e in WrittenByAll(base, policy, later, allowGaps) :: !Overwrites(base.sources, e))
  {
    hide Resume.Feed, WrittenByAll, Overwrites, KeepSources;
    BelowExtendsItself(base, policy, keep);
    HistoryExtends(base, base, policy, keep, later, allowGaps, true);
    var s := Resume.Feed(base, policy, later, allowGaps).0;
    if Damaged(base.sources, KeepSources(s.sources, keep)) {
      assert KeepSources(s.sources, keep) != base.sources;
    }
  }
}
