/** The source table against the events it is made of. */
module SourceTables {
  import opened Options
  import opened Authenticity
  import opened Store
  import opened Medians
  import Gaps

  /** An indexed event adds, or removes, the source at that ledger. */
  ghost predicate Says(events: map<Key, Event>, topic: string, source: string, ledger: int, k: Key) {
    k in events && k.ledger == ledger && events[k].topic == topic && events[k].data.source == Some(source)
  }

  ghost predicate Added(events: map<Key, Event>, source: string, x: Source) {
    exists k :: Says(events, "source_added", source, x.added, k) && events[k].data.name == x.name
  }

  ghost predicate Withdrawn(events: map<Key, Event>, source: string, x: Source) {
    x.removed.Some? ==> exists k :: Says(events, "source_removed", source, x.removed.value, k)
  }

  /** Every row of the table is backed by the event that added the source, under its name, and every removal by
      the event that removed it. */
  ghost predicate Backed(s: Store) {
    forall x | x in s.sources :: Added(s.events, x, s.sources[x]) && Withdrawn(s.events, x, s.sources[x])
  }

  lemma RollbackKeepsBacked(s: Store, ledger: int)
    requires Backed(s)
    ensures Backed(RollbackTo(s, ledger))
  {
    hide MaxLedger;
    var t := RollbackTo(s, ledger);
    forall x | x in t.sources ensures Added(t.events, x, t.sources[x]) && Withdrawn(t.events, x, t.sources[x]) {
      assert x in s.sources && Added(s.events, x, s.sources[x]) && Withdrawn(s.events, x, s.sources[x]);
      var k :| Says(s.events, "source_added", x, s.sources[x].added, k) && s.events[k].data.name == s.sources[x].name;
      assert Says(t.events, "source_added", x, t.sources[x].added, k);
      if t.sources[x].removed.Some? {
        var j :| Says(s.events, "source_removed", x, s.sources[x].removed.value, j);
        assert Says(t.events, "source_removed", x, t.sources[x].removed.value, j);
      }
    }
  }

  /** What one written event does to the row of its own source: added afresh, or marked removed. */
  ghost predicate Rowed(before: map<string, Source>, after: map<string, Source>, e: Event, x: string) {
    && (e.topic == "source_added" ==> x in after && after[x] == Source(e.data.name, e.ledger, None))
    && (e.topic == "source_removed" ==> (x in after <==> x in before))
    && (e.topic == "source_removed" && x in before ==> after[x] == before[x].(removed := Some(e.ledger)))
  }

  /** ... and to the others nothing; events of other topics leave them all. */
  lemma WriteTells(s: Store, e: Event)
    requires Write(s, e).1.Added?
    ensures var (before, after) := (s.sources, Write(s, e).0.sources);
            && (forall x | Some(x) != e.data.source :: (x in after <==> x in before) && (x in after ==> after[x] == before[x]))
            && (e.topic == "source_added" || e.topic == "source_removed" ==> e.data.source.Some? && Rowed(before, after, e, e.data.source.value))
            && (e.topic != "source_added" && e.topic != "source_removed" ==> after == before)
  {
    hide LatestPrices, CloseGapAt, Median;
    assert "source_added" != "source_removed" by { assert |"source_added"| == 12 && |"source_removed"| == 14; }
  }

  lemma UnreadableLeaves(s: Store, e: Event)
    ensures Write(s, e).1.Added? || Write(s, e).0.sources == s.sources
  {}

  lemma WriteKeepsBacked(s: Store, e: Event)
    requires Backed(s) && Key(e.ledger, e.index) !in s.events
    ensures Backed(Write(s, e).0)
  {
    hide Write;
    var t, k := Write(s, e).0, Key(e.ledger, e.index);
    WriteEffect(s, e);
    UnreadableLeaves(s, e);
    if Write(s, e).1.Added? {
      WriteTells(s, e);
    }
    forall x | x in t.sources ensures Added(t.events, x, t.sources[x]) && Withdrawn(t.events, x, t.sources[x]) {
      assert t.events[k] == e;
      if x in s.sources {
        StillSays(s, t, e, x);
      }
      if t.sources[x] != (if x in s.sources then s.sources[x] else Source(None, 0, None)) || x !in s.sources {
        assert Says(t.events, e.topic, x, e.ledger, k);
      }
    }
  }

  lemma StillSays(s: Store, t: Store, e: Event, x: string)
    requires Backed(s) && x in s.sources && Key(e.ledger, e.index) !in s.events
    requires t.events == s.events[Key(e.ledger, e.index) := e]
    ensures Added(t.events, x, s.sources[x]) && Withdrawn(t.events, x, s.sources[x])
  {
    assert Added(s.events, x, s.sources[x]) && Withdrawn(s.events, x, s.sources[x]);
    var k :| Says(s.events, "source_added", x, s.sources[x].added, k) && s.events[k].data.name == s.sources[x].name;
    assert Says(t.events, "source_added", x, s.sources[x].added, k);
    if s.sources[x].removed.Some? {
      var j :| Says(s.events, "source_removed", x, s.sources[x].removed.value, j);
      assert Says(t.events, "source_removed", x, s.sources[x].removed.value, j);
    }
  }

  lemma StepKeepsBacked(s: Store, policy: Policy, row: Raw, index: int, allowGaps: bool)
    requires Backed(s)
    ensures Backed(IngestOne(s, policy, row, index, allowGaps).0)
  {
    hide VerifyEvent, CloseTimeFor, Write, StoredHash, RollbackTo, ForkInBatch, Added, Withdrawn;
    match VerifyEvent(row, policy, s.contractId, CloseTimeFor(s.events, row), index)
    case Refused(_) =>
    case Verified(e) =>
      var s1 := Pin(s, e);
      if !ForkInBatch(s1, e) {
        if HashConflict(s1, e) {
          RollbackKeepsBacked(s1.(reorgs := s1.reorgs + [(e.ledger, StoredHash(s1.events, e.ledger).value, e.hash.value)]), e.ledger - 1);
        }
        var s2 := AfterHashCheck(s1, e);
        if Key(e.ledger, e.index) !in s2.events {
          WriteKeepsBacked(s2, e);
        }
      }
  }

  lemma {:induction false} RowsKeepBacked(s: Store, policy: Policy, rows: seq<Raw>, counters: map<Option<int>, int>, allowGaps: bool)
    requires Backed(s)
    ensures Backed(IngestRows(s, policy, rows, counters, allowGaps).0)
    decreases |rows|
  {
    hide Backed, IngestOne;
    if rows != [] {
      var i := Numbered(counters, rows[0]);
      StepKeepsBacked(s, policy, rows[0], i, allowGaps);
      RowsKeepBacked(IngestOne(s, policy, rows[0], i, allowGaps).0, policy, rows[1..], Bump(counters, rows[0]), allowGaps);
    }
  }

  /** In every state any run reaches from a backed store, an empty one in particular, the table is backed. */
  lemma {:induction false} RunKeepsBacked(s: Store, policy: Policy, ops: seq<Gaps.Op>, origin: int)
    requires Backed(s)
    ensures Backed(Gaps.Run(s, policy, ops, origin).0)
    decreases |ops|
  {
    hide Added, Withdrawn, IngestRows, Gaps.Rows, RollbackTo;
    if ops != [] {
      match ops[0]
      case RolledBack(l) =>
        RollbackKeepsBacked(s, l);
        RunKeepsBacked(RollbackTo(s, l), policy, ops[1..], origin);
      case Ingested(rows, allowGaps) =>
        var s0 := s.(batchHash := None);
        RowsKeepBacked(s0, policy, rows, map[], allowGaps);
        Gaps.RowsIsIngest(s0, policy, rows, map[], allowGaps, origin);
        var (s1, origin1, _) := Gaps.Rows(s0, policy, rows, map[], allowGaps, origin);
        RunKeepsBacked(s1, policy, ops[1..], origin1);
    }
  }

  lemma AlwaysBacked(policy: Policy, ops: seq<Gaps.Op>, origin: int)
    ensures Backed(Gaps.Run(Empty(policy), policy, ops, origin).0)
  {
    hide Gaps.Run;
    RunKeepsBacked(Empty(policy), policy, ops, origin);
  }
}
