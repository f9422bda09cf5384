/** What one delivered row comes to, and why. */
module Outcomes {
  import opened Options
  import opened Authenticity
  import opened Store
  import Gaps

  // -- the trust check ------------------------------------------------------

  ghost predicate Shows(text: string) {
    exists i :: 0 <= i < |text| && text[i] !in " \t\n\r"
  }

  /** The contract a row must name: the policy's if it has one, else the one the store is pinned to. */
  ghost predicate Names(contract: string, policy: Policy, pinned: Option<string>) {
    if policy.expectedContractId.Some? && policy.expectedContractId.value != "" then contract == policy.expectedContractId.value
    else pinned.Some? ==> contract == pinned.value
  }

  /** The checks of the policy, in the order they are made. */
  ghost predicate Passes(row: Raw, policy: Policy, pinned: Option<string>, lastClose: Option<int>, index: int, k: nat) {
    match k
    case 0 => row.Row?
    case 1 => row.Row? && row.ledger.Some? && policy.minLedger <= row.ledger.value
    case 2 => row.Row? && (row.eventIndex.Val? ==> row.eventIndex.value >= 0) && !row.eventIndex.Ill? && (row.eventIndex.Absent? ==> index >= 0)
    case 3 => row.Row? && row.timestamp.Some? && row.timestamp.value > 0
    case 4 => row.Row? && row.contractId.Some? && Shows(row.contractId.value)
    case 5 => row.Row? && row.contractId.Some? && Names(row.contractId.value, policy, pinned)
    case 6 => row.Row? && row.topic.Some? && Shows(row.topic.value)
    case 7 => row.Row? && row.topic.Some? && (|policy.allowedTopics| > 0 ==> row.topic.value in policy.allowedTopics)
    case 8 => row.Row? && !row.ledgerHash.Ill?
    case 9 => row.Row? && (policy.requireLedgerHash ==> !row.ledgerHash.Absent?)
    case 10 => row.Row? && row.timestamp.Some? && (lastClose.Some? ==> row.timestamp.value >= lastClose.value)
    case _ => row.Row? && row.data.Some?
  }

  const CODES := [MalformedEvent, LedgerRange, MalformedEvent, MalformedEvent, MalformedEvent, ContractMismatch, MalformedEvent,
                  UnknownTopic, MalformedEvent, LedgerHashMissing, LedgerTimeRegression, MalformedEvent]

  /** `k` is the first check the row does not pass; all of them passed if it is the number of checks. */
  ghost predicate FailsFirst(row: Raw, policy: Policy, pinned: Option<string>, lastClose: Option<int>, index: int, k: nat) {
    && k <= |CODES|
    && (k < |CODES| ==> !Passes(row, policy, pinned, lastClose, index, k))
    && forall j: nat | j < k :: Passes(row, policy, pinned, lastClose, index, j)
  }

  lemma BlankTells(text: string)
    ensures Blank(text) <==> !Shows(text)
  {}

  /** A row is refused with the code of the first check it does not pass, and verified if it passes them all. */
  lemma RefusedExactly(row: Raw, policy: Policy, pinned: Option<string>, lastClose: Option<int>, index: int) returns (k: nat)
    ensures FailsFirst(row, policy, pinned, lastClose, index, k)
    ensures var v := VerifyEvent(row, policy, pinned, lastClose, index);
            if k < |CODES| then v == Refused(CODES[k]) else v.Verified?
  {
    assert |CODES| == 12;
    if row.Row? {
      if row.contractId.Some? { BlankTells(row.contractId.value); }
      if row.topic.Some? { BlankTells(row.topic.value); }
    }
    hide Blank, Shows;
    k := FirstFailed(row, policy, pinned, lastClose, index, 0);
    assert k > 0 ==> Passes(row, policy, pinned, lastClose, index, 0);
    assert k > 1 ==> Passes(row, policy, pinned, lastClose, index, 1);
    assert k > 2 ==> Passes(row, policy, pinned, lastClose, index, 2);
    assert k > 3 ==> Passes(row, policy, pinned, lastClose, index, 3);
    assert k > 4 ==> Passes(row, policy, pinned, lastClose, index, 4);
    assert k > 5 ==> Passes(row, policy, pinned, lastClose, index, 5);
    assert k > 6 ==> Passes(row, policy, pinned, lastClose, index, 6);
    assert k > 7 ==> Passes(row, policy, pinned, lastClose, index, 7);
    assert k > 8 ==> Passes(row, policy, pinned, lastClose, index, 8);
    assert k > 9 ==> Passes(row, policy, pinned, lastClose, index, 9);
    assert k > 10 ==> Passes(row, policy, pinned, lastClose, index, 10);
    assert k > 11 ==> Passes(row, policy, pinned, lastClose, index, 11);
  }

  lemma FirstFailed(row: Raw, policy: Policy, pinned: Option<string>, lastClose: Option<int>, index: int, from: nat) returns (k: nat)
    requires from <= |CODES| && forall j: nat | j < from :: Passes(row, policy, pinned, lastClose, index, j)
    ensures FailsFirst(row, policy, pinned, lastClose, index, k)
    decreases |CODES| - from
  {
    hide Passes;
    if from < |CODES| && Passes(row, policy, pinned, lastClose, index, from) {
      k := FirstFailed(row, policy, pinned, lastClose, index, from + 1);
    } else {
      k := from;
    }
  }

  // -- what is asked of the store -------------------------------------------

  predicate Earlier(j: Key, k: Key) { j.ledger < k.ledger || (j.ledger == k.ledger && j.index < k.index) }

  /** The last event at or below the ledger. */
  ghost predicate LastAt(events: map<Key, Event>, ledger: int, k: Key) {
    k in events && k.ledger <= ledger && forall j | j in events && j.ledger <= ledger && j != k :: Earlier(j, k)
  }

  /** The first event of the ledger. */
  ghost predicate FirstOf(events: map<Key, Event>, ledger: int, k: Key) {
    k in events && k.ledger == ledger && forall j | j in events && j.ledger == ledger && j != k :: k.index < j.index
  }

  lemma CloseTimeTells(events: map<Key, Event>, ledger: int)
    ensures LastCloseTime(events, ledger).None? <==> forall k | k in events :: k.ledger > ledger
    ensures LastCloseTime(events, ledger).Some? <==> exists k :: LastAt(events, ledger, k)
    ensures forall k | LastAt(events, ledger, k) :: LastCloseTime(events, ledger) == Some(events[k].timestamp)
  {
    var ks := AtOrBelow(events, ledger);
    if ks != {} {
      forall j | j in events && j.ledger <= ledger && j != Last(ks) ensures Earlier(j, Last(ks)) {
        assert j in ks;
      }
      assert LastAt(events, ledger, Last(ks));
      forall k | LastAt(events, ledger, k) ensures k == Last(ks) {
        assert k in ks;
      }
    } else {
      forall k | k in events ensures k.ledger > ledger {
        assert k !in ks;
      }
    }
  }

  lemma HashTells(events: map<Key, Event>, ledger: int)
    ensures forall k | FirstOf(events, ledger, k) :: StoredHash(events, ledger) == events[k].hash
    ensures StoredHash(events, ledger).Some? ==> exists k :: FirstOf(events, ledger, k)
  {
    var ks := AtLedger(events, ledger);
    if ks != {} {
      forall j | j in events && j.ledger == ledger && j != First(ks) ensures First(ks).index < j.index {
        assert j in ks;
      }
      assert FirstOf(events, ledger, First(ks));
      forall k | FirstOf(events, ledger, k) ensures k == First(ks) {
        assert k in ks;
      }
    } else {
      forall k | k in events ensures k.ledger != ledger {
        assert k !in ks;
      }
    }
  }

  /** The event's hash is not the one the first event stored for its ledger has. */
  ghost predicate Contradicts(events: map<Key, Event>, e: Event, stored: string) {
    && e.hash.Some? && e.hash.value != stored
    && exists k :: FirstOf(events, e.ledger, k) && events[k].hash == Some(stored)
  }

  lemma ConflictTells(s: Store, e: Event)
    ensures HashConflict(s, e) <==> exists stored :: Contradicts(s.events, e, stored)
    ensures forall stored | Contradicts(s.events, e, stored) :: StoredHash(s.events, e.ledger) == Some(stored)
  {
    HashTells(s.events, e.ledger);
    if HashConflict(s, e) {
      assert Contradicts(s.events, e, StoredHash(s.events, e.ledger).value);
    }
  }

  /** The newest ledger below `ledger`. */
  ghost predicate NewestBelow(events: map<Key, Event>, ledger: int, newest: Option<int>) {
    if newest.None? then forall k | k in events :: k.ledger >= ledger
    else (exists k :: k in events && k.ledger == newest.value < ledger) && forall k | k in events && k.ledger < ledger :: k.ledger <= newest.value
  }

  /** A rollback keeps the rows, sources and gaps that start at or below the ledger, forgets removals after it, and
      goes back to the newest ledger left. */
  lemma RollbackTells(s: Store, ledger: int)
    ensures var t := RollbackTo(s, ledger);
            && (forall k :: k in t.events <==> k in s.events && k.ledger <= ledger)
            && (forall k :: k in t.submissions <==> k in s.submissions && k.ledger <= ledger)
            && (forall k :: k in t.aggregates <==> k in s.aggregates && k.ledger <= ledger)
            && (forall k | k in t.events :: t.events[k] == s.events[k])
            && (forall k | k in t.submissions :: t.submissions[k] == s.submissions[k])
            && (forall k | k in t.aggregates :: t.aggregates[k] == s.aggregates[k])
            && (forall x :: x in t.sources <==> x in s.sources && s.sources[x].added <= ledger)
            && (forall x | x in t.sources :: t.sources[x].name == s.sources[x].name && t.sources[x].added == s.sources[x].added
                  && t.sources[x].removed == if s.sources[x].removed.Some? && s.sources[x].removed.value <= ledger then s.sources[x].removed else None)
            && (forall g :: g in t.gaps <==> g in s.gaps && g.0 <= ledger)
            && t.contractId == s.contractId && t.rejected == s.rejected && t.reorgs == s.reorgs && t.batchHash == s.batchHash
  {
    hide MaxLedger;
  }

  // -- the outcome ----------------------------------------------------------

  /** A refusal is logged under what ledger and index the row has, and leaves no other trace. */
  lemma RefusalTells(s: Store, policy: Policy, row: Raw, index: int, allowGaps: bool)
    requires VerifyEvent(row, policy, s.contractId, CloseTimeFor(s.events, row), index).Refused?
    ensures var code := VerifyEvent(row, policy, s.contractId, CloseTimeFor(s.events, row), index).code;
            var ledger := if row.Row? && row.ledger.Some? then row.ledger.value else -1;
            var idx := if row.NotObject? || row.eventIndex.Absent? then index else if row.eventIndex.Val? then row.eventIndex.value else -1;
            IngestOne(s, policy, row, index, allowGaps) == (s.(rejected := s.rejected + {(ledger, idx, code)}), Rejected(code))
  {
    hide VerifyEvent, CloseTimeFor;
  }

  /** A verified row: refused as a fork of its batch, replayed, refused as a jump, or written. */
  ghost predicate Comes(s: Store, e: Event, allowGaps: bool, t: Store, o: Outcome) {
    var conflict := exists stored :: Contradicts(s.events, e, stored);
    var pinned := if s.contractId.None? then Some(e.contractId) else s.contractId;
    if conflict && s.batchHash.Some? && s.batchHash.value.0 == e.ledger then
      && o == Rejected(LedgerHashInconsistent)
      && t == s.(contractId := pinned, rejected := s.rejected + {(e.ledger, e.index, LedgerHashInconsistent)})
    else
      && t.rejected == s.rejected && t.contractId == pinned
      && (!conflict ==> t.reorgs == s.reorgs && Goes(s, e, s.cursor, allowGaps, Key(e.ledger, e.index) in s.events, o))
      && (forall stored | Contradicts(s.events, e, stored) :: t.reorgs == s.reorgs + [(e.ledger, stored, e.hash.value)])
      && (conflict ==> exists newest :: NewestBelow(s.events, e.ledger, newest) && Goes(s, e, newest, allowGaps, false, o))
  }

  /** By whether the event is held, how far it is from the cursor, and whether its data can be read. */
  ghost predicate Goes(s: Store, e: Event, cursor: Option<int>, allowGaps: bool, held: bool, o: Outcome) {
    var jumps := cursor.Some? && e.ledger > cursor.value + 1 && !allowGaps;
    && (o == Replayed <==> held)
    && (!held && jumps <==> o.Gap?)
    && (!held && jumps ==> o == Gap(cursor.value + 1, e.ledger - 1))
    && (o == Added <==> !held && !jumps && Readable(e.topic, e.data))
    && (o == Unreadable <==> !held && !jumps && !Readable(e.topic, e.data))
  }

  lemma AcceptTells(s: Store, e: Event, allowGaps: bool)
    ensures var (t, o) := Accept(s, e, allowGaps);
            && Goes(s, e, s.cursor, allowGaps, Key(e.ledger, e.index) in s.events, o)
            && t.rejected == s.rejected && t.contractId == s.contractId && t.reorgs == s.reorgs
            && (o.Replayed? ==> t == s)
            && (o.Gap? ==> t == s.(gaps := s.gaps + {(o.first, o.last)}))
  {
    hide Readable, CloseGapAt, Materialize;
    ReadableExactly(s, e);
    WriteEffect(s, e);
    MaterializeKeeps(s.(gaps := CloseGapAt(WithJump(s, e), e.ledger), events := s.events[Key(e.ledger, e.index) := e]), e);
  }

  lemma RolledBackTells(s: Store, e: Event)
    ensures var t := RollbackTo(s, e.ledger - 1);
            NewestBelow(s.events, e.ledger, t.cursor) && Key(e.ledger, e.index) !in t.events
  {
    var kept := Keep(s.events, e.ledger - 1);
    Gaps.MaxLedgerIsMax(kept);
    if MaxLedger(kept).None? {
      forall k | k in s.events ensures k.ledger >= e.ledger {
        assert k !in kept;
      }
    } else {
      var k :| k in kept && k.ledger == MaxLedger(kept).value;
      assert k in s.events;
      forall j | j in s.events && j.ledger < e.ledger ensures j.ledger <= MaxLedger(kept).value {
        assert j in kept && j.ledger in Ledgers(kept);
      }
    }
  }

  lemma VerifiedTells(s: Store, policy: Policy, row: Raw, index: int, allowGaps: bool)
    requires VerifyEvent(row, policy, s.contractId, CloseTimeFor(s.events, row), index).Verified?
    ensures var e := VerifyEvent(row, policy, s.contractId, CloseTimeFor(s.events, row), index).event;
            var (t, o) := IngestOne(s, policy, row, index, allowGaps);
            Comes(s, e, allowGaps, t, o)
  {
    hide VerifyEvent, CloseTimeFor, Contradicts, StoredHash, RollbackTo, Accept, Goes, NewestBelow;
    var e := VerifyEvent(row, policy, s.contractId, CloseTimeFor(s.events, row), index).event;
    var s1 := Pin(s, e);
    ConflictTells(s1, e);
    if !ForkInBatch(s1, e) {
      var s2 := AfterHashCheck(s1, e);
      AcceptTells(s2, e, allowGaps);
      if HashConflict(s1, e) {
        var logged := s1.(reorgs := s1.reorgs + [(e.ledger, StoredHash(s1.events, e.ledger).value, e.hash.value)]);
        assert s2 == RollbackTo(logged, e.ledger - 1);
        RolledBackTells(logged, e);
        RollbackKeepsLogs(logged, e.ledger - 1);
        GoesAlike(s2, s, e, s2.cursor, allowGaps, false, IngestOne(s, policy, row, index, allowGaps).1);
      } else {
        GoesAlike(s2, s, e, s.cursor, allowGaps, Key(e.ledger, e.index) in s.events, IngestOne(s, policy, row, index, allowGaps).1);
      }
    }
  }

  lemma RollbackKeepsLogs(s: Store, ledger: int)
    ensures var t := RollbackTo(s, ledger);
            t.rejected == s.rejected && t.contractId == s.contractId && t.reorgs == s.reorgs && t.batchHash == s.batchHash
  {}

  lemma GoesAlike(s: Store, t: Store, e: Event, cursor: Option<int>, allowGaps: bool, held: bool, o: Outcome)
    requires Goes(s, e, cursor, allowGaps, held, o)
    ensures Goes(t, e, cursor, allowGaps, held, o)
  {
    hide Readable;
  }

  // -- arrival order --------------------------------------------------------

  ghost function CountersAfter(rows: seq<Raw>): map<Option<int>, int> {
    if rows == [] then map[] else Bump(CountersAfter(rows[..|rows| - 1]), rows[|rows| - 1])
  }

  /** The index the `i`-th row of a batch goes under: its own, or one more than the last row of its ledger before it. */
  ghost function IndexIn(rows: seq<Raw>, i: nat): int
    requires i < |rows|
  {
    Numbered(CountersAfter(rows[..i]), rows[i])
  }

  lemma {:induction false} CounterTells(rows: seq<Raw>, i: nat, ledger: Option<int>)
    requires i <= |rows|
    ensures var c := CountersAfter(rows[..i]);
            && (ledger !in c <==> forall j: nat | j < i :: rows[j].Ledger() != ledger)
            && forall j: nat | j < i && rows[j].Ledger() == ledger && (forall m: nat | j < m < i :: rows[m].Ledger() != ledger) ::
                 ledger in c && c[ledger] == if rows[j].Index().Ill? then 1 else IndexIn(rows, j) + 1
  {
    hide Numbered;
    if i > 0 {
      CounterTells(rows, i - 1, ledger);
      assert rows[..i][..i - 1] == rows[..i - 1];
    }
  }

  /** A row with an index goes under it; the first of its ledger without one under zero; any other under one more
      than the last row of its ledger before it. */
  lemma NumberTells(rows: seq<Raw>, i: nat)
    requires i < |rows|
    ensures rows[i].Index().Val? ==> IndexIn(rows, i) == rows[i].Index().value
    ensures rows[i].Index().Absent? && (forall j: nat | j < i :: rows[j].Ledger() != rows[i].Ledger()) ==> IndexIn(rows, i) == 0
    ensures rows[i].Index().Absent? ==>
              forall j: nat | j < i && rows[j].Ledger() == rows[i].Ledger() && (forall m: nat | j < m < i :: rows[m].Ledger() != rows[i].Ledger()) ::
                IndexIn(rows, i) == if rows[j].Index().Ill? then 1 else IndexIn(rows, j) + 1
  {
    CounterTells(rows, i, rows[i].Ledger());
  }
}
