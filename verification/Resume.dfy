/** Safe resume: stamping, replay from the cursor, and the equivalence of any
    crashed-and-restarted pump run with one plain ingest. */
module Resume {
  import opened Options
  import opened Authenticity
  import opened Batches
  import opened Store

  // -- the stream -----------------------------------------------------------

  /** A well-formed stream in ledger order. */
  ghost predicate Ordered(rows: seq<Raw>) {
    && (forall i | 0 <= i < |rows| :: rows[i].Row? && rows[i].ledger.Some?)
    && (forall i, j | 0 <= i < j < |rows| :: rows[i].ledger.value <= rows[j].ledger.value)
  }

  ghost predicate OneCloseTime(rows: seq<Raw>) {
    forall i, j | 0 <= i < j < |rows| && rows[i].Row? && rows[j].Row? && rows[i].ledger == rows[j].ledger ::
      rows[i].timestamp == rows[j].timestamp
  }

  ghost predicate OneHash(rows: seq<Raw>) {
    forall i, j | 0 <= i < j < |rows| && rows[i].Row? && rows[j].Row? && rows[i].ledger == rows[j].ledger ::
      rows[i].ledgerHash.Val? && rows[j].ledgerHash.Val? ==> rows[i].ledgerHash == rows[j].ledgerHash
  }

  /** One row of the stamping loop: the row as yielded, and the next index of its ledger. */
  function StampRow(row: Raw, current: Option<int>, next: int): (Raw, int) {
    var base := if row.Ledger() != current then 0 else next;
    match row.Index()
    case Absent => (if row.Row? then row.(eventIndex := Val(base)) else row, base + 1)
    case Val(i) => (row, i + 1)
    case Ill => (row, base)
  }

  predicate Skipped(row: Raw, resume: Option<int>) {
    resume.Some? && row.Ledger().Some? && row.Ledger().value < resume.value
  }

  /** `stamp_and_resume`, from the middle of its loop. */
  function StampFrom(rows: seq<Raw>, current: Option<int>, next: int, resume: Option<int>): seq<Raw> {
    if rows == [] then []
    else if rows[0].NotObject? then [rows[0]] + StampFrom(rows[1..], current, next, resume)
    else
      var (row, n) := StampRow(rows[0], current, next);
      (if Skipped(row, resume) then [] else [row]) + StampFrom(rows[1..], rows[0].ledger, n, resume)
  }

  function Stamp(rows: seq<Raw>, resume: Option<int>): seq<Raw> {
    StampFrom(rows, None, 0, resume)
  }

  // -- stamping agrees with ingest's own numbering --------------------------

  lemma StampedRowIsSame(s: Store, policy: Policy, row: Raw, index: int, other: int, allowGaps: bool)
    requires row.Row? && row.eventIndex.Absent?
    ensures IngestOne(s, policy, row.(eventIndex := Val(index)), other, allowGaps) == IngestOne(s, policy, row, index, allowGaps)
  {
    var a := VerifyEvent(row, policy, s.contractId, CloseTimeFor(s.events, row), index);
    var b := VerifyEvent(row.(eventIndex := Val(index)), policy, s.contractId, CloseTimeFor(s.events, row), other);
    assert a == b;
  }

  lemma ExplicitIgnoresIndex(s: Store, policy: Policy, row: Raw, i: int, j: int, allowGaps: bool)
    requires row.Row? && !row.eventIndex.Absent?
    ensures IngestOne(s, policy, row, i, allowGaps) == IngestOne(s, policy, row, j, allowGaps)
  {
    assert VerifyEvent(row, policy, s.contractId, CloseTimeFor(s.events, row), i)
        == VerifyEvent(row, policy, s.contractId, CloseTimeFor(s.events, row), j);
  }

  ghost predicate Explicit(rows: seq<Raw>) {
    forall i | 0 <= i < |rows| :: rows[i].Row? && !rows[i].eventIndex.Absent?
  }

  /** Rows that carry their index do not depend on the arrival counters. */
  lemma {:induction false} CountersDoNotMatter(s: Store, policy: Policy, rows: seq<Raw>, c: map<Option<int>, int>,
                                               d: map<Option<int>, int>, allowGaps: bool)
    requires Explicit(rows)
    ensures IngestRows(s, policy, rows, c, allowGaps) == IngestRows(s, policy, rows, d, allowGaps)
    decreases |rows|
  {
    if rows != [] {
      ExplicitIgnoresIndex(s, policy, rows[0], Numbered(c, rows[0]), Numbered(d, rows[0]), allowGaps);
      var s1 := IngestOne(s, policy, rows[0], Numbered(c, rows[0]), allowGaps).0;
      CountersDoNotMatter(s1, policy, rows[1..], Bump(c, rows[0]), Bump(d, rows[0]), allowGaps);
    }
  }

  ghost predicate CountersAgree(counters: map<Option<int>, int>, current: Option<int>, next: int, rows: seq<Raw>) {
    && (forall l | l in counters :: l.Some? && current.Some? && l.value <= current.value)
    && (current in counters ==> counters[current] == next)
    && (current !in counters ==> current.None?)
    && (current.Some? ==> forall i | 0 <= i < |rows| :: current.value <= rows[i].Ledger().GetOr(current.value))
  }

  lemma CountersStayInStep(rows: seq<Raw>, counters: map<Option<int>, int>, current: Option<int>, next: int)
    requires Ordered(rows) && rows != []
    requires CountersAgree(counters, current, next, rows)
    requires !rows[0].eventIndex.Ill?
    ensures CountersAgree(Bump(counters, rows[0]), rows[0].ledger, StampRow(rows[0], current, next).1, rows[1..])
    ensures StampRow(rows[0], current, next).0 == rows[0].(eventIndex := Val(Numbered(counters, rows[0])))
  {}

  lemma StampedStepIsSame(s: Store, policy: Policy, rows: seq<Raw>, counters: map<Option<int>, int>,
                          current: Option<int>, next: int, allowGaps: bool)
    requires Ordered(rows) && rows != []
    requires CountersAgree(counters, current, next, rows)
    ensures var row := StampRow(rows[0], current, next).0;
            && row.Row? && !row.eventIndex.Absent?
            && IngestOne(s, policy, row, Numbered(map[], row), allowGaps)
               == IngestOne(s, policy, rows[0], Numbered(counters, rows[0]), allowGaps)
    ensures rows[0].eventIndex.Ill? ==> IngestOne(s, policy, rows[0], Numbered(counters, rows[0]), allowGaps).1.Rejected?
  {
    var row := StampRow(rows[0], current, next).0;
    if rows[0].eventIndex.Absent? {
      CountersStayInStep(rows, counters, current, next);
      StampedRowIsSame(s, policy, rows[0], Numbered(counters, rows[0]), Numbered(map[], row), allowGaps);
    } else {
      ExplicitIgnoresIndex(s, policy, row, Numbered(map[], row), Numbered(counters, rows[0]), allowGaps);
    }
  }

  /** Ingesting the stamped stream does exactly what ingesting the original does. */
  lemma {:induction false} StampingFrom(s: Store, policy: Policy, rows: seq<Raw>, counters: map<Option<int>, int>,
                                        current: Option<int>, next: int, allowGaps: bool)
    requires Ordered(rows)
    requires CountersAgree(counters, current, next, rows)
    ensures IngestRows(s, policy, StampFrom(rows, current, next, None), map[], allowGaps)
         == IngestRows(s, policy, rows, counters, allowGaps)
    decreases |rows|
  {
    hide IngestOne, CountersAgree;
    if rows != [] {
      var (row, n) := StampRow(rows[0], current, next);
      var tail := StampFrom(rows[1..], rows[0].ledger, n, None);
      assert StampFrom(rows, current, next, None) == [row] + tail;
      StampedStepIsSame(s, policy, rows, counters, current, next, allowGaps);
      if !rows[0].eventIndex.Ill? {
        CountersStayInStep(rows, counters, current, next);
        var s1 := IngestOne(s, policy, rows[0], Numbered(counters, rows[0]), allowGaps).0;
        StampingFrom(s1, policy, rows[1..], Bump(counters, rows[0]), rows[0].ledger, n, allowGaps);
        AllExplicit(rows[1..], rows[0].ledger, n);
        CountersDoNotMatter(s1, policy, tail, map[], Bump(map[], row), allowGaps);
      }
    }
  }

  lemma {:induction false} AllExplicit(rows: seq<Raw>, current: Option<int>, next: int)
    requires Ordered(rows)
    ensures Explicit(StampFrom(rows, current, next, None))
    decreases |rows|
  {
    if rows != [] {
      AllExplicit(rows[1..], rows[0].ledger, StampRow(rows[0], current, next).1);
    }
  }

  // -- the prefix of the stream a store holds -------------------------------

  ghost predicate WellFormed(row: Raw) {
    && row.Row? && row.ledger.Some? && row.eventIndex.Val? && row.timestamp.Some? && row.contractId.Some?
    && row.topic.Some? && !row.ledgerHash.Ill? && row.data.Some?
  }

  /** The event a well-formed row becomes. */
  ghost function EventOf(row: Raw): Event
    requires WellFormed(row)
  {
    Event(row.ledger.value, row.eventIndex.value, if row.ledgerHash.Val? then Some(row.ledgerHash.value) else None,
          row.timestamp.value, row.contractId.value, row.topic.value, row.data.value)
  }

  ghost function KeyOf(row: Raw): Key
    requires WellFormed(row)
  {
    Key(row.ledger.value, row.eventIndex.value)
  }

  /** The row passes every check that does not depend on what the store holds. */
  ghost predicate Admissible(row: Raw, policy: Policy) {
    WellFormed(row) && VerifyEvent(row, policy, row.contractId, None, 0) == Verified(EventOf(row))
  }

  /** `s` has taken in exactly the first `p` rows of the stamped stream. */
  ghost predicate Tracks(s: Store, policy: Policy, xs: seq<Raw>, p: nat)
    requires p <= |xs|
  {
    && (forall i | 0 <= i < p :: Admissible(xs[i], policy) && KeyOf(xs[i]) in s.events)
    && (forall i | 0 <= i < p :: xs[i].contractId == Or(policy.expectedContractId, s.contractId))
    && (forall k | k in s.events :: Held(xs, p, k, s.events[k]))
    && (p > 0 ==> s.contractId.Some?)
    && s.cursor == (if p == 0 then None else xs[p - 1].Ledger())
  }

  ghost predicate Held(xs: seq<Raw>, p: nat, k: Key, e: Event)
    requires p <= |xs|
  {
    exists i :: 0 <= i < p && WellFormed(xs[i]) && KeyOf(xs[i]) == k && EventOf(xs[i]) == e
  }

  /** A stamped, ledger-ordered stream with one hash per ledger. */
  ghost predicate Steady(xs: seq<Raw>) {
    Ordered(xs) && OneHash(xs) && Explicit(xs)
  }

  /** ... and one close time per ledger. */
  ghost predicate Regular(xs: seq<Raw>) {
    Steady(xs) && OneCloseTime(xs)
  }

  lemma SameLedger(xs: seq<Raw>, i: nat, j: nat)
    requires Steady(xs) && i < |xs| && j < |xs|
    requires xs[i].ledger == xs[j].ledger
    ensures OneCloseTime(xs) ==> xs[i].timestamp == xs[j].timestamp
    ensures xs[i].ledgerHash.Val? && xs[j].ledgerHash.Val? ==> xs[i].ledgerHash == xs[j].ledgerHash
  {
    if i < j {
    } else if j < i {
    }
  }

  lemma NoConflict(s: Store, policy: Policy, xs: seq<Raw>, p: nat, i: nat)
    requires Steady(xs) && p <= |xs| && i < |xs|
    requires Tracks(s, policy, xs, p)
    requires WellFormed(xs[i])
    ensures !HashConflict(s, EventOf(xs[i]))
  {
    hide VerifyEvent;
    var e := EventOf(xs[i]);
    if e.hash.Some? && StoredHash(s.events, e.ledger).Some? {
      var k := First(AtLedger(s.events, e.ledger));
      assert Held(xs, p, k, s.events[k]);
      var j :| 0 <= j < p && WellFormed(xs[j]) && KeyOf(xs[j]) == k && EventOf(xs[j]) == s.events[k];
      SameLedger(xs, i, j);
    }
  }

  /** Inside a tracked prefix the last close time of a ledger is that ledger's one close time. */
  lemma CloseTimeIsOwn(s: Store, policy: Policy, xs: seq<Raw>, p: nat, i: nat)
    requires Regular(xs) && p <= |xs| && i < p
    requires Tracks(s, policy, xs, p)
    ensures CloseTimeFor(s.events, xs[i]) == xs[i].timestamp
  {
    hide VerifyEvent;
    var ks := AtOrBelow(s.events, xs[i].ledger.value);
    assert KeyOf(xs[i]) in ks;
    var last := Last(ks);
    assert Held(xs, p, last, s.events[last]);
    var j :| 0 <= j < p && WellFormed(xs[j]) && KeyOf(xs[j]) == last && EventOf(xs[j]) == s.events[last];
    SameLedger(xs, i, j);
  }

  /** An admissible row passes again under the pinned contract and its own close time. */
  lemma PassesAgain(row: Raw, policy: Policy, pinned: Option<string>, index: int)
    requires Admissible(row, policy)
    requires row.contractId == Or(policy.expectedContractId, pinned)
    ensures VerifyEvent(row, policy, pinned, row.timestamp, index) == Verified(EventOf(row))
  {}

  lemma PassedIsAdmissible(row: Raw, policy: Policy, pinned: Option<string>, lastClose: Option<int>, index: int)
    requires row.Row? && !row.eventIndex.Absent?
    requires VerifyEvent(row, policy, pinned, lastClose, index).Verified?
    ensures Admissible(row, policy)
    ensures VerifyEvent(row, policy, pinned, lastClose, index) == Verified(EventOf(row))
    ensures Or(policy.expectedContractId, pinned).Some? ==> row.contractId == Or(policy.expectedContractId, pinned)
    ensures pinned.None? ==> row.contractId == Or(policy.expectedContractId, row.contractId)
    ensures pinned.Some? ==> Or(policy.expectedContractId, pinned).Some?
  {}

  /** Replaying a row the store already holds changes nothing. */
  lemma ReplayIsNoOp(s: Store, policy: Policy, xs: seq<Raw>, p: nat, i: nat, allowGaps: bool)
    requires Regular(xs) && p <= |xs| && i < p
    requires Tracks(s, policy, xs, p)
    ensures IngestOne(s, policy, xs[i], Numbered(map[], xs[i]), allowGaps) == (s, Replayed)
  {
    hide VerifyEvent, HashConflict, Write, CloseTimeFor;
    CloseTimeIsOwn(s, policy, xs, p, i);
    PassesAgain(xs[i], policy, s.contractId, Numbered(map[], xs[i]));
    NoConflict(s, policy, xs, p, i);
    assert KeyOf(xs[i]) in s.events;
    assert Pin(s, EventOf(xs[i])) == s;
  }

  lemma PinKeepsConflict(s: Store, e: Event)
    ensures HashConflict(Pin(s, e), e) <==> HashConflict(s, e)
  {}

  ghost predicate Took(s: Store, row: Raw, t: Store, o: Outcome)
    requires WellFormed(row)
  {
    var e := EventOf(row);
    && (o.Added? || o.Replayed?)
    && t.contractId == Pin(s, e).contractId
    && t.events == (if o.Added? then s.events[KeyOf(row) := e] else s.events)
    && (o.Replayed? ==> KeyOf(row) in s.events)
    && t.cursor == (if o.Added? && (s.cursor.None? || e.ledger > s.cursor.value) then Some(e.ledger) else s.cursor)
  }

  lemma AcceptedStep(s: Store, policy: Policy, xs: seq<Raw>, p: nat, allowGaps: bool)
    requires Steady(xs) && p < |xs|
    requires Tracks(s, policy, xs, p)
    requires var o := IngestOne(s, policy, xs[p], Numbered(map[], xs[p]), allowGaps).1; o.Added? || o.Replayed?
    ensures Admissible(xs[p], policy)
    ensures var (t, o) := IngestOne(s, policy, xs[p], Numbered(map[], xs[p]), allowGaps); Took(s, xs[p], t, o)
    ensures xs[p].contractId == Or(policy.expectedContractId, Pin(s, EventOf(xs[p])).contractId)
  {
    hide VerifyEvent, HashConflict, Write, CloseTimeFor;
    var row := xs[p];
    PassedIsAdmissible(row, policy, s.contractId, CloseTimeFor(s.events, row), Numbered(map[], row));
    var s1 := Pin(s, EventOf(row));
    hide CloseGapAt, WithJump;
    NoConflict(s, policy, xs, p, p);
    PinKeepsConflict(s, EventOf(row));
    WriteEffect(s1, EventOf(row));
  }

  /** An accepted row extends the tracked prefix by one. */
  lemma Advance(s: Store, policy: Policy, xs: seq<Raw>, p: nat, allowGaps: bool)
    requires Steady(xs) && p < |xs|
    requires Tracks(s, policy, xs, p)
    requires var o := IngestOne(s, policy, xs[p], Numbered(map[], xs[p]), allowGaps).1; o.Added? || o.Replayed?
    ensures Tracks(IngestOne(s, policy, xs[p], Numbered(map[], xs[p]), allowGaps).0, policy, xs, p + 1)
  {
    hide IngestOne, VerifyEvent, OneCloseTime, OneHash, Held;
    AcceptedStep(s, policy, xs, p, allowGaps);
    var (t, o) := IngestOne(s, policy, xs[p], Numbered(map[], xs[p]), allowGaps);
    forall k | k in t.events ensures Held(xs, p + 1, k, t.events[k]) {
      HeldMore(xs, p, k, t.events[k]);
    }
    if o.Replayed? {
      HeldLedger(xs, p, s.events[KeyOf(xs[p])]);
    }
  }

  /** In an ordered stream a row held before is of the last ledger held. */
  lemma HeldLedger(xs: seq<Raw>, p: nat, e: Event)
    requires Ordered(xs) && p < |xs| && WellFormed(xs[p]) && Held(xs, p, KeyOf(xs[p]), e)
    ensures p > 0 && xs[p - 1].Ledger() == xs[p].Ledger()
  {}

  lemma HeldMore(xs: seq<Raw>, p: nat, k: Key, e: Event)
    requires p < |xs| && WellFormed(xs[p])
    requires Held(xs, p, k, e) || (k == KeyOf(xs[p]) && e == EventOf(xs[p]))
    ensures Held(xs, p + 1, k, e)
  {}

  // -- batches do not matter ------------------------------------------------

  /** Everything but the per-batch fork marker. */
  function Core(s: Store): Store { s.(batchHash := None) }

  lemma StepIgnoresBatch(s: Store, t: Store, policy: Policy, row: Raw, index: int, allowGaps: bool)
    requires Core(s) == Core(t)
    requires var v := VerifyEvent(row, policy, s.contractId, CloseTimeFor(s.events, row), index);
             v.Verified? ==> !HashConflict(s, v.event)
    ensures IngestOne(s, policy, row, index, allowGaps).1 == IngestOne(t, policy, row, index, allowGaps).1
    ensures Core(IngestOne(s, policy, row, index, allowGaps).0) == Core(IngestOne(t, policy, row, index, allowGaps).0)
  {
    hide VerifyEvent, CloseTimeFor, StoredHash, Write;
    var v := VerifyEvent(row, policy, s.contractId, CloseTimeFor(s.events, row), index);
    if v.Verified? {
      var e := v.event;
      assert Core(Pin(s, e)) == Core(Pin(t, e));
      assert !HashConflict(Pin(s, e), e) && !HashConflict(Pin(t, e), e);
      WriteIgnoresBatch(Pin(s, e), Pin(t, e), e);
    }
  }

  lemma WriteIgnoresBatch(s: Store, t: Store, e: Event)
    requires Core(s) == Core(t)
    ensures Write(s, e).1 == Write(t, e).1
    ensures Core(Write(s, e).0) == Core(Write(t, e).0)
  {
    hide Materialize, CloseGapAt;
    var gaps := CloseGapAt(WithJump(s, e), e.ledger);
    var s1 := s.(gaps := gaps, events := s.events[Key(e.ledger, e.index) := e]);
    var t1 := t.(gaps := gaps, events := t.events[Key(e.ledger, e.index) := e]);
    MaterializeKeeps(s1, e);
    MaterializeKeeps(t1, e);
    MaterializeReads(s1, t1, e);
  }

  /** The state and count after the first `p` rows of an uninterrupted run, and whether all went in. */
  ghost function After(policy: Policy, xs: seq<Raw>, p: nat, allowGaps: bool): (Store, nat, bool)
    requires p <= |xs|
  {
    if p == 0 then (Empty(policy), 0, true) else
    var (s, n, ok) := After(policy, xs, p - 1, allowGaps);
    if !ok then (s, n, ok) else
    var (t, r) := IngestOne(s, policy, xs[p - 1], Numbered(map[], xs[p - 1]), allowGaps);
    (t, if r.Added? then n + 1 else n, r.Added? || r.Replayed?)
  }

  lemma {:induction false} DoneBefore(policy: Policy, xs: seq<Raw>, p: nat, q: nat, allowGaps: bool)
    requires p <= q <= |xs|
    requires After(policy, xs, q, allowGaps).2
    ensures After(policy, xs, p, allowGaps).2
    ensures After(policy, xs, p, allowGaps).1 <= After(policy, xs, q, allowGaps).1
    decreases q
  {
    hide IngestOne;
    if p < q {
      DoneBefore(policy, xs, p, q - 1, allowGaps);
    }
  }

  lemma AfterStep(policy: Policy, xs: seq<Raw>, p: nat, allowGaps: bool)
    requires 0 < p <= |xs|
    requires After(policy, xs, p, allowGaps).2
    ensures After(policy, xs, p - 1, allowGaps).2
    ensures var (t, r) := IngestOne(After(policy, xs, p - 1, allowGaps).0, policy, xs[p - 1], Numbered(map[], xs[p - 1]), allowGaps);
            && t == After(policy, xs, p, allowGaps).0
            && (r.Added? || r.Replayed?)
            && After(policy, xs, p, allowGaps).1 == After(policy, xs, p - 1, allowGaps).1 + (if r.Added? then 1 else 0)
  {
    hide IngestOne;
  }

  lemma EmptyTracks(policy: Policy, xs: seq<Raw>)
    ensures Tracks(Empty(policy), policy, xs, 0)
  {}

  lemma {:induction false} AfterTracks(policy: Policy, xs: seq<Raw>, p: nat, allowGaps: bool)
    requires Steady(xs) && p <= |xs|
    requires After(policy, xs, p, allowGaps).2
    ensures Tracks(After(policy, xs, p, allowGaps).0, policy, xs, p)
  {
    hide IngestOne, Tracks, Steady;
    EmptyTracks(policy, xs);
    if p > 0 {
      AfterStep(policy, xs, p, allowGaps);
      AfterTracks(policy, xs, p - 1, allowGaps);
      Advance(After(policy, xs, p - 1, allowGaps).0, policy, xs, p - 1, allowGaps);
    }
  }

  /** Left-to-right and right-to-left views of an uninterrupted run agree. */
  lemma {:induction false} AfterIsIngest(policy: Policy, xs: seq<Raw>, p: nat, allowGaps: bool)
    requires Explicit(xs) && p <= |xs|
    requires After(policy, xs, p, allowGaps).2
    ensures var (s, n, _) := After(policy, xs, p, allowGaps);
            var (t, m, r) := IngestRows(s, policy, xs[p..], map[], allowGaps);
            IngestRows(Empty(policy), policy, xs, map[], allowGaps) == (t, n + m, r)
  {
    hide IngestOne;
    if p == 0 {
      assert xs[0..] == xs;
    } else {
      DoneBefore(policy, xs, p - 1, p, allowGaps);
      AfterIsIngest(policy, xs, p - 1, allowGaps);
      var rest := xs[p - 1..];
      assert rest[0] == xs[p - 1] && rest[1..] == xs[p..];
      var s := After(policy, xs, p - 1, allowGaps).0;
      AfterStep(policy, xs, p, allowGaps);
      var t := After(policy, xs, p, allowGaps).0;
      CountersDoNotMatter(t, policy, xs[p..], map[], Bump(map[], xs[p - 1]), allowGaps);
    }
  }

  lemma {:induction false} AcceptedPrefix(policy: Policy, xs: seq<Raw>, p: nat, allowGaps: bool)
    requires Explicit(xs) && p <= |xs|
    requires IngestRows(Empty(policy), policy, xs, map[], allowGaps).2.Done?
    ensures After(policy, xs, p, allowGaps).2
  {
    hide IngestOne;
    if p > 0 {
      AcceptedPrefix(policy, xs, p - 1, allowGaps);
      AfterIsIngest(policy, xs, p - 1, allowGaps);
      var s := After(policy, xs, p - 1, allowGaps).0;
      assert xs[p - 1..][0] == xs[p - 1];
      NeverDone(s, policy, xs[p - 1], Numbered(map[], xs[p - 1]), allowGaps);
    }
  }

  lemma NeverDone(s: Store, policy: Policy, row: Raw, index: int, allowGaps: bool)
    ensures !IngestOne(s, policy, row, index, allowGaps).1.Done?
  {}

  // -- crash and resume -----------------------------------------------------

  function Max(a: nat, b: nat): nat { if a < b then b else a }

  /** One batch of consecutive rows that starts at or before what the store holds: what it holds
      already is replayed without effect, the rest is taken in as an uninterrupted run would. */
  lemma {:induction false} FeedBatch(s: Store, policy: Policy, xs: seq<Raw>, p: nat, q: nat, r: nat, allowGaps: bool)
    requires Regular(xs) && q <= p <= |xs| && q <= r <= |xs|
    requires After(policy, xs, |xs|, allowGaps).2
    requires Core(s) == Core(After(policy, xs, p, allowGaps).0)
    ensures var (t, n, o) := IngestRows(s, policy, xs[q..r], map[], allowGaps);
            && o.Done?
            && Core(t) == Core(After(policy, xs, Max(p, r), allowGaps).0)
            && n == After(policy, xs, Max(p, r), allowGaps).1 - After(policy, xs, p, allowGaps).1
    decreases r - q
  {
    hide IngestOne, Steady, Tracks, OneCloseTime, VerifyEvent, HashConflict, Core;
    DoneBefore(policy, xs, p, |xs|, allowGaps);
    if q < r {
      AfterTracks(policy, xs, p, allowGaps);
      TracksIgnoresBatch(s, After(policy, xs, p, allowGaps).0, policy, xs, p);
      var row := xs[q];
      assert xs[q..r][0] == row && xs[q..r][1..] == xs[q + 1..r];
      var (s1, o) := IngestOne(s, policy, row, Numbered(map[], row), allowGaps);
      if q < p {
        ReplayIsNoOp(s, policy, xs, p, q, allowGaps);
        FeedBatch(s1, policy, xs, p, q + 1, r, allowGaps);
      } else {
        DoneBefore(policy, xs, p + 1, |xs|, allowGaps);
        AfterStep(policy, xs, p + 1, allowGaps);
        QuietAtEnd(After(policy, xs, p, allowGaps).0, policy, xs, p);
        StepIgnoresBatch(After(policy, xs, p, allowGaps).0, s, policy, row, Numbered(map[], row), allowGaps);
        FeedBatch(s1, policy, xs, p + 1, q + 1, r, allowGaps);
        DoneBefore(policy, xs, p + 1, Max(p + 1, r), allowGaps) by { DoneBefore(policy, xs, Max(p + 1, r), |xs|, allowGaps); }
      }
      SliceExplicit(xs, q + 1, r);
      CountersDoNotMatter(s1, policy, xs[q + 1..r], map[], Bump(map[], row), allowGaps);
    }
  }

  lemma SliceExplicit(xs: seq<Raw>, q: nat, r: nat)
    requires Steady(xs) && q <= r <= |xs|
    ensures Explicit(xs[q..r])
  {}

  lemma TracksIgnoresBatch(s: Store, t: Store, policy: Policy, xs: seq<Raw>, p: nat)
    requires p <= |xs|
    requires Core(s) == Core(t)
    requires Tracks(t, policy, xs, p)
    ensures Tracks(s, policy, xs, p)
  {
    hide Admissible, Held;
  }

  lemma QuietAtEnd(s: Store, policy: Policy, xs: seq<Raw>, p: nat)
    requires Steady(xs) && p < |xs|
    requires Tracks(s, policy, xs, p)
    ensures var v := VerifyEvent(xs[p], policy, s.contractId, CloseTimeFor(s.events, xs[p]), Numbered(map[], xs[p]));
            v.Verified? ==> !HashConflict(s, v.event)
  {
    hide VerifyEvent, HashConflict, CloseTimeFor;
    var v := VerifyEvent(xs[p], policy, s.contractId, CloseTimeFor(s.events, xs[p]), Numbered(map[], xs[p]));
    if v.Verified? {
      PassedIsAdmissible(xs[p], policy, s.contractId, CloseTimeFor(s.events, xs[p]), Numbered(map[], xs[p]));
      NoConflict(s, policy, xs, p, p);
    }
  }

  /** The consumer loop of the pump: each batch is one `ingest` call. A batch the store failed
      inside is represented by the part of it that was stored. */
  ghost function Feed(s: Store, policy: Policy, batches: seq<seq<Raw>>, allowGaps: bool): (r: (Store, nat, bool))
    decreases |batches|
  {
    if batches == [] then (s, 0, true) else
    var (s1, n, o) := Ingest(s, policy, batches[0], allowGaps);
    if !o.Done? then (s1, n, false) else
    var (s2, m, ok) := Feed(s1, policy, batches[1..], allowGaps);
    (s2, n + m, ok)
  }

  lemma {:induction false} FeedBatches(s: Store, policy: Policy, xs: seq<Raw>, p: nat, q: nat, batches: seq<seq<Raw>>, allowGaps: bool)
    requires Regular(xs) && q <= p <= |xs|
    requires After(policy, xs, |xs|, allowGaps).2
    requires Core(s) == Core(After(policy, xs, p, allowGaps).0)
    requires Flatten(batches) <= xs[q..]
    ensures var r := Max(p, q + |Flatten(batches)|);
            var (t, n, ok) := Feed(s, policy, batches, allowGaps);
            && ok
            && Core(t) == Core(After(policy, xs, r, allowGaps).0)
            && n == After(policy, xs, r, allowGaps).1 - After(policy, xs, p, allowGaps).1
    decreases |batches|
  {
    hide IngestRows, Steady, Tracks, After, Ordered;
    if batches != [] {
      var r := q + |batches[0]|;
      assert batches[0] == Flatten(batches)[..|batches[0]|];
      assert batches[0] == xs[q..r];
      var s0 := s.(batchHash := None);
      assert Core(s0) == Core(s);
      FeedBatch(s0, policy, xs, p, q, r, allowGaps);
      var s1 := Ingest(s, policy, batches[0], allowGaps).0;
      assert Flatten(batches[1..]) == Flatten(batches)[|batches[0]|..];
      assert Flatten(batches[1..]) <= xs[r..];
      FeedBatches(s1, policy, xs, Max(p, r), r, batches[1..], allowGaps);
    }
  }

  /** The first row of the stream at or above `resume`. */
  function ResumePoint(xs: seq<Raw>, resume: Option<int>): (q: nat)
    ensures q <= |xs|
  {
    if xs == [] || !Skipped(xs[0], resume) then 0 else 1 + ResumePoint(xs[1..], resume)
  }

  /** In an ordered stream skipping is dropping a prefix, and it does not renumber anything. */
  lemma {:induction false} SkippingIsDropping(rows: seq<Raw>, current: Option<int>, next: int, resume: Option<int>)
    requires Ordered(rows)
    ensures StampFrom(rows, current, next, resume)
         == StampFrom(rows, current, next, None)[ResumePoint(StampFrom(rows, current, next, None), resume)..]
    decreases |rows|
  {
    if rows == [] {
      assert StampFrom(rows, current, next, resume) == StampFrom(rows, current, next, None) == [];
    } else {
      hide StampFrom, StampRow, Skipped, Ordered;
      var (row, n) := StampRow(rows[0], current, next);
      OrderedRest(rows, current, next, resume);
      StampStep(rows, current, next, resume);
      StampStep(rows, current, next, None);
      var tail := StampFrom(rows[1..], rows[0].ledger, n, None);
      assert ([row] + tail)[1..] == tail;
      if Skipped(row, resume) {
        SkippingIsDropping(rows[1..], rows[0].ledger, n, resume);
      } else {
        NothingSkipped(rows[1..], rows[0].ledger, n, resume);
      }
    }
  }

  lemma StampStep(rows: seq<Raw>, current: Option<int>, next: int, resume: Option<int>)
    requires rows != [] && rows[0].Row?
    ensures var (row, n) := StampRow(rows[0], current, next);
            StampFrom(rows, current, next, resume)
            == (if Skipped(row, resume) then [] else [row]) + StampFrom(rows[1..], rows[0].ledger, n, resume)
  {
    hide StampRow, Skipped;
  }

  /** What follows the first row of an ordered stream is ordered, and not skipped if the first row is not. */
  lemma OrderedRest(rows: seq<Raw>, current: Option<int>, next: int, resume: Option<int>)
    requires Ordered(rows) && rows != []
    ensures rows[0].Row? && Ordered(rows[1..]) && !Skipped(StampRow(rows[0], current, next).0, None)
    ensures |rows| > 1 && !Skipped(StampRow(rows[0], current, next).0, resume) ==> !Skipped(rows[1], resume)
  {
    assert |rows| > 1 ==> rows[1..][0] == rows[1];
  }

  lemma {:induction false} NothingSkipped(rows: seq<Raw>, current: Option<int>, next: int, resume: Option<int>)
    requires Ordered(rows)
    requires rows != [] ==> !Skipped(rows[0], resume)
    ensures StampFrom(rows, current, next, resume) == StampFrom(rows, current, next, None)
    decreases |rows|
  {
    if rows != [] {
      NothingSkipped(rows[1..], rows[0].ledger, StampRow(rows[0], current, next).1, resume);
    }
  }

  /** Stamping changes nothing but missing indices. */
  lemma {:induction false} StampKeepsRows(rows: seq<Raw>, current: Option<int>, next: int)
    requires Ordered(rows)
    ensures var xs := StampFrom(rows, current, next, None);
            && |xs| == |rows|
            && forall i | 0 <= i < |rows| :: xs[i].Row? && xs[i] == rows[i].(eventIndex := xs[i].eventIndex)
    decreases |rows|
  {
    if rows != [] {
      StampKeepsRows(rows[1..], rows[0].ledger, StampRow(rows[0], current, next).1);
    }
  }

  lemma StampIsRegular(rows: seq<Raw>)
    requires Ordered(rows) && OneCloseTime(rows) && OneHash(rows)
    ensures Regular(Stamp(rows, None))
  {
    AllExplicit(rows, None, 0);
    StampKeepsRows(rows, None, 0);
  }

  /** Restarting from the cursor never starts past what the store holds. */
  lemma {:induction false} ResumesWithin(xs: seq<Raw>, p: nat, k: nat)
    requires Ordered(xs) && k < p <= |xs|
    ensures ResumePoint(xs[k..], xs[p - 1].ledger) <= p - 1 - k
    decreases |xs| - k
  {
    if Skipped(xs[k..][0], xs[p - 1].ledger) {
      assert k < p - 1;
      assert xs[k..][1..] == xs[k + 1..];
      ResumesWithin(xs, p, k + 1);
    }
  }

  /** A history of pump runs: each restarts from the cursor the last one left, feeds some prefix of the
      resumed stream in batches of any size, and stops. */
  ghost predicate Restarts(s: Store, policy: Policy, rows: seq<Raw>, runs: seq<seq<seq<Raw>>>, allowGaps: bool)
    decreases |runs|
  {
    runs == [] || (
      && Flatten(runs[0]) <= Stamp(rows, s.cursor)
      && Restarts(Feed(s, policy, runs[0], allowGaps).0, policy, rows, runs[1..], allowGaps))
  }

  /** What such a history leaves behind, how many events it added, and whether the store refused none. */
  ghost function RunAll(s: Store, policy: Policy, runs: seq<seq<seq<Raw>>>, allowGaps: bool): (r: (Store, nat, bool))
    decreases |runs|
  {
    if runs == [] then (s, 0, true) else
    var (s1, n, ok) := Feed(s, policy, runs[0], allowGaps);
    var (s2, m, ok2) := RunAll(s1, policy, runs[1..], allowGaps);
    (s2, n + m, ok && ok2)
  }

  lemma {:induction false} RestartsTrack(s: Store, policy: Policy, rows: seq<Raw>, p: nat, runs: seq<seq<seq<Raw>>>, allowGaps: bool)
    returns (r: nat)
    requires Ordered(rows) && OneCloseTime(rows) && OneHash(rows) && p <= |rows|
    requires Regular(Stamp(rows, None)) && |Stamp(rows, None)| == |rows|
    requires After(policy, Stamp(rows, None), |rows|, allowGaps).2
    requires Core(s) == Core(After(policy, Stamp(rows, None), p, allowGaps).0)
    requires Restarts(s, policy, rows, runs, allowGaps)
    ensures p <= r <= |rows|
    ensures var (t, n, ok) := RunAll(s, policy, runs, allowGaps);
            && ok
            && Core(t) == Core(After(policy, Stamp(rows, None), r, allowGaps).0)
            && n == After(policy, Stamp(rows, None), r, allowGaps).1 - After(policy, Stamp(rows, None), p, allowGaps).1
    decreases |runs|
  {
    hide IngestOne, Steady, Ordered, OneCloseTime, OneHash, Feed, StampFrom, Regular, After, Core;
    r := p;
    if runs != [] {
      var xs := Stamp(rows, None);
      var q := ResumePoint(xs, s.cursor);
      SkippingIsDropping(rows, None, 0, s.cursor);
      WithinHeld(s, policy, xs, p, allowGaps);
      FeedBatches(s, policy, xs, p, q, runs[0], allowGaps);
      r := RestartsTrack(Feed(s, policy, runs[0], allowGaps).0, policy, rows, Max(p, q + |Flatten(runs[0])|), runs[1..], allowGaps);
    }
  }

  lemma WithinHeld(s: Store, policy: Policy, xs: seq<Raw>, p: nat, allowGaps: bool)
    requires Regular(xs) && p <= |xs|
    requires After(policy, xs, |xs|, allowGaps).2
    requires Core(s) == Core(After(policy, xs, p, allowGaps).0)
    ensures ResumePoint(xs, s.cursor) <= p
  {
    DoneBefore(policy, xs, p, |xs|, allowGaps);
    AfterTracks(policy, xs, p, allowGaps);
    if p > 0 {
      assert xs[0..] == xs;
      ResumesWithin(xs, p, 0);
    }
  }

  /** Crash/resume equivalence. Take a ledger-ordered stream with one close time and one hash per ledger
      that plain `ingest` accepts. Any history of pump runs over it — any batch sizes, any failures after
      any stored prefix, any number of restarts from the cursor — that ends with a completed run leaves the
      store plain `ingest` leaves, adds exactly as many events in total, and is never refused a row. */
  lemma CrashResume(policy: Policy, rows: seq<Raw>, runs: seq<seq<seq<Raw>>>, last: seq<seq<Raw>>, allowGaps: bool)
    requires Ordered(rows) && OneCloseTime(rows) && OneHash(rows)
    requires Ingest(Empty(policy), policy, rows, allowGaps).2.Done?
    requires Restarts(Empty(policy), policy, rows, runs, allowGaps)
    requires Flatten(last) == Stamp(rows, RunAll(Empty(policy), policy, runs, allowGaps).0.cursor)
    ensures var (plain, added, _) := Ingest(Empty(policy), policy, rows, allowGaps);
            var (s, n, ok) := RunAll(Empty(policy), policy, runs, allowGaps);
            var (t, m, ok2) := Feed(s, policy, last, allowGaps);
            ok && ok2 && Core(t) == Core(plain) && n + m == added
  {
    hide IngestOne, Ordered, OneCloseTime, OneHash, Feed, Explicit, StampFrom, RunAll;
    var xs := Stamp(rows, None);
    StampIsRegular(rows);
    StampKeepsRows(rows, None, 0);
    StampingFrom(Empty(policy), policy, rows, map[], None, 0, allowGaps);
    SliceExplicit(xs, 0, |xs|);
    assert xs[0..|xs|] == xs;
    AcceptedPrefix(policy, xs, |xs|, allowGaps);
    AfterIsIngest(policy, xs, |xs|, allowGaps);
    assert xs[|xs|..] == [];
    var p := RestartsTrack(Empty(policy), policy, rows, 0, runs, allowGaps);
    var s := RunAll(Empty(policy), policy, runs, allowGaps).0;
    var q := ResumePoint(xs, s.cursor);
    SkippingIsDropping(rows, None, 0, s.cursor);
    WithinHeld(s, policy, xs, p, allowGaps);
    assert Flatten(last) == xs[q..];
    FeedBatches(s, policy, xs, p, q, last, allowGaps);
    assert Max(p, q + |Flatten(last)|) == |xs|;
  }

  /** Running the pump again over a finished stream adds nothing. */
  lemma ReplayAddsNothing(policy: Policy, rows: seq<Raw>, batches: seq<seq<Raw>>, allowGaps: bool)
    requires Ordered(rows) && OneCloseTime(rows) && OneHash(rows)
    requires Ingest(Empty(policy), policy, rows, allowGaps).2.Done?
    requires Flatten(batches) <= Stamp(rows, None)
    ensures var plain := Ingest(Empty(policy), policy, rows, allowGaps).0;
            var (t, n, ok) := Feed(plain, policy, batches, allowGaps);
            ok && n == 0 && Core(t) == Core(plain)
  {
    hide IngestOne, Ordered, OneCloseTime, OneHash, Feed, Explicit, StampFrom;
    var xs := Stamp(rows, None);
    StampIsRegular(rows);
    StampKeepsRows(rows, None, 0);
    StampingFrom(Empty(policy), policy, rows, map[], None, 0, allowGaps);
    SliceExplicit(xs, 0, |xs|);
    assert xs[0..|xs|] == xs && xs[0..] == xs;
    AcceptedPrefix(policy, xs, |xs|, allowGaps);
    AfterIsIngest(policy, xs, |xs|, allowGaps);
    assert xs[|xs|..] == [];
    FeedBatches(Ingest(Empty(policy), policy, rows, allowGaps).0, policy, xs, |xs|, 0, batches, allowGaps);
  }
}
