/** How far safe resume goes: for arrival-numbered streams, one close time per
    ledger is exactly what makes every crash point resumable. */
module ResumeLimits {
  import opened Options
  import opened Authenticity
  import opened Batches
  import opened Store
  import opened Resume

  ghost predicate ArrivalNumbered(rows: seq<Raw>) {
    forall i | 0 <= i < |rows| :: rows[i].Row? && rows[i].eventIndex.Absent?
  }

  /** Within a ledger the stamped indices grow. */
  ghost predicate Growing(xs: seq<Raw>) {
    && (forall i | 0 <= i < |xs| :: xs[i].Row? && xs[i].eventIndex.Val?)
    && forall i, j | 0 <= i < j < |xs| && xs[i].ledger == xs[j].ledger :: xs[i].eventIndex.value < xs[j].eventIndex.value
  }

  lemma {:induction false} StampGrows(rows: seq<Raw>, current: Option<int>, next: int)
    requires Ordered(rows) && ArrivalNumbered(rows)
    requires current.Some? && rows != [] ==> current.value <= rows[0].ledger.value
    ensures var xs := StampFrom(rows, current, next, None);
            && Growing(xs)
            && forall i | 0 <= i < |xs| && xs[i].ledger == current :: next <= xs[i].eventIndex.value
    decreases |rows|
  {
    if rows != [] {
      var (row, n) := StampRow(rows[0], current, next);
      StampGrows(rows[1..], rows[0].ledger, n);
      StampKeepsRows(rows[1..], rows[0].ledger, n);
      var tail := StampFrom(rows[1..], rows[0].ledger, n, None);
      forall i | 0 <= i < |tail| && tail[i].ledger == current ensures next <= tail[i].eventIndex.value {
        assert rows[1..][i].ledger == current;
      }
    }
  }

  /** The last close time a growing prefix leaves for its own ledger is that of its last row. */
  lemma LastRowCloses(s: Store, policy: Policy, xs: seq<Raw>, p: nat)
    requires Steady(xs) && Growing(xs) && 0 < p <= |xs|
    requires Tracks(s, policy, xs, p)
    ensures CloseTimeFor(s.events, xs[p - 1]) == xs[p - 1].timestamp
  {
    hide VerifyEvent;
    var key := KeyOf(xs[p - 1]);
    var ks := AtOrBelow(s.events, key.ledger);
    assert key in ks;
    var last := Last(ks);
    assert Held(xs, p, last, s.events[last]);
    var i :| 0 <= i < p && WellFormed(xs[i]) && KeyOf(xs[i]) == last && EventOf(xs[i]) == s.events[last];
    assert i == p - 1 by {
      assert xs[i].ledger.value <= xs[p - 1].ledger.value;
      assert last == key || Before(key, last);
    }
  }

  lemma VerifiedIsNotEarlier(row: Raw, policy: Policy, pinned: Option<string>, lastClose: Option<int>, index: int)
    requires VerifyEvent(row, policy, pinned, lastClose, index).Verified?
    ensures lastClose.Some? ==> row.timestamp.Some? && lastClose.value <= row.timestamp.value
  {}

  lemma EarlierIsRefused(row: Raw, policy: Policy, pinned: Option<string>, lastClose: int, index: int)
    requires row.Row? && row.timestamp.Some? && row.timestamp.value < lastClose
    ensures VerifyEvent(row, policy, pinned, Some(lastClose), index).Refused?
  {}

  lemma RefusedStep(s: Store, policy: Policy, row: Raw, index: int, allowGaps: bool)
    requires VerifyEvent(row, policy, s.contractId, CloseTimeFor(s.events, row), index).Refused?
    ensures IngestOne(s, policy, row, index, allowGaps).1.Rejected?
  {}

  lemma TakenWasVerified(s: Store, policy: Policy, row: Raw, index: int, allowGaps: bool)
    requires var o := IngestOne(s, policy, row, index, allowGaps).1; o.Added? || o.Replayed?
    ensures VerifyEvent(row, policy, s.contractId, CloseTimeFor(s.events, row), index).Verified?
  {}

  lemma NextIsNotEarlier(policy: Policy, xs: seq<Raw>, j: nat, allowGaps: bool)
    requires Steady(xs) && Growing(xs) && 0 < j < |xs|
    requires After(policy, xs, |xs|, allowGaps).2
    requires xs[j - 1].ledger == xs[j].ledger
    ensures xs[j - 1].timestamp.Some? && xs[j].timestamp.Some? && xs[j - 1].timestamp.value <= xs[j].timestamp.value
  {
    hide IngestOne, VerifyEvent, CloseTimeFor, Steady, Tracks;
    DoneBefore(policy, xs, j + 1, |xs|, allowGaps);
    AfterStep(policy, xs, j + 1, allowGaps);
    AfterTracks(policy, xs, j, allowGaps);
    var s := After(policy, xs, j, allowGaps).0;
    LastRowCloses(s, policy, xs, j);
    SameCloseTime(s, xs[j], xs[j - 1]);
    TakenWasVerified(s, policy, xs[j], Numbered(map[], xs[j]), allowGaps);
    VerifiedIsNotEarlier(xs[j], policy, s.contractId, CloseTimeFor(s.events, xs[j]), Numbered(map[], xs[j]));
    LastHeldRow(s, policy, xs, j);
  }

  lemma LastHeldRow(s: Store, policy: Policy, xs: seq<Raw>, p: nat)
    requires 0 < p <= |xs| && Tracks(s, policy, xs, p)
    ensures Admissible(xs[p - 1], policy)
  {}

  /** An accepted stream's close times never fall inside a ledger. */
  lemma {:induction false} TimesClimb(policy: Policy, xs: seq<Raw>, i: nat, j: nat, allowGaps: bool)
    requires Steady(xs) && Growing(xs) && i <= j < |xs|
    requires After(policy, xs, |xs|, allowGaps).2
    requires xs[i].ledger == xs[j].ledger
    ensures xs[i].timestamp.Some? && xs[j].timestamp.Some? && xs[i].timestamp.value <= xs[j].timestamp.value
    decreases j
  {
    hide After;
    if i < j {
      assert xs[i].ledger.value <= xs[j - 1].ledger.value <= xs[j].ledger.value;
      TimesClimb(policy, xs, i, j - 1, allowGaps);
      NextIsNotEarlier(policy, xs, j, allowGaps);
    } else {
      AdmittedRow(policy, xs, j, allowGaps);
    }
  }

  lemma AdmittedRow(policy: Policy, xs: seq<Raw>, j: nat, allowGaps: bool)
    requires Steady(xs) && j < |xs|
    requires After(policy, xs, |xs|, allowGaps).2
    ensures Admissible(xs[j], policy)
  {
    hide IngestOne, VerifyEvent;
    DoneBefore(policy, xs, j + 1, |xs|, allowGaps);
    AfterTracks(policy, xs, j + 1, allowGaps);
  }

  lemma SameCloseTime(s: Store, a: Raw, b: Raw)
    requires a.Ledger() == b.Ledger()
    ensures CloseTimeFor(s.events, a) == CloseTimeFor(s.events, b)
  {}

  lemma {:induction false} ResumeFindsLedger(xs: seq<Raw>, k: nat, i: nat)
    requires Ordered(xs) && k <= i < |xs|
    ensures var q := k + ResumePoint(xs[k..], xs[i].ledger); q <= i && xs[q].ledger == xs[i].ledger
    decreases i - k
  {
    assert xs[k..][0] == xs[k] && xs[k..][1..] == xs[k + 1..];
    if Skipped(xs[k], xs[i].ledger) {
      assert k < i;
      ResumeFindsLedger(xs, k + 1, i);
    }
  }

  /** After row `j`, an earlier-timed row of the same ledger is refused on replay. */
  lemma RefusedOnReplay(policy: Policy, xs: seq<Raw>, q: nat, j: nat, allowGaps: bool)
    requires Steady(xs) && Growing(xs) && q <= j < |xs|
    requires After(policy, xs, |xs|, allowGaps).2
    requires xs[q].ledger == xs[j].ledger
    requires xs[q].timestamp.Some? && xs[j].timestamp.Some? && xs[q].timestamp.value < xs[j].timestamp.value
    ensures Ingest(After(policy, xs, j + 1, allowGaps).0, policy, xs[q..], allowGaps).2.Rejected?
  {
    hide IngestOne, VerifyEvent, CloseTimeFor, Steady, Tracks, After;
    DoneBefore(policy, xs, j + 1, |xs|, allowGaps);
    AfterTracks(policy, xs, j + 1, allowGaps);
    var s := After(policy, xs, j + 1, allowGaps).0;
    LastRowCloses(s, policy, xs, j + 1);
    var s0 := s.(batchHash := None);
    SameCloseTime(s0, xs[q], xs[j]);
    SameEvents(s0, s, xs[j]);
    EarlierIsRefused(xs[q], policy, s.contractId, xs[j].timestamp.value, Numbered(map[], xs[q]));
    RefusedStep(s0, policy, xs[q], Numbered(map[], xs[q]), allowGaps);
    assert xs[q..][0] == xs[q];
  }

  lemma SameEvents(s: Store, t: Store, row: Raw)
    requires s.events == t.events
    ensures CloseTimeFor(s.events, row) == CloseTimeFor(t.events, row)
  {}

  lemma HoldsCursor(s: Store, policy: Policy, xs: seq<Raw>, p: nat)
    requires 0 < p <= |xs| && Tracks(s, policy, xs, p)
    ensures s.cursor == xs[p - 1].Ledger()
  {}

  lemma StampIsSteady(rows: seq<Raw>, i: nat)
    requires Ordered(rows) && OneHash(rows) && i < |rows|
    ensures var xs := Stamp(rows, None);
            && Steady(xs) && Ordered(xs) && |xs| == |rows|
            && xs[i].Row? && xs[i].ledger == rows[i].ledger && xs[i].timestamp == rows[i].timestamp
  {
    AllExplicit(rows, None, 0);
    StampKeepsRows(rows, None, 0);
  }

  lemma RefusedBatch(s: Store, policy: Policy, batch: seq<Raw>, allowGaps: bool)
    requires Ingest(s, policy, batch, allowGaps).2.Rejected?
    ensures !Feed(s, policy, [batch], allowGaps).2
  {
    hide IngestRows;
  }

  /** Two close times in one ledger: crash right after the later one, and the restart is refused. */
  lemma TwoCloseTimesRefuse(policy: Policy, rows: seq<Raw>, i: nat, j: nat, allowGaps: bool)
    requires Ordered(rows) && OneHash(rows) && ArrivalNumbered(rows)
    requires |Stamp(rows, None)| == |rows| && After(policy, Stamp(rows, None), |rows|, allowGaps).2
    requires i < j < |rows| && rows[i].ledger == rows[j].ledger && rows[i].timestamp != rows[j].timestamp
    ensures var s := After(policy, Stamp(rows, None), j + 1, allowGaps).0;
            !Feed(s, policy, [Stamp(rows, s.cursor)], allowGaps).2
  {
    hide Ingest, IngestOne, StampFrom, After, Tracks, Steady, Ordered, OneHash, ArrivalNumbered, Growing, Feed, ResumePoint, Skipped;
    var xs := Stamp(rows, None);
    StampIsSteady(rows, i);
    StampIsSteady(rows, j);
    StampGrows(rows, None, 0);
    DoneBefore(policy, xs, j + 1, |xs|, allowGaps);
    AfterTracks(policy, xs, j + 1, allowGaps);
    var s := After(policy, xs, j + 1, allowGaps).0;
    HoldsCursor(s, policy, xs, j + 1);
    assert xs[0..] == xs;
    ResumeFindsLedger(xs, 0, i);
    SkippingIsDropping(rows, None, 0, s.cursor);
    var q := ResumePoint(xs, s.cursor);
    TimesClimb(policy, xs, q, i, allowGaps);
    TimesClimb(policy, xs, i, j, allowGaps);
    RefusedOnReplay(policy, xs, q, j, allowGaps);
    RefusedBatch(s, policy, xs[q..], allowGaps);
  }

  /** For an arrival-numbered stream that plain `ingest` accepts, every crash point resumes
      if and only if no ledger carries two close times. */
  lemma ResumableExactly(policy: Policy, rows: seq<Raw>, allowGaps: bool)
    requires Ordered(rows) && OneHash(rows) && ArrivalNumbered(rows)
    requires Ingest(Empty(policy), policy, rows, allowGaps).2.Done?
    ensures OneCloseTime(rows) <==>
            forall p: nat | p <= |Stamp(rows, None)| ::
              var s := After(policy, Stamp(rows, None), p, allowGaps).0; Feed(s, policy, [Stamp(rows, s.cursor)], allowGaps).2
  {
    hide IngestOne, StampFrom, Ordered, OneHash, ArrivalNumbered, Feed, Steady, After;
    var xs := Stamp(rows, None);
    AllExplicit(rows, None, 0);
    StampKeepsRows(rows, None, 0);
    StampingFrom(Empty(policy), policy, rows, map[], None, 0, allowGaps);
    AcceptedPrefix(policy, xs, |xs|, allowGaps);
    if OneCloseTime(rows) {
      StampIsRegular(rows);
      forall p: nat | p <= |xs|
        ensures var s := After(policy, xs, p, allowGaps).0; Feed(s, policy, [Stamp(rows, s.cursor)], allowGaps).2
      {
        var s := After(policy, xs, p, allowGaps).0;
        SkippingIsDropping(rows, None, 0, s.cursor);
        WithinHeld(s, policy, xs, p, allowGaps);
        assert Flatten([Stamp(rows, s.cursor)]) == Stamp(rows, s.cursor);
        FeedBatches(s, policy, xs, p, ResumePoint(xs, s.cursor), [Stamp(rows, s.cursor)], allowGaps);
      }
    } else {
      var i, j :| 0 <= i < j < |rows| && rows[i].Row? && rows[j].Row? && rows[i].ledger == rows[j].ledger
                  && rows[i].timestamp != rows[j].timestamp;
      TwoCloseTimesRefuse(policy, rows, i, j, allowGaps);
    }
  }
}
