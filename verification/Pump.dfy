/** The pump: stamped rows through the bounded buffer into the indexer. */
module Pump {
  import opened Authenticity
  import opened Batches
  import B = Buffers
  import Resume
  import S = Store
  import Indexing

  function Sized(rows: seq<Raw>, size: Raw -> nat): seq<(Raw, nat)> {
    seq(|rows|, i requires 0 <= i < |rows| => (rows[i], size(rows[i])))
  }

  /** The batches the store took whole, and the rows of the next one it had stored when it failed. */
  function Stored(batches: seq<seq<Raw>>, whole: nat, part: nat): seq<seq<Raw>>
    requires whole < |batches| && part <= |batches[whole]|
  {
    batches[..whole] + [batches[whole][..part]]
  }

  lemma {:induction false} StoredIsPrefix(batches: seq<seq<Raw>>, whole: nat, part: nat)
    requires whole < |batches| && part <= |batches[whole]|
    ensures Flatten(Stored(batches, whole, part)) <= Flatten(batches)
    decreases whole
  {
    if whole == 0 {
      assert Stored(batches, 0, part) == [batches[0][..part]];
      assert Flatten(Stored(batches, 0, part)) == batches[0][..part] + [];
    } else {
      assert Stored(batches, whole, part)[1..] == Stored(batches[1..], whole - 1, part);
      StoredIsPrefix(batches[1..], whole - 1, part);
    }
  }

  /** Any schedule of a pump run over the resumed stream, under any limits and batch size, is one of the
      runs the crash/resume theorem speaks of: complete if it finished, and otherwise stopping
      anywhere, between batches or inside one. */
  lemma PumpRunIsRestart(s: S.Store, rows: seq<Raw>, size: Raw -> nat, maxEvents: nat, maxBytes: nat,
                         steps: seq<B.Step>, batchSize: nat, t: B.System<Raw>)
    requires maxEvents > 0 && batchSize > 0
    requires B.Runs(B.Start(maxEvents, maxBytes, Sized(Resume.Stamp(rows, s.cursor), size)), steps, batchSize, t)
    ensures Flatten(t.batches) <= Resume.Stamp(rows, s.cursor)
    ensures t.consumer.Finished? && !t.streamError ==> Flatten(t.batches) == Resume.Stamp(rows, s.cursor)
    ensures forall whole, part | 0 <= whole < |t.batches| && 0 <= part <= |t.batches[whole]| ::
              Flatten(Stored(t.batches, whole, part)) <= Resume.Stamp(rows, s.cursor)
  {
    var stream := Sized(Resume.Stamp(rows, s.cursor), size);
    B.BufferIsFaithful(maxEvents, maxBytes, stream, steps, batchSize, t);
    assert B.Rows(stream) == Resume.Stamp(rows, s.cursor);
    forall whole, part | 0 <= whole < |t.batches| && 0 <= part <= |t.batches[whole]|
      ensures Flatten(Stored(t.batches, whole, part)) <= Resume.Stamp(rows, s.cursor)
    {
      StoredIsPrefix(t.batches, whole, part);
    }
  }

  /** One pump run: its limits, its schedule, where the schedule ended, and what the store took of it. */
  datatype PumpRun = PumpRun(maxEvents: nat, maxBytes: nat, batchSize: nat, steps: seq<B.Step>, end: B.System<Raw>, fed: seq<seq<Raw>>)

  /** The run resumes from the cursor of `s`; the store took every batch, or failed somewhere inside one. */
  ghost predicate Happened(run: PumpRun, s: S.Store, rows: seq<Raw>, size: Raw -> nat) {
    && run.maxEvents > 0 && run.batchSize > 0
    && B.Runs(B.Start(run.maxEvents, run.maxBytes, Sized(Resume.Stamp(rows, s.cursor), size)), run.steps, run.batchSize, run.end)
    && (run.fed == run.end.batches
        || exists whole, part | 0 <= whole < |run.end.batches| && 0 <= part <= |run.end.batches[whole]| ::
             run.fed == Stored(run.end.batches, whole, part))
  }

  ghost predicate Finished(run: PumpRun) {
    run.fed == run.end.batches && run.end.consumer.Finished? && !run.end.streamError
  }

  /** Pump runs one after another, each resuming from the cursor the last one left. */
  ghost predicate History(s: S.Store, policy: Policy, rows: seq<Raw>, size: Raw -> nat, runs: seq<PumpRun>, allowGaps: bool)
    decreases |runs|
  {
    runs == [] || (
      && Happened(runs[0], s, rows, size)
      && History(Resume.Feed(s, policy, runs[0].fed, allowGaps).0, policy, rows, size, runs[1..], allowGaps))
  }

  function FedBy(runs: seq<PumpRun>): seq<seq<seq<Raw>>> {
    seq(|runs|, i requires 0 <= i < |runs| => runs[i].fed)
  }

  lemma {:induction false} HistoryRestarts(s: S.Store, policy: Policy, rows: seq<Raw>, size: Raw -> nat, runs: seq<PumpRun>, allowGaps: bool)
    requires History(s, policy, rows, size, runs, allowGaps)
    ensures Resume.Restarts(s, policy, rows, FedBy(runs), allowGaps)
    decreases |runs|
  {
    hide Resume.Feed, Resume.StampFrom, B.Runs, Stored;
    if runs != [] {
      var run := runs[0];
      PumpRunIsRestart(s, rows, size, run.maxEvents, run.maxBytes, run.steps, run.batchSize, run.end);
      HistoryRestarts(Resume.Feed(s, policy, run.fed, allowGaps).0, policy, rows, size, runs[1..], allowGaps);
      assert FedBy(runs)[1..] == FedBy(runs[1..]);
    }
  }

  /** Whatever the limits, batch sizes, interleavings and failures of a history of pump runs, once a run
      finishes the store is the one plain `ingest` leaves, no row was refused and none was added twice. */
  lemma PumpHistory(policy: Policy, rows: seq<Raw>, size: Raw -> nat, runs: seq<PumpRun>, last: PumpRun, allowGaps: bool)
    requires Resume.Ordered(rows) && Resume.OneCloseTime(rows) && Resume.OneHash(rows)
    requires S.Ingest(S.Empty(policy), policy, rows, allowGaps).2.Done?
    requires History(S.Empty(policy), policy, rows, size, runs, allowGaps)
    requires Happened(last, Resume.RunAll(S.Empty(policy), policy, FedBy(runs), allowGaps).0, rows, size) && Finished(last)
    ensures var (plain, added, _) := S.Ingest(S.Empty(policy), policy, rows, allowGaps);
            var (s, n, ok) := Resume.RunAll(S.Empty(policy), policy, FedBy(runs), allowGaps);
            var (t, m, ok2) := Resume.Feed(s, policy, last.fed, allowGaps);
            ok && ok2 && Resume.Core(t) == Resume.Core(plain) && n + m == added
  {
    hide Resume.Feed, Resume.RunAll, Resume.StampFrom, Resume.Ordered, Resume.OneCloseTime, Resume.OneHash, S.IngestRows, B.Runs, FedBy, History;
    HistoryRestarts(S.Empty(policy), policy, rows, size, runs, allowGaps);
    var s := Resume.RunAll(S.Empty(policy), policy, FedBy(runs), allowGaps).0;
    PumpRunIsRestart(s, rows, size, last.maxEvents, last.maxBytes, last.steps, last.batchSize, last.end);
    Resume.CrashResume(policy, rows, FedBy(runs), last.fed, allowGaps);
  }

  /** The consumer loop of `IngestPump.run` over the batches the buffer hands it. */
  method Consume(indexer: Indexing.Indexer, batches: seq<seq<Raw>>) returns (added: nat, taken: nat, ok: bool)
    modifies indexer
    ensures var (s, n, all) := Resume.Feed(old(indexer.State()), indexer.policy, batches, false);
            indexer.State() == s && ok == all && (ok ==> added == n && taken == |batches|)
  {
    hide S.Ingest;
    added, taken := 0, 0;
    ghost var whole := Resume.Feed(indexer.State(), indexer.policy, batches, false);
    while taken < |batches|
      invariant 0 <= taken <= |batches|
      invariant var rest := Resume.Feed(indexer.State(), indexer.policy, batches[taken..], false);
                whole == (rest.0, added + rest.1, rest.2)
    {
      assert batches[taken..][0] == batches[taken] && batches[taken..][1..] == batches[taken + 1..];
      var n, o := indexer.Ingest(batches[taken], false);
      if !o.Done? { return added, taken, false; }
      added, taken := added + n, taken + 1;
    }
    ok := true;
  }
}
