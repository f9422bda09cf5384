/** The indexer as the code runs it: tables updated in place, row by row.
    Every method is proved against the store functions, so whatever is proved
    of those over whole runs holds of this class. */
module Indexing {
  import opened Options
  import opened Authenticity
  import opened Medians
  import S = Store

  class Indexer {
    const policy: Policy
    var events: map<S.Key, Event>
    var sources: map<string, S.Source>
    var submissions: map<S.Key, S.Submission>
    var aggregates: map<S.Key, S.Aggregate>
    var gaps: set<(int, int)>
    var cursor: Option<int>
    var contractId: Option<string>
    var rejected: set<(int, int, Code)>
    var reorgs: seq<(int, string, string)>
    var batchLedgerHash: Option<(int, string)>

    ghost function State(): S.Store
      reads this
    {
      S.Store(events, sources, submissions, aggregates, gaps, cursor, contractId, rejected, reorgs, batchLedgerHash)
    }

    constructor (policy: Policy)
      ensures this.policy == policy && State() == S.Empty(policy)
    {
      this.policy := policy;
      events, sources, submissions, aggregates := map[], map[], map[], map[];
      gaps, cursor, contractId := {}, None, Or(policy.expectedContractId, None);
      rejected, reorgs, batchLedgerHash := {}, [], None;
    }

    method TrustedLedger() returns (r: Option<int>)
      ensures r == S.Trusted(State())
    {
      if gaps == {} {
        r := MaxLedger();
      } else {
        var todo := gaps;
        var g :| g in todo;
        var least := g.0;
        todo := todo - {g};
        while todo != {}
          invariant todo <= gaps
          invariant exists h :: h in gaps && h.0 == least
          invariant forall h | h in gaps - todo :: least <= h.0
        {
          var h :| h in todo;
          least := if h.0 < least then h.0 else least;
          todo := todo - {h};
        }
        r := Some(least - 1);
      }
    }

    method MaxLedger() returns (r: Option<int>)
      ensures r == S.MaxLedger(events)
    {
      if events == map[] { return None; }
      assert events.Keys != {};
      S.LastExists(events.Keys);
      var k :| k in events.Keys && forall j | j in events.Keys && j != k :: S.Before(j, k);
      r := Some(k.ledger);
    }

    method LastCloseTime(ledger: Option<int>) returns (r: Option<int>)
      ensures r == if ledger.None? then None else S.LastCloseTime(events, ledger.value)
    {
      if ledger.None? { return None; }
      var ks := S.AtOrBelow(events, ledger.value);
      if ks == {} { return None; }
      S.LastExists(ks);
      var k :| k in ks && forall j | j in ks && j != k :: S.Before(j, k);
      r := Some(events[k].timestamp);
    }

    method StoredHash(ledger: int) returns (r: Option<string>)
      ensures r == S.StoredHash(events, ledger)
    {
      var ks := S.AtLedger(events, ledger);
      if ks == {} { return None; }
      S.FirstExists(ks);
      var k :| k in ks && forall j | j in ks && j != k :: S.Before(k, j);
      r := events[k].hash;
    }

    method RollbackTo(ledger: int)
      modifies this
      ensures State() == S.RollbackTo(old(State()), ledger)
    {
      events := S.Keep(events, ledger);
      submissions := S.Keep(submissions, ledger);
      aggregates := S.Keep(aggregates, ledger);
      sources := DeleteAdded(sources, ledger);
      sources := ClearRemoved(sources, ledger);
      gaps := S.KeepGaps(gaps, ledger);
      cursor := MaxLedger();
      TwoUpdates(old(sources), ledger);
    }

    /** False when the hash contradicts one this batch already wrote. */
    method CheckLedgerHash(e: Event) returns (ok: bool)
      modifies this
      ensures ok == !S.ForkInBatch(old(State()), e)
      ensures State() == if ok then S.AfterHashCheck(old(State()), e)
                         else old(State()).(rejected := old(rejected) + {(e.ledger, e.index, LedgerHashInconsistent)})
    {
      hide S.RollbackTo, S.StoredHash;
      if e.hash.None? { return true; }
      var stored := StoredHash(e.ledger);
      if stored.None? || stored == e.hash { return true; }
      if batchLedgerHash.Some? && batchLedgerHash.value.0 == e.ledger {
        rejected := rejected + {(e.ledger, e.index, LedgerHashInconsistent)};
        return false;
      }
      reorgs := reorgs + [(e.ledger, stored.value, e.hash.value)];
      RollbackTo(e.ledger - 1);
      ok := true;
    }

    method CloseGapAt(ledger: int)
      modifies this`gaps
      ensures gaps == S.CloseGapAt(old(gaps), ledger)
    {
      var todo := set g | g in gaps && S.Covers(g, ledger);
      ghost var done: set<(int, int)> := {};
      while todo != {}
        invariant todo !! done && todo + done == set g | g in old(gaps) && S.Covers(g, ledger)
        invariant gaps == (old(gaps) - done) + PiecesOf(done, ledger)
      {
        var g :| g in todo;
        SplitOne(old(gaps), done, g, ledger);
        gaps := gaps - {g};
        if g.0 <= ledger - 1 {
          gaps := gaps + {(g.0, ledger - 1)};
        }
        if ledger + 1 <= g.1 {
          gaps := gaps + {(ledger + 1, g.1)};
        }
        done, todo := done + {g}, todo - {g};
      }
      AllSplit(old(gaps), ledger);
    }

    /** The dict of `_latest_prices`: the last price of each source, values in first-seen order. */
    method LatestPrices(asset: string, at: S.Key) returns (prices: seq<int>)
      ensures multiset(prices) == multiset(S.LatestPrices(submissions, sources, asset, at))
    {
      hide Holds, S.RowsOf, S.LatestPrices, S.FeedingKeys, S.LastPerSource, Occurs, LastPrice, Values;
      StartEmpty(submissions, sources, asset, at);
      var todo := S.FeedingKeys(submissions, sources, asset, at);
      ghost var all := todo;
      var latest: map<string, int>, order: seq<string> := map[], [];
      ghost var rows: seq<S.Submission> := [];
      while todo != {}
        invariant todo <= all
        invariant S.RowsOf(submissions, all) == rows + S.RowsOf(submissions, todo)
        invariant Holds(latest, order, rows)
      {
        S.FirstExists(todo);
        var k :| k in todo && forall j | j in todo && j != k :: S.Before(k, j);
        var row := submissions[k];
        FirstRow(submissions, todo, k);
        SetRow(latest, order, rows, row);
        order := if row.source in latest then order else order + [row.source];
        latest := latest[row.source := row.price];
        ghost var rest := S.RowsOf(submissions, todo - {k});
        assert rows + ([row] + rest) == (rows + [row]) + rest;
        rows := rows + [row];
        todo := todo - {k};
      }
      assert S.RowsOf(submissions, all) == rows;
      DictIsLatest(submissions, sources, asset, at, latest, order, rows);
      prices := Values(latest, order);
    }

    /** False when the event's data lacks a required key. */
    method Materialize(e: Event) returns (ok: bool)
      modifies this
      ensures ok == S.Materialize(old(State()), e).Some?
      ensures State() == if ok then S.Materialize(old(State()), e).value else old(State())
    {
      var k, d := S.Key(e.ledger, e.index), e.data;
      if e.topic == "source_added" {
        if d.source.None? { return false; }
        sources := sources[d.source.value := S.Source(d.name, e.ledger, None)];
      } else if e.topic == "source_removed" {
        if d.source.None? { return false; }
        if d.source.value in sources {
          sources := sources[d.source.value := sources[d.source.value].(removed := Some(e.ledger))];
        }
      } else if e.topic == "price_submitted" {
        var t := S.SubmissionTime(d, e.timestamp);
        if d.asset.None? || d.source.None? || d.price.None? || t.None? { return false; }
        submissions := submissions[k := S.Submission(d.asset.value, d.source.value, d.price.value, t.value)];
      } else if e.topic == "price_aggregated" {
        if d.asset.None? { return false; }
        var latest := LatestPrices(d.asset.value, k);
        IgnoresOrder(latest, S.LatestPrices(submissions, sources, d.asset.value, k));
        var t, n := S.SubmissionTime(d, e.timestamp), S.Count(d.numSources);
        if d.price.None? || n.None? || t.None? { return false; }
        aggregates := aggregates[k := S.Aggregate(d.asset.value, d.price.value, n.value, t.value, Median(latest))];
      }
      ok := true;
    }

    method IngestOne(row: Raw, index: int, allowGaps: bool) returns (o: S.Outcome)
      modifies this
      ensures (State(), o) == S.IngestOne(old(State()), policy, row, index, allowGaps)
    {
      hide S.Materialize, S.CloseGapAt, S.LastCloseTime, S.StoredHash, S.RollbackTo, VerifyEvent;
      var close := LastCloseTime(row.Ledger());
      var verdict := VerifyEvent(row, policy, contractId, close, index);
      if verdict.Refused? {
        rejected := rejected + {S.Rejection(row, index, verdict.code)};
        return S.Rejected(verdict.code);
      }
      var e := verdict.event;
      if contractId.None? {
        contractId := Some(e.contractId);
      }
      assert State() == S.Pin(old(State()), e);
      var ok := CheckLedgerHash(e);
      if !ok { return S.Rejected(LedgerHashInconsistent); }
      o := Accept(e, allowGaps);
    }

    method Accept(e: Event, allowGaps: bool) returns (o: S.Outcome)
      modifies this
      ensures (State(), o) == S.Accept(old(State()), e, allowGaps)
    {
      hide S.Materialize, S.CloseGapAt;
      if S.Key(e.ledger, e.index) in events { return S.Replayed; }
      var cur := cursor;
      if cur.Some? && e.ledger > cur.value + 1 {
        gaps := gaps + {(cur.value + 1, e.ledger - 1)};
        if !allowGaps { return S.Gap(cur.value + 1, e.ledger - 1); }
      }
      CloseGapAt(e.ledger);
      events := events[S.Key(e.ledger, e.index) := e];
      var ok := Materialize(e);
      if !ok { return S.Unreadable; }
      if cur.None? || e.ledger > cur.value {
        cursor := Some(e.ledger);
      }
      if e.hash.Some? {
        batchLedgerHash := Some((e.ledger, e.hash.value));
      }
      o := S.Added;
    }

    method Ingest(rows: seq<Raw>, allowGaps: bool) returns (added: nat, o: S.Outcome)
      modifies this
      ensures (State(), added, o) == S.Ingest(old(State()), policy, rows, allowGaps)
    {
      hide S.IngestOne;
      added := 0;
      var counters: map<Option<int>, int> := map[];
      batchLedgerHash := None;
      ghost var whole := S.Ingest(old(State()), policy, rows, allowGaps);
      var i := 0;
      while i < |rows|
        invariant 0 <= i <= |rows|
        invariant var rest := S.IngestRows(State(), policy, rows[i..], counters, allowGaps);
                  whole == (rest.0, added + rest.1, rest.2)
      {
        assert rows[i..][0] == rows[i] && rows[i..][1..] == rows[i + 1..];
        o := IngestOne(rows[i], S.Numbered(counters, rows[i]), allowGaps);
        if !o.Added? && !o.Replayed? { return; }
        counters := S.Bump(counters, rows[i]);
        added := added + if o.Added? then 1 else 0;
        i := i + 1;
      }
      o := S.Done;
    }
  }

  // -- the two updates of a rollback, and the split of one gap ---------------

  function DeleteAdded(sources: map<string, S.Source>, ledger: int): map<string, S.Source> {
    map s | s in sources && sources[s].added <= ledger :: sources[s]
  }

  function ClearRemoved(sources: map<string, S.Source>, ledger: int): map<string, S.Source> {
    map s | s in sources ::
      if sources[s].removed.Some? && sources[s].removed.value > ledger then sources[s].(removed := None) else sources[s]
  }

  lemma TwoUpdates(sources: map<string, S.Source>, ledger: int)
    ensures ClearRemoved(DeleteAdded(sources, ledger), ledger) == S.KeepSources(sources, ledger)
  {}

  function Pieces(g: (int, int), ledger: int): set<(int, int)> {
    (if g.0 <= ledger - 1 then {(g.0, ledger - 1)} else {}) + (if ledger + 1 <= g.1 then {(ledger + 1, g.1)} else {})
  }

  ghost function PiecesOf(gaps: set<(int, int)>, ledger: int): set<(int, int)> {
    set g, p | g in gaps && p in Pieces(g, ledger) :: p
  }

  lemma SplitOne(gaps: set<(int, int)>, done: set<(int, int)>, g: (int, int), ledger: int)
    requires g in gaps && g !in done && S.Covers(g, ledger)
    ensures ((gaps - done) + PiecesOf(done, ledger) - {g}) + Pieces(g, ledger)
         == (gaps - (done + {g})) + PiecesOf(done + {g}, ledger)
  {
    var a := ((gaps - done) + PiecesOf(done, ledger) - {g}) + Pieces(g, ledger);
    var b := (gaps - (done + {g})) + PiecesOf(done + {g}, ledger);
    assert forall h, p | p in Pieces(h, ledger) :: !S.Covers(p, ledger);
    forall p | p in a ensures p in b {
      if p in Pieces(g, ledger) {
        assert g in done + {g};
      }
    }
  }

  lemma AllSplit(gaps: set<(int, int)>, ledger: int)
    ensures var hit := set g | g in gaps && S.Covers(g, ledger);
            (gaps - hit) + PiecesOf(hit, ledger) == S.CloseGapAt(gaps, ledger)
  {
    var hit := set g | g in gaps && S.Covers(g, ledger);
    forall p | p in PiecesOf(hit, ledger) ensures p in S.CloseGapAt(gaps, ledger) {
      var g :| g in hit && p in Pieces(g, ledger);
    }
    forall g | g in hit ensures Pieces(g, ledger) <= PiecesOf(hit, ledger) {
      forall p | p in Pieces(g, ledger) ensures p in PiecesOf(hit, ledger) {}
    }
    forall p | p in S.CloseGapAt(gaps, ledger) ensures p in (gaps - hit) + PiecesOf(hit, ledger) {
      if p in gaps && !S.Covers(p, ledger) {
      } else if p in (set g | g in gaps && S.Covers(g, ledger) && g.0 <= ledger - 1 :: (g.0, ledger - 1)) {
        var g :| g in gaps && S.Covers(g, ledger) && g.0 <= ledger - 1 && p == (g.0, ledger - 1);
        assert g in hit && p in Pieces(g, ledger);
      } else {
        var g :| g in gaps && S.Covers(g, ledger) && ledger + 1 <= g.1 && p == (ledger + 1, g.1);
        assert g in hit && p in Pieces(g, ledger);
      }
    }
  }

  // -- the insertion-ordered dict -------------------------------------------

  ghost predicate IsDict(latest: map<string, int>, order: seq<string>) {
    && (forall x :: x in latest <==> x in order)
    && forall i, j | 0 <= i < j < |order| :: order[i] != order[j]
  }

  function Values(latest: map<string, int>, order: seq<string>): seq<int>
    requires forall x | x in order :: x in latest
  {
    seq(|order|, i requires 0 <= i < |order| => latest[order[i]])
  }

  lemma SetInDict(latest: map<string, int>, order: seq<string>, x: string, p: int)
    requires IsDict(latest, order)
    ensures var order' := if x in latest then order else order + [x];
            && IsDict(latest[x := p], order')
            && multiset(Values(latest[x := p], order'))
               == multiset(Values(latest, order)) - (if x in latest then multiset{latest[x]} else multiset{}) + multiset{p}
  {
    if x in latest {
      hide Values;
      var i :| 0 <= i < |order| && order[i] == x;
      ReplaceValue(latest, order, i, p);
      ReplaceOne(Values(latest, order), i, p);
    } else {
      AppendValue(latest, order, x, p);
    }
  }

  lemma AppendValue(latest: map<string, int>, order: seq<string>, x: string, p: int)
    requires IsDict(latest, order) && x !in latest
    ensures IsDict(latest[x := p], order + [x])
    ensures Values(latest[x := p], order + [x]) == Values(latest, order) + [p]
  {}

  lemma ReplaceValue(latest: map<string, int>, order: seq<string>, i: nat, p: int)
    requires IsDict(latest, order) && i < |order|
    ensures IsDict(latest[order[i] := p], order)
    ensures Values(latest, order)[i] == latest[order[i]]
    ensures Values(latest[order[i] := p], order) == Values(latest, order)[i := p]
  {}

  lemma ReplaceOne(s: seq<int>, i: nat, p: int)
    requires i < |s|
    ensures multiset(s[i := p]) == multiset(s) - multiset{s[i]} + multiset{p}
  {}

  ghost predicate Occurs(rows: seq<S.Submission>, x: string) {
    exists i :: 0 <= i < |rows| && rows[i].source == x
  }

  function Without(rows: seq<S.Submission>, x: string): seq<S.Submission> {
    if rows == [] then [] else (if rows[0].source == x then [] else [rows[0]]) + Without(rows[1..], x)
  }

  function LastPrice(rows: seq<S.Submission>, x: string): int {
    if rows == [] then 0
    else if rows[|rows| - 1].source == x then rows[|rows| - 1].price
    else LastPrice(rows[..|rows| - 1], x)
  }

  lemma {:induction false} LastPriceSkipsHead(rows: seq<S.Submission>, x: string)
    requires rows != [] && Occurs(rows[1..], x)
    ensures LastPrice(rows, x) == LastPrice(rows[1..], x)
    decreases |rows|
  {
    var n := |rows| - 1;
    assert rows[1..][..n - 1] == rows[..n][1..];
    if rows[n].source != x {
      var i :| 0 <= i < n && rows[1..][i].source == x;
      assert rows[..n][1..][i].source == x;
      LastPriceSkipsHead(rows[..n], x);
    }
  }

  lemma {:induction false} LastPriceOfOnly(rows: seq<S.Submission>, x: string)
    requires rows != [] && rows[0].source == x && !Occurs(rows[1..], x)
    ensures LastPrice(rows, x) == rows[0].price
    decreases |rows|
  {
    var n := |rows| - 1;
    if n > 0 {
      assert rows[1..][n - 1] == rows[n];
      assert forall i | 0 <= i < n - 1 :: rows[..n][1..][i] == rows[1..][i];
      LastPriceOfOnly(rows[..n], x);
    }
  }

  lemma {:induction false} WithoutKeepsOthers(rows: seq<S.Submission>, x: string, y: string)
    requires x != y
    ensures Occurs(Without(rows, x), y) <==> Occurs(rows, y)
  {
    if rows != [] {
      hide Occurs;
      WithoutKeepsOthers(rows[1..], x, y);
      OccursCons(rows, y);
      if rows[0].source == x {
        assert Without(rows, x) == Without(rows[1..], x);
      } else {
        assert Without(rows, x)[0] == rows[0] && Without(rows, x)[1..] == Without(rows[1..], x);
        OccursCons(Without(rows, x), y);
      }
    }
  }

  lemma OccursCons(rows: seq<S.Submission>, x: string)
    requires rows != []
    ensures Occurs(rows, x) <==> rows[0].source == x || Occurs(rows[1..], x)
  {
    if Occurs(rows, x) && rows[0].source != x {
      var i :| 0 <= i < |rows| && rows[i].source == x;
      assert rows[1..][i - 1].source == x;
    }
    if Occurs(rows[1..], x) {
      var i :| 0 <= i < |rows[1..]| && rows[1..][i].source == x;
      assert rows[i + 1].source == x;
    }
  }

  lemma LastPerSourceCons(rows: seq<S.Submission>)
    requires rows != []
    ensures S.LastPerSource(rows)
         == (if Occurs(rows[1..], rows[0].source) then [] else [rows[0].price]) + S.LastPerSource(rows[1..])
  {
    if Occurs(rows[1..], rows[0].source) {
      var i :| 0 <= i < |rows[1..]| && rows[1..][i].source == rows[0].source;
      assert rows[i + 1].source == rows[0].source;
    } else {
      assert forall j | 1 <= j < |rows| :: rows[j] == rows[1..][j - 1];
    }
  }

  /** Setting one source apart from the rest. */
  lemma {:induction false} SplitSource(rows: seq<S.Submission>, x: string)
    ensures multiset(S.LastPerSource(rows))
         == multiset(S.LastPerSource(Without(rows, x))) + PriceBag(rows, x)
  {
    if rows != [] {
      hide S.LastPerSource, Occurs, LastPrice, PriceBag;
      var tail := rows[1..];
      SplitSource(tail, x);
      LastPerSourceCons(rows);
      PriceBagCons(rows, x);
      if rows[0].source != x {
        assert Without(rows, x) == [rows[0]] + Without(tail, x);
        LastPerSourceCons(Without(rows, x));
        WithoutKeepsOthers(tail, x, rows[0].source);
        assert PriceBag(rows, x) == PriceBag(tail, x);
      } else {
        assert Without(rows, x) == Without(tail, x);
        if !Occurs(tail, x) {
          assert PriceBag(tail, x) == multiset{} by { NoBag(tail, x); }
        }
      }
    }
  }

  /** The one price source `x` contributes, if it occurs. */
  ghost function PriceBag(rows: seq<S.Submission>, x: string): multiset<int> {
    if Occurs(rows, x) then multiset{LastPrice(rows, x)} else multiset{}
  }

  lemma NoBag(rows: seq<S.Submission>, x: string)
    ensures !Occurs(rows, x) ==> PriceBag(rows, x) == multiset{}
  {}

  lemma PriceBagCons(rows: seq<S.Submission>, x: string)
    requires rows != []
    ensures PriceBag(rows, x) == if rows[0].source == x && !Occurs(rows[1..], x) then multiset{rows[0].price} else PriceBag(rows[1..], x)
  {
    OccursCons(rows, x);
    if Occurs(rows[1..], x) {
      LastPriceSkipsHead(rows, x);
    } else if rows[0].source == x {
      LastPriceOfOnly(rows, x);
    }
  }

  lemma {:induction false} WithoutSnoc(rows: seq<S.Submission>, row: S.Submission)
    ensures Without(rows + [row], row.source) == Without(rows, row.source)
  {
    if rows != [] {
      assert (rows + [row])[1..] == rows[1..] + [row];
      WithoutSnoc(rows[1..], row);
    }
  }

  lemma OccursSnoc(rows: seq<S.Submission>, row: S.Submission, x: string)
    ensures Occurs(rows + [row], x) <==> Occurs(rows, x) || x == row.source
    ensures LastPrice(rows + [row], x) == if x == row.source then row.price else LastPrice(rows, x)
  {
    var more := rows + [row];
    assert more[|rows|] == row && more[..|rows|] == rows;
    if Occurs(rows, x) {
      var i :| 0 <= i < |rows| && rows[i].source == x;
      assert more[i].source == x;
    }
  }

  /** One more row replaces its source's price and leaves the others. */
  lemma AppendRow(rows: seq<S.Submission>, row: S.Submission)
    ensures multiset(S.LastPerSource(rows + [row]))
         == multiset(S.LastPerSource(rows)) - PriceBag(rows, row.source) + multiset{row.price}
  {
    hide S.LastPerSource, Occurs, LastPrice;
    SplitSource(rows, row.source);
    SplitSource(rows + [row], row.source);
    OccursSnoc(rows, row, row.source);
    WithoutSnoc(rows, row);
  }

  /** The dict holds exactly one price per source of `rows`, its last. */
  ghost predicate Holds(latest: map<string, int>, order: seq<string>, rows: seq<S.Submission>) {
    && IsDict(latest, order)
    && multiset(Values(latest, order)) == multiset(S.LastPerSource(rows))
    && forall x :: (x in latest <==> Occurs(rows, x)) && (x in latest ==> latest[x] == LastPrice(rows, x))
  }

  lemma SetRow(latest: map<string, int>, order: seq<string>, rows: seq<S.Submission>, row: S.Submission)
    requires Holds(latest, order, rows)
    ensures Holds(latest[row.source := row.price], if row.source in latest then order else order + [row.source], rows + [row])
  {
    hide S.LastPerSource, Occurs, LastPrice, Values;
    SetInDict(latest, order, row.source, row.price);
    AppendRow(rows, row);
    forall x
      ensures x in latest[row.source := row.price] <==> Occurs(rows + [row], x)
      ensures x in latest[row.source := row.price] ==> latest[row.source := row.price][x] == LastPrice(rows + [row], x)
    {
      OccursSnoc(rows, row, x);
    }
  }

  lemma StartEmpty(submissions: map<S.Key, S.Submission>, sources: map<string, S.Source>, asset: string, at: S.Key)
    ensures S.FeedingKeys(submissions, sources, asset, at) <= submissions.Keys
    ensures S.RowsOf(submissions, {}) == []
    ensures Holds(map[], [], [])
  {}

  lemma DictIsLatest(submissions: map<S.Key, S.Submission>, sources: map<string, S.Source>, asset: string, at: S.Key,
                     latest: map<string, int>, order: seq<string>, rows: seq<S.Submission>)
    requires Holds(latest, order, rows)
    requires S.FeedingKeys(submissions, sources, asset, at) <= submissions.Keys
    requires S.RowsOf(submissions, S.FeedingKeys(submissions, sources, asset, at)) == rows
    ensures forall x | x in order :: x in latest
    ensures multiset(Values(latest, order)) == multiset(S.LatestPrices(submissions, sources, asset, at))
  {
    hide S.RowsOf, S.FeedingKeys, S.LastPerSource, Occurs, LastPrice, Values;
  }

  lemma FirstRow(submissions: map<S.Key, S.Submission>, ks: set<S.Key>, k: S.Key)
    requires ks <= submissions.Keys && k in ks
    requires forall j | j in ks && j != k :: S.Before(k, j)
    ensures S.RowsOf(submissions, ks) == [submissions[k]] + S.RowsOf(submissions, ks - {k})
  {
    assert S.First(ks) == k;
  }
}
