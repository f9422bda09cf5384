/** The indexer's tables as one value, and what each indexer operation does to them.
    The class in Indexer.dfy updates the tables in place and is proved against these. */
module Store {
  import opened Options
  import opened Authenticity
  import opened Medians

  datatype Key = Key(ledger: int, index: int)

  /** `ORDER BY ledger, event_index`. */
  predicate Before(a: Key, b: Key) {
    a.ledger < b.ledger || (a.ledger == b.ledger && a.index < b.index)
  }

  datatype Source = Source(name: Option<string>, added: int, removed: Option<int>)
  datatype Submission = Submission(asset: string, source: string, price: int, timestamp: int)
  datatype Aggregate = Aggregate(asset: string, price: int, numSources: int, timestamp: int, recomputed: int)

  datatype Store = Store(
    events: map<Key, Event>,
    sources: map<string, Source>,
    submissions: map<Key, Submission>,
    aggregates: map<Key, Aggregate>,
    gaps: set<(int, int)>,
    cursor: Option<int>,
    contractId: Option<string>,
    rejected: set<(int, int, Code)>,
    reorgs: seq<(int, string, string)>,
    batchHash: Option<(int, string)>)

  /** What one delivered row came to. `Unreadable` is the uncaught error for `data` whose
      required keys are missing: the event row is already written when it is raised.
      `Done` is a whole batch in which no row raised. */
  datatype Outcome = Added | Replayed | Rejected(code: Code) | Gap(first: int, last: int) | Unreadable | Done

  /** A freshly opened, empty database. */
  function Empty(policy: Policy): Store {
    Store(map[], map[], map[], map[], {}, None, Or(policy.expectedContractId, None), {}, [], None)
  }

  function Ledgers(events: map<Key, Event>): set<int> {
    set k | k in events :: k.ledger
  }

  // -- ordered selection ----------------------------------------------------

  lemma {:induction false} FirstExists(ks: set<Key>)
    requires ks != {}
    ensures exists k :: k in ks && forall j | j in ks && j != k :: Before(k, j)
  {
    var k :| k in ks;
    if ks != {k} {
      FirstExists(ks - {k});
      var m :| m in ks - {k} && forall j | j in ks - {k} && j != m :: Before(m, j);
      assert forall j | j in ks && j != k :: j in ks - {k};
      if Before(m, k) {
        assert forall j | j in ks && j != m :: Before(m, j);
      } else {
        assert forall j | j in ks && j != k :: Before(k, j);
      }
    }
  }

  lemma {:induction false} LastExists(ks: set<Key>)
    requires ks != {}
    ensures exists k :: k in ks && forall j | j in ks && j != k :: Before(j, k)
  {
    var k :| k in ks;
    if ks != {k} {
      LastExists(ks - {k});
      var m :| m in ks - {k} && forall j | j in ks - {k} && j != m :: Before(j, m);
      assert forall j | j in ks && j != k :: j in ks - {k};
      if Before(k, m) {
        assert forall j | j in ks && j != m :: Before(j, m);
      } else {
        assert forall j | j in ks && j != k :: Before(j, k);
      }
    }
  }

  ghost function First(ks: set<Key>): (k: Key)
    requires ks != {}
    ensures k in ks && forall j | j in ks && j != k :: Before(k, j)
  {
    FirstExists(ks);
    var k :| k in ks && forall j | j in ks && j != k :: Before(k, j);
    k
  }

  ghost function Last(ks: set<Key>): (k: Key)
    requires ks != {}
    ensures k in ks && forall j | j in ks && j != k :: Before(j, k)
  {
    LastExists(ks);
    var k :| k in ks && forall j | j in ks && j != k :: Before(j, k);
    k
  }

  function AtOrBelow(events: map<Key, Event>, ledger: int): set<Key> {
    set k | k in events && k.ledger <= ledger
  }

  function AtLedger(events: map<Key, Event>, ledger: int): set<Key> {
    set k | k in events && k.ledger == ledger
  }

  /** Close time of the last event indexed at or before `ledger`. */
  ghost function LastCloseTime(events: map<Key, Event>, ledger: int): Option<int> {
    var ks := AtOrBelow(events, ledger);
    if ks == {} then None else Some(events[Last(ks)].timestamp)
  }

  ghost function CloseTimeFor(events: map<Key, Event>, row: Raw): Option<int> {
    if row.Ledger().None? then None else LastCloseTime(events, row.Ledger().value)
  }

  /** The hash stored for `ledger`: the query takes the first row its primary key yields. */
  ghost function StoredHash(events: map<Key, Event>, ledger: int): Option<string> {
    var ks := AtLedger(events, ledger);
    if ks == {} then None else events[First(ks)].hash
  }

  ghost function MaxLedger(events: map<Key, Event>): Option<int> {
    if events.Keys == {} then None else Some(Last(events.Keys).ledger)
  }

  // -- reorgs and gaps ------------------------------------------------------

  function Keep<V>(table: map<Key, V>, ledger: int): map<Key, V> {
    map k | k in table && k.ledger <= ledger :: table[k]
  }

  function KeepSources(sources: map<string, Source>, ledger: int): map<string, Source> {
    map s | s in sources && sources[s].added <= ledger ::
      if sources[s].removed.Some? && sources[s].removed.value > ledger then sources[s].(removed := None) else sources[s]
  }

  function KeepGaps(gaps: set<(int, int)>, ledger: int): set<(int, int)> {
    set g | g in gaps && g.0 <= ledger
  }

  /** `rollback_to`: discards everything after `ledger`. */
  ghost function RollbackTo(s: Store, ledger: int): Store {
    var events := Keep(s.events, ledger);
    s.(events := events, submissions := Keep(s.submissions, ledger), aggregates := Keep(s.aggregates, ledger),
       sources := KeepSources(s.sources, ledger), gaps := KeepGaps(s.gaps, ledger), cursor := MaxLedger(events))
  }

  predicate Covers(g: (int, int), ledger: int) { g.0 <= ledger <= g.1 }

  /** `_close_gap_at`: every gap the ledger falls into is split around it. */
  function CloseGapAt(gaps: set<(int, int)>, ledger: int): set<(int, int)> {
    (set g | g in gaps && !Covers(g, ledger))
    + (set g | g in gaps && Covers(g, ledger) && g.0 <= ledger - 1 :: (g.0, ledger - 1))
    + (set g | g in gaps && Covers(g, ledger) && ledger + 1 <= g.1 :: (ledger + 1, g.1))
  }

  ghost predicate HashConflict(s: Store, e: Event) {
    && e.hash.Some?
    && StoredHash(s.events, e.ledger).Some?
    && StoredHash(s.events, e.ledger) != e.hash
  }

  /** A conflicting hash for a ledger this very batch already wrote. */
  ghost predicate ForkInBatch(s: Store, e: Event) {
    HashConflict(s, e) && s.batchHash.Some? && s.batchHash.value.0 == e.ledger
  }

  /** `_check_ledger_hash` when it does not reject: a re-delivered ledger is rolled back. */
  ghost function AfterHashCheck(s: Store, e: Event): Store {
    if HashConflict(s, e) then
      RollbackTo(s.(reorgs := s.reorgs + [(e.ledger, StoredHash(s.events, e.ledger).value, e.hash.value)]), e.ledger - 1)
    else s
  }

  // -- materialised views ---------------------------------------------------

  function SubmissionTime(data: Data, ts: int): Option<int> {
    match data.timestamp
    case Absent => Some(ts)
    case Val(t) => Some(t)
    case Ill => None
  }

  function Count(f: Field<int>): Option<int> {
    match f
    case Absent => Some(0)
    case Val(n) => Some(n)
    case Ill => None
  }

  /** The submissions an aggregate at `at` is derived from: earlier, of the asset, and not from
      a source removed at or before that ledger. */
  predicate Feeds(submissions: map<Key, Submission>, sources: map<string, Source>, asset: string, at: Key, k: Key)
    requires k in submissions
  {
    var sub := submissions[k];
    && sub.asset == asset
    && Before(k, at)
    && (sub.source in sources ==>
          sources[sub.source].removed.None? || sources[sub.source].removed.value > at.ledger)
  }

  function FeedingKeys(submissions: map<Key, Submission>, sources: map<string, Source>, asset: string, at: Key): set<Key> {
    set k | k in submissions && Feeds(submissions, sources, asset, at, k)
  }

  ghost function InOrder(ks: set<Key>): seq<Key>
    ensures forall k | k in InOrder(ks) :: k in ks
  {
    if ks == {} then [] else [First(ks)] + InOrder(ks - {First(ks)})
  }

  /** The rows of `ks`, oldest first. */
  ghost function RowsOf(submissions: map<Key, Submission>, ks: set<Key>): seq<Submission>
    requires ks <= submissions.Keys
  {
    var order := InOrder(ks);
    seq(|order|, i requires 0 <= i < |order| => submissions[order[i]])
  }

  /** One price per source: that of its last row. */
  function LastPerSource(rows: seq<Submission>): seq<int> {
    if rows == [] then []
    else if exists j | 1 <= j < |rows| :: rows[j].source == rows[0].source then LastPerSource(rows[1..])
    else [rows[0].price] + LastPerSource(rows[1..])
  }

  ghost function LatestPrices(submissions: map<Key, Submission>, sources: map<string, Source>, asset: string, at: Key): seq<int> {
    LastPerSource(RowsOf(submissions, FeedingKeys(submissions, sources, asset, at)))
  }

  /** `_materialize`; `None` when a required key is missing or cannot be coerced. */
  ghost function Materialize(s: Store, e: Event): Option<Store> {
    var k := Key(e.ledger, e.index);
    var d := e.data;
    if e.topic == "source_added" then
      if d.source.None? then None
      else Some(s.(sources := s.sources[d.source.value := Source(d.name, e.ledger, None)]))
    else if e.topic == "source_removed" then
      if d.source.None? then None
      else if d.source.value in s.sources then
        Some(s.(sources := s.sources[d.source.value := s.sources[d.source.value].(removed := Some(e.ledger))]))
      else Some(s)
    else if e.topic == "price_submitted" then
      var t := SubmissionTime(d, e.timestamp);
      if d.asset.None? || d.source.None? || d.price.None? || t.None? then None
      else Some(s.(submissions := s.submissions[k := Submission(d.asset.value, d.source.value, d.price.value, t.value)]))
    else if e.topic == "price_aggregated" then
      var t := SubmissionTime(d, e.timestamp);
      var n := Count(d.numSources);
      if d.asset.None? || d.price.None? || n.None? || t.None? then None
      else
        var recomputed := Median(LatestPrices(s.submissions, s.sources, d.asset.value, k));
        Some(s.(aggregates := s.aggregates[k := Aggregate(d.asset.value, d.price.value, n.value, t.value, recomputed)]))
    else Some(s)
  }

  /** Whether `data` has, in usable form, every key that the topic's branch reads. */
  predicate Readable(topic: string, d: Data) {
    if topic == "source_added" || topic == "source_removed" then d.source.Some?
    else if topic == "price_submitted" then d.asset.Some? && d.source.Some? && d.price.Some? && !d.timestamp.Ill?
    else if topic == "price_aggregated" then d.asset.Some? && d.price.Some? && !d.numSources.Ill? && !d.timestamp.Ill?
    else true
  }

  /** An event can be materialised, in any store, if and only if its data is readable. */
  lemma ReadableExactly(s: Store, e: Event)
    ensures Materialize(s, e).Some? <==> Readable(e.topic, e.data)
    ensures Write(s, e).1.Unreadable? <==> !Readable(e.topic, e.data)
  {
    hide LatestPrices, Median, CloseGapAt;
  }

  // -- ingestion ------------------------------------------------------------

  function Rejection(row: Raw, index: int, code: Code): (int, int, Code) {
    var ledger := if row.Ledger().Some? then row.Ledger().value else -1;
    var idx := match row.Index() case Absent => index case Val(i) => i case Ill => -1;
    (ledger, idx, code)
  }

  function Pin(s: Store, e: Event): Store {
    if s.contractId.None? then s.(contractId := Some(e.contractId)) else s
  }

  /** The open gaps once a jump past the cursor is recorded. */
  ghost function WithJump(s: Store, e: Event): set<(int, int)> {
    if s.cursor.Some? && e.ledger > s.cursor.value + 1 then s.gaps + {(s.cursor.value + 1, e.ledger - 1)} else s.gaps
  }

  /** The write path of a verified event that is neither a replay nor refused for a jump. */
  ghost function Write(s: Store, e: Event): (Store, Outcome) {
    var s1 := s.(gaps := CloseGapAt(WithJump(s, e), e.ledger), events := s.events[Key(e.ledger, e.index) := e]);
    var s2 := Materialize(s1, e);
    if s2.None? then (s1, Unreadable) else
    var s3 := if s.cursor.None? || e.ledger > s.cursor.value then s2.value.(cursor := Some(e.ledger)) else s2.value;
    (if e.hash.Some? then s3.(batchHash := Some((e.ledger, e.hash.value))) else s3, Added)
  }

  /** Materialising touches the three views and nothing else. */
  lemma MaterializeKeeps(s: Store, e: Event)
    ensures var m := Materialize(s, e);
            m.Some? ==> m.value == s.(sources := m.value.sources, submissions := m.value.submissions, aggregates := m.value.aggregates)
  {
    hide LatestPrices;
  }

  /** Materialising reads the three views and nothing else. */
  lemma MaterializeReads(s: Store, t: Store, e: Event)
    requires s.sources == t.sources && s.submissions == t.submissions && s.aggregates == t.aggregates
    ensures Materialize(s, e).Some? <==> Materialize(t, e).Some?
    ensures Materialize(s, e).Some? ==>
              var (m, n) := (Materialize(s, e).value, Materialize(t, e).value);
              m.sources == n.sources && m.submissions == n.submissions && m.aggregates == n.aggregates
  {
    hide LatestPrices, Median, SubmissionTime, Count;
    if e.topic == "price_aggregated" {
    } else if e.topic == "price_submitted" {
    }
  }

  /** What a write does to the tables outside the views. */
  ghost predicate Wrote(s: Store, e: Event, t: Store, o: Outcome) {
    && t.events == s.events[Key(e.ledger, e.index) := e]
    && t.gaps == CloseGapAt(WithJump(s, e), e.ledger)
    && t.contractId == s.contractId
    && (o.Added? || o.Unreadable?)
    && t.cursor == (if o.Added? && (s.cursor.None? || e.ledger > s.cursor.value) then Some(e.ledger) else s.cursor)
    && t.batchHash == (if o.Added? && e.hash.Some? then Some((e.ledger, e.hash.value)) else s.batchHash)
  }

  lemma WriteEffect(s: Store, e: Event)
    ensures Wrote(s, e, Write(s, e).0, Write(s, e).1)
  {
    hide Materialize, CloseGapAt;
    var s1 := s.(gaps := CloseGapAt(WithJump(s, e), e.ledger), events := s.events[Key(e.ledger, e.index) := e]);
    MaterializeKeeps(s1, e);
  }

  /** What happens to a verified event once the hash check has let it through. */
  ghost function Accept(s: Store, e: Event, allowGaps: bool): (Store, Outcome) {
    if Key(e.ledger, e.index) in s.events then (s, Replayed)
    else if s.cursor.Some? && e.ledger > s.cursor.value + 1 && !allowGaps then
      (s.(gaps := s.gaps + {(s.cursor.value + 1, e.ledger - 1)}), Gap(s.cursor.value + 1, e.ledger - 1))
    else Write(s, e)
  }

  /** `_ingest_one`. */
  ghost function IngestOne(s: Store, policy: Policy, row: Raw, index: int, allowGaps: bool): (Store, Outcome) {
    match VerifyEvent(row, policy, s.contractId, CloseTimeFor(s.events, row), index)
    case Refused(code) => (s.(rejected := s.rejected + {Rejection(row, index, code)}), Rejected(code))
    case Verified(e) =>
      var s1 := Pin(s, e);
      if ForkInBatch(s1, e) then
        (s1.(rejected := s1.rejected + {(e.ledger, e.index, LedgerHashInconsistent)}), Rejected(LedgerHashInconsistent))
      else Accept(AfterHashCheck(s1, e), e, allowGaps)
  }

  /** The arrival-order number `ingest` gives a row without an explicit index. */
  function Numbered(counters: map<Option<int>, int>, row: Raw): int {
    match row.Index()
    case Absent => if row.Ledger() in counters then counters[row.Ledger()] else 0
    case Val(i) => i
    case Ill => 0
  }

  function Bump(counters: map<Option<int>, int>, row: Raw): map<Option<int>, int> {
    var next := match row.Index() case Ill => 1 case _ => Numbered(counters, row) + 1;
    counters[row.Ledger() := next]
  }

  /** The row loop of `ingest`: stops at the first row that raises. The count is of new events. */
  ghost function IngestRows(s: Store, policy: Policy, rows: seq<Raw>, counters: map<Option<int>, int>, allowGaps: bool)
    : (r: (Store, nat, Outcome))
    decreases |rows|
  {
    if rows == [] then (s, 0, Done) else
    var (s1, o) := IngestOne(s, policy, rows[0], Numbered(counters, rows[0]), allowGaps);
    if o.Added? || o.Replayed? then
      var (s2, n, o2) := IngestRows(s1, policy, rows[1..], Bump(counters, rows[0]), allowGaps);
      (s2, n + (if o.Added? then 1 else 0), o2)
    else (s1, 0, o)
  }

  /** `ingest`: one batch. */
  ghost function Ingest(s: Store, policy: Policy, rows: seq<Raw>, allowGaps: bool): (Store, nat, Outcome) {
    IngestRows(s.(batchHash := None), policy, rows, map[], allowGaps)
  }

  /** `trusted_ledger`. */
  ghost function Trusted(s: Store): Option<int> {
    if s.gaps == {} then MaxLedger(s.events) else Some(LeastStart(s.gaps) - 1)
  }

  ghost function LeastStart(gaps: set<(int, int)>): (m: int)
    requires gaps != {}
    ensures (exists g :: g in gaps && g.0 == m) && forall g | g in gaps :: m <= g.0
  {
    var g :| g in gaps;
    if gaps == {g} then g.0 else
    var m := LeastStart(gaps - {g});
    assert forall h | h in gaps :: h == g || h in gaps - {g};
    if g.0 <= m then g.0 else m
  }
}
