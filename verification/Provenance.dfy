/** Asset metadata revisions: the per-asset hash chain, its verification and
    point-in-time lookup. The commitment hash is an arbitrary function `h` of the
    committed fields; nothing below assumes it is injective. */
module Provenance {
  import opened Options

  datatype Config = Config(decimals: int, ticker: string, assetType: string, sources: seq<string>, weightsBps: seq<int>,
                           stalenessSeconds: int, deviationBps: int)

  datatype Problem = BadDecimals | BadTicker | NoSources | WeightsLength | WeightsSum | BadStaleness | BadDeviation
                   | LedgerNotLater | TimestampEarlier

  datatype Result<T> = Success(value: T) | Failure(problem: Problem)

  /** Everything a revision commits to; the domain separator is a constant of every commitment. */
  datatype Content = Content(assetId: string, revisionNumber: int, config: Config, priorConfig: Option<Config>,
                             ledger: int, timestamp: int, proposer: string, reviewer: string,
                             evidenceUrl: string, rationale: string, previousHash: string)

  datatype Revision = Revision(content: Content, hash: string)

  datatype Proposal = Proposal(config: Config, ledger: int, timestamp: int, proposer: string, reviewer: string,
                               evidenceUrl: string, rationale: string)

  /** What the first revision links to. */
  function Genesis(): string { "0000000000000000000000000000000000000000000000000000000000000000" }

  type Hash = Content -> string

  function Total(weights: seq<int>): int {
    if weights == [] then 0 else weights[0] + Total(weights[1..])
  }

  function Validate(c: Config): Option<Problem> {
    if c.decimals < 0 || c.decimals > 18 then Some(BadDecimals)
    else if c.ticker == "" || |c.ticker| > 12 then Some(BadTicker)
    else if c.sources == [] then Some(NoSources)
    else if |c.sources| != |c.weightsBps| then Some(WeightsLength)
    else if Total(c.weightsBps) != 10_000 then Some(WeightsSum)
    else if c.stalenessSeconds <= 0 then Some(BadStaleness)
    else if c.deviationBps <= 0 then Some(BadDeviation)
    else None
  }

  /** The weights add up one by one. */
  lemma {:induction false} TotalAdds(weights: seq<int>, w: int)
    ensures Total([]) == 0 && Total(weights + [w]) == Total(weights) + w
  {
    if weights == [] {
      assert Total([w]) == w + Total([w][1..]);
    } else {
      assert (weights + [w])[1..] == weights[1..] + [w];
      TotalAdds(weights[1..], w);
    }
  }

  /** Each thing a configuration is asked, with the problem it is when it fails, in the order of asking. */
  predicate Asked(c: Config, problem: Problem) {
    match problem
    case BadDecimals => 0 <= c.decimals <= 18
    case BadTicker => 1 <= |c.ticker| <= 12
    case NoSources => |c.sources| > 0
    case WeightsLength => |c.weightsBps| == |c.sources|
    case WeightsSum => Total(c.weightsBps) == 10_000
    case BadStaleness => c.stalenessSeconds > 0
    case BadDeviation => c.deviationBps > 0
    case LedgerNotLater => true
    case TimestampEarlier => true
  }

  const ASKED := [BadDecimals, BadTicker, NoSources, WeightsLength, WeightsSum, BadStaleness, BadDeviation]

  /** A configuration is refused for the first question it fails, and only for one. */
  lemma ValidateTells(c: Config)
    ensures Validate(c) == None <==> SoundConfig(c)
    ensures forall problem :: Validate(c) == Some(problem) <==>
              exists k :: 0 <= k < |ASKED| && ASKED[k] == problem && !Asked(c, problem) && forall j | 0 <= j < k :: Asked(c, ASKED[j])
  {
    assert |ASKED| == 7;
    var k := if !Asked(c, ASKED[0]) then 0 else if !Asked(c, ASKED[1]) then 1 else if !Asked(c, ASKED[2]) then 2
      else if !Asked(c, ASKED[3]) then 3 else if !Asked(c, ASKED[4]) then 4 else if !Asked(c, ASKED[5]) then 5 else if !Asked(c, ASKED[6]) then 6 else 7;
    assert forall j | 0 <= j < k :: Asked(c, ASKED[j]);
    assert k == 7 <==> SoundConfig(c);
    assert Validate(c) == if k == 7 then None else Some(ASKED[k]);
  }

  ghost predicate SoundConfig(c: Config) {
    forall k | 0 <= k < |ASKED| :: Asked(c, ASKED[k])
  }

  // -- committing -----------------------------------------------------------

  function Next(asset: string, chain: seq<Revision>, p: Proposal, h: Hash): Revision {
    var genesis := chain == [];
    var content := Content(asset,
                           if genesis then 1 else chain[|chain| - 1].content.revisionNumber + 1,
                           p.config,
                           if genesis then None else Some(chain[|chain| - 1].content.config),
                           p.ledger, p.timestamp, p.proposer, p.reviewer, p.evidenceUrl, p.rationale,
                           if genesis then Genesis() else chain[|chain| - 1].hash);
    Revision(content, h(content))
  }

  function Refusal(chain: seq<Revision>, p: Proposal): Option<Problem> {
    if Validate(p.config).Some? then Validate(p.config)
    else if chain != [] && p.ledger <= chain[|chain| - 1].content.ledger then Some(LedgerNotLater)
    else if chain != [] && p.timestamp < chain[|chain| - 1].content.timestamp then Some(TimestampEarlier)
    else None
  }

  /** A proposal is refused for its configuration first, then for its ledger, then for its timestamp. */
  lemma RefusalTells(chain: seq<Revision>, p: Proposal)
    ensures var r := Refusal(chain, p);
            var later := chain == [] || p.ledger > chain[|chain| - 1].content.ledger;
            var inTime := chain == [] || p.timestamp >= chain[|chain| - 1].content.timestamp;
            && (!SoundConfig(p.config) <==> r.Some? && r.value in ASKED)
            && (!SoundConfig(p.config) ==> r == Validate(p.config))
            && (SoundConfig(p.config) && !later <==> r == Some(LedgerNotLater))
            && (SoundConfig(p.config) && later && !inTime <==> r == Some(TimestampEarlier))
  {
    hide Validate, SoundConfig;
    ValidateTells(p.config);
    assert forall k | 0 <= k < |ASKED| :: ASKED[k] !in [LedgerNotLater, TimestampEarlier];
  }

  /** The chain after a list of proposals, the refused ones leaving no trace. */
  function Committed(asset: string, proposals: seq<Proposal>, h: Hash): seq<Revision> {
    if proposals == [] then [] else
    var chain, p := Committed(asset, proposals[..|proposals| - 1], h), proposals[|proposals| - 1];
    if Refusal(chain, p).Some? then chain else chain + [Next(asset, chain, p, h)]
  }

  // -- verification ---------------------------------------------------------

  datatype Issue = PreviousMismatch(at: nat) | CommitmentMismatch(at: nat) | Discontinuity(at: nat)

  function Expected(chain: seq<Revision>, i: nat): string
    requires i <= |chain|
  {
    if i == 0 then Genesis() else chain[i - 1].hash
  }

  function IssuesAt(chain: seq<Revision>, i: nat, h: Hash): seq<Issue>
    requires i < |chain|
  {
    var r := chain[i];
    (if r.content.previousHash != Expected(chain, i) then [PreviousMismatch(i)] else [])
    + (if h(r.content) != r.hash then [CommitmentMismatch(i)] else [])
    + (if r.content.revisionNumber != i + 1 then [Discontinuity(i)] else [])
  }

  function Issues(chain: seq<Revision>, n: nat, h: Hash): seq<Issue>
    requires n <= |chain|
  {
    if n == 0 then [] else Issues(chain, n - 1, h) + IssuesAt(chain, n - 1, h)
  }

  /** What verification checks of one revision. */
  ghost predicate Linked(chain: seq<Revision>, i: nat, h: Hash)
    requires i < |chain|
  {
    && chain[i].content.previousHash == Expected(chain, i)
    && h(chain[i].content) == chain[i].hash
    && chain[i].content.revisionNumber == i + 1
  }

  ghost predicate Verifies(chain: seq<Revision>, h: Hash) {
    forall i: nat | i < |chain| :: Linked(chain, i, h)
  }

  lemma {:induction false} NoIssuesExactly(chain: seq<Revision>, n: nat, h: Hash)
    requires n <= |chain|
    ensures Issues(chain, n, h) == [] <==> forall i: nat | i < n :: Linked(chain, i, h)
  {
    if n > 0 {
      NoIssuesExactly(chain, n - 1, h);
      NoIssuesAt(chain, n - 1, h);
      hide IssuesAt, Linked;
    }
  }

  lemma NoIssuesAt(chain: seq<Revision>, i: nat, h: Hash)
    requires i < |chain|
    ensures IssuesAt(chain, i, h) == [] <==> Linked(chain, i, h)
  {}

  lemma {:induction false} IssueComes(chain: seq<Revision>, n: nat, h: Hash, issue: Issue)
    requires n <= |chain|
    ensures issue in Issues(chain, n, h) <==> exists i: nat :: i < n && issue in IssuesAt(chain, i, h)
  {
    hide IssuesAt;
    if n > 0 {
      IssueComes(chain, n - 1, h, issue);
    }
  }

  /** Each revision is reported for what is wrong with it, and for nothing else. */
  lemma IssuesTell(chain: seq<Revision>, n: nat, h: Hash, j: nat)
    requires n <= |chain|
    ensures PreviousMismatch(j) in Issues(chain, n, h) <==>
            j < n && chain[j].content.previousHash != (if j == 0 then Genesis() else chain[j - 1].hash)
    ensures CommitmentMismatch(j) in Issues(chain, n, h) <==> j < n && chain[j].hash != h(chain[j].content)
    ensures Discontinuity(j) in Issues(chain, n, h) <==> j < n && chain[j].content.revisionNumber != j + 1
  {
    hide Issues, IssuesAt, Genesis;
    IssueComes(chain, n, h, PreviousMismatch(j));
    IssueComes(chain, n, h, CommitmentMismatch(j));
    IssueComes(chain, n, h, Discontinuity(j));
    forall i: nat | i < n && i != j
      ensures PreviousMismatch(j) !in IssuesAt(chain, i, h) && CommitmentMismatch(j) !in IssuesAt(chain, i, h)
              && Discontinuity(j) !in IssuesAt(chain, i, h)
    {
      IssuesAtTell(chain, i, h, j);
    }
    if j < n {
      IssuesAtTell(chain, j, h, j);
    }
  }

  lemma IssuesAtTell(chain: seq<Revision>, i: nat, h: Hash, j: nat)
    requires i < |chain|
    ensures PreviousMismatch(j) in IssuesAt(chain, i, h) <==>
            j == i && chain[i].content.previousHash != (if i == 0 then Genesis() else chain[i - 1].hash)
    ensures CommitmentMismatch(j) in IssuesAt(chain, i, h) <==> j == i && chain[i].hash != h(chain[i].content)
    ensures Discontinuity(j) in IssuesAt(chain, i, h) <==> j == i && chain[i].content.revisionNumber != i + 1
  {}

  // -- tamper evidence ------------------------------------------------------

  /** Two different contents with one commitment. */
  ghost predicate Collision(a: Content, b: Content, h: Hash) { a != b && h(a) == h(b) }

  /** Two chains that verify and end in the same hash are the same chain, unless
      they exhibit a collision. Their lengths need not be known to agree: the
      revision number is part of the commitment. */
  lemma {:induction false} TamperEvident(a: seq<Revision>, b: seq<Revision>, h: Hash) returns (i: nat, j: nat)
    requires Verifies(a, h) && Verifies(b, h)
    requires a != [] && b != [] && a[|a| - 1].hash == b[|b| - 1].hash
    ensures a == b || (i < |a| && j < |b| && Collision(a[i].content, b[j].content, h))
    decreases |a|
  {
    var m, n := |a| - 1, |b| - 1;
    i, j := m, n;
    assert Linked(a, m, h) && Linked(b, n, h);
    if a[m].content == b[n].content {
      assert m == n && a[m] == b[n];
      assert a == a[..m] + [a[m]] && b == b[..n] + [b[n]];
      if m > 0 {
        PrefixVerifies(a, m, h);
        PrefixVerifies(b, n, h);
        i, j := TamperEvident(a[..m], b[..n], h);
      }
    }
  }

  /** Cutting revisions off the end is not noticed by verification alone; it changes the head hash. */
  lemma PrefixVerifies(chain: seq<Revision>, n: nat, h: Hash)
    requires Verifies(chain, h) && n <= |chain|
    ensures Verifies(chain[..n], h)
  {
    forall i: nat | i < n ensures Linked(chain[..n], i, h) {
      assert Linked(chain, i, h);
    }
  }

  /** Any edit of a verifying chain that keeps its head hash is reported, or exhibits a collision. */
  lemma {:induction false} EditsAreCaught(chain: seq<Revision>, edited: seq<Revision>, h: Hash) returns (i: nat, j: nat)
    requires Verifies(chain, h) && chain != [] && edited != []
    requires edited != chain && edited[|edited| - 1].hash == chain[|chain| - 1].hash
    ensures Issues(edited, |edited|, h) != []
            || (i < |chain| && j < |edited| && Collision(chain[i].content, edited[j].content, h))
  {
    i, j := 0, 0;
    NoIssuesExactly(edited, |edited|, h);
    if Issues(edited, |edited|, h) == [] {
      i, j := TamperEvident(chain, edited, h);
    }
  }

  // -- what commits keep, and verification does not see ---------------------

  /** What `propose_and_commit_revision` enforces beyond the hash chain. */
  ghost predicate Governed(asset: string, chain: seq<Revision>) {
    forall i: nat | i < |chain| :: GovernedAt(asset, chain, i)
  }

  ghost predicate GovernedAt(asset: string, chain: seq<Revision>, i: nat)
    requires i < |chain|
  {
    var c := chain[i].content;
    && c.assetId == asset
    && SoundConfig(c.config)
    && c.priorConfig == (if i == 0 then None else Some(chain[i - 1].content.config))
    && (i > 0 ==> c.ledger > chain[i - 1].content.ledger && c.timestamp >= chain[i - 1].content.timestamp)
  }

  function ProposalOf(r: Revision): Proposal {
    Proposal(r.content.config, r.content.ledger, r.content.timestamp, r.content.proposer, r.content.reviewer,
             r.content.evidenceUrl, r.content.rationale)
  }

  function ProposalsOf(chain: seq<Revision>): seq<Proposal> {
    seq(|chain|, i requires 0 <= i < |chain| => ProposalOf(chain[i]))
  }

  lemma {:induction false} CommitsVerify(asset: string, proposals: seq<Proposal>, h: Hash)
    ensures Verifies(Committed(asset, proposals, h), h) && Governed(asset, Committed(asset, proposals, h))
  {
    if proposals != [] {
      var p := proposals[|proposals| - 1];
      var chain := Committed(asset, proposals[..|proposals| - 1], h);
      CommitsVerify(asset, proposals[..|proposals| - 1], h);
      if Refusal(chain, p).None? {
        CommitKeeps(asset, chain, p, h);
      }
    }
  }

  lemma CommitKeeps(asset: string, chain: seq<Revision>, p: Proposal, h: Hash)
    requires Verifies(chain, h) && Governed(asset, chain) && Refusal(chain, p).None?
    ensures Verifies(chain + [Next(asset, chain, p, h)], h) && Governed(asset, chain + [Next(asset, chain, p, h)])
  {
    var n, more := |chain|, chain + [Next(asset, chain, p, h)];
    if n > 0 {
      assert Linked(chain, n - 1, h);
    }
    forall i: nat | i < |more| ensures Linked(more, i, h) && GovernedAt(asset, more, i) {
      if i < n {
        assert Linked(chain, i, h) && GovernedAt(asset, chain, i);
      }
    }
  }

  /** A chain is one that commits can produce if and only if it verifies and is
      governed: verification alone does not establish whose chain it is, that it
      moves forward in ledgers or time, or that prior configurations are the real ones. */
  lemma {:induction false} CommittableExactly(asset: string, chain: seq<Revision>, h: Hash)
    ensures Committed(asset, ProposalsOf(chain), h) == chain <==> Verifies(chain, h) && Governed(asset, chain)
  {
    if Committed(asset, ProposalsOf(chain), h) == chain {
      CommitsVerify(asset, ProposalsOf(chain), h);
    }
    if Verifies(chain, h) && Governed(asset, chain) {
      Recommit(asset, chain, h);
    }
  }

  lemma PrefixIsGoverned(asset: string, chain: seq<Revision>, n: nat)
    requires Governed(asset, chain) && n <= |chain|
    ensures Governed(asset, chain[..n])
  {
    forall i: nat | i < n ensures GovernedAt(asset, chain[..n], i) {
      assert GovernedAt(asset, chain, i);
    }
  }

  lemma {:induction false} Recommit(asset: string, chain: seq<Revision>, h: Hash)
    requires Verifies(chain, h) && Governed(asset, chain)
    ensures Committed(asset, ProposalsOf(chain), h) == chain
  {
    if chain != [] {
      hide Validate, Next, Refusal, ProposalOf, Governed, Verifies;
      var n := |chain| - 1;
      var less := chain[..n];
      PrefixVerifies(chain, n, h);
      PrefixIsGoverned(asset, chain, n);
      Recommit(asset, less, h);
      assert ProposalsOf(chain)[..n] == ProposalsOf(less);
      LastRecommits(asset, chain, h);
      assert chain == less + [chain[n]];
    }
  }

  lemma LastRecommits(asset: string, chain: seq<Revision>, h: Hash)
    requires Verifies(chain, h) && Governed(asset, chain) && chain != []
    ensures var n := |chain| - 1;
            && Refusal(chain[..n], ProposalOf(chain[n])).None?
            && Next(asset, chain[..n], ProposalOf(chain[n]), h) == chain[n]
  {
    hide Validate, SoundConfig;
    var n := |chain| - 1;
    ValidateTells(chain[n].content.config);
    assert Linked(chain, n, h) && GovernedAt(asset, chain, n);
    if n > 0 {
      assert Linked(chain, n - 1, h);
    }
  }

  /** A verifying chain that no asset's commits can have produced: its ledgers run backwards. */
  lemma VerifiesWithoutGovernance(config: Config, h: Hash) returns (chain: seq<Revision>)
    ensures Verifies(chain, h) && forall asset :: !Governed(asset, chain)
  {
    var first := Content("XLM", 1, config, None, 2, 0, "", "", "", "", Genesis());
    var second := Content("XLM", 2, config, None, 1, 0, "", "", "", "", h(first));
    chain := [Revision(first, h(first)), Revision(second, h(second))];
    forall asset ensures !Governed(asset, chain) {
      assert !GovernedAt(asset, chain, 1);
    }
  }

  // -- point-in-time lookup -------------------------------------------------

  datatype Clock = Ledger | Timestamp

  function Effective(r: Revision, clock: Clock): int {
    if clock.Ledger? then r.content.ledger else r.content.timestamp
  }

  /** How many revisions the early-exit scan accepts before it stops. */
  function Scanned(chain: seq<Revision>, at: int, clock: Clock): (n: nat)
    ensures n <= |chain|
  {
    if chain == [] || Effective(chain[0], clock) > at then 0 else 1 + Scanned(chain[1..], at, clock)
  }

  /** One past the last revision effective at the query, wherever it stands. */
  function LastEffective(chain: seq<Revision>, at: int, clock: Clock): (n: nat)
    ensures n <= |chain|
  {
    if chain == [] then 0
    else if Effective(chain[|chain| - 1], clock) <= at then |chain|
    else LastEffective(chain[..|chain| - 1], at, clock)
  }

  ghost predicate Ascending(chain: seq<Revision>, clock: Clock) {
    forall i, j | 0 <= i < j < |chain| :: Effective(chain[i], clock) <= Effective(chain[j], clock)
  }

  lemma {:induction false} ScannedStops(chain: seq<Revision>, at: int, clock: Clock)
    ensures forall i | 0 <= i < Scanned(chain, at, clock) :: Effective(chain[i], clock) <= at
    ensures Scanned(chain, at, clock) < |chain| ==> Effective(chain[Scanned(chain, at, clock)], clock) > at
  {
    if chain != [] && Effective(chain[0], clock) <= at {
      ScannedStops(chain[1..], at, clock);
    }
  }

  lemma {:induction false} LastEffectiveIsLast(chain: seq<Revision>, at: int, clock: Clock)
    ensures var n := LastEffective(chain, at, clock);
            && (n > 0 ==> Effective(chain[n - 1], clock) <= at)
            && forall i | n <= i < |chain| :: Effective(chain[i], clock) > at
  {
    if chain != [] {
      LastEffectiveIsLast(chain[..|chain| - 1], at, clock);
    }
  }

  /** The early exit finds the last effective revision for every query if and only if
      the chain ascends in the clock being asked. */
  lemma EarlyExitExactly(chain: seq<Revision>, clock: Clock)
    ensures Ascending(chain, clock) <==> forall at :: Scanned(chain, at, clock) == LastEffective(chain, at, clock)
  {
    if Ascending(chain, clock) {
      forall at ensures Scanned(chain, at, clock) == LastEffective(chain, at, clock) {
        var n, m := Scanned(chain, at, clock), LastEffective(chain, at, clock);
        assert n + 1 < m ==> Effective(chain[n], clock) <= Effective(chain[m - 1], clock);
        ScannedStops(chain, at, clock);
        LastEffectiveIsLast(chain, at, clock);
        assert n > 0 ==> Effective(chain[n - 1], clock) <= at;
      }
    } else {
      var i, j :| 0 <= i < j < |chain| && Effective(chain[i], clock) > Effective(chain[j], clock);
      var at := Effective(chain[j], clock);
      ScannedStops(chain, at, clock);
      LastEffectiveIsLast(chain, at, clock);
      assert Scanned(chain, at, clock) != LastEffective(chain, at, clock);
    }
  }

  lemma {:induction false} GovernedAscends(asset: string, chain: seq<Revision>, clock: Clock)
    requires Governed(asset, chain)
    ensures Ascending(chain, clock)
  {
    if chain != [] {
      var n := |chain| - 1;
      PrefixIsGoverned(asset, chain, n);
      GovernedAscends(asset, chain[..n], clock);
      assert GovernedAt(asset, chain, n);
      forall i, j | 0 <= i < j < |chain| ensures Effective(chain[i], clock) <= Effective(chain[j], clock) {
        if j == n && i < n - 1 {
          assert Effective(chain[..n][i], clock) <= Effective(chain[..n][n - 1], clock);
        } else if j < n {
          assert Effective(chain[..n][i], clock) <= Effective(chain[..n][j], clock);
        }
      }
    }
  }

  /** The revision takes effect after the ledger, or the timestamp, asked about. */
  predicate After(r: Revision, at: int, clock: Clock) {
    match clock
    case Ledger => r.content.ledger > at
    case Timestamp => r.content.timestamp > at
  }

  /** On a governed chain the scan stops right after the last revision effective at the query. */
  lemma LookupIsLast(asset: string, chain: seq<Revision>, at: int, clock: Clock)
    ensures var n := Scanned(chain, at, clock);
            Governed(asset, chain) ==> (n > 0 ==> !After(chain[n - 1], at, clock))
                                       && forall i | n <= i < |chain| :: After(chain[i], at, clock)
  {
    if Governed(asset, chain) {
      GovernedAscends(asset, chain, clock);
      EarlyExitExactly(chain, clock);
      LastEffectiveIsLast(chain, at, clock);
    }
  }

  /** The tracker: one chain per asset. */
  class AssetMetadataProvenanceTracker {
    var chains: map<string, seq<Revision>>
    const h: Hash

    constructor (h: Hash)
      ensures chains == map[] && this.h == h
    {
      this.h := h;
      chains := map[];
    }

    function Chain(asset: string): seq<Revision>
      reads this
    {
      if asset in chains then chains[asset] else []
    }

    /** Every chain is one that commits of its own asset produce. */
    ghost predicate Valid()
      reads this
    {
      forall asset :: Verifies(Chain(asset), h) && Governed(asset, Chain(asset))
    }

    method ProposeAndCommitRevision(asset: string, p: Proposal) returns (r: Result<Revision>)
      requires Valid()
      modifies this
      ensures Valid()
      ensures forall other | other != asset :: Chain(other) == old(Chain(other))
      ensures match Refusal(old(Chain(asset)), p)
              case Some(problem) => r == Failure(problem) && Chain(asset) == old(Chain(asset))
              case None => r == Success(Next(asset, old(Chain(asset)), p, h)) && Chain(asset) == old(Chain(asset)) + [r.value]
    {
      ghost var before := Chain(asset);
      assert Verifies(before, h) && Governed(asset, before);
      var invalid := Validate(p.config);
      if invalid.Some? { return Failure(invalid.value); }
      if asset !in chains {
        chains := chains[asset := []];
      }
      var chain := chains[asset];
      var number, previous, prior := 1, Genesis(), None;
      if chain != [] {
        var latest := chain[|chain| - 1];
        if p.ledger <= latest.content.ledger { return Failure(LedgerNotLater); }
        if p.timestamp < latest.content.timestamp { return Failure(TimestampEarlier); }
        number, previous, prior := latest.content.revisionNumber + 1, latest.hash, Some(latest.content.config);
      }
      var content := Content(asset, number, p.config, prior, p.ledger, p.timestamp, p.proposer, p.reviewer,
                             p.evidenceUrl, p.rationale, previous);
      var revision := Revision(content, h(content));
      CommitKeeps(asset, chain, p, h);
      chains := chains[asset := chain + [revision]];
      assert forall other | other != asset :: Chain(other) == old(Chain(other));
      return Success(revision);
    }

    method VerifyProvenanceChain(asset: string) returns (valid: bool, errors: seq<Issue>)
      ensures errors == Issues(Chain(asset), |Chain(asset)|, h)
      ensures valid <==> Verifies(Chain(asset), h)
    {
      var chain := Chain(asset);
      errors := [];
      var expected := Genesis();
      for i := 0 to |chain|
        invariant errors == Issues(chain, i, h)
        invariant expected == Expected(chain, i)
      {
        var r := chain[i];
        var found := [];
        if r.content.previousHash != expected {
          found := found + [PreviousMismatch(i)];
        }
        if h(r.content) != r.hash {
          found := found + [CommitmentMismatch(i)];
        }
        if r.content.revisionNumber != i + 1 {
          found := found + [Discontinuity(i)];
        }
        errors := errors + found;
        expected := r.hash;
      }
      NoIssuesExactly(chain, |chain|, h);
      valid := errors == [];
    }

    /** The configuration in force at a ledger or timestamp: the last one effective by then. */
    method GetMetadataAt(asset: string, at: int, clock: Clock) returns (active: Option<Config>)
      ensures var n := Scanned(Chain(asset), at, clock);
              active == if n == 0 then None else Some(Chain(asset)[n - 1].content.config)
      ensures Valid() ==> (active.None? <==> forall i | 0 <= i < |Chain(asset)| :: After(Chain(asset)[i], at, clock))
      ensures Valid() && active.Some? ==> exists n | 0 <= n < |Chain(asset)| ::
                && active.value == Chain(asset)[n].content.config
                && !After(Chain(asset)[n], at, clock)
                && forall i | n < i < |Chain(asset)| :: After(Chain(asset)[i], at, clock)
    {
      hide Committed, Governed, Verifies, Effective, After;
      var chain := Chain(asset);
      active := None;
      var i := 0;
      while i < |chain|
        invariant 0 <= i <= |chain|
        invariant Scanned(chain, at, clock) == i + Scanned(chain[i..], at, clock)
        invariant active == if i == 0 then None else Some(chain[i - 1].content.config)
      {
        if Effective(chain[i], clock) <= at {
          active := Some(chain[i].content.config);
        } else {
          break;
        }
        assert chain[i..][1..] == chain[i + 1..];
        i := i + 1;
      }
      LookupIsLast(asset, chain, at, clock);
      assert Valid() ==> Governed(asset, Chain(asset));
    }
  }
}
