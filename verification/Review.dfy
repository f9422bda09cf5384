/** Verification of an approval record against the payload document it is to release. */
module Reviews {
  import opened Options
  import opened Authenticity
  import opened Sorting
  import opened Strings
  import opened Payloads
  import opened Documents
  import opened Canonicals
  import opened Renders

  const APPROVAL_SCHEMA := "oracle.tx_review.approval.v1"
  const GUARDED := ["production", "mainnet"]
  const ENVIRONMENTS := ["production", "mainnet", "staging", "testnet", "development"]
  const APPROVAL_FIELDS := ["schema", "payload_sha256", "rendered_summary", "requested_by", "reviewed_by",
                            "reviewed_at", "expires_at", "simulation", "notes"]
  const SIMULATION_FIELDS := ["payload_sha256", "network", "success", "fee_stroops"]

  datatype ReviewCode =
    | MalformedApproval | UnsupportedSchema | ApprovalUnknownField | PayloadMismatch | SummaryMismatch
    | SimulationMissing | SimulationMismatch | SimulationFailed | FeeAboveCap | InsufficientReviewers | SelfReview
    | ApprovalExpired | ApprovalNotYetValid | ReviewWindowTooLong

  datatype ReviewPolicy = ReviewPolicy(environment: string, requiredReviewers: int, maxWindowSecs: int, maxFee: int)
  {
    /** What constructing a policy refuses to go below. */
    predicate Valid() {
      && environment in ENVIRONMENTS
      && requiredReviewers >= (if environment in GUARDED then 2 else 1)
      && maxWindowSecs > 0 && maxFee >= 0
    }
  }

  /** Code outside the guard: integer parsing, the hash of the canonical JSON text, and the
      timestamp parser (instants in seconds). */
  datatype Outside = Outside(parse: Parser, hash: Json -> string, instant: string -> Option<real>)

  datatype Decision =
    | Approved(payload: Payload, digest: string, reviewers: seq<string>, reviewedAt: real, expiresAt: real, environment: string)
    | Rejected(code: ReviewCode)
    | NotReviewable(reason: PayloadCode)

  function Lower(s: string): string {
    seq(|s|, i requires 0 <= i < |s| => if 'A' <= s[i] <= 'Z' then s[i] - 'A' + 'a' else s[i])
  }

  function LStrip(s: string, drop: string): string {
    if s != "" && s[0] in drop then LStrip(s[1..], drop) else s
  }

  function RStrip(s: string, drop: string): string {
    if s != "" && s[|s| - 1] in drop then RStrip(s[..|s| - 1], drop) else s
  }

  function Strip(s: string): string { RStrip(LStrip(s, " \t\n\r"), " \t\n\r") }

  function ToSet<T(==)>(s: seq<T>): set<T> {
    if s == [] then {} else ToSet(s[..|s| - 1]) + {s[|s| - 1]}
  }

  function Stripped(names: seq<Json>): seq<string>
    requires forall i | 0 <= i < |names| :: names[i].Str?
  {
    seq(|names|, i requires 0 <= i < |names| => Strip(names[i].s))
  }

  // -- the checks, in order -------------------------------------------------

  function CheckRecord(f: seq<Member>): Option<ReviewCode> {
    if Get(f, "schema", Null) != Str(APPROVAL_SCHEMA) then Some(UnsupportedSchema)
    else if !OnlyKeys(f, APPROVAL_FIELDS) then Some(ApprovalUnknownField)
    else None
  }

  function CheckBinding(f: seq<Member>, digest: string, text: string): Option<ReviewCode> {
    var stored, summary := Get(f, "payload_sha256", Null), Get(f, "rendered_summary", Null);
    if !stored.Str? || stored.s == "" then Some(MalformedApproval)
    else if Lower(stored.s) != digest then Some(PayloadMismatch)
    else if !summary.Str? || Blank(summary.s) then Some(MalformedApproval)
    else if RStrip(summary.s, "\n") != text then Some(SummaryMismatch)
    else None
  }

  function CheckSimulation(f: seq<Member>, p: Payload, digest: string, policy: ReviewPolicy): Option<ReviewCode> {
    var sim := Get(f, "simulation", Null);
    if !sim.Obj? then Some(SimulationMissing)
    else if !OnlyKeys(sim.fields, SIMULATION_FIELDS) then Some(ApprovalUnknownField)
    else
      var stored, fee := Get(sim.fields, "payload_sha256", Null), Get(sim.fields, "fee_stroops", Null);
      if !stored.Str? || Lower(stored.s) != digest then Some(SimulationMismatch)
      else if Get(sim.fields, "network", Null) != Str(p.network) then Some(SimulationMismatch)
      else if Get(sim.fields, "success", Null) != Bool(true) then Some(SimulationFailed)
      else if !fee.Int? || fee.i < 0 then Some(MalformedApproval)
      else if fee.i > policy.maxFee || p.fee > policy.maxFee then Some(FeeAboveCap)
      else None
  }

  function CheckReviewers(f: seq<Member>, policy: ReviewPolicy): Option<ReviewCode> {
    var requester, reviewers := Get(f, "requested_by", Null), Get(f, "reviewed_by", Null);
    if !requester.Str? || Blank(requester.s) then Some(MalformedApproval)
    else if !reviewers.Arr? || exists i | 0 <= i < |reviewers.items| :: !reviewers.items[i].Str? || Blank(reviewers.items[i].s)
      then Some(MalformedApproval)
    else
      var distinct := ToSet(Stripped(reviewers.items));
      if |distinct| != |reviewers.items| then Some(InsufficientReviewers)
      else if Strip(requester.s) in distinct then Some(SelfReview)
      else if |distinct| < policy.requiredReviewers then Some(InsufficientReviewers)
      else None
  }

  function TimeAt(f: seq<Member>, key: string, outside: Outside): Option<real> {
    var j := Get(f, key, Null);
    if !j.Str? || Blank(j.s) then None else outside.instant(j.s)
  }

  function CheckTimes(f: seq<Member>, policy: ReviewPolicy, now: real, outside: Outside): Option<ReviewCode> {
    var reviewed, expires := TimeAt(f, "reviewed_at", outside), TimeAt(f, "expires_at", outside);
    if reviewed.None? || expires.None? then Some(MalformedApproval)
    else if expires.value <= reviewed.value then Some(ReviewWindowTooLong)
    else if expires.value - reviewed.value > policy.maxWindowSecs as real then Some(ReviewWindowTooLong)
    else if now < reviewed.value then Some(ApprovalNotYetValid)
    else if now > expires.value then Some(ApprovalExpired)
    else None
  }

  function FirstProblem(f: seq<Member>, p: Payload, policy: ReviewPolicy, now: real, outside: Outside): Option<ReviewCode> {
    var digest := outside.hash(Canonical(p));
    if CheckRecord(f).Some? then CheckRecord(f)
    else if CheckBinding(f, digest, Render(p)).Some? then CheckBinding(f, digest, Render(p))
    else if CheckSimulation(f, p, digest, policy).Some? then CheckSimulation(f, p, digest, policy)
    else if CheckReviewers(f, policy).Some? then CheckReviewers(f, policy)
    else CheckTimes(f, policy, now, outside)
  }

  function Names(f: seq<Member>): seq<string> {
    var reviewers := Get(f, "reviewed_by", Null);
    if reviewers.Arr? && forall i | 0 <= i < |reviewers.items| :: reviewers.items[i].Str? then Stripped(reviewers.items) else []
  }

  function VerifyApproval(doc: Json, approval: Json, policy: ReviewPolicy, now: real, outside: Outside): Decision {
    match Normalise(doc, outside.parse)
    case Fail(code) => NotReviewable(code)
    case Ok(p) =>
      if !approval.Obj? then Rejected(MalformedApproval) else
      match FirstProblem(approval.fields, p, policy, now, outside)
      case Some(code) => Rejected(code)
      case None => Approved(p, outside.hash(Canonical(p)), Sort(Names(approval.fields), StringLe),
                            TimeAt(approval.fields, "reviewed_at", outside).GetOr(0.0),
                            TimeAt(approval.fields, "expires_at", outside).GetOr(0.0), policy.environment)
  }

  // -- what an approval establishes -----------------------------------------

  lemma {:induction false} ToSetSize<T>(s: seq<T>)
    ensures |ToSet(s)| <= |s| && (|ToSet(s)| == |s| <==> Distinct(s))
    ensures forall x :: x in ToSet(s) <==> x in s
  {
    if s != [] {
      var n := |s| - 1;
      ToSetSize(s[..n]);
      assert s == s[..n] + [s[n]];
    }
  }

  /** Enough people other than the requester, all different, none anonymous. */
  ghost predicate Independent(f: seq<Member>, required: int) {
    var requester, reviewers := Get(f, "requested_by", Null), Get(f, "reviewed_by", Null);
    && requester.Str? && !Blank(requester.s) && reviewers.Arr?
    && (forall i | 0 <= i < |reviewers.items| :: reviewers.items[i].Str? && !Blank(reviewers.items[i].s))
    && (forall i, j | 0 <= i < j < |reviewers.items| :: Strip(reviewers.items[i].s) != Strip(reviewers.items[j].s))
    && (forall i | 0 <= i < |reviewers.items| :: Strip(reviewers.items[i].s) != Strip(requester.s))
    && |reviewers.items| >= required
  }

  lemma ReviewersExactly(f: seq<Member>, policy: ReviewPolicy)
    ensures CheckReviewers(f, policy).None? <==> Independent(f, policy.requiredReviewers)
  {
    hide Get, Blank, Strip, ToSet;
    var requester, reviewers := Get(f, "requested_by", Null), Get(f, "reviewed_by", Null);
    if requester.Str? && reviewers.Arr? && forall i | 0 <= i < |reviewers.items| :: reviewers.items[i].Str? && !Blank(reviewers.items[i].s) {
      var names := Stripped(reviewers.items);
      ToSetSize(names);
      assert forall i | 0 <= i < |names| :: names[i] == Strip(reviewers.items[i].s);
      assert Distinct(names) <==> forall i, j | 0 <= i < j < |reviewers.items| :: Strip(reviewers.items[i].s) != Strip(reviewers.items[j].s);
      assert Strip(requester.s) in names <==> exists i | 0 <= i < |reviewers.items| :: Strip(reviewers.items[i].s) == Strip(requester.s);
    }
  }

  /** An approval in force: reviewed by now, not expired, and valid for no longer than the cap. */
  ghost predicate InForce(f: seq<Member>, policy: ReviewPolicy, now: real, outside: Outside) {
    var reviewed, expires := TimeAt(f, "reviewed_at", outside), TimeAt(f, "expires_at", outside);
    && reviewed.Some? && expires.Some?
    && reviewed.value <= now <= expires.value
    && reviewed.value < expires.value <= reviewed.value + policy.maxWindowSecs as real
  }

  /** The simulation artifact is this payload's, on its network, succeeded, within the fee cap. */
  ghost predicate Simulated(f: seq<Member>, p: Payload, digest: string, policy: ReviewPolicy) {
    var sim := Get(f, "simulation", Null);
    && sim.Obj? && OnlyKeys(sim.fields, SIMULATION_FIELDS)
    && Get(sim.fields, "payload_sha256", Null).Str? && Lower(Get(sim.fields, "payload_sha256", Null).s) == digest
    && Get(sim.fields, "network", Null) == Str(p.network)
    && Get(sim.fields, "success", Null) == Bool(true)
    && Get(sim.fields, "fee_stroops", Null).Int? && 0 <= Get(sim.fields, "fee_stroops", Null).i <= policy.maxFee
    && p.fee <= policy.maxFee
  }

  lemma SimulationExactly(f: seq<Member>, p: Payload, digest: string, policy: ReviewPolicy)
    ensures CheckSimulation(f, p, digest, policy).None? <==> Simulated(f, p, digest, policy)
  {
    hide Get, Lower, OnlyKeys;
  }

  /** Released exactly when the record is well formed, bound to this payload by digest and by
      summary, simulated, independently reviewed and in force; the order of the checks only
      decides which refusal is reported. */
  lemma ApprovedExactly(doc: Json, approval: Json, policy: ReviewPolicy, now: real, outside: Outside)
    ensures VerifyApproval(doc, approval, policy, now, outside).Approved? <==>
            && Normalise(doc, outside.parse).Ok? && approval.Obj?
            && var p := Normalise(doc, outside.parse).value;
               var digest := outside.hash(Canonical(p));
               && CheckRecord(approval.fields).None?
               && CheckBinding(approval.fields, digest, Render(p)).None?
               && Simulated(approval.fields, p, digest, policy)
               && Independent(approval.fields, policy.requiredReviewers)
               && InForce(approval.fields, policy, now, outside)
  {
    hide Normalise, Canonical, CheckRecord, CheckBinding, CheckSimulation, CheckReviewers, Simulated, Independent, TimeAt;
    if Normalise(doc, outside.parse).Ok? && approval.Obj? {
      var p := Normalise(doc, outside.parse).value;
      SimulationExactly(approval.fields, p, outside.hash(Canonical(p)), policy);
      ReviewersExactly(approval.fields, policy);
    }
  }

  /** In a guarded environment two different people, neither of them the requester, stand behind every release. */
  lemma FourEyes(doc: Json, approval: Json, policy: ReviewPolicy, now: real, outside: Outside) returns (first: string, second: string)
    requires policy.Valid() && policy.environment in GUARDED
    requires VerifyApproval(doc, approval, policy, now, outside).Approved?
    ensures first in Names(approval.fields) && second in Names(approval.fields) && first != second
    ensures Get(approval.fields, "requested_by", Null).Str?
    ensures Strip(Get(approval.fields, "requested_by", Null).s) !in [first, second]
  {
    hide Normalise, Canonical, VerifyApproval, CheckRecord, CheckBinding, Simulated, InForce, Get, Strip, Blank;
    ApprovedExactly(doc, approval, policy, now, outside);
    var reviewers := Get(approval.fields, "reviewed_by", Null).items;
    first, second := Strip(reviewers[0].s), Strip(reviewers[1].s);
    var names := Names(approval.fields);
    assert names[0] == first && names[1] == second;
  }

  // -- one approval, one document -------------------------------------------

  /** Whatever an approval releases, now or later and under any policy, is alike to what it
      released before, or the two are a collision of the hash. */
  lemma OneApprovalOneDocument(a: Json, b: Json, approval: Json, policy: ReviewPolicy, now: real,
                               laterPolicy: ReviewPolicy, later: real, outside: Outside)
    requires Dicts(a) && Dicts(b)
    requires VerifyApproval(a, approval, policy, now, outside).Approved?
    requires VerifyApproval(b, approval, laterPolicy, later, outside).Approved?
    ensures || AlikeDocuments(a, b, outside.parse)
            || (var x, y := Canonical(Normalise(a, outside.parse).value), Canonical(Normalise(b, outside.parse).value);
                x != y && outside.hash(x) == outside.hash(y))
  {
    hide Normalise, Canonical, Get, CheckRecord, Simulated, Independent, InForce, VerifyApproval, AlikeDocuments, Lower, Blank, RStrip;
    ApprovedExactly(a, approval, policy, now, outside);
    ApprovedExactly(b, approval, laterPolicy, later, outside);
    SameCanonicalExactly(a, b, outside.parse);
  }

  /** And an alike document is decided alike: reordering keys or respelling an integer needs no new review. */
  lemma AlikeDecidedAlike(a: Json, b: Json, approval: Json, policy: ReviewPolicy, now: real, outside: Outside)
    requires Dicts(a) && Dicts(b) && Normalise(a, outside.parse).Ok? && AlikeDocuments(a, b, outside.parse)
    ensures VerifyApproval(b, approval, policy, now, outside) == VerifyApproval(a, approval, policy, now, outside)
  {
    hide Normalise, Canonical, AlikeDocuments, FirstProblem, Names, TimeAt;
    SameDocumentExactly(a, b, outside.parse);
  }

  // -- building an approval -------------------------------------------------

  function StrArray(names: seq<string>): seq<Json> {
    seq(|names|, i requires 0 <= i < |names| => Str(names[i]))
  }

  /** `build_approval`, for a document that normalises to `p`. */
  function BuildApproval(p: Payload, simulation: seq<Member>, requestedBy: string, reviewedBy: seq<string>,
                         reviewedAt: string, expiresAt: string, outside: Outside): Json {
    Obj([Member("schema", Str(APPROVAL_SCHEMA)), Member("payload_sha256", Str(outside.hash(Canonical(p)))),
         Member("rendered_summary", Str(Render(p))), Member("requested_by", Str(requestedBy)),
         Member("reviewed_by", Arr(StrArray(reviewedBy))), Member("reviewed_at", Str(reviewedAt)),
         Member("expires_at", Str(expiresAt)), Member("simulation", Obj(simulation))])
  }

  ghost predicate BuiltFieldsRead(f: seq<Member>)
    requires |f| == 8
  {
    && Get(f, "schema", Null) == f[0].val && Get(f, "payload_sha256", Null) == f[1].val
    && Get(f, "rendered_summary", Null) == f[2].val && Get(f, "requested_by", Null) == f[3].val
    && Get(f, "reviewed_by", Null) == f[4].val && Get(f, "reviewed_at", Null) == f[5].val
    && Get(f, "expires_at", Null) == f[6].val && Get(f, "simulation", Null) == f[7].val
  }

  lemma BuiltReads(f: seq<Member>)
    requires |f| == 8
    requires f[0].key == "schema" && f[1].key == "payload_sha256" && f[2].key == "rendered_summary" && f[3].key == "requested_by"
    requires f[4].key == "reviewed_by" && f[5].key == "reviewed_at" && f[6].key == "expires_at" && f[7].key == "simulation"
    ensures BuiltFieldsRead(f) && OnlyKeys(f, APPROVAL_FIELDS)
  {
    hide Find;
    assert |"schema"| == 6 && |"payload_sha256"| == 14 && |"rendered_summary"| == 16 && |"requested_by"| == 12;
    assert |"reviewed_by"| == 11 && |"reviewed_at"| == 11 && "reviewed_by"[9] != "reviewed_at"[9];
    assert |"expires_at"| == 10 && |"simulation"| == 10 && "expires_at"[0] != "simulation"[0];
    assert UniqueKeys(f);
    FindUnique(f, 0);
    FindUnique(f, 1);
    FindUnique(f, 2);
    FindUnique(f, 3);
    FindUnique(f, 4);
    FindUnique(f, 5);
    FindUnique(f, 6);
    FindUnique(f, 7);
    assert APPROVAL_FIELDS[0] == f[0].key && APPROVAL_FIELDS[1] == f[1].key && APPROVAL_FIELDS[2] == f[2].key && APPROVAL_FIELDS[3] == f[3].key;
    assert APPROVAL_FIELDS[4] == f[4].key && APPROVAL_FIELDS[5] == f[5].key && APPROVAL_FIELDS[6] == f[6].key && APPROVAL_FIELDS[7] == f[7].key;
  }

  ghost predicate EndsInNewline(s: string) { s != "" && s[|s| - 1] == '\n' }

  lemma {:induction false} RStripShrinks(s: string, drop: string)
    ensures |RStrip(s, drop)| <= |s|
  {
    if s != "" {
      RStripShrinks(s[..|s| - 1], drop);
    }
  }

  /** Trimming never leaves a trailing newline, and only a trailing newline makes it change the text. */
  lemma {:induction false} RStripExactly(s: string)
    ensures !EndsInNewline(RStrip(s, "\n"))
    ensures RStrip(s, "\n") == s <==> !EndsInNewline(s)
  {
    if EndsInNewline(s) {
      RStripExactly(s[..|s| - 1]);
      RStripShrinks(s[..|s| - 1], "\n");
    }
  }

  /** A payload whose summary ends in a newline is refused under every approval there could be: the stored
      summary is compared with its trailing newlines removed, the regenerated one is not. */
  lemma NewlineIsNeverApproved(doc: Json, approval: Json, policy: ReviewPolicy, now: real, outside: Outside)
    requires Normalise(doc, outside.parse).Ok? && EndsInNewline(Render(Normalise(doc, outside.parse).value))
    ensures !VerifyApproval(doc, approval, policy, now, outside).Approved?
  {
    hide Normalise, Canonical, Get, VerifyApproval, CheckRecord, Simulated, Independent, InForce, Lower, Blank, RStrip, Render;
    ApprovedExactly(doc, approval, policy, now, outside);
    if approval.Obj? && Get(approval.fields, "rendered_summary", Null).Str? {
      RStripExactly(Get(approval.fields, "rendered_summary", Null).s);
    }
  }

  /** There is such a payload: its network name ends where the summary is cut. */
  lemma NeverApprovable(outside: Outside) returns (doc: Json)
    ensures Normalise(doc, outside.parse).Ok?
    ensures forall approval, policy, now :: !VerifyApproval(doc, approval, policy, now, outside).Approved?
  {
    var p := CutAfterLineBreak();
    doc := Obj(EncodeFields(p));
    PayloadRoundTrip(p, outside.parse);
    hide Normalise, VerifyApproval, Render, EncodeFields;
    forall approval, policy, now ensures !VerifyApproval(doc, approval, policy, now, outside).Approved? {
      NewlineIsNeverApproved(doc, approval, policy, now, outside);
    }
  }

  lemma SummaryIsNotBlank(p: Payload)
    ensures !Blank(Render(p))
  {
    RenderStarts(p);
    hide Render;
  }

  /** Building does not verify, whatever its documentation says: the record it returns is accepted
      if and only if these hold. */
  lemma BuiltApprovalExactly(doc: Json, simulation: seq<Member>, requestedBy: string, reviewedBy: seq<string>,
                             reviewedAt: string, expiresAt: string, policy: ReviewPolicy, now: real, outside: Outside)
    requires Normalise(doc, outside.parse).Ok?
    requires forall x :: outside.hash(x) != "" && Lower(outside.hash(x)) == outside.hash(x)
    ensures var p := Normalise(doc, outside.parse).value;
            var built := BuildApproval(p, simulation, requestedBy, reviewedBy, reviewedAt, expiresAt, outside);
            VerifyApproval(doc, built, policy, now, outside).Approved? <==>
            && !EndsInNewline(Render(p))
            && Simulated(built.fields, p, outside.hash(Canonical(p)), policy)
            && Independent(built.fields, policy.requiredReviewers)
            && InForce(built.fields, policy, now, outside)
  {
    hide Normalise, Canonical, Get, VerifyApproval, Simulated, Independent, InForce, Lower, Blank, RStrip, OnlyKeys, Render, EndsInNewline;
    var p := Normalise(doc, outside.parse).value;
    var built := BuildApproval(p, simulation, requestedBy, reviewedBy, reviewedAt, expiresAt, outside);
    BuiltReads(built.fields);
    SummaryIsNotBlank(p);
    RStripExactly(Render(p));
    ApprovedExactly(doc, built, policy, now, outside);
  }

  // -- which payloads can be approved at all --------------------------------

  function SimulationOf(p: Payload, digest: string): seq<Member> {
    [Member("payload_sha256", Str(digest)), Member("network", Str(p.network)), Member("success", Bool(true)), Member("fee_stroops", Int(0))]
  }

  lemma SimulationReads(p: Payload, digest: string)
    ensures var f := SimulationOf(p, digest);
            && OnlyKeys(f, SIMULATION_FIELDS)
            && Get(f, "payload_sha256", Null) == Str(digest) && Get(f, "network", Null) == Str(p.network)
            && Get(f, "success", Null) == Bool(true) && Get(f, "fee_stroops", Null) == Int(0)
  {
    hide Find;
    var f := SimulationOf(p, digest);
    assert |"payload_sha256"| == 14 && |"network"| == 7 && |"success"| == 7 && |"fee_stroops"| == 11 && "network"[0] != "success"[0];
    assert UniqueKeys(f);
    FindUnique(f, 0);
    FindUnique(f, 1);
    FindUnique(f, 2);
    FindUnique(f, 3);
    assert SIMULATION_FIELDS[0] == f[0].key && SIMULATION_FIELDS[1] == f[1].key && SIMULATION_FIELDS[2] == f[2].key && SIMULATION_FIELDS[3] == f[3].key;
  }

  /** Any number of different names. */
  function Committee(n: nat): seq<string> { seq(n, i requires 0 <= i < n => seq(i + 1, _ => 'r')) }

  lemma {:induction false} StripPlain(s: string)
    requires s != "" && s[0] !in " \t\n\r" && s[|s| - 1] !in " \t\n\r"
    ensures Strip(s) == s && !Blank(s)
  {}

  lemma CommitteeIsIndependent(f: seq<Member>, n: nat)
    requires Get(f, "requested_by", Null) == Str("q") && Get(f, "reviewed_by", Null) == Arr(StrArray(Committee(n)))
    ensures Independent(f, n)
  {
    hide Get, Strip, Blank;
    StripPlain("q");
    var names := Committee(n);
    forall i | 0 <= i < n ensures Strip(names[i]) == names[i] && !Blank(names[i]) && |names[i]| == i + 1 && names[i] != "q" {
      StripPlain(names[i]);
      assert names[i][0] == 'r';
    }
  }

  /** Some approval releases the document at some time. */
  ghost predicate Approvable(doc: Json, policy: ReviewPolicy, outside: Outside) {
    exists approval, now :: VerifyApproval(doc, approval, policy, now, outside).Approved?
  }

  /** Two timestamps a review window apart. */
  ghost predicate WindowFits(early: string, late: string, policy: ReviewPolicy, outside: Outside) {
    && !Blank(early) && !Blank(late) && outside.instant(early).Some? && outside.instant(late).Some?
    && outside.instant(early).value < outside.instant(late).value <= outside.instant(early).value + policy.maxWindowSecs as real
  }

  lemma ApprovalExists(doc: Json, policy: ReviewPolicy, early: string, late: string, outside: Outside)
    requires policy.Valid() && Normalise(doc, outside.parse).Ok? && WindowFits(early, late, policy, outside)
    requires forall x :: outside.hash(x) != "" && Lower(outside.hash(x)) == outside.hash(x)
    requires var p := Normalise(doc, outside.parse).value; !EndsInNewline(Render(p)) && p.fee <= policy.maxFee
    ensures Approvable(doc, policy, outside)
  {
    hide Normalise, Canonical, Get, VerifyApproval, Lower, OnlyKeys, Render, EndsInNewline, Independent, InForce, Committee;
    var p := Normalise(doc, outside.parse).value;
    var digest, now := outside.hash(Canonical(p)), outside.instant(early).value;
    var built := BuildApproval(p, SimulationOf(p, digest), "q", Committee(policy.requiredReviewers), early, late, outside);
    BuiltReads(built.fields);
    SimulationReads(p, digest);
    CommitteeIsIndependent(built.fields, policy.requiredReviewers);
    WindowIsOpen(built.fields, early, late, policy, outside);
    BuiltApprovalExactly(doc, SimulationOf(p, digest), "q", Committee(policy.requiredReviewers), early, late, policy, now, outside);
    assert VerifyApproval(doc, built, policy, now, outside).Approved?;
  }

  lemma ApprovedNeeds(doc: Json, approval: Json, policy: ReviewPolicy, now: real, outside: Outside)
    requires VerifyApproval(doc, approval, policy, now, outside).Approved?
    ensures Normalise(doc, outside.parse).Ok?
    ensures var p := Normalise(doc, outside.parse).value; !EndsInNewline(Render(p)) && p.fee <= policy.maxFee
  {
    hide Normalise, Canonical, Get, VerifyApproval, Lower, OnlyKeys, Render, EndsInNewline, CheckRecord, CheckBinding, Independent, InForce;
    ApprovedExactly(doc, approval, policy, now, outside);
    if EndsInNewline(Render(Normalise(doc, outside.parse).value)) {
      NewlineIsNeverApproved(doc, approval, policy, now, outside);
    }
  }

  /** A document can be approved at all if and only if it normalises, its summary does not end in a newline
      and its fee is within the cap. */
  lemma ApprovableExactly(doc: Json, policy: ReviewPolicy, early: string, late: string, outside: Outside)
    requires policy.Valid() && WindowFits(early, late, policy, outside)
    requires forall x :: outside.hash(x) != "" && Lower(outside.hash(x)) == outside.hash(x)
    ensures Approvable(doc, policy, outside) <==>
            && Normalise(doc, outside.parse).Ok?
            && !EndsInNewline(Render(Normalise(doc, outside.parse).value))
            && Normalise(doc, outside.parse).value.fee <= policy.maxFee
  {
    hide Normalise, VerifyApproval, Lower, Render, EndsInNewline, WindowFits;
    if Approvable(doc, policy, outside) {
      var approval, now :| VerifyApproval(doc, approval, policy, now, outside).Approved?;
      ApprovedNeeds(doc, approval, policy, now, outside);
    } else if Normalise(doc, outside.parse).Ok? {
      var p := Normalise(doc, outside.parse).value;
      if !EndsInNewline(Render(p)) && p.fee <= policy.maxFee {
        ApprovalExists(doc, policy, early, late, outside);
      }
    }
  }

  lemma WindowIsOpen(f: seq<Member>, early: string, late: string, policy: ReviewPolicy, outside: Outside)
    requires Get(f, "reviewed_at", Null) == Str(early) && Get(f, "expires_at", Null) == Str(late)
    requires WindowFits(early, late, policy, outside)
    ensures InForce(f, policy, outside.instant(early).value, outside)
  {
    hide Get, Blank;
  }
}
