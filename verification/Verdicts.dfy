/** Why an approval is refused, and what a release says: the first check not passed, in the order they are made. */
module Verdicts {
  import opened Options
  import opened Authenticity
  import opened Sorting
  import opened Strings
  import opened Payloads
  import opened Documents
  import opened Canonicals
  import opened Renders
  import opened Reviews
  import opened Refusals

  // -- texts ----------------------------------------------------------------

  /** Upper-case letters become lower-case ones, and nothing else changes. */
  lemma LowerTells(s: string)
    ensures |Lower(s)| == |s|
    ensures forall i | 0 <= i < |s| ::
              Lower(s)[i] == if s[i] in "ABCDEFGHIJKLMNOPQRSTUVWXYZ" then s[i] + 32 as char else s[i]
  {
    forall i | 0 <= i < |s| ensures s[i] in "ABCDEFGHIJKLMNOPQRSTUVWXYZ" <==> 'A' <= s[i] <= 'Z' {
      Letter(s[i]);
    }
  }

  lemma Letter(c: char)
    ensures c in "ABCDEFGHIJKLMNOPQRSTUVWXYZ" <==> 'A' <= c <= 'Z'
  {
    if 'A' <= c <= 'Z' {
      assert "ABCDEFGHIJKLMNOPQRSTUVWXYZ"[c as int - 65] == c;
    }
  }

  ghost predicate AllIn(s: string, drop: string) { forall i | 0 <= i < |s| :: s[i] in drop }

  /** What is dropped at the end is all of those characters there are. */
  lemma {:induction false} TrimTells(s: string, drop: string) returns (tail: string)
    ensures s == RStrip(s, drop) + tail && AllIn(tail, drop)
    ensures RStrip(s, drop) != "" ==> RStrip(s, drop)[|RStrip(s, drop)| - 1] !in drop
  {
    tail := "";
    if s != "" && s[|s| - 1] in drop {
      var rest := TrimTells(s[..|s| - 1], drop);
      tail := rest + [s[|s| - 1]];
      assert s == s[..|s| - 1] + [s[|s| - 1]];
    }
  }

  lemma {:induction false} LeadTells(s: string, drop: string) returns (head: string)
    ensures s == head + LStrip(s, drop) && AllIn(head, drop)
    ensures LStrip(s, drop) != "" ==> LStrip(s, drop)[0] !in drop
  {
    head := "";
    if s != "" && s[0] in drop {
      var rest := LeadTells(s[1..], drop);
      head := [s[0]] + rest;
      assert s == [s[0]] + s[1..];
    }
  }

  /** Stripping takes white space off both ends, and all of it. */
  lemma StripTells(s: string) returns (head: string, tail: string)
    ensures s == head + Strip(s) + tail && AllIn(head, " \t\n\r") && AllIn(tail, " \t\n\r")
    ensures Strip(s) != "" ==> Strip(s)[0] !in " \t\n\r" && Strip(s)[|Strip(s)| - 1] !in " \t\n\r"
  {
    head := LeadTells(s, " \t\n\r");
    tail := TrimTells(LStrip(s, " \t\n\r"), " \t\n\r");
  }

  // -- the checks -----------------------------------------------------------

  /** What an approval is asked, in order, about a payload with that digest and summary. */
  ghost predicate Passes(f: seq<Member>, p: Payload, digest: string, policy: ReviewPolicy, now: real, outside: Outside, k: nat) {
    match k
    case 0 => Get(f, "schema", Null) == Str(APPROVAL_SCHEMA)
    case 1 => Known(f, APPROVAL_FIELDS)
    case 2 => Get(f, "payload_sha256", Null).Str? && Get(f, "payload_sha256", Null).s != ""
    case 3 => Get(f, "payload_sha256", Null).Str? && Lower(Get(f, "payload_sha256", Null).s) == digest
    case 4 => Legible(Get(f, "rendered_summary", Null))
    case 5 => Get(f, "rendered_summary", Null).Str? && RStrip(Get(f, "rendered_summary", Null).s, "\n") == Render(p)
    case 6 => Get(f, "simulation", Null).Obj?
    case 7 => Get(f, "simulation", Null).Obj? && Known(Simulation(f), SIMULATION_FIELDS)
    case 8 => Get(Simulation(f), "payload_sha256", Null).Str? && Lower(Get(Simulation(f), "payload_sha256", Null).s) == digest
    case 9 => Get(Simulation(f), "network", Null) == Str(p.network)
    case 10 => Get(Simulation(f), "success", Null) == Bool(true)
    case 11 => Get(Simulation(f), "fee_stroops", Null).Int? && Get(Simulation(f), "fee_stroops", Null).i >= 0
    case 12 => Get(Simulation(f), "fee_stroops", Null).Int? && Get(Simulation(f), "fee_stroops", Null).i <= policy.maxFee && p.fee <= policy.maxFee
    case 13 => Legible(Get(f, "requested_by", Null))
    case 14 => Get(f, "reviewed_by", Null).Arr? && forall i | 0 <= i < |Reviewers(f)| :: Legible(Reviewers(f)[i])
    case 15 => AllDifferent(Reviewers(f))
    case 16 => NoneIs(Reviewers(f), Person(Get(f, "requested_by", Null)))
    case 17 => |Reviewers(f)| >= policy.requiredReviewers
    case 18 => At(f, "reviewed_at", outside).Some? && At(f, "expires_at", outside).Some?
    case 19 => At(f, "reviewed_at", outside).GetOr(0.0) < At(f, "expires_at", outside).GetOr(0.0)
    case 20 => At(f, "expires_at", outside).GetOr(0.0) <= At(f, "reviewed_at", outside).GetOr(0.0) + policy.maxWindowSecs as real
    case 21 => At(f, "reviewed_at", outside).GetOr(0.0) <= now
    case _ => now <= At(f, "expires_at", outside).GetOr(0.0)
  }

  ghost function Simulation(f: seq<Member>): seq<Member> { if Get(f, "simulation", Null).Obj? then Get(f, "simulation", Null).fields else [] }
  ghost function Reviewers(f: seq<Member>): seq<Json> { if Get(f, "reviewed_by", Null).Arr? then Get(f, "reviewed_by", Null).items else [] }
  ghost function Person(j: Json): string { if j.Str? then Strip(j.s) else "" }

  ghost function At(f: seq<Member>, key: string, outside: Outside): Option<real> {
    if Legible(Get(f, key, Null)) then outside.instant(Get(f, key, Null).s) else None
  }

  function Code(k: nat): ReviewCode {
    match k
    case 0 => UnsupportedSchema case 1 => ApprovalUnknownField
    case 2 => MalformedApproval case 3 => PayloadMismatch case 4 => MalformedApproval case 5 => SummaryMismatch
    case 6 => SimulationMissing case 7 => ApprovalUnknownField case 8 => SimulationMismatch case 9 => SimulationMismatch
    case 10 => SimulationFailed case 11 => MalformedApproval case 12 => FeeAboveCap
    case 13 => MalformedApproval case 14 => MalformedApproval case 15 => InsufficientReviewers case 16 => SelfReview
    case 17 => InsufficientReviewers
    case 18 => MalformedApproval case 19 => ReviewWindowTooLong case 20 => ReviewWindowTooLong
    case 21 => ApprovalNotYetValid case _ => ApprovalExpired
  }

  lemma LegibleTells(j: Json)
    ensures Legible(j) <==> j.Str? && !Blank(j.s)
  {
    if j.Str? {
      BlankTells(j.s);
    }
  }

  /** The first check of a range that is not passed, or its end. */
  ghost predicate FirstIn(f: seq<Member>, p: Payload, digest: string, policy: ReviewPolicy, now: real, outside: Outside, from: nat, to: nat, k: nat) {
    && from <= k <= to && (forall j: nat | from <= j < k :: Passes(f, p, digest, policy, now, outside, j))
    && (k < to ==> !Passes(f, p, digest, policy, now, outside, k))
  }

  lemma RecordTells(f: seq<Member>, p: Payload, digest: string, policy: ReviewPolicy, now: real, outside: Outside) returns (k: nat)
    ensures FirstIn(f, p, digest, policy, now, outside, 0, 2, k)
    ensures CheckRecord(f) == if k < 2 then Some(Code(k)) else None
  {
    hide Get;
    k := if !Passes(f, p, digest, policy, now, outside, 0) then 0 else if !Passes(f, p, digest, policy, now, outside, 1) then 1 else 2;
  }

  lemma BindingTells(f: seq<Member>, p: Payload, digest: string, policy: ReviewPolicy, now: real, outside: Outside) returns (k: nat)
    ensures FirstIn(f, p, digest, policy, now, outside, 2, 6, k)
    ensures CheckBinding(f, digest, Render(p)) == if k < 6 then Some(Code(k)) else None
  {
    LegibleTells(Get(f, "rendered_summary", Null));
    hide Get, Lower, RStrip, Render, Legible, Blank;
    k := if !Passes(f, p, digest, policy, now, outside, 2) then 2 else if !Passes(f, p, digest, policy, now, outside, 3) then 3
      else if !Passes(f, p, digest, policy, now, outside, 4) then 4 else if !Passes(f, p, digest, policy, now, outside, 5) then 5 else 6;
  }

  lemma SimulationTells(f: seq<Member>, p: Payload, digest: string, policy: ReviewPolicy, now: real, outside: Outside) returns (k: nat)
    ensures FirstIn(f, p, digest, policy, now, outside, 6, 13, k)
    ensures CheckSimulation(f, p, digest, policy) == if k < 13 then Some(Code(k)) else None
  {
    hide Get, Lower;
    k := if !Passes(f, p, digest, policy, now, outside, 6) then 6 else if !Passes(f, p, digest, policy, now, outside, 7) then 7
      else if !Passes(f, p, digest, policy, now, outside, 8) then 8 else if !Passes(f, p, digest, policy, now, outside, 9) then 9
      else if !Passes(f, p, digest, policy, now, outside, 10) then 10 else if !Passes(f, p, digest, policy, now, outside, 11) then 11
      else if !Passes(f, p, digest, policy, now, outside, 12) then 12 else 13;
  }

  ghost predicate AllDifferent(people: seq<Json>) {
    forall i, j | 0 <= i < j < |people| :: Person(people[i]) != Person(people[j])
  }

  ghost predicate NoneIs(people: seq<Json>, name: string) {
    forall i | 0 <= i < |people| :: Person(people[i]) != name
  }

  lemma PeopleTell(people: seq<Json>, name: string)
    requires forall i | 0 <= i < |people| :: people[i].Str?
    ensures var distinct := ToSet(Stripped(people));
            && |distinct| <= |people| && (|distinct| == |people| <==> AllDifferent(people))
            && (name in distinct <==> !NoneIs(people, name))
  {
    hide Strip, ToSet;
    var names := Stripped(people);
    ToSetSize(names);
    assert forall i | 0 <= i < |names| :: names[i] == Person(people[i]);
  }

  /** Once everybody is named, the set arithmetic decides. */
  lemma PeopleDecide(f: seq<Member>, policy: ReviewPolicy)
    requires Legible(Get(f, "requested_by", Null)) && Get(f, "reviewed_by", Null).Arr?
    requires forall i | 0 <= i < |Reviewers(f)| :: Legible(Reviewers(f)[i])
    ensures CheckReviewers(f, policy) ==
            if !AllDifferent(Reviewers(f)) then Some(InsufficientReviewers)
            else if !NoneIs(Reviewers(f), Person(Get(f, "requested_by", Null))) then Some(SelfReview)
            else if |Reviewers(f)| < policy.requiredReviewers then Some(InsufficientReviewers)
            else None
  {
    var requester, people := Get(f, "requested_by", Null), Get(f, "reviewed_by", Null).items;
    LegibleTells(requester);
    forall i | 0 <= i < |people| ensures people[i].Str? && !Blank(people[i].s) {
      LegibleTells(Reviewers(f)[i]);
    }
    PeopleTell(people, Person(requester));
    hide Get, Strip, ToSet, Blank, AllDifferent, NoneIs, Legible;
  }

  lemma Unnamed(f: seq<Member>, policy: ReviewPolicy)
    requires !(Legible(Get(f, "requested_by", Null)) && Get(f, "reviewed_by", Null).Arr? && forall i | 0 <= i < |Reviewers(f)| :: Legible(Reviewers(f)[i]))
    ensures CheckReviewers(f, policy) == Some(MalformedApproval)
  {
    LegibleTells(Get(f, "requested_by", Null));
    if Get(f, "reviewed_by", Null).Arr? && !forall i | 0 <= i < |Reviewers(f)| :: Legible(Reviewers(f)[i]) {
      var i :| 0 <= i < |Reviewers(f)| && !Legible(Reviewers(f)[i]);
      LegibleTells(Reviewers(f)[i]);
      assert Get(f, "reviewed_by", Null).items[i] == Reviewers(f)[i];
    }
    hide Get, Strip, ToSet, Blank, Legible;
  }

  lemma ReviewersTell(f: seq<Member>, p: Payload, digest: string, policy: ReviewPolicy, now: real, outside: Outside) returns (k: nat)
    ensures FirstIn(f, p, digest, policy, now, outside, 13, 18, k)
    ensures CheckReviewers(f, policy) == if k < 18 then Some(Code(k)) else None
  {
    hide Get, Legible, Person, CheckReviewers, Reviewers;
    k := if !Passes(f, p, digest, policy, now, outside, 13) then 13 else if !Passes(f, p, digest, policy, now, outside, 14) then 14
      else if !Passes(f, p, digest, policy, now, outside, 15) then 15 else if !Passes(f, p, digest, policy, now, outside, 16) then 16
      else if !Passes(f, p, digest, policy, now, outside, 17) then 17 else 18;
    if k > 14 {
      PeopleDecide(f, policy);
    } else {
      Unnamed(f, policy);
    }
  }

  lemma AtTells(f: seq<Member>, key: string, outside: Outside)
    ensures TimeAt(f, key, outside) == At(f, key, outside)
  {
    LegibleTells(Get(f, key, Null));
  }

  lemma TimesTell(f: seq<Member>, p: Payload, digest: string, policy: ReviewPolicy, now: real, outside: Outside) returns (k: nat)
    ensures FirstIn(f, p, digest, policy, now, outside, 18, 23, k)
    ensures CheckTimes(f, policy, now, outside) == if k < 23 then Some(Code(k)) else None
  {
    AtTells(f, "reviewed_at", outside);
    AtTells(f, "expires_at", outside);
    hide Get, TimeAt, At;
    k := if !Passes(f, p, digest, policy, now, outside, 18) then 18 else if !Passes(f, p, digest, policy, now, outside, 19) then 19
      else if !Passes(f, p, digest, policy, now, outside, 20) then 20 else if !Passes(f, p, digest, policy, now, outside, 21) then 21
      else if !Passes(f, p, digest, policy, now, outside, 22) then 22 else 23;
  }

  lemma ProblemTells(f: seq<Member>, p: Payload, policy: ReviewPolicy, now: real, outside: Outside) returns (k: nat)
    ensures FirstIn(f, p, outside.hash(Canonical(p)), policy, now, outside, 0, 23, k)
    ensures FirstProblem(f, p, policy, now, outside) == if k < 23 then Some(Code(k)) else None
  {
    hide CheckRecord, CheckBinding, CheckSimulation, CheckReviewers, CheckTimes, Canonical, Render, Passes;
    var digest := outside.hash(Canonical(p));
    k := RecordTells(f, p, digest, policy, now, outside);
    if k == 2 { k := BindingTells(f, p, digest, policy, now, outside); }
    if k == 6 { k := SimulationTells(f, p, digest, policy, now, outside); }
    if k == 13 { k := ReviewersTell(f, p, digest, policy, now, outside); }
    if k == 18 { k := TimesTell(f, p, digest, policy, now, outside); }
  }

  /** A release names the payload, its digest, its reviewers sorted, when it was reviewed and when it lapses. */
  ghost predicate Releases(d: Decision, f: seq<Member>, p: Payload, digest: string, policy: ReviewPolicy, outside: Outside) {
    && d.Approved? && d.payload == p && d.digest == digest && d.environment == policy.environment
    && Some(d.reviewedAt) == At(f, "reviewed_at", outside) && Some(d.expiresAt) == At(f, "expires_at", outside)
    && Ascending(d.reviewers, StringLe) && |d.reviewers| == |Reviewers(f)|
    && forall name :: name in d.reviewers <==> exists i :: 0 <= i < |Reviewers(f)| && name == Person(Reviewers(f)[i])
  }

  lemma NamesTell(f: seq<Member>)
    requires forall i | 0 <= i < |Reviewers(f)| :: Reviewers(f)[i].Str?
    ensures var sorted := Sort(Reviews.Names(f), StringLe);
            && Ascending(sorted, StringLe) && |sorted| == |Reviewers(f)|
            && forall name :: name in sorted <==> exists i :: 0 <= i < |Reviewers(f)| && name == Person(Reviewers(f)[i])
  {
    hide Get, Strip, StringLe, Sort;
    var names := Reviews.Names(f);
    assert |names| == |Reviewers(f)| && forall i | 0 <= i < |names| :: names[i] == Person(Reviewers(f)[i]);
    OrderIsTotal();
    SortIsAscending(names, StringLe);
    forall name ensures name in Sort(names, StringLe) <==> name in names {
      SortIsPermutation(names, name, StringLe);
    }
  }

  lemma OrderIsTotal()
    ensures TotalPreorder(StringLe)
  {
    forall a, b ensures StringLe(a, b) || StringLe(b, a) { Total(a, b); }
    forall a, b, c | StringLe(a, b) && StringLe(b, c) ensures StringLe(a, c) { Transitive(a, b, c); }
  }

  /** A document that does not normalise is not reviewed; an approval that is no record is malformed; any other is
      refused with the code of the first check it does not pass, and releases the payload if it passes them all. */
  lemma VerdictTells(doc: Json, approval: Json, policy: ReviewPolicy, now: real, outside: Outside) returns (k: nat)
    ensures var d := VerifyApproval(doc, approval, policy, now, outside);
            match Normalise(doc, outside.parse)
            case Fail(code) => d == NotReviewable(code)
            case Ok(p) =>
              var digest := outside.hash(Canonical(p));
              if !approval.Obj? then d == Rejected(MalformedApproval)
              else && FirstIn(approval.fields, p, digest, policy, now, outside, 0, 23, k)
                   && if k < 23 then d == Rejected(Code(k)) else Releases(d, approval.fields, p, digest, policy, outside)
  {
    k := 0;
    hide Normalise, Canonical, FirstProblem, Get, Legible;
    if Normalise(doc, outside.parse).Ok? && approval.Obj? {
      var p := Normalise(doc, outside.parse).value;
      k := ProblemTells(approval.fields, p, policy, now, outside);
      if k == 23 {
        AllPassed(approval.fields, p, outside.hash(Canonical(p)), policy, now, outside);
        NamesTell(approval.fields);
        AtTells(approval.fields, "reviewed_at", outside);
        AtTells(approval.fields, "expires_at", outside);
      }
      hide Passes, Sort, TimeAt, At, Reviewers, Reviews.Names;
    }
  }

  lemma AllPassed(f: seq<Member>, p: Payload, digest: string, policy: ReviewPolicy, now: real, outside: Outside)
    requires forall j: nat | 0 <= j < 23 :: Passes(f, p, digest, policy, now, outside, j)
    ensures At(f, "reviewed_at", outside).Some? && At(f, "expires_at", outside).Some?
    ensures forall i | 0 <= i < |Reviewers(f)| :: Reviewers(f)[i].Str?
  {
    hide Get, At;
    assert Passes(f, p, digest, policy, now, outside, 18) && Passes(f, p, digest, policy, now, outside, 14);
  }
}
