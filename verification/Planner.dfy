/**
The submission planner of internal/api/tasks.go: one list of torrent identities, checked
against the live tasks and against a set the whole submission shares, over both infohash
columns at once.

An input is a blob part or a URI after everything that does not concern identity has
been decided: parsing, routing, engine override, preflight.
*/
module Planner {
  /** The two identity columns; "" is absent. */
  datatype Identity = Identity(v1: string, v2: string)

  datatype Input =
    | Refused
    | EngineMissing
    | Blocked(n: Identity)
    | Unidentified
    | Candidate(n: Identity, destinationOk: bool)
    | StoreFails(n: Identity)

  datatype Planned = Planned(source: nat, n: Identity, blocked: bool)

  datatype Reason = NotAccepted | PreflightBlocked | RepeatInSubmission | AlreadyLive

  datatype Rejected = Rejected(source: nat, reason: Reason)

  const NoIdentity: Identity := Identity("", "")

  /** The two torrents have a hash in common. */
  predicate Shares(a: Identity, b: Identity) {
    (a.v1 != "" && a.v1 == b.v1) || (a.v2 != "" && a.v2 == b.v2)
  }

  /** FindByInfohash: both columns together. */
  ghost predicate IsLive(live: set<Identity>, n: Identity) {
    exists row :: row in live && Shares(n, row)
  }

  const V1: string := "v1|"
  const V2: string := "v2|"

  function Keys(n: Identity): set<string> {
    (if n.v1 != "" then {V1 + n.v1} else {}) + (if n.v2 != "" then {V2 + n.v2} else {})
  }

  predicate Already(seen: set<string>, n: Identity) {
    (n.v1 != "" && V1 + n.v1 in seen) || (n.v2 != "" && V2 + n.v2 in seen)
  }

  datatype Plan = Plan(seen: set<string>, planned: seq<Planned>, rejected: seq<Rejected>, failed: bool)

  const NoPlan: Plan := Plan({}, [], [], false)

  function Put(p: Plan, t: Planned): Plan {
    p.(planned := p.planned + [t])
  }

  function Refuse(p: Plan, k: nat, why: Reason): Plan {
    p.(rejected := p.rejected + [Rejected(k, why)])
  }

  /** One input.  A failure ends the whole request. */
  ghost function Judge(p: Plan, k: nat, i: Input, live: set<Identity>): Plan {
    match i
    case Refused => Refuse(p, k, NotAccepted)
    case EngineMissing => p.(failed := true)
    case Blocked(n) => Put(Refuse(p, k, PreflightBlocked), Planned(k, n, true))
    case Unidentified => Put(p, Planned(k, NoIdentity, false))
    case StoreFails(n) => if n == NoIdentity then Put(p, Planned(k, n, false)) else if Already(p.seen, n) then Refuse(p, k, RepeatInSubmission) else p.(failed := true)
    case Candidate(n, destinationOk) =>
      if n != NoIdentity && Already(p.seen, n) then Refuse(p, k, RepeatInSubmission)
      else if n != NoIdentity && IsLive(live, n) then Refuse(p, k, AlreadyLive)
      else
        var p1 := p.(seen := p.seen + Keys(n));
        if destinationOk then Put(p1, Planned(k, n, false)) else p1.(failed := true)
  }

  ghost function PlanAll(p: Plan, first: nat, inputs: seq<Input>, live: set<Identity>): Plan {
    if inputs == [] then p
    else
      var p1 := PlanAll(p, first, inputs[..|inputs| - 1], live);
      if p1.failed then p1 else Judge(p1, first + |inputs| - 1, inputs[|inputs| - 1], live)
  }

  // ------------------------------------------------------------- invariants

  /** The shared set holds exactly the hashes of what was planned unblocked. */
  ghost predicate SeenIsPlanned(p: Plan) {
    && (forall j :: 0 <= j < |p.planned| && !p.planned[j].blocked ==> Keys(p.planned[j].n) <= p.seen)
    && (!p.failed ==> forall key :: key in p.seen ==> exists j :: 0 <= j < |p.planned| && !p.planned[j].blocked && key in Keys(p.planned[j].n))
  }

  ghost predicate DuplicateFree(p: Plan) {
    forall i, j :: 0 <= i < j < |p.planned| && !p.planned[i].blocked && !p.planned[j].blocked ==>
      !Shares(p.planned[i].n, p.planned[j].n)
  }

  ghost predicate NoneLive(p: Plan, live: set<Identity>) {
    forall j :: 0 <= j < |p.planned| && !p.planned[j].blocked ==> !IsLive(live, p.planned[j].n)
  }

  ghost predicate PlanOk(p: Plan, live: set<Identity>) {
    SeenIsPlanned(p) && DuplicateFree(p) && NoneLive(p, live)
  }

  lemma PrefixInjective(prefix: string, a: string, b: string)
    requires prefix + a == prefix + b
    ensures a == b
  {
    assert (prefix + a)[|prefix|..] == a && (prefix + b)[|prefix|..] == b;
  }

  /** The two columns' keys never meet. */
  lemma ColumnsApart(a: string, b: string)
    ensures V1 + a != V2 + b
  {
    assert (V1 + a)[1] == '1' && (V2 + b)[1] == '2';
  }

  lemma SharesIsKeysMeet(a: Identity, b: Identity)
    ensures Shares(a, b) <==> Keys(a) * Keys(b) != {}
  {
    if a.v1 != "" && a.v1 == b.v1 {
      assert V1 + a.v1 in Keys(a) * Keys(b);
    }
    if a.v2 != "" && a.v2 == b.v2 {
      assert V2 + a.v2 in Keys(a) * Keys(b);
    }
    if key :| key in Keys(a) * Keys(b) {
      ColumnsApart(a.v1, b.v2);
      ColumnsApart(b.v1, a.v2);
      if key == V1 + a.v1 && key == V1 + b.v1 {
        PrefixInjective(V1, a.v1, b.v1);
      }
      if key == V2 + a.v2 && key == V2 + b.v2 {
        PrefixInjective(V2, a.v2, b.v2);
      }
    }
  }

  lemma AlreadyIsKeysMeet(seen: set<string>, n: Identity)
    ensures Already(seen, n) <==> Keys(n) * seen != {}
  {
    if n.v1 != "" && V1 + n.v1 in seen {
      assert V1 + n.v1 in Keys(n) * seen;
    }
    if n.v2 != "" && V2 + n.v2 in seen {
      assert V2 + n.v2 in Keys(n) * seen;
    }
  }

  /** What the shared set answers: whether an unblocked planned task shares a hash. */
  lemma AlreadyMeansPlanned(p: Plan, n: Identity)
    requires SeenIsPlanned(p) && !p.failed
    ensures Already(p.seen, n) <==> exists j :: 0 <= j < |p.planned| && !p.planned[j].blocked && Shares(p.planned[j].n, n)
  {
    AlreadyIsKeysMeet(p.seen, n);
    if key :| key in Keys(n) * p.seen {
      var j :| 0 <= j < |p.planned| && !p.planned[j].blocked && key in Keys(p.planned[j].n);
      assert key in Keys(p.planned[j].n) * Keys(n);
      SharesIsKeysMeet(p.planned[j].n, n);
    }
    if j :| 0 <= j < |p.planned| && !p.planned[j].blocked && Shares(p.planned[j].n, n) {
      SharesIsKeysMeet(p.planned[j].n, n);
      var key :| key in Keys(p.planned[j].n) * Keys(n);
      assert key in Keys(n) * p.seen;
    }
  }

  lemma PutKeepsPlan(p: Plan, k: nat, n: Identity, live: set<Identity>)
    requires PlanOk(p, live) && !p.failed && !Already(p.seen, n) && !IsLive(live, n)
    ensures PlanOk(Put(p.(seen := p.seen + Keys(n)), Planned(k, n, false)), live)
  {
    var p1 := Put(p.(seen := p.seen + Keys(n)), Planned(k, n, false));
    AlreadyMeansPlanned(p, n);
    hide IsLive, Shares, Keys, Already;
    forall i, j | 0 <= i < j < |p1.planned| && !p1.planned[i].blocked && !p1.planned[j].blocked
      ensures !Shares(p1.planned[i].n, p1.planned[j].n) {
      if j == |p.planned| {
        assert p1.planned[i] == p.planned[i];
      }
    }
    forall key | key in p1.seen ensures exists j :: 0 <= j < |p1.planned| && !p1.planned[j].blocked && key in Keys(p1.planned[j].n) {
      if key in p.seen {
        var j :| 0 <= j < |p.planned| && !p.planned[j].blocked && key in Keys(p.planned[j].n);
        assert p1.planned[j] == p.planned[j];
      } else {
        assert p1.planned[|p.planned|].n == n;
      }
    }
  }

  lemma PutBlockedKeepsPlan(p: Plan, t: Planned, live: set<Identity>)
    requires PlanOk(p, live) && (t.blocked || t.n == NoIdentity)
    ensures PlanOk(Put(p, t), live)
  {
    var p1 := Put(p, t);
    forall key | key in p1.seen && !p1.failed ensures exists j :: 0 <= j < |p1.planned| && !p1.planned[j].blocked && key in Keys(p1.planned[j].n) {
      var j :| 0 <= j < |p.planned| && !p.planned[j].blocked && key in Keys(p.planned[j].n);
      assert p1.planned[j] == p.planned[j];
    }
  }

  lemma RefusingKeepsPlan(p: Plan, k: nat, why: Reason, live: set<Identity>)
    requires PlanOk(p, live)
    ensures PlanOk(Refuse(p, k, why), live)
  {
  }

  /** A failed plan promises less: its last hashes may belong to no task. */
  lemma FailingKeepsPlan(p: Plan, seen: set<string>, live: set<Identity>)
    requires PlanOk(p, live) && p.seen <= seen
    ensures PlanOk(p.(failed := true), live) && PlanOk(p.(seen := seen, failed := true), live)
  {
    hide IsLive, Shares, Keys;
  }

  lemma JudgeKeepsPlan(p: Plan, k: nat, i: Input, live: set<Identity>)
    requires PlanOk(p, live) && !p.failed
    ensures PlanOk(Judge(p, k, i, live), live)
  {
    hide PlanOk, IsLive, Already, Keys, Refuse, Put;
    NoIdentityIsNew(p, live);
    FailingKeepsPlan(p, p.seen, live);
    match i
    case Refused => RefusingKeepsPlan(p, k, NotAccepted, live);
    case EngineMissing =>
    case Blocked(n) =>
      RefusingKeepsPlan(p, k, PreflightBlocked, live);
      PutBlockedKeepsPlan(Refuse(p, k, PreflightBlocked), Planned(k, n, true), live);
    case Unidentified => PutBlockedKeepsPlan(p, Planned(k, NoIdentity, false), live);
    case StoreFails(n) =>
      PutBlockedKeepsPlan(p, Planned(k, NoIdentity, false), live);
      RefusingKeepsPlan(p, k, RepeatInSubmission, live);
    case Candidate(n, _) =>
      RefusingKeepsPlan(p, k, RepeatInSubmission, live);
      RefusingKeepsPlan(p, k, AlreadyLive, live);
      FailingKeepsPlan(p, p.seen + Keys(n), live);
      if !Already(p.seen, n) && !IsLive(live, n) {
        PutKeepsPlan(p, k, n, live);
      }
  }

  lemma {:induction false} PlanAllKeepsPlan(p: Plan, first: nat, inputs: seq<Input>, live: set<Identity>)
    requires PlanOk(p, live) && !p.failed
    ensures PlanOk(PlanAll(p, first, inputs, live), live)
  {
    hide PlanOk, Judge;
    if inputs != [] {
      PlanAllKeepsPlan(p, first, inputs[..|inputs| - 1], live);
      var p1 := PlanAll(p, first, inputs[..|inputs| - 1], live);
      if !p1.failed {
        JudgeKeepsPlan(p1, first + |inputs| - 1, inputs[|inputs| - 1], live);
      }
    }
  }

  lemma PlanAllNext(p: Plan, first: nat, inputs: seq<Input>, live: set<Identity>, k: nat)
    requires k < |inputs|
    ensures PlanAll(p, first, inputs[..k + 1], live) ==
            var p1 := PlanAll(p, first, inputs[..k], live);
            if p1.failed then p1 else Judge(p1, first + k, inputs[k], live)
  {
    assert inputs[..k + 1][..k] == inputs[..k];
  }

  // ------------------------------------------------------------ the theorems

  /** Across the blob parts and the URIs of one submission no two unblocked planned tasks
      share a v1 or a v2 infohash, and none shares one with a live task. */
  lemma NoDuplicatePlanned(blobs: seq<Input>, uris: seq<Input>, live: set<Identity>)
    ensures var p := PlanAll(PlanAll(NoPlan, 0, blobs, live), |blobs|, uris, live);
            !PlanAll(NoPlan, 0, blobs, live).failed ==> DuplicateFree(p) && NoneLive(p, live)
  {
    assert PlanOk(NoPlan, live);
    PlanAllKeepsPlan(NoPlan, 0, blobs, live);
    hide PlanAll;
    if !PlanAll(NoPlan, 0, blobs, live).failed {
      PlanAllKeepsPlan(PlanAll(NoPlan, 0, blobs, live), |blobs|, uris, live);
    }
  }

  function PlannedFrom(ts: seq<Planned>, k: nat): nat {
    if ts == [] then 0 else PlannedFrom(ts[..|ts| - 1], k) + (if ts[|ts| - 1].source == k then 1 else 0)
  }

  function RejectedFrom(rs: seq<Rejected>, k: nat): nat {
    if rs == [] then 0 else RejectedFrom(rs[..|rs| - 1], k) + (if rs[|rs| - 1].source == k then 1 else 0)
  }

  /** One planned task or one rejection, one of each when blocked. */
  ghost predicate AnsweredOnce(p: Plan, k: nat, i: Input) {
    if i.Blocked? then PlannedFrom(p.planned, k) == 1 && RejectedFrom(p.rejected, k) == 1
    else PlannedFrom(p.planned, k) + RejectedFrom(p.rejected, k) == 1
  }

  lemma PutAnswers(p: Plan, t: Planned, k: nat)
    ensures PlannedFrom(Put(p, t).planned, k) == PlannedFrom(p.planned, k) + (if t.source == k then 1 else 0)
    ensures Put(p, t).rejected == p.rejected
  {
    assert Put(p, t).planned[..|p.planned|] == p.planned;
  }

  lemma RefuseAnswers(p: Plan, at: nat, why: Reason, k: nat)
    ensures RejectedFrom(Refuse(p, at, why).rejected, k) == RejectedFrom(p.rejected, k) + (if at == k then 1 else 0)
    ensures Refuse(p, at, why).planned == p.planned
  {
    assert Refuse(p, at, why).rejected[..|p.rejected|] == p.rejected;
  }

  lemma JudgeAnswers(p: Plan, at: nat, i: Input, live: set<Identity>, k: nat)
    requires !Judge(p, at, i, live).failed
    ensures var p' := Judge(p, at, i, live);
            && PlannedFrom(p'.planned, k) >= PlannedFrom(p.planned, k) && RejectedFrom(p'.rejected, k) >= RejectedFrom(p.rejected, k)
            && (k != at ==> PlannedFrom(p'.planned, k) == PlannedFrom(p.planned, k) && RejectedFrom(p'.rejected, k) == RejectedFrom(p.rejected, k))
            && (k == at && PlannedFrom(p.planned, k) == 0 && RejectedFrom(p.rejected, k) == 0 ==> AnsweredOnce(p', k, i))
  {
    hide PlannedFrom, RejectedFrom, IsLive, Already;
    RefuseAnswers(p, at, NotAccepted, k);
    RefuseAnswers(p, at, PreflightBlocked, k);
    RefuseAnswers(p, at, RepeatInSubmission, k);
    RefuseAnswers(p, at, AlreadyLive, k);
    match i
    case Blocked(n) => PutAnswers(Refuse(p, at, PreflightBlocked), Planned(at, n, true), k);
    case Unidentified => PutAnswers(p, Planned(at, NoIdentity, false), k);
    case StoreFails(n) => PutAnswers(p, Planned(at, n, false), k);
    case Candidate(n, _) => PutAnswers(p.(seen := p.seen + Keys(n)), Planned(at, n, false), k);
    case _ =>
  }

  /** Every input of a request that did not fail is answered exactly once. */
  lemma {:induction false} EveryInputAnsweredOnce(p: Plan, first: nat, inputs: seq<Input>, live: set<Identity>, k: nat)
    requires !PlanAll(p, first, inputs, live).failed
    requires first <= k && PlannedFrom(p.planned, k) == 0 && RejectedFrom(p.rejected, k) == 0
    ensures var p' := PlanAll(p, first, inputs, live);
            if k < first + |inputs| then AnsweredOnce(p', k, inputs[k - first])
            else PlannedFrom(p'.planned, k) == 0 && RejectedFrom(p'.rejected, k) == 0
  {
    hide Judge, PlannedFrom, RejectedFrom;
    if inputs != [] {
      var n := |inputs| - 1;
      EveryInputAnsweredOnce(p, first, inputs[..n], live, k);
      JudgeAnswers(PlanAll(p, first, inputs[..n], live), first + n, inputs[n], live, k);
    }
  }

  /** And a candidate is planned if and only if it shares no hash with a live task nor
      with an unblocked task planned before it. */
  lemma PlannedIffNew(p: Plan, k: nat, n: Identity, live: set<Identity>)
    requires PlanOk(p, live) && !p.failed
    ensures Judge(p, k, Candidate(n, true), live).planned == p.planned + [Planned(k, n, false)] <==>
            !IsLive(live, n) && forall j :: 0 <= j < |p.planned| && !p.planned[j].blocked ==> !Shares(p.planned[j].n, n)
  {
    hide PlanOk, IsLive, Shares, Keys, Already;
    AlreadyIsPlannedBefore(p, n, live);
    NoIdentityIsNew(p, live);
    assert p.planned != p.planned + [Planned(k, n, false)];
  }

  /** The hashes of a planned task that is not blocked stand for nobody else's. */
  ghost predicate PlannedBefore(p: Plan, n: Identity) {
    exists j :: 0 <= j < |p.planned| && !p.planned[j].blocked && Shares(p.planned[j].n, n)
  }

  /** Why an input is rejected in a plan that stands: not accepted at all, held by the
      preflight, a repeat of one this submission planned, or live already; None when it is
      planned, or fails the request. */
  ghost predicate Rejects(p: Plan, i: Input, live: set<Identity>, why: Reason) {
    match why
    case NotAccepted => i.Refused?
    case PreflightBlocked => i.Blocked?
    case RepeatInSubmission => (i.Candidate? || i.StoreFails?) && PlannedBefore(p, i.n)
    case AlreadyLive => i.Candidate? && !PlannedBefore(p, i.n) && IsLive(live, i.n)
  }

  lemma NoIdentityIsNew(p: Plan, live: set<Identity>)
    ensures !Already(p.seen, NoIdentity) && !PlannedBefore(p, NoIdentity) && !IsLive(live, NoIdentity)
  {
  }

  lemma RejectionsSayWhy(p: Plan, k: nat, i: Input, live: set<Identity>, why: Reason)
    requires PlanOk(p, live) && !p.failed
    ensures Judge(p, k, i, live).rejected == p.rejected + [Rejected(k, why)] <==> Rejects(p, i, live, why)
  {
    hide PlanOk, IsLive, Shares, Keys, Already, PlannedBefore;
    NoIdentityIsNew(p, live);
    if i.Candidate? || i.StoreFails? {
      AlreadyIsPlannedBefore(p, i.n, live);
    }
    OneReason(p, k, why);
  }

  lemma AlreadyIsPlannedBefore(p: Plan, n: Identity, live: set<Identity>)
    requires PlanOk(p, live) && !p.failed
    ensures Already(p.seen, n) <==> PlannedBefore(p, n)
  {
    AlreadyMeansPlanned(p, n);
  }

  lemma OneReason(p: Plan, k: nat, why: Reason)
    ensures p.rejected != p.rejected + [Rejected(k, why)]
    ensures forall other: Reason :: Refuse(p, k, other).rejected == p.rejected + [Rejected(k, why)] <==> other == why
  {
    forall other: Reason ensures Refuse(p, k, other).rejected == p.rejected + [Rejected(k, why)] <==> other == why {
      assert (p.rejected + [Rejected(k, other)])[|p.rejected|] == Rejected(k, other);
    }
  }

  /** Which inputs fail the whole request: one whose engine is missing, and one that would be
      planned but for the store or its destination. */
  lemma FailsExactly(p: Plan, k: nat, i: Input, live: set<Identity>)
    requires PlanOk(p, live) && !p.failed
    ensures Judge(p, k, i, live).failed <==>
            || i.EngineMissing?
            || (i.StoreFails? && i.n != NoIdentity && !PlannedBefore(p, i.n))
            || (i.Candidate? && !i.destinationOk && !PlannedBefore(p, i.n) && !IsLive(live, i.n))
  {
    hide PlanOk, IsLive, Shares, Keys, Already, PlannedBefore;
    NoIdentityIsNew(p, live);
    if i.Candidate? || i.StoreFails? {
      AlreadyIsPlannedBefore(p, i.n, live);
    }
  }

  lemma JudgeAppends(p: Plan, k: nat, i: Input, live: set<Identity>)
    ensures var p' := Judge(p, k, i, live);
            p'.rejected == p.rejected || exists why :: p'.rejected == p.rejected + [Rejected(k, why)]
  {
  }

  lemma {:induction false} NotRejectedYet(p: Plan, first: nat, inputs: seq<Input>, live: set<Identity>, r: Rejected)
    requires r !in p.rejected && r.source >= first + |inputs|
    ensures r !in PlanAll(p, first, inputs, live).rejected
  {
    hide Judge;
    if inputs != [] {
      var n := |inputs| - 1;
      NotRejectedYet(p, first, inputs[..n], live, r);
      JudgeAppends(PlanAll(p, first, inputs[..n], live), first + n, inputs[n], live);
    }
  }

  /** In a request that did not fail, every rejection names its true reason, and every input
      with a reason has its rejection. */
  lemma {:induction false} EveryRejectionSaysWhy(first: nat, inputs: seq<Input>, live: set<Identity>, p: Plan, k: nat, why: Reason)
    requires PlanOk(p, live) && !PlanAll(p, first, inputs, live).failed && !p.failed && k < |inputs|
    requires Rejected(first + k, why) !in p.rejected
    ensures Rejected(first + k, why) in PlanAll(p, first, inputs, live).rejected <==>
            Rejects(PlanAll(p, first, inputs[..k], live), inputs[k], live, why)
  {
    hide *;
    var n := |inputs| - 1;
    var before := PlanAll(p, first, inputs[..n], live);
    var r := Rejected(first + k, why);
    PlanAllNext(p, first, inputs, live, n);
    assert inputs[..n + 1] == inputs;
    PlanAllKeepsPlan(p, first, inputs[..n], live);
    JudgeAppends(before, first + n, inputs[n], live);
    if k < n {
      EveryRejectionSaysWhy(first, inputs[..n], live, p, k, why);
      assert inputs[..n][..k] == inputs[..k];
    } else {
      NotRejectedYet(p, first, inputs[..n], live, r);
      RejectionsSayWhy(before, first + n, inputs[n], live, why);
    }
  }
}
