/**
The planner in its own form: one duplicate set, filled in place, that the blob loop and
the URI loop of a submission share.
*/
module PlannerLoops {
  import opened Planner

  /** The seen map of one submission. */
  class Seen {
    var keys: set<string>

    constructor ()
      ensures keys == {}
    {
      keys := {};
    }

    method MarkPlanned(n: Identity)
      modifies this
      ensures keys == old(keys) + Keys(n)
    {
      if n.v1 != "" {
        keys := keys + {V1 + n.v1};
      }
      if n.v2 != "" {
        keys := keys + {V2 + n.v2};
      }
    }

    method PlannedAlready(n: Identity) returns (already: bool)
      ensures already == Already(keys, n)
    {
      if n.v1 != "" && V1 + n.v1 in keys {
        return true;
      }
      return n.v2 != "" && V2 + n.v2 in keys;
    }
  }

  /** The store's lookup over both columns. */
  method FindByInfohash(live: set<Identity>, n: Identity) returns (found: bool)
    ensures found == IsLive(live, n)
  {
    var todo := live;
    while todo != {}
      invariant todo <= live && forall row :: row in live && row !in todo ==> !Shares(n, row)
      decreases |todo|
    {
      var row :| row in todo;
      if Shares(n, row) {
        return true;
      }
      todo := todo - {row};
    }
    return false;
  }

  datatype Duplicate = Fresh | Duplicated(reason: Reason) | LookupFailed

  /** duplicateRejection */
  method DuplicateRejection(seen: Seen, n: Identity, live: set<Identity>, storeOk: bool) returns (d: Duplicate)
    ensures n == NoIdentity ==> d == Fresh
    ensures n != NoIdentity ==>
      d == if Already(seen.keys, n) then Duplicated(RepeatInSubmission)
           else if !storeOk then LookupFailed
           else if IsLive(live, n) then Duplicated(AlreadyLive) else Fresh
  {
    if n.v1 == "" && n.v2 == "" {
      return Fresh;
    }
    var already := seen.PlannedAlready(n);
    if already {
      return Duplicated(RepeatInSubmission);
    }
    if !storeOk {
      return LookupFailed;
    }
    var found := FindByInfohash(live, n);
    return if found then Duplicated(AlreadyLive) else Fresh;
  }

  /** The loop over one family of inputs, whose first has number first. */
  method PlanInputs(seen: Seen, first: nat, inputs: seq<Input>, live: set<Identity>, ghost p0: Plan)
    returns (planned: seq<Planned>, rejected: seq<Rejected>, failed: bool)
    requires seen.keys == p0.seen && !p0.failed
    modifies seen
    ensures var p := PlanAll(p0, first, inputs, live);
            failed == p.failed && seen.keys == p.seen && p0.planned + planned == p.planned && p0.rejected + rejected == p.rejected
  {
    planned, rejected, failed := [], [], false;
    ghost var p := p0;
    assert PlanAll(p0, first, inputs[..0], live) == p0;
    hide PlanAll;
    for i := 0 to |inputs|
      invariant p == PlanAll(p0, first, inputs[..i], live) && !p.failed && !failed
      invariant seen.keys == p.seen && p0.planned + planned == p.planned && p0.rejected + rejected == p.rejected
    {
      PlanAllNext(p0, first, inputs, live, i);
      p := Judge(p, first + i, inputs[i], live);
      if p.failed {
        PlanStops(p0, first, inputs, live, i + 1);
      }
      match inputs[i] {
        case Refused =>
          rejected := rejected + [Rejected(first + i, NotAccepted)];
        case EngineMissing =>
          return planned, rejected, true;
        case Blocked(n) =>
          rejected := rejected + [Rejected(first + i, PreflightBlocked)];
          planned := planned + [Planned(first + i, n, true)];
        case Unidentified =>
          planned := planned + [Planned(first + i, NoIdentity, false)];
        case StoreFails(n) =>
          var duplicate := DuplicateRejection(seen, n, live, false);
          if duplicate.LookupFailed? {
            return planned, rejected, true;
          }
          if duplicate.Duplicated? {
            rejected := rejected + [Rejected(first + i, duplicate.reason)];
          } else {
            seen.MarkPlanned(n);
            planned := planned + [Planned(first + i, n, false)];
          }
        case Candidate(n, destinationOk) =>
          var duplicate := DuplicateRejection(seen, n, live, true);
          if duplicate.Duplicated? {
            rejected := rejected + [Rejected(first + i, duplicate.reason)];
          } else {
            seen.MarkPlanned(n);
            if !destinationOk {
              return planned, rejected, true;
            }
            planned := planned + [Planned(first + i, n, false)];
          }
      }
    }
    assert inputs[..|inputs|] == inputs;
  }

  lemma {:induction false} PlanStops(p: Plan, first: nat, inputs: seq<Input>, live: set<Identity>, k: nat)
    requires k <= |inputs| && PlanAll(p, first, inputs[..k], live).failed
    ensures PlanAll(p, first, inputs, live) == PlanAll(p, first, inputs[..k], live)
    decreases |inputs| - k
  {
    if k == |inputs| {
      assert inputs[..k] == inputs;
    } else {
      PlanAllNext(p, first, inputs, live, k);
      PlanStops(p, first, inputs, live, k + 1);
    }
  }

  /** Blob parts first, then URIs, over one shared set; the tasks of the URIs lead. */
  method PlanSubmission(blobs: seq<Input>, uris: seq<Input>, live: set<Identity>)
    returns (planned: seq<Planned>, rejected: seq<Rejected>, failed: bool)
    ensures var p1 := PlanAll(NoPlan, 0, blobs, live); failed == (p1.failed || PlanAll(p1, |blobs|, uris, live).failed)
    ensures !failed ==>
      var p := PlanAll(PlanAll(NoPlan, 0, blobs, live), |blobs|, uris, live);
      && multiset(planned) == multiset(p.planned) && rejected == p.rejected
      && (forall i, j :: 0 <= i < |planned| && 0 <= j < |planned| && i != j && !planned[i].blocked && !planned[j].blocked ==>
            !Shares(planned[i].n, planned[j].n))
      && (forall j :: 0 <= j < |planned| && !planned[j].blocked ==> !IsLive(live, planned[j].n))
  {
    var seen := new Seen();
    ghost var p1 := PlanAll(NoPlan, 0, blobs, live);
    var blobPlanned, blobRejected, blobFailed := PlanInputs(seen, 0, blobs, live, NoPlan);
    if blobFailed {
      return [], [], true;
    }
    assert NoPlan.planned + blobPlanned == blobPlanned;
    var uriPlanned, uriRejected, uriFailed := PlanInputs(seen, |blobs|, uris, live, p1);
    if uriFailed {
      return [], [], true;
    }
    planned, rejected, failed := uriPlanned + blobPlanned, blobRejected + uriRejected, false;
    NoDuplicatePlanned(blobs, uris, live);
    ghost var p := PlanAll(p1, |blobs|, uris, live);
    hide PlanAll, Shares, IsLive;
    Swapped(blobPlanned, uriPlanned, p, live);
    assert NoPlan.rejected + blobRejected == blobRejected;
  }

  lemma SharesBothWays(a: Identity, b: Identity)
    ensures Shares(a, b) <==> Shares(b, a)
  {
  }

  /** Putting the URIs' tasks in front changes nothing about duplicates. */
  lemma Swapped(a: seq<Planned>, b: seq<Planned>, p: Plan, live: set<Identity>)
    requires p.planned == a + b && DuplicateFree(p) && NoneLive(p, live)
    ensures multiset(b + a) == multiset(p.planned)
    ensures forall i, j :: 0 <= i < |b + a| && 0 <= j < |b + a| && i != j && !(b + a)[i].blocked && !(b + a)[j].blocked ==>
              !Shares((b + a)[i].n, (b + a)[j].n)
    ensures forall j :: 0 <= j < |b + a| && !(b + a)[j].blocked ==> !IsLive(live, (b + a)[j].n)
  {
    hide Shares, IsLive;
    forall i, j | 0 <= i < |b + a| && 0 <= j < |b + a| && i != j && !(b + a)[i].blocked && !(b + a)[j].blocked
      ensures !Shares((b + a)[i].n, (b + a)[j].n) {
      var k := if i < |b| then |a| + i else i - |b|;
      var l := if j < |b| then |a| + j else j - |b|;
      assert p.planned[k] == (b + a)[i] && p.planned[l] == (b + a)[j];
      SharesBothWays((b + a)[i].n, (b + a)[j].n);
      assert k < l || l < k;
    }
    forall j | 0 <= j < |b + a| && !(b + a)[j].blocked ensures !IsLive(live, (b + a)[j].n) {
      var l := if j < |b| then |a| + j else j - |b|;
      assert p.planned[l] == (b + a)[j];
    }
  }
}
