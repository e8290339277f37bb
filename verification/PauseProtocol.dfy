/**
The operator pause against the admission pass and the disk-space guard, on one task.

Any number of actors interleave; one event is one store transaction, one engine call or
one lease operation, so everything the source leaves outside the lease, the guard's
read-check-write included, can be cut anywhere.  An answer the model gives no event for,
such as a store error, is a run that leaves the operation there or ends it with Quit.
The lease is the exclusion that LeaseTable.MutualExclusion proves of the registry.
*/
module PauseProtocol {
  import opened Options
  import opened TaskRow

  type Actor = nat

  /** How far one operation on the task has come.  "parked" is the state of the snapshot
      that selected the candidate; "since" is the number of foreign writes that the pass's
      revalidation or the pause's reload had seen; a guard's write is not one. */
  datatype Proc =
    | Idle
    | PassSelected(parked: bool) | PassLeased(parked: bool) | PassCurrent(parked: bool, since: nat) | PassReleasing
    | PauseWaiting | PauseLeased | PauseLoaded(wasPaused: bool, since: nat) | PauseLanded(since: nat) | PauseCleared(since: nat)
    | GuardParked | GuardActive
  {
    predicate HasLease() {
      PassLeased? || PassCurrent? || PassReleasing? || PauseLeased? || PauseLoaded? || PauseLanded? || PauseCleared?
    }
  }

  datatype World = World(row: Option<Row>, lease: Option<Actor>, procs: map<Actor, Proc>, foreign: nat) {
    function Proc(a: Actor): Proc {
      if a in procs then procs[a] else Idle
    }

    predicate RowIs(s: TaskState) {
      row.Some? && row.value.state == s
    }
  }

  datatype Event =
    | Select(a: Actor) | TryLease(a: Actor) | Revalidate(a: Actor)
    | Stamp(a: Actor, code: Code) | Claim(a: Actor) | Submit(a: Actor)
    | Start(a: Actor) | Move(a: Actor, next: TaskState) | Mark(a: Actor) | ClearHold(a: Actor)
    | Quit(a: Actor)
    | AskPause(a: Actor) | TakeLease(a: Actor) | Reload(a: Actor) | Land(a: Actor) | TakeOver(a: Actor) | AnswerOk(a: Actor)
    | GuardReads(a: Actor) | GuardWrites(a: Actor)
    | Foreign(row: Option<Row>)

  predicate Enabled(w: World, e: Event) {
    match e
    case Select(a) => w.Proc(a).Idle? && w.row.Some? && Selectable(w.row.value)
    case TryLease(a) => w.Proc(a).PassSelected? && w.lease.None?
    case Revalidate(a) => w.Proc(a).PassLeased?
    case Stamp(a, code) => w.Proc(a).PassCurrent? && w.row.Some? && code in HoldCodes && (w.Proc(a).parked ==> code == DiskFull)
    case Claim(a) => w.Proc(a).PassCurrent? && w.Proc(a).parked && w.row.Some? && ClaimTakes(w.row.value)
    case Submit(a) => w.Proc(a).PassCurrent? && !w.Proc(a).parked
    case Start(a) => w.Proc(a).PassReleasing?
    case Move(a, next) => w.Proc(a).PassReleasing? && w.row.Some? && next in {Downloading, Queued, Failed} && Legal(w.row.value.state, next)
    case Mark(a) => w.Proc(a).PassReleasing? && w.RowIs(Queued)
    case ClearHold(a) => w.Proc(a).PassReleasing? && w.row.Some?
    case Quit(a) => true
    case AskPause(a) => w.Proc(a).Idle?
    case TakeLease(a) => w.Proc(a).PauseWaiting? && w.lease.None?
    case Reload(a) => w.Proc(a).PauseLeased? && w.row.Some?
    case Land(a) => w.Proc(a).PauseLoaded? && !w.Proc(a).wasPaused && w.row.Some? && Legal(w.row.value.state, Paused)
    case TakeOver(a) => w.row.Some? && (w.Proc(a).PauseLanded? || (w.Proc(a).PauseLoaded? && w.Proc(a).wasPaused))
    case AnswerOk(a) => w.Proc(a).PauseCleared?
    case GuardReads(a) => w.Proc(a).Idle? && w.row.Some?
    case GuardWrites(a) => w.Proc(a).GuardParked? || w.Proc(a).GuardActive?
    case Foreign(_) => true
  }

  /** candidateStillCurrent */
  predicate StillCurrent(parked: bool, row: Option<Row>) {
    && row.Some?
    && (if parked then row.value.state == Paused && row.value.code == DiskFull else row.value.state == Queued)
  }

  function At(w: World, a: Actor, p: Proc): World {
    w.(procs := w.procs[a := p])
  }

  /** The operation ends and its deferred release runs. */
  function Done(w: World, a: Actor): World {
    w.(procs := w.procs[a := Idle], lease := if w.lease == Some(a) then None else w.lease)
  }

  function OnRow(w: World, row: Row): World {
    w.(row := Some(row))
  }

  /** What PauseDiskFull writes once it has decided by its read. */
  function GuardResult(p: Proc, row: Option<Row>): Option<Row> {
    if row.None? then None
    else if p.GuardParked? then Some(StampedIfState(row.value, Paused, DiskFull))
    else Some(PausedWithCode(row.value, DiskFull))
  }

  function Next(w: World, e: Event): World {
    if !Enabled(w, e) then w else
    match e
    case Select(a) => At(w, a, PassSelected(w.row.value.state == Paused))
    case TryLease(a) => At(w, a, PassLeased(w.Proc(a).parked)).(lease := Some(a))
    case Revalidate(a) => if StillCurrent(w.Proc(a).parked, w.row) then At(w, a, PassCurrent(w.Proc(a).parked, w.foreign)) else Done(w, a)
    case Stamp(a, code) => Done(OnRow(w, StampedIfState(w.row.value, if w.Proc(a).parked then Paused else Queued, code)), a)
    case Claim(a) => At(w, a, PassReleasing)
    case Submit(a) => At(w, a, PassReleasing)
    case Start(a) => w
    case Move(a, next) => OnRow(w, Transitioned(w.row.value, next))
    case Mark(a) => OnRow(w, Marked(w.row.value))
    case ClearHold(a) => OnRow(w, HoldCodeCleared(w.row.value))
    case Quit(a) => Done(w, a)
    case AskPause(a) => At(w, a, PauseWaiting)
    case TakeLease(a) => At(w, a, PauseLeased).(lease := Some(a))
    case Reload(a) => At(w, a, PauseLoaded(w.row.value.state == Paused, w.foreign))
    case Land(a) => At(OnRow(w, Transitioned(w.row.value, Paused)), a, PauseLanded(w.Proc(a).since))
    case TakeOver(a) => At(OnRow(w, PausedHoldCodeCleared(w.row.value)), a, PauseCleared(w.Proc(a).since))
    case AnswerOk(a) => Done(w, a)
    case GuardReads(a) =>
      if ClaimTakes(w.row.value) then At(w, a, GuardParked)
      else if w.row.value.state in Active then At(w, a, GuardActive)
      else w
    case GuardWrites(a) =>
      At(w, a, Idle).(row := GuardResult(w.Proc(a), w.row))
    case Foreign(row) => w.(row := row, foreign := w.foreign + 1)
  }

  function Run(w: World, es: seq<Event>): World {
    if es == [] then w else Next(Run(w, es[..|es| - 1]), es[|es| - 1])
  }

  function Start0(row: Option<Row>): World {
    World(row, None, map[], 0)
  }

  // -------------------------------------------------------------- invariant

  ghost predicate ActorInv(w: World, a: Actor) {
    var p := w.Proc(a);
    && (p.HasLease() <==> w.lease == Some(a))
    && ((p.PauseLanded? || (p.PauseLoaded? && p.wasPaused)) && p.since == w.foreign ==> w.RowIs(Paused))
    && (p.PauseCleared? && p.since == w.foreign ==> w.RowIs(Paused) && w.row.value.code != ConcurrencyLimit)
    && (p.PassCurrent? && p.since == w.foreign ==> SelectedRow(w, p.parked))
    && (p.PassCurrent? || p.PauseLoaded? || p.PauseLanded? || p.PauseCleared? ==> p.since <= w.foreign)
  }

  /** The row is what a pass selects: queued, or paused for disk space. */
  predicate SelectedRow(w: World, parked: bool) {
    if parked then w.RowIs(Paused) && w.row.value.code == DiskFull else w.RowIs(Queued)
  }

  ghost predicate Inv(w: World) {
    forall a: Actor :: ActorInv(w, a)
  }

  lemma OwnStepKeepsActor(w: World, e: Event)
    requires !e.Foreign? && ActorInv(w, e.a)
    ensures ActorInv(Next(w, e), e.a)
  {
  }

  lemma OtherStepKeepsActor(w: World, e: Event, a: Actor)
    requires ActorInv(w, a)
    requires e.Foreign? || (e.a != a && ActorInv(w, e.a))
    ensures ActorInv(Next(w, e), a)
  {
  }

  lemma {:induction false} Reachable(row: Option<Row>, es: seq<Event>)
    ensures Inv(Run(Start0(row), es))
  {
    if es != [] {
      Reachable(row, es[..|es| - 1]);
      var w, e := Run(Start0(row), es[..|es| - 1]), es[|es| - 1];
      forall a: Actor ensures ActorInv(Next(w, e), a) {
        assert ActorInv(w, a);
        if !e.Foreign? && e.a == a {
          OwnStepKeepsActor(w, e);
        } else {
          assert e.Foreign? || ActorInv(w, e.a);
          OtherStepKeepsActor(w, e, a);
        }
      }
    }
  }

  // ------------------------------------------------------- what a pause buys

  /** A step by which a pass starts the transfer, claims or stamps the row, or moves it. */
  predicate PassActs(w: World, e: Event) {
    && Enabled(w, e)
    && (e.Stamp? || e.Claim? || e.Submit? || e.Start? || e.Move? || e.Mark? || e.ClearHold?)
  }

  /** No operator, schedule or reconciler write: nobody requeues the task. */
  ghost predicate NoForeign(es: seq<Event>) {
    forall k :: 0 <= k < |es| ==> !es[k].Foreign?
  }

  ghost predicate ActsAt(w: World, es: seq<Event>, k: nat) {
    k < |es| && PassActs(Run(w, es[..k]), es[k])
  }

  ghost predicate PassCanAct(w: World) {
    exists es: seq<Event>, k: nat :: NoForeign(es) && ActsAt(w, es, k)
  }

  /** The states no pass selects and no guard pauses. */
  const Resting: set<TaskState> := {Paused, Seeding, Completed, Failed}

  /** Nothing short of a foreign write brings the row back, and nobody is past the check
      that would notice. */
  ghost predicate Dormant(w: World) {
    && (w.row.None? || w.RowIs(Removed)
        || (w.row.value.state in Resting && w.row.value.code != DiskFull && forall a: Actor :: !w.Proc(a).GuardParked?))
    && forall a: Actor :: !w.Proc(a).PassCurrent? && !w.Proc(a).PassReleasing?
  }

  lemma DormantStep(w: World, e: Event)
    requires Dormant(w) && !e.Foreign?
    ensures Dormant(Next(w, e)) && !PassActs(w, e)
  {
    var w' := Next(w, e);
    assert !w.Proc(e.a).PassCurrent? && !w.Proc(e.a).PassReleasing?;
    forall a: Actor ensures !w'.Proc(a).PassCurrent? && !w'.Proc(a).PassReleasing? {
      assert a != e.a ==> w'.Proc(a) == w.Proc(a);
    }
    if w.row.Some? && !w.RowIs(Removed) {
      assert w'.row.value.state in Resting && w'.row.value.code != DiskFull;
      forall a: Actor ensures !w'.Proc(a).GuardParked? {
        assert !w.Proc(a).GuardParked? && (a != e.a ==> w'.Proc(a) == w.Proc(a));
      }
    }
  }

  lemma {:induction false} DormantRun(w: World, es: seq<Event>)
    requires Dormant(w) && NoForeign(es)
    ensures Dormant(Run(w, es))
  {
    if es != [] {
      DormantRun(w, es[..|es| - 1]);
      DormantStep(Run(w, es[..|es| - 1]), es[|es| - 1]);
    }
  }

  /** Between its revalidation and its first action a pass has the row it was selected for,
      in every interleaving, unless a foreign write crossed it: a queued one it will submit,
      a parked one it will claim, and it stamps no other. */
  lemma PassHasItsRow(row: Option<Row>, es: seq<Event>, a: Actor)
    requires var w := Run(Start0(row), es); w.Proc(a).PassCurrent? && w.Proc(a).since == w.foreign
    ensures var w := Run(Start0(row), es);
            && w.row.Some?
            && (if w.Proc(a).parked then w.row.value.state == Paused && w.row.value.code == DiskFull else w.row.value.state == Queued)
  {
    Reachable(row, es);
    assert ActorInv(Run(Start0(row), es), a);
  }

  /** A pass stamps the row it selected and no other: with a queued snapshot a queued row,
      never one that was paused in the meantime, which the next pass would then resume. */
  lemma StampsItsOwnRow(w: World, a: Actor, code: Code)
    requires Enabled(w, Stamp(a, code))
    ensures var w' := Next(w, Stamp(a, code));
            w'.row == Some(if w.row.value.state == (if w.Proc(a).parked then Paused else Queued) then w.row.value.(code := code)
                           else w.row.value)
  {
  }

  /** An operator pause that answered ok, and that no foreign write crossed since its
      reload, leaves a paused row with the lease free and no pass anywhere between its
      revalidation and the end of its release.  The only hold code the row can carry is a
      disk_full that a guard wrote behind the takeover. */
  lemma PauseTakesOver(row: Option<Row>, es: seq<Event>, a: Actor)
    requires var w := Run(Start0(row), es); Enabled(w, AnswerOk(a)) && w.Proc(a).since == w.foreign
    ensures var w := Run(Start0(row), es + [AnswerOk(a)]);
            && w.RowIs(Paused) && w.row.value.code != ConcurrencyLimit && w.lease.None?
            && forall b: Actor :: !w.Proc(b).HasLease()
  {
    var w := Run(Start0(row), es);
    var w' := Run(Start0(row), es + [AnswerOk(a)]);
    assert (es + [AnswerOk(a)])[..|es|] == es;
    Reachable(row, es);
    Reachable(row, es + [AnswerOk(a)]);
    assert ActorInv(w, a);
    forall b: Actor ensures !w'.Proc(b).HasLease() {
      assert ActorInv(w', b);
    }
  }

  /** Which tasks a pass can get at without anybody requeueing them, exactly, in every
      interleaving that leaves the lease free: those queued, those active, which a guard may
      park, and of the others all but removed ones that carry disk_full, or over which a
      guard is between its read of the parked pair and its write. */
  lemma StartableExactly(row: Option<Row>, es: seq<Event>)
    requires Run(Start0(row), es).lease.None?
    ensures var w := Run(Start0(row), es);
            PassCanAct(w) <==>
            && w.row.Some? && w.row.value.state != Removed
            && (w.row.value.state == Queued || w.row.value.state in Active || w.row.value.code == DiskFull
                || exists g: Actor :: w.Proc(g).GuardParked?)
  {
    var w := Run(Start0(row), es);
    Reachable(row, es);
    var a := IdleActor(w);
    if w.row.None? || w.RowIs(Removed) {
      DormantStays(w);
    } else if w.RowIs(Queued) {
      QueuedRowIsStarted(w, a);
    } else if w.row.value.state in Active {
      ActiveRowIsParked(w, a);
    } else if w.row.value.code == DiskFull {
      CodedRowIsStarted(w, a);
    } else if g: Actor :| w.Proc(g).GuardParked? {
      GuardedRowIsStarted(w, a, g);
    } else {
      DormantStays(w);
    }
  }

  lemma DormantStays(w: World)
    requires Inv(w) && w.lease.None?
    requires w.row.None? || w.RowIs(Removed)
             || (w.row.value.state in Resting && w.row.value.code != DiskFull && forall a: Actor :: !w.Proc(a).GuardParked?)
    ensures !PassCanAct(w)
  {
    forall a: Actor ensures !w.Proc(a).PassCurrent? && !w.Proc(a).PassReleasing? {
      assert ActorInv(w, a);
    }
    if PassCanAct(w) {
      var rest: seq<Event>, k: nat :| NoForeign(rest) && ActsAt(w, rest, k);
      DormantRun(w, rest[..k]);
      DormantStep(Run(w, rest[..k]), rest[k]);
    }
  }

  /** So an operator's pause holds exactly when no guard is late. */
  lemma PauseHoldsUnlessGuardInFlight(row: Option<Row>, es: seq<Event>)
    requires var w := Run(Start0(row), es); w.RowIs(Paused) && w.row.value.code != DiskFull && w.lease.None?
    ensures var w := Run(Start0(row), es); PassCanAct(w) <==> exists g: Actor :: w.Proc(g).GuardParked?
  {
    StartableExactly(row, es);
  }

  /** The two together, for every interleaving that brings an operator pause to its ok with
      no foreign write since its reload: from there on, until somebody requeues the task,
      no pass starts its transfer, claims it, stamps it or moves it, if and only if no
      guard has stamped the row since the takeover and none is between its read and its
      write at that moment. */
  lemma AnsweredPauseHolds(row: Option<Row>, es: seq<Event>, a: Actor)
    requires var w := Run(Start0(row), es); Enabled(w, AnswerOk(a)) && w.Proc(a).since == w.foreign
    ensures var w := Run(Start0(row), es + [AnswerOk(a)]);
            && w.row.Some?
            && ((forall rest: seq<Event>, k: nat :: NoForeign(rest) ==> !ActsAt(w, rest, k))
                <==> w.row.value.code != DiskFull && forall g: Actor :: !w.Proc(g).GuardParked?)
  {
    PauseTakesOver(row, es, a);
    var w := Run(Start0(row), es + [AnswerOk(a)]);
    assert (es + [AnswerOk(a)])[..|es|] == es;
    if w.row.value.code == DiskFull {
      ParkedRowIsStarted(w, a);
    } else {
      PauseHoldsUnlessGuardInFlight(row, es + [AnswerOk(a)]);
    }
  }

  /** Every guard writes in the step after its read. */
  ghost predicate AtomicGuards(es: seq<Event>) {
    forall k :: 0 <= k < |es| && es[k].GuardReads? ==> k + 1 < |es| && es[k + 1] == GuardWrites(es[k].a)
  }

  lemma OnlyReadsPark(w: World, e: Event, g: Actor)
    requires Next(w, e).Proc(g).GuardParked?
    ensures e == GuardReads(g) || (w.Proc(g).GuardParked? && e != GuardWrites(g))
  {
  }

  lemma {:induction false} GuardParkedSinceLastStep(row: Option<Row>, es: seq<Event>, k: nat, g: Actor)
    requires AtomicGuards(es) && k <= |es| && Run(Start0(row), es[..k]).Proc(g).GuardParked?
    ensures k > 0 && es[k - 1] == GuardReads(g)
  {
    if k > 0 {
      RunNext(Start0(row), es, k - 1);
      var w := Run(Start0(row), es[..k - 1]);
      hide Run;
      if w.Proc(g).GuardParked? {
        GuardParkedSinceLastStep(row, es, k - 1, g);
      }
      OnlyReadsPark(w, es[k - 1], g);
    }
  }

  /** With the guard's read, check and write in one step a pause always holds. */
  lemma PauseHoldsWithAtomicGuards(row: Option<Row>, es: seq<Event>)
    requires AtomicGuards(es)
    requires var w := Run(Start0(row), es); w.RowIs(Paused) && w.row.value.code != DiskFull && w.lease.None?
    ensures !PassCanAct(Run(Start0(row), es))
  {
    PauseHoldsUnlessGuardInFlight(row, es);
    assert es[..|es|] == es;
    forall g: Actor ensures !Run(Start0(row), es).Proc(g).GuardParked? {
      if Run(Start0(row), es).Proc(g).GuardParked? {
        GuardParkedSinceLastStep(row, es, |es|, g);
      }
    }
  }

  /** One step into or within a pause's time between its takeover and its answer. */
  lemma CleanStep(w: World, e: Event, a: Actor)
    requires ActorInv(w, a) && (!e.Foreign? ==> ActorInv(w, e.a)) && Next(w, e).Proc(a).PauseCleared?
    requires Next(w, e).Proc(a).since == Next(w, e).foreign
    requires w.Proc(a).PauseCleared? && w.Proc(a).since == w.foreign ==> w.row.Some? && w.row.value.code != DiskFull
    requires e.GuardWrites? && w.Proc(e.a).GuardParked? ==> w.row.Some? && ClaimTakes(w.row.value)
    ensures Next(w, e).row.Some? && Next(w, e).row.value.code != DiskFull
  {
  }

  /** Without a late guard nothing stamps the row between the takeover and the answer. */
  lemma {:induction false} ClearedStaysClean(row: Option<Row>, es: seq<Event>, k: nat, a: Actor)
    requires AtomicGuards(es) && k <= |es|
    requires var w := Run(Start0(row), es[..k]); w.Proc(a).PauseCleared? && w.Proc(a).since == w.foreign
    ensures var w := Run(Start0(row), es[..k]); w.row.Some? && w.row.value.code != DiskFull
  {
    assert k > 0 by { assert es[..0] == []; }
    RunNext(Start0(row), es, k - 1);
    var w, e := Run(Start0(row), es[..k - 1]), es[k - 1];
    Reachable(row, es[..k - 1]);
    assert ActorInv(w, a) && (!e.Foreign? ==> ActorInv(w, e.a));
    if w.Proc(a).PauseCleared? && w.Proc(a).since == w.foreign {
      ClearedStaysClean(row, es, k - 1, a);
    }
    if e.GuardWrites? && w.Proc(e.a).GuardParked? {
      GuardSeesTheStamp(row, es, k - 1, e.a);
    }
    hide *;
    CleanStep(w, e, a);
  }

  /** A guard about to stamp a parked row in the step after its read sees the stamp still. */
  lemma GuardSeesTheStamp(row: Option<Row>, es: seq<Event>, k: nat, g: Actor)
    requires AtomicGuards(es) && k <= |es| && Run(Start0(row), es[..k]).Proc(g).GuardParked?
    ensures Run(Start0(row), es[..k]).row.Some? && ClaimTakes(Run(Start0(row), es[..k]).row.value)
  {
    GuardParkedSinceLastStep(row, es, k, g);
    RunNext(Start0(row), es, k - 1);
    if Run(Start0(row), es[..k - 1]).Proc(g).GuardParked? {
      GuardParkedSinceLastStep(row, es, k - 1, g);
      assert false;
    }
  }

  /** With the guard's read, check and write in one step, an operator pause that answered
      ok always holds: no pass acts on the task until somebody requeues it. */
  lemma AnsweredPauseHoldsWithAtomicGuards(row: Option<Row>, es: seq<Event>, a: Actor)
    requires AtomicGuards(es)
    requires var w := Run(Start0(row), es); Enabled(w, AnswerOk(a)) && w.Proc(a).since == w.foreign
    ensures !PassCanAct(Run(Start0(row), es + [AnswerOk(a)]))
  {
    var es' := es + [AnswerOk(a)];
    assert es'[..|es|] == es && es[..|es|] == es;
    PauseTakesOver(row, es, a);
    ClearedStaysClean(row, es, |es|, a);
    PauseHoldsWithAtomicGuards(row, es');
  }

  lemma RunNext(w: World, es: seq<Event>, k: nat)
    requires k < |es|
    ensures Run(w, es[..k + 1]) == Next(Run(w, es[..k]), es[k])
  {
    assert es[..k + 1][..k] == es[..k];
  }

  lemma {:induction false} RunConcat(w: World, es: seq<Event>, fs: seq<Event>)
    ensures Run(w, es + fs) == Run(Run(w, es), fs)
  {
    if fs == [] {
      assert es + fs == es;
    } else {
      RunConcat(w, es, fs[..|fs| - 1]);
      assert (es + fs)[..|es + fs| - 1] == es + fs[..|fs| - 1];
    }
  }

  lemma CanActEarlier(w: World, e: Event)
    requires !e.Foreign? && PassCanAct(Next(w, e))
    ensures PassCanAct(w)
  {
    var es: seq<Event>, k: nat :| NoForeign(es) && ActsAt(Next(w, e), es, k);
    assert Run(w, [e]) == Next(w, e) by { assert [e][..0] == []; }
    RunConcat(w, [e], es[..k]);
    assert ([e] + es)[..k + 1] == [e] + es[..k];
    assert ActsAt(w, [e] + es, k + 1);
  }

  lemma ReleasingPassCanAct(w: World, g: Actor)
    requires w.Proc(g).PassReleasing?
    ensures PassCanAct(w)
  {
    var es := [Event.Start(g)];
    assert es[..0] == [];
    assert ActsAt(w, es, 0);
  }

  /** A paused row that carries disk_full and is free to lease will be started. */
  lemma ParkedRowIsStarted(w: World, g: Actor)
    requires w.row.Some? && ClaimTakes(w.row.value) && w.lease.None? && w.Proc(g).Idle?
    ensures PassCanAct(w)
  {
    var w1 := Next(w, Select(g));
    var w2 := Next(w1, TryLease(g));
    var w3 := Next(w2, Revalidate(g));
    var w4 := Next(w3, Claim(g));
    assert w1.Proc(g) == PassSelected(true);
    assert w2.Proc(g) == PassLeased(true);
    assert w3.Proc(g) == PassCurrent(true, w.foreign);
    ReleasingPassCanAct(w4, g);
    CanActEarlier(w3, Claim(g));
    CanActEarlier(w2, Revalidate(g));
    CanActEarlier(w1, TryLease(g));
    CanActEarlier(w, Select(g));
  }

  lemma QueuedRowIsStarted(w: World, g: Actor)
    requires w.RowIs(Queued) && w.lease.None? && w.Proc(g).Idle?
    ensures PassCanAct(w)
  {
    var w1 := Next(w, Select(g));
    var w2 := Next(w1, TryLease(g));
    var w3 := Next(w2, Revalidate(g));
    assert w1.Proc(g) == PassSelected(false);
    assert w2.Proc(g) == PassLeased(false);
    assert w3.Proc(g) == PassCurrent(false, w.foreign);
    ReleasingPassCanAct(Next(w3, Submit(g)), g);
    CanActEarlier(w3, Submit(g));
    CanActEarlier(w2, Revalidate(g));
    CanActEarlier(w1, TryLease(g));
    CanActEarlier(w, Select(g));
  }

  /** A guard parks an active task, and the next pass starts it. */
  lemma ActiveRowIsParked(w: World, g: Actor)
    requires w.row.Some? && w.row.value.state in Active && w.lease.None? && w.Proc(g).Idle?
    ensures PassCanAct(w)
  {
    var w1 := Next(w, GuardReads(g));
    assert w1.Proc(g).GuardActive?;
    ParkedRowIsStarted(Next(w1, GuardWrites(g)), g);
    CanActEarlier(w1, GuardWrites(g));
    CanActEarlier(w, GuardReads(g));
  }

  /** An operator's pause that ends between its move and its takeover parks the row. */
  lemma CodedRowIsStarted(w: World, g: Actor)
    requires w.row.Some? && w.row.value.state != Removed && w.row.value.code == DiskFull && w.lease.None? && w.Proc(g).Idle?
    ensures PassCanAct(w)
  {
    hide Next, Enabled, PassCanAct;
    if w.RowIs(Paused) {
      ParkedRowIsStarted(w, g);
    } else {
      LandedAndQuit(w, g, g);
      ParkedRowIsStarted(Next(LandedPause(w, g), Quit(g)), g);
      CanActEarlier(LandedPause(w, g), Quit(g));
      LandedPauseIsEarlier(w, g);
    }
  }

  /** Whatever the row's state is, a pause and then the late write bring it back. */
  lemma GuardedRowIsStarted(w: World, a: Actor, g: Actor)
    requires w.row.Some? && w.row.value.state != Removed && w.lease.None? && w.Proc(a).Idle? && w.Proc(g).GuardParked?
    ensures PassCanAct(w)
  {
    hide Next, Enabled, PassCanAct;
    if w.RowIs(Paused) {
      LateGuardReopens(w, g);
    } else {
      LandedAndQuit(w, a, g);
      LateGuardReopens(Next(LandedPause(w, a), Quit(a)), g);
      CanActEarlier(LandedPause(w, a), Quit(a));
      LandedPauseIsEarlier(w, a);
    }
  }

  function LandedPause(w: World, a: Actor): World {
    Next(Next(Next(Next(w, AskPause(a)), TakeLease(a)), Reload(a)), Land(a))
  }

  /** The pause is left where it landed: the row is paused with its code, the lease free. */
  lemma LandedAndQuit(w: World, a: Actor, g: Actor)
    requires w.row.Some? && Legal(w.row.value.state, Paused) && w.lease.None? && w.Proc(a).Idle?
    ensures var w' := Next(LandedPause(w, a), Quit(a));
            && w'.RowIs(Paused) && w'.row.value.code == w.row.value.code && w'.lease.None? && w'.Proc(a).Idle?
            && (g != a ==> w'.Proc(g) == w.Proc(g))
  {
  }

  lemma LandedPauseIsEarlier(w: World, a: Actor)
    requires PassCanAct(LandedPause(w, a))
    ensures PassCanAct(w)
  {
    hide *;
    var w1 := Next(w, AskPause(a));
    var w2 := Next(w1, TakeLease(a));
    var w3 := Next(w2, Reload(a));
    LandedPauseIs(w, a);
    CanActEarlier(w3, Land(a));
    CanActEarlier(w2, Reload(a));
    CanActEarlier(w1, TakeLease(a));
    CanActEarlier(w, AskPause(a));
  }

  lemma LandedPauseIs(w: World, a: Actor)
    ensures LandedPause(w, a) == Next(Next(Next(Next(w, AskPause(a)), TakeLease(a)), Reload(a)), Land(a))
  {
  }

  lemma IdleActor(w: World) returns (a: Actor)
    ensures w.Proc(a).Idle?
  {
    a := AboveAll(w.procs.Keys);
    assert a !in w.procs;
  }

  lemma {:induction false} AboveAll(s: set<Actor>) returns (a: Actor)
    ensures forall b :: b in s ==> b < a
    decreases |s|
  {
    if s == {} {
      a := 0;
    } else {
      var b :| b in s;
      var c := AboveAll(s - {b});
      a := if c > b then c else b + 1;
      assert forall x :: x in s ==> x == b || x in s - {b};
    }
  }

  /** The late stamp makes the row a parked one again, and the next pass starts it. */
  lemma LateGuardReopens(w: World, g: Actor)
    requires w.RowIs(Paused) && w.lease.None? && w.Proc(g).GuardParked?
    ensures PassCanAct(w)
  {
    ParkedRowIsStarted(Next(w, GuardWrites(g)), g);
    CanActEarlier(w, GuardWrites(g));
  }

  /** The condition on foreign writes is needed: a requeue gives the task to the next pass. */
  lemma RequeueReopens(w: World, row: Row)
    requires row.state == Queued && w.lease.None?
    ensures PassCanAct(Next(w, Foreign(Some(row)))) && Next(w, Foreign(Some(row))).foreign > w.foreign
  {
    var a := IdleActor(w);
    QueuedRowIsStarted(Next(w, Foreign(Some(row))), a);
  }

  const ParkedTwiceSeen: seq<Event> := [GuardReads(0), GuardWrites(0), GuardReads(1)]

  const OperatorPause: seq<Event> := [AskPause(2), TakeLease(2), Reload(2), TakeOver(2), AnswerOk(2)]

  /** Guard 1 is between its read and its write while the operator's pause 2 is at p. */
  predicate Rival(w: World, row: Row, lease: Option<Actor>, p: Proc) {
    w.row == Some(row) && w.lease == lease && w.Proc(1).GuardParked? && w.Proc(2) == p && w.foreign == 0
  }

  lemma GuardParksAnotherSees(w: World)
    requires w == Start0(Some(Row(Downloading, NoCode, false)))
    ensures Rival(Run(w, ParkedTwiceSeen), Row(Paused, DiskFull, false), None, Idle)
  {
    RunNext(w, ParkedTwiceSeen, 0);
    RunNext(w, ParkedTwiceSeen, 1);
    RunNext(w, ParkedTwiceSeen, 2);
    assert ParkedTwiceSeen[..0] == [] && ParkedTwiceSeen[..3] == ParkedTwiceSeen;
  }

  lemma OperatorAsks(w: World)
    requires Rival(w, Row(Paused, DiskFull, false), None, Idle)
    ensures Rival(Next(Next(w, AskPause(2)), TakeLease(2)), Row(Paused, DiskFull, false), Some(2), PauseLeased)
  {
  }

  lemma OperatorClears(w: World)
    requires Rival(w, Row(Paused, DiskFull, false), Some(2), PauseLeased)
    ensures Rival(Next(Next(Next(w, Reload(2)), TakeOver(2)), AnswerOk(2)), Row(Paused, NoCode, false), None, Idle)
  {
    assert Rival(Next(w, Reload(2)), Row(Paused, DiskFull, false), Some(2), PauseLoaded(true, 0));
  }

  lemma OperatorTakesOver(w: World)
    requires Rival(w, Row(Paused, DiskFull, false), None, Idle)
    ensures Rival(Run(w, OperatorPause), Row(Paused, NoCode, false), None, Idle)
  {
    RunOfFive(w, OperatorPause);
    OperatorAsks(w);
    OperatorClears(Next(Next(w, AskPause(2)), TakeLease(2)));
  }

  lemma RunOfFive(w: World, es: seq<Event>)
    requires |es| == 5
    ensures Run(w, es) == Next(Next(Next(Next(Next(w, es[0]), es[1]), es[2]), es[3]), es[4])
  {
    RunNext(w, es, 0);
    RunNext(w, es, 1);
    RunNext(w, es, 2);
    RunNext(w, es, 3);
    RunNext(w, es, 4);
    assert es[..0] == [] && es[..5] == es;
  }

  /** The run behind the exception: guard 0 parks the task, guard 1 reads the parked pair,
      the operator's pause 2 takes the row over and answers ok, guard 1 stamps it. */
  lemma PauseCanBeUndone()
    ensures var w := Run(Start0(Some(Row(Downloading, NoCode, false))), ParkedTwiceSeen + OperatorPause);
            && w.row == Some(Row(Paused, NoCode, false)) && w.lease.None?
            && PassCanAct(w)
  {
    var w := Start0(Some(Row(Downloading, NoCode, false)));
    GuardParksAnotherSees(w);
    OperatorTakesOver(Run(w, ParkedTwiceSeen));
    RunConcat(w, ParkedTwiceSeen, OperatorPause);
    LateGuardReopens(Run(w, ParkedTwiceSeen + OperatorPause), 1);
  }
}
