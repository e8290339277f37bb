/**
What one hand-off costs the pass, and ownership over whole runs of passes, operator
actions, sweeps and engine events on one task.
*/
module HandoffRuns {
  import opened Options
  import opened TaskRow
  import opened Handoff
  import opened HandoffIntent

  // ----------------------------------------------------------- the outcome

  /** The results by which a release has written nothing to the row. */
  lemma RefusalsLeaveTheRow(w: World, c: Candidate, env: Env)
    ensures var (w', r) := Release(w, c, env);
            r.Unavailable? || r.NoSubmission? || r.Refused? ==> w'.row == w.row
  {
    if env.registered && c.ref.Some? {
      var (w1, r) := HandlePath(w, c.ref.value, c, env);
      HandleRefusalsLeaveTheRow(w, c.ref.value, c, env);
      if r.None? {
        AddRefusalsLeaveTheRow(w1, c, env);
      }
    } else if env.registered {
      AddRefusalsLeaveTheRow(w, c, env);
    }
  }

  lemma AddRefusalsLeaveTheRow(w: World, c: Candidate, env: Env)
    ensures var (w', r) := AddPath(w, c, env);
            r.Unavailable? || r.NoSubmission? || r.Refused? ==> w'.row == w.row
  {
    IntentFrame(AddNew(w, c, env).0, env.newId, c, env.perFileSelect, env.freshIntent);
  }

  lemma ResumeRefusalsLeaveTheRow(w: World, h: Handle, c: Candidate, env: Env)
    ensures var (w', r) := ResumePath(w, h, c, env);
            r.None? || r.value.Unavailable? || r.value.NoSubmission? || r.value.Refused? ==> w'.row == w.row
  {
    IntentFrame(w, h, c, env.perFileSelect, env.intent);
  }

  lemma HandleRefusalsLeaveTheRow(w: World, h: Handle, c: Candidate, env: Env)
    ensures var (w', r) := HandlePath(w, h, c, env);
            r.None? || r.value.Unavailable? || r.value.NoSubmission? || r.value.Refused? ==> w'.row == w.row
  {
    ResumeRefusalsLeaveTheRow(w, h, c, env);
    ResumeRefusalsLeaveTheRow(StopTransfer(w, h, env.selectionPause), h, c, env);
  }

  /** The pass charges a slot for every hand-off that leaves the row in the counted set. */
  predicate Charged(w: World, c: Candidate, env: Env) {
    var (w', o) := HandOff(w, c, env);
    w'.row.Some? && Counted(w'.row.value) ==> o != Held
  }

  /** Whether an unmarked or parked candidate is charged whenever it comes to count: for
      every failure pattern if and only if it arrived with a handle, or with nothing to
      submit.  A first hand-off whose release write landed without an answer counts in
      the database and costs the running pass nothing. */
  lemma ChargeCoversTheRow(w: World, c: Candidate)
    requires Current(w, c) && !Counted(w.row.value)
    ensures (forall env: Env :: Charged(w, c, env)) <==> (c.ref.Some? || !c.hasSource)
  {
    if c.ref.Some? || !c.hasSource {
      forall env: Env ensures Charged(w, c, env) {
        RefusalsLeaveTheRow(w, c, env);
      }
    } else {
      FirstHandOffEscapesTheCharge(w, c);
    }
  }

  lemma FirstHandOffEscapesTheCharge(w: World, c: Candidate)
    requires Current(w, c) && c.ref.None? && c.hasSource
    ensures !Charged(w, c, StoreOutage(Ok).(move := WriteErr(true)))
  {
    var w' := HandOff(w, c, StoreOutage(Ok).(move := WriteErr(true))).0;
    assert w'.RowIs(Downloading);
  }

  /** The task is released: counted once, its recorded transfer running with the stored
      intent on it, and no hold code left unless the clearing write failed. */
  predicate Running(w: World, c: Candidate, env: Env) {
    && w.RowIs(Downloading) && !w.row.value.pending
    && (env.clear.Written? ==> w.row.value.code !in HoldCodes)
    && w.ref.Some? && w.Runs(w.ref.value)
    && LimitsReached(w.log, w.ref.value, c) && SelectionReached(w.log, w.ref.value, c, env.perFileSelect)
  }

  lemma FinishedIsRunning(w: World, h: Handle, c: Candidate, env: Env)
    requires w.ref == Some(h) && w.Runs(h)
    requires LimitsReached(w.log, h, c) && SelectionReached(w.log, h, c, env.perFileSelect)
    ensures var (w', r) := FinishRelease(w, h, c, env); r.Success? ==> Running(w', c, env)
  {
  }

  lemma IntentReached(w: World, h: Handle, c: Candidate, pfs: bool, e: IntentEnv)
    requires c.selectFiles.Selection? ==> !w.Runs(h)
    ensures var (w', i) := ApplyIntent(w, h, c, pfs, e);
            i.Applied? ==> LimitsReached(w'.log, h, c) && SelectionReached(w'.log, h, c, pfs)
  {
  }

  lemma ResumedIsRunning(w: World, h: Handle, c: Candidate, env: Env)
    requires w.ref == Some(h) && (c.selectFiles.Selection? ==> !w.Runs(h))
    ensures var (w', r) := ResumePath(w, h, c, env); r == Some(Success) ==> Running(w', c, env)
  {
    IntentReached(w, h, c, env.perFileSelect, env.intent);
    IntentFrame(w, h, c, env.perFileSelect, env.intent);
    var (w1, intent) := ApplyIntent(w, h, c, env.perFileSelect, env.intent);
    if intent.Applied? && env.resume.Ok? {
      FinishedIsRunning(StartTransfer(w1, h, env.resume), h, c, env);
    }
  }

  lemma AddedIsRunning(w: World, c: Candidate, env: Env)
    ensures var (w', r) := AddPath(w, c, env); r.Success? ==> Running(w', c, env)
  {
    if c.hasSource && env.add.Ok? {
      var w1 := AddNew(w, c, env).0;
      IntentReached(w1, env.newId, c, env.perFileSelect, env.freshIntent);
      var (w2, intent) := ApplyIntent(w1, env.newId, c, env.perFileSelect, env.freshIntent);
      var (w3, recorded) := RecordRef(w2, env.newId, env.setRef);
      if intent.Applied? && recorded {
        if !c.HasIntent() {
          FinishedIsRunning(w3, env.newId, c, env);
        } else if env.firstStart.Ok? {
          FinishedIsRunning(StartTransfer(w3, env.newId, env.firstStart), env.newId, c, env);
        }
      }
    }
  }

  lemma ReleasedMeansRunning(w: World, c: Candidate, env: Env)
    requires Current(w, c)
    ensures var (w', o) := HandOff(w, c, env); o.Released? ==> Running(w', c, env)
  {
    if env.registered {
      if c.ref.None? {
        AddedIsRunning(w, c, env);
      } else {
        if c.selectFiles.Selection? ==> !w.Runs(c.ref.value) {
          ResumedIsRunning(w, c.ref.value, c, env);
        }
        if env.selectionPause.Ok? {
          ResumedIsRunning(StopTransfer(w, c.ref.value, env.selectionPause), c.ref.value, c, env);
        }
        var (w1, r) := HandlePath(w, c.ref.value, c, env);
        if r.None? {
          AddedIsRunning(w1, c, env);
        }
      }
    }
  }

  // ---------------------------------------------------------- the refusals

  /** The task went to error, and nothing of it moves any more. */
  ghost predicate ErroredOverStopped(w: World, c: Candidate, env: Env) {
    var (w1, r) := Release(w, c, env);
    r.Refused? ==> w1.stranded || NoneRun(w1)
  }

  lemma RefusedResumeIsStopped(w: World, h: Handle, c: Candidate, env: Env)
    requires NoneRun(w) && Punctual(env)
    ensures var (w', r) := ResumePath(w, h, c, env); r.None? || r == Some(Refused) ==> NoneRun(w')
  {
    IntentFrame(w, h, c, env.perFileSelect, env.intent);
  }

  lemma RefusedHandleIsStopped(w: World, h: Handle, c: Candidate, env: Env)
    requires NoneRun(w) && Punctual(env)
    ensures var (w', r) := HandlePath(w, h, c, env); r.None? || r == Some(Refused) ==> NoneRun(w')
  {
    RefusedResumeIsStopped(w, h, c, env);
    RefusedResumeIsStopped(StopTransfer(w, h, env.selectionPause), h, c, env);
  }

  lemma RefusedAddIsStopped(w: World, c: Candidate, env: Env)
    requires NoneRun(w) && Punctual(env)
    ensures var (w', r) := AddPath(w, c, env); r.Refused? ==> w'.stranded || NoneRun(w')
  {
    IntentFrame(AddNew(w, c, env).0, env.newId, c, env.perFileSelect, env.freshIntent);
  }

  lemma RefusedIsStopped(w: World, c: Candidate, env: Env)
    requires NoneRun(w) && Punctual(env)
    ensures ErroredOverStopped(w, c, env)
  {
    if env.registered && c.ref.Some? {
      RefusedHandleIsStopped(w, c.ref.value, c, env);
      var (w1, r) := HandlePath(w, c.ref.value, c, env);
      if r.None? {
        RefusedAddIsStopped(w1, c, env);
      }
    } else if env.registered {
      RefusedAddIsStopped(w, c, env);
    }
  }

  /** A refusal errors the task over a stopped transfer, never a running one: for every
      failure pattern this holds exactly of a task whose transfer did not run before, and
      a marked retry over a running transfer is the case it does not cover. */
  lemma RefusalsStopExactly(w: World, c: Candidate)
    requires Owns(w) && !w.stranded && w.ref == c.ref
    ensures (forall env: Env :: Punctual(env) ==> ErroredOverStopped(w, c, env)) <==> NoneRun(w)
  {
    if NoneRun(w) {
      forall env: Env | Punctual(env) ensures ErroredOverStopped(w, c, env) {
        RefusedIsStopped(w, c, env);
      }
    } else {
      var h :| h in w.transfers && w.Runs(h);
      var env := StoreOutage(Err(OtherFault, false));
      assert Release(w, c, env) == (w, Refused);
      assert !ErroredOverStopped(w, c, env);
    }
  }

  /** Late starts included, a refusal leaves nothing running exactly of a task that also
      has no live transfer to resume and whose fresh transfer would be added stopped. */
  lemma RefusalsStopWhateverIsLate(w: World, c: Candidate)
    requires Owns(w) && !w.stranded && w.ref == c.ref
    ensures (forall env: Env :: ErroredOverStopped(w, c, env)) <==>
            (NoneRun(w) && !Alive(w, c) && (c.hasSource ==> c.HasIntent()))
  {
    if !NoneRun(w) {
      RefusalsStopExactly(w, c);
    } else if Alive(w, c) {
      LateResumeIsRefused(w, c);
    } else if c.hasSource && !c.HasIntent() {
      LateAddIsRefused(w, c);
    } else {
      forall env: Env ensures ErroredOverStopped(w, c, env) {
        NothingLateRuns(w, c, env);
      }
    }
  }

  lemma LateResumeIsRefused(w: World, c: Candidate)
    requires NoneRun(w) && !w.stranded && Alive(w, c)
    ensures !ErroredOverStopped(w, c, StoreOutage(Ok).(resume := Err(OtherFault, true)))
  {
    var (w', r) := Release(w, c, StoreOutage(Ok).(resume := Err(OtherFault, true)));
    assert c.ref.value in w'.transfers && w'.Runs(c.ref.value);
  }

  lemma LateAddIsRefused(w: World, c: Candidate)
    requires !w.stranded && c.hasSource && !c.HasIntent()
    ensures !ErroredOverStopped(w, c, StoreOutage(Lost).(add := Err(OtherFault, true)))
  {
    var (w', r) := Release(w, c, StoreOutage(Lost).(add := Err(OtherFault, true)));
    assert 0 in w'.transfers && w'.Runs(0);
  }

  lemma NothingLateRuns(w: World, c: Candidate, env: Env)
    requires NoneRun(w) && !Alive(w, c) && (c.hasSource ==> c.HasIntent())
    ensures ErroredOverStopped(w, c, env)
  {
    if env.registered && c.ref.Some? {
      var (w1, r) := HandlePath(w, c.ref.value, c, env);
      assert NoneRun(w1);
      if r.None? {
        LateAddIsStopped(w1, c, env);
      }
    } else if env.registered {
      LateAddIsStopped(w, c, env);
    }
  }

  lemma LateAddIsStopped(w: World, c: Candidate, env: Env)
    requires NoneRun(w) && (c.hasSource ==> c.HasIntent())
    ensures var (w', r) := AddPath(w, c, env); r.Refused? ==> w'.stranded || NoneRun(w')
  {
    IntentFrame(AddNew(w, c, env).0, env.newId, c, env.perFileSelect, env.freshIntent);
  }

  // ---------------------------------------------------------------- runs

  /** Everything else that touches the task between two hand-offs. */
  datatype Step =
    | Pass(c: Candidate, env: Env)
    | OperatorPause(stop: Reply, write: Write)
    | Requeue(write: Write)
    | Adopt(next: TaskState, write: Write)
    | GuardPause(stop: Reply)
    | TransferStops(h: Handle)
    | TransferIsLost(h: Handle)

  /** An operator pause calls the engine first and leaves the row when the call fails; the
      disk-space guard pauses the row whatever its engine call answers. */
  function Take(w: World, s: Step): World {
    match s
    case Pass(c, env) => HandOff(w, c, env).0
    case OperatorPause(stop, write) =>
      if w.RowIs(Paused) then w.(row := Some(PausedHoldCodeCleared(w.row.value)))
      else if w.ref.None? then Move(w, Paused, write).0
      else
        var w1 := StopTransfer(w, w.ref.value, stop);
        if stop.Ok? then Move(w1, Paused, write).0 else w1
    case Requeue(write) => Move(w, Queued, write).0
    case Adopt(next, write) => Move(w, next, write).0
    case GuardPause(stop) =>
      if w.row.Some? && w.row.value.state in Active then
        var w1 := if w.ref.Some? then StopTransfer(w, w.ref.value, stop) else w;
        w1.(row := Some(PausedWithCode(w.row.value, DiskFull)))
      else w
    case TransferStops(h) => StopTransfer(w, h, Ok)
    case TransferIsLost(h) => Forget(w, h)
  }

  /** What the two pauses come to when their calls answer: an operator's leaves a paused row
      without a hold code over a stopped transfer, the guard's a parked one. */
  lemma PausesLand(w: World)
    requires w.row.Some? && w.row.value.state != Removed
    ensures var w' := Take(w, OperatorPause(Ok, Written));
            && w'.RowIs(Paused) && (w.RowIs(Paused) ==> w'.row.value.code !in {DiskFull, ConcurrencyLimit})
            && (!w.RowIs(Paused) && w.ref.Some? ==> !w'.Runs(w.ref.value) && w'.transfers.Keys == w.transfers.Keys)
    ensures var w' := Take(w, GuardPause(Ok));
            if w.row.value.state in Active then
              w'.row == Some(Row(Paused, DiskFull, false)) && (w.ref.Some? ==> !w'.Runs(w.ref.value))
            else w' == w
  {
  }

  /** A requeue leaves an unmarked queued row; a transfer that stops is still known, a lost
      one is not. */
  lemma RequeuesAndEventsLand(w: World, h: Handle)
    requires w.row.Some?
    ensures Legal(w.row.value.state, Queued) ==> Take(w, Requeue(Written)).row == Some(Row(Queued, w.row.value.code, false))
    ensures Take(w, TransferStops(h)).transfers.Keys == w.transfers.Keys && !Take(w, TransferStops(h)).Runs(h)
    ensures h !in Take(w, TransferIsLost(h)).transfers
  {
  }

  /** The step puts the row back into the queue. */
  predicate Requeues(w: World, s: Step) {
    match s
    case Requeue(write) => LandsQueued(w, write)
    case Adopt(next, write) => next == Queued && LandsQueued(w, write)
    case _ => false
  }

  predicate LandsQueued(w: World, a: Write) {
    w.row.Some? && Legal(w.row.value.state, Queued) && (a.Written? || a.landed)
  }

  /** No step but a pass starts a transfer, and only a requeue makes a queued row unmarked. */
  lemma NothingNewRuns(w: World, s: Step)
    requires !s.Pass?
    ensures var w' := Take(w, s);
            && w'.ref == w.ref && w'.stranded == w.stranded && (forall h :: h in w'.transfers && w'.Runs(h) ==> h in w.transfers && w.Runs(h))
            && (!Requeues(w, s) && w'.RowIs(Queued) ==> w.RowIs(Queued) && w'.row.value.pending == w.row.value.pending)
  {
  }

  /** Which steps other than a pass keep ownership, exactly: all but those that requeue the
      row over a running transfer. */
  lemma StepOwnsExactly(w: World, s: Step)
    requires Owns(w) && !s.Pass?
    ensures Owns(Take(w, s)) <==> (Requeues(w, s) ==> NoneRun(w))
  {
    var w' := Take(w, s);
    if Requeues(w, s) {
      assert w'.transfers == w.transfers && w'.RowIs(Queued) && !w'.row.value.pending;
      assert NoneRun(w') <==> NoneRun(w);
    } else {
      NothingNewRuns(w, s);
      hide Take;
    }
  }

  /** A pass hands over a candidate that agrees with the row, mark included, and no start
      takes effect behind an error, unless such a start would do no harm; and the row is
      put back into the queue over a stopped transfer. */
  ghost predicate Orderly(w: World, s: Step) {
    if s.Pass? then Current(w, s.c) && ((MarkFresh(w, s.c) && Punctual(s.env)) || StartsCovered(w, s.c) || !CanStart(w, s.c))
    else Requeues(w, s) ==> NoneRun(w)
  }

  function Run(w: World, steps: seq<Step>): World {
    if steps == [] then w else Take(Run(w, steps[..|steps| - 1]), steps[|steps| - 1])
  }

  ghost predicate OrderlyRun(w: World, steps: seq<Step>) {
    forall k :: 0 <= k < |steps| ==> Orderly(Run(w, steps[..k]), steps[k])
  }

  lemma TakeOwns(w: World, s: Step)
    requires Owns(w) && Orderly(w, s)
    ensures Take(w, s).stranded || Owns(Take(w, s))
  {
    if s.Pass? {
      if CanStart(w, s.c) {
        HandOffOwns(w, s.c, s.env);
      } else {
        NothingToStart(w, s.c, s.env);
      }
    } else {
      StepOwnsExactly(w, s);
    }
  }

  /** The ownership invariant over any number of passes, any failure pattern of store and
      engine, and any operator actions, sweeps and engine events between them: as long as
      no compensating stop or remove failed, a queued row whose transfer runs is marked. */
  lemma {:induction false} OwnershipOverRuns(w: World, steps: seq<Step>)
    requires Owns(w) && OrderlyRun(w, steps)
    requires forall k :: 0 <= k < |steps| ==> !Run(w, steps[..k]).stranded
    ensures Run(w, steps).stranded || Owns(Run(w, steps))
  {
    if steps != [] {
      var front := steps[..|steps| - 1];
      forall k | 0 <= k < |front| ensures Orderly(Run(w, front[..k]), front[k]) && !Run(w, front[..k]).stranded {
        assert front[..k] == steps[..k];
      }
      OwnershipOverRuns(w, front);
      TakeOwns(Run(w, front), steps[|steps| - 1]);
    }
  }

  // ------------------------------------------------------------ snapshots

  /** What a pass's query reads of the task. */
  predicate Snapshot(w: World, c: Candidate) {
    w.row.Some? && c.ref == w.ref && c.pending == w.row.value.pending && c.parked == w.RowIs(Paused)
  }

  /** Between these points of the run no other pass visits the task and nobody requeues it. */
  ghost predicate Undisturbed(w: World, steps: seq<Step>, i: nat, k: nat)
    requires k <= |steps|
  {
    forall j :: i <= j < k ==> !steps[j].Pass? && !Requeues(Run(w, steps[..j]), steps[j])
  }

  lemma RunNext(w: World, steps: seq<Step>, k: nat)
    requires k < |steps|
    ensures Run(w, steps[..k + 1]) == Take(Run(w, steps[..k]), steps[k])
  {
    assert steps[..k + 1][..k] == steps[..k];
  }

  lemma {:induction false} UndisturbedKeeps(w: World, steps: seq<Step>, i: nat, k: nat)
    requires i <= k <= |steps| && Undisturbed(w, steps, i, k)
    ensures var a, b := Run(w, steps[..i]), Run(w, steps[..k]);
            b.ref == a.ref && (b.RowIs(Queued) ==> a.RowIs(Queued) && b.row.value.pending == a.row.value.pending)
    decreases k
  {
    if i < k {
      UndisturbedKeeps(w, steps, i, k - 1);
      RunNext(w, steps, k - 1);
      NothingNewRuns(Run(w, steps[..k - 1]), steps[k - 1]);
      hide Take, Run, Requeues;
    }
  }

  /** So the snapshot that passes the revalidation agrees with the row, mark included. */
  lemma SnapshotStaysFresh(w: World, steps: seq<Step>, i: nat, k: nat, c: Candidate)
    requires i <= k <= |steps| && Undisturbed(w, steps, i, k) && Snapshot(Run(w, steps[..i]), c)
    requires Run(w, steps[..k]).RowIs(if c.parked then Paused else Queued)
    ensures Current(Run(w, steps[..k]), c) && MarkFresh(Run(w, steps[..k]), c)
  {
    UndisturbedKeeps(w, steps, i, k);
  }

  /** A pass selects the task at some point of the run, and hands it over at a later one if
      the revalidation finds it there still; nobody requeues it in between. */
  ghost predicate Ticks(w: World, steps: seq<Step>, k: nat)
    requires k < |steps|
  {
    var now := Run(w, steps[..k]);
    if steps[k].Pass? then
      var c := steps[k].c;
      && now.RowIs(if c.parked then Paused else Queued)
      && (Punctual(steps[k].env) || StartsCovered(now, c) || !CanStart(now, c))
      && exists i :: 0 <= i <= k && Snapshot(Run(w, steps[..i]), c) && Undisturbed(w, steps, i, k)
    else Requeues(now, steps[k]) ==> NoneRun(now)
  }

  lemma TicksAreOrderly(w: World, steps: seq<Step>, k: nat)
    requires k < |steps| && Ticks(w, steps, k)
    ensures Orderly(Run(w, steps[..k]), steps[k])
  {
    if steps[k].Pass? {
      var c := steps[k].c;
      var i :| 0 <= i <= k && Snapshot(Run(w, steps[..i]), c) && Undisturbed(w, steps, i, k);
      SnapshotStaysFresh(w, steps, i, k, c);
    }
  }

  /** Ownership over any run whose passes hand over what they selected, with no freshness
      assumed: it follows from nobody requeueing the task in between. */
  lemma OwnershipOverTicks(w: World, steps: seq<Step>)
    requires Owns(w) && (forall k :: 0 <= k < |steps| ==> Ticks(w, steps, k))
    requires forall k :: 0 <= k < |steps| ==> !Run(w, steps[..k]).stranded
    ensures Run(w, steps).stranded || Owns(Run(w, steps))
  {
    forall k | 0 <= k < |steps| ensures Orderly(Run(w, steps[..k]), steps[k]) {
      TicksAreOrderly(w, steps, k);
    }
    OwnershipOverRuns(w, steps);
  }

  const MarkedAndRunning: World := World(Some(Row(Queued, NoCode, true)), Some(7), map[7 := Transfer.Running], [], false)

  const MarkedSnapshot: Candidate := Candidate(false, true, Some(7), true, NoSelection, false)

  /** And it does fail otherwise: the pass reads the mark, the operator pauses and resumes
      the task, the pass hands it over during a store outage. */
  lemma PauseAndResumeLoseTheMark()
    ensures var w1 := Take(MarkedAndRunning, OperatorPause(Ok, Written));
            var w2 := Take(w1, Requeue(Written));
            var w3 := Take(w2, Pass(MarkedSnapshot, StoreOutage(Ok)));
            && Owns(MarkedAndRunning) && Snapshot(MarkedAndRunning, MarkedSnapshot)
            && NoneRun(w1) && Owns(w2) && Current(w2, MarkedSnapshot) && Punctual(StoreOutage(Ok))
            && !w3.stranded && !Owns(w3)
  {
    var w1 := Take(MarkedAndRunning, OperatorPause(Ok, Written));
    assert w1 == World(Some(Row(Paused, NoCode, false)), Some(7), map[7 := Stopped], [], false);
    var w2 := Take(w1, Requeue(Written));
    assert w2 == World(Some(Row(Queued, NoCode, false)), Some(7), map[7 := Stopped], [], false);
    StaleMarkOverLiveHandle(w2, MarkedSnapshot);
    NotStranded(w2);
  }

  lemma NotStranded(w: World)
    requires w == World(Some(Row(Queued, NoCode, false)), Some(7), map[7 := Stopped], [], false)
    ensures !HandOff(w, MarkedSnapshot, StoreOutage(Ok)).0.stranded
  {
  }

  /** And the case does arise: a parked task whose release ran the transfer but could not
      move the row, then requeued by its operator before the sweep comes by. */
  lemma ParkedOutageThenRequeue()
    ensures var w := World(Some(Row(Paused, DiskFull, false)), Some(7), map[7 := Stopped], [], false);
            var c := Candidate(true, false, Some(7), true, NoSelection, false);
            var w' := Take(Take(w, Pass(c, StoreOutage(Ok))), Requeue(Written));
            Owns(w) && Orderly(w, Pass(c, StoreOutage(Ok))) && !w'.stranded && !Owns(w')
  {
    var w := World(Some(Row(Paused, DiskFull, false)), Some(7), map[7 := Stopped], [], false);
    var c := Candidate(true, false, Some(7), true, NoSelection, false);
    var w1 := Take(w, Pass(c, StoreOutage(Ok)));
    assert 7 in w1.transfers && w1.Runs(7) && w1.RowIs(Paused);
    var w' := Take(w1, Requeue(Written));
    assert 7 in w'.transfers && w'.Runs(7);
  }
}
