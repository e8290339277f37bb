/**
The hand-off of one candidate to its engine, internal/engine/admission.go `release` and
what surrounds it under the task's lease.

The functions thread the task's world through the calls in the order of the source.
What the store and the engine answer is the environment: one answer for each place the
source calls from, so a theorem for all environments is a theorem for every failure
pattern.  A store write that answers an error may have landed; an engine call that
answers an error may have taken effect ("late"); NotFound means the transfer is gone.
*/
module Handoff {
  import opened Options
  import opened TaskRow

  type Handle = nat

  datatype Transfer = Running | Stopped | Faulted(diskFull: bool)

  datatype Effect =
    | LimitsStated(h: Handle)
    | SelectionSent(h: Handle, running: bool, ok: bool)
    | Started(h: Handle, row: Option<Row>)
    | Added(h: Handle)
    | RemoveTried(h: Handle)

  /** stranded: a compensating stop or remove answered an error. */
  datatype World = World(row: Option<Row>, ref: Option<Handle>, transfers: map<Handle, Transfer>,
                         log: seq<Effect>, stranded: bool) {
    predicate Runs(h: Handle) {
      h in transfers && transfers[h] == Running
    }

    predicate RowIs(s: TaskState) {
      row.Some? && row.value.state == s
    }
  }

  /** The stored select_files column. */
  datatype Stored = NoSelection | Unreadable | Selection

  /** The candidate: a snapshot, except that the intent was re-read under the lease. */
  datatype Candidate = Candidate(parked: bool, pending: bool, ref: Option<Handle>, hasSource: bool,
                                 selectFiles: Stored, limits: bool) {
    predicate HasIntent() {
      selectFiles.Selection? || limits
    }
  }

  datatype Fault = Down | Unsupported | OtherFault
  datatype Reply = Ok | Lost | Err(fault: Fault, late: bool)
  datatype Listing = Entries | NoEntries | ListingLost | ListingErr(fault: Fault)
  datatype Write = Written | WriteErr(landed: bool)

  datatype IntentEnv = IntentEnv(limits: Reply, files: Reply, listing: Listing, pause: Reply)

  datatype Env = Env(
    registered: bool, perFileSelect: bool, cancelled: bool,
    get: Reply, selectionPause: Reply, intent: IntentEnv, resume: Reply,
    requeue: Write, ownMark: Write, metadataResume: Reply,
    add: Reply, newId: Handle, freshIntent: IntentEnv, setRef: Write, remove: Reply, firstStart: Reply,
    move: Write, clear: Write, retryMark: Write, stop: Reply, refuse: Write)

  datatype Intent = Applied | PendingListing | Gone | IntentDown | IntentRefused

  datatype Result = Success | StoreWriteError | NoSubmission | Unavailable | SelectionPending | Incomplete | Refused

  datatype Outcome = Held | Released | Spent | Aborted

  // ----------------------------------------------------------- single calls

  function StartTransfer(w: World, h: Handle, r: Reply): World {
    if r.Ok? || (r.Err? && r.late) then w.(transfers := w.transfers[h := Running], log := w.log + [Started(h, w.row)])
    else if r.Lost? then w.(transfers := w.transfers - {h})
    else w
  }

  function StopTransfer(w: World, h: Handle, r: Reply): World {
    if r.Lost? then w.(transfers := w.transfers - {h})
    else if h in w.transfers && (r.Ok? || r.late) then w.(transfers := w.transfers[h := Stopped])
    else w
  }

  function Forget(w: World, h: Handle): World {
    w.(transfers := w.transfers - {h})
  }

  function Move(w: World, next: TaskState, a: Write): (World, bool) {
    if w.row.None? || !Legal(w.row.value.state, next) then (w, false)
    else if a.WriteErr? && !a.landed then (w, false)
    else (w.(row := Some(Transitioned(w.row.value, next))), a.Written?)
  }

  datatype MarkAnswer = Owned | NotQueued | MarkError

  function SetMark(w: World, a: Write): (World, MarkAnswer) {
    if w.row.None? then (w, if a.Written? then NotQueued else MarkError)
    else if a.WriteErr? && !a.landed then (w, MarkError)
    else (w.(row := Some(Marked(w.row.value))),
          if a.WriteErr? then MarkError else if w.row.value.state == Queued then Owned else NotQueued)
  }

  function RecordRef(w: World, h: Handle, a: Write): (World, bool) {
    if w.row.None? || (a.WriteErr? && !a.landed) then (w, false)
    else (w.(ref := Some(h)), a.Written?)
  }

  function ClearHold(w: World, a: Write): World {
    if w.row.None? || (a.WriteErr? && !a.landed) then w else w.(row := Some(HoldCodeCleared(w.row.value)))
  }

  function OfFault(f: Fault): Intent {
    if f.Down? then IntentDown else IntentRefused
  }

  // ------------------------------------------------------------- the intent

  /** applyPersistedRateLimits */
  function StateLimits(w: World, h: Handle, c: Candidate, e: IntentEnv): (World, Intent) {
    if !c.limits then (w, Applied)
    else if e.limits.Ok? || (e.limits.Err? && e.limits.fault.Unsupported?) then (w.(log := w.log + [LimitsStated(h)]), Applied)
    else if e.limits.Lost? then (Forget(w, h), Gone)
    else (w, OfFault(e.limits.fault))
  }

  /** applyPersistedSelection */
  function StateSelection(w: World, h: Handle, c: Candidate, perFileSelect: bool, e: IntentEnv): (World, Intent) {
    if !c.selectFiles.Selection? || !perFileSelect then (w, Applied)
    else
      var w0 := w.(log := w.log + [SelectionSent(h, w.Runs(h), e.files.Ok?)]);
      if e.files.Ok? then (w0, Applied) else
      var w1 := if e.files.Lost? then Forget(w0, h) else w0;
      match e.listing
      case ListingLost => (w1, PendingListing)
      case NoEntries => (w1, PendingListing)
      case ListingErr(f) => (StopTransfer(w1, h, e.pause), OfFault(f))
      case Entries => (w1, if e.files.Lost? then Gone else OfFault(e.files.fault))
  }

  /** applyPersistedIntent */
  function ApplyIntent(w: World, h: Handle, c: Candidate, perFileSelect: bool, e: IntentEnv): (World, Intent) {
    var (w1, i) := StateLimits(w, h, c, e);
    if i.Applied? then StateSelection(w1, h, c, perFileSelect, e) else (w1, i)
  }

  // ------------------------------------------------------------ the release

  /** requeuePendingSelection, and the metadata run it allows. */
  function RunForMetadata(w: World, h: Handle, c: Candidate, env: Env): World {
    var (w1, requeued) := if c.parked then Move(w, Queued, env.requeue) else (w, true);
    if !requeued then w1
    else
      var (w2, mark) := SetMark(w1, env.ownMark);
      if mark.Owned? then StartTransfer(w2, h, env.metadataResume) else w2
  }

  /** markReleased; on its failure the retry mark, and the stop when even that fails. */
  function FinishRelease(w: World, h: Handle, c: Candidate, env: Env): (World, Result) {
    var (w1, moved) := Move(w, Downloading, env.move);
    if moved then (ClearHold(w1, env.clear), Success)
    else
      var (w2, mark) := SetMark(w1, env.retryMark);
      if mark.MarkError? && !c.parked && !c.pending then
        var w3 := StopTransfer(w2, h, env.stop);
        (w3.(stranded := w3.stranded || env.stop.Err?), StoreWriteError)
      else
        (w2, StoreWriteError)
  }

  /** removeStrandedTransfer */
  function RemoveNew(w: World, h: Handle, r: Reply): World {
    var w1 := w.(log := w.log + [RemoveTried(h)]);
    if r.Err? then w1.(stranded := true, transfers := if r.late then w.transfers - {h} else w.transfers)
    else w1.(transfers := w.transfers - {h})
  }

  function AddNew(w: World, c: Candidate, env: Env): (World, bool) {
    if env.add.Ok? || (env.add.Err? && env.add.late) then
      var w1 := w.(transfers := w.transfers[env.newId := if c.HasIntent() then Stopped else Running],
                   log := w.log + [Added(env.newId)] + if c.HasIntent() then [] else [Started(env.newId, w.row)]);
      (w1, env.add.Ok?)
    else (w, false)
  }

  /** What follows the fresh handle's recording. */
  function AfterRecording(w: World, c: Candidate, intent: Intent, env: Env): (World, Result) {
    match intent
    case PendingListing => (RunForMetadata(w, env.newId, c, env), SelectionPending)
    case Gone => (w, Incomplete)
    case IntentDown => (w, Incomplete)
    case IntentRefused => (w, Incomplete)
    case Applied =>
      if !c.HasIntent() then FinishRelease(w, env.newId, c, env)
      else
        var w1 := StartTransfer(w, env.newId, env.firstStart);
        if env.firstStart.Ok? then FinishRelease(w1, env.newId, c, env) else (w1, Incomplete)
  }

  function AddPath(w: World, c: Candidate, env: Env): (World, Result) {
    if !c.hasSource then (w, NoSubmission)
    else
      var (w1, added) := AddNew(w, c, env);
      if !added then (w1, if env.add.Err? && env.add.fault.Down? then Unavailable else Refused)
      else
        var (w2, intent) := ApplyIntent(w1, env.newId, c, env.perFileSelect, env.freshIntent);
        if intent.IntentRefused? then (RemoveNew(w2, env.newId, env.remove), Refused)
        else
          var (w3, recorded) := RecordRef(w2, env.newId, env.setRef);
          if !recorded then (RemoveNew(w3, env.newId, env.remove), StoreWriteError)
          else AfterRecording(w3, c, intent, env)
  }

  /** The path over a live handle; None is the fall through to a fresh Add. */
  function ResumePath(w: World, h: Handle, c: Candidate, env: Env): (World, Option<Result>) {
    var (w1, intent) := ApplyIntent(w, h, c, env.perFileSelect, env.intent);
    match intent
    case Gone => (w1, None)
    case PendingListing => (RunForMetadata(w1, h, c, env), Some(SelectionPending))
    case IntentDown => (w1, Some(Unavailable))
    case IntentRefused => (w1, Some(Refused))
    case Applied =>
      var w2 := StartTransfer(w1, h, env.resume);
      match env.resume
      case Lost => (w2, None)
      case Err(f, _) => (w2, Some(if f.Down? then Unavailable else Refused))
      case Ok =>
        var (w3, r) := FinishRelease(w2, h, c, env);
        (w3, Some(r))
  }

  /** The inspection of a stored handle and, when it is alive, the path over it. */
  function HandlePath(w: World, h: Handle, c: Candidate, env: Env): (World, Option<Result>) {
    if env.get.Lost? || (env.get.Ok? && h !in w.transfers) then (Forget(w, h), None)
    else if env.get.Err? then (w, Some(if env.get.fault.Down? then Unavailable else Refused))
    else if w.transfers[h].Faulted? then
      (w, if w.transfers[h].diskFull then None else Some(Refused))
    else if c.selectFiles.Selection? && w.transfers[h].Running? then
      var w1 := StopTransfer(w, h, env.selectionPause);
      match env.selectionPause
      case Lost => (w1, None)
      case Err(f, _) => (w1, Some(if f.Down? then Unavailable else Refused))
      case Ok => ResumePath(w1, h, c, env)
    else ResumePath(w, h, c, env)
  }

  function Release(w: World, c: Candidate, env: Env): (World, Result) {
    if !env.registered then (w, Unavailable)
    else if c.ref.None? then AddPath(w, c, env)
    else
      var (w1, r) := HandlePath(w, c.ref.value, c, env);
      if r.Some? then (w1, r.value) else AddPath(w1, c, env)
  }

  /** releaseFailed and the outcome the pass reads. */
  function Settle(w: World, c: Candidate, r: Result, env: Env): (World, Outcome) {
    if r.Success? then (w, Released)
    else if env.cancelled then (w, Aborted)
    else if r.Refused? then (Move(w, Failed, env.refuse).0, Held)
    else
      (ClearHold(w, env.clear),
       if r.SelectionPending? || r.Incomplete? || (r.StoreWriteError? && c.ref.Some?) then Spent else Held)
  }

  function HandOff(w: World, c: Candidate, env: Env): (World, Outcome) {
    var (w1, r) := Release(w, c, env);
    Settle(w1, c, r, env)
  }

  // -------------------------------------------------------------- ownership

  /** No transfer runs but the row's own, and a queued row whose transfer runs carries
      the pass's mark. */
  ghost predicate Owns(w: World) {
    && (forall h :: h in w.transfers && w.Runs(h) ==> w.ref == Some(h))
    && (w.RowIs(Queued) && !w.row.value.pending ==> NoneRun(w))
  }

  /** What the revalidation under the lease and the selection leave between the snapshot
      and the row; the mark is the part nobody re-reads. */
  predicate Current(w: World, c: Candidate) {
    w.ref == c.ref && w.RowIs(if c.parked then Paused else Queued)
  }

  predicate MarkFresh(w: World, c: Candidate) {
    c.pending && w.RowIs(Queued) ==> w.row.value.pending
  }

  /** No engine start that answered an error took effect. */
  predicate Punctual(env: Env) {
    !(env.add.Err? && env.add.late) && !(env.resume.Err? && env.resume.late) && !(env.firstStart.Err? && env.firstStart.late)
  }

  /** The snapshot and row over which a start that took effect behind an error does no
      harm: a queued row is marked already, and a fresh transfer is added stopped. */
  predicate StartsCovered(w: World, c: Candidate) {
    && (w.RowIs(Queued) ==> w.row.value.pending)
    && (c.hasSource ==> c.HasIntent())
  }

  ghost predicate Only(w: World, h: Handle) {
    forall k :: k in w.transfers && w.Runs(k) ==> k == h
  }

  ghost predicate NoneRun(w: World) {
    forall k :: k in w.transfers ==> !w.Runs(k)
  }

  /** A row that a running transfer may have, or is about to have, under this candidate. */
  predicate Fits(w: World, c: Candidate) {
    w.RowIs(Queued) ==> !c.parked && (c.pending ==> w.row.value.pending)
  }

  lemma FinishOwns(w: World, h: Handle, c: Candidate, env: Env)
    requires Only(w, h) && w.ref == Some(h) && Fits(w, c)
    ensures var w' := FinishRelease(w, h, c, env).0; w'.stranded || Owns(w')
  {
    var (w1, moved) := Move(w, Downloading, env.move);
    if !moved {
      var (w2, mark) := SetMark(w1, env.retryMark);
      assert Only(w2, h) && w2.ref == Some(h);
      if !mark.MarkError? {
        assert w2.RowIs(Queued) ==> w2.row.value.pending;
      } else if !c.parked && !c.pending {
        StopLeavesNone(w2, h, env.stop);
      }
    }
  }

  lemma StopLeavesNone(w: World, h: Handle, r: Reply)
    requires Only(w, h)
    ensures !r.Err? ==> NoneRun(StopTransfer(w, h, r))
  {
  }

  lemma MetadataRunOwns(w: World, h: Handle, c: Candidate, env: Env)
    requires Only(w, h) && w.ref == Some(h) && (c.parked ==> w.row.Some?)
    requires w.RowIs(Queued) ==> w.row.value.pending || NoneRun(w)
    requires c.parked ==> NoneRun(w)
    ensures var w' := RunForMetadata(w, h, c, env); w'.stranded || Owns(w')
  {
  }

  lemma IntentFrame(w: World, h: Handle, c: Candidate, pfs: bool, e: IntentEnv)
    ensures var w' := ApplyIntent(w, h, c, pfs, e).0;
            && w'.row == w.row && w'.ref == w.ref && w'.stranded == w.stranded
            && (forall k :: k in w'.transfers && w'.Runs(k) ==> w.Runs(k))
  {
  }

  lemma AfterRecordingOwns(w: World, c: Candidate, intent: Intent, env: Env)
    requires Only(w, env.newId) && w.ref == Some(env.newId) && Fits(w, c) && (Punctual(env) || StartsCovered(w, c))
    requires c.HasIntent() ==> NoneRun(w)
    requires !c.HasIntent() ==> intent.Applied?
    requires c.parked ==> w.row.Some?
    ensures var w' := AfterRecording(w, c, intent, env).0; w'.stranded || Owns(w')
  {
    if intent.PendingListing? {
      MetadataRunOwns(w, env.newId, c, env);
    } else if intent.Applied? {
      if !c.HasIntent() {
        FinishOwns(w, env.newId, c, env);
      } else if env.firstStart.Ok? {
        FinishOwns(StartTransfer(w, env.newId, env.firstStart), env.newId, c, env);
      }
    }
  }

  lemma AddPathOwns(w: World, c: Candidate, env: Env)
    requires NoneRun(w) && Fits(w, c) && (Punctual(env) || StartsCovered(w, c))
    requires w.row.Some?
    ensures var w' := AddPath(w, c, env).0; w'.stranded || Owns(w')
  {
    if c.hasSource && env.add.Ok? {
      var w1 := AddNew(w, c, env).0;
      var (w2, intent) := ApplyIntent(w1, env.newId, c, env.perFileSelect, env.freshIntent);
      IntentFrame(w1, env.newId, c, env.perFileSelect, env.freshIntent);
      assert c.HasIntent() ==> NoneRun(w2);
      if !intent.IntentRefused? {
        var (w3, recorded) := RecordRef(w2, env.newId, env.setRef);
        if recorded {
          AfterRecordingOwns(w3, c, intent, env);
        }
      }
    }
  }

  lemma ResumePathOwns(w: World, h: Handle, c: Candidate, env: Env)
    requires Only(w, h) && w.ref == Some(h) && w.row.Some? && Fits(w, c) && (Punctual(env) || StartsCovered(w, c))
    requires w.RowIs(Queued) && !w.row.value.pending ==> NoneRun(w)
    requires c.selectFiles.Selection? ==> NoneRun(w)
    ensures var (w', r) := ResumePath(w, h, c, env);
            if r.Some? then w'.stranded || Owns(w') else NoneRun(w') && w'.row == w.row
  {
    IntentFrame(w, h, c, env.perFileSelect, env.intent);
    var (w1, intent) := ApplyIntent(w, h, c, env.perFileSelect, env.intent);
    if intent.PendingListing? {
      MetadataRunOwns(w1, h, c, env);
    } else if intent.Applied? && env.resume.Ok? {
      FinishOwns(StartTransfer(w1, h, env.resume), h, c, env);
    }
  }

  lemma HandlePathOwns(w: World, h: Handle, c: Candidate, env: Env)
    requires Owns(w) && w.ref == Some(h) && w.row.Some? && Fits(w, c) && (Punctual(env) || StartsCovered(w, c))
    ensures var (w', r) := HandlePath(w, h, c, env);
            if r.Some? then w'.stranded || Owns(w') else NoneRun(w') && w'.row == w.row
  {
    if env.get.Ok? && h in w.transfers && !w.transfers[h].Faulted? {
      if c.selectFiles.Selection? && w.transfers[h].Running? {
        if env.selectionPause.Ok? {
          ResumePathOwns(StopTransfer(w, h, env.selectionPause), h, c, env);
        }
      } else {
        ResumePathOwns(w, h, c, env);
      }
    }
  }

  lemma SettleOwns(w: World, c: Candidate, r: Result, env: Env)
    requires w.stranded || Owns(w)
    ensures var w' := Settle(w, c, r, env).0; w'.stranded || Owns(w')
  {
  }

  /** Every exit of the hand-off keeps the ownership invariant, unless the compensating
      stop or remove failed too. */
  lemma HandOffOwns(w: World, c: Candidate, env: Env)
    requires Owns(w) && Current(w, c) && MarkFresh(w, c) && (Punctual(env) || StartsCovered(w, c))
    ensures var w' := HandOff(w, c, env).0; w'.stranded || Owns(w')
  {
    if env.registered {
      if c.ref.None? {
        AddPathOwns(w, c, env);
      } else {
        HandlePathOwns(w, c.ref.value, c, env);
        var (w1, r) := HandlePath(w, c.ref.value, c, env);
        if r.None? {
          AddPathOwns(w1, c, env);
        }
      }
    }
    var (w', r) := Release(w, c, env);
    SettleOwns(w', c, r, env);
  }

  // ------------------------------------------------------ the unread mark

  ghost predicate KeepsOwnership(w: World, c: Candidate, env: Env) {
    var w' := HandOff(w, c, env).0; w'.stranded || Owns(w')
  }

  /** Some answer of the engine lets this candidate's release start a transfer. */
  predicate CanStart(w: World, c: Candidate) {
    c.hasSource || Alive(w, c)
  }

  /** Every engine call answers, both writes that would record the release do not. */
  function StoreOutage(get: Reply): Env {
    var fine := IntentEnv(Ok, Ok, Entries, Ok);
    Env(true, false, false, get, Ok, fine, Ok, Written, Written, Ok, Ok, 0, fine, Written, Ok, Ok,
        WriteErr(false), Written, WriteErr(false), Ok, Written)
  }

  predicate Alive(w: World, c: Candidate) {
    c.ref.Some? && c.ref.value in w.transfers && !w.transfers[c.ref.value].Faulted?
  }

  lemma StaleMarkOverLiveHandle(w: World, c: Candidate)
    requires !w.stranded && Current(w, c) && !MarkFresh(w, c) && !c.parked && Alive(w, c)
    ensures !KeepsOwnership(w, c, StoreOutage(Ok))
  {
    var w' := HandOff(w, c, StoreOutage(Ok)).0;
    assert c.ref.value in w'.transfers && w'.Runs(c.ref.value);
  }

  lemma StaleMarkOverFreshAdd(w: World, c: Candidate)
    requires !w.stranded && Current(w, c) && !MarkFresh(w, c) && !c.parked && c.hasSource
    ensures !KeepsOwnership(w, c, StoreOutage(Lost))
  {
    var w' := HandOff(w, c, StoreOutage(Lost)).0;
    assert 0 in w'.transfers && w'.Runs(0);
  }

  /** The ownership mark the candidate carries is the one thing the revalidation does not
      re-read.  For a row and snapshot that agree otherwise, every release keeps
      ownership under every failure pattern if and only if the snapshot does not claim
      a mark the queued row lost, or nothing could be started anyway. */
  lemma OwnershipNeedsAFreshMark(w: World, c: Candidate)
    requires Owns(w) && !w.stranded && Current(w, c)
    ensures (forall env: Env :: Punctual(env) ==> KeepsOwnership(w, c, env)) <==> (MarkFresh(w, c) || !CanStart(w, c))
  {
    if MarkFresh(w, c) {
      forall env: Env | Punctual(env) ensures KeepsOwnership(w, c, env) {
        HandOffOwns(w, c, env);
      }
    } else if CanStart(w, c) {
      if Alive(w, c) {
        StaleMarkOverLiveHandle(w, c);
      } else {
        StaleMarkOverFreshAdd(w, c);
      }
    } else {
      forall env: Env | Punctual(env) ensures KeepsOwnership(w, c, env) {
        NothingToStart(w, c, env);
      }
    }
  }

  lemma NothingToStart(w: World, c: Candidate, env: Env)
    requires Owns(w) && !CanStart(w, c)
    ensures KeepsOwnership(w, c, env)
  {
    var (w1, r) := Release(w, c, env);
    assert Owns(w1);
    SettleOwns(w1, c, r, env);
  }

  // ------------------------------------------------------- the late starts

  /** Every call answers, but for the named start, which takes effect behind an outage. */
  function LateAdd(h: Handle): Env {
    StoreOutage(Lost).(add := Err(Down, true), newId := h)
  }

  const LateResume: Env := StoreOutage(Ok).(resume := Err(Down, true))

  const LateFirstStart: Env := StoreOutage(Lost).(firstStart := Err(Down, true))

  /** The transfer runs and the pass never learns its handle. */
  lemma LateAddEscapes(w: World, c: Candidate, h: Handle)
    requires !w.stranded && Current(w, c) && c.hasSource && !c.HasIntent() && c.ref != Some(h)
    ensures !KeepsOwnership(w, c, LateAdd(h))
  {
    var w' := HandOff(w, c, LateAdd(h)).0;
    assert h in w'.transfers && w'.Runs(h);
  }

  /** The stored transfer runs under a queued row without a mark. */
  lemma LateResumeEscapes(w: World, c: Candidate)
    requires Owns(w) && !w.stranded && Current(w, c) && Alive(w, c) && w.RowIs(Queued) && !w.row.value.pending
    ensures !KeepsOwnership(w, c, LateResume)
  {
    var w' := HandOff(w, c, LateResume).0;
    assert c.ref.value in w'.transfers && w'.Runs(c.ref.value);
  }

  /** The fresh transfer runs under a queued row without a mark. */
  lemma LateFirstStartEscapes(w: World, c: Candidate)
    requires !w.stranded && Current(w, c) && c.hasSource && c.HasIntent() && w.RowIs(Queued) && !w.row.value.pending
    ensures !KeepsOwnership(w, c, LateFirstStart)
  {
    var w' := HandOff(w, c, LateFirstStart).0;
    assert 0 in w'.transfers && w'.Runs(0);
  }

  /** Ownership under every failure pattern of store and engine, starts that take effect
      behind an error included: exactly of the rows and snapshots that start nothing, or
      whose queued row is marked and whose fresh transfer would be added stopped. */
  lemma OwnershipExactly(w: World, c: Candidate)
    requires Owns(w) && !w.stranded && Current(w, c)
    ensures (forall env: Env :: KeepsOwnership(w, c, env)) <==> (!CanStart(w, c) || StartsCovered(w, c))
  {
    if !CanStart(w, c) {
      forall env: Env ensures KeepsOwnership(w, c, env) {
        NothingToStart(w, c, env);
      }
    } else if StartsCovered(w, c) {
      forall env: Env ensures KeepsOwnership(w, c, env) {
        HandOffOwns(w, c, env);
      }
    } else if c.hasSource && !c.HasIntent() {
      LateAddEscapes(w, c, if c.ref == Some(0) then 1 else 0);
    } else if Alive(w, c) {
      LateResumeEscapes(w, c);
    } else {
      LateFirstStartEscapes(w, c);
    }
  }
}
