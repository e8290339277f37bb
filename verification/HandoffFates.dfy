/**
What becomes of a hand-off, told by the answers alone: which answers release the task,
which submit it afresh, which error it, and which make it wait.  The conditions below name
the calls in the order a reader of internal/engine/admission.go meets them and say nothing
of how `Handoff` nests them.
*/
module HandoffFates {
  import opened Options
  import opened TaskRow
  import opened Handoff
  import opened HandoffIntent
  import HandoffRuns

  // -------------------------------------------------------- the single calls

  /** The engine said no, as opposed to not answering. */
  predicate Definite(r: Reply) {
    r.Err? && !r.fault.Down?
  }

  predicate Outage(r: Reply) {
    r.Err? && r.fault.Down?
  }

  predicate Lands(a: Write) {
    a.Written? || a.landed
  }

  /** A write the store answered has landed, and one it did not answer may have; the mark is
      owned exactly when it is answered over a queued row. */
  lemma WritesLand(w: World, a: Write, next: TaskState, h: Handle)
    ensures Move(w, next, a).1 <==> a.Written? && w.row.Some? && Legal(w.row.value.state, next)
    ensures Move(w, next, a).0.row ==
            if w.row.Some? && Legal(w.row.value.state, next) && Lands(a) then Some(Row(next, w.row.value.code, false)) else w.row
    ensures SetMark(w, a).1.Owned? <==> a.Written? && w.RowIs(Queued)
    ensures SetMark(w, a).1.MarkError? <==> a.WriteErr?
    ensures SetMark(w, a).0.row == if w.RowIs(Queued) && Lands(a) then Some(Row(Queued, w.row.value.code, true)) else w.row
    ensures RecordRef(w, h, a).1 <==> a.Written? && w.row.Some?
    ensures RecordRef(w, h, a).0.ref == if w.row.Some? && Lands(a) then Some(h) else w.ref
    ensures ClearHold(w, a).row ==
            if w.row.Some? && w.row.value.state != Paused && w.row.value.code in {DiskFull, ConcurrencyLimit} && Lands(a)
            then Some(w.row.value.(code := NoCode)) else w.row
  {
  }

  /** An engine call that answered has taken effect, one that answered an error may have, and
      a transfer the engine does not know any more is gone. */
  lemma CallsTakeEffect(w: World, h: Handle, r: Reply)
    ensures var w' := StartTransfer(w, h, r);
            && w'.Runs(h) == (r.Ok? || (r.Err? && r.late) || (r.Err? && w.Runs(h)))
            && w'.log == w.log + (if r.Ok? || (r.Err? && r.late) then [Started(h, w.row)] else [])
    ensures var w' := StopTransfer(w, h, r);
            && w'.Runs(h) == (w.Runs(h) && r.Err? && !r.late) && (h in w'.transfers <==> h in w.transfers && !r.Lost?)
    ensures var w' := RemoveNew(w, h, r);
            && w'.log == w.log + [RemoveTried(h)] && w'.stranded == (w.stranded || r.Err?)
            && (h in w'.transfers <==> h in w.transfers && r.Err? && !r.late)
  {
  }

  // ------------------------------------------------------- the stored intent

  predicate LimitsPass(c: Candidate, e: IntentEnv) {
    c.limits ==> e.limits.Ok? || (e.limits.Err? && e.limits.fault.Unsupported?)
  }

  predicate SelectionFails(c: Candidate, pfs: bool, e: IntentEnv) {
    LimitsPass(c, e) && c.selectFiles.Selection? && pfs && !e.files.Ok?
  }

  /** Limits and selection are with the engine; one that cannot limit a transfer does not
      stop it. */
  predicate IntentLands(c: Candidate, pfs: bool, e: IntentEnv) {
    LimitsPass(c, e) && (c.selectFiles.Selection? && pfs ==> e.files.Ok?)
  }

  /** There is no file listing yet to select from. */
  predicate IntentWaits(c: Candidate, pfs: bool, e: IntentEnv) {
    SelectionFails(c, pfs, e) && (e.listing.ListingLost? || e.listing.NoEntries?)
  }

  predicate IntentLost(c: Candidate, pfs: bool, e: IntentEnv) {
    (c.limits && e.limits.Lost?) || (SelectionFails(c, pfs, e) && e.listing.Entries? && e.files.Lost?)
  }

  predicate IntentOutage(c: Candidate, pfs: bool, e: IntentEnv) {
    || (c.limits && Outage(e.limits))
    || (SelectionFails(c, pfs, e) && ((e.listing.ListingErr? && e.listing.fault.Down?) || (e.listing.Entries? && Outage(e.files))))
  }

  predicate IntentRefuses(c: Candidate, pfs: bool, e: IntentEnv) {
    || (c.limits && e.limits.Err? && e.limits.fault.OtherFault?)
    || (SelectionFails(c, pfs, e) && ((e.listing.ListingErr? && !e.listing.fault.Down?) || (e.listing.Entries? && Definite(e.files))))
  }

  lemma IntentExactly(w: World, h: Handle, c: Candidate, pfs: bool, e: IntentEnv)
    ensures var i := ApplyIntent(w, h, c, pfs, e).1;
            && (i.Applied? <==> IntentLands(c, pfs, e)) && (i.PendingListing? <==> IntentWaits(c, pfs, e))
            && (i.Gone? <==> IntentLost(c, pfs, e)) && (i.IntentDown? <==> IntentOutage(c, pfs, e))
            && (i.IntentRefused? <==> IntentRefuses(c, pfs, e))
  {
  }

  /** What stating the intent does to the transfer: it is gone when the engine says so at one
      of the calls, and stopped when there is no telling whether its files can be listed. */
  lemma IntentTransfers(w: World, h: Handle, c: Candidate, pfs: bool, e: IntentEnv)
    ensures var w' := ApplyIntent(w, h, c, pfs, e).0;
            var halted := SelectionFails(c, pfs, e) && e.listing.ListingErr?;
            var gone := (c.limits && e.limits.Lost?) || (SelectionFails(c, pfs, e) && e.files.Lost?) || (halted && e.pause.Lost?);
            && (h in w'.transfers <==> h in w.transfers && !gone)
            && (w'.Runs(h) <==> w.Runs(h) && !gone && !(halted && (e.pause.Ok? || e.pause.late)))
            && (forall k :: k != h ==> (w'.Runs(k) <==> w.Runs(k)))
  {
  }

  // ---------------------------------------------------------------- the paths

  predicate Inspects(c: Candidate, env: Env) {
    env.registered && c.ref.Some?
  }

  predicate Live(w: World, c: Candidate, env: Env) {
    Inspects(c, env) && env.get.Ok? && Alive(w, c)
  }

  /** A selection is owed to a transfer that runs. */
  predicate MustPause(w: World, c: Candidate, env: Env) {
    Live(w, c, env) && c.selectFiles.Selection? && w.Runs(c.ref.value)
  }

  /** The intent is stated on the stored handle. */
  predicate Resumes(w: World, c: Candidate, env: Env) {
    Live(w, c, env) && (MustPause(w, c, env) ==> env.selectionPause.Ok?)
  }

  /** There never was a handle, or the engine proved it useless: gone at one of the calls, or
      a result that stopped for disk space. */
  predicate HandleIsUseless(w: World, c: Candidate, env: Env) {
    env.registered
    && (|| c.ref.None?
        || env.get.Lost?
        || (env.get.Ok? && (c.ref.value !in w.transfers || w.transfers[c.ref.value] == Faulted(true)))
        || (MustPause(w, c, env) && env.selectionPause.Lost?)
        || (Resumes(w, c, env) && IntentLost(c, env.perFileSelect, env.intent))
        || (Resumes(w, c, env) && IntentLands(c, env.perFileSelect, env.intent) && env.resume.Lost?))
  }

  /** The task is submitted afresh. */
  predicate Submits(w: World, c: Candidate, env: Env) {
    HandleIsUseless(w, c, env) && c.hasSource
  }

  /** The fresh transfer is there and was not refused its intent. */
  predicate Accepts(w: World, c: Candidate, env: Env) {
    Submits(w, c, env) && env.add.Ok? && !IntentRefuses(c, env.perFileSelect, env.freshIntent)
  }

  /** Its handle is on the row. */
  predicate Records(w: World, c: Candidate, env: Env) {
    Accepts(w, c, env) && env.setRef.Written?
  }

  predicate FinishesOld(w: World, c: Candidate, env: Env) {
    Resumes(w, c, env) && IntentLands(c, env.perFileSelect, env.intent) && env.resume.Ok?
  }

  predicate FinishesNew(w: World, c: Candidate, env: Env) {
    Records(w, c, env) && IntentLands(c, env.perFileSelect, env.freshIntent) && (c.HasIntent() ==> env.firstStart.Ok?)
  }

  /** Every engine call of the release has answered. */
  predicate Finishes(w: World, c: Candidate, env: Env) {
    FinishesOld(w, c, env) || FinishesNew(w, c, env)
  }

  /** Some call the release reached was answered with a definite no. */
  predicate IsRefused(w: World, c: Candidate, env: Env) {
    || (Inspects(c, env) && Definite(env.get))
    || (Inspects(c, env) && env.get.Ok? && c.ref.value in w.transfers && w.transfers[c.ref.value] == Faulted(false))
    || (MustPause(w, c, env) && Definite(env.selectionPause))
    || (Resumes(w, c, env) && IntentRefuses(c, env.perFileSelect, env.intent))
    || (Resumes(w, c, env) && IntentLands(c, env.perFileSelect, env.intent) && Definite(env.resume))
    || (Submits(w, c, env) && (env.add.Lost? || Definite(env.add)))
    || (Submits(w, c, env) && env.add.Ok? && IntentRefuses(c, env.perFileSelect, env.freshIntent))
  }

  /** Some call the release reached was not answered, before a fresh handle was on the row. */
  predicate IsUnavailable(w: World, c: Candidate, env: Env) {
    || !env.registered
    || (Inspects(c, env) && Outage(env.get))
    || (MustPause(w, c, env) && Outage(env.selectionPause))
    || (Resumes(w, c, env) && IntentOutage(c, env.perFileSelect, env.intent))
    || (Resumes(w, c, env) && IntentLands(c, env.perFileSelect, env.intent) && Outage(env.resume))
    || (Submits(w, c, env) && Outage(env.add))
  }

  /** The transfer waits for its file listing. */
  predicate Waits(w: World, c: Candidate, env: Env) {
    || (Resumes(w, c, env) && IntentWaits(c, env.perFileSelect, env.intent))
    || (Records(w, c, env) && IntentWaits(c, env.perFileSelect, env.freshIntent))
  }

  /** A fresh handle is on the row and its transfer could not be started. */
  predicate IsIncomplete(w: World, c: Candidate, env: Env) {
    Records(w, c, env)
    && (|| IntentLost(c, env.perFileSelect, env.freshIntent)
        || IntentOutage(c, env.perFileSelect, env.freshIntent)
        || (IntentLands(c, env.perFileSelect, env.freshIntent) && c.HasIntent() && !env.firstStart.Ok?))
  }

  lemma FinishExactly(w: World, h: Handle, c: Candidate, env: Env)
    requires w.row.Some? && Legal(w.row.value.state, Downloading)
    ensures FinishRelease(w, h, c, env).1 == if env.move.Written? then Success else StoreWriteError
  {
  }

  lemma ResumeExactly(w: World, h: Handle, c: Candidate, env: Env)
    requires w.row.Some? && Legal(w.row.value.state, Downloading)
    ensures var r := ResumePath(w, h, c, env).1;
            var lands := IntentLands(c, env.perFileSelect, env.intent);
            && (r.None? <==> IntentLost(c, env.perFileSelect, env.intent) || (lands && env.resume.Lost?))
            && (r == Some(SelectionPending) <==> IntentWaits(c, env.perFileSelect, env.intent))
            && (r == Some(Unavailable) <==> IntentOutage(c, env.perFileSelect, env.intent) || (lands && Outage(env.resume)))
            && (r == Some(Refused) <==> IntentRefuses(c, env.perFileSelect, env.intent) || (lands && Definite(env.resume)))
            && (r == Some(Success) <==> lands && env.resume.Ok? && env.move.Written?)
            && (r == Some(StoreWriteError) <==> lands && env.resume.Ok? && !env.move.Written?)
            && r != Some(NoSubmission) && r != Some(Incomplete)
  {
    hide ApplyIntent, IntentLands, IntentWaits, IntentLost, IntentOutage, IntentRefuses, FinishRelease, RunForMetadata;
    IntentExactly(w, h, c, env.perFileSelect, env.intent);
    IntentFrame(w, h, c, env.perFileSelect, env.intent);
    var w1 := ApplyIntent(w, h, c, env.perFileSelect, env.intent).0;
    FinishExactly(StartTransfer(w1, h, env.resume), h, c, env);
  }

  lemma AddExactly(w: World, c: Candidate, env: Env)
    requires w.row.Some? && Legal(w.row.value.state, Downloading)
    ensures var r := AddPath(w, c, env).1;
            var stated := env.freshIntent;
            var accepted := c.hasSource && env.add.Ok? && !IntentRefuses(c, env.perFileSelect, stated);
            var lands := IntentLands(c, env.perFileSelect, stated);
            var recorded := accepted && env.setRef.Written?;
            && (r == NoSubmission <==> !c.hasSource)
            && (r == Unavailable <==> c.hasSource && Outage(env.add))
            && (r == Refused <==> c.hasSource && (env.add.Lost? || Definite(env.add)
                                                  || (env.add.Ok? && IntentRefuses(c, env.perFileSelect, stated))))
            && (r == SelectionPending <==> recorded && IntentWaits(c, env.perFileSelect, stated))
            && (r == Incomplete <==> recorded && (IntentLost(c, env.perFileSelect, stated) || IntentOutage(c, env.perFileSelect, stated)
                                                  || (lands && c.HasIntent() && !env.firstStart.Ok?)))
            && (r == Success <==> recorded && lands && (c.HasIntent() ==> env.firstStart.Ok?) && env.move.Written?)
            && (r == StoreWriteError <==>
                  || (accepted && !env.setRef.Written?)
                  || (recorded && lands && (c.HasIntent() ==> env.firstStart.Ok?) && !env.move.Written?))
  {
    hide ApplyIntent, IntentLands, IntentWaits, IntentLost, IntentOutage, IntentRefuses, FinishRelease, RunForMetadata, RemoveNew, Legal;
    var w1 := AddNew(w, c, env).0;
    IntentExactly(w1, env.newId, c, env.perFileSelect, env.freshIntent);
    IntentFrame(w1, env.newId, c, env.perFileSelect, env.freshIntent);
    var w2 := ApplyIntent(w1, env.newId, c, env.perFileSelect, env.freshIntent).0;
    var w3 := RecordRef(w2, env.newId, env.setRef).0;
    FinishExactly(w3, env.newId, c, env);
    FinishExactly(StartTransfer(w3, env.newId, env.firstStart), env.newId, c, env);
  }

  /** Every result of a release, by the answers. */
  ghost predicate Fates(w: World, c: Candidate, env: Env, r: Result) {
    && (r == Success <==> Finishes(w, c, env) && env.move.Written?)
    && (r == StoreWriteError <==> (Accepts(w, c, env) && !env.setRef.Written?) || (Finishes(w, c, env) && !env.move.Written?))
    && (r == NoSubmission <==> HandleIsUseless(w, c, env) && !c.hasSource)
    && (r == Unavailable <==> IsUnavailable(w, c, env))
    && (r == SelectionPending <==> Waits(w, c, env))
    && (r == Incomplete <==> IsIncomplete(w, c, env))
    && (r == Refused <==> IsRefused(w, c, env))
  }

  /** The handle's part of it: none of the results of a fresh submission. */
  ghost predicate HandleFates(w: World, c: Candidate, env: Env, r: Option<Result>) {
    && (r.None? <==> HandleIsUseless(w, c, env))
    && (r == Some(Success) <==> FinishesOld(w, c, env) && env.move.Written?)
    && (r == Some(StoreWriteError) <==> FinishesOld(w, c, env) && !env.move.Written?)
    && (r == Some(SelectionPending) <==> Resumes(w, c, env) && IntentWaits(c, env.perFileSelect, env.intent))
    && (r == Some(Unavailable) <==>
          || Outage(env.get) || (MustPause(w, c, env) && Outage(env.selectionPause))
          || (Resumes(w, c, env) && IntentOutage(c, env.perFileSelect, env.intent))
          || (Resumes(w, c, env) && IntentLands(c, env.perFileSelect, env.intent) && Outage(env.resume)))
    && (r == Some(Refused) <==>
          || Definite(env.get) || (env.get.Ok? && c.ref.Some? && c.ref.value in w.transfers && w.transfers[c.ref.value] == Faulted(false))
          || (MustPause(w, c, env) && Definite(env.selectionPause))
          || (Resumes(w, c, env) && IntentRefuses(c, env.perFileSelect, env.intent))
          || (Resumes(w, c, env) && IntentLands(c, env.perFileSelect, env.intent) && Definite(env.resume)))
    && r != Some(NoSubmission) && r != Some(Incomplete)
  }

  lemma HandleExactly(w: World, c: Candidate, env: Env)
    requires Inspects(c, env) && w.row.Some? && Legal(w.row.value.state, Downloading)
    ensures HandleFates(w, c, env, HandlePath(w, c.ref.value, c, env).1)
  {
    hide ResumePath, IntentLands, IntentWaits, IntentLost, IntentOutage, IntentRefuses, Legal;
    ResumeExactly(w, c.ref.value, c, env);
    ResumeExactly(StopTransfer(w, c.ref.value, env.selectionPause), c.ref.value, c, env);
  }

  lemma HandleKeepsRow(w: World, h: Handle, c: Candidate, env: Env)
    ensures var (w', r) := HandlePath(w, h, c, env); r.None? ==> w'.row == w.row
  {
    hide ApplyIntent, RunForMetadata, FinishRelease;
    IntentFrame(w, h, c, env.perFileSelect, env.intent);
    IntentFrame(StopTransfer(w, h, env.selectionPause), h, c, env.perFileSelect, env.intent);
  }

  lemma ReleaseExactly(w: World, c: Candidate, env: Env)
    requires Current(w, c)
    ensures Fates(w, c, env, Release(w, c, env).1)
  {
    hide HandlePath, AddPath, IntentLands, IntentWaits, IntentLost, IntentOutage, IntentRefuses, Alive;
    if env.registered && c.ref.Some? {
      HandleExactly(w, c, env);
      var (w1, r) := HandlePath(w, c.ref.value, c, env);
      HandleKeepsRow(w, c.ref.value, c, env);
      if r.None? {
        AddExactly(w1, c, env);
      }
    } else if env.registered {
      AddExactly(w, c, env);
    }
  }

  // ------------------------------------------------------------ the task's row

  /** A row the release may leave behind. */
  predicate AtWork(row: Option<Row>) {
    row.Some? && row.value.state in {Queued, Paused, Downloading}
  }

  lemma OneWriteKeepsAtWork(w: World, a: Write, next: TaskState)
    requires AtWork(w.row) && next in {Queued, Downloading}
    ensures AtWork(Move(w, next, a).0.row) && AtWork(SetMark(w, a).0.row) && AtWork(ClearHold(w, a).row)
  {
    WritesLand(w, a, next, 0);
  }

  lemma FinishKeepsAtWork(w: World, h: Handle, c: Candidate, env: Env)
    requires AtWork(w.row)
    ensures AtWork(FinishRelease(w, h, c, env).0.row)
  {
    hide Move, SetMark, ClearHold, AtWork;
    OneWriteKeepsAtWork(w, env.move, Downloading);
    var w1 := Move(w, Downloading, env.move).0;
    OneWriteKeepsAtWork(w1, env.clear, Downloading);
    OneWriteKeepsAtWork(w1, env.retryMark, Downloading);
  }

  lemma MetadataKeepsAtWork(w: World, h: Handle, c: Candidate, env: Env)
    requires AtWork(w.row)
    ensures AtWork(RunForMetadata(w, h, c, env).row)
  {
    hide Move, SetMark, AtWork;
    OneWriteKeepsAtWork(w, env.requeue, Queued);
    OneWriteKeepsAtWork(w, env.ownMark, Queued);
    OneWriteKeepsAtWork(Move(w, Queued, env.requeue).0, env.ownMark, Queued);
  }

  lemma ResumeKeepsAtWork(w: World, h: Handle, c: Candidate, env: Env)
    requires AtWork(w.row)
    ensures AtWork(ResumePath(w, h, c, env).0.row)
  {
    hide ApplyIntent, FinishRelease, RunForMetadata, AtWork;
    IntentFrame(w, h, c, env.perFileSelect, env.intent);
    var w1 := ApplyIntent(w, h, c, env.perFileSelect, env.intent).0;
    MetadataKeepsAtWork(w1, h, c, env);
    FinishKeepsAtWork(StartTransfer(w1, h, env.resume), h, c, env);
  }

  lemma RecordedKeepsAtWork(w: World, c: Candidate, intent: Intent, env: Env)
    requires AtWork(w.row)
    ensures AtWork(AfterRecording(w, c, intent, env).0.row)
  {
    hide FinishRelease, RunForMetadata, AtWork;
    MetadataKeepsAtWork(w, env.newId, c, env);
    FinishKeepsAtWork(w, env.newId, c, env);
    FinishKeepsAtWork(StartTransfer(w, env.newId, env.firstStart), env.newId, c, env);
  }

  lemma AddKeepsAtWork(w: World, c: Candidate, env: Env)
    requires AtWork(w.row)
    ensures AtWork(AddPath(w, c, env).0.row)
  {
    hide ApplyIntent, AfterRecording, AtWork;
    var w1 := AddNew(w, c, env).0;
    IntentFrame(w1, env.newId, c, env.perFileSelect, env.freshIntent);
    var (w2, intent) := ApplyIntent(w1, env.newId, c, env.perFileSelect, env.freshIntent);
    RecordedKeepsAtWork(RecordRef(w2, env.newId, env.setRef).0, c, intent, env);
  }

  lemma ReleaseKeepsAtWork(w: World, c: Candidate, env: Env)
    requires AtWork(w.row)
    ensures AtWork(Release(w, c, env).0.row)
  {
    hide ResumePath, AddPath, AtWork;
    AddKeepsAtWork(w, c, env);
    if env.registered && c.ref.Some? {
      var h := c.ref.value;
      ResumeKeepsAtWork(w, h, c, env);
      ResumeKeepsAtWork(StopTransfer(w, h, env.selectionPause), h, c, env);
      HandleKeepsRow(w, h, c, env);
      AddKeepsAtWork(HandlePath(w, h, c, env).0, c, env);
    }
  }

  /** Which hand-offs error the task, exactly: those some call of which was answered with a
      definite no.  Being unreachable, waiting, losing the transfer or failing to write never
      does. */
  lemma FailsExactly(w: World, c: Candidate, env: Env)
    requires Current(w, c)
    ensures HandOff(w, c, env).0.RowIs(Failed) <==> IsRefused(w, c, env) && !env.cancelled && Lands(env.refuse)
  {
    hide Release, Finishes, IsRefused, IsUnavailable, Waits, IsIncomplete, HandleIsUseless, Accepts;
    ReleaseExactly(w, c, env);
    ReleaseKeepsAtWork(w, c, env);
    HandoffRuns.RefusalsLeaveTheRow(w, c, env);
    WritesLand(Release(w, c, env).0, env.refuse, Failed, 0);
  }

  /** So an engine that is down, or a transfer it lost, never errors a task. */
  lemma OutagesNeverFail(w: World, c: Candidate, env: Env)
    requires Current(w, c) && (c.ref.Some? && c.ref.value in w.transfers ==> w.transfers[c.ref.value] != Faulted(false))
    requires forall r :: r in [env.get, env.selectionPause, env.resume, env.add] ==> !Definite(r)
    requires !env.add.Lost?
    requires forall e :: e in [env.intent, env.freshIntent] ==>
               !(e.limits.Err? && e.limits.fault.OtherFault?) && !Definite(e.files) && (e.listing.ListingErr? ==> e.listing.fault.Down?)
    ensures !HandOff(w, c, env).0.RowIs(Failed)
  {
    hide HandOff;
    var calls, intents := [env.get, env.selectionPause, env.resume, env.add], [env.intent, env.freshIntent];
    assert calls[0] == env.get && calls[1] == env.selectionPause && calls[2] == env.resume && calls[3] == env.add;
    assert intents[0] == env.intent && intents[1] == env.freshIntent;
    FailsExactly(w, c, env);
  }

  // ------------------------------------------------------- the fresh transfer

  lemma IntentAppends(w: World, h: Handle, c: Candidate, pfs: bool, e: IntentEnv)
    ensures w.log <= ApplyIntent(w, h, c, pfs, e).0.log
  {
  }

  lemma MetadataAppends(w: World, h: Handle, c: Candidate, env: Env)
    ensures w.log <= RunForMetadata(w, h, c, env).log
  {
  }

  lemma CallsAppend(w: World, h: Handle, c: Candidate, env: Env)
    ensures w.log <= FinishRelease(w, h, c, env).0.log
    ensures w.log <= RemoveNew(w, h, env.remove).log && w.log <= StartTransfer(w, h, env.firstStart).log
  {
    hide FinishRelease;
    FinishAddsNothing(w, h, c, env);
  }

  lemma AfterRecordingAppends(w: World, c: Candidate, intent: Intent, env: Env)
    ensures w.log <= AfterRecording(w, c, intent, env).0.log
  {
    hide RunForMetadata, FinishRelease, StartTransfer;
    var w1 := StartTransfer(w, env.newId, env.firstStart);
    MetadataAppends(w, env.newId, c, env);
    CallsAppend(w, env.newId, c, env);
    CallsAppend(w1, env.newId, c, env);
  }

  lemma AddPathAdds(w: World, c: Candidate, env: Env)
    requires c.hasSource && (env.add.Ok? || (env.add.Err? && env.add.late))
    ensures Added(env.newId) in AddPath(w, c, env).0.log
  {
    var w1 := AddNew(w, c, env).0;
    assert Added(env.newId) in w1.log;
    var (w2, intent) := ApplyIntent(w1, env.newId, c, env.perFileSelect, env.freshIntent);
    var w3 := RecordRef(w2, env.newId, env.setRef).0;
    IntentAppends(w1, env.newId, c, env.perFileSelect, env.freshIntent);
    CallsAppend(w2, env.newId, c, env);
    CallsAppend(w3, env.newId, c, env);
    AfterRecordingAppends(w3, c, intent, env);
    hide ApplyIntent, RemoveNew, AfterRecording, AddNew, StartTransfer, FinishRelease;
  }

  /** Which hand-offs create a transfer, exactly: those with something to submit whose stored
      handle, if there is one, the engine proved useless, when the Add takes effect.  So a
      task never gets a second transfer beside one that may be alive, and a parked one whose
      result stopped for disk space gets its new one. */
  lemma AddsExactly(w: World, c: Candidate, env: Env)
    requires Current(w, c) && w.log == []
    ensures Added(env.newId) in HandOff(w, c, env).0.log <==> Submits(w, c, env) && (env.add.Ok? || (env.add.Err? && env.add.late))
  {
    hide HandlePath, AddPath, Settle, IntentLands, IntentLost;
    var (w1, r1) := Release(w, c, env);
    SettleKeepsTheLog(w1, c, r1, env);
    if Inspects(c, env) {
      HandleExactly(w, c, env);
      HandlePathAddsNothing(w, c.ref.value, c, env);
      var (w2, r) := HandlePath(w, c.ref.value, c, env);
      if r.None? {
        AddPathAddsExactly(w2, c, env);
      }
    } else if env.registered {
      AddPathAddsExactly(w, c, env);
    }
  }

  lemma AddPathAddsExactly(w: World, c: Candidate, env: Env)
    requires Added(env.newId) !in w.log
    ensures Added(env.newId) in AddPath(w, c, env).0.log <==> c.hasSource && (env.add.Ok? || (env.add.Err? && env.add.late))
  {
    if c.hasSource && (env.add.Ok? || (env.add.Err? && env.add.late)) {
      AddPathAdds(w, c, env);
    }
  }

  // ---------------------------------------------------------------- outcomes

  /** What a hand-off costs the pass, exactly. */
  lemma OutcomeExactly(w: World, c: Candidate, env: Env)
    requires Current(w, c)
    ensures var o := HandOff(w, c, env).1;
            var released := Finishes(w, c, env) && env.move.Written?;
            var unwritten := (Accepts(w, c, env) && !env.setRef.Written?) || (Finishes(w, c, env) && !env.move.Written?);
            && (o.Released? <==> released)
            && (o.Aborted? <==> !released && env.cancelled)
            && (o.Spent? <==> !env.cancelled && (Waits(w, c, env) || IsIncomplete(w, c, env) || (unwritten && c.ref.Some?)))
  {
    hide Release, Finishes, IsRefused, IsUnavailable, Waits, IsIncomplete, HandleIsUseless, Accepts;
    ReleaseExactly(w, c, env);
  }

  /** Every call of the hand-off answers and nothing interrupts it. */
  predicate AllAnswer(env: Env) {
    && env.registered && !env.cancelled
    && env.get.Ok? && env.selectionPause.Ok? && env.resume.Ok? && env.add.Ok? && env.firstStart.Ok?
    && env.intent.limits.Ok? && env.intent.files.Ok? && env.freshIntent.limits.Ok? && env.freshIntent.files.Ok?
    && env.setRef.Written? && env.move.Written? && env.clear.Written? && env.refuse.Written?
  }

  /** When every call answers, a task is released exactly when its stored transfer is alive,
      or it has something to submit and its transfer is gone, was never there, or stopped for
      disk space; one that stopped for any other fault is errored and left as it is. */
  lemma AnsweredHandOff(w: World, c: Candidate, env: Env)
    requires Current(w, c) && w.log == [] && AllAnswer(env)
    ensures var (w', o) := HandOff(w, c, env);
            var at := if c.ref.Some? && c.ref.value in w.transfers then Some(w.transfers[c.ref.value]) else None;
            var alive := at.Some? && !at.value.Faulted?;
            var afresh := c.hasSource && (at.None? || at == Some(Faulted(true)));
            && (o.Released? <==> alive || afresh)
            && (alive ==> w'.ref == c.ref && Added(env.newId) !in w'.log)
            && (afresh ==> w'.ref == Some(env.newId) && Added(env.newId) in w'.log)
            && (w'.RowIs(Failed) <==> at == Some(Faulted(false)))
            && (at == Some(Faulted(false)) ==> w'.log == [] && w'.transfers == w.transfers && w'.ref == c.ref)
  {
    hide HandOff;
    OutcomeExactly(w, c, env);
    AddsExactly(w, c, env);
    FailsExactly(w, c, env);
    AnsweredRef(w, c, env);
    StoppedStays(w, c, env);
  }

  lemma SettleKeepsRef(w: World, c: Candidate, r: Result, env: Env)
    ensures Settle(w, c, r, env).0.ref == w.ref
  {
  }

  lemma HandleKeepsRef(w: World, h: Handle, c: Candidate, env: Env)
    ensures HandlePath(w, h, c, env).0.ref == w.ref
  {
    hide ResumePath;
    ResumeKeepsRef(w, h, c, env);
    ResumeKeepsRef(StopTransfer(w, h, env.selectionPause), h, c, env);
  }

  lemma ResumeKeepsRef(w: World, h: Handle, c: Candidate, env: Env)
    ensures ResumePath(w, h, c, env).0.ref == w.ref
  {
    hide ApplyIntent, RunForMetadata, FinishRelease;
    var w1 := ApplyIntent(w, h, c, env.perFileSelect, env.intent).0;
    IntentFrame(w, h, c, env.perFileSelect, env.intent);
    MetadataRunAddsNothing(w1, h, c, env);
    FinishAddsNothing(StartTransfer(w1, h, env.resume), h, c, env);
  }

  lemma AddRecordsRef(w: World, c: Candidate, env: Env)
    requires w.row.Some?
    ensures AddPath(w, c, env).0.ref ==
            if c.hasSource && env.add.Ok? && !IntentRefuses(c, env.perFileSelect, env.freshIntent) && Lands(env.setRef)
            then Some(env.newId) else w.ref
  {
    hide ApplyIntent, AfterRecording, RecordRef, IntentRefuses;
    var w1 := AddNew(w, c, env).0;
    var (w2, intent) := ApplyIntent(w1, env.newId, c, env.perFileSelect, env.freshIntent);
    var w3 := RecordRef(w2, env.newId, env.setRef).0;
    IntentExactly(w1, env.newId, c, env.perFileSelect, env.freshIntent);
    WritesLand(w2, env.setRef, Queued, env.newId);
    IntentFrame(w1, env.newId, c, env.perFileSelect, env.freshIntent);
    AfterRecordingKeepsRef(w3, c, intent, env);
  }

  /** The handle on the row afterwards, exactly: the fresh one when its transfer was not
      refused and the write that records it landed, and the old one otherwise. */
  lemma RefExactly(w: World, c: Candidate, env: Env)
    requires Current(w, c)
    ensures HandOff(w, c, env).0.ref == if Accepts(w, c, env) && Lands(env.setRef) then Some(env.newId) else c.ref
  {
    hide HandlePath, AddPath, Settle, IntentRefuses, IntentLands, IntentLost;
    var (w1, r1) := Release(w, c, env);
    SettleKeepsRef(w1, c, r1, env);
    if Inspects(c, env) {
      HandleExactly(w, c, env);
      HandleKeepsRef(w, c.ref.value, c, env);
      HandleKeepsRow(w, c.ref.value, c, env);
      var (w2, r) := HandlePath(w, c.ref.value, c, env);
      if r.None? {
        AddRecordsRef(w2, c, env);
      }
    } else if env.registered {
      AddRecordsRef(w, c, env);
    }
  }

  lemma AnsweredRef(w: World, c: Candidate, env: Env)
    requires Current(w, c) && AllAnswer(env)
    ensures HandOff(w, c, env).0.ref == if Submits(w, c, env) then Some(env.newId) else c.ref
  {
    hide HandOff;
    RefExactly(w, c, env);
  }

  /** A result that stopped for another fault is not touched. */
  lemma StoppedStays(w: World, c: Candidate, env: Env)
    requires Current(w, c) && env.registered && env.get.Ok?
    ensures var w' := HandOff(w, c, env).0;
            c.ref.Some? && c.ref.value in w.transfers && w.transfers[c.ref.value] == Faulted(false) ==>
              w'.log == w.log && w'.transfers == w.transfers
  {
  }

  // ---------------------------------------------------- what the row is told

  /** A wait tells the row nothing but that no hold applies to it any more. */
  lemma WaitsLeaveTheRow(w: World, c: Candidate, env: Env)
    requires Current(w, c) && !env.cancelled
    requires IsUnavailable(w, c, env) || (HandleIsUseless(w, c, env) && !c.hasSource)
    ensures HandOff(w, c, env).0.row == ClearHold(w, env.clear).row
  {
    hide Release, Finishes, IsRefused, IsUnavailable, Waits, IsIncomplete, HandleIsUseless, Accepts, ClearHold;
    ReleaseExactly(w, c, env);
    HandoffRuns.RefusalsLeaveTheRow(w, c, env);
    WritesLand(w, env.clear, Queued, 0);
    WritesLand(Release(w, c, env).0, env.clear, Queued, 0);
  }

  /** The pass's own row over its own running transfer. */
  predicate Owned(w: World) {
    w.RowIs(Queued) && w.row.value.pending && w.ref.Some? && w.Runs(w.ref.value)
  }

  lemma MetadataRunIsOwned(w: World, h: Handle, c: Candidate, env: Env)
    requires w.RowIs(if c.parked then Paused else Queued) && w.ref == Some(h)
    requires env.requeue.Written? && env.ownMark.Written? && env.metadataResume.Ok?
    ensures Owned(RunForMetadata(w, h, c, env))
  {
  }

  lemma ClearKeepsOwned(w: World, a: Write)
    ensures Owned(w) ==> Owned(ClearHold(w, a))
  {
  }

  lemma ResumeWaitsOwned(w: World, h: Handle, c: Candidate, env: Env)
    requires w.RowIs(if c.parked then Paused else Queued) && w.ref == Some(h)
    requires env.requeue.Written? && env.ownMark.Written? && env.metadataResume.Ok?
    ensures var (w', r) := ResumePath(w, h, c, env); r == Some(SelectionPending) ==> Owned(w')
  {
    IntentFrame(w, h, c, env.perFileSelect, env.intent);
    MetadataRunIsOwned(ApplyIntent(w, h, c, env.perFileSelect, env.intent).0, h, c, env);
    hide ApplyIntent, RunForMetadata, FinishRelease, Owned;
  }

  lemma AddWaitsOwned(w: World, c: Candidate, env: Env)
    requires w.RowIs(if c.parked then Paused else Queued)
    requires env.requeue.Written? && env.ownMark.Written? && env.metadataResume.Ok?
    ensures var (w', r) := AddPath(w, c, env); r == SelectionPending ==> Owned(w')
  {
    var w1 := AddNew(w, c, env).0;
    IntentFrame(w1, env.newId, c, env.perFileSelect, env.freshIntent);
    var w2 := ApplyIntent(w1, env.newId, c, env.perFileSelect, env.freshIntent).0;
    var (w3, recorded) := RecordRef(w2, env.newId, env.setRef);
    if recorded {
      MetadataRunIsOwned(w3, env.newId, c, env);
    }
    hide ApplyIntent, RunForMetadata, FinishRelease, Owned;
  }

  /** A transfer that waits for its file listing runs under a queued row that carries the
      mark, so no sweep adopts it and the next pass does not gate it. */
  lemma WaitingIsOwned(w: World, c: Candidate, env: Env)
    requires Current(w, c) && !env.cancelled && Waits(w, c, env)
    requires env.requeue.Written? && env.ownMark.Written? && env.metadataResume.Ok?
    ensures Owned(HandOff(w, c, env).0)
  {
    hide HandlePath, AddPath, Owned, ClearHold, Finishes, IsRefused, IsUnavailable, Waits, IsIncomplete, HandleIsUseless, Accepts;
    ReleaseExactly(w, c, env);
    if Inspects(c, env) {
      HandleExactly(w, c, env);
      HandleWaitsOwned(w, c, env);
      HandleKeepsRow(w, c.ref.value, c, env);
      ReaddWaitsOwned(w, c, env);
    } else if env.registered {
      AddWaitsOwned(w, c, env);
    }
    ClearKeepsOwned(Release(w, c, env).0, env.clear);
  }

  lemma ReaddWaitsOwned(w: World, c: Candidate, env: Env)
    requires Inspects(c, env) && Current(w, c)
    requires env.requeue.Written? && env.ownMark.Written? && env.metadataResume.Ok?
    ensures var (w1, r) := HandlePath(w, c.ref.value, c, env);
            r.None? && AddPath(w1, c, env).1 == SelectionPending ==> Owned(AddPath(w1, c, env).0)
  {
    hide HandlePath, AddPath, Owned;
    HandleKeepsRow(w, c.ref.value, c, env);
    var (w1, r) := HandlePath(w, c.ref.value, c, env);
    if r.None? {
      AddWaitsOwned(w1, c, env);
    }
  }

  lemma HandleWaitsOwned(w: World, c: Candidate, env: Env)
    requires Inspects(c, env) && Current(w, c)
    requires env.requeue.Written? && env.ownMark.Written? && env.metadataResume.Ok?
    ensures var (w', r) := HandlePath(w, c.ref.value, c, env); r == Some(SelectionPending) ==> Owned(w')
  {
    hide ResumePath, Owned;
    ResumeWaitsOwned(w, c.ref.value, c, env);
    ResumeWaitsOwned(StopTransfer(w, c.ref.value, env.selectionPause), c.ref.value, c, env);
  }

  /** A release whose last write is lost leaves a queued task's transfer running under the
      mark that retries it, and stops it exactly when that mark is not answered either and
      nobody owned the row before; a parked task's is left to the sweep. */
  lemma LostWriteIsOwnedOrStopped(w: World, h: Handle, c: Candidate, env: Env)
    requires w.RowIs(if c.parked then Paused else Queued) && w.ref == Some(h) && w.Runs(h) && env.move == WriteErr(false)
    ensures var (w', r) := FinishRelease(w, h, c, env);
            && r == StoreWriteError && w'.row.Some? && w'.row.value.state == w.row.value.state
            && (w'.row.value.pending <==> w.row.value.pending || (!c.parked && Lands(env.retryMark)))
            && (w'.Runs(h) <==> env.retryMark.Written? || c.parked || c.pending || (env.stop.Err? && !env.stop.late))
  {
  }
}
