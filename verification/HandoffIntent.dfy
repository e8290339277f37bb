/**
What a hand-off does to the engine, read off its log of effects: no transfer starts
before the stored limits and selection reached it, the selection never reaches a running
transfer, and no transfer the pass added is left without a recorded handle or an attempt
to remove it.
*/
module HandoffIntent {
  import opened Options
  import opened TaskRow
  import opened Handoff

  predicate LimitsReached(log: seq<Effect>, h: Handle, c: Candidate) {
    c.limits ==> LimitsStated(h) in log
  }

  predicate SelectionReached(log: seq<Effect>, h: Handle, c: Candidate, perFileSelect: bool) {
    c.selectFiles.Selection? && perFileSelect ==> SelectionSent(h, false, true) in log
  }

  /** The row is durably the pass's own: queued, so no sweep adopts it, and marked. */
  predicate HeldForMetadata(row: Option<Row>) {
    row.Some? && row.value.state == Queued && row.value.pending
  }

  predicate Allowed(log: seq<Effect>, e: Effect, c: Candidate, perFileSelect: bool) {
    match e
    case Started(h, row) =>
      LimitsReached(log, h, c) && (SelectionReached(log, h, c, perFileSelect) || HeldForMetadata(row))
    case SelectionSent(h, running, _) => !running && LimitsReached(log, h, c)
    case _ => true
  }

  /** Every effect of the log was allowed by the effects before it. */
  ghost predicate IntentFirst(log: seq<Effect>, c: Candidate, perFileSelect: bool) {
    forall k :: 0 <= k < |log| ==> Allowed(log[..k], log[k], c, perFileSelect)
  }

  lemma IntentFirstAppend(log: seq<Effect>, e: Effect, c: Candidate, pfs: bool)
    requires IntentFirst(log, c, pfs) && Allowed(log, e, c, pfs)
    ensures IntentFirst(log + [e], c, pfs)
  {
    forall k | 0 <= k < |log + [e]| ensures Allowed((log + [e])[..k], (log + [e])[k], c, pfs) {
      assert (log + [e])[..k] == log[..k];
      assert log[..|log|] == log;
    }
  }

  lemma StartAllowed(w: World, h: Handle, r: Reply, c: Candidate, pfs: bool)
    requires IntentFirst(w.log, c, pfs) && Allowed(w.log, Started(h, w.row), c, pfs)
    ensures IntentFirst(StartTransfer(w, h, r).log, c, pfs)
  {
    IntentFirstAppend(w.log, Started(h, w.row), c, pfs);
  }

  lemma ApplyIntentLog(w: World, h: Handle, c: Candidate, pfs: bool, e: IntentEnv)
    requires IntentFirst(w.log, c, pfs) && (c.selectFiles.Selection? ==> !w.Runs(h))
    ensures var (w', i) := ApplyIntent(w, h, c, pfs, e);
            && IntentFirst(w'.log, c, pfs)
            && (i.Applied? || i.PendingListing? ==> LimitsReached(w'.log, h, c))
            && (i.Applied? ==> SelectionReached(w'.log, h, c, pfs))
            && (i.PendingListing? ==> c.selectFiles.Selection?)
            && w.log <= w'.log
  {
    IntentFirstAppend(w.log, LimitsStated(h), c, pfs);
    var w1 := StateLimits(w, h, c, e).0;
    var sent := SelectionSent(h, w1.Runs(h), e.files.Ok?);
    if StateLimits(w, h, c, e).1.Applied? && c.selectFiles.Selection? {
      IntentFirstAppend(w1.log, sent, c, pfs);
    }
  }

  lemma MetadataRunLog(w: World, h: Handle, c: Candidate, env: Env)
    requires IntentFirst(w.log, c, env.perFileSelect) && LimitsReached(w.log, h, c)
    ensures IntentFirst(RunForMetadata(w, h, c, env).log, c, env.perFileSelect)
  {
    var (w1, requeued) := if c.parked then Move(w, Queued, env.requeue) else (w, true);
    if requeued {
      var (w2, mark) := SetMark(w1, env.ownMark);
      if mark.Owned? {
        StartAllowed(w2, h, env.metadataResume, c, env.perFileSelect);
      }
    }
  }

  lemma FinishAddsNothing(w: World, h: Handle, c: Candidate, env: Env)
    ensures FinishRelease(w, h, c, env).0.log == w.log && FinishRelease(w, h, c, env).0.ref == w.ref
  {
  }

  lemma MetadataRunAddsNothing(w: World, h: Handle, c: Candidate, env: Env)
    ensures RunForMetadata(w, h, c, env).ref == w.ref
    ensures forall k :: Added(k) in RunForMetadata(w, h, c, env).log ==> Added(k) in w.log
  {
  }

  lemma ResumePathLog(w: World, h: Handle, c: Candidate, env: Env)
    requires IntentFirst(w.log, c, env.perFileSelect) && (c.selectFiles.Selection? ==> !w.Runs(h))
    ensures IntentFirst(ResumePath(w, h, c, env).0.log, c, env.perFileSelect)
  {
    ApplyIntentLog(w, h, c, env.perFileSelect, env.intent);
    var (w1, intent) := ApplyIntent(w, h, c, env.perFileSelect, env.intent);
    if intent.PendingListing? {
      MetadataRunLog(w1, h, c, env);
    } else if intent.Applied? {
      StartAllowed(w1, h, env.resume, c, env.perFileSelect);
      FinishAddsNothing(StartTransfer(w1, h, env.resume), h, c, env);
    }
  }

  lemma AddNewLog(w: World, c: Candidate, env: Env)
    requires IntentFirst(w.log, c, env.perFileSelect)
    ensures IntentFirst(AddNew(w, c, env).0.log, c, env.perFileSelect)
    ensures AddNew(w, c, env).1 && c.HasIntent() ==> !AddNew(w, c, env).0.Runs(env.newId)
  {
    var log1 := w.log + [Added(env.newId)];
    IntentFirstAppend(w.log, Added(env.newId), c, env.perFileSelect);
    if !c.HasIntent() {
      IntentFirstAppend(log1, Started(env.newId, w.row), c, env.perFileSelect);
    }
    assert log1 + [] == log1;
  }

  lemma AfterRecordingLog(w: World, c: Candidate, intent: Intent, env: Env)
    requires IntentFirst(w.log, c, env.perFileSelect)
    requires intent.Applied? || intent.PendingListing? ==> LimitsReached(w.log, env.newId, c)
    requires intent.Applied? ==> SelectionReached(w.log, env.newId, c, env.perFileSelect)
    ensures IntentFirst(AfterRecording(w, c, intent, env).0.log, c, env.perFileSelect)
  {
    if intent.PendingListing? {
      MetadataRunLog(w, env.newId, c, env);
    } else if intent.Applied? && c.HasIntent() {
      StartAllowed(w, env.newId, env.firstStart, c, env.perFileSelect);
      FinishAddsNothing(StartTransfer(w, env.newId, env.firstStart), env.newId, c, env);
    } else if intent.Applied? {
      FinishAddsNothing(w, env.newId, c, env);
    }
  }

  lemma AddPathLog(w: World, c: Candidate, env: Env)
    requires IntentFirst(w.log, c, env.perFileSelect)
    ensures IntentFirst(AddPath(w, c, env).0.log, c, env.perFileSelect)
  {
    if c.hasSource {
      AddNewLog(w, c, env);
      var (w1, added) := AddNew(w, c, env);
      if added {
        ApplyIntentLog(w1, env.newId, c, env.perFileSelect, env.freshIntent);
        var (w2, intent) := ApplyIntent(w1, env.newId, c, env.perFileSelect, env.freshIntent);
        IntentFirstAppend(w2.log, RemoveTried(env.newId), c, env.perFileSelect);
        var (w3, recorded) := RecordRef(w2, env.newId, env.setRef);
        if !intent.IntentRefused? && recorded {
          AfterRecordingLog(w3, c, intent, env);
        }
      }
    }
  }

  lemma HandlePathLog(w: World, h: Handle, c: Candidate, env: Env)
    requires IntentFirst(w.log, c, env.perFileSelect)
    ensures IntentFirst(HandlePath(w, h, c, env).0.log, c, env.perFileSelect)
  {
    if env.get.Ok? && h in w.transfers && !w.transfers[h].Faulted? {
      if c.selectFiles.Selection? && w.transfers[h].Running? {
        if env.selectionPause.Ok? {
          ResumePathLog(StopTransfer(w, h, env.selectionPause), h, c, env);
        }
      } else {
        ResumePathLog(w, h, c, env);
      }
    }
  }

  /** Intent before bytes, on every path of the release and for every failure pattern. */
  lemma IntentBeforeBytes(w: World, c: Candidate, env: Env)
    requires w.log == []
    ensures IntentFirst(HandOff(w, c, env).0.log, c, env.perFileSelect)
  {
    if env.registered {
      if c.ref.None? {
        AddPathLog(w, c, env);
      } else {
        HandlePathLog(w, c.ref.value, c, env);
        var (w1, r) := HandlePath(w, c.ref.value, c, env);
        if r.None? {
          AddPathLog(w1, c, env);
        }
      }
    }
  }

  // ------------------------------------------------------ recorded or removed

  /** The pass knows what became of every transfer it added. */
  predicate Accounted(w: World, h: Handle) {
    Added(h) in w.log ==> w.ref == Some(h) || RemoveTried(h) in w.log
  }

  lemma AfterRecordingKeepsRef(w: World, c: Candidate, intent: Intent, env: Env)
    ensures AfterRecording(w, c, intent, env).0.ref == w.ref
    ensures forall h :: Added(h) in AfterRecording(w, c, intent, env).0.log ==> Added(h) in w.log
  {
    if intent.PendingListing? {
      MetadataRunAddsNothing(w, env.newId, c, env);
    } else if intent.Applied? {
      FinishAddsNothing(w, env.newId, c, env);
      FinishAddsNothing(StartTransfer(w, env.newId, env.firstStart), env.newId, c, env);
    }
  }

  lemma IntentAddsNothing(w: World, h: Handle, c: Candidate, pfs: bool, e: IntentEnv)
    ensures forall k :: Added(k) in ApplyIntent(w, h, c, pfs, e).0.log ==> Added(k) in w.log
  {
  }

  lemma ResumePathAddsNothing(w: World, h: Handle, c: Candidate, env: Env)
    ensures forall k :: Added(k) in ResumePath(w, h, c, env).0.log ==> Added(k) in w.log
  {
    IntentAddsNothing(w, h, c, env.perFileSelect, env.intent);
    var (w1, intent) := ApplyIntent(w, h, c, env.perFileSelect, env.intent);
    if intent.PendingListing? {
      MetadataRunAddsNothing(w1, h, c, env);
    } else if intent.Applied? {
      FinishAddsNothing(StartTransfer(w1, h, env.resume), h, c, env);
    }
  }

  lemma AddPathAccounts(w: World, c: Candidate, env: Env, h: Handle)
    requires Added(h) !in w.log && !(env.add.Err? && env.add.late)
    ensures Accounted(AddPath(w, c, env).0, h)
  {
    if c.hasSource && env.add.Ok? {
      var w1 := AddNew(w, c, env).0;
      IntentAddsNothing(w1, env.newId, c, env.perFileSelect, env.freshIntent);
      var (w2, intent) := ApplyIntent(w1, env.newId, c, env.perFileSelect, env.freshIntent);
      var (w3, recorded) := RecordRef(w2, env.newId, env.setRef);
      AfterRecordingKeepsRef(w3, c, intent, env);
    }
  }

  /** A successful Add ends with its handle recorded or its removal attempted, and a
      release that adds nothing leaves the handle alone. */
  lemma EveryAddIsAccountedFor(w: World, c: Candidate, env: Env, h: Handle)
    requires w.log == [] && !(env.add.Err? && env.add.late)
    ensures Accounted(HandOff(w, c, env).0, h)
  {
    if env.registered {
      if c.ref.None? {
        AddPathAccounts(w, c, env, h);
      } else {
        var (w1, r) := HandlePath(w, c.ref.value, c, env);
        assert Added(h) !in w1.log by {
          ResumePathAddsNothing(w, c.ref.value, c, env);
          ResumePathAddsNothing(StopTransfer(w, c.ref.value, env.selectionPause), c.ref.value, c, env);
        }
        if r.None? {
          AddPathAccounts(w1, c, env, h);
        }
      }
    }
  }

  lemma LateAddIsUnaccounted(w: World, c: Candidate, h: Handle)
    requires w.log == [] && Current(w, c) && c.hasSource && c.ref != Some(h)
    ensures !Accounted(HandOff(w, c, LateAdd(h)).0, h)
  {
    var w' := HandOff(w, c, LateAdd(h)).0;
    assert Added(h) in w'.log;
  }

  lemma HandlePathAddsNothing(w: World, h: Handle, c: Candidate, env: Env)
    ensures forall k :: Added(k) in HandlePath(w, h, c, env).0.log ==> Added(k) in w.log
  {
    ResumePathAddsNothing(w, h, c, env);
    ResumePathAddsNothing(StopTransfer(w, h, env.selectionPause), h, c, env);
    hide ResumePath;
  }

  lemma SettleKeepsTheLog(w: World, c: Candidate, r: Result, env: Env)
    ensures Settle(w, c, r, env).0.log == w.log
  {
  }

  lemma NoSourceAddsNothing(w: World, c: Candidate, env: Env, h: Handle)
    requires !c.hasSource && Added(h) !in w.log
    ensures Added(h) !in HandOff(w, c, env).0.log
  {
    if env.registered && c.ref.Some? {
      HandlePathAddsNothing(w, c.ref.value, c, env);
    }
    var (w1, r) := Release(w, c, env);
    SettleKeepsTheLog(w1, c, r, env);
    hide HandlePath, Settle;
  }

  /** A late Add is the one that is not: the pass never learns its handle.  So for every
      failure pattern exactly of the candidates with nothing to submit. */
  lemma AccountedExactly(w: World, c: Candidate, h: Handle)
    requires w.log == [] && Current(w, c) && c.ref != Some(h)
    ensures (forall env: Env :: Accounted(HandOff(w, c, env).0, h)) <==> !c.hasSource
  {
    hide HandOff;
    if c.hasSource {
      LateAddIsUnaccounted(w, c, h);
    } else {
      forall env: Env ensures Accounted(HandOff(w, c, env).0, h) {
        NoSourceAddsNothing(w, c, env, h);
      }
    }
  }
}
