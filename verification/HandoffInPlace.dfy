/**
The hand-off in its own form: an ordered sequence of engine calls and store writes, with
its early returns and its fall through to a fresh Add.  The object holds what those calls
change; every method is proved to compute the function of Handoff that carries its name,
so the theorems about every failure pattern are theorems about this code.
*/
module HandoffInPlace {
  import opened Options
  import opened TaskRow
  import H = Handoff

  class Task {
    var row: Option<Row>
    var ref: Option<H.Handle>
    var transfers: map<H.Handle, H.Transfer>
    var log: seq<H.Effect>
    var stranded: bool

    ghost function View(): H.World
      reads this
    {
      H.World(row, ref, transfers, log, stranded)
    }

    constructor (w: H.World)
      ensures View() == w
    {
      row, ref, transfers, log, stranded := w.row, w.ref, w.transfers, w.log, w.stranded;
    }

    // -------------------------------------------------------- engine calls

    method Resume(h: H.Handle, r: H.Reply)
      modifies this
      ensures View() == H.StartTransfer(old(View()), h, r)
    {
      match r {
        case Ok =>
          transfers := transfers[h := H.Running];
          log := log + [H.Started(h, row)];
        case Lost =>
          transfers := transfers - {h};
        case Err(_, late) =>
          if late {
            transfers := transfers[h := H.Running];
            log := log + [H.Started(h, row)];
          }
      }
    }

    method Pause(h: H.Handle, r: H.Reply)
      modifies this
      ensures View() == H.StopTransfer(old(View()), h, r)
    {
      if r.Lost? {
        transfers := transfers - {h};
      } else if h in transfers && (r.Ok? || r.late) {
        transfers := transfers[h := H.Stopped];
      }
    }

    method RemoveStranded(h: H.Handle, r: H.Reply)
      modifies this
      ensures View() == H.RemoveNew(old(View()), h, r)
    {
      log := log + [H.RemoveTried(h)];
      if r.Err? {
        stranded := true;
        if r.late {
          transfers := transfers - {h};
        }
      } else {
        transfers := transfers - {h};
      }
    }

    // -------------------------------------------------------- store writes

    method Transition(next: TaskState, a: H.Write) returns (ok: bool)
      modifies this
      ensures (View(), ok) == H.Move(old(View()), next, a)
    {
      if row.None? || !Legal(row.value.state, next) {
        return false;
      }
      if a.WriteErr? && !a.landed {
        return false;
      }
      row := Some(Transitioned(row.value, next));
      return a.Written?;
    }

    method MarkAdmissionPending(a: H.Write) returns (answer: H.MarkAnswer)
      modifies this
      ensures (View(), answer) == H.SetMark(old(View()), a)
    {
      if row.None? {
        return if a.Written? then H.NotQueued else H.MarkError;
      }
      if a.WriteErr? && !a.landed {
        return H.MarkError;
      }
      var queued := row.value.state == Queued;
      row := Some(Marked(row.value));
      return if a.WriteErr? then H.MarkError else if queued then H.Owned else H.NotQueued;
    }

    method SetEngineRef(h: H.Handle, a: H.Write) returns (ok: bool)
      modifies this
      ensures (View(), ok) == H.RecordRef(old(View()), h, a)
    {
      if row.None? || (a.WriteErr? && !a.landed) {
        return false;
      }
      ref := Some(h);
      return a.Written?;
    }

    method ClearHoldCode(a: H.Write)
      modifies this
      ensures View() == H.ClearHold(old(View()), a)
    {
      if row.Some? && (a.Written? || a.landed) {
        row := Some(HoldCodeCleared(row.value));
      }
    }

    // ------------------------------------------------------------ the intent

    method ApplyPersistedIntent(h: H.Handle, c: H.Candidate, perFileSelect: bool, e: H.IntentEnv) returns (i: H.Intent)
      modifies this
      ensures (View(), i) == H.ApplyIntent(old(View()), h, c, perFileSelect, e)
    {
      if c.limits {
        if e.limits.Lost? {
          transfers := transfers - {h};
          return H.Gone;
        }
        if e.limits.Err? && !e.limits.fault.Unsupported? {
          return H.OfFault(e.limits.fault);
        }
        log := log + [H.LimitsStated(h)];
      }
      if !c.selectFiles.Selection? || !perFileSelect {
        return H.Applied;
      }
      log := log + [H.SelectionSent(h, h in transfers && transfers[h] == H.Running, e.files.Ok?)];
      if e.files.Ok? {
        return H.Applied;
      }
      if e.files.Lost? {
        transfers := transfers - {h};
      }
      match e.listing {
        case ListingLost => return H.PendingListing;
        case NoEntries => return H.PendingListing;
        case ListingErr(f) =>
          Pause(h, e.pause);
          return H.OfFault(f);
        case Entries =>
          return if e.files.Lost? then H.Gone else H.OfFault(e.files.fault);
      }
    }

    // ----------------------------------------------------------- the release

    method RequeuePendingSelection(h: H.Handle, c: H.Candidate, env: H.Env)
      modifies this
      ensures View() == H.RunForMetadata(old(View()), h, c, env)
    {
      if c.parked {
        var requeued := Transition(Queued, env.requeue);
        if !requeued {
          return;
        }
      }
      var mark := MarkAdmissionPending(env.ownMark);
      if mark.Owned? {
        Resume(h, env.metadataResume);
      }
    }

    method MarkReleased(h: H.Handle, c: H.Candidate, env: H.Env) returns (r: H.Result)
      modifies this
      ensures (View(), r) == H.FinishRelease(old(View()), h, c, env)
    {
      var moved := Transition(Downloading, env.move);
      if moved {
        ClearHoldCode(env.clear);
        return H.Success;
      }
      var mark := MarkAdmissionPending(env.retryMark);
      if mark.MarkError? && !c.parked && !c.pending {
        Pause(h, env.stop);
        stranded := stranded || env.stop.Err?;
      }
      return H.StoreWriteError;
    }

    method Add(c: H.Candidate, env: H.Env) returns (added: bool)
      modifies this
      ensures (View(), added) == H.AddNew(old(View()), c, env)
    {
      if env.add.Ok? || (env.add.Err? && env.add.late) {
        transfers := transfers[env.newId := if c.HasIntent() then H.Stopped else H.Running];
        log := log + [H.Added(env.newId)] + if c.HasIntent() then [] else [H.Started(env.newId, row)];
      }
      return env.add.Ok?;
    }

    method SubmitFresh(c: H.Candidate, env: H.Env) returns (r: H.Result)
      modifies this
      ensures (View(), r) == H.AddPath(old(View()), c, env)
    {
      hide H.StartTransfer, H.StopTransfer, H.RemoveNew, H.Move, H.SetMark, H.RecordRef, H.ClearHold, H.ApplyIntent, H.RunForMetadata, H.FinishRelease, H.AddNew;
      if !c.hasSource {
        return H.NoSubmission;
      }
      var added := Add(c, env);
      if !added {
        return if env.add.Err? && env.add.fault.Down? then H.Unavailable else H.Refused;
      }
      var intent := ApplyPersistedIntent(env.newId, c, env.perFileSelect, env.freshIntent);
      if intent.IntentRefused? {
        RemoveStranded(env.newId, env.remove);
        return H.Refused;
      }
      var recorded := SetEngineRef(env.newId, env.setRef);
      if !recorded {
        RemoveStranded(env.newId, env.remove);
        return H.StoreWriteError;
      }
      if intent.PendingListing? {
        RequeuePendingSelection(env.newId, c, env);
        return H.SelectionPending;
      }
      if !intent.Applied? {
        return H.Incomplete;
      }
      if c.HasIntent() {
        Resume(env.newId, env.firstStart);
        if !env.firstStart.Ok? {
          return H.Incomplete;
        }
      }
      r := MarkReleased(env.newId, c, env);
    }

    /** The stored handle's branch; None falls through to the fresh submission. */
    method ReleaseHandle(h: H.Handle, c: H.Candidate, env: H.Env) returns (r: Option<H.Result>)
      modifies this
      ensures (View(), r) == H.HandlePath(old(View()), h, c, env)
    {
      hide H.StartTransfer, H.StopTransfer, H.Move, H.SetMark, H.RecordRef, H.ClearHold, H.ApplyIntent, H.RunForMetadata, H.FinishRelease, H.AddNew;
      if env.get.Lost? || (env.get.Ok? && h !in transfers) {
        transfers := transfers - {h};
        return None;
      }
      if env.get.Err? {
        return Some(if env.get.fault.Down? then H.Unavailable else H.Refused);
      }
      if transfers[h].Faulted? {
        return if transfers[h].diskFull then None else Some(H.Refused);
      }
      if c.selectFiles.Selection? && transfers[h].Running? {
        Pause(h, env.selectionPause);
        if env.selectionPause.Lost? {
          return None;
        }
        if env.selectionPause.Err? {
          return Some(if env.selectionPause.fault.Down? then H.Unavailable else H.Refused);
        }
      }
      r := ResumeHandle(h, c, env);
    }

    method ResumeHandle(h: H.Handle, c: H.Candidate, env: H.Env) returns (r: Option<H.Result>)
      modifies this
      ensures (View(), r) == H.ResumePath(old(View()), h, c, env)
    {
      hide H.StartTransfer, H.StopTransfer, H.Move, H.SetMark, H.RecordRef, H.ClearHold, H.ApplyIntent, H.RunForMetadata, H.FinishRelease, H.AddNew;
      var intent := ApplyPersistedIntent(h, c, env.perFileSelect, env.intent);
      match intent {
        case Gone => return None;
        case PendingListing =>
          RequeuePendingSelection(h, c, env);
          return Some(H.SelectionPending);
        case IntentDown => return Some(H.Unavailable);
        case IntentRefused => return Some(H.Refused);
        case Applied =>
      }
      Resume(h, env.resume);
      match env.resume {
        case Lost => return None;
        case Err(f, _) => return Some(if f.Down? then H.Unavailable else H.Refused);
        case Ok =>
      }
      var finished := MarkReleased(h, c, env);
      return Some(finished);
    }

    method Release(c: H.Candidate, env: H.Env) returns (r: H.Result)
      modifies this
      ensures (View(), r) == H.Release(old(View()), c, env)
    {
      hide H.HandlePath, H.AddPath;
      if !env.registered {
        return H.Unavailable;
      }
      if c.ref.Some? {
        var answer := ReleaseHandle(c.ref.value, c, env);
        if answer.Some? {
          return answer.value;
        }
      }
      r := SubmitFresh(c, env);
    }

    /** The tail of processCandidate: release, releaseFailed and the outcome. */
    method HandOff(c: H.Candidate, env: H.Env) returns (o: H.Outcome)
      modifies this
      ensures (View(), o) == H.HandOff(old(View()), c, env)
    {
      hide H.Release;
      var r := Release(c, env);
      if r.Success? {
        return H.Released;
      }
      if env.cancelled {
        return H.Aborted;
      }
      if r.Refused? {
        var _ := Transition(Failed, env.refuse);
        return H.Held;
      }
      ClearHoldCode(env.clear);
      if r.SelectionPending? || r.Incomplete? || (r.StoreWriteError? && c.ref.Some?) {
        return H.Spent;
      }
      return H.Held;
    }
  }
}
