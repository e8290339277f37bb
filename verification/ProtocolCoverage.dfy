/**
The pause protocol against the two models of what it interleaves: every verdict of the
pass is a step the protocol lets a pass take, and every write of a hand-off is one it lets
a releasing pass take.  So what PauseProtocol proves of all interleavings is proved of
those of AdmissionPass and Handoff.
*/
module ProtocolCoverage {
  import opened Options
  import opened TaskRow
  import P = PauseProtocol
  import A = AdmissionPass
  import H = Handoff

  // ------------------------------------------------------------ the verdicts

  /** One pass, past its revalidation, alone with the row. */
  function Revalidated(row: Row, parked: bool): P.World {
    P.World(Some(row), Some(0), map[0 := P.PassCurrent(parked, 0)], 0)
  }

  /** What a pass decides is a step it may take: the stamp it writes, the claim of a parked
      row that still carries the pair, the submission of a queued one. */
  lemma VerdictsAreSteps(env: A.Env, s: A.State, c: A.Candidate, t: A.Turn, row: Row)
    requires t.Goes? && row.state == (if c.parked then Paused else Queued) && (c.parked ==> row.code == DiskFull)
    ensures var w := Revalidated(row, c.parked);
            match A.Judge(env, s, c, t).1
            case StampHold(code) =>
              P.Enabled(w, P.Stamp(0, code)) && P.Next(w, P.Stamp(0, code)).row == Some(row.(code := code))
            case HandOff =>
              var e := if c.parked then P.Claim(0) else P.Submit(0);
              P.Enabled(w, e) && P.Next(w, e).Proc(0).PassReleasing? && P.Next(w, e).row == Some(row)
            case _ => P.Enabled(w, P.Quit(0)) && P.Next(w, P.Quit(0)).row == Some(row)
  {
    hide A.Reserve, A.Blocked, A.Remaining;
  }

  // ------------------------------------------------------------ the hand-off

  /** A pass in its release. */
  function Releasing(row: Option<Row>): P.World {
    P.World(row, Some(0), map[0 := P.PassReleasing], 0)
  }

  /** Steps a releasing pass takes, and no others. */
  ghost predicate Writes(es: seq<P.Event>) {
    forall e :: e in es ==> (e.Move? || e.Mark? || e.ClearHold?) && e.a == 0
  }

  /** Every step of the sequence is enabled where it is taken. */
  ghost predicate Taken(w: P.World, es: seq<P.Event>) {
    forall k :: 0 <= k < |es| ==> P.Enabled(P.Run(w, es[..k]), es[k])
  }

  /** The protocol's releasing pass can bring one row to the other. */
  ghost predicate Brings(row: Option<Row>, row': Option<Row>) {
    exists es: seq<P.Event> :: Writes(es) && Taken(Releasing(row), es) && P.Run(Releasing(row), es) == Releasing(row')
  }

  lemma BringsItself(row: Option<Row>)
    ensures Brings(row, row)
  {
    var es: seq<P.Event> := [];
    assert P.Run(Releasing(row), es) == Releasing(row);
    assert Writes(es) && Taken(Releasing(row), es);
  }

  lemma BringsOneMore(row: Option<Row>, row1: Option<Row>, e: P.Event)
    requires Brings(row, row1) && Writes([e]) && P.Enabled(Releasing(row1), e)
    ensures Brings(row, P.Next(Releasing(row1), e).row)
  {
    var es: seq<P.Event> :| Writes(es) && Taken(Releasing(row), es) && P.Run(Releasing(row), es) == Releasing(row1);
    var more := es + [e];
    assert more[..|es|] == es;
    assert e in [e];
    forall k | 0 <= k < |more| ensures P.Enabled(P.Run(Releasing(row), more[..k]), more[k]) {
      assert k < |es| ==> more[..k] == es[..k];
    }
    assert P.Run(Releasing(row), more) == Releasing(P.Next(Releasing(row1), e).row);
    assert Writes(more) && Taken(Releasing(row), more);
  }

  /** A write that landed on the row as one enabled step, or did not. */
  lemma StepOrNothing(row: Option<Row>, row1: Option<Row>, row2: Option<Row>, e: P.Event)
    requires Brings(row, row1) && (e.Move? || e.Mark? || e.ClearHold?) && e.a == 0
    requires row2 == row1 || (P.Enabled(Releasing(row1), e) && row2 == P.Next(Releasing(row1), e).row)
    ensures Brings(row, row2)
  {
    hide Brings, P.Enabled, P.Next;
    if row2 != row1 {
      BringsOneMore(row, row1, e);
    }
  }

  /** One write of the hand-off is no step, or one the releasing pass may take. */
  lemma WriteIsAStep(row: Option<Row>, w: H.World, next: TaskState, a: H.Write)
    requires Brings(row, w.row) && next in {Downloading, Queued, Failed}
    ensures Brings(row, H.Move(w, next, a).0.row) && Brings(row, H.SetMark(w, a).0.row) && Brings(row, H.ClearHold(w, a).row)
  {
    hide Brings;
    StepOrNothing(row, w.row, H.Move(w, next, a).0.row, P.Move(0, next));
    StepOrNothing(row, w.row, H.SetMark(w, a).0.row, P.Mark(0));
    StepOrNothing(row, w.row, H.ClearHold(w, a).row, P.ClearHold(0));
  }

  lemma FinishIsSteps(row: Option<Row>, w: H.World, h: H.Handle, c: H.Candidate, env: H.Env)
    requires Brings(row, w.row)
    ensures Brings(row, H.FinishRelease(w, h, c, env).0.row)
  {
    hide Brings, H.Move, H.SetMark, H.ClearHold;
    WriteIsAStep(row, w, Downloading, env.move);
    var w1 := H.Move(w, Downloading, env.move).0;
    WriteIsAStep(row, w1, Downloading, env.clear);
    WriteIsAStep(row, w1, Downloading, env.retryMark);
  }

  lemma MetadataIsSteps(row: Option<Row>, w: H.World, h: H.Handle, c: H.Candidate, env: H.Env)
    requires Brings(row, w.row)
    ensures Brings(row, H.RunForMetadata(w, h, c, env).row)
  {
    hide Brings, H.Move, H.SetMark;
    WriteIsAStep(row, w, Queued, env.requeue);
    WriteIsAStep(row, w, Queued, env.ownMark);
    WriteIsAStep(row, H.Move(w, Queued, env.requeue).0, Queued, env.ownMark);
  }

  lemma ResumeIsSteps(row: Option<Row>, w: H.World, h: H.Handle, c: H.Candidate, env: H.Env)
    requires Brings(row, w.row)
    ensures Brings(row, H.ResumePath(w, h, c, env).0.row)
  {
    hide Brings, H.ApplyIntent, H.FinishRelease, H.RunForMetadata;
    H.IntentFrame(w, h, c, env.perFileSelect, env.intent);
    var w1 := H.ApplyIntent(w, h, c, env.perFileSelect, env.intent).0;
    MetadataIsSteps(row, w1, h, c, env);
    FinishIsSteps(row, H.StartTransfer(w1, h, env.resume), h, c, env);
  }

  lemma RecordedIsSteps(row: Option<Row>, w: H.World, c: H.Candidate, intent: H.Intent, env: H.Env)
    requires Brings(row, w.row)
    ensures Brings(row, H.AfterRecording(w, c, intent, env).0.row)
  {
    hide Brings, H.FinishRelease, H.RunForMetadata;
    MetadataIsSteps(row, w, env.newId, c, env);
    FinishIsSteps(row, w, env.newId, c, env);
    FinishIsSteps(row, H.StartTransfer(w, env.newId, env.firstStart), env.newId, c, env);
  }

  lemma AddIsSteps(row: Option<Row>, w: H.World, c: H.Candidate, env: H.Env)
    requires Brings(row, w.row)
    ensures Brings(row, H.AddPath(w, c, env).0.row)
  {
    hide Brings, H.ApplyIntent, H.AfterRecording;
    var w1 := H.AddNew(w, c, env).0;
    H.IntentFrame(w1, env.newId, c, env.perFileSelect, env.freshIntent);
    var (w2, intent) := H.ApplyIntent(w1, env.newId, c, env.perFileSelect, env.freshIntent);
    RecordedIsSteps(row, H.RecordRef(w2, env.newId, env.setRef).0, c, intent, env);
  }

  lemma HandleIsSteps(row: Option<Row>, w: H.World, h: H.Handle, c: H.Candidate, env: H.Env)
    requires Brings(row, w.row)
    ensures Brings(row, H.HandlePath(w, h, c, env).0.row)
  {
    hide Brings, H.ResumePath;
    ResumeIsSteps(row, w, h, c, env);
    ResumeIsSteps(row, H.StopTransfer(w, h, env.selectionPause), h, c, env);
  }

  lemma ReleaseIsSteps(row: Option<Row>, w: H.World, c: H.Candidate, env: H.Env)
    requires Brings(row, w.row)
    ensures Brings(row, H.Release(w, c, env).0.row)
  {
    hide Brings, H.HandlePath, H.AddPath;
    AddIsSteps(row, w, c, env);
    if c.ref.Some? {
      HandleIsSteps(row, w, c.ref.value, c, env);
      AddIsSteps(row, H.HandlePath(w, c.ref.value, c, env).0, c, env);
    }
  }

  /** Everything a hand-off writes on the row, under any failure pattern, is a run of steps
      the protocol allows a releasing pass, with the same row at its end. */
  lemma HandOffIsSteps(w: H.World, c: H.Candidate, env: H.Env)
    ensures Brings(w.row, H.HandOff(w, c, env).0.row)
  {
    hide Brings, H.Release, H.Move, H.ClearHold;
    BringsItself(w.row);
    ReleaseIsSteps(w.row, w, c, env);
    var w1 := H.Release(w, c, env).0;
    WriteIsAStep(w.row, w1, Failed, env.refuse);
    WriteIsAStep(w.row, w1, Failed, env.clear);
  }
}
