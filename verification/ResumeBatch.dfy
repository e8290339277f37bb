/**
The operator's resume batch of internal/api/tasks_actions.go: every task is requeued
whatever the headroom, and the answers promise slots out of one snapshot that each ok
consumes.
*/
module ResumeBatch {
  import opened TaskRow
  import A = AdmissionPass

  /** One id of the request: what the preload read, and what the requeue would answer. */
  datatype Item = Unknown | SsrfBlocked | Known(engine: string, state: TaskState, moved: bool)

  datatype Answer = NotFound | Refused | MoveFailed | NoSlot | Ok

  datatype Counts = Counts(total: int, byEngine: map<string, int>) {
    function Of(engine: string): int {
      if engine in byEngine then byEngine[engine] else 0
    }
  }

  /** Limits.Blocked, over the snapshot. */
  predicate Blocked(l: A.Limits, c: Counts, engine: string) {
    A.BlockedByTotal(l, c.total) || (l.maxPerEngine > 0 && c.Of(engine) >= l.maxPerEngine)
  }

  function Reserved(c: Counts, engine: string): Counts {
    Counts(c.total + 1, c.byEngine[engine := c.Of(engine) + 1])
  }

  /** resumeAction: the requeue first, then the headroom. */
  function Resume(l: A.Limits, c: Counts, i: Item): (Counts, Answer) {
    match i
    case Unknown => (c, NotFound)
    case SsrfBlocked => (c, Refused)
    case Known(engine, state, moved) =>
      if state != Queued && !moved then (c, MoveFailed)
      else if Blocked(l, c, engine) then (c, NoSlot)
      else (Reserved(c, engine), Ok)
  }

  function ResumeAll(l: A.Limits, c: Counts, items: seq<Item>): (Counts, seq<Answer>) {
    if items == [] then (c, [])
    else
      var (c1, answers) := ResumeAll(l, c, items[..|items| - 1]);
      var (c2, a) := Resume(l, c1, items[|items| - 1]);
      (c2, answers + [a])
  }

  function Oks(answers: seq<Answer>): nat {
    if answers == [] then 0 else Oks(answers[..|answers| - 1]) + (if answers[|answers| - 1] == Ok then 1 else 0)
  }

  /** The batch never promises more slots than the snapshot had free. */
  lemma {:induction false} PromisesFitTheHeadroom(l: A.Limits, c: Counts, items: seq<Item>, engine: string)
    ensures var (c', answers) := ResumeAll(l, c, items);
            && |answers| == |items| && c'.total == c.total + Oks(answers) && c.Of(engine) <= c'.Of(engine)
            && (l.maxTotal > 0 ==> c'.total <= A.Max(c.total, l.maxTotal))
            && (l.maxPerEngine > 0 ==> c'.Of(engine) <= A.Max(c.Of(engine), l.maxPerEngine))
  {
    if items != [] {
      var n := |items| - 1;
      PromisesFitTheHeadroom(l, c, items[..n], engine);
      var (c1, answers) := ResumeAll(l, c, items[..n]);
      assert (answers + [Resume(l, c1, items[n]).1])[..n] == answers;
    }
  }

  /** How many of the tasks on one engine were promised a slot. */
  function OksOn(items: seq<Item>, answers: seq<Answer>, engine: string): nat
    requires |answers| == |items|
  {
    if items == [] then 0
    else
      var n := |items| - 1;
      OksOn(items[..n], answers[..n], engine)
      + (if answers[n] == Ok && items[n].Known? && items[n].engine == engine then 1 else 0)
  }

  /** The counts a task meets are the snapshot's and the promises before it. */
  lemma {:induction false} CountsAreThePromises(l: A.Limits, c: Counts, items: seq<Item>, engine: string)
    ensures var (c', answers) := ResumeAll(l, c, items);
            && |answers| == |items| && c'.total == c.total + Oks(answers)
            && c'.Of(engine) == c.Of(engine) + OksOn(items, answers, engine)
  {
    if items != [] {
      var n := |items| - 1;
      CountsAreThePromises(l, c, items[..n], engine);
      var (c1, answers) := ResumeAll(l, c, items[..n]);
      assert (answers + [Resume(l, c1, items[n]).1])[..n] == answers;
    }
  }

  lemma {:induction false} OneAnswerEach(l: A.Limits, c: Counts, items: seq<Item>)
    ensures |ResumeAll(l, c, items).1| == |items|
  {
    hide Resume;
    if items != [] {
      OneAnswerEach(l, c, items[..|items| - 1]);
    }
  }

  lemma {:induction false} AnswersArePrefixes(l: A.Limits, c: Counts, items: seq<Item>, k: nat)
    requires k < |items|
    ensures |ResumeAll(l, c, items).1| == |items| && |ResumeAll(l, c, items[..k]).1| == k
    ensures ResumeAll(l, c, items).1[..k] == ResumeAll(l, c, items[..k]).1
    ensures ResumeAll(l, c, items).1[k] == Resume(l, ResumeAll(l, c, items[..k]).0, items[k]).1
  {
    hide Resume;
    var n := |items| - 1;
    OneAnswerEach(l, c, items);
    OneAnswerEach(l, c, items[..n]);
    OneAnswerEach(l, c, items[..k]);
    if k < n {
      AnswersArePrefixes(l, c, items[..n], k);
      assert items[..n][..k] == items[..k];
    }
  }

  /** A task without a slot was requeued all the same, and with a slot it was promised: the
      answer is no slot exactly when the snapshot's tasks and the promises before it have
      used up a limit that is set, in all or on the task's engine. */
  lemma AnswersTellTheHeadroom(l: A.Limits, c: Counts, items: seq<Item>, k: nat)
    requires k < |items| && items[k].Known? && (items[k].state == Queued || items[k].moved)
    ensures |ResumeAll(l, c, items).1| == |items|
    ensures var answers := ResumeAll(l, c, items).1;
            answers[k] == if (l.maxTotal > 0 && c.total + Oks(answers[..k]) >= l.maxTotal)
                             || (l.maxPerEngine > 0
                                 && (if items[k].engine in c.byEngine then c.byEngine[items[k].engine] else 0)
                                    + OksOn(items[..k], answers[..k], items[k].engine) >= l.maxPerEngine)
                          then NoSlot else Ok
  {
    AnswersArePrefixes(l, c, items, k);
    CountsAreThePromises(l, c, items[..k], items[k].engine);
  }

  /** The other answers: an unknown id, a blocked one, a task that cannot be requeued. */
  lemma OtherAnswers(l: A.Limits, c: Counts, items: seq<Item>, k: nat)
    requires k < |items|
    ensures |ResumeAll(l, c, items).1| == |items|
    ensures var a := ResumeAll(l, c, items).1[k];
            && (a == NotFound <==> items[k].Unknown?) && (a == Refused <==> items[k].SsrfBlocked?)
            && (a == MoveFailed <==> items[k].Known? && items[k].state != Queued && !items[k].moved)
  {
    AnswersArePrefixes(l, c, items, k);
  }

  /** The snapshot the loop consumes. */
  class Snapshot {
    const limits: A.Limits
    var total: int
    var byEngine: map<string, int>

    ghost function View(): Counts
      reads this
    {
      Counts(total, byEngine)
    }

    constructor (l: A.Limits, c: Counts)
      ensures limits == l && View() == c
    {
      limits, total, byEngine := l, c.total, c.byEngine;
    }

    method Reserve(engine: string)
      modifies this
      ensures View() == Reserved(old(View()), engine)
    {
      total := total + 1;
      byEngine := byEngine[engine := (if engine in byEngine then byEngine[engine] else 0) + 1];
    }
  }

  method ResumeTasks(snap: Snapshot, items: seq<Item>) returns (answers: seq<Answer>)
    modifies snap
    ensures (snap.View(), answers) == ResumeAll(snap.limits, old(snap.View()), items)
  {
    answers := [];
    for i := 0 to |items|
      invariant (snap.View(), answers) == ResumeAll(snap.limits, old(snap.View()), items[..i])
    {
      assert items[..i + 1][..i] == items[..i];
      match items[i] {
        case Unknown => answers := answers + [NotFound];
        case SsrfBlocked => answers := answers + [Refused];
        case Known(engine, state, moved) =>
          if state != Queued && !moved {
            answers := answers + [MoveFailed];
          } else if Blocked(snap.limits, Counts(snap.total, snap.byEngine), engine) {
            answers := answers + [NoSlot];
          } else {
            snap.Reserve(engine);
            answers := answers + [Ok];
          }
      }
    }
    assert items[..|items|] == items;
  }
}
