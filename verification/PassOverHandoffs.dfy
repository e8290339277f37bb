/**
The pass of AdmissionPass with its answers computed by Handoff: what the database counts
after a pass, in terms of the hand-offs that happened in it.
*/
module PassOverHandoffs {
  import opened AdmissionPass
  import HandoffRuns

  /** One hand-off: the task's world under the lease, the candidate, and every answer. */
  datatype Meeting = Meeting(w: H.World, c: H.Candidate, env: H.Env)

  predicate LeavesCounted(m: Meeting) {
    var row := H.HandOff(m.w, m.c, m.env).0.row;
    row.Some? && R.Counted(row.value)
  }

  /** The turn is what this hand-off answers. */
  predicate Meets(c: Candidate, t: Turn, m: Meeting) {
    && m.c.parked == c.parked && m.c.pending == c.pending && H.Current(m.w, m.c)
    && (!c.Marked() ==> !R.Counted(m.w.row.value))
    && t.Goes? && t.outcome == H.HandOff(m.w, m.c, m.env).1 && t.counted == LeavesCounted(m)
  }

  /** A first hand-off one of whose store writes was not answered. */
  predicate Unanswered(m: Meeting) {
    m.c.ref.None? && m.c.hasSource && H.Release(m.w, m.c, m.env).1.StoreWriteError?
  }

  lemma EscapesAreUnanswered(env: Env, s: State, c: Candidate, t: Turn, m: Meeting)
    requires Meets(c, t, m) && Escapes(env, s, c, t)
    ensures Unanswered(m)
  {
    HandoffRuns.RefusalsLeaveTheRow(m.w, m.c, m.env);
    HandoffRuns.ChargeCoversTheRow(m.w, m.c);
    assert !HandoffRuns.Charged(m.w, m.c, m.env);
    hide H.Release, HandoffRuns.Charged;
  }

  ghost predicate AllMeet(cs: seq<Candidate>, ts: seq<Turn>, ms: seq<Meeting>) {
    |cs| == |ts| == |ms| && forall i :: 0 <= i < |ts| && ts[i].Goes? ==> Meets(cs[i], ts[i], ms[i])
  }

  function UnansweredIn(ts: seq<Turn>, ms: seq<Meeting>): nat
    requires |ts| == |ms|
  {
    if ts == [] then 0
    else
      var n := |ts| - 1;
      UnansweredIn(ts[..n], ms[..n]) + (if ts[n].Goes? && Unanswered(ms[n]) then 1 else 0)
  }

  lemma {:induction false} EscapedAreUnanswered(env: Env, s: State, cs: seq<Candidate>, ts: seq<Turn>, ms: seq<Meeting>)
    requires AllMeet(cs, ts, ms)
    ensures Escaped(env, s, cs, ts) <= UnansweredIn(ts, ms)
  {
    hide Walk, Unanswered, Meets;
    if cs != [] {
      var n := |cs| - 1;
      EscapedAreUnanswered(env, s, cs[..n], ts[..n], ms[..n]);
      var s1 := Walk(env, s, cs[..n], ts[..n]);
      if Escapes(env, s1, cs[n], ts[n]) {
        EscapesAreUnanswered(env, s1, cs[n], ts[n], ms[n]);
      }
    }
  }

  /** After a pass over any hand-offs, with any failures in them, the database counts at most
      the limit, or what it counted before, and one more for each first hand-off one of
      whose writes was not answered. */
  lemma DatabaseStaysNearTheLimit(env: Env, s: State, cs: seq<Candidate>, ts: seq<Turn>, ms: seq<Meeting>)
    requires AllMeet(cs, ts, ms) && env.limits.maxTotal > 0
    ensures s.total + NewlyCounted(env, s, cs, ts) <= Max(s.total, env.limits.maxTotal) + UnansweredIn(ts, ms)
  {
    hide *;
    SameLengths(cs, ts, ms);
    DatabaseNeverPastALimit(env, s, cs, ts);
    EscapedAreUnanswered(env, s, cs, ts, ms);
  }

  lemma SameLengths(cs: seq<Candidate>, ts: seq<Turn>, ms: seq<Meeting>)
    requires AllMeet(cs, ts, ms)
    ensures |cs| == |ts| == |ms|
  {
  }

  lemma {:induction false} NoneUnanswered(ts: seq<Turn>, ms: seq<Meeting>)
    requires |ts| == |ms| && forall i :: 0 <= i < |ts| && ts[i].Goes? ==> ms[i].c.ref.Some? || !ms[i].c.hasSource
    ensures UnansweredIn(ts, ms) == 0
  {
    if ts != [] {
      NoneUnanswered(ts[..|ts| - 1], ms[..|ts| - 1]);
    }
  }

  /** And never past it when every candidate arrives with a handle, or with nothing to
      submit, for every failure pattern. */
  lemma DatabaseStaysInTheLimit(env: Env, s: State, cs: seq<Candidate>, ts: seq<Turn>, ms: seq<Meeting>)
    requires AllMeet(cs, ts, ms) && env.limits.maxTotal > 0
    requires forall i :: 0 <= i < |ts| && ts[i].Goes? ==> ms[i].c.ref.Some? || !ms[i].c.hasSource
    ensures s.total + NewlyCounted(env, s, cs, ts) <= Max(s.total, env.limits.maxTotal)
  {
    DatabaseStaysNearTheLimit(env, s, cs, ts, ms);
    NoneUnanswered(ts, ms);
  }
}
