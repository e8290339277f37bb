/**
The task-operation lease table as a state machine.

Every mutex section of internal/engine/registry.go is one step, and the end of a
parked caller's context is a step of its own, so a sequence of operations is one
interleaving of any number of callers.  An acquisition is named by its token's
sequence number; an entry, whose identity the release closures depend on, is named
by the token that was minted when the entry was built.
*/
module LeaseTable {
  import opened Options

  type TaskId = string
  type Token = nat
  type EntryId = nat

  datatype Mode = Try | Wait

  /** Where one AcquireTaskOp call stands: waiting in its select, returned with the
      lease, its release called, or returned with the context's error. */
  datatype Phase = Parked | Held | Released | Cancelled

  datatype Call = Call(entry: EntryId, phase: Phase, won: bool, ended: bool) {
    /** The call has the lease, or has been granted it and not noticed yet. */
    predicate Owns() {
      phase == Held || (phase == Parked && won)
    }

    /** The call still waits for a grant that nobody has given it. */
    predicate Waiting() {
      phase == Parked && !won
    }
  }

  datatype Entry = Entry(task: TaskId, holder: Option<Token>, waiters: seq<Token>)

  datatype Table = Table(
    leases: map<TaskId, EntryId>,
    entries: map<EntryId, Entry>,
    calls: map<Token, Call>,
    nextToken: Token)

  datatype Op =
    | Acquire(task: TaskId, mode: Mode)
    | EndContext(token: Token)
    | Wake(token: Token)
    | GiveUp(token: Token)
    | Release(token: Token)

  datatype Answer = Granted(token: Token) | Busy | Parking(token: Token) | ContextError(token: Token) | Silent

  const Empty: Table := Table(map[], map[], map[], 0)

  // ------------------------------------------------------------------ steps

  /** The hand-off: drop waiters whose context has ended, grant to the first other. */
  function Handoff(waiters: seq<Token>, calls: map<Token, Call>): (r: (Option<Token>, seq<Token>))
    ensures r.0.Some? ==> r.0.value in waiters
    ensures forall w :: w in r.1 ==> w in waiters
  {
    if waiters == [] then (None, [])
    else if waiters[0] in calls && calls[waiters[0]].ended then Handoff(waiters[1..], calls)
    else (Some(waiters[0]), waiters[1..])
  }

  /** removeWaiter: the queue without the first occurrence of a token. */
  function Without(waiters: seq<Token>, token: Token): (r: seq<Token>)
    ensures forall w :: w in r ==> w in waiters
    ensures forall w :: w in waiters && w != token ==> w in r
  {
    if waiters == [] then []
    else if waiters[0] == token then waiters[1..]
    else [waiters[0]] + Without(waiters[1..], token)
  }

  function AcquireStep(s: Table, task: TaskId, mode: Mode): (Table, Answer)
  {
    var token := s.nextToken + 1;
    if task !in s.leases || s.leases[task] !in s.entries then
      (Table(s.leases[task := token], s.entries[token := Entry(task, Some(token), [])],
             s.calls[token := Call(token, Held, false, false)], token),
       Granted(token))
    else
      var id := s.leases[task];
      var entry := s.entries[id];
      if entry.holder.None? then
        (s.(entries := s.entries[id := entry.(holder := Some(token))],
            calls := s.calls[token := Call(id, Held, false, false)], nextToken := token),
         Granted(token))
      else if mode == Try then
        (s, Busy)
      else
        (s.(entries := s.entries[id := entry.(waiters := entry.waiters + [token])],
            calls := s.calls[token := Call(id, Parked, false, false)], nextToken := token),
         Parking(token))
  }

  function GiveUpStep(s: Table, token: Token): (Table, Answer)
    requires token in s.calls
  {
    var call := s.calls[token];
    if call.won then
      (s.(calls := s.calls[token := call.(phase := Held)]), Granted(token))
    else
      var entries :=
        if call.entry in s.entries then
          s.entries[call.entry := s.entries[call.entry].(waiters := Without(s.entries[call.entry].waiters, token))]
        else s.entries;
      (s.(entries := entries, calls := s.calls[token := call.(phase := Cancelled)]), ContextError(token))
  }

  function ReleaseStep(s: Table, token: Token): Table
    requires token in s.calls
  {
    var call := s.calls[token];
    var calls := s.calls[token := call.(phase := Released)];
    if call.entry !in s.entries || s.entries[call.entry].holder != Some(token) then
      s.(calls := calls)
    else
      var entry := s.entries[call.entry];
      var (winner, rest) := Handoff(entry.waiters, s.calls);
      if winner.Some? && winner.value in calls then
        s.(entries := s.entries[call.entry := Entry(entry.task, winner, rest)],
           calls := calls[winner.value := calls[winner.value].(won := true)])
      else
        s.(entries := s.entries[call.entry := Entry(entry.task, None, [])],
           leases := if entry.task in s.leases && s.leases[entry.task] == call.entry
                     then s.leases - {entry.task} else s.leases,
           calls := calls)
  }

  /** Who can take which step: a context ends only while it is waited on, only a
      granted waiter wakes, only an ended context gives up, and only a call that
      returned the lease has a release closure, which it may call any number of times. */
  predicate Enabled(s: Table, op: Op) {
    match op
    case Acquire(_, _) => true
    case EndContext(t) => t in s.calls && s.calls[t].phase == Parked
    case Wake(t) => t in s.calls && s.calls[t].phase == Parked && s.calls[t].won
    case GiveUp(t) => t in s.calls && s.calls[t].phase == Parked && s.calls[t].ended
    case Release(t) => t in s.calls && s.calls[t].phase in {Held, Released}
  }

  function Step(s: Table, op: Op): (Table, Answer)
  {
    if !Enabled(s, op) then (s, Silent) else
    match op
    case Acquire(task, mode) => AcquireStep(s, task, mode)
    case EndContext(t) => (s.(calls := s.calls[t := s.calls[t].(ended := true)]), Silent)
    case Wake(t) => (s.(calls := s.calls[t := s.calls[t].(phase := Held)]), Granted(t))
    case GiveUp(t) => GiveUpStep(s, t)
    case Release(t) => (ReleaseStep(s, t), Silent)
  }

  /** The table after one interleaving, from the empty table. */
  function Exec(ops: seq<Op>): Table {
    if ops == [] then Empty else Step(Exec(ops[..|ops| - 1]), ops[|ops| - 1]).0
  }

  // -------------------------------------------------------------- invariant

  ghost predicate Ascending(ws: seq<Token>) {
    forall i, j :: 0 <= i < j < |ws| ==> ws[i] < ws[j]
  }

  ghost predicate EntryInv(s: Table, id: EntryId)
    requires id in s.entries
  {
    var e := s.entries[id];
    && id <= s.nextToken
    && (e.holder.None? ==> e.waiters == [])
    && (e.holder.Some? ==>
          && e.task in s.leases && s.leases[e.task] == id
          && e.holder.value in s.calls && s.calls[e.holder.value].entry == id && s.calls[e.holder.value].Owns())
    && Ascending(e.waiters)
    && (forall w :: w in e.waiters ==> w in s.calls && s.calls[w].entry == id && s.calls[w].Waiting())
  }

  ghost predicate CallInv(s: Table, t: Token)
    requires t in s.calls
  {
    var c := s.calls[t];
    && t <= s.nextToken
    && c.entry in s.entries
    && (c.Owns() ==> s.entries[c.entry].holder == Some(t))
    && (c.Waiting() ==> c.ended || t in s.entries[c.entry].waiters)
  }

  ghost predicate LeaseInv(s: Table, k: TaskId)
    requires k in s.leases
  {
    s.leases[k] in s.entries && s.entries[s.leases[k]].task == k && s.entries[s.leases[k]].holder.Some?
  }

  ghost predicate Inv(s: Table) {
    && (forall k :: k in s.leases ==> LeaseInv(s, k))
    && (forall id :: id in s.entries ==> EntryInv(s, id))
    && (forall t :: t in s.calls ==> CallInv(s, t))
  }

  lemma {:induction false} HandoffFacts(ws: seq<Token>, calls: map<Token, Call>)
    requires Ascending(ws)
    ensures var (winner, rest) := Handoff(ws, calls);
            && Ascending(rest)
            && (winner.Some? ==> !(winner.value in calls && calls[winner.value].ended)
                                 && (forall w :: w in rest ==> winner.value < w))
            && (winner.None? ==> rest == [])
            && (forall w :: w in ws && !(winner.Some? && w == winner.value) && w !in rest ==> w in calls && calls[w].ended)
  {
    if ws != [] && ws[0] in calls && calls[ws[0]].ended {
      HandoffFacts(ws[1..], calls);
    }
  }

  lemma PrependAscends(w: Token, ws: seq<Token>)
    requires Ascending(ws) && forall v :: v in ws ==> w < v
    ensures Ascending([w] + ws)
  {
    assert forall i :: 0 <= i < |ws| ==> ws[i] in ws;
  }

  lemma {:induction false} WithoutFacts(ws: seq<Token>, t: Token)
    requires Ascending(ws)
    ensures Ascending(Without(ws, t)) && t !in Without(ws, t)
  {
    if ws != [] && ws[0] != t {
      WithoutFacts(ws[1..], t);
      var r := Without(ws[1..], t);
      forall w | w in r ensures ws[0] < w {
        assert w in ws[1..];
      }
      PrependAscends(ws[0], r);
    }
  }

  lemma AcquireKeepsEntry(s: Table, task: TaskId, mode: Mode, id: EntryId)
    requires task in s.leases ==> s.leases[task] in s.entries && EntryInv(s, s.leases[task])
    requires task in s.leases ==> s.entries[s.leases[task]].task == task && s.entries[s.leases[task]].holder.Some?
    requires id in AcquireStep(s, task, mode).0.entries
    requires id in s.entries ==> EntryInv(s, id)
    requires forall t :: t in s.calls ==> t <= s.nextToken
    ensures EntryInv(AcquireStep(s, task, mode).0, id)
  {
    if task in s.leases && mode == Wait && s.leases[task] == id {
      assert forall i :: 0 <= i < |s.entries[id].waiters| ==> s.entries[id].waiters[i] in s.entries[id].waiters;
    }
  }

  lemma AcquireKeepsCall(s: Table, task: TaskId, mode: Mode, t: Token)
    requires task in s.leases ==> s.leases[task] in s.entries && s.entries[s.leases[task]].holder.Some?
    requires t in AcquireStep(s, task, mode).0.calls
    requires t in s.calls ==> CallInv(s, t)
    requires s.nextToken + 1 !in s.calls && s.nextToken + 1 !in s.entries
    ensures CallInv(AcquireStep(s, task, mode).0, t)
  {
  }

  lemma AcquireKeepsLease(s: Table, task: TaskId, mode: Mode, k: TaskId)
    requires k in AcquireStep(s, task, mode).0.leases && s.nextToken + 1 !in s.entries
    requires k in s.leases ==> LeaseInv(s, k)
    requires task in s.leases ==> LeaseInv(s, task)
    ensures LeaseInv(AcquireStep(s, task, mode).0, k)
  {
  }

  lemma AcquireKeepsInv(s: Table, task: TaskId, mode: Mode)
    requires Inv(s)
    ensures Inv(AcquireStep(s, task, mode).0)
  {
    var s' := AcquireStep(s, task, mode).0;
    TokensBounded(s);
    assert task in s.leases ==> LeaseInv(s, task);
    forall k | k in s'.leases ensures LeaseInv(s', k) {
      assert k in s.leases ==> LeaseInv(s, k);
      AcquireKeepsLease(s, task, mode, k);
    }
    forall id | id in s'.entries ensures EntryInv(s', id) {
      assert id in s.entries ==> EntryInv(s, id);
      assert task in s.leases ==> EntryInv(s, s.leases[task]);
      AcquireKeepsEntry(s, task, mode, id);
    }
    forall t | t in s'.calls ensures CallInv(s', t) {
      assert t in s.calls ==> CallInv(s, t);
      AcquireKeepsCall(s, task, mode, t);
    }
  }

  lemma TokensBounded(s: Table)
    requires Inv(s)
    ensures forall t :: t in s.calls ==> t <= s.nextToken
    ensures forall id :: id in s.entries ==> id <= s.nextToken
  {
    forall t | t in s.calls ensures t <= s.nextToken {
      assert CallInv(s, t);
    }
    forall id | id in s.entries ensures id <= s.nextToken {
      assert EntryInv(s, id);
    }
  }

  lemma GiveUpKeepsEntry(s: Table, token: Token, id: EntryId)
    requires Enabled(s, GiveUp(token)) && CallInv(s, token)
    requires id in s.entries && EntryInv(s, id)
    ensures id in GiveUpStep(s, token).0.entries && EntryInv(GiveUpStep(s, token).0, id)
  {
    WithoutFacts(s.entries[id].waiters, token);
  }

  lemma GiveUpKeepsCall(s: Table, token: Token, t: Token)
    requires Enabled(s, GiveUp(token)) && CallInv(s, token)
    requires t in s.calls && CallInv(s, t)
    ensures t in GiveUpStep(s, token).0.calls && CallInv(GiveUpStep(s, token).0, t)
  {
  }

  lemma GiveUpKeepsInv(s: Table, token: Token)
    requires Inv(s) && Enabled(s, GiveUp(token))
    ensures Inv(GiveUpStep(s, token).0)
  {
    var s' := GiveUpStep(s, token).0;
    assert CallInv(s, token);
    forall k | k in s'.leases ensures LeaseInv(s', k) {
      assert LeaseInv(s, k);
    }
    forall id | id in s'.entries ensures EntryInv(s', id) {
      assert EntryInv(s, id);
      GiveUpKeepsEntry(s, token, id);
    }
    forall t | t in s'.calls ensures CallInv(s', t) {
      assert CallInv(s, t);
      GiveUpKeepsCall(s, token, t);
    }
  }

  /** Everything a release needs to know about the entry it acts on. */
  ghost predicate ReleaseContext(s: Table, token: Token) {
    && token in s.calls && s.calls[token].phase in {Held, Released} && CallInv(s, token)
    && s.calls[token].entry in s.entries && EntryInv(s, s.calls[token].entry)
  }

  lemma ReleaseKeepsItsEntry(s: Table, token: Token)
    requires ReleaseContext(s, token)
    ensures EntryInv(ReleaseStep(s, token), s.calls[token].entry)
  {
    HandoffFacts(s.entries[s.calls[token].entry].waiters, s.calls);
  }

  lemma ReleaseKeepsOtherEntry(s: Table, token: Token, id: EntryId)
    requires ReleaseContext(s, token) && id in s.entries && EntryInv(s, id) && id != s.calls[token].entry
    ensures id in ReleaseStep(s, token).entries && EntryInv(ReleaseStep(s, token), id)
  {
    var s' := ReleaseStep(s, token);
    var e := s.entries[id];
    var (winner, rest) := Handoff(s.entries[s.calls[token].entry].waiters, s.calls);
    assert s'.entries[id] == e;
    assert forall u :: u in s.calls && s.calls[u].entry == id ==> u in s'.calls && s'.calls[u] == s.calls[u];
  }

  lemma ReleaseKeepsCall(s: Table, token: Token, t: Token)
    requires ReleaseContext(s, token) && t in s.calls && CallInv(s, t)
    ensures CallInv(ReleaseStep(s, token), t)
  {
    var id := s.calls[token].entry;
    HandoffFacts(s.entries[id].waiters, s.calls);
    hide Handoff, Ascending;
    var (winner, rest) := Handoff(s.entries[id].waiters, s.calls);
    if s.calls[t].entry == id && winner.Some? && winner.value in s.calls {
      assert winner.value in s.entries[id].waiters;
    }
  }

  lemma ReleaseKeepsLease(s: Table, token: Token, k: TaskId)
    requires ReleaseContext(s, token)
    requires k in ReleaseStep(s, token).leases ==> k in s.leases && LeaseInv(s, k) && EntryInv(s, s.leases[k])
    ensures k in ReleaseStep(s, token).leases ==> LeaseInv(ReleaseStep(s, token), k)
  {
  }

  lemma ReleaseKeepsInv(s: Table, token: Token)
    requires Inv(s) && Enabled(s, Release(token))
    ensures ReleaseContext(s, token) && Inv(ReleaseStep(s, token))
  {
    var s' := ReleaseStep(s, token);
    assert CallInv(s, token);
    assert s.calls[token].entry in s.entries;
    assert EntryInv(s, s.calls[token].entry);
    hide EntryInv, CallInv, LeaseInv, Handoff;
    forall id | id in s'.entries ensures EntryInv(s', id) {
      assert EntryInv(s, id);
      if id == s.calls[token].entry {
        ReleaseKeepsItsEntry(s, token);
      } else {
        ReleaseKeepsOtherEntry(s, token, id);
      }
    }
    forall t | t in s'.calls ensures CallInv(s', t) {
      assert CallInv(s, t);
      ReleaseKeepsCall(s, token, t);
    }
    forall k | k in s'.leases ensures LeaseInv(s', k) {
      assert LeaseInv(s, k);
      LeasedEntryKnown(s, k);
      assert EntryInv(s, s.leases[k]);
      ReleaseKeepsLease(s, token, k);
    }
  }

  lemma LeasedEntryKnown(s: Table, k: TaskId)
    requires k in s.leases && LeaseInv(s, k)
    ensures s.leases[k] in s.entries
  {
  }

  lemma StepKeepsInv(s: Table, op: Op)
    requires Inv(s)
    ensures Inv(Step(s, op).0)
  {
    if Enabled(s, op) {
      match op
      case Acquire(task, mode) => AcquireKeepsInv(s, task, mode);
      case GiveUp(t) => GiveUpKeepsInv(s, t);
      case Release(t) => ReleaseKeepsInv(s, t);
      case EndContext(t) =>
        assert CallInv(s, t);
        PhaseChangeKeepsInv(s, t, s.calls[t].(ended := true));
      case Wake(t) =>
        assert CallInv(s, t);
        PhaseChangeKeepsInv(s, t, s.calls[t].(phase := Held));
    }
  }

  lemma PhaseChangeKeepsInv(s: Table, t: Token, call: Call)
    requires Inv(s) && t in s.calls && call.entry == s.calls[t].entry
    requires call.Owns() == s.calls[t].Owns() && call.Waiting() == s.calls[t].Waiting()
    requires s.calls[t].ended ==> call.ended
    ensures Inv(s.(calls := s.calls[t := call]))
  {
    var s' := s.(calls := s.calls[t := call]);
    forall id | id in s'.entries ensures EntryInv(s', id) {
      assert EntryInv(s, id);
    }
    forall u | u in s'.calls ensures CallInv(s', u) {
      assert CallInv(s, u);
    }
  }

  /** Every reachable table keeps the invariant, whatever the interleaving. */
  lemma {:induction false} Reachable(ops: seq<Op>)
    ensures Inv(Exec(ops))
  {
    if ops != [] {
      Reachable(ops[..|ops| - 1]);
      StepKeepsInv(Exec(ops[..|ops| - 1]), ops[|ops| - 1]);
    }
  }

  // ------------------------------------------------------------ the theorems

  /** The entry an acquisition refers to, in the table or not. */
  ghost function EntryOf(s: Table, t: Token): Entry {
    if t in s.calls && s.calls[t].entry in s.entries then s.entries[s.calls[t].entry] else Entry("", None, [])
  }

  ghost function TaskOf(s: Table, t: Token): TaskId {
    EntryOf(s, t).task
  }

  ghost predicate OwnsTask(s: Table, t: Token, task: TaskId) {
    t in s.calls && s.calls[t].entry in s.entries && TaskOf(s, t) == task && s.calls[t].Owns()
  }

  ghost predicate WaitsLiveFor(s: Table, t: Token, task: TaskId) {
    t in s.calls && s.calls[t].entry in s.entries && TaskOf(s, t) == task && s.calls[t].Waiting() && !s.calls[t].ended
  }

  /** In every interleaving a task id has at most one un-released grant, the grant's
      entry is the one in the table, and entries in the table always have a holder. */
  lemma MutualExclusion(ops: seq<Op>, task: TaskId)
    ensures var s := Exec(ops);
            && (forall t, u :: OwnsTask(s, t, task) && OwnsTask(s, u, task) ==> t == u)
            && (forall t :: OwnsTask(s, t, task) ==> task in s.leases && s.leases[task] == s.calls[t].entry)
            && (task in s.leases ==> s.leases[task] in s.entries && s.entries[s.leases[task]].holder.Some?
                                     && OwnsTask(s, s.entries[s.leases[task]].holder.value, task))
  {
    Reachable(ops);
    var s := Exec(ops);
    forall t | OwnsTask(s, t, task) ensures task in s.leases && s.leases[task] == s.calls[t].entry
                                            && s.entries[s.leases[task]].holder == Some(t) {
      assert CallInv(s, t);
      assert EntryInv(s, s.calls[t].entry);
    }
    if task in s.leases {
      assert EntryInv(s, s.leases[task]);
    }
  }

  /** Nobody is stranded: a call still in its select is queued behind a holder of its
      own task, has been granted the lease, or has an ended context to answer. */
  lemma NobodyStranded(ops: seq<Op>, t: Token)
    requires t in Exec(ops).calls && Exec(ops).calls[t].phase == Parked
    ensures var s := Exec(ops);
            || Enabled(s, Wake(t))
            || Enabled(s, GiveUp(t))
            || (t in EntryOf(s, t).waiters
                && TaskOf(s, t) in s.leases && s.leases[TaskOf(s, t)] == s.calls[t].entry
                && exists h :: OwnsTask(s, h, TaskOf(s, t)))
  {
    Reachable(ops);
    var s := Exec(ops);
    assert CallInv(s, t);
    if !s.calls[t].won && !s.calls[t].ended {
      var id := s.calls[t].entry;
      assert EntryInv(s, id);
      assert OwnsTask(s, s.entries[id].holder.value, TaskOf(s, t));
    }
  }

  function Final(a: Answer, t: Token): nat {
    if a == Granted(t) || a == ContextError(t) then 1 else 0
  }

  /** How many times, over a run, acquisition t was answered with a lease or an error. */
  function FinalAnswers(ops: seq<Op>, t: Token): nat {
    if ops == [] then 0
    else FinalAnswers(ops[..|ops| - 1], t) + Final(Step(Exec(ops[..|ops| - 1]), ops[|ops| - 1]).1, t)
  }

  lemma StepAnswers(s: Table, op: Op, t: Token)
    requires t in s.calls ==> t <= s.nextToken
    requires s.nextToken + 1 !in s.calls
    ensures var (s', a) := Step(s, op);
            (if t in s'.calls && s'.calls[t].phase != Parked then 1 else 0)
            == (if t in s.calls && s.calls[t].phase != Parked then 1 else 0) + Final(a, t)
  {
  }

  /** Every acquisition that was given a token is answered at most once, and it has
      been answered exactly when it no longer waits. */
  lemma {:induction false} ExactlyOneAnswer(ops: seq<Op>, t: Token)
    ensures FinalAnswers(ops, t) == (if t in Exec(ops).calls && Exec(ops).calls[t].phase != Parked then 1 else 0)
  {
    if ops != [] {
      var before := ops[..|ops| - 1];
      ExactlyOneAnswer(before, t);
      Reachable(before);
      TokensBounded(Exec(before));
      StepAnswers(Exec(before), ops[|ops| - 1], t);
    }
  }

  /** A waiter whose context ended after the hand-off reached it is answered with the
      lease, and keeps it; one the hand-off had not reached is answered with the error
      and leaves the queue. */
  lemma CancelledWaiterVerdict(ops: seq<Op>, t: Token)
    requires Enabled(Exec(ops), GiveUp(t))
    ensures var s := Exec(ops); var (s', a) := Step(s, GiveUp(t));
            && t in s'.calls
            && (s.calls[t].won ==> a == Granted(t) && s'.calls[t].Owns() && EntryOf(s', t).holder == Some(t))
            && (!s.calls[t].won ==> a == ContextError(t) && !s'.calls[t].Owns()
                                    && t !in EntryOf(s', t).waiters && EntryOf(s', t).holder == EntryOf(s, t).holder)
  {
    Reachable(ops);
    var s := Exec(ops);
    assert CallInv(s, t);
    assert EntryInv(s, s.calls[t].entry);
    WithoutFacts(s.entries[s.calls[t].entry].waiters, t);
  }

  lemma HolderReleaseOutcome(s: Table, t: Token) returns (winner: Option<Token>)
    requires ReleaseContext(s, t) && s.calls[t].Owns()
    ensures var s' := ReleaseStep(s, t); var e := EntryOf(s, t);
            && (winner.None? ==> e.task !in s'.leases && forall w :: w in e.waiters ==> s.calls[w].ended)
            && (winner.Some? ==>
                  && winner.value in e.waiters && !s.calls[winner.value].ended
                  && OwnsTask(s', winner.value, e.task)
                  && forall w :: w in e.waiters && !s.calls[w].ended ==> winner.value <= w)
  {
    HandoffFacts(s.entries[s.calls[t].entry].waiters, s.calls);
    winner := Handoff(s.entries[s.calls[t].entry].waiters, s.calls).0;
  }

  /** A release by the holder hands the lease to the oldest waiter whose context is
      live, and if there is none the task leaves the table. A release by anyone else,
      the second release of a holder included, changes no lease. */
  lemma ReleaseHandsOff(ops: seq<Op>, t: Token)
    requires Enabled(Exec(ops), Release(t))
    ensures var s := Exec(ops); var s' := Step(s, Release(t)).0;
            && (OwnsTask(s, t, TaskOf(s, t)) ==>
                  && (forall u :: WaitsLiveFor(s, u, TaskOf(s, t)) ==>
                        exists w :: OwnsTask(s', w, TaskOf(s, t)) && WaitsLiveFor(s, w, TaskOf(s, t)) && w <= u)
                  && ((forall u :: !WaitsLiveFor(s, u, TaskOf(s, t))) ==> TaskOf(s, t) !in s'.leases))
            && (!OwnsTask(s, t, TaskOf(s, t)) ==> s'.leases == s.leases && s'.entries == s.entries)
  {
    Reachable(ops);
    var s := Exec(ops);
    ReleaseKeepsInv(s, t);
    if OwnsTask(s, t, TaskOf(s, t)) {
      var winner := HolderReleaseOutcome(s, t);
      QueueIsWhoWaits(s, t);
      if winner.Some? {
        assert WaitsLiveFor(s, winner.value, TaskOf(s, t));
      }
    }
  }

  /** The live tokens of a held entry's queue are exactly the live waiters of its task. */
  lemma QueueIsWhoWaits(s: Table, t: Token)
    requires Inv(s) && OwnsTask(s, t, TaskOf(s, t))
    ensures forall u :: WaitsLiveFor(s, u, TaskOf(s, t)) <==> u in EntryOf(s, t).waiters && !s.calls[u].ended
  {
    assert CallInv(s, t);
    assert EntryInv(s, s.calls[t].entry);
    forall u | WaitsLiveFor(s, u, TaskOf(s, t)) ensures u in EntryOf(s, t).waiters {
      LiveWaiterIsQueued(s, u, TaskOf(s, t));
    }
  }

  lemma LiveWaiterIsQueued(s: Table, u: Token, task: TaskId)
    requires Inv(s) && WaitsLiveFor(s, u, task)
    ensures task in s.leases && s.leases[task] == s.calls[u].entry && u in s.entries[s.leases[task]].waiters
  {
    assert CallInv(s, u);
    assert EntryInv(s, s.calls[u].entry);
  }

  lemma ReleaseGrantsOldest(s: Table, r: Token, t: Token, u: Token)
    requires ReleaseContext(s, r)
    requires t in s.calls && CallInv(s, t) && !s.calls[t].Owns() && ReleaseStep(s, r).calls[t].Owns()
    ensures s.calls[t].entry == s.calls[r].entry && s.calls[t].Waiting() && !s.calls[t].ended
    ensures u in s.entries[s.calls[r].entry].waiters && u in s.calls && !s.calls[u].ended && u != t ==> t < u
  {
    HandoffFacts(s.entries[s.calls[r].entry].waiters, s.calls);
    var (winner, rest) := Handoff(s.entries[s.calls[r].entry].waiters, s.calls);
    assert winner == Some(t);
  }

  /** One step that grants a task to t passes over nobody: every other live waiter of
      that task asked later. A fresh acquirer's token is larger than every token in the
      table, so it is granted only when no live waiter is parked. */
  lemma NoOvertakingStep(s: Table, op: Op, t: Token, u: Token, task: TaskId)
    requires Inv(s)
    requires !OwnsTask(s, t, task) && OwnsTask(Step(s, op).0, t, task)
    requires WaitsLiveFor(s, u, task) && u != t
    ensures t < u
  {
    var s' := Step(s, op).0;
    TokensBounded(s);
    assert CallInv(s, u);
    assert EntryInv(s, s.calls[u].entry);
    if t in s.calls {
      StepContinues(s, op, t);
      assert CallInv(s, t);
      if op.Release? && Enabled(s, op) {
        ReleaseKeepsInv(s, op.token);
      }
      NoOvertakingByKnown(s, op, t, u);
    } else {
      NoFreshGrantWhileWaiting(s, op, t, u);
    }
  }

  lemma NoOvertakingByKnown(s: Table, op: Op, t: Token, u: Token)
    requires t in s.calls && CallInv(s, t) && s.nextToken + 1 !in s.calls
    requires !s.calls[t].Owns() && t in Step(s, op).0.calls && Step(s, op).0.calls[t].Owns()
    requires op.Release? && Enabled(s, op) ==> ReleaseContext(s, op.token)
    requires u in s.calls && CallInv(s, u) && EntryInv(s, s.calls[u].entry)
    requires s.calls[u].Waiting() && !s.calls[u].ended && TaskOf(s, u) == TaskOf(s, t) && u != t
    ensures t < u
  {
    OnlyReleaseGrants(s, op, t);
    NoOvertakingRelease(s, op.token, t, u);
  }

  /** The life of a call: a parked one's context may end, and with an ended context it may
      answer, with the lease if it had won it and for good without if not; one that won may
      wake; one that returned the lease may release it, again and again. */
  lemma CallsRunTheirCourse(s: Table, t: Token, task: TaskId, mode: Mode)
    requires t in s.calls
    ensures Enabled(s, Acquire(task, mode))
    ensures Enabled(s, EndContext(t)) <==> s.calls[t].phase == Parked
    ensures Enabled(s, EndContext(t)) ==>
              var s' := Step(s, EndContext(t)).0; s'.calls[t] == s.calls[t].(ended := true) && Enabled(s', GiveUp(t))
    ensures Enabled(s, Wake(t)) <==> s.calls[t].phase == Parked && s.calls[t].won
    ensures Enabled(s, Wake(t)) ==> Step(s, Wake(t)).0.calls[t].phase == Held
    ensures Enabled(s, GiveUp(t)) <==> s.calls[t].phase == Parked && s.calls[t].ended
    ensures Enabled(s, GiveUp(t)) ==> Step(s, GiveUp(t)).0.calls[t].phase == if s.calls[t].won then Held else Cancelled
    ensures Enabled(s, Release(t)) <==> s.calls[t].phase == Held || s.calls[t].phase == Released
    ensures Enabled(s, Release(t)) ==> var s' := Step(s, Release(t)).0; s'.calls[t].phase == Released && Enabled(s', Release(t))
  {
  }

  /** What an acquisition leaves of itself: a granted call holds the lease, a parked one waits
      last in its task's queue with its context live, a busy one leaves nothing; only a try
      answers busy. */
  lemma NewCallStands(s: Table, task: TaskId, mode: Mode)
    ensures var (s', a) := Step(s, Acquire(task, mode));
            && (a.Granted? ==>
                  && a.token in s'.calls && s'.calls[a.token].phase == Held && !s'.calls[a.token].won && !s'.calls[a.token].ended
                  && task in s'.leases && s'.leases[task] in s'.entries && s'.entries[s'.leases[task]].holder == Some(a.token))
            && (a.Parking? ==>
                  && mode == Wait && a.token in s'.calls && s'.calls[a.token].Waiting() && !s'.calls[a.token].ended
                  && task in s'.leases && s'.leases[task] in s'.entries
                  && var e := s'.entries[s'.leases[task]]; e.waiters != [] && e.waiters[|e.waiters| - 1] == a.token && e.holder.Some?)
            && (a.Busy? ==> mode == Try && s' == s)
            && !a.ContextError? && !a.Silent?
  {
  }

  /** While a live waiter is parked on a task, no acquisition that arrives is granted it. */
  lemma NoFreshGrantWhileWaiting(s: Table, op: Op, t: Token, u: Token)
    requires t !in s.calls && t in Step(s, op).0.calls
    requires u in s.calls && CallInv(s, u) && EntryInv(s, s.calls[u].entry)
    requires s.calls[u].Waiting() && !s.calls[u].ended
    requires TaskOf(s, u) == TaskOf(Step(s, op).0, t)
    requires forall k :: k in s.leases ==> s.leases[k] in s.entries && s.entries[s.leases[k]].holder.Some?
    ensures !Step(s, op).0.calls[t].Owns()
  {
    if Step(s, op).0.calls[t].Owns() {
      FreshGrantFindsNoLease(s, op, t);
    }
  }

  lemma FreshGrantFindsNoLease(s: Table, op: Op, t: Token)
    requires t !in s.calls && t in Step(s, op).0.calls && Step(s, op).0.calls[t].Owns()
    requires forall k :: k in s.leases ==> s.leases[k] in s.entries && s.entries[s.leases[k]].holder.Some?
    ensures TaskOf(Step(s, op).0, t) !in s.leases
  {
    OnlyAcquireMints(s, op, t);
  }

  /** A parked call is granted the lease by a release and by nothing else. */
  lemma OnlyReleaseGrants(s: Table, op: Op, t: Token)
    requires t in s.calls && CallInv(s, t) && s.nextToken + 1 !in s.calls
    requires !s.calls[t].Owns() && t in Step(s, op).0.calls && Step(s, op).0.calls[t].Owns()
    ensures op.Release? && Enabled(s, op)
  {
  }

  lemma OnlyAcquireMints(s: Table, op: Op, t: Token)
    requires t !in s.calls && t in Step(s, op).0.calls
    ensures op.Acquire? && t == s.nextToken + 1
  {
  }

  lemma NoOvertakingRelease(s: Table, r: Token, t: Token, u: Token)
    requires ReleaseContext(s, r)
    requires t in s.calls && CallInv(s, t) && !s.calls[t].Owns() && ReleaseStep(s, r).calls[t].Owns()
    requires u in s.calls && CallInv(s, u) && EntryInv(s, s.calls[u].entry)
    requires s.calls[u].Waiting() && !s.calls[u].ended && TaskOf(s, u) == TaskOf(s, t) && u != t
    ensures t < u
  {
    ReleaseGrantsOldest(s, r, t, u);
  }

  /** Facts about one acquisition that no step takes back. */
  ghost predicate Continues(s: Table, s': Table, t: Token) {
    && t in s.calls && t in s'.calls && s'.calls[t].entry == s.calls[t].entry
    && TaskOf(s', t) == TaskOf(s, t)
    && (s.calls[t].ended ==> s'.calls[t].ended)
    && (s'.calls[t].Waiting() ==> s.calls[t].Waiting())
    && (s'.calls[t].Owns() && !s.calls[t].Owns() ==> s.calls[t].Waiting() && !s.calls[t].ended)
    && s.nextToken <= s'.nextToken
  }

  lemma StepContinues(s: Table, op: Op, t: Token)
    requires Inv(s) && t in s.calls
    ensures Continues(s, Step(s, op).0, t)
  {
    assert CallInv(s, t);
    TokensBounded(s);
    if Enabled(s, op) && op.Release? {
      ReleaseKeepsInv(s, op.token);
      ReleaseContinues(s, op.token, t);
    } else {
      OtherStepContinues(s, op, t);
    }
  }

  lemma OtherStepContinues(s: Table, op: Op, t: Token)
    requires t in s.calls && CallInv(s, t) && s.nextToken + 1 !in s.calls && s.nextToken + 1 !in s.entries
    requires !(Enabled(s, op) && op.Release?)
    ensures Continues(s, Step(s, op).0, t)
  {
  }

  lemma ReleaseContinues(s: Table, r: Token, t: Token)
    requires ReleaseContext(s, r) && t in s.calls && CallInv(s, t)
    ensures Continues(s, ReleaseStep(s, r), t)
  {
    if ReleaseStep(s, r).calls[t].Owns() && !s.calls[t].Owns() {
      ReleaseGrantsOldest(s, r, t, t);
    }
  }

  /** Step k of the run grants task to t. */
  ghost predicate GrantsAt(ops: seq<Op>, k: nat, t: Token, task: TaskId) {
    k < |ops| && !OwnsTask(Exec(ops[..k]), t, task) && OwnsTask(Exec(ops[..k + 1]), t, task)
  }

  lemma ExecNext(ops: seq<Op>, k: nat)
    requires k < |ops|
    ensures Exec(ops[..k + 1]) == Step(Exec(ops[..k]), ops[k]).0
  {
    assert ops[..k + 1][..k] == ops[..k];
  }

  /** A waiter that is granted at step j was already a live waiter at every earlier
      point of the run at which its token existed. */
  lemma {:induction false} GrantedWaiterWasLive(ops: seq<Op>, i: nat, j: nat, u: Token, task: TaskId)
    requires i <= j && GrantsAt(ops, j, u, task)
    requires u in Exec(ops[..i]).calls
    ensures WaitsLiveFor(Exec(ops[..i]), u, task)
    decreases j - i
  {
    var s := Exec(ops[..i]);
    Reachable(ops[..i]);
    assert CallInv(s, u);
    ExecNext(ops, i);
    StepContinues(s, ops[i], u);
    if i < j {
      GrantedWaiterWasLive(ops, i + 1, j, u, task);
    }
  }

  lemma {:induction false} TokensAgeUpward(ops: seq<Op>, i: nat, j: nat, u: Token)
    requires i <= j <= |ops|
    requires u in Exec(ops[..j]).calls && u !in Exec(ops[..i]).calls
    ensures u > Exec(ops[..i]).nextToken
    decreases j
  {
    hide Exec, Step;
    if i < j {
      var s := Exec(ops[..j - 1]);
      ExecNext(ops, j - 1);
      if u in s.calls {
        TokensAgeUpward(ops, i, j - 1, u);
      } else {
        OnlyAcquireMints(s, ops[j - 1], u);
        NextTokenGrows(ops, i, j - 1);
      }
    }
  }

  lemma {:induction false} NextTokenGrows(ops: seq<Op>, i: nat, j: nat)
    requires i <= j <= |ops|
    ensures Exec(ops[..i]).nextToken <= Exec(ops[..j]).nextToken
    decreases j
  {
    if i < j {
      ExecNext(ops, j - 1);
      NextTokenGrows(ops, i, j - 1);
    }
  }

  /** First in, first out, over whole runs: of two grants of one task the later grant
      belongs to the call that asked later, whatever happened in between. */
  lemma GrantsFollowArrival(ops: seq<Op>, i: nat, j: nat, t: Token, u: Token, task: TaskId)
    requires i < j && GrantsAt(ops, i, t, task) && GrantsAt(ops, j, u, task)
    ensures t < u
  {
    var s := Exec(ops[..i]);
    var s' := Exec(ops[..i + 1]);
    ExecNext(ops, i);
    Reachable(ops[..i]);
    Reachable(ops[..i + 1]);
    assert CallInv(s', t);
    if u in s.calls {
      GrantedWaiterWasLive(ops, i, j, u, task);
      if u == t {
        GrantedWaiterWasLive(ops, i + 1, j, u, task);
      } else {
        NoOvertakingStep(s, ops[i], t, u, task);
      }
    } else if u in s'.calls {
      GrantedWaiterWasLive(ops, i + 1, j, u, task);
      StepKeepsNewest(s, ops[i], u, t);
    } else {
      ExecNext(ops, j);
      TokensAgeUpward(ops, i + 1, j + 1, u);
    }
  }

  /** The token a step mints is newer than every other token of the table after it. */
  lemma StepKeepsNewest(s: Table, op: Op, u: Token, t: Token)
    requires Inv(s)
    requires u !in s.calls && u in Step(s, op).0.calls && t in Step(s, op).0.calls
    ensures t <= u && (t == u || t in s.calls)
  {
    if t in s.calls {
      assert CallInv(s, t);
    }
  }
}
