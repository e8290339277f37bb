/**
The lease table of internal/engine/registry.go in its own form: one registry whose
tables and token counter are updated in place.  Each method is one section under the
registry's mutex and is proved to take exactly the step of the LeaseTable machine that
its name says, so every theorem about that machine is a theorem about this object.

An entry and a waiter are named here, where the source holds pointers: an entry by the
token minted when it was built, a waiter by its own token.  The names are what a release
closure and a parked goroutine keep when the entry has left the table.
*/
module TaskOpRegistry {
  import opened Options
  import opened LeaseTable

  /** What the first mutex section of an acquisition found. */
  datatype Acquired =
    | Lease(entry: EntryId, token: nat)
    | TaskBusy
    | Queued(entry: EntryId, waiter: nat)

  /** What a waiter's select answered. */
  datatype Waited = WaitedLease | WaitedError

  ghost function WonIn(s: Table): set<nat> {
    set t | t in s.calls && s.calls[t].won
  }

  ghost function EndedIn(s: Table): set<nat> {
    set t | t in s.calls && s.calls[t].ended
  }

  class Registry {
    var leases: map<TaskId, EntryId>
    /** The entries live closures can refer to, in the table or not. */
    var entries: map<EntryId, Entry>
    var nextToken: nat
    /** The waiters whose hand-off has happened, and those whose context has ended. */
    var won: set<nat>
    var ended: set<nat>
    ghost var past: seq<Op>

    /** The machine's state after the operations so far. */
    ghost function Model(): Table
      reads this`past
    {
      Exec(past)
    }

    /** The fields hold exactly what the machine's state says they hold. */
    ghost predicate Valid()
      reads this
    {
      var s := Model();
      && leases == s.leases && entries == s.entries && nextToken == s.nextToken
      && won == WonIn(s) && ended == EndedIn(s)
    }

    constructor ()
      ensures Valid() && past == []
    {
      leases, entries, nextToken, won, ended, past := map[], map[], 0, {}, {}, [];
    }

    /** The first mutex section of an acquisition. */
    method AcquireTaskOp(taskID: TaskId, mode: Mode) returns (r: Acquired)
      requires Valid()
      modifies this
      ensures Valid() && past == old(past) + [Acquire(taskID, mode)]
      ensures Step(old(Model()), Acquire(taskID, mode)).1 ==
              match r { case Lease(_, t) => Granted(t) case TaskBusy => Answer.Busy case Queued(_, t) => Parking(t) }
      ensures !r.TaskBusy? ==> taskID in leases && leases[taskID] == r.entry
    {
      ghost var s, next := Model(), Exec(past + [Acquire(taskID, mode)]);
      AcquireIs(past, taskID, mode);
      hide Exec, Step, WonIn, EndedIn;
      past := past + [Acquire(taskID, mode)];
      assert Model() == next;

      var entry;
      if taskID in leases {
        entry := leases[taskID];
      } else {
        entry := nextToken + 1;
        entries := entries[entry := Entry(taskID, None, [])];
        leases := leases[taskID := entry];
      }
      if entries[entry].holder.None? {
        nextToken := nextToken + 1;
        entries := entries[entry := entries[entry].(holder := Some(nextToken))];
        LastUpdateStays(s.entries, entry, Entry(taskID, None, []), Entry(taskID, Some(nextToken), []));
        return Lease(entry, nextToken);
      }

      if mode == Try {
        return TaskBusy;
      }

      nextToken := nextToken + 1;
      entries := entries[entry := entries[entry].(waiters := entries[entry].waiters + [nextToken])];
      return Queued(entry, nextToken);
    }

    /** The waiter's context ends: not a call of the registry's, but a step it must face. */
    method ContextEnds(waiter: nat)
      requires Valid() && Enabled(Model(), EndContext(waiter))
      modifies this`past, this`ended
      ensures Valid() && past == old(past) + [EndContext(waiter)]
    {
      ExecAppend(past, EndContext(waiter));
      ended := ended + {waiter};
      past := past + [EndContext(waiter)];
    }

    /** The select's ready branch: the hand-off closed it, the call returns the lease. */
    method Ready(waiter: nat) returns (r: Waited)
      requires Valid() && Enabled(Model(), Wake(waiter))
      modifies this`past
      ensures Valid() && past == old(past) + [Wake(waiter)]
      ensures r == WaitedLease && Step(old(Model()), Wake(waiter)).1 == Granted(waiter)
    {
      ExecAppend(past, Wake(waiter));
      past := past + [Wake(waiter)];
      r := WaitedLease;
    }

    /** removeWaiter: search the queue, splice the waiter out if it is still there. */
    method RemoveWaiter(queue: seq<nat>, waiter: nat) returns (rest: seq<nat>)
      ensures rest == Without(queue, waiter)
    {
      var i := 0;
      while i < |queue|
        invariant 0 <= i <= |queue| && waiter !in queue[..i]
      {
        if queue[i] != waiter {
          i := i + 1;
          continue;
        }
        WithoutSplices(queue, i, waiter);
        return queue[..i] + queue[i + 1..];
      }
      WithoutAbsent(queue, waiter);
      return queue;
    }

    /** The select's other branch, taken when the waiter's context has ended. */
    method Cancelled(entry: EntryId, waiter: nat) returns (r: Waited)
      requires Valid() && Enabled(Model(), GiveUp(waiter)) && Model().calls[waiter].entry == entry
      modifies this`past, this`entries
      ensures Valid() && past == old(past) + [GiveUp(waiter)]
      ensures Step(old(Model()), GiveUp(waiter)).1 == if r.WaitedLease? then Granted(waiter) else ContextError(waiter)
    {
      ExecAppend(past, GiveUp(waiter));
      EntryIsKnown(past, waiter);
      past := past + [GiveUp(waiter)];
      if waiter in won {
        return WaitedLease;
      }
      var rest := RemoveWaiter(entries[entry].waiters, waiter);
      entries := entries[entry := entries[entry].(waiters := rest)];
      return WaitedError;
    }

    /** The release closure of one acquisition. */
    method ReleaseTaskOp(taskID: TaskId, entry: EntryId, token: nat)
      requires Valid() && Enabled(Model(), Release(token)) && Model().calls[token].entry == entry
      requires entry in entries && entries[entry].task == taskID
      modifies this`past, this`leases, this`entries, this`won
      ensures Valid() && past == old(past) + [Release(token)]
    {
      ghost var s := Model();
      ExecAppend(past, Release(token));
      QueueIsKnown(past, entry);
      ReleaseIs(s, token);
      hide Exec, Step, WonIn;
      past := past + [Release(token)];
      if entries[entry].holder != Some(token) {
        return;
      }

      var queue := entries[entry].waiters;
      while |queue| > 0
        invariant forall w :: w in queue ==> w in s.entries[entry].waiters
        invariant Handoff(queue, s.calls) == Handoff(s.entries[entry].waiters, s.calls)
        decreases |queue|
      {
        var waiter := queue[0];
        queue := queue[1..];
        if waiter in ended {
          continue;
        }
        entries := entries[entry := Entry(taskID, Some(waiter), queue)];
        won := won + {waiter};
        return;
      }

      entries := entries[entry := Entry(taskID, None, [])];
      if taskID in leases && leases[taskID] == entry {
        leases := leases - {taskID};
      }
    }
  }

  lemma ExecAppend(h: seq<Op>, op: Op)
    ensures Exec(h + [op]) == Step(Exec(h), op).0
  {
    assert (h + [op])[..|h|] == h;
  }

  lemma LeasesHaveHolders(h: seq<Op>, task: TaskId)
    ensures var s := Exec(h);
            && s.nextToken + 1 !in s.calls && s.nextToken + 1 !in s.entries
            && (task in s.leases ==> s.leases[task] in s.entries && s.entries[s.leases[task]].holder.Some?)
  {
    Reachable(h);
    TokensBounded(Exec(h));
  }

  lemma AcquireKeepsFlags(s: Table, task: TaskId, mode: Mode)
    requires s.nextToken + 1 !in s.calls
    ensures var next := Step(s, Acquire(task, mode)).0;
            WonIn(next) == WonIn(s) && EndedIn(next) == EndedIn(s)
  {
  }

  /** An acquisition's update of the leases and entries: one per branch, of an entry that is
      in the table or is put there. */
  ghost predicate Acquires(s: Table, task: TaskId, mode: Mode, next: Table, answer: Answer) {
    var token := s.nextToken + 1;
    if task !in s.leases then
      && next.leases == s.leases[task := token] && next.entries == s.entries[token := Entry(task, Some(token), [])]
      && next.nextToken == token && answer == Granted(token)
    else
      var id := s.leases[task];
      && id in s.entries && s.entries[id].holder.Some? && next.leases == s.leases
      && if mode == Try then
           next.entries == s.entries && next.nextToken == s.nextToken && answer == Answer.Busy
         else
           && next.entries == s.entries[id := s.entries[id].(waiters := s.entries[id].waiters + [token])]
           && next.nextToken == token && answer == Parking(token)
  }

  lemma AcquireStepIs(s: Table, task: TaskId, mode: Mode)
    requires task in s.leases ==> s.leases[task] in s.entries && s.entries[s.leases[task]].holder.Some?
    ensures var (next, answer) := Step(s, Acquire(task, mode));
            Acquires(s, task, mode, next, answer)
  {
  }

  lemma AcquireIs(h: seq<Op>, task: TaskId, mode: Mode)
    ensures var s, next := Exec(h), Exec(h + [Acquire(task, mode)]);
            && WonIn(next) == WonIn(s) && EndedIn(next) == EndedIn(s)
            && Acquires(s, task, mode, next, Step(s, Acquire(task, mode)).1)
  {
    hide *;
    ExecAppend(h, Acquire(task, mode));
    LeasesHaveHolders(h, task);
    AcquireKeepsFlags(Exec(h), task, mode);
    AcquireStepIs(Exec(h), task, mode);
  }

  lemma LastUpdateStays<K, V>(m: map<K, V>, k: K, first: V, last: V)
    ensures m[k := first][k := last] == m[k := last]
  {
  }

  /** What a release does to the fields: nothing when it is stale, a hand-off, or removal. */
  lemma ReleaseIs(s: Table, token: Token)
    requires Enabled(s, Release(token)) && s.calls[token].entry in s.entries
    requires forall w :: w in s.entries[s.calls[token].entry].waiters ==> w in s.calls
    ensures var next := Step(s, Release(token)).0;
            var id := s.calls[token].entry;
            var e := s.entries[id];
            var (winner, rest) := Handoff(e.waiters, s.calls);
            && next.nextToken == s.nextToken && EndedIn(next) == EndedIn(s)
            && (e.holder != Some(token) ==> next.entries == s.entries && next.leases == s.leases && WonIn(next) == WonIn(s))
            && (e.holder == Some(token) && winner.Some? ==>
                  && next.entries == s.entries[id := Entry(e.task, winner, rest)] && next.leases == s.leases
                  && WonIn(next) == WonIn(s) + {winner.value})
            && (e.holder == Some(token) && winner.None? ==>
                  && next.entries == s.entries[id := Entry(e.task, None, [])]
                  && next.leases == (if e.task in s.leases && s.leases[e.task] == id then s.leases - {e.task} else s.leases)
                  && WonIn(next) == WonIn(s))
  {
  }

  lemma EntryIsKnown(h: seq<Op>, t: Token)
    requires t in Exec(h).calls
    ensures Exec(h).calls[t].entry in Exec(h).entries
  {
    Reachable(h);
    assert CallInv(Exec(h), t);
  }

  lemma QueueIsKnown(h: seq<Op>, id: EntryId)
    requires id in Exec(h).entries
    ensures forall w :: w in Exec(h).entries[id].waiters ==> w in Exec(h).calls
  {
    Reachable(h);
    assert EntryInv(Exec(h), id);
  }

  lemma {:induction false} WithoutSplices(ws: seq<Token>, i: nat, t: Token)
    requires i < |ws| && ws[i] == t && t !in ws[..i]
    ensures Without(ws, t) == ws[..i] + ws[i + 1..]
  {
    if i > 0 {
      assert ws[0] in ws[..i];
      assert ws[1..][..i - 1] == ws[..i][1..];
      WithoutSplices(ws[1..], i - 1, t);
      assert ws[..i] + ws[i + 1..] == [ws[0]] + (ws[1..][..i - 1] + ws[1..][i..]);
    }
  }

  lemma {:induction false} WithoutAbsent(ws: seq<Token>, t: Token)
    requires t !in ws
    ensures Without(ws, t) == ws
  {
    if ws != [] {
      WithoutAbsent(ws[1..], t);
    }
  }
}
