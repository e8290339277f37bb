/**
The pass in its own form: the space gate caches into its maps, the loop updates the
counts and the gate, and both are proved to compute the walk of AdmissionPass.
*/
module SpaceGateLoop {
  import opened Options
  import opened Space
  import opened AdmissionPass

  // ----------------------------------------------------- the opening balance

  /** The store's sums per destination, folded into one pool per filesystem. */
  function Pools(env: Env, sums: seq<(Path, int)>): map<FsId, int> {
    if sums == [] then map[]
    else
      var pools := Pools(env, sums[..|sums| - 1]);
      var (d, remaining) := sums[|sums| - 1];
      match env.identify(d)
      case None => pools
      case Some(fs) => pools[fs := Wrap((if fs in pools then pools[fs] else 0) + remaining)]
  }

  function SumOn(env: Env, sums: seq<(Path, int)>, fs: FsId): int {
    if sums == [] then 0
    else SumOn(env, sums[..|sums| - 1], fs)
         + (if env.identify(sums[|sums| - 1].0) == Some(fs) then sums[|sums| - 1].1 else 0)
  }

  lemma {:induction false} PoolIsTheSum(env: Env, sums: seq<(Path, int)>, fs: FsId)
    ensures Gate(Pools(env, sums), map[]).Committed(fs) == Wrap(SumOn(env, sums, fs))
  {
    if sums != [] {
      PoolIsTheSum(env, sums[..|sums| - 1], fs);
      WrapAdds(SumOn(env, sums[..|sums| - 1], fs), sums[|sums| - 1].1);
    }
  }

  lemma {:induction false} SumOnWithout(env: Env, sums: seq<(Path, int)>, k: nat, fs: FsId)
    requires k < |sums|
    ensures SumOn(env, sums, fs) == SumOn(env, sums[..k] + sums[k + 1..], fs)
                                    + (if env.identify(sums[k].0) == Some(fs) then sums[k].1 else 0)
  {
    var n := |sums| - 1;
    if k == n {
      assert sums[..k] + sums[k + 1..] == sums[..n];
    } else {
      SumOnWithout(env, sums[..n], k, fs);
      var rest := sums[..k] + sums[k + 1..];
      assert rest[..|rest| - 1] == sums[..n][..k] + sums[..n][k + 1..];
      assert rest[|rest| - 1] == sums[n];
    }
  }

  lemma {:induction false} SumIgnoresOrder(env: Env, sums: seq<(Path, int)>, others: seq<(Path, int)>, fs: FsId)
    requires multiset(sums) == multiset(others)
    ensures SumOn(env, sums, fs) == SumOn(env, others, fs)
    decreases |sums|
  {
    if sums == [] {
      assert |multiset(others)| == 0;
      assert others == [];
    } else {
      var last := sums[|sums| - 1];
      var k, rest := Removed(sums, others);
      SumIgnoresOrder(env, sums[..|sums| - 1], rest, fs);
      SumOnWithout(env, others, k, fs);
      assert rest == others[..k] + others[k + 1..] && others[k] == last;
    }
  }

  /** Where the last of one order stands in the other, and what is left without it. */
  lemma Removed(sums: seq<(Path, int)>, others: seq<(Path, int)>) returns (k: nat, rest: seq<(Path, int)>)
    requires sums != [] && multiset(sums) == multiset(others)
    ensures k < |others| && others[k] == sums[|sums| - 1] && rest == others[..k] + others[k + 1..]
    ensures multiset(sums[..|sums| - 1]) == multiset(rest)
  {
    var last := sums[|sums| - 1];
    assert last in multiset(others);
    k :| 0 <= k < |others| && others[k] == last;
    rest := others[..k] + others[k + 1..];
    assert sums == sums[..|sums| - 1] + [last];
    assert others == others[..k] + [last] + others[k + 1..];
    assert multiset(sums[..|sums| - 1]) == multiset(sums) - multiset{last};
    assert multiset(rest) == multiset(others) - multiset{last};
  }

  /** The order in which the sums are read, a map's iteration order, does not matter. */
  lemma PoolsIgnoreOrder(env: Env, sums: seq<(Path, int)>, others: seq<(Path, int)>, fs: FsId)
    requires multiset(sums) == multiset(others)
    ensures Gate(Pools(env, sums), map[]).Committed(fs) == Gate(Pools(env, others), map[]).Committed(fs)
  {
    PoolIsTheSum(env, sums, fs);
    PoolIsTheSum(env, others, fs);
    SumIgnoresOrder(env, sums, others, fs);
  }

  // -------------------------------------------------------------- the gate

  class SpaceGate {
    const env: Env
    var commits: map<FsId, int>
    var ids: map<Path, Option<FsId>>
    var spaces: map<FsId, int>
    var unreadable: set<FsId>

    /** The gate of the walk: both caches of the filesystem answers as one. */
    ghost function View(): Gate
      reads this
    {
      Gate(commits, map fs | fs in spaces.Keys + unreadable :: if fs in spaces then Some(spaces[fs]) else None)
    }

    ghost predicate Valid()
      reads this
    {
      (forall d :: d in ids ==> ids[d] == env.identify(d)) && spaces.Keys !! unreadable
    }

    constructor (e: Env, sums: seq<(Path, int)>)
      ensures Valid() && env == e && View() == Gate(Pools(e, sums), map[])
    {
      env, commits, ids, spaces, unreadable := e, map[], map[], map[], {};
      new;
      for i := 0 to |sums|
        invariant Valid() && commits == Pools(e, sums[..i]) && spaces == map[] && unreadable == {}
      {
        var (destination, remaining) := sums[i];
        assert sums[..i + 1][..i] == sums[..i];
        var fsID := FilesystemOf(destination);
        if fsID.Some? {
          commits := commits[fsID.value := Wrap((if fsID.value in commits then commits[fsID.value] else 0) + remaining)];
        }
      }
      assert sums[..|sums|] == sums;
    }

    method FilesystemOf(destination: Path) returns (fsID: Option<FsId>)
      requires Valid()
      modifies this`ids
      ensures Valid() && fsID == env.identify(destination)
    {
      if destination in ids {
        return ids[destination];
      }
      fsID := env.identify(destination);
      ids := ids[destination := fsID];
    }

    method Reservation(destination: Path) returns (r: Option<Space.Reservation>)
      requires Valid()
      modifies this`ids, this`spaces, this`unreadable
      ensures Valid() && View() == Reserve(env, old(View()), destination).0
      ensures r == Reserve(env, old(View()), destination).1
    {
      var fsID := FilesystemOf(destination);
      if fsID.None? {
        return None;
      }
      var fs := fsID.value;
      if fs in unreadable {
        return None;
      }
      if fs !in spaces {
        var answer := env.statfs(destination);
        if answer.None? {
          unreadable := unreadable + {fs};
          return None;
        }
        spaces := spaces[fs := answer.value];
      }
      return Some(Space.Reservation(spaces[fs], if fs in commits then commits[fs] else 0, env.floorOf(destination)));
    }

    /** A queued candidate's space hold; an unreadable filesystem fails open. */
    method Holds(c: Candidate) returns (held: bool)
      requires Valid()
      modifies this`ids, this`spaces, this`unreadable
      ensures Valid() && View() == Reserve(env, old(View()), c.destination).0
      ensures var r := Reserve(env, old(View()), c.destination).1; held == (r.Some? && !Fits(r.value, Remaining(c)))
    {
      var reservation := Reservation(c.destination);
      return reservation.Some? && !Fits(reservation.value, Remaining(c));
    }

    /** A parked candidate's; an unreadable filesystem fails closed. */
    method HoldsParked(c: Candidate) returns (held: bool)
      requires Valid()
      modifies this`ids, this`spaces, this`unreadable
      ensures Valid() && View() == Reserve(env, old(View()), c.destination).0
      ensures var r := Reserve(env, old(View()), c.destination).1; held == (r.None? || !Fits(r.value, Remaining(c)))
    {
      var reservation := Reservation(c.destination);
      return reservation.None? || !Fits(reservation.value, Remaining(c));
    }

    method Spend(c: Candidate)
      requires Valid()
      modifies this`ids, this`commits
      ensures Valid() && View() == Commit(env, old(View()), c)
    {
      var fsID := FilesystemOf(c.destination);
      if fsID.Some? {
        commits := commits[fsID.value := Wrap((if fsID.value in commits then commits[fsID.value] else 0) + Remaining(c))];
      }
    }
  }

  // -------------------------------------------------------------- the pass

  /** processCandidate up to its hand-off: the stamp it wrote, if it wrote one. */
  method ProcessCandidate(gate: SpaceGate, ghost s: State, total: int, byEngine: map<Engine, int>, c: Candidate, t: Turn)
    returns (v: Verdict)
    requires gate.Valid() && gate.View() == s.gate && total == s.total && byEngine == s.byEngine
    requires t.Overtaken? || t.ReadFails? || t.Goes?
    modifies gate`ids, gate`spaces, gate`unreadable
    ensures gate.Valid() && (gate.View(), v) == Judge(gate.env, s, c, t)
  {
    if t.ReadFails? {
      return StoreError;
    }
    if t.Overtaken? {
      return Skip;
    }
    var l := gate.env.limits;
    var inUse := if c.engine in byEngine then byEngine[c.engine] else 0;
    var blocked := (l.maxTotal > 0 && total >= l.maxTotal) || (l.maxPerEngine > 0 && inUse >= l.maxPerEngine);
    if c.parked {
      var held := gate.HoldsParked(c);
      if held {
        return StampHold(R.DiskFull);
      }
      if blocked {
        return QuietHold;
      }
      if t.claim.ClaimFails? {
        return StoreError;
      }
      if t.claim.Declined? {
        return Skip;
      }
    } else if !c.pending {
      if blocked {
        return StampHold(R.ConcurrencyLimit);
      }
      var held := gate.Holds(c);
      if held {
        return StampHold(R.DiskFull);
      }
    }
    return Verdict.HandOff;
  }

  /** What the pass's own variables hold while the gate keeps its maps. */
  datatype Tally = Tally(total: int, byEngine: map<Engine, int>, released: seq<TaskId>, stamps: seq<(TaskId, R.Code)>,
                         errors: nat, ended: bool)

  function TallyOf(s: State): Tally {
    Tally(s.total, s.byEngine, s.released, s.stamps, s.errors, s.ended)
  }

  /** One iteration of the loop under its lease. */
  method VisitOne(gate: SpaceGate, ghost s: State, y: Tally, c: Candidate, t: Turn) returns (z: Tally)
    requires gate.Valid() && gate.View() == s.gate && y == TallyOf(s) && !s.ended
    modifies gate`ids, gate`spaces, gate`unreadable, gate`commits
    ensures gate.Valid() && gate.View() == Visit(gate.env, s, c, t).gate && z == TallyOf(Visit(gate.env, s, c, t))
  {
    VisitByVerdict(gate.env, s, c, t);
    hide Visit, Judge, Reserve, Wrap, Commit;
    if t.ContextEnds? {
      return y.(ended := true);
    }
    if t.Busy? {
      return y;
    }
    var v := ProcessCandidate(gate, s, y.total, y.byEngine, c, t);
    match v {
      case StoreError => return y.(errors := y.errors + 1);
      case Skip => return y;
      case QuietHold => return y;
      case StampHold(code) => return y.(stamps := y.stamps + [(c.id, code)]);
      case HandOff =>
    }
    z := y.(ended := t.outcome.Aborted?);
    if t.outcome.Held? || t.outcome.Aborted? {
      return;
    }
    if c.parked || !c.pending {
      z := z.(total := y.total + 1, byEngine := y.byEngine[c.engine := (if c.engine in y.byEngine then y.byEngine[c.engine] else 0) + 1]);
      gate.Spend(c);
    }
    if t.outcome.Released? {
      z := z.(released := y.released + [c.id]);
    }
  }

  /** Pass: from the counts, the candidates and the sums the store answered at its start. */
  method PassLoop(env: Env, total: int, byEngine: map<Engine, int>, sums: seq<(Path, int)>,
                  cs: seq<Candidate>, ts: seq<Turn>)
    returns (released: seq<TaskId>, stamps: seq<(TaskId, R.Code)>, failed: bool)
    requires |cs| == |ts|
    ensures var s := Walk(env, State(total, byEngine, Gate(Pools(env, sums), map[]), [], [], 0, false), cs, ts);
            && released == s.released && stamps == s.stamps
            && failed == (s.ended || (s.errors > 0 && s.released == []))
  {
    ghost var s0 := State(total, byEngine, Gate(Pools(env, sums), map[]), [], [], 0, false);
    var gate := new SpaceGate(env, sums);
    var y := Tally(total, byEngine, [], [], 0, false);
    ghost var s := s0;
    assert Walk(env, s0, cs[..0], ts[..0]) == s0;
    hide Walk, Pools, Visit;
    for i := 0 to |cs|
      invariant s == Walk(env, s0, cs[..i], ts[..i]) && !s.ended
      invariant fresh(gate) && gate.Valid() && gate.env == env && gate.View() == s.gate && y == TallyOf(s)
    {
      WalkNext(env, s0, cs, ts, i);
      y := VisitOne(gate, s, y, cs[i], ts[i]);
      s := Visit(env, s, cs[i], ts[i]);
      if y.ended {
        WalkStops(env, s0, cs, ts, i + 1);
        return y.released, y.stamps, true;
      }
    }
    assert cs[..|cs|] == cs && ts[..|ts|] == ts;
    return y.released, y.stamps, y.errors > 0 && |y.released| == 0;
  }

  /** A pass that returned early is the walk that ended there. */
  lemma {:induction false} WalkStops(env: Env, s: State, cs: seq<Candidate>, ts: seq<Turn>, k: nat)
    requires |cs| == |ts| && k <= |cs| && Walk(env, s, cs[..k], ts[..k]).ended
    ensures Walk(env, s, cs, ts) == Walk(env, s, cs[..k], ts[..k])
    decreases |cs| - k
  {
    if k == |cs| {
      assert cs[..k] == cs && ts[..k] == ts;
    } else {
      WalkNext(env, s, cs, ts, k);
      WalkStops(env, s, cs, ts, k + 1);
    }
  }
}
