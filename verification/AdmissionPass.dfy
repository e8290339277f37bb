/**
One admission pass: two limits, one reservation pool per filesystem, and the walk over
the candidates in process order.

A turn is what the store and the hand-off answer for one candidate; the machine below
fixes everything else the pass does with it.  PassLoop computes the same walk in place.
*/
module AdmissionPass {
  import opened Options
  import opened Space
  import R = TaskRow
  import H = Handoff

  type FsId = string
  type Engine = string
  type TaskId = string

  datatype Limits = Limits(maxTotal: int, maxPerEngine: int)

  datatype Candidate = Candidate(id: TaskId, engine: Engine, destination: Path, parked: bool, pending: bool,
                                 totalBytes: Option<int>, completedBytes: int) {
    /** A queued row that already carries the pass's mark was counted by the snapshot. */
    predicate Marked() {
      !parked && pending
    }
  }

  /** The filesystem as this pass sees it: each question is asked once and cached. */
  datatype Env = Env(identify: Path -> Option<FsId>, statfs: Path -> Option<int>, floorOf: Path -> int, limits: Limits)

  datatype Claim = Taken | Declined | ClaimFails

  /** What one candidate meets.  counted is whether its row is in the counted set after
      the hand-off. */
  datatype Turn =
    | ContextEnds
    | Busy
    | Overtaken
    | ReadFails
    | Goes(claim: Claim, outcome: H.Outcome, counted: bool)

  datatype Gate = Gate(commits: map<FsId, int>, spaces: map<FsId, Option<int>>) {
    function Committed(fs: FsId): int {
      if fs in commits then commits[fs] else 0
    }
  }

  datatype State = State(total: int, byEngine: map<Engine, int>, gate: Gate,
                         released: seq<TaskId>, stamps: seq<(TaskId, R.Code)>, errors: nat, ended: bool) {
    function Of(engine: Engine): int {
      if engine in byEngine then byEngine[engine] else 0
    }
  }

  // -------------------------------------------------------------- the gates

  predicate BlockedByTotal(l: Limits, total: int) {
    l.maxTotal > 0 && total >= l.maxTotal
  }

  /** Limits.Blocked */
  predicate Blocked(l: Limits, s: State, engine: Engine) {
    BlockedByTotal(l, s.total) || (l.maxPerEngine > 0 && s.Of(engine) >= l.maxPerEngine)
  }

  function Remaining(c: Candidate): (r: int)
    ensures 0 <= r <= MAX64
  {
    if c.totalBytes.None? then 0
    else
      var remaining := Wrap(c.totalBytes.value - c.completedBytes);
      if remaining > 0 then remaining else 0
  }

  /** The reservation of a destination's filesystem, None when it cannot be identified or
      read; the first statfs answer of a filesystem is the pass's answer. */
  function Reserve(env: Env, g: Gate, d: Path): (Gate, Option<Reservation>) {
    match env.identify(d)
    case None => (g, None)
    case Some(fs) =>
      var g' := if fs in g.spaces then g else g.(spaces := g.spaces[fs := env.statfs(d)]);
      (g', match g'.spaces[fs]
           case None => None
           case Some(free) => Some(Reservation(free, g.Committed(fs), env.floorOf(d))))
  }

  function Commit(env: Env, g: Gate, c: Candidate): Gate {
    match env.identify(c.destination)
    case None => g
    case Some(fs) => g.(commits := g.commits[fs := Wrap(g.Committed(fs) + Remaining(c))])
  }

  // --------------------------------------------------------------- the walk

  datatype Verdict = Skip | StoreError | StampHold(code: R.Code) | QuietHold | HandOff

  /** Everything up to the hand-off: a parked candidate asks for space before a slot and
      is claimed last, a queued one for a slot before space, a marked one for neither. */
  function Judge(env: Env, s: State, c: Candidate, t: Turn): (Gate, Verdict)
    requires !t.ContextEnds?
  {
    match t
    case Busy => (s.gate, Skip)
    case Overtaken => (s.gate, Skip)
    case ReadFails => (s.gate, StoreError)
    case Goes(claim, _, _) =>
      if c.parked then
        var (g, r) := Reserve(env, s.gate, c.destination);
        if r.None? || !Fits(r.value, Remaining(c)) then (g, StampHold(R.DiskFull))
        else if Blocked(env.limits, s, c.engine) then (g, QuietHold)
        else (g, match claim case Taken => HandOff case Declined => Skip case ClaimFails => StoreError)
      else if c.pending then (s.gate, HandOff)
      else if Blocked(env.limits, s, c.engine) then (s.gate, StampHold(R.ConcurrencyLimit))
      else
        var (g, r) := Reserve(env, s.gate, c.destination);
        if r.Some? && !Fits(r.value, Remaining(c)) then (g, StampHold(R.DiskFull)) else (g, HandOff)
  }

  predicate HandsOff(env: Env, s: State, c: Candidate, t: Turn) {
    t.Goes? && Judge(env, s, c, t).1.HandOff?
  }

  /** The hand-off cost a slot and its bytes, and the snapshot had not counted them. */
  predicate Charges(env: Env, s: State, c: Candidate, t: Turn) {
    HandsOff(env, s, c, t) && (t.outcome.Released? || t.outcome.Spent?) && !c.Marked()
  }

  function Spend(env: Env, s: State, c: Candidate): State {
    s.(total := s.total + 1, byEngine := s.byEngine[c.engine := s.Of(c.engine) + 1], gate := Commit(env, s.gate, c))
  }

  function Visit(env: Env, s: State, c: Candidate, t: Turn): State {
    if t.ContextEnds? then s.(ended := true)
    else
      var (g, v) := Judge(env, s, c, t);
      var s1 := s.(gate := g);
      match v
      case Skip => s1
      case QuietHold => s1
      case StoreError => s1.(errors := s.errors + 1)
      case StampHold(code) => s1.(stamps := s.stamps + [(c.id, code)])
      case HandOff =>
        match t.outcome
        case Held => s1
        case Aborted => s1.(ended := true)
        case Spent => if c.Marked() then s1 else Spend(env, s1, c)
        case Released =>
          var s2 := if c.Marked() then s1 else Spend(env, s1, c);
          s2.(released := s2.released + [c.id])
  }

  function Walk(env: Env, s: State, cs: seq<Candidate>, ts: seq<Turn>): State
    requires |cs| == |ts|
  {
    if cs == [] then s
    else
      var s1 := Walk(env, s, cs[..|cs| - 1], ts[..|cs| - 1]);
      if s1.ended then s1 else Visit(env, s1, cs[|cs| - 1], ts[|cs| - 1])
  }

  lemma WalkNext(env: Env, s: State, cs: seq<Candidate>, ts: seq<Turn>, k: nat)
    requires |cs| == |ts| && k < |cs|
    ensures Walk(env, s, cs[..k + 1], ts[..k + 1]) ==
            var s1 := Walk(env, s, cs[..k], ts[..k]);
            if s1.ended then s1 else Visit(env, s1, cs[k], ts[k])
  {
    assert cs[..k + 1][..k] == cs[..k] && ts[..k + 1][..k] == ts[..k];
  }

  /** What one visit does, by its verdict. */
  lemma VisitByVerdict(env: Env, s: State, c: Candidate, t: Turn)
    ensures var s' := Visit(env, s, c, t);
            if t.ContextEnds? then s' == s.(ended := true)
            else
              var (g, v) := Judge(env, s, c, t);
              if v.HandOff? then
                var charged := t.outcome in {H.Released, H.Spent} && !c.Marked();
                && t.Goes?
                && s'.ended == (s.ended || t.outcome.Aborted?)
                && s'.total == s.total + (if charged then 1 else 0)
                && s'.byEngine == (if charged then s.byEngine[c.engine := s.Of(c.engine) + 1] else s.byEngine)
                && s'.gate == (if charged then Commit(env, g, c) else g)
                && s'.released == s.released + (if t.outcome.Released? then [c.id] else [])
                && s'.stamps == s.stamps && s'.errors == s.errors
              else
                && s' == s.(gate := g, stamps := s'.stamps, errors := s'.errors)
                && s'.stamps == s.stamps + (if v.StampHold? then [(c.id, v.code)] else [])
                && s'.errors == s.errors + (if v.StoreError? then 1 else 0)
    ensures t.Busy? ==> Visit(env, s, c, t) == s
  {
  }

  // ------------------------------------------------------- the two limits

  lemma VisitCounts(env: Env, s: State, c: Candidate, t: Turn)
    ensures var s' := Visit(env, s, c, t);
            && s'.total == s.total + (if Charges(env, s, c, t) then 1 else 0)
            && forall e :: s'.Of(e) == s.Of(e) + (if Charges(env, s, c, t) && e == c.engine then 1 else 0)
    ensures Charges(env, s, c, t) ==> !Blocked(env.limits, s, c.engine)
  {
  }

  function Max(a: int, b: int): int {
    if a >= b then a else b
  }

  /** No pass admits past a limit, for any candidates and any answers; zero is no limit. */
  lemma {:induction false} NeverPastALimit(env: Env, s: State, cs: seq<Candidate>, ts: seq<Turn>, e: Engine)
    requires |cs| == |ts|
    ensures var s' := Walk(env, s, cs, ts);
            && s.total <= s'.total && s.Of(e) <= s'.Of(e)
            && (env.limits.maxTotal > 0 ==> s'.total <= Max(s.total, env.limits.maxTotal))
            && (env.limits.maxPerEngine > 0 ==> s'.Of(e) <= Max(s.Of(e), env.limits.maxPerEngine))
  {
    if cs != [] {
      var n := |cs| - 1;
      NeverPastALimit(env, s, cs[..n], ts[..n], e);
      VisitCounts(env, Walk(env, s, cs[..n], ts[..n]), cs[n], ts[n]);
    }
  }

  /** Without limits nothing is ever held for a slot. */
  lemma {:induction false} ZeroMeansUnlimited(env: Env, s: State, cs: seq<Candidate>, ts: seq<Turn>)
    requires |cs| == |ts| && env.limits == Limits(0, 0)
    ensures forall st :: st in Walk(env, s, cs, ts).stamps && st !in s.stamps ==> st.1 == R.DiskFull
  {
    if cs != [] {
      ZeroMeansUnlimited(env, s, cs[..|cs| - 1], ts[..|cs| - 1]);
    }
  }

  /** A candidate that arrived marked is handed over whatever the gates say, and changes
      neither the counts nor any pool. */
  lemma MarkedIsNotGatedNorCharged(env: Env, s: State, c: Candidate, t: Turn)
    requires c.Marked()
    ensures var s' := Visit(env, s, c, t);
            s'.total == s.total && s'.byEngine == s.byEngine && s'.gate == s.gate && s'.stamps == s.stamps
    ensures t.Goes? ==> HandsOff(env, s, c, t)
  {
  }

  /** The two passes gate the candidates to come alike. */
  predicate SameGates(a: State, b: State) {
    a.total == b.total && a.byEngine == b.byEngine && a.gate == b.gate && a.stamps == b.stamps && a.ended == b.ended
  }

  /** A turn after which the pass walks on no further. */
  predicate Ends(t: Turn) {
    t.ContextEnds? || (t.Goes? && t.outcome.Aborted?)
  }

  lemma MarkedVisitIsInvisible(env: Env, s: State, c: Candidate, t: Turn)
    requires c.Marked() && !Ends(t)
    ensures SameGates(Visit(env, s, c, t), s)
  {
    MarkedIsNotGatedNorCharged(env, s, c, t);
  }

  lemma VisitRespectsGates(env: Env, a: State, b: State, c: Candidate, t: Turn)
    requires SameGates(a, b)
    ensures SameGates(Visit(env, a, c, t), Visit(env, b, c, t))
  {
    hide *;
    VisitByVerdict(env, a, c, t);
    VisitByVerdict(env, b, c, t);
    GatesOf(a, b);
    if !t.ContextEnds? {
      JudgeRespectsGates(env, a, b, c, t);
    }
    GatesOf(Visit(env, a, c, t), Visit(env, b, c, t));
  }

  lemma GatesOf(a: State, b: State)
    ensures SameGates(a, b) <==> a.total == b.total && a.byEngine == b.byEngine && a.gate == b.gate && a.stamps == b.stamps && a.ended == b.ended
    ensures a.byEngine == b.byEngine ==> forall e :: a.Of(e) == b.Of(e)
  {
  }

  lemma JudgeRespectsGates(env: Env, a: State, b: State, c: Candidate, t: Turn)
    requires SameGates(a, b) && !t.ContextEnds?
    ensures Judge(env, a, c, t) == Judge(env, b, c, t)
  {
    assert Blocked(env.limits, a, c.engine) == Blocked(env.limits, b, c.engine);
    hide Wrap, Reserve, Fits, Blocked;
  }

  /** The walk without its marked retries. */
  function Others(cs: seq<Candidate>, ts: seq<Turn>): (r: (seq<Candidate>, seq<Turn>))
    requires |cs| == |ts|
    ensures |r.0| == |r.1| && forall c :: c in r.0 ==> !c.Marked()
  {
    if cs == [] then ([], [])
    else
      var n := |cs| - 1;
      var (others, turns) := Others(cs[..n], ts[..n]);
      if cs[n].Marked() then (others, turns) else (others + [cs[n]], turns + [ts[n]])
  }

  lemma WalkPush(env: Env, s: State, cs: seq<Candidate>, ts: seq<Turn>, c: Candidate, t: Turn)
    requires |cs| == |ts|
    ensures var s1 := Walk(env, s, cs, ts);
            Walk(env, s, cs + [c], ts + [t]) == if s1.ended then s1 else Visit(env, s1, c, t)
  {
    assert (cs + [c])[..|cs|] == cs && (ts + [t])[..|ts|] == ts;
  }

  /** Marked retries are invisible to the rest of a pass: for any candidates and answers the
      counts, the pools and the stamps are those of the pass without them. */
  lemma {:induction false} MarkedRetriesAreInvisible(env: Env, s: State, cs: seq<Candidate>, ts: seq<Turn>)
    requires |cs| == |ts| && forall k :: 0 <= k < |cs| && cs[k].Marked() ==> !Ends(ts[k])
    ensures var (others, turns) := Others(cs, ts); SameGates(Walk(env, s, cs, ts), Walk(env, s, others, turns))
  {
    hide Visit, Ends;
    if cs != [] {
      var n := |cs| - 1;
      MarkedRetriesAreInvisible(env, s, cs[..n], ts[..n]);
      var (others, turns) := Others(cs[..n], ts[..n]);
      var a, b := Walk(env, s, cs[..n], ts[..n]), Walk(env, s, others, turns);
      if cs[n].Marked() {
        MarkedVisitIsInvisible(env, a, cs[n], ts[n]);
      } else {
        WalkPush(env, s, others, turns, cs[n], ts[n]);
        VisitRespectsGates(env, a, b, cs[n], ts[n]);
      }
    }
  }

  /** Once the total limit is reached only marked retries are handed over for the rest of
      the pass. */
  lemma {:induction false} FullStaysFull(env: Env, s: State, cs: seq<Candidate>, ts: seq<Turn>, i: nat, j: nat)
    requires |cs| == |ts| && i <= j < |cs|
    requires 0 < env.limits.maxTotal <= Walk(env, s, cs[..i], ts[..i]).total
    ensures env.limits.maxTotal <= Walk(env, s, cs[..j], ts[..j]).total
    ensures !cs[j].Marked() ==> !HandsOff(env, Walk(env, s, cs[..j], ts[..j]), cs[j], ts[j])
  {
    hide Visit, Wrap;
    if i < j {
      FullStaysFull(env, s, cs, ts, i, j - 1);
      WalkNext(env, s, cs, ts, j - 1);
      VisitCounts(env, Walk(env, s, cs[..j - 1], ts[..j - 1]), cs[j - 1], ts[j - 1]);
    }
  }

  // ------------------------------------------------------- who is handed over

  /** A queued task that the pass has not marked goes exactly when there is a slot in all,
      a slot on its engine, and room on its filesystem if that can be read. */
  lemma QueuedGoesExactly(env: Env, s: State, c: Candidate, t: Turn)
    requires t.Goes? && !c.parked && !c.pending
    ensures HandsOff(env, s, c, t) <==>
            && (env.limits.maxTotal <= 0 || s.total < env.limits.maxTotal)
            && (env.limits.maxPerEngine <= 0 || (if c.engine in s.byEngine then s.byEngine[c.engine] else 0) < env.limits.maxPerEngine)
            && var r := Reserve(env, s.gate, c.destination).1; (r.None? || Fits(r.value, Remaining(c)))
  {
  }

  /** A parked one exactly when its filesystem can be read and has room, there are slots,
      and its claim is taken. */
  lemma ParkedGoesExactly(env: Env, s: State, c: Candidate, t: Turn)
    requires t.Goes? && c.parked
    ensures HandsOff(env, s, c, t) <==>
            && t.claim.Taken?
            && (env.limits.maxTotal <= 0 || s.total < env.limits.maxTotal)
            && (env.limits.maxPerEngine <= 0 || (if c.engine in s.byEngine then s.byEngine[c.engine] else 0) < env.limits.maxPerEngine)
            && var r := Reserve(env, s.gate, c.destination).1; (r.Some? && Fits(r.value, Remaining(c)))
  {
  }

  /** What a held task's row is told: a queued one names the slot before the space, a parked
      one names nothing but the space, so it stays what the next pass selects. */
  lemma HoldsSayWhy(env: Env, s: State, c: Candidate, t: Turn)
    requires t.Goes? && !c.Marked()
    ensures var l := env.limits;
            var full := (l.maxTotal > 0 && s.total >= l.maxTotal) || (l.maxPerEngine > 0 && s.Of(c.engine) >= l.maxPerEngine);
            var r := Reserve(env, s.gate, c.destination).1;
            var room := if r.None? then !c.parked else Fits(r.value, Remaining(c));
            Visit(env, s, c, t).stamps ==
            s.stamps + (if !c.parked && full then [(c.id, R.ConcurrencyLimit)] else if room then [] else [(c.id, R.DiskFull)])
  {
    hide Visit, Wrap, Remaining;
    VisitByVerdict(env, s, c, t);
  }

  /** What is left to download, in plain numbers: nothing while the total is unknown, and
      never less than nothing. */
  lemma RemainingIsTheRest(c: Candidate)
    requires 0 <= c.completedBytes <= MAX64 && (c.totalBytes.Some? ==> 0 <= c.totalBytes.value <= MAX64)
    ensures Remaining(c) == if c.totalBytes.Some? && c.totalBytes.value > c.completedBytes then c.totalBytes.value - c.completedBytes else 0
  {
  }

  /** A task is held for space only when it has to be: on a filesystem that can be read, with
      a slot free, exactly when its remaining bytes beside the pool would break its floor. */
  lemma SpaceHoldIsNeeded(env: Env, s: State, c: Candidate, t: Turn, free: int, pool: int)
    requires t.Goes? && !c.Marked() && env.identify(c.destination).Some?
    requires var fs := env.identify(c.destination).value;
             Some(free) == (if fs in s.gate.spaces then s.gate.spaces[fs] else env.statfs(c.destination))
    requires var fs := env.identify(c.destination).value; pool == if fs in s.gate.commits then s.gate.commits[fs] else 0
    requires free >= 0 && env.floorOf(c.destination) >= 0 && pool >= 0
    requires c.parked || (env.limits.maxTotal <= 0 || s.total < env.limits.maxTotal)
    requires c.parked || (env.limits.maxPerEngine <= 0 || s.Of(c.engine) < env.limits.maxPerEngine)
    ensures Visit(env, s, c, t).stamps == s.stamps + [(c.id, R.DiskFull)] <==>
            free - pool - Remaining(c) < env.floorOf(c.destination)
  {
    HoldsSayWhy(env, s, c, t);
    hide Visit, Wrap, Remaining;
    assert s.stamps != s.stamps + [(c.id, R.DiskFull)];
  }

  /** What else can become of a candidate: one that is busy or was overtaken, or whose claim
      was declined, leaves the pass as it is, and an error of the store is counted. */
  lemma OthersAreSkipped(env: Env, s: State, c: Candidate, t: Turn)
    ensures t.Busy? || t.Overtaken? ==> Visit(env, s, c, t) == s
    ensures t.ReadFails? ==> Visit(env, s, c, t) == s.(errors := s.errors + 1)
    ensures t.ContextEnds? ==> Visit(env, s, c, t) == s.(ended := true)
    ensures t.Goes? && (!c.parked || !t.claim.ClaimFails? || !HandsOff(env, s, c, t.(claim := Taken))) ==>
              Visit(env, s, c, t).errors == s.errors
  {
  }

  lemma ClaimsDecide(env: Env, s: State, c: Candidate, t: Turn)
    requires t.Goes? && c.parked && HandsOff(env, s, c, t.(claim := Taken))
    ensures t.claim.Declined? ==> Visit(env, s, c, t) == s.(gate := Reserve(env, s.gate, c.destination).0)
    ensures t.claim.ClaimFails? ==>
              Visit(env, s, c, t) == s.(gate := Reserve(env, s.gate, c.destination).0, errors := s.errors + 1)
  {
  }

  lemma {:induction false} CountsOnlyGrow(env: Env, s: State, cs: seq<Candidate>, ts: seq<Turn>, j: nat, e: Engine)
    requires |cs| == |ts| && j <= |cs|
    ensures var now, end := Walk(env, s, cs[..j], ts[..j]), Walk(env, s, cs, ts);
            now.total <= end.total && now.Of(e) <= end.Of(e)
    decreases |cs|
  {
    hide Visit, Wrap;
    if j == |cs| {
      assert cs[..j] == cs && ts[..j] == ts;
    } else {
      var n := |cs| - 1;
      CountsOnlyGrow(env, s, cs[..n], ts[..n], j, e);
      assert cs[..n][..j] == cs[..j] && ts[..n][..j] == ts[..j];
      VisitCounts(env, Walk(env, s, cs[..n], ts[..n]), cs[n], ts[n]);
    }
  }

  /** No slot is left over: when a pass held a queued task that had room on its filesystem,
      a limit that is set is used up at the pass's end, in all or on the task's engine. */
  lemma NoSlotLeftOver(env: Env, s: State, cs: seq<Candidate>, ts: seq<Turn>, j: nat)
    requires |cs| == |ts| && j < |cs| && ts[j].Goes? && !cs[j].parked && !cs[j].pending
    requires var s1 := Walk(env, s, cs[..j], ts[..j]);
             && !HandsOff(env, s1, cs[j], ts[j])
             && var r := Reserve(env, s1.gate, cs[j].destination).1; (r.None? || Fits(r.value, Remaining(cs[j])))
    ensures var end := Walk(env, s, cs, ts);
            || (env.limits.maxTotal > 0 && end.total >= env.limits.maxTotal)
            || (env.limits.maxPerEngine > 0 && end.Of(cs[j].engine) >= env.limits.maxPerEngine)
  {
    hide Walk, HandsOff, Reserve, Fits, Remaining;
    QueuedGoesExactly(env, Walk(env, s, cs[..j], ts[..j]), cs[j], ts[j]);
    CountsOnlyGrow(env, s, cs, ts, j, cs[j].engine);
  }

  // ---------------------------------------------------------- the database

  /** How many rows the hand-offs of this walk have added to the counted set. */
  function NewlyCounted(env: Env, s: State, cs: seq<Candidate>, ts: seq<Turn>): int
    requires |cs| == |ts|
  {
    if cs == [] then 0
    else
      var n := |cs| - 1;
      var s1 := Walk(env, s, cs[..n], ts[..n]);
      NewlyCounted(env, s, cs[..n], ts[..n])
      + (if !s1.ended && HandsOff(env, s1, cs[n], ts[n]) && ts[n].counted && !cs[n].Marked() then 1 else 0)
  }

  /** A hand-off that leaves its unmarked row counted and costs the running pass nothing. */
  predicate Escapes(env: Env, s: State, c: Candidate, t: Turn) {
    HandsOff(env, s, c, t) && t.counted && t.outcome.Held? && !c.Marked()
  }

  function Escaped(env: Env, s: State, cs: seq<Candidate>, ts: seq<Turn>): nat
    requires |cs| == |ts|
  {
    if cs == [] then 0
    else
      var n := |cs| - 1;
      var s1 := Walk(env, s, cs[..n], ts[..n]);
      Escaped(env, s, cs[..n], ts[..n]) + (if !s1.ended && Escapes(env, s1, cs[n], ts[n]) then 1 else 0)
  }

  /** The pass sees every slot the database will count, but for the escapes and for the
      hand-off a context ended in, after which it hands over nothing more. */
  lemma {:induction false} CountedIsChargedOrEscaped(env: Env, s: State, cs: seq<Candidate>, ts: seq<Turn>)
    requires |cs| == |ts|
    ensures var s' := Walk(env, s, cs, ts);
            s.total + NewlyCounted(env, s, cs, ts) <= s'.total + Escaped(env, s, cs, ts) + (if s'.ended then 1 else 0)
  {
    if cs != [] {
      var n := |cs| - 1;
      CountedIsChargedOrEscaped(env, s, cs[..n], ts[..n]);
      VisitCounts(env, Walk(env, s, cs[..n], ts[..n]), cs[n], ts[n]);
    }
  }

  /** So the database never counts past the limit by more than the escapes, whatever the
      answers: the aborted hand-off had found a free slot. */
  lemma {:induction false} DatabaseNeverPastALimit(env: Env, s: State, cs: seq<Candidate>, ts: seq<Turn>)
    requires |cs| == |ts| && env.limits.maxTotal > 0
    ensures s.total + NewlyCounted(env, s, cs, ts) <= Max(s.total, env.limits.maxTotal) + Escaped(env, s, cs, ts)
  {
    hide Visit, Walk, Judge, HandsOff, Wrap;
    if cs != [] {
      var n := |cs| - 1;
      DatabaseNeverPastALimit(env, s, cs[..n], ts[..n]);
      CountedIsChargedOrEscaped(env, s, cs[..n], ts[..n]);
      NeverPastALimit(env, s, cs[..n], ts[..n], "");
      HandsOffUnblocked(env, Walk(env, s, cs[..n], ts[..n]), cs[n], ts[n]);
    }
  }

  lemma HandsOffUnblocked(env: Env, s: State, c: Candidate, t: Turn)
    ensures HandsOff(env, s, c, t) && !c.Marked() ==> !BlockedByTotal(env.limits, s.total)
  {
  }

  // ------------------------------------------------------- the reservations

  function Bytes(env: Env, c: Candidate, fs: FsId): int {
    if env.identify(c.destination) == Some(fs) then Remaining(c) else 0
  }

  /** What the walk has promised on one filesystem. */
  function Promised(env: Env, s: State, cs: seq<Candidate>, ts: seq<Turn>, fs: FsId): (r: int)
    requires |cs| == |ts|
    ensures r >= 0
  {
    if cs == [] then 0
    else
      var n := |cs| - 1;
      var s1 := Walk(env, s, cs[..n], ts[..n]);
      Promised(env, s, cs[..n], ts[..n], fs)
      + (if !s1.ended && Charges(env, s1, cs[n], ts[n]) then Bytes(env, cs[n], fs) else 0)
  }

  lemma JudgeKeepsPools(env: Env, s: State, c: Candidate, t: Turn)
    requires !t.ContextEnds?
    ensures Judge(env, s, c, t).0.commits == s.gate.commits
    ensures Judge(env, s, c, t).1.HandOff? ==> t.Goes?
  {
  }

  lemma WrapAdds(a: int, b: int)
    ensures Wrap(Wrap(a) + b) == Wrap(a + b)
  {
  }

  lemma VisitPool(env: Env, s: State, c: Candidate, t: Turn, fs: FsId, sum: int)
    requires s.gate.Committed(fs) == Wrap(sum)
    ensures Visit(env, s, c, t).gate.Committed(fs) == Wrap(sum + if Charges(env, s, c, t) then Bytes(env, c, fs) else 0)
  {
    hide Wrap, Judge;
    if !t.ContextEnds? {
      JudgeKeepsPools(env, s, c, t);
      WrapAdds(sum, Bytes(env, c, fs));
    }
  }

  /** Destinations on one filesystem share one pool, and the pool grows by exactly the
      remaining bytes of the charged candidates on it. */
  lemma {:induction false} PoolsGrowByPromises(env: Env, s: State, cs: seq<Candidate>, ts: seq<Turn>, fs: FsId)
    requires |cs| == |ts| && MIN64 <= s.gate.Committed(fs) <= MAX64
    ensures Walk(env, s, cs, ts).gate.Committed(fs) == Wrap(s.gate.Committed(fs) + Promised(env, s, cs, ts, fs))
  {
    hide Visit, Wrap;
    if cs != [] {
      var n := |cs| - 1;
      PoolsGrowByPromises(env, s, cs[..n], ts[..n], fs);
      VisitPool(env, Walk(env, s, cs[..n], ts[..n]), cs[n], ts[n], fs, s.gate.Committed(fs) + Promised(env, s, cs[..n], ts[..n], fs));
    }
  }

  /** Every charged hand-off on a readable filesystem leaves free space minus the pool at
      or above the candidate's own floor, and its pool has not wrapped. */
  lemma ChargeLeavesTheFloor(env: Env, s: State, c: Candidate, t: Turn)
    requires Charges(env, s, c, t) && env.identify(c.destination).Some?
    requires var fs := env.identify(c.destination).value;
             fs in s.gate.spaces && s.gate.spaces[fs].Some? ==> s.gate.spaces[fs].value <= MAX64
    requires env.statfs(c.destination).Some? ==> env.statfs(c.destination).value <= MAX64
    ensures var fs := env.identify(c.destination).value;
            var g' := Visit(env, s, c, t).gate;
            fs in g'.spaces && (g'.spaces[fs].Some? ==>
              && g'.Committed(fs) == s.gate.Committed(fs) + Remaining(c)
              && g'.spaces[fs].value - g'.Committed(fs) >= env.floorOf(c.destination) >= 0)
  {
  }

  /** On a filesystem nobody can identify or read, a parked task stays parked and a
      queued one starts. */
  lemma UnreadableFailsByKind(env: Env, s: State, c: Candidate, t: Turn)
    requires t.Goes? && Reserve(env, s.gate, c.destination).1.None?
    ensures c.parked ==> Visit(env, s, c, t).stamps == s.stamps + [(c.id, R.DiskFull)] && !HandsOff(env, s, c, t)
    ensures !c.parked && !Blocked(env.limits, s, c.engine) ==> HandsOff(env, s, c, t)
  {
  }

  /** Nobody can read this filesystem, and the pass has no earlier answer. */
  ghost predicate Unreadable(env: Env, g: Gate, fs: FsId) {
    (fs in g.spaces ==> g.spaces[fs].None?) && forall d :: env.identify(d) == Some(fs) ==> env.statfs(d).None?
  }

  lemma VisitKeepsUnreadable(env: Env, s: State, c: Candidate, t: Turn, fs: FsId)
    requires Unreadable(env, s.gate, fs)
    ensures Unreadable(env, Visit(env, s, c, t).gate, fs)
  {
    hide Judge, Commit;
    if !t.ContextEnds? {
      JudgeKeepsUnreadable(env, s, c, t, fs);
      CommitKeepsSpaces(env, Judge(env, s, c, t).0, c);
    }
  }

  lemma JudgeKeepsUnreadable(env: Env, s: State, c: Candidate, t: Turn, fs: FsId)
    requires Unreadable(env, s.gate, fs) && !t.ContextEnds?
    ensures Unreadable(env, Judge(env, s, c, t).0, fs)
  {
    hide Reserve, Fits, Blocked, Unreadable;
    ReserveKeepsUnreadable(env, s.gate, c.destination, fs);
  }

  lemma ReserveKeepsUnreadable(env: Env, g: Gate, d: Path, fs: FsId)
    requires Unreadable(env, g, fs)
    ensures Unreadable(env, Reserve(env, g, d).0, fs)
  {
  }

  lemma CommitKeepsSpaces(env: Env, g: Gate, c: Candidate)
    ensures Commit(env, g, c).spaces == g.spaces
  {
  }

  /** Over a whole pass, a filesystem that cannot be read lets no parked task go, and holds
      no queued one that has a slot. */
  lemma {:induction false} UnreadableOverThePass(env: Env, s: State, cs: seq<Candidate>, ts: seq<Turn>, fs: FsId, j: nat)
    requires |cs| == |ts| && j < |cs| && Unreadable(env, s.gate, fs)
    ensures var s' := Walk(env, s, cs[..j], ts[..j]);
            && Unreadable(env, s'.gate, fs)
            && (env.identify(cs[j].destination) == Some(fs) && ts[j].Goes? ==>
                  && (cs[j].parked ==> !HandsOff(env, s', cs[j], ts[j]))
                  && (!cs[j].parked && !Blocked(env.limits, s', cs[j].engine) ==> HandsOff(env, s', cs[j], ts[j])))
  {
    if j > 0 {
      UnreadableOverThePass(env, s, cs, ts, fs, j - 1);
      WalkNext(env, s, cs, ts, j - 1);
      VisitKeepsUnreadable(env, Walk(env, s, cs[..j - 1], ts[..j - 1]), cs[j - 1], ts[j - 1], fs);
    } else {
      assert cs[..0] == [] && ts[..0] == [];
    }
    hide Visit, Walk, HandsOff, Wrap, Fits;
    var s' := Walk(env, s, cs[..j], ts[..j]);
    if env.identify(cs[j].destination) == Some(fs) && ts[j].Goes? {
      UnreadableFailsByKind(env, s', cs[j], ts[j]);
    }
  }
}
