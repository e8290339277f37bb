/**
The login throttle of internal/api/auth.go: a bucket per source address and a capped
exponential ladder per account, with a sweep that keeps the maps from growing.

The functions are one mutex section each; LoginThrottleMaps.Throttle computes them in place.
Times and durations are nanoseconds.
*/
module LoginThrottle {
  import opened Options

  const SECOND := 1_000_000_000
  const CAPACITY := 10
  const WINDOW := 300 * SECOND
  /** One attempt in refill time: the window divided by the capacity. */
  const ATTEMPT_COST := 30 * SECOND
  const BACKOFF_START := SECOND
  const BACKOFF_CAP := 900 * SECOND
  const MAX_SHIFT := 10
  const SWEEP_FLOOR := 1024

  type Key = string

  datatype Bucket = Bucket(credit: int, at: int)

  datatype State = State(accounts: map<Key, int>, failures: map<Key, int>, sources: map<Key, Bucket>)

  const Fresh: State := State(map[], map[], map[])

  // ------------------------------------------------------------ the sections

  function Lower(c: char): char {
    if 'A' <= c <= 'Z' then (c as int + 32) as char else c
  }

  /** accountKey: ASCII letters only, like the database's NOCASE. */
  function AccountKey(username: string): (r: string)
    ensures |r| == |username| && forall k :: 0 <= k < |r| ==> r[k] == Lower(username[k])
  {
    if username == "" then "" else [Lower(username[0])] + AccountKey(username[1..])
  }

  /** The same letter but for its ASCII case. */
  predicate SameFolded(c: char, d: char) {
    || c == d
    || ('A' <= c <= 'Z' && d as int == c as int + ('a' as int - 'A' as int))
    || ('A' <= d <= 'Z' && c as int == d as int + ('a' as int - 'A' as int))
  }

  lemma LowerFolds(c: char, d: char)
    ensures Lower(c) == Lower(d) <==> SameFolded(c, d)
  {
  }

  /** Which names share an account: those that differ in the case of ASCII letters alone. */
  lemma SameAccount(a: string, b: string)
    ensures AccountKey(a) == AccountKey(b) <==> |a| == |b| && forall k :: 0 <= k < |a| ==> SameFolded(a[k], b[k])
  {
    var x, y := AccountKey(a), AccountKey(b);
    hide Lower, SameFolded, AccountKey;
    forall k | 0 <= k < |a| && k < |b| ensures x[k] == y[k] <==> SameFolded(a[k], b[k]) {
      LowerFolds(a[k], b[k]);
    }
    assert x == y <==> |a| == |b| && forall k :: 0 <= k < |a| ==> x[k] == y[k];
  }

  function Min(a: int, b: int): int {
    if a <= b then a else b
  }

  function Refill(b: Bucket, now: int): Bucket {
    if now > b.at then Bucket(b.credit + Min(now - b.at, WINDOW - b.credit), now) else b
  }

  function BucketOf(s: State, ip: Key, now: int): Bucket {
    Refill(if ip in s.sources then s.sources[ip] else Bucket(WINDOW, now), now)
  }

  /** sweepLocked */
  function Swept(s: State, now: int): State {
    var keep := map u | u in s.accounts && now - s.accounts[u] < BACKOFF_CAP :: s.accounts[u];
    State(keep,
          map u | u in s.failures && (u !in s.accounts || u in keep) :: s.failures[u],
          map ip | ip in s.sources && now - s.sources[ip].at < WINDOW :: s.sources[ip])
  }

  function SweptIfCrowded(s: State, now: int): State {
    if |s.sources| > SWEEP_FLOOR then Swept(s, now) else s
  }

  function Filled(s: State, ip: Key, b: Bucket): State {
    s.(sources := s.sources[ip := b])
  }

  /** None admits, Some is the wait of a refusal. */
  function CheckSource(s: State, ip: Key, now: int): (State, Option<int>) {
    var b := BucketOf(s, ip, now);
    if b.credit < ATTEMPT_COST then
      (Filled(s, ip, b), Some(ATTEMPT_COST - b.credit))
    else
      (SweptIfCrowded(Filled(s, ip, Bucket(b.credit - ATTEMPT_COST, b.at)), now), None)
  }

  function CheckAccount(s: State, user: Key, now: int): (State, Option<int>) {
    if user !in s.accounts then (s, None)
    else
      var eligible := s.accounts[user];
      (if now - eligible >= BACKOFF_CAP then s.(accounts := s.accounts - {user}, failures := s.failures - {user}) else s,
       if now >= eligible then None else Some(eligible - now))
  }

  function Pow2(n: nat): (r: int)
    ensures r >= 1
  {
    if n == 0 then 1 else 2 * Pow2(n - 1)
  }

  function Failures(s: State, user: Key): int {
    if user in s.failures then s.failures[user] else 0
  }

  /** The counter is never negative, and clamped it fits the shift. */
  function Clamped(failures: int): int {
    Min(failures, MAX_SHIFT + 1)
  }

  function Delay(failures: int): int {
    if failures < 1 then 0 else Min(BACKOFF_START * Pow2(failures - 1), BACKOFF_CAP)
  }

  function Put(s: State, user: Key, failures: int, eligible: int): State {
    s.(failures := s.failures[user := failures], accounts := s.accounts[user := eligible])
  }

  function SweptIfLarge(s: State, now: int): State {
    if |s.accounts| > SWEEP_FLOOR then Swept(s, now) else s
  }

  function RecordFailure(s: State, user: Key, now: int): State {
    var failures := Clamped(Failures(s, user) + 1);
    SweptIfLarge(Put(s, user, failures, now + Delay(failures)), now)
  }

  function RecordSuccess(s: State, user: Key): State {
    s.(accounts := s.accounts - {user}, failures := s.failures - {user})
  }

  // ---------------------------------------------------------- rate of a source

  datatype Op =
    | Source(ip: Key, now: int)
    | Account(user: Key, now: int)
    | Failure(user: Key, now: int)
    | Success(user: Key)

  function Step(s: State, op: Op): State {
    match op
    case Source(ip, now) => CheckSource(s, ip, now).0
    case Account(user, now) => CheckAccount(s, user, now).0
    case Failure(user, now) => RecordFailure(s, user, now)
    case Success(user) => RecordSuccess(s, user)
  }

  function Run(s: State, ops: seq<Op>): State {
    if ops == [] then s else Step(Run(s, ops[..|ops| - 1]), ops[|ops| - 1])
  }

  /** Sections from any number of logins, in lock order.  The clock of the source checks
      does not go back, and what a login records it records with a time it read before. */
  predicate Timely(ops: seq<Op>, from: int, to: int) {
    ops == [] || (var op := ops[|ops| - 1];
                  && Timely(ops[..|ops| - 1], from, if op.Source? then op.now else to)
                  && (op.Source? ==> from <= op.now <= to)
                  && (op.Failure? ==> op.now <= to))
  }

  /** How many attempts of one address a run admitted. */
  function Admitted(s: State, ops: seq<Op>, ip: Key): nat {
    if ops == [] then 0
    else
      var op := ops[|ops| - 1];
      var before := Run(s, ops[..|ops| - 1]);
      Admitted(s, ops[..|ops| - 1], ip)
      + (if op.Source? && op.ip == ip && CheckSource(before, ip, op.now).1.None? then 1 else 0)
  }

  ghost predicate CreditsOk(s: State) {
    forall ip :: ip in s.sources ==> 0 <= s.sources[ip].credit <= WINDOW
  }

  /** What an address could spend at a time. */
  function Credit(s: State, ip: Key, t: int): int {
    BucketOf(s, ip, t).credit
  }

  lemma CreditBounds(s: State, ip: Key, t: int, u: int)
    requires CreditsOk(s) && t <= u
    ensures 0 <= Credit(s, ip, t) <= WINDOW
    ensures Credit(s, ip, t) <= Credit(s, ip, u) <= Credit(s, ip, t) + (u - t)
  {
  }

  lemma SweepKeepsCredit(s: State, now: int, ip: Key, t: int)
    requires CreditsOk(s) && now <= t
    ensures CreditsOk(Swept(s, now)) && Credit(Swept(s, now), ip, t) == Credit(s, ip, t)
  {
  }

  /** What a sweep forgets, exactly: waits over for fifteen minutes, with their counters, and
      addresses not seen for a whole window. */
  lemma SweepForgetsTheIdle(s: State, now: int, u: Key)
    ensures var s' := Swept(s, now);
            && (u in s'.accounts <==> u in s.accounts && now - s.accounts[u] < BACKOFF_CAP)
            && (u in s.accounts ==> (u in s'.failures <==> u in s.failures && u in s'.accounts))
            && (u in s'.sources <==> u in s.sources && now - s.sources[u].at < WINDOW)
  {
  }

  lemma SourceSpends(s: State, ip: Key, now: int)
    requires CreditsOk(s)
    ensures var (s', wait) := CheckSource(s, ip, now);
            && CreditsOk(s')
            && Credit(s', ip, now) == Credit(s, ip, now) - (if wait.None? then ATTEMPT_COST else 0)
  {
    var b := BucketOf(s, ip, now);
    CreditBounds(s, ip, now, now);
    var s1 := s.(sources := s.sources[ip := if b.credit < ATTEMPT_COST then b else Bucket(b.credit - ATTEMPT_COST, b.at)]);
    assert CreditsOk(s1) && Credit(s1, ip, now) == if b.credit < ATTEMPT_COST then b.credit else b.credit - ATTEMPT_COST;
    SweepKeepsCredit(s1, now, ip, now);
  }

  lemma SourceKeepsOthers(s: State, ip: Key, now: int, other: Key, t: int)
    requires CreditsOk(s) && other != ip && now <= t
    ensures Credit(CheckSource(s, ip, now).0, other, t) == Credit(s, other, t)
  {
    var b := BucketOf(s, ip, now);
    CreditBounds(s, ip, now, now);
    var s1 := s.(sources := s.sources[ip := if b.credit < ATTEMPT_COST then b else Bucket(b.credit - ATTEMPT_COST, b.at)]);
    SweepKeepsCredit(s1, now, other, t);
  }

  lemma FailureKeepsCredit(s: State, user: Key, now: int, ip: Key, t: int)
    requires CreditsOk(s) && now <= t
    ensures CreditsOk(RecordFailure(s, user, now)) && Credit(RecordFailure(s, user, now), ip, t) == Credit(s, ip, t)
  {
    var failures := Clamped(Failures(s, user) + 1);
    SweepKeepsCredit(Put(s, user, failures, now + Delay(failures)), now, ip, t);
  }

  /** Everything but an admitted attempt of the address leaves what it can spend alone. */
  lemma StepKeepsCredit(s: State, op: Op, ip: Key, t: int)
    requires CreditsOk(s) && !(op.Source? && op.ip == ip) && (op.Source? || op.Failure? ==> op.now <= t)
    ensures CreditsOk(Step(s, op)) && Credit(Step(s, op), ip, t) == Credit(s, ip, t)
  {
    match op
    case Source(other, now) =>
      SourceSpends(s, other, now);
      SourceKeepsOthers(s, other, now, ip, t);
    case Failure(user, now) => FailureKeepsCredit(s, user, now, ip, t);
    case Account(_, _) =>
    case Success(_) =>
  }

  lemma LedgerNext(cost: int, a: int, adm: bool, before: int, spent: int, after: int, start: int, d: int, e: int)
    requires cost * a + before <= start + d
    requires spent == before - (if adm then cost else 0) && after <= spent + e
    ensures cost * (a + if adm then 1 else 0) + after <= start + (d + e)
  {
    if adm {
      assert cost * (a + 1) == cost * a + cost;
    }
  }

  lemma AdmittedNext(s: State, ops: seq<Op>, ip: Key)
    requires ops != []
    ensures var op := ops[|ops| - 1];
            var before := Run(s, ops[..|ops| - 1]);
            && Run(s, ops) == Step(before, op)
            && Admitted(s, ops, ip) == Admitted(s, ops[..|ops| - 1], ip)
                                       + (if op.Source? && op.ip == ip && CheckSource(before, ip, op.now).1.None? then 1 else 0)
  {
  }

  lemma StepSpends(s: State, op: Op, ip: Key, t: int)
    requires CreditsOk(s) && (op.Source? ==> t == op.now) && (op.Failure? ==> op.now <= t)
    ensures CreditsOk(Step(s, op))
    ensures Credit(Step(s, op), ip, t) ==
            Credit(s, ip, t) - (if op.Source? && op.ip == ip && CheckSource(s, ip, op.now).1.None? then ATTEMPT_COST else 0)
  {
    if op.Source? && op.ip == ip {
      SourceSpends(s, ip, t);
    } else {
      StepKeepsCredit(s, op, ip, t);
    }
  }

  lemma LedgerStart(s: State, ip: Key, from: int, to: int)
    requires CreditsOk(s) && from <= to
    ensures Run(s, []) == s && Admitted(s, [], ip) == 0 && Credit(s, ip, to) <= Credit(s, ip, from) + (to - from)
  {
    CreditBounds(s, ip, from, to);
  }

  /** Everything admitted was paid from what was there or refilled in the meantime. */
  lemma {:induction false} CreditLedger(s: State, ops: seq<Op>, ip: Key, from: int, to: int)
    requires CreditsOk(s) && from <= to && Timely(ops, from, to)
    ensures CreditsOk(Run(s, ops))
    ensures ATTEMPT_COST * Admitted(s, ops, ip) + Credit(Run(s, ops), ip, to) <= Credit(s, ip, from) + (to - from)
  {
    hide *;
    if ops == [] {
      LedgerStart(s, ip, from, to);
    } else {
      var op := ops[|ops| - 1];
      var front := ops[..|ops| - 1];
      var before := Run(s, front);
      var t := if op.Source? then op.now else to;
      TimelyBefore(ops, from, to);
      CreditLedger(s, front, ip, from, t);
      AdmittedNext(s, ops, ip);
      StepSpends(before, op, ip, t);
      CreditBounds(Step(before, op), ip, t, to);
      var adm := op.Source? && op.ip == ip && CheckSource(before, ip, op.now).1.None?;
      LedgerNext(ATTEMPT_COST, Admitted(s, front, ip), adm, Credit(before, ip, t), Credit(Step(before, op), ip, t),
                 Credit(Step(before, op), ip, to), Credit(s, ip, from), t - from, to - t);
    }
  }

  lemma TimelyBefore(ops: seq<Op>, from: int, to: int)
    requires Timely(ops, from, to) && ops != []
    ensures var op := ops[|ops| - 1];
            var t := if op.Source? then op.now else to;
            Timely(ops[..|ops| - 1], from, t) && t <= to && (from <= to ==> from <= t) && (op.Source? || op.Failure? ==> op.now <= t)
  {
  }

  /** In any interval, whatever the other addresses and accounts do and whenever the maps
      are swept, one address is admitted at most ten times and once more for every thirty
      seconds of the interval's length. */
  lemma SourceRateBound(s: State, ops: seq<Op>, ip: Key, from: int, to: int)
    requires CreditsOk(s) && from <= to && Timely(ops, from, to)
    ensures Admitted(s, ops, ip) <= CAPACITY + (to - from) / ATTEMPT_COST
  {
    hide *;
    CreditLedger(s, ops, ip, from, to);
    CreditBounds(s, ip, from, from);
    CreditBounds(Run(s, ops), ip, to, to);
    CapacityIsTheWindow(Admitted(s, ops, ip));
    DivBound(Admitted(s, ops, ip) - CAPACITY, to - from);
  }

  lemma CapacityIsTheWindow(n: int)
    ensures ATTEMPT_COST * (n - CAPACITY) == ATTEMPT_COST * n - WINDOW
  {
  }

  lemma DivBound(n: int, d: int)
    requires ATTEMPT_COST * n <= d && d >= 0
    ensures n <= d / ATTEMPT_COST
  {
    assert d == ATTEMPT_COST * (d / ATTEMPT_COST) + d % ATTEMPT_COST;
    assert n < d / ATTEMPT_COST + 1;
  }

  lemma {:induction false} OthersKeepCredit(s: State, ops: seq<Op>, ip: Key, from: int, to: int)
    requires CreditsOk(s) && from <= to && Timely(ops, from, to)
    requires forall op :: op in ops ==> !(op.Source? && op.ip == ip)
    ensures CreditsOk(Run(s, ops)) && Credit(Run(s, ops), ip, to) == Credit(s, ip, to)
  {
    if ops != [] {
      var op := ops[|ops| - 1];
      var front := ops[..|ops| - 1];
      assert op in ops && forall o :: o in front ==> o in ops;
      TimelyLater(front, from, if op.Source? then op.now else to, to);
      OthersKeepCredit(s, front, ip, from, to);
      StepKeepsCredit(Run(s, front), op, ip, to);
    }
  }

  lemma {:induction false} TimelyLater(ops: seq<Op>, from: int, t: int, to: int)
    requires Timely(ops, from, t) && t <= to
    ensures Timely(ops, from, to)
  {
    if ops != [] {
      var op := ops[|ops| - 1];
      TimelyLater(ops[..|ops| - 1], from, if op.Source? then op.now else t, if op.Source? then op.now else to);
    }
  }

  /** The wait a refusal names is exact: with any other traffic in between, the address's
      next attempt after d is admitted if and only if d is at least that wait. */
  lemma RefusalWaitIsExact(s: State, ip: Key, now: int, others: seq<Op>, d: int)
    requires CreditsOk(s) && d >= 0 && (ip in s.sources ==> s.sources[ip].at <= now)
    requires CheckSource(s, ip, now).1.Some?
    requires Timely(others, now, now + d) && forall op :: op in others ==> !(op.Source? && op.ip == ip)
    ensures var (s', wait) := CheckSource(s, ip, now);
            CheckSource(Run(s', others), ip, now + d).1 == if d >= wait.value then None else Some(wait.value - d)
  {
    var (s', wait) := CheckSource(s, ip, now);
    SourceSpends(s, ip, now);
    OthersKeepCredit(s', others, ip, now, now + d);
    CreditBounds(s, ip, now, now);
    assert s'.sources[ip] == Bucket(ATTEMPT_COST - wait.value, now);
  }

  // ------------------------------------------------- the sweep and the clamp

  datatype Outcome = Rejected | Accepted | Broke

  /** One login from beginning to end: both checks and its record at one instant. */
  datatype Login = Login(ip: Key, username: string, now: int, outcome: Outcome)

  datatype Answer = SourceLimited(wait: int) | AccountLimited(wait: int) | LetIn

  function Concluded(s: State, user: Key, l: Login, failed: State): State {
    match l.outcome
    case Rejected => failed
    case Accepted => RecordSuccess(s, user)
    case Broke => s
  }

  function HandleLogin(s: State, l: Login): (State, Answer) {
    var (s1, sourceWait) := CheckSource(s, l.ip, l.now);
    if sourceWait.Some? then (s1, SourceLimited(sourceWait.value))
    else
      var user := AccountKey(l.username);
      var (s2, accountWait) := CheckAccount(s1, user, l.now);
      if accountWait.Some? then (s2, AccountLimited(accountWait.value))
      else
        (Concluded(s2, user, l, RecordFailure(s2, user, l.now)), LetIn)
  }

  /** The throttle its documentation describes: nothing is ever swept, and the failure
      counter is not clamped. */
  function IdealSource(s: State, ip: Key, now: int): (State, Option<int>) {
    var b := BucketOf(s, ip, now);
    if b.credit < ATTEMPT_COST then (Filled(s, ip, b), Some(ATTEMPT_COST - b.credit))
    else (Filled(s, ip, Bucket(b.credit - ATTEMPT_COST, b.at)), None)
  }

  function IdealFailure(s: State, user: Key, now: int): State {
    var failures := Failures(s, user) + 1;
    Put(s, user, failures, now + Delay(failures))
  }

  function IdealLogin(s: State, l: Login): (State, Answer) {
    var (s1, sourceWait) := IdealSource(s, l.ip, l.now);
    if sourceWait.Some? then (s1, SourceLimited(sourceWait.value))
    else
      var user := AccountKey(l.username);
      var (s2, accountWait) := CheckAccount(s1, user, l.now);
      if accountWait.Some? then (s2, AccountLimited(accountWait.value))
      else
        (Concluded(s2, user, l, IdealFailure(s2, user, l.now)), LetIn)
  }

  /** The swept state is the ideal one without entries that no longer matter. */
  ghost predicate AccountsAgree(s: State, i: State, clock: int) {
    && s.accounts.Keys == s.failures.Keys && i.accounts.Keys == i.failures.Keys
    && (forall u :: u in s.accounts ==> u in i.accounts && s.accounts[u] == i.accounts[u] && s.failures[u] == Clamped(i.failures[u]))
    && (forall u :: u in i.accounts && u !in s.accounts ==> clock - i.accounts[u] >= BACKOFF_CAP)
    && (forall u :: u in i.accounts ==> i.failures[u] >= 1)
  }

  ghost predicate SourcesAgree(s: State, i: State, clock: int) {
    && CreditsOk(i)
    && (forall ip :: ip in s.sources ==> ip in i.sources && s.sources[ip] == i.sources[ip])
    && (forall ip :: ip in i.sources && ip !in s.sources ==> clock - i.sources[ip].at >= WINDOW)
  }

  ghost predicate Agree(s: State, i: State, clock: int) {
    AccountsAgree(s, i, clock) && SourcesAgree(s, i, clock)
  }

  lemma SweepAgrees(s: State, i: State, now: int)
    requires Agree(s, i, now)
    ensures Agree(Swept(s, now), i, now)
  {
  }

  lemma LaterAgrees(s: State, i: State, clock: int, now: int)
    requires Agree(s, i, clock) && clock <= now
    ensures Agree(s, i, now)
  {
  }

  lemma BucketsAgree(s: State, i: State, ip: Key, now: int)
    requires Agree(s, i, now)
    ensures BucketOf(s, ip, now) == BucketOf(i, ip, now) && 0 <= BucketOf(i, ip, now).credit <= WINDOW
  {
  }

  lemma FilledAgrees(s: State, i: State, ip: Key, b: Bucket, now: int)
    requires Agree(s, i, now) && 0 <= b.credit <= WINDOW
    ensures Agree(Filled(s, ip, b), Filled(i, ip, b), now)
  {
  }

  lemma SweptIfCrowdedAgrees(s: State, i: State, now: int)
    requires Agree(s, i, now)
    ensures Agree(SweptIfCrowded(s, now), i, now)
  {
    SweepAgrees(s, i, now);
  }

  lemma SourceAgrees(s: State, i: State, ip: Key, now: int)
    requires Agree(s, i, now)
    ensures CheckSource(s, ip, now).1 == IdealSource(i, ip, now).1
    ensures Agree(CheckSource(s, ip, now).0, IdealSource(i, ip, now).0, now)
  {
    hide Agree, BucketOf, SweptIfCrowded, Filled;
    BucketsAgree(s, i, ip, now);
    var b := BucketOf(i, ip, now);
    if b.credit < ATTEMPT_COST {
      FilledAgrees(s, i, ip, b, now);
    } else {
      var paid := Bucket(b.credit - ATTEMPT_COST, b.at);
      FilledAgrees(s, i, ip, paid, now);
      SweptIfCrowdedAgrees(Filled(s, ip, paid), Filled(i, ip, paid), now);
    }
  }

  lemma AccountAgrees(s: State, i: State, user: Key, now: int)
    requires Agree(s, i, now)
    ensures CheckAccount(s, user, now).1 == CheckAccount(i, user, now).1
    ensures Agree(CheckAccount(s, user, now).0, CheckAccount(i, user, now).0, now)
    ensures user in CheckAccount(i, user, now).0.accounts ==> user in CheckAccount(s, user, now).0.accounts
  {
  }

  lemma {:induction false} Pow2Grows(n: nat)
    ensures n >= 10 ==> Pow2(n) >= 1024
  {
    if n > 10 {
      Pow2Grows(n - 1);
    }
    assert Pow2(10) == 1024 by {
      assert Pow2(4) == 16 && Pow2(7) == 8 * Pow2(4) && Pow2(10) == 8 * Pow2(7);
    }
  }

  /** Clamped at eleven, the counter names the same delays as an unbounded one. */
  lemma ClampIsExact(failures: int)
    requires failures >= 1
    ensures Delay(Clamped(failures)) == Min(BACKOFF_START * Pow2(failures - 1), BACKOFF_CAP)
  {
    Pow2Grows(failures - 1);
    Pow2Grows(10);
  }

  lemma ClampCommutes(k: int)
    requires k >= 0
    ensures Clamped(Clamped(k) + 1) == Clamped(k + 1) && Delay(Clamped(k + 1)) == Delay(k + 1)
  {
    ClampIsExact(k + 1);
  }

  // ------------------------------------------------------ the account ladder

  /** Traffic that neither fails nor succeeds for this account, none of it later than t. */
  ghost predicate Elsewhere(ops: seq<Op>, user: Key, t: int) {
    forall op :: op in ops ==> (op.Failure? || op.Success? ==> op.user != user) && (!op.Success? ==> op.now <= t)
  }

  /** The account's wait is what it was, or was over long enough at t to be forgotten. */
  ghost predicate KeepsWait(s: State, s': State, user: Key, t: int) {
    && (user in s'.accounts ==> user in s.accounts && s'.accounts[user] == s.accounts[user])
    && (user in s.accounts && user !in s'.accounts ==> t - s.accounts[user] >= BACKOFF_CAP)
    && (user in s'.accounts || user !in s.accounts ==> Failures(s', user) == Failures(s, user))
  }

  lemma SweepKeepsWait(s: State, now: int, user: Key, t: int)
    requires now <= t
    ensures KeepsWait(s, Swept(s, now), user, t)
  {
  }

  lemma PutKeepsWait(s: State, other: Key, failures: int, eligible: int, user: Key, t: int)
    requires other != user
    ensures KeepsWait(s, Put(s, other, failures, eligible), user, t)
  {
  }

  lemma KeepsWaitOn(s: State, s1: State, s2: State, user: Key, t: int)
    requires KeepsWait(s, s1, user, t) && KeepsWait(s1, s2, user, t)
    ensures KeepsWait(s, s2, user, t)
  {
  }

  lemma LargeKeepsWait(s: State, now: int, user: Key, t: int)
    requires now <= t
    ensures KeepsWait(s, SweptIfLarge(s, now), user, t) && KeepsWait(s, SweptIfCrowded(s, now), user, t)
  {
    hide Swept;
    SweepKeepsWait(s, now, user, t);
  }

  lemma SourceKeepsWait(s: State, ip: Key, now: int, user: Key, t: int)
    requires now <= t
    ensures KeepsWait(s, CheckSource(s, ip, now).0, user, t)
  {
    hide BucketOf, SweptIfCrowded;
    var b := BucketOf(s, ip, now);
    LargeKeepsWait(Filled(s, ip, Bucket(b.credit - ATTEMPT_COST, b.at)), now, user, t);
  }

  lemma FailureKeepsWait(s: State, other: Key, now: int, user: Key, t: int)
    requires other != user && now <= t
    ensures KeepsWait(s, RecordFailure(s, other, now), user, t)
  {
    hide *;
    var n := Clamped(Failures(s, other) + 1);
    RecordFailureIs(s, other, now);
    PutKeepsWait(s, other, n, now + Delay(n), user, t);
    LargeKeepsWait(Put(s, other, n, now + Delay(n)), now, user, t);
    KeepsWaitOn(s, Put(s, other, n, now + Delay(n)), RecordFailure(s, other, now), user, t);
  }

  lemma AccountKeepsWait(s: State, other: Key, now: int, user: Key, t: int)
    requires now <= t
    ensures KeepsWait(s, CheckAccount(s, other, now).0, user, t)
  {
  }

  lemma StepKeepsWait(s: State, op: Op, user: Key, t: int)
    requires (op.Failure? || op.Success? ==> op.user != user) && (!op.Success? ==> op.now <= t)
    ensures KeepsWait(s, Step(s, op), user, t)
  {
    hide CheckSource, CheckAccount, RecordFailure;
    match op
    case Source(ip, now) => SourceKeepsWait(s, ip, now, user, t);
    case Account(other, now) => AccountKeepsWait(s, other, now, user, t);
    case Failure(other, now) => FailureKeepsWait(s, other, now, user, t);
    case Success(_) =>
  }

  lemma {:induction false} TrafficKeepsWait(s: State, ops: seq<Op>, user: Key, t: int)
    requires Elsewhere(ops, user, t)
    ensures KeepsWait(s, Run(s, ops), user, t)
  {
    hide Step, KeepsWait;
    if ops == [] {
      NothingKeepsWait(s, user, t);
    } else {
      var before := Run(s, ops[..|ops| - 1]);
      TrafficKeepsWait(s, ops[..|ops| - 1], user, t);
      StepKeepsWait(before, ops[|ops| - 1], user, t);
      KeepsWaitOn(s, before, Run(s, ops), user, t);
    }
  }

  lemma NothingKeepsWait(s: State, user: Key, t: int)
    ensures KeepsWait(s, s, user, t)
  {
  }

  lemma RecordedWait(s: State, user: Key, now: int)
    requires Failures(s, user) >= 0
    ensures var s' := RecordFailure(s, user, now);
            && user in s'.accounts && s'.accounts[user] == now + Min(BACKOFF_START * Pow2(Failures(s, user)), BACKOFF_CAP)
            && Failures(s', user) == Clamped(Failures(s, user) + 1)
  {
    hide Pow2;
    ClampIsExact(Failures(s, user) + 1);
  }

  /** What a failed login costs its account, exactly: with any other traffic and any sweeps
      in between, a login after d is refused if and only if d is less than one second doubled
      once for every failure on record, and at most fifteen minutes; and the wait it is told
      is what is missing. */
  lemma FailedLoginWaits(s: State, user: Key, now: int, others: seq<Op>, d: int)
    requires Failures(s, user) >= 0 && d >= 0 && Elsewhere(others, user, now + d)
    ensures var delay := Min(BACKOFF_START * Pow2(Failures(s, user)), BACKOFF_CAP);
            CheckAccount(Run(RecordFailure(s, user, now), others), user, now + d).1 == if d < delay then Some(delay - d) else None
  {
    hide RecordFailure, Run, Pow2;
    RecordedWait(s, user, now);
    TrafficKeepsWait(RecordFailure(s, user, now), others, user, now + d);
  }

  /** After a success the account is let in, and its next failure waits one second. */
  lemma SuccessForgives(s: State, user: Key, others: seq<Op>, now: int)
    requires Elsewhere(others, user, now)
    ensures var s' := Run(RecordSuccess(s, user), others);
            CheckAccount(s', user, now).1.None? && Failures(s', user) == 0
  {
    TrafficKeepsWait(RecordSuccess(s, user), others, user, now);
  }

  /** The account's failures in a run, since its last success. */
  function FailedSince(ops: seq<Op>, user: Key): nat {
    if ops == [] then 0
    else
      var op := ops[|ops| - 1];
      if op.Success? && op.user == user then 0
      else FailedSince(ops[..|ops| - 1], user) + (if op.Failure? && op.user == user then 1 else 0)
  }

  /** Nothing happens so long after the account's wait that its ladder may be forgotten. */
  ghost predicate Remembered(s: State, ops: seq<Op>, user: Key) {
    forall k :: 0 <= k < |ops| && !ops[k].Success? && user in Run(s, ops[..k]).accounts ==>
      ops[k].now - Run(s, ops[..k]).accounts[user] < BACKOFF_CAP
  }

  lemma StepCounts(s: State, op: Op, user: Key, n: nat)
    requires Failures(s, user) == Clamped(n) && (user in s.accounts <==> n > 0)
    requires !op.Success? && user in s.accounts ==> op.now - s.accounts[user] < BACKOFF_CAP
    ensures var m := if op.Success? && op.user == user then 0 else n + (if op.Failure? && op.user == user then 1 else 0);
            Failures(Step(s, op), user) == Clamped(m) && (user in Step(s, op).accounts <==> m > 0)
  {
    hide Pow2, RecordFailure;
    if op.Failure? && op.user == user {
      RecordedWait(s, user, op.now);
    } else if !(op.Success? && op.user == user) {
      StepKeepsWait(s, op, user, if op.Success? then 0 else op.now);
    }
  }

  lemma {:induction false} LadderCounts(s: State, ops: seq<Op>, user: Key)
    requires user !in s.accounts && Failures(s, user) == 0 && Remembered(s, ops, user)
    ensures Failures(Run(s, ops), user) == Clamped(FailedSince(ops, user))
    ensures user in Run(s, ops).accounts <==> FailedSince(ops, user) > 0
  {
    hide Step;
    if ops != [] {
      var front := ops[..|ops| - 1];
      assert forall k :: 0 <= k < |front| ==> front[..k] == ops[..k];
      LadderCounts(s, front, user);
      StepCounts(Run(s, front), ops[|ops| - 1], user, FailedSince(front, user));
    }
  }

  /** So over any run the account's next failure waits one second doubled once for every
      failure since its last success, at most fifteen minutes. */
  lemma LadderDoubles(s: State, ops: seq<Op>, user: Key, now: int, others: seq<Op>, d: int)
    requires user !in s.accounts && Failures(s, user) == 0 && Remembered(s, ops, user)
    requires d >= 0 && Elsewhere(others, user, now + d)
    ensures var delay := Min(BACKOFF_START * Pow2(FailedSince(ops, user)), BACKOFF_CAP);
            var s' := RecordFailure(Run(s, ops), user, now);
            CheckAccount(Run(s', others), user, now + d).1 == if d < delay then Some(delay - d) else None
  {
    hide *;
    var n := FailedSince(ops, user);
    LadderCounts(s, ops, user);
    ClampedDelay(n);
    FailedLoginWaits(Run(s, ops), user, now, others, d);
  }

  lemma ClampedDelay(n: nat)
    ensures Clamped(n) >= 0
    ensures Min(BACKOFF_START * Pow2(Clamped(n)), BACKOFF_CAP) == Min(BACKOFF_START * Pow2(n), BACKOFF_CAP)
  {
    hide Pow2, Delay;
    ClampIsExact(n + 1);
    ClampIsExact(Clamped(n) + 1);
    ClampCommutes(n);
    hide Clamped;
  }

  /** A wait that has been over for fifteen minutes starts over: the next check forgets it. */
  lemma IdleLadderStartsOver(s: State, user: Key, now: int)
    requires user in s.accounts
    ensures var (s', wait) := CheckAccount(s, user, now);
            && (now - s.accounts[user] >= BACKOFF_CAP ==> wait.None? && Failures(s', user) == 0 && user !in s'.accounts)
            && (now - s.accounts[user] < BACKOFF_CAP ==> s' == s)
  {
  }

  /** What is on record against the account when a login comes: nothing once its wait has
      been over for fifteen minutes. */
  function OnRecord(s: State, user: Key, now: int): int {
    if user in s.accounts && now - s.accounts[user] >= BACKOFF_CAP then 0 else Failures(s, user)
  }

  lemma ChecksKeepRecord(s: State, ip: Key, user: Key, now: int)
    requires s.accounts.Keys == s.failures.Keys
    ensures Failures(CheckAccount(CheckSource(s, ip, now).0, user, now).0, user) == OnRecord(s, user, now)
  {
    hide CheckSource;
    SourceKeepsWait(s, ip, now, user, now);
    SourceKeepsKeys(s, ip, now);
  }

  lemma SourceKeepsKeys(s: State, ip: Key, now: int)
    requires s.accounts.Keys == s.failures.Keys
    ensures CheckSource(s, ip, now).0.accounts.Keys == CheckSource(s, ip, now).0.failures.Keys
  {
    hide BucketOf;
  }

  /** The account check looks at nothing but the account. */
  lemma CheckAfterSource(s: State, ip: Key, user: Key, now: int)
    ensures CheckAccount(CheckSource(s, ip, now).0, user, now).1 == CheckAccount(s, user, now).1
  {
    hide CheckSource;
    SourceKeepsWait(s, ip, now, user, now);
  }

  /** The login after a rejected one, whatever the case of its name and the address it comes
      from: refused by its address, or by the account for as long as the ladder says, or let
      in. */
  lemma RejectedLoginHolds(s: State, l: Login, others: seq<Op>, again: Login)
    requires s.accounts.Keys == s.failures.Keys && OnRecord(s, AccountKey(l.username), l.now) >= 0
    requires HandleLogin(s, l).1.LetIn? && l.outcome.Rejected?
    requires AccountKey(again.username) == AccountKey(l.username) && l.now <= again.now
    requires Elsewhere(others, AccountKey(l.username), again.now)
    ensures var user := AccountKey(l.username);
            var delay := Min(BACKOFF_START * Pow2(OnRecord(s, user, l.now)), BACKOFF_CAP);
            var s' := Run(HandleLogin(s, l).0, others);
            HandleLogin(s', again).1 ==
            if CheckSource(s', again.ip, again.now).1.Some? then SourceLimited(CheckSource(s', again.ip, again.now).1.value)
            else if again.now - l.now < delay then AccountLimited(delay - (again.now - l.now))
            else LetIn
  {
    hide CheckSource, CheckAccount, RecordFailure, Run, Pow2, AccountKey, OnRecord, Elsewhere;
    var user := AccountKey(l.username);
    var checked := CheckAccount(CheckSource(s, l.ip, l.now).0, user, l.now).0;
    ChecksKeepRecord(s, l.ip, user, l.now);
    FailedLoginWaits(checked, user, l.now, others, again.now - l.now);
    CheckAfterSource(Run(RecordFailure(checked, user, l.now), others), again.ip, user, again.now);
  }

  /** The login after an accepted one is let in if its address is. */
  lemma AcceptedLoginFrees(s: State, l: Login, others: seq<Op>, again: Login)
    requires HandleLogin(s, l).1.LetIn? && l.outcome.Accepted?
    requires AccountKey(again.username) == AccountKey(l.username) && Elsewhere(others, AccountKey(l.username), again.now)
    ensures var s' := Run(HandleLogin(s, l).0, others);
            HandleLogin(s', again).1 ==
            if CheckSource(s', again.ip, again.now).1.Some? then SourceLimited(CheckSource(s', again.ip, again.now).1.value) else LetIn
  {
    hide CheckSource, CheckAccount, RecordSuccess, Run, AccountKey, Elsewhere;
    var user := AccountKey(l.username);
    var checked := CheckAccount(CheckSource(s, l.ip, l.now).0, user, l.now).0;
    SuccessForgives(checked, user, others, again.now);
    CheckAfterSource(Run(RecordSuccess(checked, user), others), again.ip, user, again.now);
  }

  /** A login that is let in is one its address and its account let in; a refused one records
      nothing against the account. */
  lemma RefusalsRecordNothing(s: State, l: Login)
    requires s.accounts.Keys == s.failures.Keys
    ensures var (s', a) := HandleLogin(s, l);
            var user := AccountKey(l.username);
            && (a.SourceLimited? <==> CheckSource(s, l.ip, l.now).1.Some?)
            && (a.AccountLimited? <==> CheckSource(s, l.ip, l.now).1.None? && user in s.accounts && l.now < s.accounts[user])
            && (a.AccountLimited? || (a.LetIn? && l.outcome.Broke?) ==> Failures(s', user) == OnRecord(s, user, l.now))
  {
    hide CheckSource, AccountKey, RecordFailure;
    var user := AccountKey(l.username);
    ChecksKeepRecord(s, l.ip, user, l.now);
    CheckAfterSource(s, l.ip, user, l.now);
  }

  lemma PutKeys(s: State, user: Key, k: int, eligible: int)
    ensures Put(s, user, k, eligible).accounts.Keys == s.accounts.Keys + {user}
    ensures Put(s, user, k, eligible).failures.Keys == s.failures.Keys + {user}
  {
  }

  lemma PutAgrees(s: State, i: State, user: Key, k: int, eligible: int, now: int)
    requires Agree(s, i, now) && k >= 1
    ensures Agree(Put(s, user, Clamped(k), eligible), Put(i, user, k, eligible), now)
  {
    hide Clamped, AccountsAgree;
    PutAccountsAgree(s, i, user, k, eligible, now);
  }

  lemma PutAccountsAgree(s: State, i: State, user: Key, k: int, eligible: int, now: int)
    requires AccountsAgree(s, i, now) && k >= 1
    ensures AccountsAgree(Put(s, user, Clamped(k), eligible), Put(i, user, k, eligible), now)
  {
    hide Clamped, Put;
    var s', i' := Put(s, user, Clamped(k), eligible), Put(i, user, k, eligible);
    PutKeys(s, user, Clamped(k), eligible);
    PutKeys(i, user, k, eligible);
    forall u | u in s'.accounts
      ensures u in i'.accounts && s'.accounts[u] == i'.accounts[u] && s'.failures[u] == Clamped(i'.failures[u]) {
      PutAt(s, user, Clamped(k), eligible, u);
      PutAt(i, user, k, eligible, u);
    }
    forall u | u in i'.accounts
      ensures i'.failures[u] >= 1 && (u !in s'.accounts ==> now - i'.accounts[u] >= BACKOFF_CAP) {
      PutAt(i, user, k, eligible, u);
    }
  }

  lemma PutAt(s: State, user: Key, k: int, eligible: int, u: Key)
    requires s.accounts.Keys == s.failures.Keys && u in Put(s, user, k, eligible).accounts
    ensures u in Put(s, user, k, eligible).failures && (u != user ==> u in s.accounts)
    ensures Put(s, user, k, eligible).accounts[u] == if u == user then eligible else s.accounts[u]
    ensures Put(s, user, k, eligible).failures[u] == if u == user then k else s.failures[u]
  {
  }

  lemma CountsAgree(s: State, i: State, user: Key, now: int)
    requires Agree(s, i, now) && (user in i.accounts ==> user in s.accounts)
    ensures Failures(i, user) >= 0 && Clamped(Failures(s, user) + 1) == Clamped(Failures(i, user) + 1)
  {
    assert user in i.failures ==> user in i.accounts;
    assert user in s.failures ==> user in s.accounts;
  }

  lemma SweptIfLargeAgrees(s: State, i: State, now: int)
    requires Agree(s, i, now)
    ensures Agree(SweptIfLarge(s, now), i, now)
  {
    SweepAgrees(s, i, now);
  }

  lemma RecordFailureIs(s: State, user: Key, now: int)
    ensures var failures := Clamped(Failures(s, user) + 1);
            RecordFailure(s, user, now) == SweptIfLarge(Put(s, user, failures, now + Delay(failures)), now)
  {
    hide SweptIfLarge, Put, Delay, Clamped, Failures;
  }

  lemma IdealFailureIs(s: State, user: Key, now: int)
    ensures IdealFailure(s, user, now) == Put(s, user, Failures(s, user) + 1, now + Delay(Failures(s, user) + 1))
  {
  }

  lemma FailureAgrees(s: State, i: State, user: Key, now: int)
    requires Agree(s, i, now) && (user in i.accounts ==> user in s.accounts)
    ensures Agree(RecordFailure(s, user, now), IdealFailure(i, user, now), now)
  {
    hide *;
    CountsAgree(s, i, user, now);
    RecordFailureIs(s, user, now);
    IdealFailureIs(i, user, now);
    var k := Failures(i, user) + 1;
    ClampCommutes(k - 1);
    PutAgrees(s, i, user, k, now + Delay(k), now);
    SweptIfLargeAgrees(Put(s, user, Clamped(k), now + Delay(k)), IdealFailure(i, user, now), now);
  }

  lemma SuccessAgrees(s: State, i: State, user: Key, now: int)
    requires Agree(s, i, now)
    ensures Agree(RecordSuccess(s, user), RecordSuccess(i, user), now)
  {
  }

  /** A login that both checks let in, in either throttle. */
  lemma LetInAgrees(s: State, i: State, user: Key, l: Login)
    requires Agree(s, i, l.now) && (user in i.accounts ==> user in s.accounts)
    ensures Agree(Concluded(s, user, l, RecordFailure(s, user, l.now)), Concluded(i, user, l, IdealFailure(i, user, l.now)), l.now)
  {
    hide Agree, RecordFailure, IdealFailure, RecordSuccess;
    FailureAgrees(s, i, user, l.now);
    SuccessAgrees(s, i, user, l.now);
  }

  lemma LoginAgrees(s: State, i: State, clock: int, l: Login)
    requires Agree(s, i, clock) && clock <= l.now
    ensures HandleLogin(s, l).1 == IdealLogin(i, l).1 && Agree(HandleLogin(s, l).0, IdealLogin(i, l).0, l.now)
  {
    hide Agree, CheckSource, IdealSource, CheckAccount, RecordFailure, IdealFailure, Concluded, AccountKey;
    var user := AccountKey(l.username);
    LaterAgrees(s, i, clock, l.now);
    SourceAgrees(s, i, l.ip, l.now);
    var s1, i1 := CheckSource(s, l.ip, l.now).0, IdealSource(i, l.ip, l.now).0;
    AccountAgrees(s1, i1, user, l.now);
    LetInAgrees(CheckAccount(s1, user, l.now).0, CheckAccount(i1, user, l.now).0, user, l);
  }

  function Logins(s: State, ls: seq<Login>): (State, seq<Answer>) {
    if ls == [] then (s, [])
    else
      var (s1, answers) := Logins(s, ls[..|ls| - 1]);
      var (s2, a) := HandleLogin(s1, ls[|ls| - 1]);
      (s2, answers + [a])
  }

  function IdealLogins(s: State, ls: seq<Login>): (State, seq<Answer>) {
    if ls == [] then (s, [])
    else
      var (s1, answers) := IdealLogins(s, ls[..|ls| - 1]);
      var (s2, a) := IdealLogin(s1, ls[|ls| - 1]);
      (s2, answers + [a])
  }

  /** Neither the sweep nor the clamp can be observed: over every sequence of logins the
      throttle answers what the documented one answers. */
  lemma {:induction false} SweepIsInvisible(ls: seq<Login>)
    requires forall j, k :: 0 <= j < k < |ls| ==> ls[j].now <= ls[k].now
    ensures Logins(Fresh, ls).1 == IdealLogins(Fresh, ls).1
    ensures Agree(Logins(Fresh, ls).0, IdealLogins(Fresh, ls).0, if ls == [] then 0 else ls[|ls| - 1].now)
  {
    if ls != [] {
      var front := ls[..|ls| - 1];
      SweepIsInvisible(front);
      var s, i := Logins(Fresh, front).0, IdealLogins(Fresh, front).0;
      var clock := if front == [] then ls[|ls| - 1].now else front[|front| - 1].now;
      assert Agree(s, i, clock);
      LoginAgrees(s, i, clock, ls[|ls| - 1]);
    }
  }
}
