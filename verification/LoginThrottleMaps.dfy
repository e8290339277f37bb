/**
The throttle in its own form: one object whose three maps are updated and swept in
place.  Each method is a section under the throttle's mutex and computes the function of
LoginThrottle that carries its name, so the rate bound and the sweep's invisibility hold
of this object.
*/
module LoginThrottleMaps {
  import T = LoginThrottle

  class Throttle {
    var accounts: map<string, int>
    var failures: map<string, int>
    var sources: map<string, T.Bucket>

    ghost function View(): T.State
      reads this
    {
      T.State(accounts, failures, sources)
    }

    /** Counters are positive and clamped. */
    ghost predicate Valid()
      reads this`failures
    {
      forall u :: u in failures ==> 1 <= failures[u] <= T.MAX_SHIFT + 1
    }

    constructor ()
      ensures Valid() && View() == T.Fresh
    {
      accounts, failures, sources := map[], map[], map[];
    }

    method AccountKey(username: string) returns (key: string)
      ensures key == T.AccountKey(username)
    {
      key := "";
      for i := 0 to |username|
        invariant |key| == i && forall k :: 0 <= k < i ==> key[k] == T.Lower(username[k])
      {
        key := key + [T.Lower(username[i])];
      }
    }

    method CheckAccount(username: string, now: int) returns (wait: int, limited: bool)
      requires Valid()
      modifies this`accounts, this`failures
      ensures Valid()
      ensures var (s, w) := T.CheckAccount(old(View()), T.AccountKey(username), now);
              View() == s && limited == w.Some? && wait == if w.Some? then w.value else 0
    {
      var user := AccountKey(username);
      var pending := user in accounts;
      var eligible := if pending then accounts[user] else 0;
      if pending && now - eligible >= T.BACKOFF_CAP {
        accounts := accounts - {user};
        failures := failures - {user};
      }
      if !pending || !(now < eligible) {
        return 0, false;
      }
      return eligible - now, true;
    }

    method CheckSource(ip: string, now: int) returns (wait: int, limited: bool)
      requires Valid()
      modifies this
      ensures Valid()
      ensures var (s, w) := T.CheckSource(old(View()), ip, now);
              View() == s && limited == w.Some? && wait == if w.Some? then w.value else 0
    {
      hide T.Swept, T.Pow2, T.AccountKey;
      var bucket := if ip in sources then sources[ip] else T.Bucket(T.WINDOW, now);
      if now > bucket.at {
        bucket := T.Bucket(bucket.credit + T.Min(now - bucket.at, T.WINDOW - bucket.credit), now);
      }
      if bucket.credit < T.ATTEMPT_COST {
        sources := sources[ip := bucket];
        return T.ATTEMPT_COST - bucket.credit, true;
      }
      bucket := bucket.(credit := bucket.credit - T.ATTEMPT_COST);
      sources := sources[ip := bucket];
      if |sources| > T.SWEEP_FLOOR {
        Sweep(now);
      }
      return 0, false;
    }

    method RecordFailure(username: string, now: int)
      requires Valid()
      modifies this
      ensures Valid()
      ensures View() == T.RecordFailure(old(View()), T.AccountKey(username), now)
    {
      hide T.AccountKey, T.Swept, T.Pow2;
      var user := AccountKey(username);
      var count := T.Min((if user in failures then failures[user] else 0) + 1, T.MAX_SHIFT + 1);
      failures := failures[user := count];
      var delay := T.Min(T.BACKOFF_START * T.Pow2(count - 1), T.BACKOFF_CAP);
      accounts := accounts[user := now + delay];
      assert View() == T.Put(old(View()), user, count, now + T.Delay(count));
      if |accounts| > T.SWEEP_FLOOR {
        Sweep(now);
      }
    }

    method RecordSuccess(username: string)
      requires Valid()
      modifies this`accounts, this`failures
      ensures Valid()
      ensures View() == T.RecordSuccess(old(View()), T.AccountKey(username))
    {
      var user := AccountKey(username);
      accounts := accounts - {user};
      failures := failures - {user};
    }

    /** sweepLocked: both maps are walked in an order nobody chooses. */
    method Sweep(now: int)
      requires Valid()
      modifies this
      ensures Valid()
      ensures View() == T.Swept(old(View()), now)
    {
      SweepAccounts(now);
      SweepSources(now);
    }

    method SweepAccounts(now: int)
      requires Valid()
      modifies this`accounts, this`failures
      ensures Valid()
      ensures accounts == T.Swept(old(View()), now).accounts && failures == T.Swept(old(View()), now).failures
    {
      ghost var was, counts := accounts, failures;
      var todo := accounts.Keys;
      while todo != {}
        invariant todo <= accounts.Keys <= was.Keys && (forall u :: u in accounts ==> accounts[u] == was[u])
        invariant forall u :: u in was && u !in todo ==> (u in accounts <==> now - was[u] < T.BACKOFF_CAP)
        invariant failures.Keys == set u | u in counts && (u !in was || u in accounts)
        invariant forall u :: u in failures ==> failures[u] == counts[u]
        decreases |todo|
      {
        var user :| user in todo;
        todo := todo - {user};
        if now - accounts[user] >= T.BACKOFF_CAP {
          accounts := accounts - {user};
          failures := failures - {user};
        }
      }
    }

    method SweepSources(now: int)
      modifies this`sources
      ensures sources == T.Swept(old(View()), now).sources
    {
      ghost var was := sources;
      var todo := sources.Keys;
      while todo != {}
        invariant todo <= sources.Keys <= was.Keys && (forall ip :: ip in sources ==> sources[ip] == was[ip])
        invariant forall ip :: ip in was && ip !in todo ==> (ip in sources <==> now - was[ip].at < T.WINDOW)
        decreases |todo|
      {
        var ip :| ip in todo;
        todo := todo - {ip};
        if now - sources[ip].at >= T.WINDOW {
          sources := sources - {ip};
        }
      }
    }
  }
}
