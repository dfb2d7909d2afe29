/** The executor-wide rolling budget for respawning child processes. */
module RestartBudget {

  ghost predicate NonDecreasing(s: seq<real>) {
    forall i, j | 0 <= i <= j < |s| :: s[i] <= s[j]
  }

  /** The grants that fall in the window of length `window` ending at `t`, its start excluded. */
  function InWindow(grants: seq<real>, t: real, window: real): (n: nat)
    ensures n <= |grants|
  {
    if grants == [] then 0
    else InWindow(grants[..|grants| - 1], t, window) + if t - window < grants[|grants| - 1] <= t then 1 else 0
  }

  /** Grants `limit` or more places apart are at least a window apart. */
  ghost predicate Spaced(grants: seq<real>, window: real, limit: nat) {
    forall i, j | 0 <= i < j < |grants| && j - i >= limit :: grants[j] - grants[i] >= window
  }

  /** In a non-decreasing log whose entries more than `limit` apart are at least `window` apart,
      no window holds more than `limit` entries. */
  lemma {:induction false} SpacedMeansBounded(grants: seq<real>, t: real, window: real, limit: nat)
    requires window > 0.0 && limit >= 1 && NonDecreasing(grants)
    requires Spaced(grants, window, limit)
    ensures InWindow(grants, t, window) <= limit
  {
    if |grants| > 0 {
      var last := |grants| - 1;
      if grants[last] > t || grants[last] <= t - window {
        SpacedMeansBounded(grants[..last], t, window, limit);
      } else {
        forall i | 0 <= i < |grants| - limit ensures grants[i] <= t - window {
          assert grants[last] - grants[i] >= window;
        }
        TailOnly(grants, t, window, limit);
      }
    }
  }

  /** When the newest entry is in the window, everything `limit` places before it is outside. */
  lemma {:induction false} TailOnly(grants: seq<real>, t: real, window: real, limit: nat)
    requires window > 0.0 && limit >= 1 && NonDecreasing(grants) && |grants| > 0 && grants[|grants| - 1] <= t
    requires forall i | 0 <= i < |grants| - limit :: grants[i] <= t - window
    ensures InWindow(grants, t, window) <= limit
    decreases |grants| + limit
  {
    var last := |grants| - 1;
    if last > 0 {
      if limit == 1 {
        Outside(grants[..last], t, window);
      } else {
        TailOnly(grants[..last], t, window, limit - 1);
      }
    }
  }

  lemma {:induction false} Outside(grants: seq<real>, t: real, window: real)
    requires forall i | 0 <= i < |grants| :: grants[i] <= t - window
    ensures InWindow(grants, t, window) == 0
  {
    if grants != [] {
      Outside(grants[..|grants| - 1], t, window);
    }
  }

  /** A block of entries inside the window is counted in full. */
  lemma {:induction false} Inside(grants: seq<real>, k: nat, t: real, window: real)
    requires k <= |grants| && forall i | k <= i < |grants| :: t - window < grants[i] <= t
    requires forall i | 0 <= i < k :: grants[i] <= t - window
    ensures InWindow(grants, t, window) == |grants| - k
  {
    if |grants| > k {
      Inside(grants[..|grants| - 1], k, t, window);
    } else {
      Outside(grants, t, window);
    }
  }

  /** A grant made while fewer than `limit` grants are in the window keeps the log spaced. */
  lemma GrantKeeps(grants: seq<real>, kept: nat, now: real, window: real, limit: nat)
    requires kept <= |grants| < kept + limit && NonDecreasing(grants) && Spaced(grants, window, limit)
    requires forall i | 0 <= i < |grants| :: grants[i] <= now
    requires forall i | 0 <= i < kept :: grants[i] <= now - window
    ensures NonDecreasing(grants + [now]) && Spaced(grants + [now], window, limit)
    ensures (grants + [now])[kept..] == grants[kept..] + [now]
  {
  }

  class RollingRestartBudget {
    const limit: nat
    const window: real
    var times: seq<real>
    ghost var grants: seq<real>   // every grant so far
    ghost var kept: nat           // `times` is the log from here on
    ghost var clock: real         // the latest reading seen under the lock

    ghost predicate Valid()
      reads this
    {
      && limit >= 1 && window > 0.0
      && kept <= |grants| && times == grants[kept..] && |times| <= limit
      && NonDecreasing(grants) && Spaced(grants, window, limit)
      && (forall i | 0 <= i < |grants| :: grants[i] <= clock)
      && (forall i | 0 <= i < kept :: grants[i] <= clock - window)
    }

    constructor (limit: nat, window: real)
      requires limit >= 1 && window > 0.0
      ensures Valid() && grants == [] && this.limit == limit && this.window == window
    {
      this.limit, this.window := limit, window;
      times, grants, kept, clock := [], [], 0, 0.0;
    }

    /** Forgets the grants that have left the window ending at `now`. */
    method Expire(now: real)
      requires Valid() && (grants != [] ==> clock <= now)
      modifies this`times, this`clock, this`kept
      ensures Valid() && clock == now
      ensures forall i | 0 <= i < |times| :: now - window < times[i]
    {
      clock := now;
      while times != [] && times[0] <= now - window
        invariant clock == now && kept <= |grants| && times == grants[kept..] && |times| <= limit
        invariant forall i | 0 <= i < kept :: grants[i] <= clock - window
        decreases |times|
      {
        assert times[0] == grants[kept];
        times := times[1..];
        kept := kept + 1;
      }
      forall i | 0 <= i < |times| ensures now - window < times[i] {
        assert times[0] == grants[kept] <= grants[kept + i] == times[i];
      }
    }

    /** The window ending now holds exactly the grants not yet forgotten. */
    lemma CountsWindow()
      requires Valid() && forall i | 0 <= i < |times| :: clock - window < times[i]
      ensures InWindow(grants, clock, window) == |times|
    {
      forall i | kept <= i < |grants| ensures clock - window < grants[i] <= clock {
        assert grants[i] == times[i - kept];
      }
      Inside(grants, kept, clock, window);
    }

    /** `false` is the budget-exhausted error. For clock readings that do not go back between
        lock holders, a restart is refused exactly when the window ending now already holds
        `limit` grants. */
    method Reserve(now: real) returns (granted: bool)
      requires Valid() && (grants != [] ==> clock <= now)
      modifies this
      ensures Valid() && clock == now
      ensures granted <==> InWindow(old(grants), now, window) < limit
      ensures grants == if granted then old(grants) + [now] else old(grants)
    {
      Expire(now);
      CountsWindow();
      if |times| >= limit {
        return false;
      }
      Record(now);
      return true;
    }

    method Record(now: real)
      requires Valid() && |times| < limit && clock == now
      modifies this`times, this`grants
      ensures Valid() && grants == old(grants) + [now] && times == old(times) + [now]
    {
      ghost var before := grants;
      GrantKeeps(before, kept, now, window, limit);
      times := times + [now];
      grants := grants + [now];
      assert forall i | 0 <= i < kept :: grants[i] == before[i];
      assert grants == before + [now];
    }

    method Current(now: real) returns (n: nat)
      requires Valid() && (grants != [] ==> clock <= now)
      modifies this`times, this`clock, this`kept
      ensures Valid() && clock == now && n == InWindow(grants, now, window)
    {
      Expire(now);
      CountsWindow();
      n := |times|;
    }

    /** Whatever was granted and whenever one looks, no window holds more than `limit` grants. */
    lemma NeverExceeded(t: real)
      requires Valid()
      ensures InWindow(grants, t, window) <= limit
    {
      SpacedMeansBounded(grants, t, window, limit);
    }
  }
}
