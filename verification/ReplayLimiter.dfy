/** The rolling cap on replayed subscription requests: at most `limit` grants in any
    window, across every reconnect that shares the limiter. Times are clock ticks. */
module ReplayLimiting {
  import opened Environments
  import opened IndexSets

  const DEFAULT_REPLAY_LIMIT := 100
  // One minute in nanoseconds.
  const DEFAULT_REPLAY_WINDOW := 60_000_000_000

  ghost predicate Sorted(times: seq<int>) {
    forall i, j :: 0 <= i < j < |times| ==> times[i] <= times[j]
  }

  // A grant comes no sooner than a window after the one `limit` places before it.
  ghost predicate Spaced(grants: seq<int>, limit: nat, window: int) {
    forall i, j :: 0 <= i && j == i + limit && j < |grants| ==> grants[i] + window <= grants[j]
  }

  class ReplayLimiter {
    const limit: nat
    const window: int
    var timestamps: seq<int>
    // Every grant there has been, in order.
    ghost var grants: seq<int>

    ghost function Forgotten(): int
      reads this
    {
      |grants| - |timestamps|
    }

    ghost predicate Valid(now: int)
      reads this
    {
      && limit > 0 && window > 0 && |timestamps| <= limit
      && Forgotten() >= 0 && timestamps == grants[Forgotten()..]
      && Sorted(grants) && Spaced(grants, limit, window)
      && (forall i :: 0 <= i < |grants| ==> grants[i] <= now)
      && (forall i :: 0 <= i < Forgotten() ==> grants[i] + window <= now)
    }

    constructor (limit: int, window: int, now: int)
      ensures Valid(now) && grants == []
      ensures this.limit == if limit <= 0 then DEFAULT_REPLAY_LIMIT else limit
      ensures this.window == if window <= 0 then DEFAULT_REPLAY_WINDOW else window
    {
      this.limit := if limit <= 0 then DEFAULT_REPLAY_LIMIT else limit;
      this.window := if window <= 0 then DEFAULT_REPLAY_WINDOW else window;
      timestamps, grants := [], [];
    }

    // Drops the timestamps that have left the window.
    method Prune(now: int)
      requires Valid(now)
      modifies this`timestamps
      ensures Valid(now)
      ensures forall i :: 0 <= i < |timestamps| ==> timestamps[i] > now - window
      ensures exists k :: 0 <= k <= |old(timestamps)| && timestamps == old(timestamps)[k..]
    {
      var cutoff := now - window;
      var firstActive := 0;
      while firstActive < |timestamps| && timestamps[firstActive] <= cutoff
        invariant 0 <= firstActive <= |timestamps|
        invariant forall i :: 0 <= i < firstActive ==> timestamps[i] <= cutoff
      {
        firstActive := firstActive + 1;
      }
      ghost var was := Forgotten();
      forall i | was <= i < was + firstActive ensures grants[i] + window <= now {
        assert grants[i] == timestamps[i - was];
      }
      timestamps := timestamps[firstActive..];
      assert timestamps == grants[Forgotten()..];
    }

    method Push(now: int)
      requires Valid(now) && |timestamps| < limit
      modifies this
      ensures Valid(now) && grants == old(grants) + [now] && timestamps == old(timestamps) + [now]
    {
      GrantKeeps(grants, |timestamps|, now, limit, window);
      timestamps := timestamps + [now];
      grants := grants + [now];
      assert timestamps == grants[Forgotten()..];
    }

    method Grant(count: nat, now: int)
      requires Valid(now) && |timestamps| + count <= limit
      modifies this
      ensures Valid(now) && Granted(old(grants), count, now)
    {
      for i := 0 to count
        invariant Valid(now) && |timestamps| == old(|timestamps|) + i && Granted(old(grants), i, now)
      {
        Push(now);
      }
    }

    ghost predicate Granted(before: seq<int>, count: nat, now: int)
      reads this
    {
      |grants| == |before| + count && before <= grants && forall i :: |before| <= i < |grants| ==> grants[i] == now
    }

    // One pass of the loop: prune, then take all the grants if they fit.
    method Attempt(count: nat, now: int) returns (ok: bool)
      requires Valid(now) && 0 < count <= limit
      modifies this
      ensures Valid(now) && old(Ready(count, now)) ==> ok
      ensures Valid(now) && Granted(old(grants), if ok then count else 0, now)
      ensures !ok ==> |timestamps| + count > limit
    {
      Prune(now);
      if |timestamps| + count <= limit {
        Grant(count, now);
        return true;
      }
      ok := false;
    }

    // Blocks until `count` more requests fit in the window. The second pass of the loop,
    // if there is one, always grants. `at` is the time of the grants.
    method WaitN(env: Env, count: int) returns (err: bool, passes: nat, at: int)
      requires Valid(env.clock)
      modifies this, env
      ensures env.Later() && Valid(env.clock)
      ensures count <= 0 ==> !err && passes == 0
      ensures count > limit ==> err && passes == 0
      ensures err && count <= limit ==> env.cancelled
      ensures passes <= 2 && old(env.clock) <= at <= env.clock
      ensures passes == 2 || (passes == 1 && err) ==> FirstFit(old(grants), limit, window, count, env.due)
      ensures Granted(old(grants), if err || count <= 0 then 0 else count, at)
    {
      err, passes, at := false, 0, env.clock;
      if count <= 0 {
        return;
      }
      if count > limit {
        return true, 0, at;
      }
      while true
        invariant Valid(env.clock) && env.Later() && grants == old(grants)
        invariant passes <= 1 && !err
        invariant passes == 1 ==> Ready(count, env.clock) && FirstFit(old(grants), limit, window, count, env.due)
        decreases 2 - passes
      {
        passes := passes + 1;
        var ok;
        ok, err, at := Try(env, count);
        if ok || err {
          return;
        }
      }
    }

    // One pass: takes the grants, or waits until they fit.
    method Try(env: Env, count: int) returns (ok: bool, err: bool, at: int)
      requires Valid(env.clock) && 0 < count <= limit
      modifies this, env
      ensures env.Later() && Valid(env.clock) && old(env.clock) <= at <= env.clock
      ensures old(Ready(count, env.clock)) ==> ok
      ensures Granted(old(grants), if ok then count else 0, at) && !(ok && err)
      ensures ok ==> env.due == old(env.due)
      ensures !ok ==> grants == old(grants) && FirstFit(grants, limit, window, count, env.due)
      ensures !ok ==> if err then env.cancelled else Ready(count, env.clock)
    {
      err := false;
      at := env.Now();
      ValidLater(count, old(env.clock), at);
      ok := Attempt(count, at);
      if !ok {
        err := Block(env, count);
      }
    }

    // Waits until the oldest grants in the way have left the window.
    method Block(env: Env, count: int) returns (err: bool)
      requires Valid(env.clock) && 0 < count <= limit && |timestamps| + count > limit
      modifies env
      ensures env.Later() && Valid(env.clock)
      ensures if err then env.cancelled else Ready(count, env.clock)
      ensures FirstFit(grants, limit, window, count, env.due)
    {
      ghost var start := env.clock;
      var needed := |timestamps| + count - limit;
      var readyAt := timestamps[needed - 1] + window;
      FitsAt(grants, limit, window, count, Forgotten() + needed - 1);
      var now := env.Now();
      err := env.Wait(readyAt - now);
      ValidLater(count, start, env.clock);
    }

    // Enough old timestamps have left the window for `count` more to fit.
    ghost predicate Ready(count: int, now: int)
      reads this
    {
      var needed := |timestamps| + count - limit;
      0 < count <= limit && needed > 0 && needed <= |timestamps| && timestamps[needed - 1] + window <= now
    }

    lemma NeverOver(now: int, t: int)
      requires Valid(now)
      ensures |InWindow(grants, t, window)| <= limit
    {
      WindowHolds(grants, limit, window, t);
    }

    lemma ValidLater(count: int, now: int, later: int)
      requires Valid(now) && now <= later
      ensures Valid(later) && (Ready(count, now) ==> Ready(count, later))
    {}
  }

  lemma GrantKeeps(grants: seq<int>, kept: nat, now: int, limit: nat, window: int)
    requires Sorted(grants) && Spaced(grants, limit, window) && kept < limit && kept <= |grants|
    requires forall i :: 0 <= i < |grants| ==> grants[i] <= now
    requires forall i :: 0 <= i < |grants| - kept ==> grants[i] + window <= now
    ensures Sorted(grants + [now]) && Spaced(grants + [now], limit, window)
  {}

  ghost function InWindow(grants: seq<int>, t: int, window: int): set<nat> {
    set k: nat | k < |grants| && t - window < grants[k] <= t
  }

  // The grants that a window which ends at t still holds.
  ghost function Active(grants: seq<int>, t: int, window: int): set<nat> {
    set k: nat | k < |grants| && grants[k] > t - window
  }

  // The first moment at which so many more fit in the window.
  ghost predicate FirstFit(grants: seq<int>, limit: nat, window: int, count: int, due: int) {
    && |Active(grants, due, window)| + count <= limit
    && forall t :: t < due ==> |Active(grants, t, window)| + count > limit
  }

  // Enough fit once the grant `limit - count` places from the end has left the window, and
  // not before.
  lemma FitsAt(grants: seq<int>, limit: nat, window: int, count: int, i: nat)
    requires Sorted(grants) && 0 < count <= limit && i < |grants| && |grants| - i - 1 == limit - count
    ensures FirstFit(grants, limit, window, count, grants[i] + window)
  {
    RangeSize(Active(grants, grants[i] + window, window), i + 1, |grants| - 1);
    forall t | t < grants[i] + window ensures |Active(grants, t, window)| + count > limit {
      RangeIn(Active(grants, t, window), i, |grants|);
    }
  }

  lemma Apart(grants: seq<int>, limit: nat, window: int, i: nat, j: nat)
    requires Sorted(grants) && Spaced(grants, limit, window) && i + limit <= j < |grants|
    ensures grants[i] + window <= grants[j]
  {
    assert grants[i] + window <= grants[i + limit];
  }

  // No half-open window (t - window, t] holds more than `limit` grants.
  lemma WindowHolds(grants: seq<int>, limit: nat, window: int, t: int)
    requires Sorted(grants) && Spaced(grants, limit, window) && limit > 0
    ensures |InWindow(grants, t, window)| <= limit
  {
    var s := InWindow(grants, t, window);
    if s != {} {
      var lo, hi := Ends(s, |grants|);
      RangeSize(s, lo, hi);
      if lo + limit <= hi {
        Apart(grants, limit, window, lo, hi);
      }
    }
  }
}
