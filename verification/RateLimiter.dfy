/** The per-provider sliding-window limiter: one method per lock section. */
module RateLimiter {
  import opened Json
  import opened Reals

  const WINDOW := 60.0
  const MIN_WAIT := 0.05

  datatype Config = Config(rpm: int, maxQueue: int)

  /** A limiter's state. `grants` is the history of grant times; the code does not keep it. */
  datatype Limiter = Limiter(provider: string, rpm: int, maxQueue: int, timestamps: seq<real>, pending: int,
      grants: seq<real>)

  function NewLimiter(provider: string, c: Config): Limiter
  {
    Limiter(provider, c.rpm, c.maxQueue, [], 0, [])
  }

  /** The timestamps still inside the window that ends at `now`, given that they are in time order. */
  function Prune(timestamps: seq<real>, now: real): seq<real>
  {
    if timestamps != [] && timestamps[0] <= now - WINDOW then Prune(timestamps[1..], now) else timestamps
  }

  /** Pruning cuts off a prefix, all of it outside the window, and stops at the first timestamp inside. */
  lemma {:induction false} PruneCuts(timestamps: seq<real>, now: real) returns (n: nat)
    ensures n <= |timestamps| && Prune(timestamps, now) == timestamps[n..]
    ensures forall i | 0 <= i < n :: timestamps[i] <= now - WINDOW
    ensures n < |timestamps| ==> timestamps[n] > now - WINDOW
  {
    if timestamps != [] && timestamps[0] <= now - WINDOW {
      n := PruneCuts(timestamps[1..], now);
      n := n + 1;
    } else {
      n := 0;
    }
  }

  function Enter(l: Limiter): Limiter
  {
    l.(pending := l.pending + 1)
  }

  function Leave(l: Limiter): Limiter
  {
    l.(pending := l.pending - 1)
  }

  /** The outcome of one try: a grant, or the time to sleep before the next try. */
  datatype Attempt = Granted | Wait(seconds: real)

  /** Whether a try at `now` finds room in the window. */
  predicate Room(l: Limiter, now: real)
  {
    |Prune(l.timestamps, now)| < l.rpm
  }

  function Try(l: Limiter, now: real): Limiter
  {
    var ts := Prune(l.timestamps, now);
    if |ts| < l.rpm then l.(timestamps := ts + [now], pending := l.pending - 1, grants := l.grants + [now])
    else l.(timestamps := ts)
  }

  /** How long a failed try sleeps: until the oldest grant leaves the window, but never too briefly. */
  function WaitSeconds(l: Limiter, now: real): real
    requires l.rpm > 0 && !Room(l, now)
  {
    Max(Prune(l.timestamps, now)[0] - (now - WINDOW), MIN_WAIT)
  }

  // ----- what a try promises

  ghost predicate Ascending(times: seq<real>)
  {
    forall i, j | 0 <= i <= j < |times| :: times[i] <= times[j]
  }

  /** How many of the times lie less than 60 seconds before `t`. */
  ghost function Recent(times: seq<real>, t: real): nat
  {
    if times == [] then 0 else (if times[0] > t - 60.0 then 1 else 0) + Recent(times[1..], t)
  }

  lemma {:induction false} AllRecent(times: seq<real>, t: real)
    requires Ascending(times) && (times != [] ==> times[0] > t - 60.0)
    ensures Recent(times, t) == |times|
  {
    if |times| > 1 {
      assert times[1] >= times[0];
      AllRecent(times[1..], t);
    }
  }

  /** What pruning leaves is what is recent. */
  lemma {:induction false} PruneIsRecent(times: seq<real>, now: real)
    requires Ascending(times)
    ensures |Prune(times, now)| == Recent(times, now) && Ascending(Prune(times, now))
  {
    if times != [] && times[0] <= now - 60.0 {
      PruneIsRecent(times[1..], now);
    } else {
      AllRecent(times, now);
    }
  }

  /** After a try that has to wait `seconds`, as long as the limiter is left alone: there is room once they have passed,
      and none before, from 0.05 seconds on. */
  ghost predicate ExactWait(times: seq<real>, rpm: int, now: real, seconds: real)
  {
    && seconds >= 0.05 && (|times| <= rpm ==> Recent(times, now + seconds) < rpm)
    && forall t | now + 0.05 <= t < now + seconds :: Recent(times, t) >= rpm
  }

  /** A try is granted exactly when fewer than rpm grants are less than 60 seconds old, and waits no longer than it
      must. */
  lemma TryTells(l: Limiter, now: real)
    requires Ascending(l.timestamps) && l.rpm > 0
    ensures Room(l, now) <==> Recent(l.timestamps, now) < l.rpm
    ensures Try(l, now).pending == l.pending - if Recent(l.timestamps, now) < l.rpm then 1 else 0
    ensures !Room(l, now) ==> ExactWait(Try(l, now).timestamps, l.rpm, now, WaitSeconds(l, now))
  {
    PruneIsRecent(l.timestamps, now);
    if !Room(l, now) {
      var left, seconds := Prune(l.timestamps, now), WaitSeconds(l, now);
      OldestLeaves(left, now + seconds);
      forall t | now + 0.05 <= t < now + seconds
        ensures Recent(left, t) >= l.rpm
      {
        AllRecent(left, t);
      }
    }
  }

  lemma OldestLeaves(times: seq<real>, t: real)
    requires times != [] && times[0] <= t - 60.0
    ensures Recent(times, t) < |times|
  {
    RecentBound(times[1..], t);
  }

  lemma {:induction false} RecentBound(times: seq<real>, t: real)
    ensures Recent(times, t) <= |times|
  {
    if times != [] {
      RecentBound(times[1..], t);
    }
  }

  predicate IsQueueFull(l: Limiter)
  {
    l.pending > l.maxQueue
  }

  class ProviderRateLimiter {
    const providerName: string
    const rpm: int
    const maxQueue: int
    var timestamps: seq<real>
    var pending: int
    ghost var grants: seq<real>

    ghost function View(): Limiter
      reads this
    {
      Limiter(providerName, rpm, maxQueue, timestamps, pending, grants)
    }

    constructor (name: string, config: Config)
      ensures View() == NewLimiter(name, config)
    {
      providerName := name;
      rpm, maxQueue := config.rpm, config.maxQueue;
      timestamps, pending, grants := [], 0, [];
    }

    method EnterQueue()
      modifies `pending
      ensures View() == Enter(old(View()))
    {
      pending := pending + 1;
    }

    method LeaveQueue()
      modifies `pending
      ensures View() == Leave(old(View()))
    {
      pending := pending - 1;
    }

    /** One pass of the waiting loop, under the lock. */
    method TryAcquire(now: real) returns (attempt: Attempt)
      requires rpm > 0
      modifies this
      ensures View() == Try(old(View()), now)
      ensures attempt == if Room(old(View()), now) then Granted else Wait(WaitSeconds(old(View()), now))
      ensures Ascending(old(timestamps)) ==>
        && (attempt.Granted? <==> Recent(old(timestamps), now) < rpm)
        && (attempt.Wait? ==> ExactWait(timestamps, rpm, now, attempt.seconds))
    {
      ghost var before := View();
      if Ascending(timestamps) {
        TryTells(before, now);
      }
      var windowStart := now - WINDOW;
      while timestamps != [] && timestamps[0] <= windowStart
        invariant View() == old(View()).(timestamps := timestamps)
        invariant Prune(timestamps, now) == Prune(old(timestamps), now)
        decreases |timestamps|
      {
        timestamps := timestamps[1..];
      }
      if |timestamps| < rpm {
        timestamps := timestamps + [now];
        pending := pending - 1;
        grants := grants + [now];
        return Granted;
      }
      return Wait(Max(timestamps[0] - windowStart, MIN_WAIT));
    }

    method QueueFull() returns (full: bool)
      ensures full == IsQueueFull(View()) && (full <==> pending > maxQueue)
    {
      full := pending > maxQueue;
    }
  }

  // ----- the table of limiters

  /** A limiter is wanted for exactly the providers with a positive rpm. */
  predicate Limited(providers: map<string, Config>, name: string)
  {
    name in providers && providers[name].rpm > 0
  }

  /** Whether the limiter in force, if any, goes on under the new configuration. */
  predicate KeepsRpm(current: Option<Limiter>, c: Config)
  {
    current.Some? && current.value.rpm == c.rpm
  }

  function Renewed(current: Option<Limiter>, name: string, c: Config): Limiter
  {
    if KeepsRpm(current, c) then current.value else NewLimiter(name, c)
  }

  /** The table a rebuild leaves: a provider whose rpm did not change keeps its limiter as it is. */
  function Rebuilt(table: map<string, Limiter>, providers: map<string, Config>): map<string, Limiter>
  {
    map name | name in providers && Limited(providers, name) :: Renewed(InMap(table, name), name, providers[name])
  }

  /** The module's table of limiters. */
  class Registry {
    var limiters: map<string, ProviderRateLimiter>

    constructor ()
      ensures limiters == map[]
    {
      limiters := map[];
    }

    ghost function View(): map<string, Limiter>
      reads this, limiters.Values
    {
      map name | name in limiters :: limiters[name].View()
    }

    /** Rebuilds the table: a provider whose rpm did not change keeps its limiter object, any other
        limited provider gets a fresh one. The providers come in some order without repetition. */
    method BuildRateLimiters(names: seq<string>, providers: map<string, Config>)
      requires forall name :: name in names <==> name in providers
      modifies this
      ensures View() == Rebuilt(old(View()), providers)
      ensures forall name :: name in limiters <==> name in providers && providers[name].rpm > 0
      ensures forall name | name in limiters && name in providers ::
        if name in old(limiters) && old(limiters)[name].rpm == providers[name].rpm
        then limiters[name] == old(limiters)[name]
        else limiters[name].View() == Limiter(name, providers[name].rpm, providers[name].maxQueue, [], 0, [])
      ensures forall name | name in limiters && name in providers ::
        if KeepsRpm(InMap(old(View()), name), providers[name])
        then limiters[name] == old(limiters)[name]
        else fresh(limiters[name])
    {
      var built: map<string, ProviderRateLimiter> := map[];
      var i := 0;
      while i < |names|
        invariant 0 <= i <= |names| && limiters == old(limiters)
        invariant forall name :: name in built <==> name in names[..i] && Limited(providers, name)
        invariant forall name | name in built ::
          if name in limiters && limiters[name].rpm == providers[name].rpm
          then built[name] == limiters[name]
          else fresh(built[name]) && built[name].View() == NewLimiter(name, providers[name])
      {
        var name, config := names[i], providers[names[i]];
        assert names[..i + 1] == names[..i] + [name];
        if config.rpm > 0 {
          if name in limiters && limiters[name].rpm == config.rpm {
            built := built[name := limiters[name]];
          } else {
            var limiter := new ProviderRateLimiter(name, config);
            built := built[name := limiter];
          }
        }
        i := i + 1;
      }
      assert names[..|names|] == names;
      limiters := built;
    }
  }
}
