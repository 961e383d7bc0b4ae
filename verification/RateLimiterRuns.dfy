/** Every interleaving of requests, retries, cancellations, clock ticks and configuration reloads. */
module RateLimiterRuns {
  import opened Json
  import opened RateLimiter

  /** A request in the queue of the limiter object it found: ready to try, or asleep until `wakeAt` after
      a failed try that saw `seen` grants. */
  datatype Task = Ready(limiter: nat) | Asleep(limiter: nat, wakeAt: real, seen: nat)

  /** One grant as the provider sees it. */
  datatype Grant = Grant(provider: string, at: real)

  /** All limiter objects ever built, the table in force, the requests under way, the grants so far. */
  datatype System = System(now: real, limiters: seq<Limiter>, table: map<string, nat>, tasks: map<nat, Task>,
      log: seq<Grant>)

  /** One atomic step. `Arrive` is the queue check and the entry into the queue: nothing runs in between. */
  datatype Step =
    | Advance(seconds: real)
    | Arrive(task: nat, provider: string)
    | Attempt(task: nat)
    | Cancel(task: nat)
    | Reload(names: seq<string>, providers: map<string, Config>)

  ghost predicate Enabled(s: System, step: Step)
  {
    match step
    case Advance(seconds) => seconds >= 0.0
    case Arrive(task, _) => task !in s.tasks
    case Attempt(task) => task in s.tasks && (s.tasks[task].Asleep? ==> s.now >= s.tasks[task].wakeAt)
    case Cancel(task) => task in s.tasks
    case Reload(names, providers) => Lists(names, providers)
  }

  /** `names` lists the configured providers, each once. */
  ghost predicate Lists(names: seq<string>, providers: map<string, Config>)
  {
    && (forall i | 0 <= i < |names| :: names[i] in providers)
    && (forall name | name in providers :: name in names)
    && (forall i, j | 0 <= i < j < |names| :: names[i] != names[j])
  }

  /** Every reference points to a limiter object of the right provider, and every limiter limits something. */
  ghost predicate Consistent(s: System)
  {
    && (forall p | p in s.table :: s.table[p] < |s.limiters| && s.limiters[s.table[p]].provider == p)
    && (forall t | t in s.tasks :: s.tasks[t].limiter < |s.limiters|)
    && (forall i | 0 <= i < |s.limiters| :: s.limiters[i].rpm > 0)
  }

  /** The limiter that the table has for a provider. */
  ghost function InForce(s: System, name: string): Option<Limiter>
  {
    if name in s.table && s.table[name] < |s.limiters| then Some(s.limiters[s.table[name]]) else None
  }

  /** Whether a reload keeps the limiter of a provider. */
  ghost predicate Keeps(s: System, name: string, c: Config)
  {
    KeepsRpm(InForce(s, name), c)
  }

  /** The table a reload builds, provider by provider: kept objects stay, others are new. */
  ghost function Rebuild(s: System, names: seq<string>, providers: map<string, Config>): System
    requires forall i | 0 <= i < |names| :: names[i] in providers
  {
    if names == [] then s.(table := map[])
    else
      var before, name := Rebuild(s, names[..|names| - 1], providers), names[|names| - 1];
      if !Limited(providers, name) then before
      else if Keeps(s, name, providers[name]) then before.(table := before.table[name := s.table[name]])
      else
        before.(limiters := before.limiters + [NewLimiter(name, providers[name])],
                table := before.table[name := |before.limiters|])
  }

  ghost function Next(s: System, step: Step): System
    requires Enabled(s, step) && Consistent(s)
  {
    match step
    case Advance(seconds) => s.(now := s.now + seconds)
    case Arrive(task, provider) =>
      if provider !in s.table || IsQueueFull(s.limiters[s.table[provider]]) then s
      else
        var i := s.table[provider];
        s.(limiters := s.limiters[i := Enter(s.limiters[i])], tasks := s.tasks[task := Ready(i)])
    case Attempt(task) =>
      var i := s.tasks[task].limiter;
      var l := s.limiters[i];
      var after := s.(limiters := s.limiters[i := Try(l, s.now)]);
      if Room(l, s.now) then after.(tasks := s.tasks - {task}, log := s.log + [Grant(l.provider, s.now)])
      else after.(tasks := s.tasks[task := Asleep(i, s.now + WaitSeconds(l, s.now), |l.grants|)])
    case Cancel(task) =>
      var i := s.tasks[task].limiter;
      s.(limiters := s.limiters[i := Leave(s.limiters[i])], tasks := s.tasks - {task})
    case Reload(names, providers) => Rebuild(s, names, providers)
  }

  // ----- what a limiter keeps

  /** Grant number k + rpm comes at least 60 seconds after grant number k. */
  ghost predicate Spaced(grants: seq<real>, rpm: int)
  {
    rpm > 0 && forall k | 0 <= k && k + rpm < |grants| :: grants[k + rpm] >= grants[k] + 60.0
  }

  /** The timestamps are the latest grants, at most rpm of them, and all older grants have left the window. */
  ghost predicate Sound(l: Limiter, now: real)
  {
    && l.rpm > 0
    && |l.timestamps| <= l.rpm && |l.timestamps| <= |l.grants|
    && l.timestamps == l.grants[|l.grants| - |l.timestamps|..]
    && (forall i | 0 <= i < |l.grants| - |l.timestamps| :: l.grants[i] <= now - WINDOW)
    && (forall i | 0 <= i < |l.grants| :: l.grants[i] <= now)
    && Ascending(l.grants) && Spaced(l.grants, l.rpm)
  }

  lemma SoundLater(l: Limiter, now: real, later: real)
    requires Sound(l, now) && now <= later
    ensures Sound(l, later)
  {
  }

  /** What pruning leaves, in terms of the grants. */
  lemma PrunedGrants(l: Limiter, now: real) returns (gone: nat)
    requires Sound(l, now)
    ensures gone <= |l.grants| && Prune(l.timestamps, now) == l.grants[gone..]
    ensures forall i | 0 <= i < gone :: l.grants[i] <= now - WINDOW
    ensures gone < |l.grants| ==> l.grants[gone] > now - WINDOW
    ensures |l.grants| - gone <= l.rpm
  {
    var n := PruneCuts(l.timestamps, now);
    var d := |l.grants| - |l.timestamps|;
    gone := d + n;
    assert l.grants[d..][n..] == l.grants[gone..];
    forall i | 0 <= i < gone ensures l.grants[i] <= now - WINDOW {
      if i >= d { assert l.timestamps[i - d] == l.grants[i]; }
    }
  }

  lemma GrantKeepsSpacing(grants: seq<real>, rpm: int, gone: nat, now: real)
    requires Ascending(grants) && Spaced(grants, rpm)
    requires gone <= |grants| && |grants| - gone < rpm
    requires forall i | 0 <= i < gone :: grants[i] <= now - WINDOW
    requires forall i | 0 <= i < |grants| :: grants[i] <= now
    ensures Ascending(grants + [now]) && Spaced(grants + [now], rpm)
  {
    var after := grants + [now];
    forall k | 0 <= k && k + rpm < |after| ensures after[k + rpm] >= after[k] + 60.0 {
      if k + rpm == |grants| { assert k < gone; }
    }
  }

  lemma TryStaysSound(l: Limiter, now: real)
    requires Sound(l, now)
    ensures Sound(Try(l, now), now)
  {
    var gone := PrunedGrants(l, now);
    var grants := Try(l, now).grants;
    if Room(l, now) {
      GrantKeepsSpacing(l.grants, l.rpm, gone, now);
      DropAppend(l.grants, gone, now);
      StillGone(l.grants, gone, now);
    }
    assert |grants| - |Try(l, now).timestamps| == gone;
  }

  lemma StillGone(grants: seq<real>, gone: nat, now: real)
    requires gone <= |grants| && forall i | 0 <= i < gone :: grants[i] <= now - WINDOW
    requires forall i | 0 <= i < |grants| :: grants[i] <= now
    ensures forall i | 0 <= i < gone :: (grants + [now])[i] <= now - WINDOW
    ensures forall i | 0 <= i < |grants + [now]| :: (grants + [now])[i] <= now
  {
  }

  lemma DropAppend<T>(s: seq<T>, n: nat, x: T)
    requires n <= |s|
    ensures (s + [x])[n..] == s[n..] + [x]
  {
  }

  // ----- what every step keeps

  ghost function WaitingOn(tasks: map<nat, Task>, limiter: nat): set<nat>
  {
    set t | t in tasks && tasks[t].limiter == limiter
  }

  /** A sleeper wakes no earlier than the grant that blocked it leaves the window. */
  ghost predicate SleepsWell(s: System, t: nat)
    requires t in s.tasks && s.tasks[t].limiter < |s.limiters|
  {
    match s.tasks[t]
    case Ready(_) => true
    case Asleep(i, wakeAt, seen) =>
      var l := s.limiters[i];
      0 < l.rpm <= seen <= |l.grants| && wakeAt >= l.grants[seen - l.rpm] + WINDOW
  }

  ghost predicate Accounted(s: System, i: nat)
    requires i < |s.limiters|
  {
    && Sound(s.limiters[i], s.now)
    && s.limiters[i].pending == |WaitingOn(s.tasks, i)|
    && (s.limiters[i].pending == 0 || s.limiters[i].pending <= s.limiters[i].maxQueue + 1)
  }

  /** The invariant of every run. */
  ghost predicate Invariant(s: System)
  {
    && Consistent(s)
    && (forall i | 0 <= i < |s.limiters| :: Accounted(s, i))
    && (forall t | t in s.tasks :: SleepsWell(s, t))
  }

  lemma TaskAdded(tasks: map<nat, Task>, t: nat, task: Task, i: nat)
    requires t !in tasks
    ensures |WaitingOn(tasks[t := task], i)| == |WaitingOn(tasks, i)| + if task.limiter == i then 1 else 0
  {
    if task.limiter == i {
      assert WaitingOn(tasks[t := task], i) == WaitingOn(tasks, i) + {t};
    } else {
      assert WaitingOn(tasks[t := task], i) == WaitingOn(tasks, i);
    }
  }

  lemma TaskRemoved(tasks: map<nat, Task>, t: nat, i: nat)
    requires t in tasks
    ensures |WaitingOn(tasks - {t}, i)| == |WaitingOn(tasks, i)| - if tasks[t].limiter == i then 1 else 0
    ensures |WaitingOn(tasks, tasks[t].limiter)| > 0
  {
    assert t in WaitingOn(tasks, tasks[t].limiter);
    if tasks[t].limiter == i {
      assert WaitingOn(tasks - {t}, i) == WaitingOn(tasks, i) - {t};
    } else {
      assert WaitingOn(tasks - {t}, i) == WaitingOn(tasks, i);
    }
  }

  lemma TaskReplaced(tasks: map<nat, Task>, t: nat, task: Task, i: nat)
    requires t in tasks && tasks[t].limiter == task.limiter
    ensures WaitingOn(tasks[t := task], i) == WaitingOn(tasks, i)
  {
  }

  lemma AdvanceKeeps(s: System, seconds: real)
    requires Invariant(s) && seconds >= 0.0
    ensures Invariant(Next(s, Advance(seconds)))
  {
    var s' := Next(s, Advance(seconds));
    forall i | 0 <= i < |s'.limiters| ensures Accounted(s', i) {
      assert Accounted(s, i);
      SoundLater(s.limiters[i], s.now, s'.now);
    }
    forall t | t in s'.tasks ensures SleepsWell(s', t) { assert SleepsWell(s, t); }
  }

  lemma ArriveKeeps(s: System, task: nat, provider: string)
    requires Invariant(s) && Enabled(s, Arrive(task, provider))
    ensures Invariant(Next(s, Arrive(task, provider)))
  {
    var s' := Next(s, Arrive(task, provider));
    if s' != s {
      var n := s.table[provider];
      forall i | 0 <= i < |s'.limiters| ensures Accounted(s', i) {
        assert Accounted(s, i);
        TaskAdded(s.tasks, task, Ready(n), i);
      }
      forall t | t in s'.tasks ensures SleepsWell(s', t) { if t != task { assert SleepsWell(s, t); } }
    }
  }

  lemma CancelKeeps(s: System, task: nat)
    requires Invariant(s) && Enabled(s, Cancel(task))
    ensures Invariant(Next(s, Cancel(task)))
  {
    var s' := Next(s, Cancel(task));
    forall i | 0 <= i < |s'.limiters| ensures Accounted(s', i) {
      assert Accounted(s, i);
      TaskRemoved(s.tasks, task, i);
    }
    forall t | t in s'.tasks ensures SleepsWell(s', t) { assert SleepsWell(s, t); }
  }

  /** A failed try sleeps until the blocking grant has left the window. */
  lemma FailedTry(l: Limiter, now: real)
    requires Sound(l, now) && !Room(l, now)
    ensures |l.grants| >= l.rpm && now + WaitSeconds(l, now) >= l.grants[|l.grants| - l.rpm] + WINDOW
  {
    var gone := PrunedGrants(l, now);
    assert |l.grants| - gone == l.rpm;
    assert Prune(l.timestamps, now)[0] == l.grants[gone];
  }

  lemma GrantKeeps(s: System, task: nat)
    requires Invariant(s) && Enabled(s, Attempt(task)) && Room(s.limiters[s.tasks[task].limiter], s.now)
    ensures Invariant(Next(s, Attempt(task)))
  {
    var s', n := Next(s, Attempt(task)), s.tasks[task].limiter;
    assert Accounted(s, n);
    TryStaysSound(s.limiters[n], s.now);
    forall i | 0 <= i < |s'.limiters| ensures Accounted(s', i) {
      assert Accounted(s, i);
      TaskRemoved(s.tasks, task, i);
    }
    forall t | t in s'.tasks ensures SleepsWell(s', t) { OthersSleepOn(s, s', t, n); }
  }

  lemma OthersSleepOn(s: System, s': System, t: nat, n: nat)
    requires Invariant(s) && t in s.tasks && t in s'.tasks && s'.tasks[t] == s.tasks[t]
    requires n < |s.limiters| && s'.limiters == s.limiters[n := Try(s.limiters[n], s.now)]
    ensures SleepsWell(s', t)
  {
    assert SleepsWell(s, t);
  }

  lemma FailedTryKeeps(s: System, task: nat)
    requires Invariant(s) && Enabled(s, Attempt(task)) && !Room(s.limiters[s.tasks[task].limiter], s.now)
    ensures Invariant(Next(s, Attempt(task)))
  {
    var s', n := Next(s, Attempt(task)), s.tasks[task].limiter;
    assert Accounted(s, n);
    TryStaysSound(s.limiters[n], s.now);
    forall i | 0 <= i < |s'.limiters| ensures Accounted(s', i) {
      assert Accounted(s, i);
      TaskReplaced(s.tasks, task, s'.tasks[task], i);
    }
    forall t | t in s'.tasks ensures SleepsWell(s', t) {
      if t == task {
        NewSleeper(s, s', task);
      } else {
        OthersSleepOn(s, s', t, n);
      }
    }
  }

  lemma NewSleeper(s: System, s': System, task: nat)
    requires Consistent(s) && task in s.tasks && task in s'.tasks && s'.tasks[task].limiter == s.tasks[task].limiter
    requires var n := s.tasks[task].limiter; var l := s.limiters[n];
      && Sound(l, s.now) && !Room(l, s.now) && s'.limiters == s.limiters[n := Try(l, s.now)]
      && s'.tasks[task] == Asleep(n, s.now + WaitSeconds(l, s.now), |l.grants|)
    ensures SleepsWell(s', task)
  {
    FailedTry(s.limiters[s.tasks[task].limiter], s.now);
  }

  lemma AttemptKeeps(s: System, task: nat)
    requires Invariant(s) && Enabled(s, Attempt(task))
    ensures Invariant(Next(s, Attempt(task)))
  {
    if Room(s.limiters[s.tasks[task].limiter], s.now) {
      GrantKeeps(s, task);
    } else {
      FailedTryKeeps(s, task);
    }
  }

  lemma FrontAndLast(names: seq<string>)
    requires names != []
    ensures names == names[..|names| - 1] + [names[|names| - 1]]
  {
  }

  /** A reload changes no limiter object and touches no request. */
  lemma {:induction false} RebuildFrame(s: System, names: seq<string>, providers: map<string, Config>)
    requires forall i | 0 <= i < |names| :: names[i] in providers
    ensures var s' := Rebuild(s, names, providers);
      && s'.now == s.now && s'.tasks == s.tasks && s'.log == s.log
      && |s'.limiters| >= |s.limiters| && s'.limiters[..|s.limiters|] == s.limiters
  {
    if names != [] {
      RebuildFrame(s, names[..|names| - 1], providers);
    }
  }

  lemma SameLimiter(s: System, s': System, i: nat)
    requires i < |s.limiters| <= |s'.limiters| && s'.limiters[..|s.limiters|] == s.limiters
    ensures s'.limiters[i] == s.limiters[i]
  {
    assert s'.limiters[..|s.limiters|][i] == s'.limiters[i];
  }

  /** The objects a reload adds are the new limiters of listed providers. */
  lemma {:induction false} RebuildAdds(s: System, names: seq<string>, providers: map<string, Config>, i: nat)
    requires forall i | 0 <= i < |names| :: names[i] in providers
    requires |s.limiters| <= i < |Rebuild(s, names, providers).limiters|
    ensures var l := Rebuild(s, names, providers).limiters[i];
      l.provider in names && Limited(providers, l.provider) && l == NewLimiter(l.provider, providers[l.provider])
  {
    var front := names[..|names| - 1];
    FrontAndLast(names);
    if i < |Rebuild(s, front, providers).limiters| {
      RebuildAdds(s, front, providers, i);
    }
  }

  /** The table has exactly the listed providers with a positive rpm. */
  lemma {:induction false} RebuildLists(s: System, names: seq<string>, providers: map<string, Config>, p: string)
    requires forall i | 0 <= i < |names| :: names[i] in providers
    ensures p in Rebuild(s, names, providers).table <==> p in names && Limited(providers, p)
  {
    if names != [] {
      FrontAndLast(names);
      RebuildLists(s, names[..|names| - 1], providers, p);
    }
  }

  /** A provider that is kept has its old object; any other has a new one. */
  lemma {:induction false} RebuildEntry(s: System, names: seq<string>, providers: map<string, Config>, p: string)
    requires forall i | 0 <= i < |names| :: names[i] in providers
    requires p in Rebuild(s, names, providers).table
    ensures var s' := Rebuild(s, names, providers);
      && p in providers && s'.table[p] < |s'.limiters|
      && if Keeps(s, p, providers[p]) then p in s.table && s'.table[p] == s.table[p] < |s.limiters|
         else s'.table[p] >= |s.limiters| && s'.limiters[s'.table[p]] == NewLimiter(p, providers[p])
  {
    var front, name := names[..|names| - 1], names[|names| - 1];
    FrontAndLast(names);
    RebuildFrame(s, front, providers);
    if p != name || !Limited(providers, name) {
      RebuildEntry(s, front, providers, p);
    }
  }

  lemma RebuildConsistent(s: System, names: seq<string>, providers: map<string, Config>)
    requires Consistent(s) && forall i | 0 <= i < |names| :: names[i] in providers
    ensures Consistent(Rebuild(s, names, providers))
  {
    var s' := Rebuild(s, names, providers);
    hide Rebuild;
    RebuildFrame(s, names, providers);
    forall p | p in s'.table
      ensures s'.table[p] < |s'.limiters| && s'.limiters[s'.table[p]].provider == p
    {
      RebuildEntry(s, names, providers, p);
      if Keeps(s, p, providers[p]) {
        SameLimiter(s, s', s.table[p]);
      }
    }
    forall i | 0 <= i < |s'.limiters|
      ensures s'.limiters[i].rpm > 0
    {
      if i < |s.limiters| {
        SameLimiter(s, s', i);
      } else {
        RebuildAdds(s, names, providers, i);
      }
    }
  }

  /** The limiters in force, as values. */
  ghost function Table(s: System): map<string, Limiter>
    requires Consistent(s)
  {
    map name | name in s.table :: s.limiters[s.table[name]]
  }

  /** A reload does to the table what `build_rate_limiters` does to its own. */
  lemma ReloadRebuilds(s: System, names: seq<string>, providers: map<string, Config>)
    requires Consistent(s) && Lists(names, providers)
    ensures var s' := Next(s, Reload(names, providers));
      Consistent(s') && Table(s') == Rebuilt(Table(s), providers)
  {
    var s' := Rebuild(s, names, providers);
    RebuildConsistent(s, names, providers);
    hide Rebuild;
    RebuildFrame(s, names, providers);
    forall p
      ensures p in s'.table <==> p in providers && Limited(providers, p)
      ensures p in s'.table ==> s'.limiters[s'.table[p]] == Renewed(InMap(Table(s), p), p, providers[p])
    {
      RebuildLists(s, names, providers, p);
      if p in s'.table {
        RebuildEntry(s, names, providers, p);
        if Keeps(s, p, providers[p]) {
          SameLimiter(s, s', s.table[p]);
        }
      }
    }
  }

  /** Later objects leave an old one's account as it is. */
  lemma OldAccount(s: System, s': System, i: nat)
    requires i < |s.limiters| <= |s'.limiters| && s'.limiters[..|s.limiters|] == s.limiters
    requires s'.tasks == s.tasks && s'.now == s.now && Accounted(s, i)
    ensures Accounted(s', i)
  {
    SameLimiter(s, s', i);
  }

  lemma OldSleeper(s: System, s': System, t: nat)
    requires |s.limiters| <= |s'.limiters| && s'.limiters[..|s.limiters|] == s.limiters && s'.tasks == s.tasks
    requires t in s.tasks && s.tasks[t].limiter < |s.limiters| && SleepsWell(s, t)
    ensures SleepsWell(s', t)
  {
    SameLimiter(s, s', s.tasks[t].limiter);
  }

  /** Nobody waits on a new object. */
  lemma NewAccount(s: System, s': System, i: nat)
    requires Consistent(s) && |s.limiters| <= i < |s'.limiters| && s'.tasks == s.tasks
    requires var l := s'.limiters[i]; l.rpm > 0 && l == NewLimiter(l.provider, Config(l.rpm, l.maxQueue))
    ensures Accounted(s', i)
  {
    assert WaitingOn(s'.tasks, i) == {};
  }

  lemma ReloadKeeps(s: System, names: seq<string>, providers: map<string, Config>)
    requires Invariant(s) && Lists(names, providers)
    ensures Invariant(Next(s, Reload(names, providers)))
  {
    var s' := Next(s, Reload(names, providers));
    RebuildConsistent(s, names, providers);
    hide Rebuild, Accounted, SleepsWell, Consistent;
    RebuildFrame(s, names, providers);
    forall i | 0 <= i < |s'.limiters|
      ensures Accounted(s', i)
    {
      if i < |s.limiters| {
        OldAccount(s, s', i);
      } else {
        RebuildAdds(s, names, providers, i);
        NewAccount(s, s', i);
      }
    }
    TasksPoint(s);
    forall t | t in s'.tasks
      ensures SleepsWell(s', t)
    {
      OldSleeper(s, s', t);
    }
  }

  lemma TasksPoint(s: System)
    requires Consistent(s)
    ensures forall t | t in s.tasks :: s.tasks[t].limiter < |s.limiters|
  {
  }

  /** Every step keeps the invariant: sound limiters, `pending` equal to the number of requests that have
      entered and are not granted, never above the queue bound plus one, and sleepers that sleep long enough. */
  lemma StepKeeps(s: System, step: Step)
    requires Invariant(s) && Enabled(s, step)
    ensures Invariant(Next(s, step))
  {
    match step
    case Advance(seconds) => AdvanceKeeps(s, seconds);
    case Arrive(task, provider) => ArriveKeeps(s, task, provider);
    case Attempt(task) => AttemptKeeps(s, task);
    case Cancel(task) => CancelKeeps(s, task);
    case Reload(names, providers) => ReloadKeeps(s, names, providers);
  }

  /** A woken sleeper is turned away only if some other request was granted since it last tried. */
  lemma RetryFailsOnlyIfOvertaken(s: System, task: nat)
    requires Invariant(s) && Enabled(s, Attempt(task)) && s.tasks[task].Asleep?
    requires !Room(s.limiters[s.tasks[task].limiter], s.now)
    ensures |s.limiters[s.tasks[task].limiter].grants| > s.tasks[task].seen
  {
    var t := s.tasks[task];
    var l := s.limiters[t.limiter];
    assert Accounted(s, t.limiter) && SleepsWell(s, task);
    var gone := PrunedGrants(l, s.now);
    assert l.grants[t.seen - l.rpm] <= s.now - WINDOW;
    assert gone > t.seen - l.rpm;
  }

  lemma SoundIsAscending(l: Limiter, now: real)
    requires Sound(l, now)
    ensures Ascending(l.timestamps) && |l.timestamps| <= l.rpm
  {
    var d := |l.grants| - |l.timestamps|;
    assert forall i | 0 <= i < |l.timestamps| :: l.timestamps[i] == l.grants[d + i];
  }

  /** In every state, a try is granted exactly when fewer than rpm grants are less than 60 seconds old; otherwise the
      request sleeps to the time from which there is room, if nobody else comes first, and no longer. */
  lemma SleepIsExact(s: System, task: nat)
    requires Invariant(s) && Enabled(s, Attempt(task))
    ensures var l, s' := s.limiters[s.tasks[task].limiter], Next(s, Attempt(task));
      && (task !in s'.tasks <==> Recent(l.timestamps, s.now) < l.rpm)
      && (task in s'.tasks ==>
            && s'.tasks[task].Asleep?
            && var l', wakeAt := s'.limiters[s.tasks[task].limiter], s'.tasks[task].wakeAt;
            && wakeAt >= s.now + 0.05 && Recent(l'.timestamps, wakeAt) < l.rpm
            && forall t | s.now + 0.05 <= t < wakeAt :: Recent(l'.timestamps, t) >= l.rpm)
  {
    var i := s.tasks[task].limiter;
    assert Accounted(s, i);
    SoundIsAscending(s.limiters[i], s.now);
    TryTells(s.limiters[i], s.now);
    var n := PruneCuts(s.limiters[i].timestamps, s.now);
  }

  /** A request is let in exactly when its provider is limited and no more than `max_queue` others are pending. */
  lemma LetInIff(s: System, task: nat, provider: string)
    requires Invariant(s) && Enabled(s, Arrive(task, provider))
    ensures task in Next(s, Arrive(task, provider)).tasks <==>
      provider in s.table && s.limiters[s.table[provider]].pending <= s.limiters[s.table[provider]].maxQueue
  {
  }

  // ----- runs

  ghost function Start(now: real): System
  {
    System(now, [], map[], map[], [])
  }

  /** `steps` can be taken one after the other from `s`. */
  ghost predicate Runs(s: System, steps: seq<Step>)
    decreases |steps|
  {
    Consistent(s) && (steps == [] || (Enabled(s, steps[0]) && Runs(Next(s, steps[0]), steps[1..])))
  }

  ghost function Outcome(s: System, steps: seq<Step>): System
    requires Runs(s, steps)
    decreases |steps|
  {
    if steps == [] then s else Outcome(Next(s, steps[0]), steps[1..])
  }

  /** Every reachable state satisfies the invariant. */
  lemma {:induction false} RunKeeps(s: System, steps: seq<Step>)
    requires Invariant(s) && Runs(s, steps)
    ensures Invariant(Outcome(s, steps))
    decreases |steps|
  {
    if steps != [] {
      StepKeeps(s, steps[0]);
      RunKeeps(Next(s, steps[0]), steps[1..]);
    }
  }

  /** The grant times of one provider. */
  ghost function GrantsOf(log: seq<Grant>, provider: string): seq<real>
  {
    if log == [] then []
    else
      var before, g := GrantsOf(log[..|log| - 1], provider), log[|log| - 1];
      if g.provider == provider then before + [g.at] else before
  }

  lemma LogOne(log: seq<Grant>, g: Grant, provider: string)
    ensures GrantsOf(log + [g], provider) ==
      if g.provider == provider then GrantsOf(log, provider) + [g.at] else GrantsOf(log, provider)
  {
    assert (log + [g])[..|log|] == log;
  }

  ghost predicate InWindow(at: real, t: real)
  {
    t - 60.0 < at <= t
  }

  /** How many grants fall in the window that ends at `t`. */
  ghost function CountInWindow(grants: seq<real>, t: real): nat
  {
    if grants == [] then 0
    else CountInWindow(grants[..|grants| - 1], t) + if InWindow(grants[|grants| - 1], t) then 1 else 0
  }

  lemma {:induction false} CountBounded(grants: seq<real>, t: real, first: nat, n: nat)
    requires forall i | 0 <= i < |grants| && InWindow(grants[i], t) :: first <= i < first + n
    ensures CountInWindow(grants, t) <= n
    ensures CountInWindow(grants, t) <= if |grants| > first then |grants| - first else 0
  {
    if grants != [] {
      CountBounded(grants[..|grants| - 1], t, first, n);
    }
  }

  lemma FirstInWindow(grants: seq<real>, t: real) returns (first: nat)
    ensures first <= |grants| && (first < |grants| ==> InWindow(grants[first], t))
    ensures forall i | 0 <= i < first :: !InWindow(grants[i], t)
  {
    first := 0;
    while first < |grants| && !InWindow(grants[first], t)
      invariant first <= |grants|
      invariant forall i | 0 <= i < first :: !InWindow(grants[i], t)
    {
      first := first + 1;
    }
  }

  lemma OutOfReach(grants: seq<real>, rpm: int, first: nat, i: nat)
    requires Ascending(grants) && Spaced(grants, rpm) && first + rpm <= i < |grants|
    ensures grants[i] >= grants[first] + 60.0
  {
    assert grants[first + rpm] <= grants[i];
  }

  /** Spaced grants never crowd a window. */
  lemma WindowHoldsAtMost(grants: seq<real>, rpm: int, t: real)
    requires Ascending(grants) && Spaced(grants, rpm)
    ensures CountInWindow(grants, t) <= rpm
  {
    var first := FirstInWindow(grants, t);
    forall i | 0 <= i < |grants| && InWindow(grants[i], t) ensures first <= i < first + rpm {
      if i >= first + rpm { OutOfReach(grants, rpm, first, i); }
    }
    CountBounded(grants, t, first, rpm);
  }

  /** A provider that keeps its rpm keeps its limiter object, and with it the queue bound it had before:
      a new `max_queue` takes effect only when the rpm changes too. */
  lemma QueueBoundAfterReload(s: System, names: seq<string>, providers: map<string, Config>, provider: string)
    requires Invariant(s) && Lists(names, providers) && Limited(providers, provider)
    ensures var s' := Next(s, Reload(names, providers));
      && InForce(s', provider).Some?
      && InForce(s', provider).value.maxQueue ==
        if Keeps(s, provider, providers[provider]) then InForce(s, provider).value.maxQueue
        else providers[provider].maxQueue
  {
    var s' := Next(s, Reload(names, providers));
    hide Rebuild;
    RebuildFrame(s, names, providers);
    RebuildLists(s, names, providers, provider);
    RebuildEntry(s, names, providers, provider);
    if Keeps(s, provider, providers[provider]) {
      SameLimiter(s, s', s.table[provider]);
    }
  }
}
