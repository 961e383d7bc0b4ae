/** What hot reloads do to the limit of one provider: how many grants a window can hold, and when the limit holds. */
module RateLimiterSchedules {
  import opened RateLimiter
  import opened RateLimiterRuns

  // ----- schedules

  /** The rpm a configuration gives a provider; 0 when it does not limit it. */
  function Level(providers: map<string, Config>, p: string): nat
  {
    if Limited(providers, p) then providers[p].rpm else 0
  }

  /** What a configuration says of a provider: its level, and whether a new limiter would let anyone in. */
  datatype Setting = Setting(level: nat, open: bool)

  function SettingOf(providers: map<string, Config>, p: string): Setting
  {
    Setting(Level(providers, p), Limited(providers, p) && providers[p].maxQueue >= 0)
  }

  /** The settings that the reloads among the steps make, in order. */
  ghost function Settings(steps: seq<Step>, p: string): seq<Setting>
  {
    if steps == [] then []
    else (if steps[0].Reload? then [SettingOf(steps[0].providers, p)] else []) + Settings(steps[1..], p)
  }

  /** A level that differs from the one before starts a spell, for which a limiter is built, unless it is 0. */
  predicate Starts(before: nat, level: nat)
  {
    level > 0 && level != before
  }

  predicate Opens(before: nat, setting: Setting)
  {
    Starts(before, setting.level) && setting.open
  }

  /** The rpms of the spells that let requests in, in order. */
  function Spells(before: nat, settings: seq<Setting>): seq<nat>
    decreases |settings|
  {
    if settings == [] then []
    else
      (if Opens(before, settings[0]) then [settings[0].level] else []) + Spells(settings[0].level, settings[1..])
  }

  function Sum(rpms: seq<nat>): nat
  {
    if rpms == [] then 0 else rpms[0] + Sum(rpms[1..])
  }

  function Highest(rpms: seq<nat>): nat
  {
    if rpms == [] then 0 else if rpms[0] > Highest(rpms[1..]) then rpms[0] else Highest(rpms[1..])
  }

  lemma {:induction false} SpellsArePositive(before: nat, settings: seq<Setting>)
    ensures forall i | 0 <= i < |Spells(before, settings)| :: Spells(before, settings)[i] > 0
    decreases |settings|
  {
    if settings != [] {
      SpellsArePositive(settings[0].level, settings[1..]);
    }
  }

  lemma {:induction false} SumBounds(rpms: seq<nat>)
    requires forall i | 0 <= i < |rpms| :: rpms[i] > 0
    ensures Highest(rpms) <= Sum(rpms) && (rpms != [] ==> Highest(rpms) > 0)
    ensures |rpms| >= 2 ==> Highest(rpms) < Sum(rpms)
  {
    if rpms != [] {
      SumBounds(rpms[1..]);
    }
  }

  /** The spells add up to no more than the highest of them exactly when there is at most one. */
  lemma SpellSumIff(settings: seq<Setting>)
    ensures Sum(Spells(0, settings)) <= Highest(Spells(0, settings)) <==> |Spells(0, settings)| <= 1
  {
    var rpms := Spells(0, settings);
    SpellsArePositive(0, settings);
    SumBounds(rpms);
    if |rpms| == 1 {
      assert rpms[1..] == [];
    }
  }

  // ----- sums over a provider's limiters

  /** A limiter object of the provider that lets requests in. */
  predicate Serves(l: Limiter, p: string)
  {
    l.provider == p && l.maxQueue >= 0
  }

  /** `f` summed over all such objects ever built. */
  ghost function SumBy(limiters: seq<Limiter>, p: string, f: Limiter -> int): int
  {
    if limiters == [] then 0
    else
      var l := limiters[|limiters| - 1];
      SumBy(limiters[..|limiters| - 1], p, f) + if Serves(l, p) then f(l) else 0
  }

  function Rpm(l: Limiter): int
  {
    l.rpm
  }

  function One(l: Limiter): int
  {
    1
  }

  ghost function Counter(t: real): Limiter -> int
  {
    (l: Limiter) => CountInWindow(l.grants, t)
  }

  lemma {:induction false} SumUpdated(limiters: seq<Limiter>, i: nat, l: Limiter, p: string, f: Limiter -> int)
    requires i < |limiters| && l.provider == limiters[i].provider && l.maxQueue == limiters[i].maxQueue
    ensures SumBy(limiters[i := l], p, f) ==
      SumBy(limiters, p, f) + if Serves(l, p) then f(l) - f(limiters[i]) else 0
  {
    var n := |limiters| - 1;
    if i < n {
      assert limiters[i := l][..n] == limiters[..n][i := l];
      SumUpdated(limiters[..n], i, l, p, f);
    } else {
      assert limiters[i := l][..n] == limiters[..n];
    }
  }

  lemma SumAdded(limiters: seq<Limiter>, l: Limiter, p: string, f: Limiter -> int)
    ensures SumBy(limiters + [l], p, f) == SumBy(limiters, p, f) + if Serves(l, p) then f(l) else 0
  {
    assert (limiters + [l])[..|limiters|] == limiters;
  }

  lemma {:induction false} SumMonotone(limiters: seq<Limiter>, p: string, f: Limiter -> int, g: Limiter -> int)
    requires forall i | 0 <= i < |limiters| && Serves(limiters[i], p) :: f(limiters[i]) <= g(limiters[i])
    ensures SumBy(limiters, p, f) <= SumBy(limiters, p, g)
  {
    if limiters != [] {
      SumMonotone(limiters[..|limiters| - 1], p, f, g);
    }
  }

  lemma {:induction false} Counted(limiters: seq<Limiter>, p: string)
    ensures SumBy(limiters, p, One) >= 0
    ensures SumBy(limiters, p, One) == 0 <==> forall i | 0 <= i < |limiters| :: !Serves(limiters[i], p)
  {
    if limiters != [] {
      Counted(limiters[..|limiters| - 1], p);
    }
  }

  lemma {:induction false} OnlyOne(limiters: seq<Limiter>, p: string, i: nat, j: nat)
    requires SumBy(limiters, p, One) <= 1
    requires i < |limiters| && j < |limiters| && Serves(limiters[i], p) && Serves(limiters[j], p)
    ensures i == j
  {
    var n := |limiters| - 1;
    Counted(limiters[..n], p);
    if i < n && j < n {
      OnlyOne(limiters[..n], p, i, j);
    } else if i < n {
      AtLeastOne(limiters[..n], p, i);
    } else if j < n {
      AtLeastOne(limiters[..n], p, j);
    }
  }

  lemma AtLeastOne(limiters: seq<Limiter>, p: string, i: nat)
    requires i < |limiters| && Serves(limiters[i], p)
    ensures SumBy(limiters, p, One) >= 1
  {
    Counted(limiters, p);
  }

  /** The level in force. */
  ghost function Present(s: System, p: string): int
  {
    var l := InForce(s, p);
    if l.Some? then l.value.rpm else 0
  }

  // ----- steps

  /** Every step but a reload leaves the limiters' providers and rpms and the table as they are. */
  lemma StepUpdates(s: System, step: Step) returns (i: nat, l: Limiter)
    requires Invariant(s) && Enabled(s, step) && !step.Reload?
    ensures var s' := Next(s, step);
      && s'.table == s.table
      && (s'.limiters == s.limiters
          || (i < |s.limiters| && s'.limiters == s.limiters[i := l]
              && l.provider == s.limiters[i].provider && l.rpm == s.limiters[i].rpm
              && l.maxQueue == s.limiters[i].maxQueue))
  {
    i, l := 0, NewLimiter("", Config(1, 0));
    match step
    case Arrive(_, provider) =>
      if provider in s.table {
        i := s.table[provider];
        l := Enter(s.limiters[i]);
      }
    case Attempt(task) =>
      i := s.tasks[task].limiter;
      l := Try(s.limiters[i], s.now);
    case Cancel(task) =>
      i := s.tasks[task].limiter;
      l := Leave(s.limiters[i]);
    case Advance(_) =>
  }

  lemma StepLevels(s: System, step: Step, p: string)
    requires Invariant(s) && Enabled(s, step) && !step.Reload?
    ensures var s' := Next(s, step);
      && SumBy(s'.limiters, p, Rpm) == SumBy(s.limiters, p, Rpm)
      && SumBy(s'.limiters, p, One) == SumBy(s.limiters, p, One)
      && Present(s', p) == Present(s, p)
  {
    var i, l := StepUpdates(s, step);
    if Next(s, step).limiters != s.limiters {
      hide Next;
      SumUpdated(s.limiters, i, l, p, Rpm);
      SumUpdated(s.limiters, i, l, p, One);
    }
  }

  /** A rebuild adds a provider's object once, if it starts a spell. */
  lemma {:induction false} RebuildSums(s: System, names: seq<string>, providers: map<string, Config>, p: string,
                                       f: Limiter -> int)
    requires (forall i | 0 <= i < |names| :: names[i] in providers)
    requires forall i, j | 0 <= i < j < |names| :: names[i] != names[j]
    ensures SumBy(Rebuild(s, names, providers).limiters, p, f) == SumBy(s.limiters, p, f) +
      if p in names && Limited(providers, p) && providers[p].maxQueue >= 0 && !Keeps(s, p, providers[p])
      then f(NewLimiter(p, providers[p])) else 0
  {
    if names != [] {
      var front, name := names[..|names| - 1], names[|names| - 1];
      FrontAndLast(names);
      assert name !in front;
      RebuildSums(s, front, providers, p, f);
      SumAdded(Rebuild(s, front, providers).limiters, NewLimiter(name, providers[name]), p, f);
    }
  }

  lemma PositivePresent(s: System, p: string)
    requires Consistent(s)
    ensures Present(s, p) >= 0 && (InForce(s, p).Some? ==> Present(s, p) > 0)
  {
  }

  lemma ReloadLevels(s: System, names: seq<string>, providers: map<string, Config>, p: string)
    requires Invariant(s) && Lists(names, providers)
    ensures var s', setting := Next(s, Reload(names, providers)), SettingOf(providers, p);
      && Present(s, p) >= 0 && Present(s', p) == setting.level
      && SumBy(s'.limiters, p, Rpm) ==
           SumBy(s.limiters, p, Rpm) + (if Opens(Present(s, p), setting) then setting.level else 0)
      && SumBy(s'.limiters, p, One) == SumBy(s.limiters, p, One) + (if Opens(Present(s, p), setting) then 1 else 0)
      && forall t :: SumBy(s'.limiters, p, Counter(t)) == SumBy(s.limiters, p, Counter(t))
  {
    var s' := Rebuild(s, names, providers);
    hide Rebuild, Accounted, SleepsWell;
    PositivePresent(s, p);
    RebuildFrame(s, names, providers);
    RebuildLists(s, names, providers, p);
    RebuildSums(s, names, providers, p, Rpm);
    RebuildSums(s, names, providers, p, One);
    forall t
      ensures SumBy(s'.limiters, p, Counter(t)) == SumBy(s.limiters, p, Counter(t))
    {
      RebuildSums(s, names, providers, p, Counter(t));
    }
    if p in s'.table {
      RebuildEntry(s, names, providers, p);
      if Keeps(s, p, providers[p]) {
        SameLimiter(s, s', s.table[p]);
      }
    }
  }

  lemma WindowOneMore(grants: seq<real>, g: real, t: real)
    ensures CountInWindow(grants + [g], t) == CountInWindow(grants, t) + if InWindow(g, t) then 1 else 0
  {
    assert (grants + [g])[..|grants|] == grants;
  }

  /** Nobody ever waits on a limiter that lets nobody in. */
  lemma AttemptServes(s: System, task: nat)
    requires Invariant(s) && task in s.tasks
    ensures s.limiters[s.tasks[task].limiter].maxQueue >= 0
  {
    assert Accounted(s, s.tasks[task].limiter);
    TaskRemoved(s.tasks, task, s.tasks[task].limiter);
  }

  /** A provider's grants are those of its limiter objects together. */
  ghost predicate GrantsAddUp(s: System, p: string, t: real)
  {
    CountInWindow(GrantsOf(s.log, p), t) == SumBy(s.limiters, p, Counter(t))
  }

  /** A change to one limiter object that grants nothing. */
  lemma UpdateAddsUp(s: System, s': System, i: nat, l: Limiter, p: string, t: real)
    requires GrantsAddUp(s, p, t) && i < |s.limiters| && s'.limiters == s.limiters[i := l] && s'.log == s.log
    requires l.provider == s.limiters[i].provider && l.maxQueue == s.limiters[i].maxQueue
    requires l.grants == s.limiters[i].grants
    ensures GrantsAddUp(s', p, t)
  {
    hide CountInWindow, GrantsOf;
    SumUpdated(s.limiters, i, l, p, Counter(t));
  }

  /** A grant goes to the log and to the object that gave it. */
  lemma GrantAddsUp(s: System, s': System, i: nat, l: Limiter, p: string, t: real)
    requires GrantsAddUp(s, p, t) && i < |s.limiters| && s'.limiters == s.limiters[i := l]
    requires s'.log == s.log + [Grant(l.provider, s.now)]
    requires l.provider == s.limiters[i].provider && l.maxQueue == s.limiters[i].maxQueue >= 0
    requires l.grants == s.limiters[i].grants + [s.now]
    ensures GrantsAddUp(s', p, t)
  {
    hide CountInWindow, GrantsOf;
    SumUpdated(s.limiters, i, l, p, Counter(t));
    LogOne(s.log, Grant(l.provider, s.now), p);
    WindowOneMore(GrantsOf(s.log, p), s.now, t);
    WindowOneMore(s.limiters[i].grants, s.now, t);
  }

  lemma StepAddsUp(s: System, step: Step, p: string, t: real)
    requires Invariant(s) && Enabled(s, step) && GrantsAddUp(s, p, t)
    ensures GrantsAddUp(Next(s, step), p, t)
  {
    hide CountInWindow, GrantsOf, SumBy, Accounted, SleepsWell, Rebuild;
    var s' := Next(s, step);
    match step
    case Advance(_) =>
    case Arrive(_, provider) =>
      if provider in s.table && !IsQueueFull(s.limiters[s.table[provider]]) {
        var i := s.table[provider];
        UpdateAddsUp(s, s', i, Enter(s.limiters[i]), p, t);
      }
    case Cancel(task) =>
      var i := s.tasks[task].limiter;
      UpdateAddsUp(s, s', i, Leave(s.limiters[i]), p, t);
    case Attempt(task) =>
      var i := s.tasks[task].limiter;
      var l := Try(s.limiters[i], s.now);
      AttemptServes(s, task);
      if Room(s.limiters[i], s.now) {
        GrantAddsUp(s, s', i, l, p, t);
      } else {
        UpdateAddsUp(s, s', i, l, p, t);
      }
    case Reload(names, providers) =>
      ReloadLevels(s, names, providers, p);
      RebuildFrame(s, names, providers);
  }

  // ----- runs

  lemma SumFirst(before: nat, settings: seq<Setting>)
    requires settings != []
    ensures var rest := Spells(settings[0].level, settings[1..]);
      && Sum(Spells(before, settings)) == (if Opens(before, settings[0]) then settings[0].level else 0) + Sum(rest)
      && |Spells(before, settings)| == (if Opens(before, settings[0]) then 1 else 0) + |rest|
  {
    var rest := Spells(settings[0].level, settings[1..]);
    if Opens(before, settings[0]) {
      assert Spells(before, settings)[1..] == rest;
    } else {
      assert Spells(before, settings) == rest;
    }
  }

  lemma {:induction false} RunLevels(s: System, steps: seq<Step>, p: string, t: real)
    requires Invariant(s) && Runs(s, steps) && GrantsAddUp(s, p, t)
    ensures var s', spells := Outcome(s, steps), Spells(Present(s, p), Settings(steps, p));
      && SumBy(s'.limiters, p, Rpm) == SumBy(s.limiters, p, Rpm) + Sum(spells)
      && SumBy(s'.limiters, p, One) == SumBy(s.limiters, p, One) + |spells|
      && GrantsAddUp(s', p, t)
    decreases |steps|
  {
    PositivePresent(s, p);
    if steps != [] {
      var step := steps[0];
      StepKeeps(s, step);
      StepAddsUp(s, step, p, t);
      RunLevels(Next(s, step), steps[1..], p, t);
      hide Next, Invariant, SumBy;
      match step
      case Reload(names, providers) =>
        ReloadLevels(s, names, providers, p);
        assert Settings(steps, p) == [SettingOf(providers, p)] + Settings(steps[1..], p);
        SumFirst(Present(s, p), Settings(steps, p));
      case _ =>
        StepLevels(s, step, p);
        assert Settings(steps, p) == Settings(steps[1..], p);
    }
  }

  lemma StartAddsUp(now: real, p: string, t: real)
    ensures Invariant(Start(now)) && GrantsAddUp(Start(now), p, t) && Present(Start(now), p) == 0
  {
  }

  /** Over every run, a window holds no more grants than the rpms of the provider's spells add up to. */
  lemma WindowBound(now: real, steps: seq<Step>, p: string, t: real)
    requires Runs(Start(now), steps)
    ensures CountInWindow(GrantsOf(Outcome(Start(now), steps).log, p), t) <= Sum(Spells(0, Settings(steps, p)))
  {
    StartAddsUp(now, p, t);
    RunKeeps(Start(now), steps);
    RunLevels(Start(now), steps, p, t);
    var s := Outcome(Start(now), steps);
    hide Outcome;
    forall i | 0 <= i < |s.limiters|
      ensures Counter(t)(s.limiters[i]) <= Rpm(s.limiters[i])
    {
      assert Accounted(s, i);
      WindowHoldsAtMost(s.limiters[i].grants, s.limiters[i].rpm, t);
    }
    SumMonotone(s.limiters, p, Counter(t), Rpm);
  }

  // ----- a single spell

  /** While a provider has had one limiter object at most, that object has seen all its grants. */
  ghost predicate OneSeesAll(s: System, p: string)
  {
    SumBy(s.limiters, p, One) <= 1 ==>
      && (forall i | 0 <= i < |s.limiters| && Serves(s.limiters[i], p) :: s.limiters[i].grants == GrantsOf(s.log, p))
      && ((forall i | 0 <= i < |s.limiters| :: !Serves(s.limiters[i], p)) ==> GrantsOf(s.log, p) == [])
  }

  lemma AttemptSees(s: System, task: nat, p: string)
    requires Invariant(s) && Enabled(s, Attempt(task)) && OneSeesAll(s, p)
    ensures OneSeesAll(Next(s, Attempt(task)), p)
  {
    var n := s.tasks[task].limiter;
    var l, s' := s.limiters[n], Next(s, Attempt(task));
    StepLevels(s, Attempt(task), p);
    AttemptServes(s, task);
    if Room(l, s.now) {
      LogOne(s.log, Grant(l.provider, s.now), p);
    }
    if SumBy(s.limiters, p, One) <= 1 {
      forall i | 0 <= i < |s'.limiters| && Serves(s'.limiters[i], p)
        ensures s'.limiters[i].grants == GrantsOf(s'.log, p)
      {
        if Serves(l, p) {
          OnlyOne(s.limiters, p, i, n);
        }
      }
      if forall i | 0 <= i < |s'.limiters| :: !Serves(s'.limiters[i], p) {
        forall i | 0 <= i < |s.limiters|
          ensures !Serves(s.limiters[i], p)
        {
          assert s'.limiters[i].provider == s.limiters[i].provider && s'.limiters[i].maxQueue == s.limiters[i].maxQueue;
        }
      }
    }
  }

  lemma ReloadSees(s: System, names: seq<string>, providers: map<string, Config>, p: string)
    requires Invariant(s) && Lists(names, providers) && OneSeesAll(s, p)
    ensures OneSeesAll(Next(s, Reload(names, providers)), p)
  {
    var s' := Rebuild(s, names, providers);
    ReloadLevels(s, names, providers, p);
    hide Rebuild, Accounted, SleepsWell;
    RebuildFrame(s, names, providers);
    Counted(s.limiters, p);
    if SumBy(s'.limiters, p, One) <= 1 {
      forall i | 0 <= i < |s'.limiters| && Serves(s'.limiters[i], p)
        ensures s'.limiters[i].grants == GrantsOf(s'.log, p)
      {
        if i < |s.limiters| {
          SameLimiter(s, s', i);
        } else {
          RebuildAdds(s, names, providers, i);
          NewAlone(s, s', p, i);
        }
      }
      if forall i | 0 <= i < |s'.limiters| :: !Serves(s'.limiters[i], p) {
        forall i | 0 <= i < |s.limiters|
          ensures !Serves(s.limiters[i], p)
        {
          SameLimiter(s, s', i);
        }
      }
    }
  }

  /** A new object that is the only one has no older one beside it. */
  lemma NewAlone(s: System, s': System, p: string, i: nat)
    requires SumBy(s'.limiters, p, One) <= 1 && |s.limiters| <= i < |s'.limiters| && Serves(s'.limiters[i], p)
    requires s'.limiters[..|s.limiters|] == s.limiters
    ensures forall j | 0 <= j < |s.limiters| :: !Serves(s.limiters[j], p)
  {
    forall j | 0 <= j < |s.limiters|
      ensures !Serves(s.limiters[j], p)
    {
      SameLimiter(s, s', j);
      if Serves(s.limiters[j], p) {
        OnlyOne(s'.limiters, p, i, j);
      }
    }
  }

  lemma StepSees(s: System, step: Step, p: string)
    requires Invariant(s) && Enabled(s, step) && OneSeesAll(s, p)
    ensures OneSeesAll(Next(s, step), p)
  {
    match step
    case Attempt(task) => AttemptSees(s, task, p);
    case Reload(names, providers) => ReloadSees(s, names, providers, p);
    case _ =>
      StepLevels(s, step, p);
      var s' := Next(s, step);
      assert |s'.limiters| == |s.limiters|;
      assert forall i | 0 <= i < |s.limiters| ::
          && s'.limiters[i].provider == s.limiters[i].provider && s'.limiters[i].maxQueue == s.limiters[i].maxQueue
          && s'.limiters[i].grants == s.limiters[i].grants;
  }

  lemma {:induction false} RunSees(s: System, steps: seq<Step>, p: string)
    requires Invariant(s) && Runs(s, steps) && OneSeesAll(s, p)
    ensures OneSeesAll(Outcome(s, steps), p)
    decreases |steps|
  {
    hide Invariant, Next, OneSeesAll;
    if steps != [] {
      StepKeeps(s, steps[0]);
      StepSees(s, steps[0], p);
      RunSees(Next(s, steps[0]), steps[1..], p);
    }
  }

  lemma {:induction false} SumOfOne(limiters: seq<Limiter>, p: string, i: nat)
    requires SumBy(limiters, p, One) <= 1 && i < |limiters| && Serves(limiters[i], p)
    ensures SumBy(limiters, p, Rpm) == limiters[i].rpm
  {
    var n := |limiters| - 1;
    Counted(limiters[..n], p);
    if i < n {
      AtLeastOne(limiters[..n], p, i);
      SumOfOne(limiters[..n], p, i);
    } else {
      NoneSum(limiters[..n], p);
    }
  }

  lemma {:induction false} NoneSum(limiters: seq<Limiter>, p: string)
    requires forall i | 0 <= i < |limiters| :: !Serves(limiters[i], p)
    ensures SumBy(limiters, p, Rpm) == 0
  {
    if limiters != [] {
      NoneSum(limiters[..|limiters| - 1], p);
    }
  }

  /** In every run whose reloads give the provider one spell that lets requests in, with `rpm` requests a minute,
      whenever it begins and ends: grant number k + rpm comes at least 60 seconds after grant number k, and no
      window holds more than rpm. */
  lemma RateLimited(now: real, steps: seq<Step>, p: string, rpm: nat, t: real)
    requires Runs(Start(now), steps)
    requires Spells(0, Settings(steps, p)) == [rpm]
    ensures Spaced(GrantsOf(Outcome(Start(now), steps).log, p), rpm)
    ensures CountInWindow(GrantsOf(Outcome(Start(now), steps).log, p), t) <= rpm
  {
    WindowBound(now, steps, p, t);
    StartAddsUp(now, p, t);
    RunKeeps(Start(now), steps);
    RunLevels(Start(now), steps, p, t);
    RunSees(Start(now), steps, p);
    var s := Outcome(Start(now), steps);
    assert [rpm][1..] == [] && Sum([rpm]) == rpm;
    SpellsArePositive(0, Settings(steps, p));
    assert rpm > 0;
    hide Outcome;
    if i :| 0 <= i < |s.limiters| && Serves(s.limiters[i], p) {
      assert Accounted(s, i);
      SumOfOne(s.limiters, p, i);
    }
  }

  // ----- the bound is met

  lemma {:induction false} RunsAppend(s: System, a: seq<Step>, b: seq<Step>)
    requires Runs(s, a) && Runs(Outcome(s, a), b)
    ensures Runs(s, a + b) && Outcome(s, a + b) == Outcome(Outcome(s, a), b)
    decreases |a|
  {
    hide Next, Enabled, Consistent;
    if a == [] {
      assert a + b == b;
    } else {
      assert (a + b)[1..] == a[1..] + b;
      RunsAppend(Next(s, a[0]), a[1..], b);
    }
  }

  ghost function Reloads(steps: seq<Step>): seq<Step>
  {
    if steps == [] then [] else (if steps[0].Reload? then [steps[0]] else []) + Reloads(steps[1..])
  }

  lemma ReloadsCons(step: Step, rest: seq<Step>)
    ensures Reloads([step] + rest) == (if step.Reload? then [step] else []) + Reloads(rest)
  {
    assert ([step] + rest)[1..] == rest;
  }

  lemma {:induction false} ReloadsAppend(a: seq<Step>, b: seq<Step>)
    ensures Reloads(a + b) == Reloads(a) + Reloads(b)
  {
    if a == [] {
      assert a + b == b;
    } else {
      ReloadsCons(a[0], a[1..] + b);
      assert a + b == [a[0]] + (a[1..] + b);
      ReloadsAppend(a[1..], b);
    }
  }

  /** The settings of a run are those of its reloads. */
  lemma {:induction false} SettingsOfReloads(steps: seq<Step>, p: string)
    ensures Settings(Reloads(steps), p) == Settings(steps, p)
  {
    if steps != [] {
      SettingsOfReloads(steps[1..], p);
      if steps[0].Reload? {
        assert Reloads(steps)[1..] == Reloads(steps[1..]);
      } else {
        assert Reloads(steps) == Reloads(steps[1..]);
      }
    }
  }

  /** A state without requests in which every grant so far happened at this instant. */
  ghost predicate Idle(s: System)
  {
    && Invariant(s) && s.tasks == map[]
    && (forall i | 0 <= i < |s.log| :: s.log[i].at == s.now)
  }

  /** One request enters and is granted at once, as long as the limiter has granted fewer than its rpm. */
  lemma PassThrough(s: System, p: string) returns (s': System)
    requires Idle(s) && InForce(s, p).Some? && |InForce(s, p).value.grants| < InForce(s, p).value.rpm
    requires InForce(s, p).value.maxQueue >= 0
    ensures Runs(s, [Arrive(0, p), Attempt(0)]) && s' == Outcome(s, [Arrive(0, p), Attempt(0)]) && Idle(s')
    ensures s'.log == s.log + [Grant(p, s.now)] && InForce(s', p).Some? && s'.table == s.table
    ensures |InForce(s', p).value.grants| == |InForce(s, p).value.grants| + 1
    ensures InForce(s', p).value.rpm == InForce(s, p).value.rpm
    ensures InForce(s', p).value.maxQueue == InForce(s, p).value.maxQueue
  {
    var i := s.table[p];
    var l := s.limiters[i];
    assert Accounted(s, i);
    assert WaitingOn(s.tasks, i) == {};
    var gone := PrunedGrants(l, s.now);
    StepKeeps(s, Arrive(0, p));
    var mid := Next(s, Arrive(0, p));
    assert mid.limiters[i] == Enter(l) && Room(Enter(l), s.now);
    StepKeeps(mid, Attempt(0));
    s' := Next(mid, Attempt(0));
    hide Invariant;
    assert s'.tasks == map[];
    TwoSteps(s, Arrive(0, p), mid, Attempt(0), s');
  }

  lemma TwoSteps(s: System, a: Step, mid: System, b: Step, s': System)
    requires Consistent(s) && Enabled(s, a) && mid == Next(s, a) && Consistent(mid) && Enabled(mid, b)
    requires s' == Next(mid, b) && Consistent(s')
    ensures Runs(s, [a, b]) && Outcome(s, [a, b]) == s'
  {
    hide Next, Enabled, Consistent;
    assert [a, b][1..] == [b] && [b][1..] == [];
    assert Runs(s', []);
    assert Runs(mid, [b]) && Outcome(mid, [b]) == s';
  }

  /** `n` requests in a row. */
  lemma {:induction false} Fill(s: System, p: string, n: nat) returns (steps: seq<Step>)
    requires Idle(s)
    requires n > 0 ==> InForce(s, p).Some? && |InForce(s, p).value.grants| + n <= InForce(s, p).value.rpm
    requires n > 0 ==> InForce(s, p).value.maxQueue >= 0
    ensures Runs(s, steps) && Reloads(steps) == []
    ensures var s' := Outcome(s, steps);
      && Idle(s') && s'.now == s.now
      && |GrantsOf(s'.log, p)| == |GrantsOf(s.log, p)| + n && Present(s', p) == Present(s, p)
    decreases n
  {
    if n == 0 {
      steps := [];
    } else {
      var s' := PassThrough(s, p);
      var pass := [Arrive(0, p), Attempt(0)];
      LogOne(s.log, Grant(p, s.now), p);
      assert pass[1..] == [Attempt(0)] && pass[1..][1..] == [];
      var rest := Fill(s', p, n - 1);
      hide Idle, Runs, Outcome;
      RunsAppend(s, pass, rest);
      ReloadsAppend(pass, rest);
      steps := pass + rest;
    }
  }

  ghost predicate IsSchedule(schedule: seq<Step>)
  {
    forall i | 0 <= i < |schedule| :: IsReload(schedule[i])
  }

  ghost predicate IsReload(step: Step)
  {
    step.Reload? && Lists(step.names, step.providers)
  }

  function LastLevel(before: int, settings: seq<Setting>): int
  {
    if settings == [] then before else settings[|settings| - 1].level
  }

  lemma ReloadIdle(s: System, step: Step, p: string)
    requires Idle(s) && IsReload(step)
    ensures Enabled(s, step) && Consistent(s) && Present(s, p) >= 0
    ensures var s', setting := Next(s, step), SettingOf(step.providers, p);
      && Idle(s') && s'.now == s.now && s'.log == s.log && Present(s', p) == setting.level
      && (Opens(Present(s, p), setting) ==>
            && InForce(s', p).Some? && InForce(s', p).value.grants == []
            && InForce(s', p).value.rpm == setting.level && InForce(s', p).value.maxQueue >= 0)
  {
    var s' := Next(s, step);
    StepKeeps(s, step);
    ReloadLevels(s, step.names, step.providers, p);
    hide Rebuild, Accounted, SleepsWell, SumBy;
    RebuildFrame(s, step.names, step.providers);
    RebuildLists(s, step.names, step.providers, p);
    if p in s'.table {
      RebuildEntry(s, step.names, step.providers, p);
      if Keeps(s, p, step.providers[p]) {
        SameLimiter(s, s', s.table[p]);
      }
    }
  }

  lemma IdleIsConsistent(s: System, p: string)
    requires Idle(s)
    ensures Consistent(s) && Present(s, p) >= 0
  {
    PositivePresent(s, p);
  }

  /** For every schedule there is a run in which each spell grants its whole rpm at one instant. */
  lemma {:induction false} Tight(s: System, schedule: seq<Step>, p: string) returns (steps: seq<Step>)
    requires Idle(s) && IsSchedule(schedule)
    ensures Present(s, p) >= 0 && Runs(s, steps) && Reloads(steps) == schedule
    ensures var s' := Outcome(s, steps);
      && Idle(s') && s'.now == s.now
      && |GrantsOf(s'.log, p)| == |GrantsOf(s.log, p)| + Sum(Spells(Present(s, p), Settings(schedule, p)))
      && Present(s', p) == LastLevel(Present(s, p), Settings(schedule, p))
    decreases |schedule|
  {
    hide Idle, Next, Enabled, Consistent, Present, GrantsOf;
    IdleIsConsistent(s, p);
    if schedule == [] {
      steps := [];
    } else {
      var step := schedule[0];
      assert IsReload(step);
      var setting := SettingOf(step.providers, p);
      ReloadIdle(s, step, p);
      var s1 := Next(s, step);
      var fill := Fill(s1, p, if Opens(Present(s, p), setting) then setting.level else 0);
      var s2 := Outcome(s1, fill);
      var rest := Tight(s2, schedule[1..], p);
      RunsAppend(s1, fill, rest);
      ReloadsAppend(fill, rest);
      RunCons(s, step, fill + rest);
      steps := [step] + (fill + rest);
      ReloadsCons(step, fill + rest);
      assert Settings(schedule, p) == [setting] + Settings(schedule[1..], p);
      SumFirst(Present(s, p), Settings(schedule, p));
    }
  }

  lemma RunCons(s: System, step: Step, rest: seq<Step>)
    requires Consistent(s) && Enabled(s, step) && Runs(Next(s, step), rest)
    ensures Runs(s, [step] + rest) && Outcome(s, [step] + rest) == Outcome(Next(s, step), rest)
  {
    assert ([step] + rest)[1..] == rest;
  }

  lemma {:induction false} AllNow(log: seq<Grant>, p: string, now: real)
    requires forall i | 0 <= i < |log| :: log[i].at == now
    ensures CountInWindow(GrantsOf(log, p), now) == |GrantsOf(log, p)|
  {
    if log != [] {
      var front, g := log[..|log| - 1], log[|log| - 1];
      AllNow(front, p, now);
      WindowOneMore(GrantsOf(front, p), g.at, now);
    }
  }

  /** The bound is exact: some run of the schedule puts as many grants into one window as its spells add up to. */
  lemma BoundIsMet(now: real, schedule: seq<Step>, p: string) returns (steps: seq<Step>)
    requires IsSchedule(schedule)
    ensures Runs(Start(now), steps) && Reloads(steps) == schedule
    ensures var s := Outcome(Start(now), steps);
      && CountInWindow(GrantsOf(s.log, p), s.now) == Sum(Spells(0, Settings(schedule, p)))
      && Present(s, p) == LastLevel(0, Settings(schedule, p))
  {
    StartAddsUp(now, p, now);
    steps := Tight(Start(now), schedule, p);
    var s := Outcome(Start(now), steps);
    hide Outcome, Invariant;
    AllNow(s.log, p, s.now);
  }

  // ----- when the limit holds

  /** If the steps are a run with these reloads, no window that ends at `t` holds more than `bound` grants. */
  ghost predicate Within(now: real, steps: seq<Step>, schedule: seq<Step>, p: string, bound: nat, t: real)
  {
    Runs(Start(now), steps) && Reloads(steps) == schedule
    ==> CountInWindow(GrantsOf(Outcome(Start(now), steps).log, p), t) <= bound
  }

  ghost predicate LimitHolds(schedule: seq<Step>, p: string)
  {
    forall now, steps, t :: Within(now, steps, schedule, p, Highest(Spells(0, Settings(schedule, p))), t)
  }

  /** Every run of a schedule stays within the highest rpm that it gives the provider, exactly when at most one spell
      lets requests in: once limited, the provider keeps its rpm until it is no longer limited for good. */
  lemma LimitHoldsIff(schedule: seq<Step>, p: string)
    requires IsSchedule(schedule)
    ensures LimitHolds(schedule, p) <==> |Spells(0, Settings(schedule, p))| <= 1
  {
    var spells := Spells(0, Settings(schedule, p));
    var highest := Highest(spells);
    SpellSumIff(Settings(schedule, p));
    if |spells| <= 1 {
      forall now, steps, t
        ensures Within(now, steps, schedule, p, highest, t)
      {
        if Runs(Start(now), steps) && Reloads(steps) == schedule {
          SettingsOfReloads(steps, p);
          WindowBound(now, steps, p, t);
        }
      }
    } else {
      var steps := BoundIsMet(0.0, schedule, p);
      assert !Within(0.0, steps, schedule, p, highest, Outcome(Start(0.0), steps).now);
    }
  }

  function Only(p: string, rpm: int): Step
  {
    Reload([p], map[p := Config(rpm, 0)])
  }

  /** One request a minute, then two, then one again: a window that ends with one in force can hold four grants. */
  lemma ChangedRpmForgets(p: string) returns (steps: seq<Step>)
    ensures Runs(Start(0.0), steps) && Reloads(steps) == [Only(p, 1), Only(p, 2), Only(p, 1)]
    ensures var s := Outcome(Start(0.0), steps);
      Present(s, p) == 1 && CountInWindow(GrantsOf(s.log, p), s.now) == 4
  {
    var schedule := [Only(p, 1), Only(p, 2), Only(p, 1)];
    assert IsSchedule(schedule);
    ThreeLevels(schedule, p);
    steps := BoundIsMet(0.0, schedule, p);
  }

  lemma ThreeLevels(schedule: seq<Step>, p: string)
    requires schedule == [Only(p, 1), Only(p, 2), Only(p, 1)]
    ensures Settings(schedule, p) == [Setting(1, true), Setting(2, true), Setting(1, true)]
    ensures Sum(Spells(0, Settings(schedule, p))) == 4
  {
    assert schedule[1..] == [Only(p, 2), Only(p, 1)] && schedule[1..][1..] == [Only(p, 1)];
    assert schedule[1..][1..][1..] == [];
    var one, two := Setting(1, true), Setting(2, true);
    assert Settings(schedule[1..][1..], p) == [one];
    assert Settings(schedule[1..], p) == [two, one];
    var settings := [one, two, one];
    assert settings[1..] == [two, one] && settings[1..][1..] == [one] && settings[1..][1..][1..] == [];
    SumFirst(2, [one]);
    SumFirst(1, [two, one]);
    SumFirst(0, settings);
  }
}
