/** The cache of upstream model listings: one listing in flight per lock, and a listing is kept for 300 seconds. */
module CatalogFetch {
  import opened Json

  const TTL := 300.0

  /** An upstream model: its payload, a JSON object. */
  datatype CacheEntry = CacheEntry(expiresAt: real, models: seq<Dict>, modelsById: map<string, Dict>)

  /** The model's id, when it is a non-empty string. */
  function ModelId(model: Dict): Option<string>
  {
    var id := Get(model, "id");
    if id.Some? && id.value.Str? && id.value.s != "" then Some(id.value.s) else None
  }

  /** The usable models, each normalized. */
  function Usable(raw: seq<Dict>, normalize: Dict -> Dict): seq<Dict>
  {
    if raw == [] then []
    else
      var n := |raw| - 1;
      Usable(raw[..n], normalize) + if ModelId(raw[n]).Some? then [normalize(raw[n])] else []
  }

  /** The last usable model with the id. */
  function ById(raw: seq<Dict>, normalize: Dict -> Dict, id: string): Option<Dict>
  {
    if raw == [] then None
    else
      var n := |raw| - 1;
      if ModelId(raw[n]) == Some(id) then Some(normalize(raw[n])) else ById(raw[..n], normalize, id)
  }

  /** A model counts if it has an id that is a non-empty string. */
  lemma UsableTells(raw: seq<Dict>, model: Dict, normalize: Dict -> Dict, id: string)
    ensures Usable(raw + [model], normalize) ==
      Usable(raw, normalize) +
      if exists s :: Get(model, "id") == Some(Str(s)) && s != "" then [normalize(model)] else []
    ensures ById(raw + [model], normalize, id) ==
      if id != "" && Get(model, "id") == Some(Str(id)) then Some(normalize(model)) else ById(raw, normalize, id)
    ensures Usable([], normalize) == [] && ById([], normalize, id) == None
  {
    assert (raw + [model])[..|raw|] == raw;
    hide Get;
  }

  // ----- what the cache holds for one provider

  /** When the listing expires, the lock, and how many locks the provider has had; a lock is known by its number. */
  datatype Slot = Slot(expires: Option<real>, lock: Option<nat>, made: nat)

  predicate Fresh(slot: Slot, t: real)
  {
    slot.expires.Some? && slot.expires.value > t
  }

  function WithLock(slot: Slot): (r: Slot)
    ensures r.lock.Some?
  {
    if slot.lock.Some? then slot else slot.(lock := Some(slot.made), made := slot.made + 1)
  }

  function Stored(slot: Slot, t: real): Slot
  {
    slot.(expires := Some(t + TTL))
  }

  function Dropped(slot: Slot): Slot
  {
    slot.(expires := None, lock := None)
  }

  /** The two module-level dictionaries, and the numbers of the locks made so far. */
  class ModelCache {
    var cache: map<string, CacheEntry>
    var locks: map<string, nat>
    var made: map<string, nat>

    ghost function View(provider: string): Slot
      reads this
    {
      Slot(if provider in cache then Some(cache[provider].expiresAt) else None, InMap(locks, provider), Made(provider))
    }

    function Made(provider: string): nat
      reads this`made
    {
      if provider in made then made[provider] else 0
    }

    constructor ()
      ensures forall p :: View(p) == Slot(None, None, 0)
    {
      cache, locks, made := map[], map[], map[];
    }

    /** The cached listing, while it is fresh. */
    method Lookup(provider: string, now: real) returns (entry: Option<CacheEntry>)
      ensures entry.Some? <==> Fresh(View(provider), now)
      ensures entry.Some? ==> provider in cache && entry.value == cache[provider]
    {
      entry := None;
      if provider in cache {
        var cached := cache[provider];
        if cached.expiresAt > now {
          entry := Some(cached);
        }
      }
    }

    /** `setdefault`: the provider's lock, a new one if it has none. */
    method LockFor(provider: string) returns (lock: nat)
      modifies this`locks, this`made
      ensures View(provider) == WithLock(old(View(provider))) && View(provider).lock == Some(lock)
      ensures forall p | p != provider :: View(p) == old(View(p))
    {
      if provider in locks {
        lock := locks[provider];
      } else {
        lock := Made(provider);
        locks, made := locks[provider := lock], made[provider := lock + 1];
      }
    }

    /** A listing, the empty one after a failure, is kept from `now` on. */
    method Store(provider: string, raw: seq<Dict>, normalize: Dict -> Dict, now: real)
      modifies this`cache
      ensures View(provider) == Stored(old(View(provider)), now)
      ensures provider in cache && cache == old(cache)[provider := cache[provider]]
      ensures cache[provider].expiresAt == now + 300.0 && cache[provider].models == Usable(raw, normalize)
      ensures forall id :: InMap(cache[provider].modelsById, id) == ById(raw, normalize, id)
    {
      var models: seq<Dict> := [];
      var byId: map<string, Dict> := map[];
      for i := 0 to |raw|
        invariant models == Usable(raw[..i], normalize)
        invariant forall id :: InMap(byId, id) == ById(raw[..i], normalize, id)
      {
        assert raw[..i + 1][..i] == raw[..i];
        var id := ModelId(raw[i]);
        if id.Some? {
          var model := normalize(raw[i]);
          models := models + [model];
          byId := byId[id.value := model];
        }
      }
      assert raw[..|raw|] == raw;
      cache := cache[provider := CacheEntry(now + TTL, models, byId)];
    }

    /** Drops the listing and the lock of one provider, or of all. */
    method InvalidateModelCatalog(provider: Option<string>)
      modifies this`cache, this`locks
      ensures forall p | provider.None? || provider.value == p :: View(p) == Dropped(old(View(p)))
      ensures forall p | provider.Some? && provider.value != p :: View(p) == old(View(p))
    {
      if provider.None? {
        cache, locks := map[], map[];
      } else {
        cache, locks := cache - {provider.value}, locks - {provider.value};
      }
    }
  }

  // ----- the callers of one provider as a state machine

  /** A caller waits for a lock, or holds it while the upstream listing is in flight. */
  datatype Caller = Waiting(lock: nat) | Fetching(lock: nat)

  /** What the cache holds for the provider, and the callers under way. History: `met` counts the invalidations that met
      a caller holding or awaiting the lock they dropped, `stores` are the times of the listings stored since the last
      invalidation, `starts` and `finishes` those of all listings. */
  datatype State = State(
    now: real, slot: Slot, callers: map<nat, Caller>, met: nat, stores: seq<real>, starts: seq<real>,
      finishes: seq<real>)

  const START := State(0.0, Slot(None, None, 0), map[], 0, [], [], [])

  /** A caller asks, gets the lock, has its listing stored, or is cancelled; or the cache is invalidated. */
  datatype Event =
    | Call(id: nat, at: real)
    | Acquire(id: nat, at: real)
    | Finish(id: nat, at: real)
    | Abandon(id: nat, at: real)
    | Invalidate(at: real)

  predicate Holds(s: State, id: nat, lock: nat)
  {
    id in s.callers && s.callers[id] == Fetching(lock)
  }

  ghost predicate Enabled(s: State, e: Event)
  {
    && s.now <= e.at
    && match e
      case Call(id, _) => id !in s.callers
      case Acquire(id, _) =>
        id in s.callers && s.callers[id].Waiting? && forall other :: !Holds(s, other, s.callers[id].lock)
      case Finish(id, _) => id in s.callers && s.callers[id].Fetching?
      case Abandon(id, _) => id in s.callers
      case Invalidate(_) => true
  }

  /** Some caller holds or awaits the provider's present lock. */
  ghost predicate InUse(s: State)
  {
    exists id :: id in s.callers && s.slot.lock == Some(s.callers[id].lock)
  }

  ghost function Next(s: State, e: Event): State
    requires Enabled(s, e)
  {
    match e
    case Call(id, t) =>
      if Fresh(s.slot, t) then s.(now := t)
      else
        var slot := WithLock(s.slot);
        s.(now := t, slot := slot, callers := s.callers[id := Waiting(slot.lock.value)])
    case Acquire(id, t) =>
      if Fresh(s.slot, t) then s.(now := t, callers := s.callers - {id})
      else s.(now := t, callers := s.callers[id := Fetching(s.callers[id].lock)], starts := s.starts + [t])
    case Finish(id, t) =>
      s.(now := t, callers := s.callers - {id}, slot := Stored(s.slot, t), stores := s.stores + [t],
         finishes := s.finishes + [t])
    case Abandon(id, t) => s.(now := t, callers := s.callers - {id})
    case Invalidate(t) => s.(now := t, slot := Dropped(s.slot), stores := [],
                              met := s.met + if InUse(s) then 1 else 0)
  }

  ghost predicate ValidRun(s: State, events: seq<Event>)
    decreases |events|
  {
    events != [] ==> Enabled(s, events[0]) && ValidRun(Next(s, events[0]), events[1..])
  }

  ghost function Run(s: State, events: seq<Event>): State
    requires ValidRun(s, events)
    decreases |events|
  {
    if events == [] then s else Run(Next(s, events[0]), events[1..])
  }

  // ----- one listing per lock

  /** The locks in use that the provider no longer has. */
  ghost function Stale(s: State): set<nat>
  {
    set id | id in s.callers && s.slot.lock != Some(s.callers[id].lock) :: s.callers[id].lock
  }

  ghost predicate LocksMade(s: State)
  {
    && (s.slot.lock.Some? ==> s.slot.lock.value < s.slot.made)
    && (forall id :: id in s.callers ==> s.callers[id].lock < s.slot.made)
  }

  ghost predicate OneHolder(s: State)
  {
    forall i, j, lock :: Holds(s, i, lock) && Holds(s, j, lock) ==> i == j
  }

  /** The cache is the last listing stored since the last invalidation. */
  ghost predicate Kept(s: State)
  {
    && (s.slot.expires.Some? <==> s.stores != [])
    && (s.slot.expires.Some? ==> forall f :: f in s.stores ==> f + TTL <= s.slot.expires.value)
    && (s.slot.expires.Some? ==> s.stores[|s.stores| - 1] + TTL == s.slot.expires.value <= s.now + TTL)
  }

  ghost predicate Invariant(s: State)
  {
    LocksMade(s) && OneHolder(s) && Kept(s) && |Stale(s)| <= s.met
  }

  lemma HolderKept(s: State, e: Event)
    requires OneHolder(s) && Enabled(s, e)
    ensures OneHolder(Next(s, e))
  {
    var t := Next(s, e);
    forall i, j, lock | Holds(t, i, lock) && Holds(t, j, lock)
      ensures i == j
    {
      if e.Acquire? && i == e.id {
        assert i != j ==> Holds(s, j, lock);
      } else if e.Acquire? && j == e.id {
        assert i != j ==> Holds(s, i, lock);
      } else {
        assert Holds(s, i, lock) && Holds(s, j, lock);
      }
    }
  }

  /** A lock goes stale only when an invalidation meets a caller that holds or awaits it. */
  lemma StaleStep(s: State, e: Event)
    requires LocksMade(s) && Enabled(s, e)
    ensures Stale(Next(s, e)) <= Stale(s) + if e.Invalidate? && InUse(s) then {s.slot.lock.value} else {}
  {
  }

  lemma StaleCount(s: State, e: Event)
    requires LocksMade(s) && Enabled(s, e) && |Stale(s)| <= s.met
    ensures |Stale(Next(s, e))| <= Next(s, e).met
  {
    StaleStep(s, e);
    Subset(Stale(Next(s, e)), Stale(s) + if e.Invalidate? && InUse(s) then {s.slot.lock.value} else {});
  }

  lemma {:induction false} Subset<T>(a: set<T>, b: set<T>)
    requires a <= b
    ensures |a| <= |b|
  {
    if x :| x in a {
      Subset(a - {x}, b - {x});
    }
  }

  lemma StepKeeps(s: State, e: Event)
    requires Invariant(s) && Enabled(s, e)
    ensures Invariant(Next(s, e))
  {
    HolderKept(s, e);
    StaleCount(s, e);
    hide OneHolder, Stale;
  }

  lemma {:induction false} RunKeeps(s: State, events: seq<Event>)
    requires Invariant(s) && ValidRun(s, events)
    ensures Invariant(Run(s, events))
    decreases |events|
  {
    hide Invariant, Next, Enabled;
    if events != [] {
      StepKeeps(s, events[0]);
      RunKeeps(Next(s, events[0]), events[1..]);
    }
  }

  ghost function InFlight(s: State): set<nat>
  {
    set id | id in s.callers && s.callers[id].Fetching?
  }

  /** As many holders as locks at most. */
  lemma {:induction false} HoldersFitLocks(s: State, holders: set<nat>, locks: set<nat>)
    requires OneHolder(s) && holders <= InFlight(s) && forall id :: id in holders ==> s.callers[id].lock in locks
    ensures |holders| <= |locks|
  {
    if id :| id in holders {
      var lock := s.callers[id].lock;
      assert Holds(s, id, lock);
      forall other | other in holders - {id}
        ensures s.callers[other].lock in locks - {lock}
      {
        assert Holds(s, other, s.callers[other].lock);
      }
      HoldersFitLocks(s, holders - {id}, locks - {lock});
    }
  }

  lemma FlightsFitLocks(s: State)
    requires OneHolder(s)
    ensures |InFlight(s)| <= |Stale(s)| + 1
  {
    HoldersFitLocks(s, InFlight(s), Stale(s) + if s.slot.lock.Some? then {s.slot.lock.value} else {});
  }

  /** In every interleaving of callers, cancellations and invalidations, the listings in flight are at most one more
      than the invalidations that met a caller holding or awaiting the lock: one at a time while there are none. */
  lemma SingleFlight(events: seq<Event>)
    requires ValidRun(START, events)
    ensures var s := Run(START, events); OneHolder(s) && |InFlight(s)| <= s.met + 1
  {
    RunKeeps(START, events);
    FlightsFitLocks(Run(START, events));
  }

  /** A listing starts 300 seconds or more after every listing stored since the last invalidation, failed ones included
      and whatever was cancelled. */
  lemma StartsAreSpaced(events: seq<Event>, e: Event)
    requires ValidRun(START, events) && e.Acquire? && Enabled(Run(START, events), e)
    ensures var s := Run(START, events);
      |Next(s, e).starts| == |s.starts| + 1 <==> forall f :: f in s.stores ==> f + 300.0 <= e.at
  {
    hide ValidRun, Run;
    RunKeeps(START, events);
    var s := Run(START, events);
    if s.stores != [] {
      assert s.stores[|s.stores| - 1] in s.stores;
    }
  }

  // ----- runs without invalidation or cancellation

  predicate Undisturbed(events: seq<Event>)
  {
    forall e | e in events :: !e.Invalidate? && !e.Abandon?
  }

  /** Each listing finishes before the next starts, 300 seconds later or more. */
  ghost predicate Spaced(starts: seq<real>, finishes: seq<real>)
  {
    && |finishes| <= |starts| <= |finishes| + 1
    && (forall k | 0 <= k < |finishes| :: starts[k] <= finishes[k])
    && (forall k | 0 <= k < |finishes| && k + 1 < |starts| :: finishes[k] + 300.0 <= starts[k + 1])
  }

  lemma SpacedStart(starts: seq<real>, finishes: seq<real>, t: real)
    requires Spaced(starts, finishes) && |starts| == |finishes|
    requires finishes != [] ==> finishes[|finishes| - 1] + 300.0 <= t
    ensures Spaced(starts + [t], finishes)
  {
  }

  lemma SpacedFinish(starts: seq<real>, finishes: seq<real>, t: real)
    requires Spaced(starts, finishes) && |starts| == |finishes| + 1 && starts[|starts| - 1] <= t
    ensures Spaced(starts, finishes + [t])
  {
  }

  ghost predicate Alternating(s: State)
  {
    && s.stores == s.finishes
    && |s.starts| == |s.finishes| + |InFlight(s)|
    && Spaced(s.starts, s.finishes)
    && (s.starts != [] ==> s.starts[|s.starts| - 1] <= s.now)
    && (forall id :: id in s.callers ==> s.slot.lock == Some(s.callers[id].lock))
  }

  lemma HolderIsInFlight(s: State, id: nat)
    requires Alternating(s) && id in s.callers && s.callers[id].Waiting? && |InFlight(s)| > 0
    ensures exists other :: Holds(s, other, s.callers[id].lock)
  {
    var other :| other in InFlight(s);
    assert Holds(s, other, s.callers[other].lock);
  }

  lemma AcquireFlight(s: State, id: nat, at: real)
    requires Enabled(s, Acquire(id, at))
    ensures |InFlight(Next(s, Acquire(id, at)))| == |InFlight(s)| + if Fresh(s.slot, at) then 0 else 1
  {
    var t := Next(s, Acquire(id, at));
    if Fresh(s.slot, at) {
      assert InFlight(t) == InFlight(s);
    } else {
      assert InFlight(t) == InFlight(s) + {id};
    }
  }

  lemma AcquireAlternates(s: State, id: nat, at: real)
    requires Kept(s) && Alternating(s) && Enabled(s, Acquire(id, at))
    ensures Alternating(Next(s, Acquire(id, at)))
  {
    hide Spaced, InFlight;
    AcquireFlight(s, id, at);
    if |InFlight(s)| > 0 {
      HolderIsInFlight(s, id);
    }
    if !Fresh(s.slot, at) {
      if s.finishes != [] {
        assert s.finishes[|s.finishes| - 1] in s.stores;
      }
      SpacedStart(s.starts, s.finishes, at);
    }
  }

  lemma FinishAlternates(s: State, id: nat, at: real)
    requires Alternating(s) && Enabled(s, Finish(id, at))
    ensures Alternating(Next(s, Finish(id, at)))
  {
    var t := Next(s, Finish(id, at));
    assert id in InFlight(s);
    assert InFlight(t) == InFlight(s) - {id};
    SpacedFinish(s.starts, s.finishes, at);
    hide Spaced;
  }

  lemma StepAlternates(s: State, e: Event)
    requires Invariant(s) && Alternating(s) && Enabled(s, e) && !e.Invalidate? && !e.Abandon?
    ensures Alternating(Next(s, e))
  {
    hide OneHolder, LocksMade;
    match e
    case Call(id, _) =>
      assert InFlight(Next(s, e)) == InFlight(s);
    case Acquire(id, at) => AcquireAlternates(s, id, at);
    case Finish(id, at) => FinishAlternates(s, id, at);
  }

  lemma {:induction false} RunAlternates(s: State, events: seq<Event>)
    requires Invariant(s) && Alternating(s) && ValidRun(s, events) && Undisturbed(events)
    ensures Alternating(Run(s, events))
    decreases |events|
  {
    hide Invariant, Next, Enabled, Alternating;
    if events != [] {
      assert events[0] in events;
      StepKeeps(s, events[0]);
      StepAlternates(s, events[0]);
      RunAlternates(Next(s, events[0]), events[1..]);
    }
  }

  /** Without invalidation and cancellation: one listing in flight at most, and each starts 300 seconds or more after
      the one before has finished, whether that succeeded or failed. */
  lemma OneListingPerTtl(events: seq<Event>)
    requires ValidRun(START, events) && Undisturbed(events)
    ensures var s := Run(START, events); |InFlight(s)| == |s.starts| - |s.finishes| <= 1 && Spaced(s.starts, s.finishes)
  {
    hide ValidRun, Run, Undisturbed;
    assert InFlight(START) == {};
    RunAlternates(START, events);
  }

  // ----- which invalidations let listings overlap

  predicate Uninvalidated(events: seq<Event>)
  {
    forall e | e in events :: !e.Invalidate?
  }

  /** Some continuation without a further invalidation has two listings in flight. */
  ghost predicate CanOverlap(s: State)
  {
    exists events :: ValidRun(s, events) && Uninvalidated(events) && |InFlight(Run(s, events))| >= 2
  }

  lemma {:induction false} StaleRun(s: State, events: seq<Event>)
    requires Invariant(s) && Stale(s) == {} && ValidRun(s, events) && Uninvalidated(events)
    ensures Invariant(Run(s, events)) && Stale(Run(s, events)) == {}
    decreases |events|
  {
    hide Invariant, Next, Enabled, Stale;
    if events != [] {
      assert events[0] in events;
      StepKeeps(s, events[0]);
      NoneStale(s, events[0]);
      StaleRun(Next(s, events[0]), events[1..]);
    }
  }

  lemma NoneStale(s: State, e: Event)
    requires Invariant(s) && Enabled(s, e) && Stale(s) == {} && !e.Invalidate?
    ensures Stale(Next(s, e)) == {}
  {
    StaleStep(s, e);
  }

  /** While every lock in use is the provider's own, an invalidation lets two listings overlap exactly when some caller
      holds or awaits that lock. */
  lemma InvalidationOverlapsIff(s: State, t: real)
    requires Invariant(s) && Stale(s) == {} && s.now <= t
    ensures CanOverlap(Next(s, Invalidate(t))) <==> InUse(s)
  {
    var s' := Next(s, Invalidate(t));
    StepKeeps(s, Invalidate(t));
    if InUse(s) {
      var id :| id in s.callers && s.slot.lock == Some(s.callers[id].lock);
      LetOverlap(s', id, t);
    } else {
      StaleStep(s, Invalidate(t));
      forall events | ValidRun(s', events) && Uninvalidated(events)
        ensures |InFlight(Run(s', events))| <= 1
      {
        StaleRun(s', events);
        FlightsFitLocks(Run(s', events));
      }
    }
  }

  /** Right after an invalidation, any caller under way can come to overlap with a new one. */
  lemma LetOverlap(s: State, id: nat, t: real)
    requires Invariant(s) && s.slot.expires == None && s.slot.lock == None && s.now == t && id in s.callers
    ensures CanOverlap(s)
  {
    if other :| Holds(s, other, s.callers[id].lock) {
      JoinFlight(s, other, t);
      var events := Join(s, t);
      assert Uninvalidated(events);
    } else {
      assert s.callers[id].Fetching? ==> Holds(s, id, s.callers[id].lock);
      var s' := Next(s, Acquire(id, t));
      JoinFlight(s', id, t);
      var events := [Acquire(id, t)] + Join(s', t);
      OneStep(s, s', events);
      assert Uninvalidated(events);
    }
  }

  /** A caller that has not asked yet asks and gets a lock of its own. */
  ghost function Join(s: State, t: real): seq<Event>
  {
    var newcomer := NewId(s.callers);
    [Call(newcomer, t), Acquire(newcomer, t)]
  }

  ghost function NewId(callers: map<nat, Caller>): (id: nat)
    ensures id !in callers
  {
    SomeNew(callers.Keys);
    var id :| id !in callers;
    id
  }

  lemma SomeNew(ids: set<nat>)
    ensures exists id: nat :: id !in ids
  {
    var id := AboveAll(ids);
    assert id !in ids;
  }

  lemma {:induction false} AboveAll(ids: set<nat>) returns (bound: nat)
    ensures forall id | id in ids :: id < bound
  {
    bound := 0;
    if x :| x in ids {
      var rest := AboveAll(ids - {x});
      bound := if rest <= x then x + 1 else rest;
      forall id | id in ids
        ensures id < bound
      {
        assert id == x || id in ids - {x};
      }
    }
  }

  lemma JoinFlight(s: State, id: nat, t: real)
    requires LocksMade(s) && s.slot.expires == None && s.slot.lock == None && s.now == t
    requires id in s.callers && s.callers[id].Fetching?
    ensures ValidRun(s, Join(s, t)) && |InFlight(Run(s, Join(s, t)))| >= 2
  {
    var newcomer := NewId(s.callers);
    var s1 := Next(s, Call(newcomer, t));
    assert forall other :: !Holds(s1, other, s1.callers[newcomer].lock);
    var s2 := Next(s1, Acquire(newcomer, t));
    OneStep(s2, s2, []);
    OneStep(s1, s2, [Acquire(newcomer, t)]);
    OneStep(s, s1, Join(s, t));
    Subset({id, newcomer}, InFlight(s2));
  }

  /** One run: the invalidation drops the lock with the cache, and a second listing starts beside the first. */
  lemma InvalidationOverlaps(t: real)
    requires 0.0 <= t
    ensures var events := [Call(0, t), Acquire(0, t), Invalidate(t), Call(1, t), Acquire(1, t)];
      ValidRun(START, events) && Run(START, events).starts == [t, t] && InFlight(Run(START, events)) == {0, 1}
  {
    var s1 := Next(START, Call(0, t));
    var s2 := Next(s1, Acquire(0, t));
    var s3 := Next(s2, Invalidate(t));
    var s4 := Next(s3, Call(1, t));
    var s5 := Next(s4, Acquire(1, t));
    OneStep(s5, s5, []);
    OneStep(s4, s5, [Acquire(1, t)]);
    OneStep(s3, s4, [Call(1, t), Acquire(1, t)]);
    OneStep(s2, s3, [Invalidate(t), Call(1, t), Acquire(1, t)]);
    OneStep(s1, s2, [Acquire(0, t), Invalidate(t), Call(1, t), Acquire(1, t)]);
    OneStep(START, s1, [Call(0, t), Acquire(0, t), Invalidate(t), Call(1, t), Acquire(1, t)]);
  }

  lemma OneStep(s: State, next: State, events: seq<Event>)
    requires events != [] ==> Enabled(s, events[0]) && next == Next(s, events[0]) && ValidRun(next, events[1..])
    ensures ValidRun(s, events) && (Run(s, events) == if events == [] then s else Run(next, events[1..]))
  {
  }
}
