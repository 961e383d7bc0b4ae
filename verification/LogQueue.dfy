/** The log queue and its flush loop: what is accepted, what is written, and what a failure or a shutdown can lose. */
module LogQueue {

  /** A log entry; `id` is the primary key of the table. */
  datatype Entry = Entry(id: string, content: string)

  const CAPACITY := 10000

  /** How many entries a batch takes from a queue: at least one, at most `batchSize`. */
  function BatchLength(queue: seq<Entry>, batchSize: int): (n: nat)
    requires queue != []
    ensures 1 <= n <= |queue|
  {
    if batchSize <= 1 then 1 else if batchSize < |queue| then batchSize else |queue|
  }

  // ----- the service as a state machine

  /** What the flush task is waiting for. While closing, the first `written` entries are in the table already. */
  datatype Phase =
    | Created
    | Waiting
    | Writing(batch: seq<Entry>)
    | Closing(last: seq<Entry>, written: nat)
    | Stopped

  /** A finished batch: whether its last write raised, and how many of its leading entries are in the table. */
  datatype Attempt = Attempt(entries: seq<Entry>, raised: bool, written: nat)

  /** `accepted`, `attempts`, `started` and `stoppedAt` are history: the entries let into the queue, the batches
      finished, whether the task reached its loop, and how many entries had been let in when it left the loop or was
      cancelled. */
  datatype State = State(
    queue: seq<Entry>, phase: Phase, table: seq<Entry>,
    accepted: seq<Entry>, attempts: seq<Attempt>, started: bool, stoppedAt: nat)

  const START := State([], Created, [], [], [], false, 0)

  /** `Begin` is the task's first step; without a database it returns at once. `Finish(raised, committed)` ends a write;
      a write can raise although the database has committed it. `Cancel(committed)` interrupts the task, before its
      first step, while it waits, or in the middle of a write. */
  datatype Event =
    | Enqueue(entry: Entry)
    | Begin(engine: bool)
    | Take
    | Finish(raised: bool, committed: bool)
    | Cancel(committed: bool)

  ghost predicate DistinctIds(rows: seq<Entry>)
  {
    forall i, j | 0 <= i < j < |rows| :: rows[i].id != rows[j].id
  }

  /** The table takes a batch as a whole or not at all, and its primary key admits no id twice. */
  ghost predicate Admits(table: seq<Entry>, batch: seq<Entry>)
  {
    DistinctIds(table + batch)
  }

  /** The entries in the hands of the task. */
  function Current(phase: Phase): seq<Entry>
  {
    match phase
    case Writing(batch) => batch
    case Closing(last, _) => last
    case _ => []
  }

  ghost predicate Enabled(s: State, e: Event)
  {
    match e
    case Enqueue(_) => true
    case Begin(_) => s.phase.Created?
    case Take => s.phase.Waiting? && s.queue != []
    case Finish(raised, committed) =>
      && (s.phase.Writing? || s.phase.Closing?)
      && (!raised ==> committed)
      && (committed ==> Admits(s.table, Current(s.phase)))
    case Cancel(committed) =>
      && (s.phase.Created? || s.phase.Waiting? || s.phase.Writing?)
      && (committed ==> s.phase.Writing? && Admits(s.table, s.phase.batch))
  }

  /** A queue takes an entry unless it is full. */
  function Offer(queue: seq<Entry>, entry: Entry): seq<Entry>
  {
    if |queue| < CAPACITY then queue + [entry] else queue
  }

  ghost function Next(s: State, e: Event, batchSize: int): State
    requires Enabled(s, e)
  {
    match e
    case Enqueue(entry) =>
      var queue := Offer(s.queue, entry);
      s.(queue := queue, accepted := if queue == s.queue then s.accepted else s.accepted + [entry])
    case Begin(engine) =>
      if engine then s.(phase := Waiting, started := true) else s.(phase := Stopped, stoppedAt := |s.accepted|)
    case Take =>
      var n := BatchLength(s.queue, batchSize);
      s.(queue := s.queue[n..], phase := Writing(s.queue[..n]))
    case Finish(raised, committed) =>
      var batch := Current(s.phase);
      var before := if s.phase.Writing? then 0 else s.phase.written;
      s.(phase := if s.phase.Writing? then Waiting else Stopped,
         table := if committed then s.table + batch else s.table,
         attempts := s.attempts + [Attempt(batch, raised, if committed then |batch| else before)])
    case Cancel(committed) =>
      if s.phase.Created? then s.(phase := Stopped, stoppedAt := |s.accepted|)
      else
        var batch := Current(s.phase);
        var last := batch + s.queue;
        s.(queue := [],
           phase := if last == [] then Stopped else Closing(last, if committed then |batch| else 0),
           table := if committed then s.table + batch else s.table,
           stoppedAt := |s.accepted|)
  }

  /** The queue and the task's local list of entries, with the state they stand for. */
  class Service {
    var queue: seq<Entry>
    var entries: seq<Entry>
    const batchSize: int
    ghost var state: State

    ghost predicate Valid()
      reads this
    {
      queue == state.queue && entries == Current(state.phase)
    }

    constructor (batchSize: int)
      ensures Valid() && state == START && this.batchSize == batchSize
    {
      queue, entries, state := [], [], START;
      this.batchSize := batchSize;
    }

    method EnqueueLog(entry: Entry) returns (accepted: bool)
      requires Valid()
      modifies `queue, `state
      ensures Valid() && state == Next(old(state), Enqueue(entry), batchSize)
      ensures accepted <==> |old(queue)| < 10000
      ensures queue == if accepted then old(queue) + [entry] else old(queue)
    {
      accepted := |queue| < CAPACITY;
      state := Next(state, Enqueue(entry), batchSize);
      if accepted {
        queue := queue + [entry];
      }
    }

    /** The task's first step. */
    method EnterLoop(engine: bool) returns (running: bool)
      requires Valid() && state.phase.Created?
      modifies `state
      ensures Valid() && running == engine && state == Next(old(state), Begin(engine), batchSize)
    {
      state := Next(state, Begin(engine), batchSize);
      running := engine;
    }

    /** The first entry, then whatever is there without waiting, up to the batch size. */
    method CollectBatch()
      requires Valid() && Enabled(state, Take)
      modifies `queue, `entries, `state
      ensures Valid() && state == Next(old(state), Take, batchSize)
      ensures entries + queue == old(queue) && |entries| >= 1
      ensures |entries| == 1 || |entries| <= batchSize
      ensures queue != [] ==> |entries| >= batchSize
    {
      state := Next(state, Take, batchSize);
      entries := [queue[0]];
      queue := queue[1..];
      while |entries| < batchSize && queue != []
        invariant 1 <= |entries| <= |old(queue)| && (|entries| == 1 || |entries| <= batchSize)
        invariant entries == old(queue)[..|entries|] && queue == old(queue)[|entries|..]
        modifies `queue, `entries
        decreases |queue|
      {
        entries := entries + [queue[0]];
        queue := queue[1..];
      }
    }

    /** The write is over, one way or the other; the loop goes on with an empty list, or the task is done. */
    method EndWrite(ghost raised: bool, ghost committed: bool)
      requires Valid() && Enabled(state, Finish(raised, committed))
      modifies `entries, `state
      ensures Valid() && state == Next(old(state), Finish(raised, committed), batchSize)
    {
      state := Next(state, Finish(raised, committed), batchSize);
      entries := [];
    }

    /** A cancellation inside the loop: everything queued joins the batch at hand, and is to be written if there is
        any. */
    method DrainQueue(ghost committed: bool) returns (write: bool)
      requires Valid() && Enabled(state, Cancel(committed)) && !state.phase.Created?
      modifies `queue, `entries, `state
      ensures Valid() && state == Next(old(state), Cancel(committed), batchSize) && write == state.phase.Closing?
      ensures queue == [] && entries == old(entries) + old(queue) && (write <==> entries != [])
    {
      state := Next(state, Cancel(committed), batchSize);
      while queue != []
        invariant entries + queue == old(entries) + old(queue)
        modifies `queue, `entries
        decreases |queue|
      {
        MoveFirst(entries, queue);
        entries := entries + [queue[0]];
        queue := queue[1..];
      }
      NothingLeft(entries);
      write := entries != [];
    }
  }

  lemma MoveFirst<T>(done: seq<T>, queue: seq<T>)
    requires queue != []
    ensures done + [queue[0]] + queue[1..] == done + queue
  {
  }

  lemma NothingLeft<T>(done: seq<T>)
    ensures done + [] == done
  {
  }

  ghost predicate ValidRun(s: State, events: seq<Event>, batchSize: int)
    decreases |events|
  {
    events != [] ==> Enabled(s, events[0]) && ValidRun(Next(s, events[0], batchSize), events[1..], batchSize)
  }

  ghost function Run(s: State, events: seq<Event>, batchSize: int): State
    requires ValidRun(s, events, batchSize)
    decreases |events|
  {
    if events == [] then s else Run(Next(s, events[0], batchSize), events[1..], batchSize)
  }

  // ----- what holds on every run

  /** The entries of the finished batches, one batch after the other. */
  function Finished(attempts: seq<Attempt>): seq<Entry>
  {
    if attempts == [] then [] else Finished(attempts[..|attempts| - 1]) + attempts[|attempts| - 1].entries
  }

  predicate Sound(a: Attempt)
  {
    a.written <= |a.entries| && (!a.raised ==> a.written == |a.entries|)
  }

  /** The part of the finished batches that is in the table. */
  function Written(attempts: seq<Attempt>): seq<Entry>
    requires forall a | a in attempts :: Sound(a)
  {
    if attempts == [] then []
    else
      var a := attempts[|attempts| - 1];
      assert Sound(a);
      Written(attempts[..|attempts| - 1]) + a.entries[..a.written]
  }

  function CurrentWritten(phase: Phase): seq<Entry>
  {
    if phase.Closing? && phase.written <= |phase.last| then phase.last[..phase.written] else []
  }

  ghost predicate Invariant(s: State)
  {
    && |s.queue| <= CAPACITY
    && (forall a | a in s.attempts :: Sound(a))
    && (s.phase.Created? ==> s.attempts == [] && !s.started)
    && (s.phase.Writing? ==> s.phase.batch != [])
    && (s.phase.Closing? ==> s.phase.last != [] && s.phase.written <= |s.phase.last|)
    && s.accepted == Finished(s.attempts) + Current(s.phase) + s.queue
    && s.table == Written(s.attempts) + CurrentWritten(s.phase)
    && DistinctIds(s.table)
    && Counted(s)
  }

  /** What had been accepted at the end of the loop is what was finished or is being written, if there was a loop. */
  ghost predicate Counted(s: State)
  {
    && (s.phase.Closing? ==> |Finished(s.attempts)| + |Current(s.phase)| == s.stoppedAt)
    && (s.phase.Stopped? ==> |Finished(s.attempts)| <= s.stoppedAt <= |s.accepted|)
    && (s.phase.Stopped? && s.started ==> |Finished(s.attempts)| == s.stoppedAt)
    && (s.phase.Waiting? || s.phase.Writing? || s.phase.Closing? ==> s.started)
  }

  lemma FinishedSnoc(attempts: seq<Attempt>, a: Attempt)
    ensures Finished(attempts + [a]) == Finished(attempts) + a.entries
  {
    assert (attempts + [a])[..|attempts|] == attempts;
  }

  lemma WrittenSnoc(attempts: seq<Attempt>, a: Attempt)
    requires (forall b | b in attempts :: Sound(b)) && Sound(a)
    ensures Written(attempts + [a]) == Written(attempts) + a.entries[..a.written]
  {
    assert (attempts + [a])[..|attempts|] == attempts;
  }

  lemma WholeBatch(batch: seq<Entry>)
    ensures batch[..|batch|] == batch && batch[..0] == []
  {
  }

  lemma TwiceWritten(table: seq<Entry>, last: seq<Entry>, written: nat)
    requires 0 < written <= |last|
    ensures !Admits(table + last[..written], last)
  {
    var rows := table + last[..written] + last;
    assert rows[|table|] == last[0];
    assert rows[|table| + written] == last[0];
  }

  lemma StepKeeps(s: State, e: Event, batchSize: int)
    requires Invariant(s) && Enabled(s, e)
    ensures Invariant(Next(s, e, batchSize))
  {
    match e
    case Enqueue(entry) =>
      assert s.accepted + [entry] == Finished(s.attempts) + Current(s.phase) + (s.queue + [entry]);
    case Begin(_) =>
    case Take => TakeKeeps(s, batchSize);
    case Finish(raised, committed) => FinishKeeps(s, raised, committed, batchSize);
    case Cancel(committed) => CancelKeeps(s, committed, batchSize);
  }

  lemma TakeKeeps(s: State, batchSize: int)
    requires Invariant(s) && Enabled(s, Take)
    ensures Invariant(Next(s, Take, batchSize))
  {
    var n := BatchLength(s.queue, batchSize);
    assert Finished(s.attempts) + [] + s.queue == Finished(s.attempts) + s.queue[..n] + s.queue[n..];
  }

  lemma FinishKeeps(s: State, raised: bool, committed: bool, batchSize: int)
    requires Invariant(s) && Enabled(s, Finish(raised, committed))
    ensures Invariant(Next(s, Finish(raised, committed), batchSize))
  {
    hide DistinctIds, Finished, Written;
    var batch := Current(s.phase);
    var before := if s.phase.Writing? then 0 else s.phase.written;
    var a := Attempt(batch, raised, if committed then |batch| else before);
    if s.phase.Closing? && committed && before > 0 {
      TwiceWritten(Written(s.attempts), batch, before);
      assert false;
    }
    FinishedSnoc(s.attempts, a);
    WrittenSnoc(s.attempts, a);
    WholeBatch(batch);
    FinishParts(Finished(s.attempts), Written(s.attempts), batch, s.queue);
  }

  lemma FinishParts(finished: seq<Entry>, written: seq<Entry>, batch: seq<Entry>, queue: seq<Entry>)
    ensures finished + batch + [] + queue == finished + batch + queue && |finished + batch| == |finished| + |batch|
    ensures written + [] + batch == written + batch + [] && written + [] + [] == written
  {
  }

  lemma CancelKeeps(s: State, committed: bool, batchSize: int)
    requires Invariant(s) && Enabled(s, Cancel(committed))
    ensures Invariant(Next(s, Cancel(committed), batchSize))
  {
    hide DistinctIds, Finished, Written;
    var batch := Current(s.phase);
    CancelParts(Finished(s.attempts), Written(s.attempts), batch, s.queue);
    WholeBatch(batch + s.queue);
    if s.phase.Created? || batch + s.queue == [] {
      NothingLeft(Finished(s.attempts));
    }
  }

  lemma CancelParts(finished: seq<Entry>, written: seq<Entry>, batch: seq<Entry>, queue: seq<Entry>)
    ensures finished + batch + queue == finished + (batch + queue) + [] && |finished + batch| == |finished| + |batch|
    ensures (batch + queue)[..|batch|] == batch && written + [] + batch == written + batch
    ensures batch + queue == [] <==> batch == [] && queue == []
  {
  }

  lemma {:induction false} RunKeeps(s: State, events: seq<Event>, batchSize: int)
    requires Invariant(s) && ValidRun(s, events, batchSize)
    ensures Invariant(Run(s, events, batchSize))
    decreases |events|
  {
    hide Invariant, Next, Enabled;
    if events != [] {
      StepKeeps(s, events[0], batchSize);
      RunKeeps(Next(s, events[0], batchSize), events[1..], batchSize);
    }
  }

  lemma FromStart(events: seq<Event>, batchSize: int)
    requires ValidRun(START, events, batchSize)
    ensures Invariant(Run(START, events, batchSize))
  {
    hide Next, Enabled;
    RunKeeps(START, events, batchSize);
  }

  /** On every run the accepted entries are, in order, the finished batches, the batch at hand and the queue; the table
      is, in order, the written parts of those batches, and holds no id twice. */
  lemma Conservation(events: seq<Event>, batchSize: int)
    requires ValidRun(START, events, batchSize)
    ensures var s := Run(START, events, batchSize);
      && s.accepted == Finished(s.attempts) + Current(s.phase) + s.queue
      && (forall a | a in s.attempts :: Sound(a))
      && s.table == Written(s.attempts) + CurrentWritten(s.phase)
      && DistinctIds(s.table)
  {
    hide Next, Enabled, ValidRun, Run;
    FromStart(events, batchSize);
  }

  ghost predicate Lost(a: Attempt, entry: Entry)
  {
    a.raised && a.written <= |a.entries| && entry in a.entries[a.written..]
  }

  lemma {:induction false} WrittenOrLost(attempts: seq<Attempt>, entry: Entry)
    requires (forall a | a in attempts :: Sound(a)) && entry in Finished(attempts)
    ensures entry in Written(attempts) || exists a :: a in attempts && Lost(a, entry)
  {
    var n := |attempts| - 1;
    var a := attempts[n];
    assert Sound(a);
    if entry in a.entries {
      assert a.entries == a.entries[..a.written] + a.entries[a.written..];
    } else {
      WrittenOrLost(attempts[..n], entry);
    }
  }

  /** Every accepted entry is in the table, still under way, or in the unwritten part of a batch whose write raised. */
  lemma LostOnlyInRaisedBatch(events: seq<Event>, batchSize: int, entry: Entry)
    requires ValidRun(START, events, batchSize) && entry in Run(START, events, batchSize).accepted
    ensures var s := Run(START, events, batchSize);
      entry in s.table || entry in Current(s.phase) || entry in s.queue || exists a :: a in s.attempts && Lost(a, entry)
  {
    hide Next, Enabled, ValidRun, Run, Lost;
    Conservation(events, batchSize);
    var s := Run(START, events, batchSize);
    if entry in Finished(s.attempts) {
      WrittenOrLost(s.attempts, entry);
    }
  }

  predicate FullyWritten(attempts: seq<Attempt>)
  {
    forall a | a in attempts :: a.written == |a.entries|
  }

  lemma {:induction false} WrittenLength(attempts: seq<Attempt>)
    requires forall a | a in attempts :: Sound(a)
    ensures |Written(attempts)| <= |Finished(attempts)|
    ensures |Written(attempts)| == |Finished(attempts)| <==> FullyWritten(attempts)
    ensures FullyWritten(attempts) ==> Written(attempts) == Finished(attempts)
  {
    if attempts != [] {
      var n := |attempts| - 1;
      assert Sound(attempts[n]);
      WrittenLength(attempts[..n]);
      assert FullyWritten(attempts) <==>
        FullyWritten(attempts[..n]) && attempts[n].written == |attempts[n].entries| by {
        assert attempts == attempts[..n] + [attempts[n]];
      }
      WholeBatch(attempts[n].entries);
    }
  }

  // ----- what a shutdown saves

  /** The step leaves something unwritten for good: the task ends before its loop although entries are queued, or a
      write ends uncommitted, other than the closing write that repeats a batch the table has already in full. */
  predicate Loses(s: State, e: Event)
  {
    match e
    case Begin(engine) => !engine && s.queue != []
    case Cancel(_) => s.phase.Created? && s.queue != []
    case Finish(_, committed) => !committed && !(s.phase.Closing? && s.phase.written == |s.phase.last|)
    case _ => false
  }

  ghost predicate NeverLoses(s: State, events: seq<Event>, batchSize: int)
    requires ValidRun(s, events, batchSize)
    decreases |events|
  {
    events != [] ==> !Loses(s, events[0]) && NeverLoses(Next(s, events[0], batchSize), events[1..], batchSize)
  }

  ghost predicate Intact(s: State)
  {
    FullyWritten(s.attempts) && (s.phase.Stopped? ==> |Finished(s.attempts)| == s.stoppedAt)
  }

  lemma FullyWrittenSnoc(attempts: seq<Attempt>, a: Attempt)
    ensures FullyWritten(attempts + [a]) <==> FullyWritten(attempts) && a.written == |a.entries|
  {
    assert forall b | b in attempts :: b in attempts + [a];
    assert a in attempts + [a];
  }

  lemma StepIntact(s: State, e: Event, batchSize: int)
    requires Invariant(s) && Enabled(s, e)
    ensures Intact(Next(s, e, batchSize)) <==> Intact(s) && !Loses(s, e)
  {
    hide DistinctIds, FullyWritten, Finished, Written;
    match e
    case Finish(raised, committed) =>
      var a := Next(s, e, batchSize).attempts[|s.attempts|];
      FullyWrittenSnoc(s.attempts, a);
      FinishedSnoc(s.attempts, a);
    case Begin(_) => NothingFinished();
    case Cancel(_) => NothingFinished();
    case _ =>
  }

  lemma NothingFinished()
    ensures Finished([]) == [] && FullyWritten([])
  {
  }

  lemma {:induction false} RunIntact(s: State, events: seq<Event>, batchSize: int)
    requires Invariant(s) && ValidRun(s, events, batchSize)
    ensures Intact(Run(s, events, batchSize)) <==> Intact(s) && NeverLoses(s, events, batchSize)
    decreases |events|
  {
    hide Invariant, Next, Enabled, Intact, Loses;
    if events != [] {
      StepKeeps(s, events[0], batchSize);
      StepIntact(s, events[0], batchSize);
      RunIntact(Next(s, events[0], batchSize), events[1..], batchSize);
    }
  }

  lemma StoppedParts(finished: seq<Entry>, queue: seq<Entry>, n: nat)
    requires |finished| <= n <= |finished| + |queue|
    ensures var all := finished + [] + queue; all[..n][..|finished|] == finished && |all| == |finished| + |queue|
    ensures n == |finished| ==> (finished + [] + queue)[..n] == finished && (finished + [] + queue)[n..] == queue
  {
  }

  lemma StoppedTable(s: State)
    requires Invariant(s) && s.phase.Stopped?
    ensures s.stoppedAt <= |s.accepted| && (s.table == s.accepted[..s.stoppedAt] <==> Intact(s))
    ensures s.started ==> s.queue == s.accepted[s.stoppedAt..]
  {
    hide DistinctIds, FullyWritten;
    WrittenLength(s.attempts);
    StoppedParts(Finished(s.attempts), s.queue, s.stoppedAt);
    NothingLeft(Written(s.attempts));
  }

  /** After the task has ended, the table holds the entries accepted before that, in order, exactly when no step of the
      run lost anything; if the loop was reached, what came in later is still queued. */
  lemma CleanShutdownIff(events: seq<Event>, batchSize: int)
    requires ValidRun(START, events, batchSize) && Run(START, events, batchSize).phase.Stopped?
    ensures var s := Run(START, events, batchSize);
      && s.stoppedAt <= |s.accepted|
      && (s.table == s.accepted[..s.stoppedAt] <==> NeverLoses(START, events, batchSize))
      && (s.started ==> s.queue == s.accepted[s.stoppedAt..])
  {
    hide Next, Enabled, ValidRun, Run, NeverLoses, Invariant, Intact;
    FromStart(events, batchSize);
    StartIntact();
    RunIntact(START, events, batchSize);
    StoppedTable(Run(START, events, batchSize));
  }

  lemma StartIntact()
    ensures Invariant(START) && Intact(START)
  {
  }

  /** No write raised and the loop was reached: nothing accepted before the end is missing. */
  lemma NoFailureNoLoss(events: seq<Event>, batchSize: int)
    requires ValidRun(START, events, batchSize)
    requires var s := Run(START, events, batchSize);
      s.phase.Stopped? && s.started && forall a | a in s.attempts :: !a.raised
    ensures var s := Run(START, events, batchSize); s.stoppedAt <= |s.accepted| && s.table == s.accepted[..s.stoppedAt]
  {
    hide Next, Enabled, ValidRun, Run, DistinctIds, Finished, Written;
    FromStart(events, batchSize);
    var s := Run(START, events, batchSize);
    forall a | a in s.attempts
      ensures a.written == |a.entries|
    {
      assert Sound(a);
    }
    StoppedTable(s);
  }

  /** Closing with some entries in the table already: the primary key refuses the repeated batch, so nothing more is
      ever written. */
  lemma {:induction false} PartlyWrittenStays(s: State, events: seq<Event>, batchSize: int)
    requires Invariant(s) && ValidRun(s, events, batchSize)
    requires s.phase.Stopped? || (s.phase.Closing? && s.phase.written > 0)
    ensures Run(s, events, batchSize).table == s.table
    decreases |events|
  {
    if events != [] {
      hide DistinctIds;
      StepKeeps(s, events[0], batchSize);
      if s.phase.Closing? {
        TwiceWritten(Written(s.attempts), s.phase.last, s.phase.written);
      }
      PartlyWrittenStays(Next(s, events[0], batchSize), events[1..], batchSize);
    }
  }

  /** A cancellation that arrives after the database has committed the batch loses the queue: the table never gets more
      than that batch. */
  lemma CancelAfterCommitLosesQueue(s: State, events: seq<Event>, batchSize: int)
    requires Invariant(s) && s.phase.Writing? && Enabled(s, Cancel(true))
    requires ValidRun(Next(s, Cancel(true), batchSize), events, batchSize)
    ensures Run(Next(s, Cancel(true), batchSize), events, batchSize).table == s.table + s.phase.batch
  {
    StepKeeps(s, Cancel(true), batchSize);
    PartlyWrittenStays(Next(s, Cancel(true), batchSize), events, batchSize);
  }

  // ----- two shutdowns that lose entries

  lemma OneStep(s: State, e: Event, next: State, rest: seq<Event>, batchSize: int)
    requires Enabled(s, e) && next == Next(s, e, batchSize) && ValidRun(next, rest, batchSize)
    ensures ValidRun(s, [e] + rest, batchSize) && Run(s, [e] + rest, batchSize) == Run(next, rest, batchSize)
  {
    assert ([e] + rest)[1..] == rest;
  }

  /** The task is cancelled before its first step: an accepted entry stays in the queue, and no write ever raised. */
  lemma NeverStartedLoses(a: Entry, batchSize: int)
    ensures var events := [Enqueue(a)] + ([Cancel(false)] + []);
      && ValidRun(START, events, batchSize)
      && var s := Run(START, events, batchSize);
        s.phase.Stopped? && s.accepted == [a] && s.table == [] && s.attempts == []
  {
    var s1 := Next(START, Enqueue(a), batchSize);
    var s2 := Next(s1, Cancel(false), batchSize);
    OneStep(s1, Cancel(false), s2, [], batchSize);
    OneStep(START, Enqueue(a), s1, [Cancel(false)] + [], batchSize);
  }

  /** The cancellation meets the commit of the first of two entries: the second is drained into a write that must
      fail. */
  lemma CancelAfterCommitRun(a: Entry, b: Entry)
    ensures var events :=
      [Begin(true)] + ([Enqueue(a)] + ([Enqueue(b)] + ([Take] + ([Cancel(true)] + ([Finish(true, false)] + [])))));
      && ValidRun(START, events, 1)
      && var s := Run(START, events, 1);
        s.phase.Stopped? && s.accepted == [a, b] && s.table == [a]
  {
    var s1 := Next(START, Begin(true), 1);
    var s2 := Next(s1, Enqueue(a), 1);
    var s3 := Next(s2, Enqueue(b), 1);
    assert s3.queue == [a, b];
    var s4 := Next(s3, Take, 1);
    assert s4.queue == [b] && s4.phase == Writing([a]);
    var s5 := Next(s4, Cancel(true), 1);
    assert s5.phase == Closing([a, b], 1) && s5.table == [a];
    var s6 := Next(s5, Finish(true, false), 1);
    OneStep(s5, Finish(true, false), s6, [], 1);
    OneStep(s4, Cancel(true), s5, [Finish(true, false)] + [], 1);
    OneStep(s3, Take, s4, [Cancel(true)] + ([Finish(true, false)] + []), 1);
    OneStep(s2, Enqueue(b), s3, [Take] + ([Cancel(true)] + ([Finish(true, false)] + [])), 1);
    OneStep(s1, Enqueue(a), s2, [Enqueue(b)] + ([Take] + ([Cancel(true)] + ([Finish(true, false)] + []))), 1);
    OneStep(START, Begin(true), s1,
      [Enqueue(a)] + ([Enqueue(b)] + ([Take] + ([Cancel(true)] + ([Finish(true, false)] + [])))), 1);
  }
}
