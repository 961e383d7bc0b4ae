/** The conversation as a function of the inserts made so far: which nodes exist, what each holds, and which are its
    children. */
module ConversationHistory {
  import opened Sorting
  import opened Json
  import opened MessageKey

  datatype Request = Request(id: string, timestamp: int, requestBody: Value, responseBody: Value)

  datatype Origin = FromRequest | FromResponse

  /** One call of `insert`. */
  datatype Event = Event(path: Path, message: Dict, request: Request, origin: Origin, index: nat)

  /** The inserts so far, latest last. */
  datatype History = Start | Then(before: History, last: Event)

  function Parent(p: Path): Path
    requires p != []
  {
    p[..|p| - 1]
  }

  /** The distinct paths inserted, in order of first appearance. */
  ghost function Distinct(h: History): seq<Path>
  {
    if h.Start? then []
    else
      var rest, p := Distinct(h.before), h.last.path;
      if p in rest then rest else rest + [p]
  }

  ghost function Size(h: History): nat
  {
    if h.Start? then 0 else Size(h.before) + 1
  }

  ghost function Count(h: History, p: Path): nat
  {
    if h.Start? then 0 else Count(h.before, p) + if h.last.path == p then 1 else 0
  }

  ghost function FirstEvent(h: History, p: Path): Event
    requires p in Distinct(h)
  {
    if p in Distinct(h.before) then FirstEvent(h.before, p) else h.last
  }

  ghost function LastEvent(h: History, p: Path): Event
    requires p in Distinct(h)
  {
    if h.last.path == p then h.last else LastEvent(h.before, p)
  }

  /** How many distinct paths came before `p`. */
  ghost function Rank(h: History, p: Path): nat
    requires p in Distinct(h)
  {
    if p in Distinct(h.before) then Rank(h.before, p) else |Distinct(h.before)|
  }

  /** The children of `p`, in order of first appearance; those of the empty path are the roots. */
  ghost function Children(h: History, p: Path): (r: seq<Path>)
    ensures forall q {:trigger q in r} :: q in r <==> q in Distinct(h) && q != [] && Parent(q) == p
  {
    if h.Start? then []
    else
      var rest, q := Children(h.before, p), h.last.path;
      if q !in Distinct(h.before) && q != [] && Parent(q) == p then rest + [q] else rest
  }

  function Ids(ps: seq<Path>): (r: seq<string>)
    ensures |r| == |ps| && forall i | 0 <= i < |ps| :: r[i] == NodeId(ps[i])
  {
    seq(|ps|, i requires 0 <= i < |ps| => NodeId(ps[i]))
  }

  /** Parents are inserted before their children. */
  ghost predicate Closed(h: History)
  {
    && (forall p | p in Distinct(h) :: p != [])
    && forall p {:trigger Parent(p)} | p in Distinct(h) && |p| > 1 :: Parent(p) in Distinct(h)
  }

  // ----- one more insert

  lemma DistinctSnoc(h: History, e: Event)
    ensures Distinct(Then(h, e)) == if e.path in Distinct(h) then Distinct(h) else Distinct(h) + [e.path]
  {
  }

  lemma {:induction false} NeverCounted(h: History, p: Path)
    ensures Count(h, p) == 0 <==> p !in Distinct(h)
  {
    if h.Then? {
      NeverCounted(h.before, p);
    }
  }

  // ----- the distinct paths

  lemma {:induction false} DistinctNoRepeats(h: History)
    ensures NoRepeats(Distinct(h))
  {
    if h.Then? {
      DistinctNoRepeats(h.before);
    }
  }

  ghost function SumCounts(h: History, ps: seq<Path>): nat
  {
    if ps == [] then 0 else Count(h, ps[0]) + SumCounts(h, ps[1..])
  }

  lemma {:induction false} SumCountsOneMore(h: History, ps: seq<Path>, q: Path)
    ensures SumCounts(h, ps + [q]) == SumCounts(h, ps) + Count(h, q)
  {
    if ps != [] {
      assert (ps + [q])[1..] == ps[1..] + [q];
      SumCountsOneMore(h, ps[1..], q);
    }
  }

  lemma {:induction false} SumCountsSnoc(h: History, e: Event, ps: seq<Path>)
    requires NoRepeats(ps)
    ensures SumCounts(Then(h, e), ps) == SumCounts(h, ps) + if e.path in ps then 1 else 0
  {
    if ps != [] {
      SumCountsSnoc(h, e, ps[1..]);
      assert ps == [ps[0]] + ps[1..];
    }
  }

  /** Every insert is counted at exactly one node. */
  lemma {:induction false} CountsAddUp(h: History)
    ensures SumCounts(h, Distinct(h)) == Size(h)
  {
    if h.Then? {
      var front, e := h.before, h.last;
      CountsAddUp(front);
      DistinctSnoc(front, e);
      DistinctNoRepeats(front);
      SumCountsSnoc(front, e, Distinct(front));
      if e.path !in Distinct(front) {
        SumCountsOneMore(h, Distinct(front), e.path);
        NeverCounted(front, e.path);
      }
    }
  }
}
