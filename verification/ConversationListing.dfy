/** What the listed tree tells of the requests: who introduced a message, when it was first and last seen, and in what
    order the entries come. */
module ConversationListing {
  import opened Sorting
  import opened Json
  import opened MessageKey
  import opened ConversationHistory
  import opened ConversationForest
  import opened ConversationTree
  import opened ConversationBuild

  // ----- first and last sighting

  /** The insert a request makes at the path `p`. */
  ghost function InsertAt(r: Request, p: Path): Event
    requires p != [] && p <= PathOf(r)
  {
    InsertOf(r, PathOf(r), MessagesOf(r), |RequestMessages(r.requestBody)|, |p|)
  }

  lemma {:induction false} InsertsSeen(h: History, r: Request, keys: Path, messages: seq<Dict>, own: nat, n: nat,
      p: Path)
    requires n <= |messages| == |keys| && p != []
    requires p in Distinct(h) || (|p| <= n && p <= keys)
    ensures var h' := AfterInserts(h, r, keys, messages, own, n);
      && p in Distinct(h')
      && FirstEvent(h', p) == (if p in Distinct(h) then FirstEvent(h, p) else InsertOf(r, keys, messages, own, |p|))
      && LastEvent(h', p) ==
           if |p| <= n && p <= keys then InsertOf(r, keys, messages, own, |p|) else LastEvent(h, p)
  {
    if n > 0 {
      PrefixOfLength(p, keys, n);
      if p in Distinct(h) || (|p| <= n - 1 && p <= keys) {
        InsertsSeen(h, r, keys, messages, own, n - 1, p);
      } else {
        CountInserts(h, r, keys, messages, own, n - 1, p);
        NeverCounted(h, p);
        NeverCounted(AfterInserts(h, r, keys, messages, own, n - 1), p);
      }
    }
  }

  /** `i` is the first, `j` the last request whose path runs through `p`. */
  ghost predicate Sightings(requests: seq<Request>, p: Path, i: nat, j: nat)
  {
    && i <= j < |requests| && p <= PathOf(requests[i]) && p <= PathOf(requests[j])
    && forall n | 0 <= n < |requests| && p <= PathOf(requests[n]) :: i <= n <= j
  }

  lemma OneMoreRequest(front: seq<Request>, r: Request, p: Path)
    requires p != [] && p in Distinct(HistoryOf(front + [r]))
    ensures p in Distinct(HistoryOf(front)) || p <= PathOf(r)
    ensures var h, h' := HistoryOf(front), HistoryOf(front + [r]);
      && FirstEvent(h', p) == (if p in Distinct(h) then FirstEvent(h, p) else InsertAt(r, p))
      && LastEvent(h', p) == (if p <= PathOf(r) then InsertAt(r, p) else LastEvent(h, p))
    ensures p in Distinct(HistoryOf(front)) <==> exists q | q in front :: p <= PathOf(q)
  {
    hide PathOf, MessagesOf, RequestMessages;
    var h, all := HistoryOf(front), front + [r];
    assert all[..|front|] == front;
    CountsAre(all, p);
    NeverCounted(HistoryOf(all), p);
    CountsAre(front, p);
    NeverCounted(h, p);
    ThroughSome(front, p);
    ThroughSome(all, p);
    PathLength(r);
    hide Through, Distinct, Count, FirstEvent, LastEvent;
    InsertsSeen(h, r, PathOf(r), MessagesOf(r), |RequestMessages(r.requestBody)|, |MessagesOf(r)|, p);
  }

  lemma PathLength(r: Request)
    ensures |PathOf(r)| == |MessagesOf(r)|
  {
  }

  lemma LaterSighting(front: seq<Request>, r: Request, p: Path, i: nat, j: nat)
    requires Sightings(front, p, i, j)
    ensures Sightings(front + [r], p, i, if p <= PathOf(r) then |front| else j)
    ensures (front + [r])[i] == front[i] && (front + [r])[j] == front[j] && (front + [r])[|front|] == r
  {
    hide PathOf;
    var all := front + [r];
    assert forall n | 0 <= n < |front| :: all[n] == front[n];
  }

  lemma FirstSighting(front: seq<Request>, r: Request, p: Path)
    requires p <= PathOf(r) && !exists q | q in front :: p <= PathOf(q)
    ensures Sightings(front + [r], p, |front|, |front|) && (front + [r])[|front|] == r
  {
    hide PathOf;
    var all := front + [r];
    assert forall n | 0 <= n < |front| :: all[n] == front[n] && front[n] in front;
  }

  ghost predicate SeenAt(requests: seq<Request>, p: Path, i: nat, j: nat)
    requires p in Distinct(HistoryOf(requests)) && p != []
  {
    && Sightings(requests, p, i, j)
    && FirstEvent(HistoryOf(requests), p) == InsertAt(requests[i], p)
    && LastEvent(HistoryOf(requests), p) == InsertAt(requests[j], p)
  }

  lemma SeenAgain(front: seq<Request>, r: Request, p: Path, i: nat, j: nat) returns (last: nat)
    requires p != [] && p in Distinct(HistoryOf(front)) && p in Distinct(HistoryOf(front + [r]))
    requires SeenAt(front, p, i, j)
    ensures SeenAt(front + [r], p, i, last)
  {
    hide HistoryOf, PathOf, InsertAt, Distinct, FirstEvent, LastEvent;
    OneMoreRequest(front, r, p);
    LaterSighting(front, r, p, i, j);
    last := if p <= PathOf(r) then |front| else j;
  }

  lemma SeenFirst(front: seq<Request>, r: Request, p: Path)
    requires p != [] && p !in Distinct(HistoryOf(front)) && p in Distinct(HistoryOf(front + [r]))
    ensures SeenAt(front + [r], p, |front|, |front|)
  {
    hide HistoryOf, PathOf, InsertAt, Distinct, FirstEvent, LastEvent;
    OneMoreRequest(front, r, p);
    FirstSighting(front, r, p);
  }

  lemma {:induction false} Seen(requests: seq<Request>, p: Path) returns (i: nat, j: nat)
    requires p in Distinct(HistoryOf(requests)) && p != []
    ensures SeenAt(requests, p, i, j)
    decreases |requests|
  {
    SeenSome(requests, p);
    hide HistoryOf, Distinct, SeenAt;
    var front, r := LastOf(requests);
    if p in Distinct(HistoryOf(front)) {
      i, j := Seen(front, p);
      j := SeenAgain(front, r, p, i, j);
    } else {
      i, j := |front|, |front|;
      SeenFirst(front, r, p);
    }
  }

  lemma SeenSome(requests: seq<Request>, p: Path)
    requires p in Distinct(HistoryOf(requests))
    ensures requests != []
  {
    if requests == [] {
      NothingSeen(p);
    }
  }

  lemma NothingSeen(p: Path)
    ensures p !in Distinct(HistoryOf([]))
  {
  }

  lemma LastOf<T>(s: seq<T>) returns (front: seq<T>, last: T)
    requires s != []
    ensures s == front + [last]
  {
    front, last := s[..|s| - 1], s[|s| - 1];
  }

  // ----- time

  ghost predicate ByTime(requests: seq<Request>)
  {
    forall i, j | 0 <= i <= j < |requests| ::
      && requests[i].timestamp <= requests[j].timestamp
      && (requests[i].timestamp == requests[j].timestamp ==> LexLeq(requests[i].id, requests[j].id))
  }

  lemma SortedByTime(requests: seq<Request>)
    ensures ByTime(SortBy(RequestLeq, requests))
  {
    RequestOrder();
    SortBySorted(RequestLeq, requests);
    var ordered := SortBy(RequestLeq, requests);
    forall i, j | 0 <= i <= j < |ordered|
      ensures ordered[i].timestamp <= ordered[j].timestamp
      ensures ordered[i].timestamp == ordered[j].timestamp ==> LexLeq(ordered[i].id, ordered[j].id)
    {
      if i == j {
        LexTotal(ordered[i].id, ordered[i].id);
      } else {
        assert RequestLeq(ordered[i], ordered[j]);
      }
    }
  }

  lemma SameMembers(requests: seq<Request>, r: Request)
    ensures r in SortBy(RequestLeq, requests) <==> r in requests
  {
    assert r in multiset(SortBy(RequestLeq, requests)) <==> r in multiset(requests);
  }

  /** Inserts come in the order of time. */
  ghost predicate Timely(h: History)
  {
    h.Start? || (Timely(h.before) && (h.before.Start? || At(h.before.last) <= At(h.last)))
  }

  ghost function At(e: Event): int
  {
    e.request.timestamp
  }

  lemma {:induction false} FirstBeforeLast(h: History, p: Path)
    requires Timely(h) && p in Distinct(h)
    ensures At(FirstEvent(h, p)) <= At(h.last)
  {
    if p in Distinct(h.before) {
      FirstBeforeLast(h.before, p);
    }
  }

  /** What was inserted earlier was first seen no later. */
  lemma {:induction false} RankByTime(h: History, p: Path, q: Path)
    requires Timely(h) && p in Distinct(h) && q in Distinct(h) && Rank(h, p) < Rank(h, q)
    ensures At(FirstEvent(h, p)) <= At(FirstEvent(h, q))
  {
    if q in Distinct(h.before) {
      if p in Distinct(h.before) {
        RankByTime(h.before, p, q);
      } else {
        RankInRange(h.before, q);
      }
    } else {
      FirstBeforeLast(h, p);
    }
  }

  lemma {:induction false} InsertsTimely(h: History, r: Request, keys: Path, messages: seq<Dict>, own: nat, n: nat)
    requires n <= |messages| == |keys| && Timely(h) && (h.Then? ==> At(h.last) <= r.timestamp)
    ensures var h' := AfterInserts(h, r, keys, messages, own, n);
      Timely(h') && (h'.Then? ==> h' == h || h'.last.request == r)
  {
    if n > 0 {
      InsertsTimely(h, r, keys, messages, own, n - 1);
    }
  }

  lemma TimeBound(front: seq<Request>, r: Request)
    requires ByTime(front + [r])
    ensures ByTime(front) && forall q | q in front :: q.timestamp <= r.timestamp
  {
    var all := front + [r];
    assert all[|front|] == r && forall i | 0 <= i < |front| :: all[i] == front[i];
  }

  lemma OneMoreTimely(front: seq<Request>, r: Request)
    requires ByTime(front + [r])
    requires var h := HistoryOf(front); Timely(h) && (h.Then? ==> h.last.request in front)
    ensures var h := HistoryOf(front + [r]); Timely(h) && (h.Then? ==> h.last.request in front + [r])
  {
    assert (front + [r])[..|front|] == front;
    TimeBound(front, r);
    PathLength(r);
    hide ByTime, PathOf, MessagesOf, RequestMessages, Timely;
    InsertsTimely(HistoryOf(front), r, PathOf(r), MessagesOf(r), |RequestMessages(r.requestBody)|, |MessagesOf(r)|);
  }

  lemma {:induction false} HistoryTimely(requests: seq<Request>)
    requires ByTime(requests)
    ensures var h := HistoryOf(requests); Timely(h) && (h.Then? ==> h.last.request in requests)
  {
    if requests != [] {
      var front, r := requests[..|requests| - 1], requests[|requests| - 1];
      assert requests == front + [r];
      hide HistoryOf, ByTime, Timely;
      TimeBound(front, r);
      HistoryTimely(front);
      OneMoreTimely(front, r);
    }
  }

  // ----- what an entry tells

  /** The request `r` is the first one through `p`, and the entry is made of what it says there. */
  ghost predicate Introduces(r: Request, e: Entry, p: Path, requests: seq<Request>)
    requires p != []
  {
    && r in requests && p <= PathOf(r) && e.requestId == r.id && e.firstSeen == r.timestamp
    && e.index == |p| - 1 && e.message == MessagesOf(r)[|p| - 1]
    && e.origin == (if |p| <= |RequestMessages(r.requestBody)| then FromRequest else FromResponse)
    && forall q | q in requests && p <= PathOf(q) && q.timestamp == r.timestamp :: LexLeq(r.id, q.id)
  }

  ghost predicate Last(r: Request, e: Entry, p: Path, requests: seq<Request>)
  {
    r in requests && p <= PathOf(r) && e.lastSeen == r.timestamp
  }

  ghost predicate Tells(e: Entry, p: Path, requests: seq<Request>)
    requires p != []
  {
    && (forall r | r in requests && p <= PathOf(r) :: e.firstSeen <= r.timestamp <= e.lastSeen)
    && (exists r :: Introduces(r, e, p, requests)) && (exists r :: Last(r, e, p, requests))
  }

  lemma EntryTells(requests: seq<Request>, p: Path)
    requires p in Distinct(HistoryOf(SortBy(RequestLeq, requests))) && p != []
    ensures Tells(EntryOf(HistoryOf(SortBy(RequestLeq, requests)), p), p, requests)
  {
    hide HistoryOf, SortBy, PathOf, MessagesOf, RequestMessages, NodeId, Count, Children;
    var ordered := SortBy(RequestLeq, requests);
    SortedByTime(requests);
    var i, j := Seen(ordered, p);
    var e := EntryOf(HistoryOf(ordered), p);
    forall r | r in requests && p <= PathOf(r)
      ensures e.firstSeen <= r.timestamp <= e.lastSeen
      ensures r.timestamp == ordered[i].timestamp ==> LexLeq(ordered[i].id, r.id)
    {
      SameMembers(requests, r);
      var n :| 0 <= n < |ordered| && ordered[n] == r;
    }
    SameMembers(requests, ordered[i]);
    SameMembers(requests, ordered[j]);
    assert Introduces(ordered[i], e, p, requests);
    assert Last(ordered[j], e, p, requests);
  }

  // ----- the order of the entries

  lemma PartingPlace(h: History, p: Path, q: Path) returns (k: nat)
    requires Before(h, p, q) && (!(p <= q) || |p| == |q|)
    ensures PartsAt(h, p, q, k)
  {
    hide Rank, Distinct;
    assert !(p <= q && p != q);
    k :| PartsAt(h, p, q, k);
  }

  lemma ShorterPrefix(p: Path, q: Path, n: nat, k: nat)
    requires k <= n <= |p| && n <= |q| && p[..n] == q[..n]
    ensures p[..k] == q[..k]
  {
    assert p[..k] == p[..n][..k] && q[..k] == q[..n][..k];
  }

  lemma SiblingsByRank(h: History, p: Path, q: Path)
    requires Before(h, p, q) && p != [] && q != [] && Parent(p) == Parent(q)
    ensures p in Distinct(h) && q in Distinct(h) && Rank(h, p) < Rank(h, q)
  {
    hide Rank, Distinct;
    var n := |p| - 1;
    assert |q| == |p| && p[..n + 1] == p && q[..n + 1] == q && p[..n] == q[..n];
    var k := PartingPlace(h, p, q);
    if k < n {
      ShorterPrefix(p, q, n, k + 1);
    }
  }

  /** The paths right below `p`. */
  ghost function Below(ps: seq<Path>, p: Path): seq<Path>
  {
    if ps == [] then []
    else
      var front, q := Below(ps[..|ps| - 1], p), ps[|ps| - 1];
      if q != [] && Parent(q) == p then front + [q] else front
  }

  lemma {:induction false} BelowMembers(ps: seq<Path>, p: Path)
    ensures forall q {:trigger q in Below(ps, p)} :: q in Below(ps, p) <==> q in ps && q != [] && Parent(q) == p
  {
    if ps != [] {
      BelowMembers(ps[..|ps| - 1], p);
      assert ps == ps[..|ps| - 1] + [ps[|ps| - 1]];
    }
  }

  lemma {:induction false} BelowByRank(h: History, ps: seq<Path>, p: Path)
    requires InWalkOrder(h, ps) && forall q | q in ps :: q in Distinct(h)
    ensures ByRank(h, Below(ps, p))
  {
    hide Rank, Distinct, Before;
    if ps != [] {
      var front, q := ps[..|ps| - 1], ps[|ps| - 1];
      assert ps == front + [q];
      BelowByRank(h, front, p);
      BelowMembers(front, p);
      if q != [] && Parent(q) == p {
        forall c | c in Below(front, p)
          ensures Rank(h, c) < Rank(h, q)
        {
          var i :| 0 <= i < |front| && front[i] == c;
          assert ps[i] == c;
          SiblingsByRank(h, c, q);
        }
      }
    }
  }

  lemma RankedLast(h: History, a: seq<Path>, b: seq<Path>)
    requires ByRank(h, a) && ByRank(h, b) && a != [] && b != [] && forall x :: x in a <==> x in b
    ensures a[|a| - 1] == b[|b| - 1]
  {
    hide Rank, Distinct;
    var x, y := a[|a| - 1], b[|b| - 1];
    assert x in b && y in a;
    var i :| 0 <= i < |b| && b[i] == x;
    var j :| 0 <= j < |a| && a[j] == y;
  }

  lemma FrontMembers(h: History, a: seq<Path>)
    requires ByRank(h, a) && a != []
    ensures var front, last := a[..|a| - 1], a[|a| - 1];
      ByRank(h, front) && forall x :: x in front <==> x in a && x != last
  {
    hide Rank, Distinct;
    var front, last := a[..|a| - 1], a[|a| - 1];
    assert a == front + [last];
    assert forall i | 0 <= i < |front| :: front[i] == a[i] && Rank(h, a[i]) < Rank(h, last);
  }

  lemma HeadIn<T>(s: seq<T>)
    requires s != []
    ensures s[0] in s
  {
  }

  /** Rank fixes the order. */
  lemma {:induction false} SameByRank(h: History, a: seq<Path>, b: seq<Path>)
    requires ByRank(h, a) && ByRank(h, b) && forall x :: x in a <==> x in b
    ensures a == b
    decreases |a|
  {
    hide Rank, Distinct, ByRank;
    if a == [] {
      if b != [] { HeadIn(b); }
    } else {
      assert a[0] in b;
      RankedLast(h, a, b);
      FrontMembers(h, a);
      FrontMembers(h, b);
      SameByRank(h, a[..|a| - 1], b[..|b| - 1]);
      assert a == a[..|a| - 1] + [a[|a| - 1]] && b == b[..|b| - 1] + [b[|b| - 1]];
    }
  }

  /** The children of a node, in the order in which the walk lists them. */
  lemma ChildrenAsListed(h: History, p: Path)
    requires Closed(h)
    ensures Children(h, p) == Below(Forest(h), p)
  {
    hide Children, Forest, Distinct, Rank, InWalkOrder, ByRank;
    ForestExact(h);
    ChildrenByRank(h, p);
    BelowMembers(Forest(h), p);
    BelowByRank(h, Forest(h), p);
    SameByRank(h, Children(h, p), Below(Forest(h), p));
  }

  /** The ids of the entries right below an entry, in order. */
  ghost function ChildIds(listing: seq<Entry>, id: string): seq<string>
  {
    if listing == [] then []
    else
      var front, e := ChildIds(listing[..|listing| - 1], id), listing[|listing| - 1];
      if e.parent == Some(id) then front + [e.nodeId] else front
  }

  lemma {:induction false} IdsBelow(listing: seq<Entry>, paths: seq<Path>, p: Path)
    requires |listing| == |paths| && p != []
    requires forall i | 0 <= i < |listing| ::
      paths[i] != [] && listing[i].nodeId == NodeId(paths[i]) && listing[i].parent == ParentId(paths[i])
    ensures ChildIds(listing, NodeId(p)) == Ids(Below(paths, p))
  {
    hide NodeId;
    if listing != [] {
      var n := |listing| - 1;
      IdsBelow(listing[..n], paths[..n], p);
      NodeIdInjective(Parent(paths[n]), p);
      IdsAppend(Below(paths[..n], p), [paths[n]]);
      assert Ids([paths[n]]) == [NodeId(paths[n])];
    }
  }

  /** Nothing comes before what it is below, and what is below a node is listed in one piece behind it. */
  ghost predicate DepthFirst(paths: seq<Path>)
  {
    && (forall i, j | 0 <= i < j < |paths| :: !(paths[j] <= paths[i]))
    && forall i, j, k | 0 <= i < j < k < |paths| && paths[i] <= paths[k] :: paths[i] <= paths[j]
  }

  lemma SamePrefix(p: Path, q: Path, n: nat)
    requires p <= q && n <= |p|
    ensures p[..n] == q[..n]
  {
  }

  /** Paths that part at `m` and agree up to `k` but not beyond, part at `k`. */
  lemma PartOnce(h: History, q: Path, r: Path, k: nat, m: nat)
    requires PartsAt(h, q, r, m) && k < |q| && k < |r| && q[..k] == r[..k] && q[..k + 1] != r[..k + 1]
    ensures k == m
  {
    hide Rank, Distinct;
    if m < k {
      ShorterPrefix(q, r, k, m + 1);
    } else if m > k {
      ShorterPrefix(q, r, m, k + 1);
    }
  }

  lemma WalkNeverGoesUp(h: History, p: Path, q: Path)
    requires Before(h, p, q)
    ensures !(q <= p)
  {
    hide Rank, Distinct;
    if q <= p && !(p <= q && p != q) {
      var k: nat :| PartsAt(h, p, q, k);
      SamePrefix(q, p, k + 1);
    }
  }

  lemma WalkStaysBelow(h: History, p: Path, q: Path, r: Path)
    requires Before(h, p, q) && Before(h, q, r) && p <= r
    ensures p <= q
  {
    hide Rank, Distinct;
    if !(p <= q) {
      var k := PartingPlace(h, p, q);
      SamePrefix(p, r, k + 1);
      SamePrefix(p, r, k);
      if q <= r && q != r {
        SamePrefix(q, r, k + 1);
      } else {
        var m: nat :| PartsAt(h, q, r, m);
        PartOnce(h, q, r, k, m);
      }
    }
  }

  lemma WalkIsDepthFirst(h: History, paths: seq<Path>)
    requires InWalkOrder(h, paths)
    ensures DepthFirst(paths)
  {
    hide Before;
    forall i, j | 0 <= i < j < |paths|
      ensures !(paths[j] <= paths[i])
    {
      WalkNeverGoesUp(h, paths[i], paths[j]);
    }
    forall i, j, k | 0 <= i < j < k < |paths| && paths[i] <= paths[k]
      ensures paths[i] <= paths[j]
    {
      WalkStaysBelow(h, paths[i], paths[j], paths[k]);
    }
  }

  // ----- the listing as a whole

  /** Siblings come in the order in which they were first seen. */
  ghost predicate SiblingsByTime(listing: seq<Entry>)
  {
    forall i, j | 0 <= i < j < |listing| && listing[i].parent == listing[j].parent ::
      listing[i].firstSeen <= listing[j].firstSeen
  }

  ghost predicate ChildrenListed(listing: seq<Entry>)
  {
    forall i | 0 <= i < |listing| :: listing[i].children == ChildIds(listing, listing[i].nodeId)
  }

  ghost predicate TellsPaths(listing: seq<Entry>, requests: seq<Request>, paths: seq<Path>)
  {
    && ListsPaths(listing, requests, paths) && DepthFirst(paths)
    && forall i | 0 <= i < |listing| :: Tells(listing[i], paths[i], requests)
  }

  /** The listing is depth first, its links agree with each other, siblings are in order of time, and every entry tells
      of the requests through its path. */
  ghost predicate TellsRequests(listing: seq<Entry>, requests: seq<Request>)
  {
    SiblingsByTime(listing) && ChildrenListed(listing) && exists paths :: TellsPaths(listing, requests, paths)
  }

  lemma ListedIs(h: History, i: nat)
    requires Closed(h) && i < |Forest(h)|
    ensures |Listing(h)| == |Forest(h)| && Forest(h)[i] in Distinct(h) && Forest(h)[i] != []
    ensures Listing(h)[i] == EntryOf(h, Forest(h)[i])
  {
    hide Forest, Closed, EntryOf;
    ForestStored(h);
    assert Forest(h)[i] in Forest(h);
  }

  lemma ListedChildren(h: History, i: nat)
    requires Closed(h) && i < |Listing(h)|
    ensures Listing(h)[i].children == ChildIds(Listing(h), Listing(h)[i].nodeId)
  {
    hide Forest, Closed, NodeId, ParentId, Count, FirstEvent, LastEvent, Children, Ids, Listing, Below;
    ListedLength(h);
    forall j | 0 <= j < |Listing(h)|
      ensures Forest(h)[j] != [] && Listing(h)[j].nodeId == NodeId(Forest(h)[j])
      ensures Listing(h)[j].parent == ParentId(Forest(h)[j])
    {
      ListedIs(h, j);
    }
    ListedIs(h, i);
    IdsBelow(Listing(h), Forest(h), Forest(h)[i]);
    ChildrenAsListed(h, Forest(h)[i]);
  }

  lemma SameParent(p: Path, q: Path)
    requires p != [] && q != [] && ParentId(p) == ParentId(q)
    ensures Parent(p) == Parent(q)
  {
    hide NodeId;
    NodeIdInjective(Parent(p), Parent(q));
  }

  lemma ListedSiblings(h: History, i: nat, j: nat)
    requires Closed(h) && Timely(h) && i < j < |Listing(h)| && Listing(h)[i].parent == Listing(h)[j].parent
    ensures Listing(h)[i].firstSeen <= Listing(h)[j].firstSeen
  {
    hide Forest, Closed, NodeId, ParentId, Count, LastEvent, Children, Ids, Listing, Timely, Before, Rank, FirstEvent;
    ListedLength(h);
    ListedIs(h, i);
    ListedIs(h, j);
    ForestExact(h);
    SameParent(Forest(h)[i], Forest(h)[j]);
    SiblingsByRank(h, Forest(h)[i], Forest(h)[j]);
    RankByTime(h, Forest(h)[i], Forest(h)[j]);
  }

  lemma ListingTells(requests: seq<Request>)
    ensures Closed(HistoryOf(SortBy(RequestLeq, requests)))
    ensures TellsRequests(Listing(HistoryOf(SortBy(RequestLeq, requests))), requests)
  {
    hide HistoryOf, SortBy, PathOf, Listing, Closed, InWalkOrder, Forest, Timely, ByTime, Tells, EntryOf, Distinct;
    var ordered := SortBy(RequestLeq, requests);
    var h := HistoryOf(ordered);
    PathsListed(requests);
    SortedByTime(requests);
    HistoryTimely(ordered);
    ForestExact(h);
    WalkIsDepthFirst(h, Forest(h));
    ListedLength(h);
    forall i, j | 0 <= i < j < |Listing(h)| && Listing(h)[i].parent == Listing(h)[j].parent
      ensures Listing(h)[i].firstSeen <= Listing(h)[j].firstSeen
    {
      ListedSiblings(h, i, j);
    }
    forall i | 0 <= i < |Listing(h)|
      ensures Listing(h)[i].children == ChildIds(Listing(h), Listing(h)[i].nodeId)
      ensures Forest(h)[i] != [] && Tells(Listing(h)[i], Forest(h)[i], requests)
    {
      ListedChildren(h, i);
      ListedIs(h, i);
      EntryTells(requests, Forest(h)[i]);
    }
    assert TellsPaths(Listing(h), requests, Forest(h));
  }

  /** The flat tree of the requests' messages: their prefix tree, listed depth first. */
  method BuildConversationMessages(requests: seq<Request>) returns (result: seq<Entry>)
    ensures Closed(HistoryOf(SortBy(RequestLeq, requests)))
    ensures result == Listing(HistoryOf(SortBy(RequestLeq, requests)))
    ensures IsPrefixTree(result, requests) && TellsRequests(result, requests)
  {
    hide IsPrefixTree, TellsRequests;
    var ordered := SortBy(RequestLeq, requests);
    var tree := new TreeBuilder();
    var i := 0;
    while i < |ordered|
      invariant 0 <= i <= |ordered|
      invariant fresh(tree) && tree.Valid() && tree.history == HistoryOf(ordered[..i])
    {
      HistoryStep(ordered, i);
      InsertRequest(tree, ordered[i]);
      i := i + 1;
    }
    assert ordered[..|ordered|] == ordered;
    result := tree.ToList();
    ListedPrefixTree(requests);
    ListingTells(requests);
  }
}
