/** From stored requests to the listed tree, and why the tree is the prefix tree of the request paths. */
module ConversationBuild {
  import opened Sorting
  import opened Json
  import opened MessageKey
  import opened ConversationHistory
  import opened ConversationForest
  import opened ConversationTree

  // ----- what a request contributes

  function ObjectsOf(items: seq<Value>): seq<Dict>
  {
    if items == [] then []
    else (if items[0].Obj? then [items[0].fields] else []) + ObjectsOf(items[1..])
  }

  /** The object messages of a request body, or none when the body is not as expected. */
  function RequestMessages(body: Value): seq<Dict>
  {
    if !body.Obj? then []
    else
      match Get(body.fields, "messages")
      case Some(Arr(items)) => ObjectsOf(items)
      case _ => []
  }

  /** The first choice's message, when the response has one. */
  function AssistantMessage(body: Value): Option<Dict>
  {
    if !body.Obj? then None
    else
      match Get(body.fields, "choices")
      case Some(Arr(items)) =>
        if items == [] || !items[0].Obj? then None
        else (match Get(items[0].fields, "message")
              case Some(Obj(fields)) => Some(fields)
              case _ => None)
      case _ => None
  }

  /** A request's own messages, then a non-empty assistant response. */
  function WithResponse(messages: seq<Dict>, assistant: Option<Dict>): seq<Dict>
  {
    if assistant.Some? && assistant.value != [] then messages + [assistant.value] else messages
  }

  /** The messages a request inserts. */
  function MessagesOf(r: Request): seq<Dict>
  {
    WithResponse(RequestMessages(r.requestBody), AssistantMessage(r.responseBody))
  }

  lemma {:induction false} ObjectsSnoc(items: seq<Value>, v: Value)
    ensures ObjectsOf(items + [v]) == ObjectsOf(items) + if v.Obj? then [v.fields] else []
  {
    hide ObjectsOf;
    if items == [] {
      ObjectsCons(v, []);
      NoObjects();
      assert items + [v] == [v] + [];
    } else {
      var head, tail := items[0], items[1..];
      assert items + [v] == [head] + (tail + [v]) && items == [head] + tail;
      ObjectsSnoc(tail, v);
      ObjectsCons(head, tail);
      ObjectsCons(head, tail + [v]);
    }
  }

  lemma NoObjects()
    ensures ObjectsOf([]) == []
  {
  }

  lemma ObjectsCons(head: Value, tail: seq<Value>)
    ensures ObjectsOf([head] + tail) == (if head.Obj? then [head.fields] else []) + ObjectsOf(tail)
  {
    assert ([head] + tail)[1..] == tail;
  }

  /** The response's first choice says `d`. */
  ghost predicate Says(body: Value, d: Dict)
  {
    body.Obj? &&
    match Get(body.fields, "choices")
    case Some(Arr(items)) => items != [] && items[0].Obj? && Get(items[0].fields, "message") == Some(Obj(d))
    case _ => false
  }

  /** What a request inserts: the objects of its list of messages, in order, and what its response says, if that is
      anything. */
  lemma MessagesTell(r: Request)
    ensures forall items | r.requestBody.Obj? && Get(r.requestBody.fields, "messages") == Some(Arr(items)) ::
      RequestMessages(r.requestBody) == ObjectsOf(items)
    ensures (forall items :: !(r.requestBody.Obj? && Get(r.requestBody.fields, "messages") == Some(Arr(items)))) ==>
      RequestMessages(r.requestBody) == []
    ensures forall d | Says(r.responseBody, d) && d != [] :: MessagesOf(r) == RequestMessages(r.requestBody) + [d]
    ensures (forall d | d != [] :: !Says(r.responseBody, d)) ==> MessagesOf(r) == RequestMessages(r.requestBody)
  {
    var body := r.responseBody;
    if AssistantMessage(body).Some? && AssistantMessage(body).value != [] {
      assert Says(body, AssistantMessage(body).value);
    }
  }

  function KeysOf(messages: seq<Dict>): (p: Path)
    ensures |p| == |messages| && forall i | 0 <= i < |p| :: p[i] == KeyOf(messages[i])
  {
    seq(|messages|, i requires 0 <= i < |messages| => KeyOf(messages[i]))
  }

  /** The request's path from the root. */
  function PathOf(r: Request): Path
  {
    KeysOf(MessagesOf(r))
  }

  /** The `n`-th of a request's inserts, of which the first `own` come from the request body. */
  ghost function InsertOf(r: Request, keys: Path, messages: seq<Dict>, own: nat, n: nat): Event
    requires 0 < n <= |messages| == |keys|
  {
    Event(keys[..n], messages[n - 1], r, if n <= own then FromRequest else FromResponse, n - 1)
  }

  /** History after the first `n` inserts of a request whose messages have the given keys. */
  ghost function AfterInserts(h: History, r: Request, keys: Path, messages: seq<Dict>, own: nat, n: nat): History
    requires n <= |messages| == |keys|
  {
    if n == 0 then h else Then(AfterInserts(h, r, keys, messages, own, n - 1), InsertOf(r, keys, messages, own, n))
  }

  ghost function AfterRequest(h: History, r: Request): History
  {
    AfterInserts(h, r, PathOf(r), MessagesOf(r), |RequestMessages(r.requestBody)|, |MessagesOf(r)|)
  }

  ghost function HistoryOf(requests: seq<Request>): History
  {
    if requests == [] then Start
    else
      AfterRequest(HistoryOf(requests[..|requests| - 1]), requests[|requests| - 1])
  }

  /** Requests are taken by time, then by id. */
  predicate RequestLeq(a: Request, b: Request)
  {
    a.timestamp < b.timestamp || (a.timestamp == b.timestamp && LexLeq(a.id, b.id))
  }

  lemma RequestOrder()
    ensures TotalPreorder(RequestLeq)
  {
    forall x: Request, y: Request, z: Request
      ensures RequestLeq(x, y) || RequestLeq(y, x)
      ensures RequestLeq(x, y) && RequestLeq(y, z) ==> RequestLeq(x, z)
    {
      LexTotal(x.id, y.id);
      if LexLeq(x.id, y.id) && LexLeq(y.id, z.id) { LexTransitive(x.id, y.id, z.id); }
    }
  }

  // ----- the build

  lemma TakeOneMore<T>(s: seq<T>, n: nat)
    requires n < |s|
    ensures s[..n + 1] == s[..n] + [s[n]]
  {
  }

  lemma NextInsert(h: History, r: Request, keys: Path, messages: seq<Dict>, own: nat, n: nat)
    requires n < |messages| == |keys|
    ensures var p := keys[..n + 1];
      && |p| == n + 1 && p[n] == keys[n] && Parent(p) == keys[..n]
      && ParentId(p) == (if n == 0 then None else Some(NodeId(keys[..n])))
      && AfterInserts(h, r, keys, messages, own, n + 1) ==
           Then(AfterInserts(h, r, keys, messages, own, n),
             Event(p, messages[n], r, if n < own then FromRequest else FromResponse, n))
  {
    TakeOneMore(keys, n);
  }

  /** `all` holds the messages, then the response if there is a non-empty one. */
  ghost predicate Joined(all: seq<Dict>, messages: seq<Dict>, assistant: Option<Dict>)
  {
    && |all| == |messages| + (if assistant.Some? && assistant.value != [] then 1 else 0)
    && (forall i | 0 <= i < |messages| :: all[i] == messages[i])
    && (|all| > |messages| ==> all[|messages|] == assistant.value)
  }

  lemma WithResponseJoins(messages: seq<Dict>, assistant: Option<Dict>)
    ensures Joined(WithResponse(messages, assistant), messages, assistant)
  {
  }

  ghost predicate AreKeys(keys: Path, messages: seq<Dict>)
  {
    |keys| == |messages| && forall i {:trigger KeyOf(messages[i])} | 0 <= i < |keys| :: keys[i] == KeyOf(messages[i])
  }

  /** The next insert of a request, under the previous one. */
  method InsertNext(tree: TreeBuilder, r: Request, message: Dict, origin: Origin, i: nat, parentId: Option<string>,
                    ghost h: History, ghost all: seq<Dict>, ghost own: nat, ghost keys: Path)
    returns (nodeId: string)
    requires tree.Valid() && AreKeys(keys, all) && i < |all| && message == all[i]
    requires origin == if i < own then FromRequest else FromResponse
    requires tree.history == AfterInserts(h, r, keys, all, own, i)
    requires parentId == if i == 0 then None else Some(NodeId(keys[..i]))
    requires i == 0 || keys[..i] in Distinct(tree.history)
    modifies tree
    ensures tree.Valid() && tree.history == AfterInserts(h, r, keys, all, own, i + 1)
    ensures nodeId == NodeId(keys[..i + 1]) && keys[..i + 1] in Distinct(tree.history)
  {
    NextInsert(h, r, keys, all, own, i);
    assert keys[i] == KeyOf(all[i]);
    nodeId := tree.Insert(message, r, origin, i, parentId, keys[..i + 1]);
  }

  /** Inserts one request's messages under each other, and its response at the end. */
  method InsertAll(tree: TreeBuilder, r: Request, messages: seq<Dict>, assistant: Option<Dict>, ghost all: seq<Dict>,
      ghost keys: Path)
    requires tree.Valid() && Joined(all, messages, assistant) && AreKeys(keys, all)
    modifies tree
    ensures tree.Valid()
    ensures tree.history == AfterInserts(old(tree.history), r, keys, all, |messages|, |all|)
  {
    hide NodeId, Distinct, KeyOf;
    ghost var h := tree.history;
    var parentId: Option<string> := None;
    var i := 0;
    while i < |messages|
      invariant 0 <= i <= |messages|
      invariant tree.Valid() && tree.history == AfterInserts(h, r, keys, all, |messages|, i)
      invariant parentId == (if i == 0 then None else Some(NodeId(keys[..i])))
      invariant i == 0 || keys[..i] in Distinct(tree.history)
    {
      var nodeId := InsertNext(tree, r, messages[i], FromRequest, i, parentId, h, all, |messages|, keys);
      parentId := Some(nodeId);
      i := i + 1;
    }
    if assistant.Some? && assistant.value != [] {
      var _ := InsertNext(tree, r, assistant.value, FromResponse, i, parentId, h, all, |messages|, keys);
    }
  }

  method InsertRequest(tree: TreeBuilder, r: Request)
    requires tree.Valid()
    modifies tree
    ensures tree.Valid() && tree.history == AfterRequest(old(tree.history), r)
  {
    var messages, assistant := RequestMessages(r.requestBody), AssistantMessage(r.responseBody);
    WithResponseJoins(messages, assistant);
    InsertAll(tree, r, messages, assistant, MessagesOf(r), PathOf(r));
  }

  lemma HistoryStep(requests: seq<Request>, n: nat)
    requires n < |requests|
    ensures HistoryOf(requests[..n + 1]) == AfterRequest(HistoryOf(requests[..n]), requests[n])
  {
    assert requests[..n + 1][..n] == requests[..n];
  }

  // ----- the tree is the prefix tree of the requests

  /** How many requests run through `p`. */
  ghost function Through(requests: seq<Request>, p: Path): nat
  {
    if requests == [] then 0
    else Through(requests[..|requests| - 1], p) + if p <= PathOf(requests[|requests| - 1]) then 1 else 0
  }

  ghost function TotalLength(requests: seq<Request>): nat
  {
    if requests == [] then 0
    else TotalLength(requests[..|requests| - 1]) + |PathOf(requests[|requests| - 1])|
  }

  lemma {:induction false} CountInserts(h: History, r: Request, keys: Path, messages: seq<Dict>, own: nat, n: nat,
      p: Path)
    requires n <= |messages| == |keys|
    ensures Count(AfterInserts(h, r, keys, messages, own, n), p) ==
      Count(h, p) + if p != [] && |p| <= n && p <= keys then 1 else 0
    ensures Size(AfterInserts(h, r, keys, messages, own, n)) == Size(h) + n
  {
    if n > 0 {
      CountInserts(h, r, keys, messages, own, n - 1, p);
      PrefixOfLength(p, keys, n);
    }
  }

  lemma PrefixOfLength(p: Path, q: Path, n: nat)
    requires n <= |q|
    ensures p == q[..n] <==> |p| == n && p <= q
  {
  }

  lemma {:induction false} CountsAre(requests: seq<Request>, p: Path)
    ensures Count(HistoryOf(requests), p) == if p == [] then 0 else Through(requests, p)
    ensures Size(HistoryOf(requests)) == TotalLength(requests)
  {
    if requests != [] {
      var r := requests[|requests| - 1];
      CountsAre(requests[..|requests| - 1], p);
      CountInserts(HistoryOf(requests[..|requests| - 1]), r, PathOf(r), MessagesOf(r),
        |RequestMessages(r.requestBody)|, |MessagesOf(r)|, p);
    }
  }

  /** After any request list: the nodes are the non-empty prefixes of the requests' paths, a node counts
      the requests that run through it, and the counts add up to the total length of the paths. */
  lemma PrefixTree(requests: seq<Request>)
    ensures forall p :: p in Distinct(HistoryOf(requests)) <==> p != [] && exists r | r in requests :: p <= PathOf(r)
    ensures forall p | p in Distinct(HistoryOf(requests)) :: Count(HistoryOf(requests), p) == Through(requests, p)
    ensures SumCounts(HistoryOf(requests), Distinct(HistoryOf(requests))) == TotalLength(requests)
  {
    var h := HistoryOf(requests);
    CountsAre(requests, []);
    CountsAddUp(h);
    forall p
      ensures p in Distinct(h) <==> p != [] && exists r | r in requests :: p <= PathOf(r)
      ensures p in Distinct(h) ==> Count(h, p) == Through(requests, p)
    {
      CountsAre(requests, p);
      NeverCounted(h, p);
      ThroughSome(requests, p);
    }
  }

  lemma {:induction false} ThroughSome(requests: seq<Request>, p: Path)
    ensures Through(requests, p) > 0 <==> exists r | r in requests :: p <= PathOf(r)
  {
    if requests != [] {
      var front, r := requests[..|requests| - 1], requests[|requests| - 1];
      assert requests == front + [r];
      ThroughSome(front, p);
    }
  }

  lemma {:induction false} ThroughParent(requests: seq<Request>, p: Path)
    requires p != []
    ensures Through(requests, p) <= Through(requests, Parent(p))
  {
    if requests != [] {
      ThroughParent(requests[..|requests| - 1], p);
    }
  }

  lemma ClosedHistory(requests: seq<Request>)
    ensures Closed(HistoryOf(requests))
  {
    var h := HistoryOf(requests);
    forall p | p in Distinct(h) ensures p != [] && (|p| > 1 ==> Parent(p) in Distinct(h)) {
      CountsAre(requests, p);
      NeverCounted(h, p);
      if |p| > 1 {
        CountsAre(requests, Parent(p));
        NeverCounted(h, Parent(p));
        ThroughParent(requests, p);
      }
    }
  }

  // ----- the order of the requests does not matter

  lemma {:induction false} ThroughAppend(a: seq<Request>, b: seq<Request>, p: Path)
    ensures Through(a + b, p) == Through(a, p) + Through(b, p)
    decreases |b|
  {
    hide PathOf;
    if b == [] {
      assert a + b == a;
    } else {
      assert (a + b)[..|a + b| - 1] == a + b[..|b| - 1];
      ThroughAppend(a, b[..|b| - 1], p);
    }
  }

  lemma {:induction false} ThroughRemove(requests: seq<Request>, i: nat, p: Path)
    requires i < |requests|
    ensures Through(requests, p) ==
      Through(requests[..i] + requests[i + 1..], p) + if p <= PathOf(requests[i]) then 1 else 0
  {
    assert requests == requests[..i + 1] + requests[i + 1..];
    ThroughAppend(requests[..i + 1], requests[i + 1..], p);
    ThroughAppend(requests[..i], requests[i + 1..], p);
    TakeOneMore(requests, i);
  }

  lemma RemoveAt<T>(s: seq<T>, i: nat)
    requires i < |s|
    ensures multiset(s[..i] + s[i + 1..]) == multiset(s) - multiset{s[i]}
  {
    assert s == s[..i] + [s[i]] + s[i + 1..];
  }

  lemma RemoveLast<T>(s: seq<T>)
    requires s != []
    ensures multiset(s[..|s| - 1]) == multiset(s) - multiset{s[|s| - 1]}
  {
    assert s == s[..|s| - 1] + [s[|s| - 1]];
  }

  /** The counts, and with them the set of nodes, depend only on which requests there are. */
  lemma {:induction false} ThroughPermuted(a: seq<Request>, b: seq<Request>, p: Path)
    requires multiset(a) == multiset(b)
    ensures Through(a, p) == Through(b, p)
  {
    assert |multiset(a)| == |a| && |multiset(b)| == |b|;
    if a != [] {
      var r := a[|a| - 1];
      assert r in multiset(b);
      var i :| 0 <= i < |b| && b[i] == r;
      RemoveLast(a);
      RemoveAt(b, i);
      ThroughPermuted(a[..|a| - 1], b[..i] + b[i + 1..], p);
      ThroughRemove(b, i, p);
    }
  }

  /** Whatever order the requests come in, the listed tree has the same nodes with the same counts;
      when no two requests tie on time and id, it is the same listing entry for entry. */
  lemma OrderIrrelevant(a: seq<Request>, b: seq<Request>)
    requires multiset(a) == multiset(b)
    ensures var g, h := HistoryOf(SortBy(RequestLeq, a)), HistoryOf(SortBy(RequestLeq, b));
      forall p :: (p in Distinct(g) <==> p in Distinct(h)) && Count(g, p) == Count(h, p)
    ensures NoTies(RequestLeq, a) ==>
      && Closed(HistoryOf(SortBy(RequestLeq, a))) && Closed(HistoryOf(SortBy(RequestLeq, b)))
      && Listing(HistoryOf(SortBy(RequestLeq, a))) == Listing(HistoryOf(SortBy(RequestLeq, b)))
  {
    var as', bs := SortBy(RequestLeq, a), SortBy(RequestLeq, b);
    forall p
      ensures (p in Distinct(HistoryOf(as')) <==> p in Distinct(HistoryOf(bs)))
      ensures Count(HistoryOf(as'), p) == Count(HistoryOf(bs), p)
    {
      ThroughPermuted(as', bs, p);
      CountsAre(as', p);
      CountsAre(bs, p);
      NeverCounted(HistoryOf(as'), p);
      NeverCounted(HistoryOf(bs), p);
    }
    ClosedHistory(as');
    ClosedHistory(bs);
    if NoTies(RequestLeq, a) {
      RequestOrder();
      SortByPermuted(RequestLeq, a, b);
    }
  }

  // ----- what the listing says of the requests

  /** The listing has one entry for every non-empty prefix of the requests' paths, each with the id and the parent of
      its path and the number of requests that run through it. */
  ghost predicate IsPrefixTree(listing: seq<Entry>, requests: seq<Request>)
  {
    exists paths :: ListsPaths(listing, requests, paths)
  }

  ghost predicate ListsPaths(listing: seq<Entry>, requests: seq<Request>, paths: seq<Path>)
  {
    && |paths| == |listing| && NoRepeats(paths)
    && (forall p :: p in paths <==> p != [] && exists r | r in requests :: p <= PathOf(r))
    && forall i | 0 <= i < |listing| ::
      && paths[i] != [] && listing[i].nodeId == NodeId(paths[i]) && listing[i].parent == ParentId(paths[i])
      && listing[i].repeatCount == Through(requests, paths[i])
  }

  lemma ListedEntry(h: History, i: nat)
    requires Closed(h) && i < |Forest(h)|
    ensures |Listing(h)| == |Forest(h)| && Forest(h)[i] in Distinct(h) && Forest(h)[i] != []
    ensures var e, p := Listing(h)[i], Forest(h)[i];
      e.nodeId == NodeId(p) && e.parent == ParentId(p) && e.repeatCount == Count(h, p)
  {
    hide Forest, Closed, NodeId, ParentId, Count, FirstEvent, LastEvent, Children, Ids;
    ForestStored(h);
    assert Forest(h)[i] in Forest(h);
  }

  lemma SameRequests(requests: seq<Request>, p: Path)
    ensures Through(SortBy(RequestLeq, requests), p) == Through(requests, p)
  {
    hide SortBy, Through;
    ThroughPermuted(SortBy(RequestLeq, requests), requests, p);
  }

  /** The walk visits the paths that are listed. */
  lemma PathsListed(requests: seq<Request>)
    ensures var h := HistoryOf(SortBy(RequestLeq, requests));
      Closed(h) && ListsPaths(Listing(h), requests, Forest(h))
  {
    hide HistoryOf, SortBy, PathOf, Through, NodeId, ParentId, Forest, Listing, Closed, Distinct, Count, InWalkOrder,
      SumCounts, KeysOf;
    var ordered := SortBy(RequestLeq, requests);
    var h := HistoryOf(ordered);
    var paths := Forest(h);
    ClosedHistory(ordered);
    ForestExact(h);
    forall p
      ensures p in paths <==> p != [] && exists r | r in requests :: p <= PathOf(r)
    {
      CountsAre(ordered, p);
      NeverCounted(h, p);
      SameRequests(requests, p);
      ThroughSome(requests, p);
    }
    forall i | 0 <= i < |paths|
      ensures |Listing(h)| == |paths| && paths[i] != []
      ensures Listing(h)[i].nodeId == NodeId(paths[i]) && Listing(h)[i].parent == ParentId(paths[i])
      ensures Listing(h)[i].repeatCount == Through(requests, paths[i])
    {
      ListedEntry(h, i);
      CountsAre(ordered, paths[i]);
      SameRequests(requests, paths[i]);
    }
    ListedLength(h);
  }

  lemma ListedPrefixTree(requests: seq<Request>)
    ensures Closed(HistoryOf(SortBy(RequestLeq, requests)))
    ensures IsPrefixTree(Listing(HistoryOf(SortBy(RequestLeq, requests))), requests)
  {
    hide ListsPaths;
    PathsListed(requests);
  }

  lemma ListedLength(h: History)
    requires Closed(h)
    ensures |Listing(h)| == |Forest(h)|
  {
    hide Forest, Closed;
    ForestStored(h);
  }
}
