/** The order in which the chat view shows a conversation: chains of only children, then forks. */
module ChatView {
  import opened Json
  import opened MessageKey
  import opened ConversationHistory
  import opened ConversationForest
  import opened ConversationTree

  /** The view's node map agrees with the conversation `h`. */
  ghost predicate Shows(nodeMap: map<string, Entry>, h: History)
  {
    forall p {:trigger EntryOf(h, p)} | p in Distinct(h) && p != [] ::
      NodeId(p) in nodeMap && nodeMap[NodeId(p)] == EntryOf(h, p)
  }

  lemma ShownAt(nodeMap: map<string, Entry>, h: History, p: Path)
    requires Shows(nodeMap, h) && p in Distinct(h) && p != []
    ensures NodeId(p) in nodeMap && nodeMap[NodeId(p)] == EntryOf(h, p)
  {
    var _ := EntryOf(h, p);
  }

  /** The walk from `start` so far: `line` is shown, and what is left is `last`'s subtree or, once `last`
      itself is shown, what lies below it. */
  ghost predicate OnLine(h: History, start: Path, line: seq<Path>, last: Path, ahead: bool)
  {
    && start in Distinct(h) && last in Distinct(h) && last != [] && |last| >= |start|
    && AllStored(h, line) && (ahead || (line != [] && line[|line| - 1] == last))
    && Preorder(h, start) == line + if ahead then Preorder(h, last) else PreorderAll(h, |last| + 1, Children(h, last))
  }

  lemma StartLine(h: History, start: Path)
    requires start in Distinct(h) && start != []
    ensures OnLine(h, start, [], start, true) && Entries(h, []) == []
  {
    hide Children, Distinct;
    assert [] + Preorder(h, start) == Preorder(h, start);
  }

  lemma PreorderSteps(h: History, p: Path)
    requires p in Distinct(h)
    ensures |Children(h, p)| == 1 ==>
      Children(h, p)[0] in Distinct(h) && |Children(h, p)[0]| == |p| + 1
      && Preorder(h, p) == [p] + Preorder(h, Children(h, p)[0])
  {
    hide Children, Distinct;
    if |Children(h, p)| == 1 {
      FirstBelowAll(h, p);
      FirstBelowNext(h, p, 0);
    }
  }

  lemma OneMore(h: History, line: seq<Path>, p: Path)
    requires AllStored(h, line) && p in Distinct(h) && p != []
    ensures AllStored(h, line + [p]) && Entries(h, line + [p]) == Entries(h, line) + [EntryOf(h, p)]
  {
    EntriesAppend(h, line, [p]);
    assert Entries(h, [p]) == [EntryOf(h, p)];
  }

  lemma StepOn(h: History, start: Path, line: seq<Path>, last: Path)
    requires OnLine(h, start, line, last, true)
    ensures |Children(h, last)| == 1 ==>
      |Children(h, last)[0]| == |last| + 1 && OnLine(h, start, line + [last], Children(h, last)[0], true)
    ensures |Children(h, last)| != 1 ==> OnLine(h, start, line + [last], last, false)
  {
    hide Children, Distinct;
    EntriesAppend(h, line, [last]);
    PreorderSteps(h, last);
    if |Children(h, last)| == 1 {
      Regroup(line, [last], Preorder(h, Children(h, last)[0]));
    } else {
      Regroup(line, [last], PreorderAll(h, |last| + 1, Children(h, last)));
    }
  }

  /** `chain` is the walk from `start` to the first node that is no only-child parent. */
  ghost predicate ChainAlong(h: History, start: Path, chain: seq<Entry>, line: seq<Path>, last: Path)
  {
    OnLine(h, start, line, last, false) && |Children(h, last)| != 1 && chain == Entries(h, line)
  }

  ghost predicate IsChain(h: History, start: Path, chain: seq<Entry>)
  {
    exists line, last :: ChainAlong(h, start, chain, line, last)
  }

  /** Collects a node and its line of only children, down to a leaf or a fork. */
  method FollowChain(startNodeId: string, nodeMap: map<string, Entry>, ghost h: History, ghost start: Path)
    returns (chain: seq<Entry>)
    requires Shows(nodeMap, h) && start in Distinct(h) && start != [] && startNodeId == NodeId(start)
    ensures IsChain(h, start, chain)
  {
    hide Children, Distinct;
    StartLine(h, start);
    chain := [];
    ghost var line, last := [], start;
    var cur := Some(startNodeId);
    while cur.Some?
      invariant OnLine(h, start, line, last, cur.Some?)
      invariant chain == Entries(h, line)
      invariant cur.Some? ==> cur.value == NodeId(last)
      invariant cur.None? ==> |Children(h, last)| != 1
      decreases MaxLength(Distinct(h)) - |last| + if cur.Some? then 1 else 0
    {
      // The lookup never misses, so the chain is never cut short.
      ShownAt(nodeMap, h, last);
      var node := nodeMap[cur.value];
      StepOn(h, start, line, last);
      OneMore(h, line, last);
      chain, line := chain + [node], line + [last];
      if |node.children| == 1 {
        last, cur := Children(h, last)[0], Some(node.children[0]);
      } else {
        cur := None;
      }
    }
    assert ChainAlong(h, start, chain, line, last);
  }

  /** One branch: the chain, then whatever forks at its end. The view has two copies of this, inside and
      outside a fork, that differ in colours only. */
  method LinearChain(startNodeId: string, nodeMap: map<string, Entry>, ghost h: History, ghost start: Path)
    returns (shown: seq<Entry>)
    requires Shows(nodeMap, h) && start in Distinct(h) && start != [] && startNodeId == NodeId(start)
    ensures AllStored(h, Preorder(h, start)) && shown == Entries(h, Preorder(h, start))
    decreases MaxLength(Distinct(h)) - |start|, 0
  {
    hide OnLine, Preorder, FirstBelow, EntryOf, Children, Distinct;
    shown := FollowChain(startNodeId, nodeMap, h, start);
    ghost var line, last :| ChainAlong(h, start, shown, line, last);
    LineEnd(h, start, line, last);
    var tail := shown[|shown| - 1].children;
    if |tail| > 1 {
      var rest := TreeBranch(tail, nodeMap, h, last);
      EntriesAppend(h, line, FirstBelow(h, last, |Children(h, last)|));
      shown := shown + rest;
    }
  }

  /** The chain's last entry, and what follows the chain. */
  lemma LineEnd(h: History, start: Path, line: seq<Path>, last: Path)
    requires OnLine(h, start, line, last, false)
    ensures AllStored(h, line) && last in Distinct(h) && last != [] && |start| <= |last|
    ensures |Entries(h, line)| > 0 && Entries(h, line)[|Entries(h, line)| - 1].children == Ids(Children(h, last))
    ensures Preorder(h, start) == line + FirstBelow(h, last, |Children(h, last)|)
    ensures Children(h, last) == [] ==> Preorder(h, start) == line
  {
    hide Children, Distinct, NodeId, FirstEvent, LastEvent, Count, FirstBelow, Preorder;
    FirstBelowAll(h, last);
    AppendNothing(line);
    LastOf(h, line);
  }

  lemma LastOf(h: History, line: seq<Path>)
    requires AllStored(h, line) && line != []
    ensures Entries(h, line)[|line| - 1] == EntryOf(h, line[|line| - 1])
  {
  }

  lemma AppendNothing(line: seq<Path>)
    ensures line + [] == line
  {
  }

  /** The children of a node, or the roots: alone, or side by side in a fork. */
  method TreeBranch(nodeIds: seq<string>, nodeMap: map<string, Entry>, ghost h: History, ghost parent: Path)
    returns (shown: seq<Entry>)
    requires Shows(nodeMap, h) && nodeIds == Ids(Children(h, parent))
    ensures var below := FirstBelow(h, parent, |Children(h, parent)|); AllStored(h, below) && shown == Entries(h, below)
    decreases MaxLength(Distinct(h)) - (|parent| + 1), 2
  {
    hide Children, Distinct;
    FirstBelowAll(h, parent);
    if |nodeIds| == 0 {
      shown := [];
    } else if |nodeIds| == 1 {
      FirstBelowNext(h, parent, 0);
      shown := LinearChain(nodeIds[0], nodeMap, h, Children(h, parent)[0]);
    } else {
      shown := ForkContainer(nodeIds, nodeMap, h, parent);
    }
  }

  /** Branches side by side, each shown from top to bottom. */
  method ForkContainer(nodeIds: seq<string>, nodeMap: map<string, Entry>, ghost h: History, ghost parent: Path)
    returns (shown: seq<Entry>)
    requires Shows(nodeMap, h) && nodeIds == Ids(Children(h, parent))
    ensures var below := FirstBelow(h, parent, |Children(h, parent)|); AllStored(h, below) && shown == Entries(h, below)
    decreases MaxLength(Distinct(h)) - (|parent| + 1), 1
  {
    hide Children, Distinct;
    shown := [];
    FirstBelowAll(h, parent);
    var i := 0;
    while i < |nodeIds|
      invariant 0 <= i <= |nodeIds|
      invariant AllStored(h, FirstBelow(h, parent, i)) && shown == Entries(h, FirstBelow(h, parent, i))
    {
      FirstBelowNext(h, parent, i);
      var branch := LinearChain(nodeIds[i], nodeMap, h, Children(h, parent)[i]);
      EntriesAppend(h, FirstBelow(h, parent, i), Preorder(h, Children(h, parent)[i]));
      shown := shown + branch;
      i := i + 1;
    }
  }

  // ----- the view as a whole

  /** The roots of a listing, in its order. */
  function RootIds(messages: seq<Entry>): seq<string>
  {
    if messages == [] then []
    else
      var m := messages[|messages| - 1];
      RootIds(messages[..|messages| - 1]) + (if m.parent.None? then [m.nodeId] else [])
  }

  /** The paths of length one, in their order. */
  ghost function RootsAmong(ps: seq<Path>): seq<Path>
  {
    if ps == [] then []
    else RootsAmong(ps[..|ps| - 1]) + if |ps[|ps| - 1]| == 1 then [ps[|ps| - 1]] else []
  }

  lemma EntryShape(h: History, p: Path)
    requires p in Distinct(h) && p != []
    ensures EntryOf(h, p).nodeId == NodeId(p) && (EntryOf(h, p).parent.None? <==> |p| == 1)
  {
  }

  lemma {:induction false} RootIdsOf(h: History, ps: seq<Path>)
    requires AllStored(h, ps)
    ensures RootIds(Entries(h, ps)) == Ids(RootsAmong(ps))
  {
    hide EntryOf, NodeId;
    if ps != [] {
      var front, p := ps[..|ps| - 1], ps[|ps| - 1];
      assert ps == front + [p];
      RootIdsOf(h, front);
      EntryShape(h, p);
      assert Entries(h, ps)[..|ps| - 1] == Entries(h, front);
      assert p in ps && (Parent(p) == [] <==> |p| == 1);
      IdsAppend(RootsAmong(front), [p]);
      assert Ids([p]) == [NodeId(p)];
    }
  }

  lemma {:induction false} RootsAmongAppend(a: seq<Path>, b: seq<Path>)
    ensures RootsAmong(a + b) == RootsAmong(a) + RootsAmong(b)
  {
    if b == [] {
      assert a + b == a;
    } else {
      assert (a + b)[..|a + b| - 1] == a + b[..|b| - 1];
      RootsAmongAppend(a, b[..|b| - 1]);
    }
  }

  lemma {:induction false} RootThenBelow(p: Path, below: seq<Path>)
    requires |p| == 1 && forall i | 0 <= i < |below| :: |below[i]| > 1
    ensures RootsAmong([p] + below) == [p]
  {
    var all := [p] + below;
    if below == [] {
      assert all == [p];
    } else {
      RootThenBelow(p, below[..|below| - 1]);
      assert all[..|all| - 1] == [p] + below[..|below| - 1];
    }
  }

  /** One root's part of the forest holds that root and no other. */
  lemma OneRoot(h: History, p: Path)
    requires p in Distinct(h) && |p| == 1
    ensures RootsAmong(Preorder(h, p)) == [p]
  {
    hide Children, Distinct;
    var below := PreorderAll(h, 2, Children(h, p));
    forall i | 0 <= i < |below| ensures |below[i]| > 1 {
      assert below[i] in below;
      var c := BelowPreorderAll(h, 2, Children(h, p), below[i]);
    }
    RootThenBelow(p, below);
  }

  /** Filtering the walk for roots gives the roots in their order. */
  lemma {:induction false} RootsListed(h: History, n: nat)
    requires n <= |Children(h, [])|
    ensures RootsAmong(FirstBelow(h, [], n)) == Children(h, [])[..n]
  {
    hide Children, Distinct, Preorder, FirstBelow;
    FirstBelowAll(h, []);
    if n > 0 {
      FirstBelowNext(h, [], n - 1);
      RootsListed(h, n - 1);
      OneRoot(h, Children(h, [])[n - 1]);
      RootsAmongAppend(FirstBelow(h, [], n - 1), Preorder(h, Children(h, [])[n - 1]));
    }
  }

  ghost predicate DistinctIds(messages: seq<Entry>)
  {
    forall i, j | 0 <= i < j < |messages| :: messages[i].nodeId != messages[j].nodeId
  }

  ghost predicate Indexes(nodeMap: map<string, Entry>, messages: seq<Entry>, n: nat)
  {
    && n <= |messages|
    && forall j | 0 <= j < n :: messages[j].nodeId in nodeMap && nodeMap[messages[j].nodeId] == messages[j]
  }

  /** The node map the view builds first. */
  method NodeMap(messages: seq<Entry>) returns (nodeMap: map<string, Entry>)
    requires DistinctIds(messages)
    ensures Indexes(nodeMap, messages, |messages|)
  {
    nodeMap := map[];
    var i := 0;
    while i < |messages|
      invariant 0 <= i <= |messages| && Indexes(nodeMap, messages, i)
    {
      nodeMap := nodeMap[messages[i].nodeId := messages[i]];
      i := i + 1;
    }
  }

  lemma ListingIds(h: History)
    requires Closed(h)
    ensures DistinctIds(Listing(h))
  {
    ForestExact(h);
    ForestStored(h);
    var forest := Forest(h);
    forall i, j | 0 <= i < j < |forest| ensures Listing(h)[i].nodeId != Listing(h)[j].nodeId {
      NodeIdInjective(forest[i], forest[j]);
    }
  }

  lemma ListingShows(h: History, nodeMap: map<string, Entry>)
    requires Closed(h) && Indexes(nodeMap, Listing(h), |Listing(h)|)
    ensures Shows(nodeMap, h)
  {
    hide Children, Distinct;
    ForestExact(h);
    ForestStored(h);
    forall p | p in Distinct(h) && p != [] ensures NodeId(p) in nodeMap && nodeMap[NodeId(p)] == EntryOf(h, p) {
      assert p in Forest(h);
      var j :| 0 <= j < |Forest(h)| && Forest(h)[j] == p;
      assert Listing(h)[j] == EntryOf(h, p);
    }
  }

  /** The chat view shows the listed messages in exactly the order they were listed. */
  method Timeline(messages: seq<Entry>, ghost h: History) returns (shown: seq<Entry>)
    requires Closed(h) && messages == Listing(h)
    ensures shown == messages
  {
    hide Children, Distinct;
    ListingIds(h);
    var nodeMap := NodeMap(messages);
    ListingShows(h, nodeMap);
    ForestStored(h);
    RootIdsOf(h, Forest(h));
    FirstBelowAll(h, []);
    RootsListed(h, |Children(h, [])|);
    assert Children(h, [])[..|Children(h, [])|] == Children(h, []);
    shown := TreeBranch(RootIds(messages), nodeMap, h, []);
  }
}
