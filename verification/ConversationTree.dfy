/** The trie builder: a forest of messages kept by id, and its flat depth-first listing. */
module ConversationTree {
  import opened Json
  import opened MessageKey
  import opened ConversationHistory
  import opened ConversationForest

  /** A node as it is listed. Texts and tags that are derived from the message are not repeated here. */
  datatype Entry = Entry(
    nodeId: string,
    parent: Option<string>,
    children: seq<string>,
    message: Dict,
    origin: Origin,
    requestId: string,
    firstSeen: int,
    index: nat,
    lastSeen: int,
    repeatCount: nat)

  /** A node as it is stored: `_ordinal` is dropped from the listing. */
  datatype Node = Node(entry: Entry, ordinal: nat)

  /** The parent id a path's node carries. */
  function ParentId(p: Path): Option<string>
    requires p != []
  {
    if |p| == 1 then None else Some(NodeId(Parent(p)))
  }

  /** A node's id from its parent's: `root` stands in for a missing parent. */
  lemma NodeIdStep(p: Path)
    requires p != []
    ensures NodeId(p) == (match ParentId(p) case None => "root" case Some(id) => id) + "::" + JsonText.Text(p[|p| - 1])
  {
  }

  /** What the node of path `p` holds after the inserts `h`. */
  ghost function EntryOf(h: History, p: Path): Entry
    requires p in Distinct(h) && p != []
  {
    var first := FirstEvent(h, p);
    Entry(NodeId(p), ParentId(p), Ids(Children(h, p)),
          first.message, first.origin, first.request.id, first.request.timestamp, first.index,
          LastEvent(h, p).request.timestamp, Count(h, p))
  }

  ghost function NodeOf(h: History, p: Path): Node
    requires p in Distinct(h) && p != []
  {
    Node(EntryOf(h, p), Rank(h, p))
  }

  /** The stored form of a node seen once more. */
  function Touch(node: Node, time: int): Node
  {
    node.(entry := node.entry.(repeatCount := node.entry.repeatCount + 1, lastSeen := time))
  }

  /** Appends an id that is not listed yet. */
  function AppendAbsent(ids: seq<string>, id: string): seq<string>
  {
    if id in ids then ids else ids + [id]
  }

  /** The stored form of a node that gains a child. */
  function AddChild(node: Node, id: string): Node
  {
    node.(entry := node.entry.(children := AppendAbsent(node.entry.children, id)))
  }

  lemma IdsAppend(ps: seq<Path>, qs: seq<Path>)
    ensures Ids(ps + qs) == Ids(ps) + Ids(qs)
  {
  }

  /** What an insert at another path leaves alone. */
  lemma OtherPathKept(h: History, e: Event, p: Path)
    requires p in Distinct(h) && p != e.path
    ensures p in Distinct(Then(h, e))
    ensures FirstEvent(Then(h, e), p) == FirstEvent(h, p) && LastEvent(Then(h, e), p) == LastEvent(h, p)
    ensures Count(Then(h, e), p) == Count(h, p) && Rank(Then(h, e), p) == Rank(h, p)
  {
    DistinctSnoc(h, e);
  }

  /** A repeated insert touches one node. */
  lemma NodeAfterRepeat(h: History, e: Event, p: Path)
    requires Closed(h) && e.path in Distinct(h) && p in Distinct(h)
    ensures Distinct(Then(h, e)) == Distinct(h)
    ensures NodeOf(Then(h, e), p) == if p == e.path then Touch(NodeOf(h, p), e.request.timestamp) else NodeOf(h, p)
  {
    DistinctSnoc(h, e);
    if p != e.path {
      OtherPathKept(h, e, p);
    }
  }

  /** An id that is not stored is nobody's child either. */
  lemma NotListed(h: History, p: Path, q: Path)
    requires p !in Distinct(h)
    ensures NodeId(p) !in Ids(Children(h, q))
  {
    var ids := Ids(Children(h, q));
    forall i | 0 <= i < |ids| ensures ids[i] != NodeId(p) {
      assert Children(h, q)[i] in Children(h, q);
      NodeIdInjective(p, Children(h, q)[i]);
    }
  }

  /** A new path leaves every node as it was, except that its parent gains one child. */
  lemma NodeAfterNew(h: History, e: Event, p: Path)
    requires Closed(h) && e.path !in Distinct(h) && p in Distinct(h) && e.path != []
    ensures p in Distinct(Then(h, e))
    ensures NodeOf(Then(h, e), p) ==
      if p == Parent(e.path) then AddChild(NodeOf(h, p), NodeId(e.path)) else NodeOf(h, p)
  {
    hide NodeId, FirstEvent, LastEvent, Count, Rank, ParentId;
    OtherPathKept(h, e, p);
    DistinctSnoc(h, e);
    if p == Parent(e.path) {
      NotListed(h, e.path, p);
      IdsAppend(Children(h, p), [e.path]);
      assert Ids([e.path]) == [NodeId(e.path)];
    } else {
      assert Children(Then(h, e), p) == Children(h, p);
    }
  }

  /** A node as first stored. */
  function FreshNode(e: Event, ordinal: nat): Node
    requires e.path != []
  {
    Node(Entry(NodeId(e.path), ParentId(e.path), [],
               e.message, e.origin, e.request.id, e.request.timestamp, e.index, e.request.timestamp, 1), ordinal)
  }

  lemma NodeOfNew(h: History, e: Event)
    requires Closed(h) && e.path !in Distinct(h) && e.path != []
    ensures e.path in Distinct(Then(h, e))
    ensures NodeOf(Then(h, e), e.path) == FreshNode(e, |Distinct(h)|)
  {
    DistinctSnoc(h, e);
    NeverCounted(h, e.path);
    NoOrphans(h, e.path);
  }

  lemma ParentStored(h: History, p: Path, i: nat)
    requires Closed(h) && p != [] && i < |Children(h, p)|
    ensures p in Distinct(h)
  {
    var q := Children(h, p)[i];
    assert q in Children(h, p);
    var _ := Parent(q);
  }

  lemma NoOrphans(h: History, p: Path)
    requires Closed(h) && p !in Distinct(h) && p != []
    ensures Children(h, p) == []
  {
    if Children(h, p) != [] {
      ParentStored(h, p, 0);
    }
  }

  /** The roots change only when a new path of length one arrives. */
  lemma RootsAfter(h: History, e: Event)
    requires e.path != []
    ensures Ids(Children(Then(h, e), [])) ==
      if e.path !in Distinct(h) && |e.path| == 1 then AppendAbsent(Ids(Children(h, [])), NodeId(e.path))
      else Ids(Children(h, []))
  {
    assert Parent(e.path) == [] <==> |e.path| == 1;
    DistinctSnoc(h, e);
    IdsAppend(Children(h, []), [e.path]);
    assert Ids([e.path]) == [NodeId(e.path)];
    if e.path !in Distinct(h) {
      NotListed(h, e.path, []);
    }
  }

  ghost predicate KnownId(h: History, id: string)
  {
    exists p :: p in Distinct(h) && NodeId(p) == id
  }

  /** The stored nodes are exactly what the inserts `h` call for. */
  ghost predicate Represents(nodes: map<string, Node>, h: History)
  {
    && Closed(h)
    && (forall id {:trigger KnownId(h, id)} | id in nodes :: KnownId(h, id))
    && forall p {:trigger NodeOf(h, p)} | p in Distinct(h) :: NodeId(p) in nodes && nodes[NodeId(p)] == NodeOf(h, p)
  }

  /** A node is stored under a path's id exactly when the path was inserted. */
  lemma Stored(nodes: map<string, Node>, h: History, p: Path)
    requires Represents(nodes, h)
    ensures NodeId(p) in nodes <==> p in Distinct(h)
    ensures p in Distinct(h) ==> p != [] && nodes[NodeId(p)] == NodeOf(h, p)
  {
    if NodeId(p) in nodes {
      assert KnownId(h, NodeId(p));
      var q :| q in Distinct(h) && NodeId(q) == NodeId(p);
      NodeIdInjective(p, q);
    }
    if p in Distinct(h) {
      var _ := NodeOf(h, p);
    }
  }

  lemma RepresentsRepeat(nodes: map<string, Node>, h: History, e: Event)
    requires Represents(nodes, h) && e.path in Distinct(h)
    ensures NodeId(e.path) in nodes
    ensures Represents(nodes[NodeId(e.path) := Touch(nodes[NodeId(e.path)], e.request.timestamp)], Then(h, e))
  {
    Stored(nodes, h, e.path);
    var nodes' := nodes[NodeId(e.path) := Touch(nodes[NodeId(e.path)], e.request.timestamp)];
    DistinctSnoc(h, e);
    assert Distinct(Then(h, e)) == Distinct(h);
    forall p | p in Distinct(h) ensures NodeId(p) in nodes' && nodes'[NodeId(p)] == NodeOf(Then(h, e), p) {
      Stored(nodes, h, p);
      NodeAfterRepeat(h, e, p);
      NodeIdInjective(p, e.path);
    }
    assert Closed(Then(h, e));
    forall id | id in nodes' ensures KnownId(Then(h, e), id) {
      assert KnownId(h, id);
    }
  }

  lemma ClosedSnoc(h: History, e: Event)
    requires Closed(h) && e.path != [] && (|e.path| == 1 || Parent(e.path) in Distinct(h))
    ensures Closed(Then(h, e))
  {
    DistinctSnoc(h, e);
  }

  /** The stored nodes after a new path: its own node, and one more child at its parent. */
  ghost function WithNew(nodes: map<string, Node>, h: History, e: Event): map<string, Node>
    requires e.path != []
    requires |e.path| == 1 || NodeId(Parent(e.path)) in nodes
  {
    var added := nodes[NodeId(e.path) := FreshNode(e, |Distinct(h)|)];
    if |e.path| == 1 then added
    else added[NodeId(Parent(e.path)) := AddChild(nodes[NodeId(Parent(e.path))], NodeId(e.path))]
  }

  lemma NewAt(nodes: map<string, Node>, h: History, e: Event, p: Path)
    requires Represents(nodes, h) && e.path !in Distinct(h) && e.path != []
    requires |e.path| == 1 || Parent(e.path) in Distinct(h)
    requires |e.path| == 1 || NodeId(Parent(e.path)) in nodes
    requires p in Distinct(Then(h, e)) && p != []
    ensures NodeId(p) in WithNew(nodes, h, e) && WithNew(nodes, h, e)[NodeId(p)] == NodeOf(Then(h, e), p)
  {
    DistinctSnoc(h, e);
    NodeIdInjective(p, e.path);
    NodeIdInjective(p, Parent(e.path));
    NodeIdInjective(e.path, Parent(e.path));
    if p == e.path {
      NodeOfNew(h, e);
    } else {
      Stored(nodes, h, p);
      NodeAfterNew(h, e, p);
    }
  }

  lemma RepresentsNew(nodes: map<string, Node>, h: History, e: Event)
    requires Represents(nodes, h) && e.path !in Distinct(h) && e.path != []
    requires |e.path| == 1 || Parent(e.path) in Distinct(h)
    ensures |e.path| == 1 || NodeId(Parent(e.path)) in nodes
    ensures var added := nodes[NodeId(e.path) := FreshNode(e, |Distinct(h)|)];
      |e.path| == 1 ==> Represents(added, Then(h, e))
    ensures var added, id := nodes[NodeId(e.path) := FreshNode(e, |Distinct(h)|)], NodeId(Parent(e.path));
      |e.path| > 1 ==> Represents(added[id := AddChild(nodes[id], NodeId(e.path))], Then(h, e))
  {
    hide Distinct, NodeId, NodeOf, FreshNode, AddChild;
    Stored(nodes, h, Parent(e.path));
    DistinctSnoc(h, e);
    ClosedSnoc(h, e);
    forall id | id in WithNew(nodes, h, e) ensures KnownId(Then(h, e), id) {
      assert id in nodes ==> KnownId(h, id);
      assert e.path in Distinct(Then(h, e));
    }
    forall p | p in Distinct(Then(h, e))
      ensures NodeId(p) in WithNew(nodes, h, e) && WithNew(nodes, h, e)[NodeId(p)] == NodeOf(Then(h, e), p)
    {
      NewAt(nodes, h, e, p);
    }
  }

  /** What the code relies on when it stores a new node and links it to its parent. */
  lemma Linkable(nodes: map<string, Node>, h: History, e: Event)
    requires Represents(nodes, h) && e.path !in Distinct(h) && e.path != []
    requires |e.path| == 1 || Parent(e.path) in Distinct(h)
    ensures |e.path| > 1 ==>
      var id := NodeId(Parent(e.path));
      id in nodes && id != NodeId(e.path)
  {
    if |e.path| > 1 {
      Stored(nodes, h, Parent(e.path));
      NodeIdInjective(e.path, Parent(e.path));
    }
  }

  // ----- listings

  ghost function IdSet(ps: seq<Path>): set<string>
  {
    set p | p in ps :: NodeId(p)
  }

  ghost predicate AllStored(h: History, ps: seq<Path>)
  {
    forall p | p in ps :: p in Distinct(h) && p != []
  }

  ghost function Entries(h: History, ps: seq<Path>): (r: seq<Entry>)
    requires AllStored(h, ps)
    ensures |r| == |ps| && forall i | 0 <= i < |ps| :: r[i] == EntryOf(h, ps[i])
  {
    seq(|ps|, i requires 0 <= i < |ps| => EntryOf(h, ps[i]))
  }

  /** The walk went over `ps`: it marked their ids and listed their entries. */
  ghost predicate Walked(h: History, ps: seq<Path>, visited: set<string>, result: seq<Entry>,
                         visited': set<string>, result': seq<Entry>)
  {
    AllStored(h, ps) && visited' == visited + IdSet(ps) && result' == result + Entries(h, ps)
  }

  lemma WalkedNone(h: History)
    ensures FirstBelow(h, [], 0) == []
    ensures Walked(h, [], {}, [], {}, [])
  {
    FirstBelowAll(h, []);
    assert Entries(h, []) == [];
  }

  lemma WalkedOne(h: History, p: Path, visited: set<string>, result: seq<Entry>)
    requires p in Distinct(h) && p != []
    ensures Walked(h, [p] + FirstBelow(h, p, 0), visited, result, visited + {NodeId(p)}, result + [EntryOf(h, p)])
  {
    FirstBelowAll(h, p);
    assert [p] + FirstBelow(h, p, 0) == [p];
    assert IdSet([p]) == {NodeId(p)};
    assert Entries(h, [p]) == [EntryOf(h, p)];
  }

  lemma WalkedOn(h: History, ps: seq<Path>, qs: seq<Path>, v: set<string>, r: seq<Entry>,
                 v': set<string>, r': seq<Entry>, v'': set<string>, r'': seq<Entry>)
    requires Walked(h, ps, v, r, v', r') && Walked(h, qs, v', r', v'', r'')
    ensures Walked(h, ps + qs, v, r, v'', r'')
  {
    EntriesAppend(h, ps, qs);
    IdSetAppend(ps, qs);
    Regroup(r, Entries(h, ps), Entries(h, qs));
  }

  lemma Regroup<T>(a: seq<T>, b: seq<T>, c: seq<T>)
    ensures a + b + c == a + (b + c)
  {
  }

  lemma IdSetAppend(ps: seq<Path>, qs: seq<Path>)
    ensures IdSet(ps + qs) == IdSet(ps) + IdSet(qs)
  {
  }

  lemma EntriesAppend(h: History, ps: seq<Path>, qs: seq<Path>)
    requires AllStored(h, ps) && AllStored(h, qs)
    ensures AllStored(h, ps + qs) && Entries(h, ps + qs) == Entries(h, ps) + Entries(h, qs)
  {
  }

  lemma ChildFacts(h: History, p: Path, n: nat)
    requires n <= |Children(h, p)|
    ensures forall k | k in Children(h, p)[..n] :: k in Children(h, p) && k in Distinct(h) && |k| == |p| + 1
    ensures forall i | 0 <= i < n :: Children(h, p)[i] in Distinct(h) && |Children(h, p)[i]| == |p| + 1
  {
    hide Children, Distinct;
    var kids := Children(h, p);
    forall i | 0 <= i < n ensures kids[i] in kids && kids[i] in Distinct(h) && |kids[i]| == |p| + 1 {
      assert kids[i] in kids;
      assert Parent(kids[i]) == p;
    }
  }

  /** What a walk lists below `p` by the time it has handled `n` children. */
  ghost function FirstBelow(h: History, p: Path, n: nat): seq<Path>
    requires n <= |Children(h, p)|
  {
    var kids := Children(h, p);
    ChildFacts(h, p, n);
    PreorderAll(h, |p| + 1, kids[..n])
  }

  lemma FirstBelowNext(h: History, p: Path, n: nat)
    requires n < |Children(h, p)|
    ensures Children(h, p)[n] in Distinct(h) && |Children(h, p)[n]| == |p| + 1
    ensures FirstBelow(h, p, n + 1) == FirstBelow(h, p, n) + Preorder(h, Children(h, p)[n])
  {
    hide Children, Distinct;
    var kids := Children(h, p);
    ChildFacts(h, p, n + 1);
    assert kids[..n + 1][..n] == kids[..n];
  }

  lemma FirstBelowAll(h: History, p: Path)
    ensures FirstBelow(h, p, |Children(h, p)|) == PreorderAll(h, |p| + 1, Children(h, p))
    ensures FirstBelow(h, p, 0) == []
  {
    hide Children, Distinct;
    assert Children(h, p)[..|Children(h, p)|] == Children(h, p);
  }

  /** Sibling subtrees share no node. */
  lemma SiblingsDisjoint(h: History, p: Path, n: nat)
    requires n < |Children(h, p)| && Children(h, p)[n] in Distinct(h)
    ensures IdSet(Preorder(h, Children(h, p)[n])) !! IdSet(FirstBelow(h, p, n))
  {
    hide Children, Distinct;
    ChildFacts(h, p, n + 1);
    forall q, r | q in Preorder(h, Children(h, p)[n]) && r in FirstBelow(h, p, n) ensures NodeId(q) != NodeId(r) {
      NodeIdInjective(q, r);
      ApartFromEarlier(h, p, n, q, r);
    }
  }

  lemma ApartFromEarlier(h: History, p: Path, n: nat, q: Path, r: Path)
    requires n < |Children(h, p)| && Children(h, p)[n] in Distinct(h)
    requires q in Preorder(h, Children(h, p)[n]) && r in FirstBelow(h, p, n)
    ensures q != r
  {
    hide Children, Distinct, PreorderAll, Preorder, Rank, MaxLength;
    var kids := Children(h, p);
    ChildFacts(h, p, n + 1);
    ChildrenByRank(h, p);
    BelowPreorder(h, kids[n], q);
    var c := BelowPreorderAll(h, |p| + 1, kids[..n], r);
    var j :| 0 <= j < n && kids[..n][j] == c;
    assert Rank(h, kids[j]) < Rank(h, kids[n]);
    if q == r {
      SamePrefix(c, kids[n], q);
    }
  }

  lemma SamePrefix(a: Path, b: Path, p: Path)
    requires a <= p && b <= p && |a| == |b|
    ensures a == b
  {
  }

  /** Before the walk enters the `n`-th child, nothing below that child has been visited. */
  lemma Unvisited(h: History, p: Path, n: nat, visited: set<string>)
    requires p in Distinct(h) && n < |Children(h, p)|
    requires IdSet(Preorder(h, p)) !! visited
    ensures Children(h, p)[n] in Distinct(h) && |Children(h, p)[n]| == |p| + 1
    ensures IdSet(Preorder(h, Children(h, p)[n])) !! visited + IdSet([p] + FirstBelow(h, p, n))
  {
    var kid := Children(h, p)[n];
    ChildFacts(h, p, n + 1);
    SiblingsDisjoint(h, p, n);
    IdSetAppend([p], FirstBelow(h, p, n));
    forall q | q in Preorder(h, kid) ensures NodeId(q) in IdSet(Preorder(h, p)) && NodeId(q) != NodeId(p) {
      ChildBelow(h, p, n, q);
      NodeIdInjective(q, p);
    }
  }

  lemma ChildBelow(h: History, p: Path, n: nat, q: Path)
    requires p in Distinct(h) && n < |Children(h, p)| && Children(h, p)[n] in Distinct(h)
    requires q in Preorder(h, Children(h, p)[n])
    ensures q in Preorder(h, p) && q != p
  {
    ChildFacts(h, p, n + 1);
    PreorderAllHas(h, |p| + 1, Children(h, p), Children(h, p)[n], q);
    BelowPreorder(h, Children(h, p)[n], q);
  }

  /** The flat listing of the forest. */
  ghost function Listing(h: History): seq<Entry>
    requires Closed(h)
  {
    ForestStored(h);
    Entries(h, Forest(h))
  }

  lemma ForestStored(h: History)
    requires Closed(h)
    ensures AllStored(h, Forest(h))
  {
    ForestExact(h);
  }

  class TreeBuilder {
    var nodes: map<string, Node>
    var rootIds: seq<string>
    var ordinal: nat
    ghost var history: History

    /** The fields are exactly what the inserts so far call for. */
    ghost predicate Valid()
      reads this
    {
      && Represents(nodes, history)
      && rootIds == Ids(Children(history, []))
      && ordinal == |Distinct(history)|
    }

    constructor ()
      ensures Valid() && history == Start
    {
      nodes, rootIds, ordinal, history := map[], [], 0, Start;
    }

    /** Counts a repeated message at its node, or adds a node under its parent. */
    method Insert(message: Dict, request: Request, origin: Origin, index: nat, parentId: Option<string>,
        ghost path: Path)
      returns (nodeId: string)
      requires Valid()
      requires path != [] && path[|path| - 1] == KeyOf(message) && parentId == ParentId(path)
      requires |path| == 1 || Parent(path) in Distinct(history)
      modifies this
      ensures Valid()
      ensures history == Then(old(history), Event(path, message, request, origin, index))
      ensures nodeId == NodeId(path) && path in Distinct(history)
    {
      hide NodeOf, NodeId, Ids, Children, Distinct;
      ghost var event := Event(path, message, request, origin, index);
      var signature := Signature(message);
      nodeId := (match parentId case None => "root" case Some(id) => id) + "::" + signature;
      NodeIdStep(path);
      Stored(nodes, history, path);
      RootsAfter(history, event);
      DistinctSnoc(history, event);

      if nodeId in nodes {
        RepresentsRepeat(nodes, history, event);
        nodes := nodes[nodeId := Touch(nodes[nodeId], request.timestamp)];
      } else {
        var entry := Entry(nodeId, parentId, [], message, origin, request.id, request.timestamp, index,
          request.timestamp, 1);
        StoreNew(entry, event);
      }
      history := Then(history, event);
    }

    /** The second half of `insert`: stores a node that was not there and lists it once, under its parent or as a
        root. */
    method StoreNew(entry: Entry, ghost event: Event)
      requires Valid()
      requires event.path !in Distinct(history) && event.path != []
      requires |event.path| == 1 || Parent(event.path) in Distinct(history)
      requires entry == FreshNode(event, ordinal).entry
      modifies `nodes, `rootIds, `ordinal
      ensures Represents(nodes, Then(history, event))
      ensures rootIds == Ids(Children(Then(history, event), []))
      ensures ordinal == old(ordinal) + 1
    {
      RepresentsNew(nodes, history, event);
      Linkable(nodes, history, event);
      RootsAfter(history, event);
      nodes := nodes[entry.nodeId := Node(entry, ordinal)];
      ordinal := ordinal + 1;

      if entry.parent.None? {
        rootIds := AppendAbsent(rootIds, entry.nodeId);
      } else {
        nodes := nodes[entry.parent.value := AddChild(nodes[entry.parent.value], entry.nodeId)];
      }
    }

    /** Lists a node and everything below it. The `visited` guard never fires. */
    method Walk(nodeId: string, ghost p: Path, visited: set<string>, result: seq<Entry>)
      returns (visited': set<string>, result': seq<Entry>)
      requires Valid() && p in Distinct(history) && nodeId == NodeId(p)
      requires IdSet(Preorder(history, p)) !! visited
      ensures Walked(history, Preorder(history, p), visited, result, visited', result')
      decreases MaxLength(Distinct(history)) - |p|
    {
      hide Children, Distinct, FirstBelow, PreorderAll, NodeId, FirstEvent, LastEvent, Count, Rank;
      Stored(nodes, history, p);
      FirstBelowAll(history, p);
      assert p in Preorder(history, p);
      visited', result' := visited, result;
      if nodeId in visited {
        assert false;
      } else {
        visited' := visited' + {nodeId};
        result' := result' + [nodes[nodeId].entry];
        WalkedOne(history, p, visited, result);
        var children := nodes[nodeId].entry.children;
        var i := 0;
        while i < |children|
          invariant 0 <= i <= |children| == |Children(history, p)|
          invariant Walked(history, [p] + FirstBelow(history, p, i), visited, result, visited', result')
        {
          ghost var kid := Children(history, p)[i];
          Unvisited(history, p, i, visited);
          ghost var v, r := visited', result';
          visited', result' := Walk(children[i], kid, visited', result');
          WalkedOn(history, [p] + FirstBelow(history, p, i), Preorder(history, kid), visited, result, v, r, visited',
            result');
          FirstBelowNext(history, p, i);
          Regroup([p], FirstBelow(history, p, i), Preorder(history, kid));
          i := i + 1;
        }
      }
    }

    /** All nodes, depth first, each with its parent and children. */
    method ToList() returns (result: seq<Entry>)
      requires Valid()
      ensures result == Listing(history)
    {
      hide Children, Distinct;
      result := [];
      var visited: set<string> := {};
      WalkedNone(history);
      var i := 0;
      while i < |rootIds|
        invariant 0 <= i <= |rootIds| == |Children(history, [])|
        invariant Walked(history, FirstBelow(history, [], i), {}, [], visited, result)
      {
        ghost var kid := Children(history, [])[i];
        FirstBelowNext(history, [], i);
        SiblingsDisjoint(history, [], i);
        ghost var v, r := visited, result;
        visited, result := Walk(rootIds[i], kid, visited, result);
        WalkedOn(history, FirstBelow(history, [], i), Preorder(history, kid), {}, [], v, r, visited, result);
        i := i + 1;
      }
      FirstBelowAll(history, []);
    }
  }
}
