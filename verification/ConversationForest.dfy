/** The order in which a depth-first walk of the conversation forest lists its nodes. */
module ConversationForest {
  import opened Sorting
  import opened MessageKey
  import opened ConversationHistory

  // ----- preorder

  ghost function MaxLength(ps: seq<Path>): (m: nat)
    ensures forall p {:trigger p in ps} | p in ps :: |p| <= m
  {
    if ps == [] then 0
    else
      var m := MaxLength(ps[..|ps| - 1]);
      assert ps == ps[..|ps| - 1] + [ps[|ps| - 1]];
      if |ps[|ps| - 1]| > m then |ps[|ps| - 1]| else m
  }

  /** `p`, then everything below it, child by child. */
  ghost function Preorder(h: History, p: Path): seq<Path>
    requires p in Distinct(h)
    decreases MaxLength(Distinct(h)) - |p|, 0
  {
    [p] + PreorderAll(h, |p| + 1, Children(h, p))
  }

  ghost function PreorderAll(h: History, depth: nat, ps: seq<Path>): seq<Path>
    requires forall p | p in ps :: p in Distinct(h) && |p| == depth
    decreases MaxLength(Distinct(h)) - depth, |ps|
  {
    if ps == [] then []
    else
      PreorderAll(h, depth, ps[..|ps| - 1]) + Preorder(h, ps[|ps| - 1])
  }

  /** The whole forest, root by root. */
  ghost function Forest(h: History): seq<Path>
  {
    PreorderAll(h, 1, Children(h, []))
  }

  lemma {:induction false} BelowPreorder(h: History, p: Path, q: Path)
    requires p in Distinct(h) && q in Preorder(h, p)
    ensures p <= q && q in Distinct(h)
    decreases MaxLength(Distinct(h)) - |p|, 0
  {
    hide Distinct;
    if q != p {
      assert q in PreorderAll(h, |p| + 1, Children(h, p));
      var c := BelowPreorderAll(h, |p| + 1, Children(h, p), q);
      assert Parent(c) == p;
    }
  }

  lemma {:induction false} BelowPreorderAll(h: History, depth: nat, ps: seq<Path>, q: Path) returns (c: Path)
    requires forall p | p in ps :: p in Distinct(h) && |p| == depth
    requires q in PreorderAll(h, depth, ps)
    ensures c in ps && c <= q && q in Distinct(h) && q in Preorder(h, c)
    decreases MaxLength(Distinct(h)) - depth, |ps|
  {
    c := ps[|ps| - 1];
    if q in Preorder(h, c) {
      BelowPreorder(h, c, q);
    } else {
      c := BelowPreorderAll(h, depth, ps[..|ps| - 1], q);
    }
  }

  lemma {:induction false} PreorderAllHas(h: History, depth: nat, ps: seq<Path>, c: Path, q: Path)
    requires forall p | p in ps :: p in Distinct(h) && |p| == depth
    requires c in ps && q in Preorder(h, c)
    ensures q in PreorderAll(h, depth, ps)
  {
    if c != ps[|ps| - 1] {
      assert ps == ps[..|ps| - 1] + [ps[|ps| - 1]];
      PreorderAllHas(h, depth, ps[..|ps| - 1], c, q);
    }
  }

  /** Everything inserted under `p` shows up in its preorder. */
  lemma {:induction false} PreorderComplete(h: History, p: Path, q: Path)
    requires Closed(h) && p in Distinct(h) && q in Distinct(h) && p <= q
    ensures q in Preorder(h, p)
    decreases |q| - |p|
  {
    if |q| == |p| {
      assert p == q;
    } else {
      var c := NextStep(h, p, q);
      PreorderComplete(h, c, q);
      PreorderAllHas(h, |p| + 1, Children(h, p), c, q);
    }
  }

  /** The child of `p` on the way down to `q`. */
  lemma NextStep(h: History, p: Path, q: Path) returns (c: Path)
    requires Closed(h) && q in Distinct(h) && p <= q && |p| < |q|
    ensures c in Children(h, p) && c in Distinct(h) && c <= q && |c| == |p| + 1
  {
    c := q[..|p| + 1];
    PrefixInserted(h, q, |p| + 1);
    assert Parent(c) == p;
  }

  lemma {:induction false} PrefixInserted(h: History, q: Path, n: nat)
    requires Closed(h) && q in Distinct(h) && 0 < n <= |q|
    ensures q[..n] in Distinct(h)
  {
    if n == |q| {
      assert q[..n] == q;
    } else {
      PrefixInserted(h, Parent(q), n);
      assert Parent(q)[..n] == q[..n];
    }
  }

  /** In a walk `p` precedes `q`: an ancestor comes first, and where two branches part,
      the branch that was inserted first comes first. */
  ghost predicate Before(h: History, p: Path, q: Path)
  {
    (p <= q && p != q) || exists k :: PartsAt(h, p, q, k)
  }

  ghost predicate PartsAt(h: History, p: Path, q: Path, k: nat)
  {
    && k < |p| && k < |q| && p[..k] == q[..k]
    && p[..k + 1] in Distinct(h) && q[..k + 1] in Distinct(h) && Rank(h, p[..k + 1]) < Rank(h, q[..k + 1])
  }

  lemma BeforeIrreflexive(h: History, p: Path)
    ensures !Before(h, p, p)
  {
  }

  ghost predicate InWalkOrder(h: History, ps: seq<Path>)
  {
    forall i, j | 0 <= i < j < |ps| :: Before(h, ps[i], ps[j])
  }

  ghost predicate ByRank(h: History, ps: seq<Path>)
  {
    && (forall p | p in ps :: p in Distinct(h))
    && forall i, j | 0 <= i < j < |ps| :: Rank(h, ps[i]) < Rank(h, ps[j])
  }

  lemma {:induction false} RankInRange(h: History, p: Path)
    requires p in Distinct(h)
    ensures Rank(h, p) < |Distinct(h)|
  {
    if p in Distinct(h.before) {
      RankInRange(h.before, p);
    }
  }

  lemma {:induction false} ChildrenByRank(h: History, p: Path)
    ensures ByRank(h, Children(h, p))
  {
    if h.Then? {
      ChildrenByRank(h.before, p);
      forall c | c in Children(h.before, p)
        ensures Rank(h, c) == Rank(h.before, c) < |Distinct(h.before)|
      {
        RankInRange(h.before, c);
      }
    }
  }

  lemma BelowComesLater(h: History, p: Path, q: Path)
    requires p in Distinct(h) && q in PreorderAll(h, |p| + 1, Children(h, p))
    ensures Before(h, p, q)
  {
    var c := BelowPreorderAll(h, |p| + 1, Children(h, p), q);
    assert Parent(c) == p;
  }

  lemma {:induction false} PreorderInOrder(h: History, p: Path)
    requires p in Distinct(h)
    ensures InWalkOrder(h, Preorder(h, p))
    decreases MaxLength(Distinct(h)) - |p|, 0
  {
    var below := PreorderAll(h, |p| + 1, Children(h, p));
    ChildrenByRank(h, p);
    PreorderAllInOrder(h, |p| + 1, Children(h, p), p);
    forall q | q in below ensures Before(h, p, q) {
      BelowComesLater(h, p, q);
    }
    assert InWalkOrder(h, [p]);
    OrderAppend(h, [p], below);
  }

  lemma {:induction false} PreorderAllInOrder(h: History, depth: nat, ps: seq<Path>, parent: Path)
    requires ByRank(h, ps) && depth == |parent| + 1
    requires forall p | p in ps :: |p| == depth && Parent(p) == parent
    ensures InWalkOrder(h, PreorderAll(h, depth, ps))
    decreases MaxLength(Distinct(h)) - depth, |ps|
  {
    if ps != [] {
      var front, last := ps[..|ps| - 1], ps[|ps| - 1];
      PreorderAllInOrder(h, depth, front, parent);
      PreorderInOrder(h, last);
      forall p, q | p in PreorderAll(h, depth, front) && q in Preorder(h, last) ensures Before(h, p, q) {
        var c := BelowPreorderAll(h, depth, front, p);
        BelowPreorder(h, last, q);
        var n :| 0 <= n < |front| && front[n] == c;
        assert Rank(h, ps[n]) < Rank(h, last);
        SiblingsPart(h, c, last, p, q);
      }
      OrderAppend(h, PreorderAll(h, depth, front), Preorder(h, last));
    }
  }

  lemma SiblingsPart(h: History, c: Path, d: Path, p: Path, q: Path)
    requires c in Distinct(h) && d in Distinct(h) && Rank(h, c) < Rank(h, d)
    requires c != [] && d != [] && Parent(c) == Parent(d) && c <= p && d <= q
    ensures Before(h, p, q)
  {
    var k := |c| - 1;
    assert |d| == |c|;
    assert p[..k + 1] == c && q[..k + 1] == d;
    assert p[..k] == Parent(c) && q[..k] == Parent(d);
    assert PartsAt(h, p, q, k);
  }

  lemma OrderAppend(h: History, a: seq<Path>, b: seq<Path>)
    requires InWalkOrder(h, a) && InWalkOrder(h, b)
    requires forall p, q | p in a && q in b :: Before(h, p, q)
    ensures InWalkOrder(h, a + b)
  {
  }

  /** The walk lists every node exactly once, in preorder by first appearance. */
  lemma ForestExact(h: History)
    requires Closed(h)
    ensures forall p :: p in Forest(h) <==> p in Distinct(h)
    ensures NoRepeats(Forest(h))
    ensures InWalkOrder(h, Forest(h))
    ensures |Forest(h)| == |Distinct(h)|
  {
    ChildrenByRank(h, []);
    PreorderAllInOrder(h, 1, Children(h, []), []);
    forall i, j | 0 <= i < j < |Forest(h)| ensures Forest(h)[i] != Forest(h)[j] {
      BeforeIrreflexive(h, Forest(h)[i]);
    }
    forall p ensures p in Forest(h) <==> p in Distinct(h) {
      if p in Forest(h) {
        var c := BelowPreorderAll(h, 1, Children(h, []), p);
      } else if p in Distinct(h) {
        PrefixInserted(h, p, 1);
        assert Parent(p[..1]) == [];
        PreorderComplete(h, p[..1], p);
        PreorderAllHas(h, 1, Children(h, []), p[..1], p);
      }
    }
    DistinctNoRepeats(h);
    SameLength(Forest(h), Distinct(h));
  }

  lemma {:induction false} SameLength<T>(s: seq<T>, t: seq<T>)
    requires NoRepeats(s) && NoRepeats(t)
    requires forall x :: x in s <==> x in t
    ensures |s| == |t|
  {
    ElementCount(s);
    ElementCount(t);
    assert (set x | x in s) == (set x | x in t);
  }

  lemma {:induction false} ElementCount<T>(s: seq<T>)
    requires NoRepeats(s)
    ensures |set x | x in s| == |s|
  {
    if s != [] {
      ElementCount(s[1..]);
      assert s == [s[0]] + s[1..];
      assert (set x | x in s) == {s[0]} + (set x | x in s[1..]);
    }
  }
}
