/** What identifies a message in the conversation tree, and the ids built from it. */
module MessageKey {
  import opened Json
  import opened JsonText
  import opened JsonEquality

  function Kept(message: Dict, k: string): (r: Dict)
  {
    match Get(message, k)
    case None => []
    case Some(v) => [Field(k, v)]
  }

  predicate AlwaysKept(k: string)
  {
    k == "role" || k == "content" || k == "tool_calls" || k == "tool_call_id"
  }

  predicate IsToolMessage(message: Dict)
  {
    Get(message, "role") == Some(Str("tool"))
  }

  /** The fields that take part in the signature, in the order the code collects them. */
  function Semantic(message: Dict): Dict
  {
    Kept(message, "role") + Kept(message, "content") + Kept(message, "tool_calls") + Kept(message, "tool_call_id")
    + (if IsToolMessage(message) then Kept(message, "name") else [])
  }

  function Signature(message: Dict): string
  {
    Dumps(Obj(Semantic(message)))
  }

  /** A message's canonical content: its semantic fields with keys in order at every depth. */
  type Key = v: Value | v.Obj? witness Obj([])

  function KeyOf(message: Dict): (k: Key)
    ensures Text(k) == Signature(message)
  {
    SortKeys(Obj(Semantic(message)))
  }

  /** The messages from a root down to a node. */
  type Path = seq<Key>

  /** The id `insert` builds: the parent's id (or `root`), `::` and the signature. */
  function NodeId(p: Path): string
  {
    if p == [] then "root" else NodeId(p[..|p| - 1]) + "::" + Text(p[|p| - 1])
  }

  // ----- ids identify paths

  /** The id's part below `root`, read from the root downwards. */
  function Below(p: Path): string
  {
    if p == [] then "" else "::" + (Text(p[0]) + Below(p[1..]))
  }

  lemma {:induction false} BelowSnoc(p: Path, k: Key)
    ensures Below(p + [k]) == Below(p) + ("::" + Text(k))
  {
    if p == [] {
      assert p + [k] == [k];
      assert Below([k][1..]) == "";
      assert Text(k) + "" == Text(k);
    } else {
      BelowSnoc(p[1..], k);
      assert (p + [k])[1..] == p[1..] + [k];
      var b, t := Below(p[1..]), "::" + Text(k);
      Associate(Text(p[0]), b, t);
      Associate("::", Text(p[0]) + b, t);
    }
  }

  lemma {:induction false} NodeIdFromRoot(p: Path)
    ensures NodeId(p) == "root" + Below(p)
  {
    if p != [] {
      var front, k := p[..|p| - 1], p[|p| - 1];
      NodeIdFromRoot(front);
      assert p == front + [k];
      BelowSnoc(front, k);
      assert "root" + Below(front) + "::" + Text(k) == "root" + (Below(front) + ("::" + Text(k)));
    }
  }

  lemma {:induction false} BelowUnique(p: Path, q: Path)
    requires Below(p) == Below(q)
    ensures p == q
  {
    if p != [] && q != [] {
      Cancel("::", Text(p[0]) + Below(p[1..]), Text(q[0]) + Below(q[1..]));
      TextUnique(p[0], q[0], Below(p[1..]), Below(q[1..]));
      BelowUnique(p[1..], q[1..]);
      assert p == [p[0]] + p[1..] && q == [q[0]] + q[1..];
    }
  }

  /** Two places in the forest have the same id exactly when every message on the way agrees,
      even when message text contains `::`, quotes or braces. */
  lemma NodeIdInjective(p: Path, q: Path)
    ensures NodeId(p) == NodeId(q) <==> p == q
  {
    if NodeId(p) == NodeId(q) {
      NodeIdFromRoot(p);
      NodeIdFromRoot(q);
      Cancel("root", Below(p), Below(q));
      BelowUnique(p, q);
    }
  }

  /** A child's id is strictly longer than its parent's. */
  lemma ChildIdLonger(p: Path, k: Key)
    ensures |NodeId(p + [k])| > |NodeId(p)|
  {
    assert (p + [k])[..|p|] == p;
  }

  // ----- which messages share a key

  /** The messages agree on everything the signature keeps. */
  ghost predicate SameMessage(m: Dict, n: Dict)
  {
    && SameEntry(Get(m, "role"), Get(n, "role")) && SameEntry(Get(m, "content"), Get(n, "content"))
    && SameEntry(Get(m, "tool_calls"), Get(n, "tool_calls"))
    && SameEntry(Get(m, "tool_call_id"), Get(n, "tool_call_id"))
    && (Get(m, "role") == Some(Str("tool")) ==> SameEntry(Get(m, "name"), Get(n, "name")))
  }

  lemma KeptWellFormed(m: Dict, k: string)
    requires WellFormed(Obj(m))
    ensures WellFormed(Obj(Kept(m, k))) && KeySet(Kept(m, k)) <= {k}
  {
    if Get(m, k).Some? {
      WellFormedGet(m, k);
    }
  }

  lemma SemanticWellFormed(m: Dict)
    requires WellFormed(Obj(m))
    ensures WellFormed(Obj(Semantic(m)))
  {
    var a, b, c, d := Kept(m, "role"), Kept(m, "content"), Kept(m, "tool_calls"), Kept(m, "tool_call_id");
    KeptWellFormed(m, "role");
    KeptWellFormed(m, "content");
    KeptWellFormed(m, "tool_calls");
    KeptWellFormed(m, "tool_call_id");
    KeptWellFormed(m, "name");
    ConcatWellFormed(a, b);
    ConcatWellFormed(a + b, c);
    ConcatWellFormed(a + b + c, d);
    ConcatWellFormed(a + b + c + d, if IsToolMessage(m) then Kept(m, "name") else []);
  }

  lemma {:induction false} GetConcat(a: Dict, b: Dict, k: string)
    ensures Get(a + b, k) == if Get(a, k).Some? then Get(a, k) else Get(b, k)
  {
    if a == [] {
      assert a + b == b;
    } else {
      assert (a + b)[1..] == a[1..] + b;
      GetConcat(a[1..], b, k);
    }
  }

  lemma KeptGet(m: Dict, k: string, q: string)
    ensures Get(Kept(m, k), q) == if q == k then Get(m, k) else None
  {
    assert Get([], q) == None;
  }

  /** Looking up a semantic field gives what the message holds there. */
  lemma SemanticGet(m: Dict, k: string)
    ensures Get(Semantic(m), k) ==
      if AlwaysKept(k) || (k == "name" && IsToolMessage(m)) then Get(m, k) else None
  {
    var a, b, c, d := Kept(m, "role"), Kept(m, "content"), Kept(m, "tool_calls"), Kept(m, "tool_call_id");
    var e := if IsToolMessage(m) then Kept(m, "name") else [];
    GetConcat(a, b, k);
    GetConcat(a + b, c, k);
    GetConcat(a + b + c, d, k);
    GetConcat(a + b + c + d, e, k);
    KeptGet(m, "role", k);
    KeptGet(m, "content", k);
    KeptGet(m, "tool_calls", k);
    KeptGet(m, "tool_call_id", k);
    KeptGet(m, "name", k);
  }

  lemma SameRole(m: Dict, n: Dict)
    requires SameEntry(Get(m, "role"), Get(n, "role"))
    ensures IsToolMessage(m) <==> IsToolMessage(n)
  {
  }

  lemma SameSemantic(m: Dict, n: Dict)
    ensures SameEntries(Semantic(m), Semantic(n)) <==> SameMessage(m, n)
  {
    if SameEntries(Semantic(m), Semantic(n)) {
      forall k | AlwaysKept(k) ensures SameEntry(Get(m, k), Get(n, k)) {
        assert SameEntry(Get(Semantic(m), k), Get(Semantic(n), k));
        SemanticGet(m, k);
        SemanticGet(n, k);
      }
      SameRole(m, n);
      assert SameEntry(Get(Semantic(m), "name"), Get(Semantic(n), "name"));
      SemanticGet(m, "name");
      SemanticGet(n, "name");
    } else if SameMessage(m, n) {
      SameRole(m, n);
      forall k ensures SameEntry(Get(Semantic(m), k), Get(Semantic(n), k)) {
        SemanticGet(m, k);
        SemanticGet(n, k);
      }
    }
  }

  /** Two messages share a signature exactly when their semantic fields are equal as JSON,
      so fields such as `refusal` or `logprobs` and the order of keys never split a node. */
  lemma SignatureIff(m: Dict, n: Dict)
    requires WellFormed(Obj(m)) && WellFormed(Obj(n))
    ensures Signature(m) == Signature(n) <==> SameMessage(m, n)
    ensures Signature(m) == Signature(n) <==> KeyOf(m) == KeyOf(n)
  {
    SemanticWellFormed(m);
    SemanticWellFormed(n);
    DumpsIff(Obj(Semantic(m)), Obj(Semantic(n)));
    SortKeysIff(Obj(Semantic(m)), Obj(Semantic(n)));
    SameByKey(Semantic(m), Semantic(n));
    SameSemantic(m, n);
  }
}
