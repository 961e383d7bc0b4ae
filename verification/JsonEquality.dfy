/** When two JSON values have the same key-sorted text: exactly when they are equal as JSON texts, key order aside. */
module JsonEquality {
  import opened Sorting
  import opened Json
  import opened JsonText

  /** No object repeats a key, at any depth: what a Python dict guarantees. */
  ghost predicate WellFormed(v: Value)
    decreases v
  {
    match v
    case Arr(items) => forall i | 0 <= i < |items| :: WellFormed(items[i])
    case Obj(fields) => DistinctKeys(fields) && forall i | 0 <= i < |fields| :: WellFormedField(fields[i])
    case _ => true
  }

  ghost predicate WellFormedField(f: Field)
    decreases f
  {
    WellFormed(f.value)
  }

  /** Equality of JSON values that ignores the order of an object's keys. */
  ghost predicate SameJson(v: Value, w: Value)
    decreases v
  {
    match v
    case Arr(items) => w.Arr? && |items| == |w.items| && forall i | 0 <= i < |items| :: SameJson(items[i], w.items[i])
    case Obj(fields) =>
      w.Obj? && |fields| == |w.fields| && forall i | 0 <= i < |fields| :: SameField(fields[i], w.fields)
    case _ => v == w
  }

  ghost predicate SameField(f: Field, d: Dict)
    decreases f
  {
    Has(d, f.key) && SameJson(f.value, Get(d, f.key).value)
  }

  lemma KeyOrder()
    ensures TotalPreorder(KeyLeq)
  {
    forall x: Field, y: Field, z: Field
      ensures KeyLeq(x, y) || KeyLeq(y, x)
      ensures KeyLeq(x, y) && KeyLeq(y, z) ==> KeyLeq(x, z)
    {
      LexTotal(x.key, y.key);
      if KeyLeq(x, y) && KeyLeq(y, z) { LexTransitive(x.key, y.key, z.key); }
    }
  }

  lemma NoKeyTies(d: Dict)
    requires DistinctKeys(d)
    ensures NoTies(KeyLeq, d)
  {
    forall i, j | 0 <= i < j < |d| ensures !(KeyLeq(d[i], d[j]) && KeyLeq(d[j], d[i])) {
      if KeyLeq(d[i], d[j]) && KeyLeq(d[j], d[i]) { LexAntisymmetric(d[i].key, d[j].key); }
    }
  }

  /** In a dict a field is looked up exactly when it is one of the items. */
  lemma {:induction false} GetIffIn(d: Dict, f: Field)
    requires DistinctKeys(d)
    ensures f in d <==> Get(d, f.key) == Some(f.value)
  {
    if d != [] {
      assert d == [d[0]] + d[1..];
      if d[0].key == f.key {
        assert f in d ==> f == d[0];
        assert d[0].value == f.value ==> f == d[0];
      } else {
        GetIffIn(d[1..], f);
      }
    }
  }

  lemma {:induction false} RemoveOne(g: Dict, f: Field) returns (rest: Dict)
    requires DistinctKeys(g) && f in g
    ensures DistinctKeys(rest) && |rest| == |g| - 1
    ensures multiset(g) == multiset{f} + multiset(rest)
    ensures forall h | h in g && h != f :: h in rest
  {
    var i :| 0 <= i < |g| && g[i] == f;
    rest := g[..i] + g[i + 1..];
    assert g == g[..i] + [f] + g[i + 1..];
  }

  /** A dict whose items all occur in an equally long dict is a rearrangement of it. */
  lemma {:induction false} Rearranged(f: Dict, g: Dict)
    requires DistinctKeys(f) && DistinctKeys(g) && |f| == |g|
    requires forall x | x in f :: x in g
    ensures multiset(f) == multiset(g)
  {
    if f != [] {
      assert f[0] in f;
      var rest := RemoveOne(g, f[0]);
      forall x | x in f[1..] ensures x in rest {
        assert x in f;
        var i :| 0 <= i < |f[1..]| && f[1..][i] == x;
        assert f[i + 1] == x && f[0].key != f[i + 1].key;
      }
      Rearranged(f[1..], rest);
      TailMultiset(f);
      assert multiset(f) == multiset{f[0]} + multiset(f[1..]);
    }
  }

  ghost predicate ItemsIn(f: Dict, g: Dict)
  {
    forall i | 0 <= i < |f| :: f[i] in g
  }

  /** Two dicts sort to the same list of fields exactly when they have the same items. */
  lemma SortedDictsEqual(f: Dict, g: Dict)
    requires DistinctKeys(f) && DistinctKeys(g)
    ensures SortBy(KeyLeq, f) == SortBy(KeyLeq, g) <==> |f| == |g| && ItemsIn(f, g)
  {
    KeyOrder();
    if SortBy(KeyLeq, f) == SortBy(KeyLeq, g) {
      assert multiset(f) == multiset(g);
      forall i | 0 <= i < |f| ensures f[i] in g { assert f[i] in multiset(f); }
    } else if |f| == |g| && ItemsIn(f, g) {
      Rearranged(f, g);
      NoKeyTies(f);
      SortByPermuted(KeyLeq, f, g);
    }
  }

  lemma {:induction false} SortedGet(d: Dict, k: string)
    ensures Get(SortValues(d), k) == (match Get(d, k) case None => None case Some(v) => Some(SortKeys(v)))
  {
    if d != [] && d[0].key != k {
      SortedGet(d[1..], k);
      assert SortValues(d)[1..] == SortValues(d[1..]);
    }
  }

  /** The key-sorted forms agree exactly when the values are equal up to key order. */
  lemma {:induction false} SortKeysIff(v: Value, w: Value)
    requires WellFormed(v) && WellFormed(w)
    ensures SortKeys(v) == SortKeys(w) <==> SameJson(v, w)
    decreases v
  {
    match v
    case Arr(items) =>
      if w.Arr? && |items| == |w.items| {
        forall i | 0 <= i < |items|
          ensures SortKeys(items[i]) == SortKeys(w.items[i]) <==> SameJson(items[i], w.items[i])
        {
          SortKeysIff(items[i], w.items[i]);
        }
        ArrIff(items, w.items);
      }
    case Obj(fields) =>
      if w.Obj? {
        ObjIff(fields, w.fields);
      }
    case _ =>
  }

  lemma ArrIff(xs: seq<Value>, ys: seq<Value>)
    requires |xs| == |ys|
    requires forall i | 0 <= i < |xs| :: SortKeys(xs[i]) == SortKeys(ys[i]) <==> SameJson(xs[i], ys[i])
    ensures SortItems(xs) == SortItems(ys) <==> forall i | 0 <= i < |xs| :: SameJson(xs[i], ys[i])
  {
    if forall i | 0 <= i < |xs| :: SameJson(xs[i], ys[i]) {
      assert SortItems(xs) == SortItems(ys);
    } else {
      var i :| 0 <= i < |xs| && !SameJson(xs[i], ys[i]);
      assert SortItems(xs)[i] != SortItems(ys)[i];
    }
  }

  ghost predicate SameFields(f: Dict, g: Dict)
    decreases f
  {
    forall i | 0 <= i < |f| :: SameField(f[i], g)
  }

  lemma {:induction false} ObjIff(f: Dict, g: Dict)
    requires WellFormed(Obj(f)) && WellFormed(Obj(g))
    ensures SortKeys(Obj(f)) == SortKeys(Obj(g)) <==> SameJson(Obj(f), Obj(g))
    decreases f, 1
  {
    var fs, gs := SortValues(f), SortValues(g);
    assert DistinctKeys(fs) && DistinctKeys(gs);
    SortedDictsEqual(fs, gs);
    if ItemsIn(fs, gs) {
      forall i | 0 <= i < |f| ensures SameField(f[i], g) {
        assert fs[i] in gs;
        FieldIff(f, g, i);
      }
    }
    if SameFields(f, g) {
      forall i | 0 <= i < |f| ensures fs[i] in gs {
        FieldIff(f, g, i);
      }
    }
    assert ItemsIn(fs, gs) <==> SameFields(f, g);
  }

  lemma {:induction false} FieldIff(f: Dict, g: Dict, i: nat)
    requires WellFormed(Obj(f)) && WellFormed(Obj(g)) && i < |f|
    ensures SortValues(f)[i] in SortValues(g) <==> SameField(f[i], g)
    decreases f, 0
  {
    GetIffIn(SortValues(g), SortValues(f)[i]);
    SortedGet(g, f[i].key);
    if Has(g, f[i].key) {
      assert WellFormedField(f[i]);
      WellFormedGet(g, f[i].key);
      assert f[i].value < f[i];
      SortKeysIff(f[i].value, Get(g, f[i].key).value);
    }
  }

  /** Equal compact texts mean equal values: `json.dumps` with sorted keys loses only key order. */
  lemma DumpsIff(v: Value, w: Value)
    requires WellFormed(v) && WellFormed(w)
    ensures Dumps(v) == Dumps(w) <==> SameJson(v, w)
  {
    SortKeysIff(v, w);
    if Dumps(v) == Dumps(w) {
      Associate(Dumps(v), "", "");
      TextUnique(SortKeys(v), SortKeys(w), "", "");
    }
  }

  // ----- dicts compared key by key

  ghost function KeySet(d: Dict): set<string>
  {
    set i | 0 <= i < |d| :: d[i].key
  }

  lemma {:induction false} KeySetSize(d: Dict)
    requires DistinctKeys(d)
    ensures |KeySet(d)| == |d|
  {
    if d != [] {
      KeySetSize(d[1..]);
      assert KeySet(d) == {d[0].key} + KeySet(d[1..]) by {
        assert d == [d[0]] + d[1..];
      }
      assert d[0].key !in KeySet(d[1..]);
    }
  }

  lemma SubsetOfSameSize<T>(a: set<T>, b: set<T>)
    requires a <= b && |a| == |b|
    ensures a == b
  {
    assert |b - a| == |b| - |a|;
  }

  /** Equal presence and equal value of one field. */
  ghost predicate SameEntry(a: Option<Value>, b: Option<Value>)
  {
    match a
    case None => b.None?
    case Some(v) => b.Some? && SameJson(v, b.value)
  }

  lemma WellFormedGet(d: Dict, k: string)
    requires WellFormed(Obj(d)) && Has(d, k)
    ensures WellFormed(Get(d, k).value)
  {
    var j := GetWhere(d, k);
    assert WellFormedField(d[j]);
  }

  ghost predicate SameEntries(f: Dict, g: Dict)
  {
    forall k :: SameEntry(Get(f, k), Get(g, k))
  }

  lemma SameThenEntries(f: Dict, g: Dict)
    requires DistinctKeys(f) && DistinctKeys(g) && SameJson(Obj(f), Obj(g))
    ensures SameEntries(f, g)
  {
    KeySetSize(f);
    KeySetSize(g);
    forall i | 0 <= i < |f| ensures f[i].key in KeySet(g) { assert SameField(f[i], g); }
    SubsetOfSameSize(KeySet(f), KeySet(g));
    forall k ensures SameEntry(Get(f, k), Get(g, k)) {
      assert Has(f, k) <==> k in KeySet(f);
      assert Has(g, k) <==> k in KeySet(g);
      if Has(f, k) {
        var j := GetWhere(f, k);
        assert SameField(f[j], g);
      }
    }
  }

  lemma EntriesThenSame(f: Dict, g: Dict)
    requires DistinctKeys(f) && DistinctKeys(g) && SameEntries(f, g)
    ensures SameJson(Obj(f), Obj(g))
  {
    KeySetSize(f);
    KeySetSize(g);
    forall k ensures k in KeySet(f) <==> k in KeySet(g) {
      assert SameEntry(Get(f, k), Get(g, k));
      assert Has(f, k) <==> k in KeySet(f);
      assert Has(g, k) <==> k in KeySet(g);
    }
    assert KeySet(f) == KeySet(g);
    forall i | 0 <= i < |f| ensures SameField(f[i], g) {
      assert SameEntry(Get(f, f[i].key), Get(g, f[i].key));
      GetIffIn(f, f[i]);
    }
  }

  /** Two dicts are equal exactly when every key is present in both or neither, with equal values. */
  lemma SameByKey(f: Dict, g: Dict)
    requires DistinctKeys(f) && DistinctKeys(g)
    ensures SameJson(Obj(f), Obj(g)) <==> SameEntries(f, g)
  {
    if SameJson(Obj(f), Obj(g)) {
      SameThenEntries(f, g);
    } else if SameEntries(f, g) {
      EntriesThenSame(f, g);
    }
  }

  lemma ConcatWellFormed(a: Dict, b: Dict)
    requires WellFormed(Obj(a)) && WellFormed(Obj(b)) && KeySet(a) !! KeySet(b)
    ensures WellFormed(Obj(a + b)) && KeySet(a + b) == KeySet(a) + KeySet(b)
  {
    assert forall i | 0 <= i < |a| :: a[i].key in KeySet(a);
    assert forall i | 0 <= i < |b| :: b[i].key in KeySet(b);
    forall k | k in KeySet(b) ensures k in KeySet(a + b) {
      var i :| 0 <= i < |b| && b[i].key == k;
      assert (a + b)[|a| + i].key == k;
    }
    forall k | k in KeySet(a) ensures k in KeySet(a + b) {
      var i :| 0 <= i < |a| && a[i].key == k;
      assert (a + b)[i].key == k;
    }
  }
}
