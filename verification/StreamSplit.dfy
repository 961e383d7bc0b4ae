/** A text inside a list item, cut in two: merging part after part is merging the whole. */
module StreamSplit {
  import opened Json
  import opened StreamMerge

  ghost predicate Lacks(d: Dict, k: string)
  {
    forall i | 0 <= i < |d| :: d[i].key != k
  }

  // ----- folds over fields

  lemma {:induction false} DeepMergeAppend(t: Dict, a: Dict, b: Dict)
    ensures DeepMerge(t, a + b) == DeepMerge(DeepMerge(t, a), b)
  {
    if b == [] {
      assert a + b == a;
    } else {
      assert (a + b)[..|a + b| - 1] == a + b[..|b| - 1];
      DeepMergeAppend(t, a, b[..|b| - 1]);
    }
  }

  lemma DeepMergeOne(t: Dict, f: Field)
    ensures DeepMerge(t, [f]) == DeepField(t, f.key, f.value)
  {
    assert [f][..0] == [];
  }

  /** Each field writes its own key only. */
  lemma DeepFieldGet(t: Dict, k: string, v: Value, q: string)
    requires q != k
    ensures Get(DeepField(t, k, v), q) == Get(t, q)
  {
    hide Get, Set, DeepMerge;
    match v
    case Null =>
    case Obj(fields) =>
      match Get(t, k) {
        case Some(Obj(existing)) => GetSet(t, k, Obj(DeepMerge(existing, fields)), q);
        case _ => GetSet(t, k, v, q);
      }
    case Str(s) =>
      match Get(t, k) {
        case Some(Str(existing)) => GetSet(t, k, Str(if ItemConcatKey(k) then existing + s else s), q);
        case _ => GetSet(t, k, v, q);
      }
    case _ => GetSet(t, k, v, q);
  }

  /** A field's step is a write of a value that depends on that key alone. */
  ghost function DeepValue(prior: Option<Value>, k: string, v: Value): Value
  {
    match v
    case Obj(fields) => (match prior case Some(Obj(e)) => Obj(DeepMerge(e, fields)) case _ => v)
    case Str(s) => (match prior case Some(Str(e)) => Str(if ItemConcatKey(k) then e + s else s) case _ => v)
    case _ => v
  }

  lemma DeepFieldIsSet(t: Dict, k: string, v: Value)
    ensures DeepField(t, k, v) == if v == Null then t else Set(t, k, DeepValue(Get(t, k), k, v))
  {
  }

  /** A value already written survives, and can be rewritten after, any fields with other keys. */
  lemma {:induction false} DeepMergeCommutes(t: Dict, k: string, v: Value, b: Dict)
    requires Has(t, k) && Lacks(b, k)
    ensures DeepMerge(Set(t, k, v), b) == Set(DeepMerge(t, b), k, v)
    ensures Get(DeepMerge(t, b), k) == Get(t, k)
  {
    if b != [] {
      var front, f := b[..|b| - 1], b[|b| - 1];
      DeepMergeCommutes(t, k, v, front);
      var m := DeepMerge(t, front);
      DeepFieldGet(m, f.key, f.value, k);
      DeepFieldIsSet(m, f.key, f.value);
      DeepFieldIsSet(Set(m, k, v), f.key, f.value);
      GetSet(m, k, v, f.key);
      if f.value != Null {
        SetCommutes(m, k, v, f.key, DeepValue(Get(m, f.key), f.key, f.value));
      }
    }
  }

  // ----- a fragment inside a list item

  /** `whole`, `head` and `tail` agree except that, at `path`, `whole` carries `x + y` where `head` carries `x`,
      and `tail` is nothing but the path down to `y`. */
  ghost predicate Cut(whole: Dict, head: Dict, tail: Dict, path: seq<string>, x: string, y: string)
    decreases |path|
  {
    && path != []
    && exists n | 0 <= n < |whole| :: CutAt(whole, head, tail, path, x, y, n)
  }

  ghost predicate CutAt(whole: Dict, head: Dict, tail: Dict, path: seq<string>, x: string, y: string, n: nat)
    requires path != [] && n < |whole|
    decreases |path|, 0
  {
    && |head| == |whole| && |tail| == 1
    && whole[n].key == path[0] && head[n].key == path[0] && tail[0].key == path[0]
    && (forall i | 0 <= i < |whole| && i != n :: whole[i].key != path[0] && head[i] == whole[i])
    && if |path| == 1 then
         && path[0] in {"arguments", "summary", "text"}
         && whole[n].value == Str(x + y) && head[n].value == Str(x) && tail[0].value == Str(y)
       else
         && whole[n].value.Obj? && head[n].value.Obj? && tail[0].value.Obj?
         && Cut(whole[n].value.fields, head[n].value.fields, tail[0].value.fields, path[1..], x, y)
  }

  lemma SplitParts(whole: Dict, head: Dict, k: string, n: nat)
    requires n < |whole| == |head| && whole[n].key == k && head[n].key == k
    requires forall i | 0 <= i < |whole| && i != n :: whole[i].key != k && head[i] == whole[i]
    ensures var a, b := whole[..n], whole[n + 1..];
      && whole == a + ([Field(k, whole[n].value)] + b) && head == a + ([Field(k, head[n].value)] + b)
      && Lacks(a, k) && Lacks(b, k)
  {
    assert head[..n] == whole[..n] && head[n + 1..] == whole[n + 1..];
  }

  /** Folding fields around one key: the key's own step, with the rest before and after it. */
  lemma DeepMergeAround(t: Dict, a: Dict, k: string, v: Value, b: Dict)
    requires Lacks(a, k) && Lacks(b, k) && v != Null
    ensures var m := DeepMerge(t, a);
      && Get(m, k) == Get(t, k)
      && DeepMerge(t, a + ([Field(k, v)] + b)) == DeepMerge(Set(m, k, DeepValue(Get(t, k), k, v)), b)
  {
    var m := DeepMerge(t, a);
    KeyUntouched(t, a, k);
    DeepMergeAppend(t, a, [Field(k, v)] + b);
    DeepMergeAppend(m, [Field(k, v)], b);
    DeepMergeOne(m, Field(k, v));
    DeepFieldIsSet(m, k, v);
  }

  lemma {:induction false} KeyUntouched(t: Dict, a: Dict, k: string)
    requires Lacks(a, k)
    ensures Get(DeepMerge(t, a), k) == Get(t, k)
  {
    if a != [] {
      KeyUntouched(t, a[..|a| - 1], k);
      DeepFieldGet(DeepMerge(t, a[..|a| - 1]), a[|a| - 1].key, a[|a| - 1].value, k);
    }
  }

  /** Merging the head and then the tail is merging the whole; and the tail put onto the head is the whole. */
  lemma {:induction false} CutMerges(t: Dict, whole: Dict, head: Dict, tail: Dict, path: seq<string>, x: string,
      y: string)
    requires Cut(whole, head, tail, path, x, y)
    ensures DeepMerge(DeepMerge(t, head), tail) == DeepMerge(t, whole)
    ensures DeepMerge(head, tail) == whole
    decreases |path|
  {
    var n :| 0 <= n < |whole| && CutAt(whole, head, tail, path, x, y, n);
    var k, prior := path[0], Get(t, path[0]);
    var vw, vh, vt := whole[n].value, head[n].value, tail[0].value;
    var a, b := whole[..n], whole[n + 1..];
    SplitParts(whole, head, k, n);
    assert tail == [Field(k, vt)];
    CutValues(prior, k, vw, vh, vt, path, x, y);
    // onto an arbitrary target
    DeepMergeAround(t, a, k, vw, b);
    DeepMergeAround(t, a, k, vh, b);
    var m := DeepMerge(t, a);
    var rw, rh := DeepValue(prior, k, vw), DeepValue(prior, k, vh);
    Rewrite(m, k, rh, rw, b);
    GetSet(m, k, rh, k);
    DeepMergeCommutes(Set(m, k, rh), k, rh, b);
    DeepMergeOne(DeepMerge(t, head), Field(k, vt));
    DeepFieldIsSet(DeepMerge(t, head), k, vt);
    // onto the head itself
    DeepMergeOne(head, Field(k, vt));
    DeepFieldIsSet(head, k, vt);
    HeadToWhole(a, k, vh, vw, b);
  }

  /** Overwriting the key's value after the remaining fields is the same as having written it before them. */
  lemma Rewrite(m: Dict, k: string, v: Value, w: Value, b: Dict)
    requires Lacks(b, k)
    ensures Set(DeepMerge(Set(m, k, v), b), k, w) == DeepMerge(Set(m, k, w), b)
  {
    GetSet(m, k, v, k);
    DeepMergeCommutes(Set(m, k, v), k, w, b);
    SetSet(m, k, v, w);
  }

  lemma ConsAppend<T>(a: seq<T>, b: seq<T>)
    requires a != []
    ensures a + b == [a[0]] + (a[1..] + b) && (a + b)[0] == a[0] && (a + b)[1..] == a[1..] + b
  {
  }

  lemma {:induction false} HeadToWhole(a: Dict, k: string, v: Value, w: Value, b: Dict)
    requires Lacks(a, k)
    ensures Set(a + ([Field(k, v)] + b), k, w) == a + ([Field(k, w)] + b)
    ensures Get(a + ([Field(k, v)] + b), k) == Some(v)
  {
    var fv, fw := [Field(k, v)] + b, [Field(k, w)] + b;
    if a == [] {
      assert a + fv == fv && a + fw == fw;
      ConsAppend([Field(k, v)], b);
      assert fv[1..] == b;
    } else {
      HeadToWhole(a[1..], k, v, w, b);
      ConsAppend(a, fv);
      ConsAppend(a, fw);
    }
  }

  lemma {:induction false} CutValues(prior: Option<Value>, k: string, vw: Value, vh: Value, vt: Value,
      path: seq<string>, x: string, y: string)
    requires path != [] && k == path[0]
    requires if |path| == 1 then ItemConcatKey(k) && vw == Str(x + y) && vh == Str(x) && vt == Str(y)
      else vw.Obj? && vh.Obj? && vt.Obj? && Cut(vw.fields, vh.fields, vt.fields, path[1..], x, y)
    ensures DeepValue(Some(DeepValue(prior, k, vh)), k, vt) == DeepValue(prior, k, vw)
    ensures DeepValue(Some(vh), k, vt) == vw
    decreases |path|, 0
  {
    if |path| == 1 {
      match prior {
        case Some(Str(e)) => assert e + x + y == e + (x + y);
        case _ =>
      }
    } else {
      match prior {
        case Some(Obj(e)) => CutMerges(e, vw.fields, vh.fields, vt.fields, path[1..], x, y);
        case _ => CutMerges([], vw.fields, vh.fields, vt.fields, path[1..], x, y);
      }
    }
  }

  lemma CutPlace(whole: Dict, head: Dict, tail: Dict, path: seq<string>, x: string, y: string) returns (n: nat)
    requires Cut(whole, head, tail, path, x, y)
    ensures n < |whole| && CutAt(whole, head, tail, path, x, y, n)
  {
    n :| 0 <= n < |whole| && CutAt(whole, head, tail, path, x, y, n);
  }

  /** What merging a delta around one key leaves under that key. */
  lemma AroundGet(t: Dict, a: Dict, k: string, v: Value, b: Dict)
    requires Lacks(a, k) && Lacks(b, k) && v != Null
    ensures Get(DeepMerge(t, a + ([Field(k, v)] + b)), k) == Some(DeepValue(Get(t, k), k, v))
  {
    DeepMergeAround(t, a, k, v, b);
    var m, w := DeepMerge(t, a), DeepValue(Get(t, k), k, v);
    GetSet(m, k, w, k);
    KeyUntouched(Set(m, k, w), b, k);
  }

  // ----- a fragment inside an indexed list item

  /** `t` is nothing but the item's index and the path down to the second fragment. */
  ghost predicate CutItem(w: Value, h: Value, t: Value, path: seq<string>, x: string, y: string)
  {
    && w.Obj? && h.Obj? && t.Obj? && DistinctKeys(w.fields)
    && Get(w.fields, "index").Some? && ItemIndex(w) != Null && !ItemIndex(w).Obj?
    && t.fields != [] && t.fields[0] == Field("index", ItemIndex(w))
    && path != [] && path[0] != "index" && Cut(w.fields, h.fields, t.fields[1..], path, x, y)
  }

  lemma {:induction false} GetIs(d: Dict, k: string, i: nat)
    requires i < |d| && d[i].key == k && forall j | 0 <= j < i :: d[j].key != k
    ensures Get(d, k) == Some(d[i].value)
  {
    if i > 0 {
      GetIs(d[1..], k, i - 1);
    }
  }

  lemma {:induction false} SetSame(d: Dict, k: string, v: Value)
    requires Get(d, k) == Some(v)
    ensures Set(d, k, v) == d
  {
    if d[0].key != k {
      SetSame(d[1..], k, v);
    }
  }

  lemma HeadIndex(w: Value, h: Value, t: Value, path: seq<string>, x: string, y: string)
    requires CutItem(w, h, t, path, x, y)
    ensures ItemIndex(h) == ItemIndex(w) && DistinctKeys(h.fields)
  {
    var n := CutPlace(w.fields, h.fields, t.fields[1..], path, x, y);
    var i := GetWhere(w.fields, "index");
    GetIs(h.fields, "index", i);
    assert forall j | 0 <= j < |w.fields| :: h.fields[j].key == w.fields[j].key;
  }

  /** Merging an item into the entry with its index leaves that index in place. */
  lemma IndexStays(t: Dict, s: Dict, index: Value)
    requires Get(t, "index") == Some(index) && index != Null
    requires DistinctKeys(s) && Get(s, "index") == Some(index)
    ensures Get(DeepMerge(t, s), "index").Some?
    ensures if index.Obj? then Get(DeepMerge(t, s), "index").value.Obj?
      else Get(DeepMerge(t, s), "index").value == index
  {
    var i := GetWhere(s, "index");
    SplitParts(s, s, "index", i);
    DeepMergeAround(t, s[..i], "index", index, s[i + 1..]);
    var m, v := DeepMerge(t, s[..i]), DeepValue(Some(index), "index", index);
    GetSet(m, "index", v, "index");
    KeyUntouched(Set(m, "index", v), s[i + 1..], "index");
  }

  /** Merging the tail item onto whatever the head item became gives what the whole item would have become. */
  lemma TailOntoHead(w: Value, h: Value, t: Value, path: seq<string>, x: string, y: string, target: Dict)
    requires CutItem(w, h, t, path, x, y) && Get(target, "index") == Some(ItemIndex(w))
    ensures DeepMerge(DeepMerge(target, h.fields), t.fields) == DeepMerge(target, w.fields)
    ensures DeepMerge(h.fields, t.fields) == w.fields
  {
    var index, tail := ItemIndex(w), t.fields[1..];
    HeadIndex(w, h, t, path, x, y);
    IndexStays(target, h.fields, index);
    CutMerges(target, w.fields, h.fields, tail, path, x, y);
    SkipIndex(DeepMerge(target, h.fields), index, t.fields);
    SkipIndex(h.fields, index, t.fields);
  }

  lemma SkipIndex(d: Dict, index: Value, fields: Dict)
    requires Get(d, "index") == Some(index) && index != Null && !index.Obj?
    requires fields != [] && fields[0] == Field("index", index)
    ensures DeepMerge(d, fields) == DeepMerge(d, fields[1..])
  {
    assert fields == [fields[0]] + fields[1..];
    DeepMergeAppend(d, [fields[0]], fields[1..]);
    DeepMergeOne(d, fields[0]);
    DeepFieldIsSet(d, "index", index);
    SetSame(d, "index", index);
  }

  // ----- lists

  ghost predicate NoIndex(items: seq<Value>, index: Value)
  {
    forall i | 0 <= i < |items| :: ItemIndex(items[i]) != index
  }

  /** The items are what a JSON parser yields: objects do not repeat keys. */
  ghost predicate Parsed(items: seq<Value>)
  {
    forall i | 0 <= i < |items| :: items[i].Obj? ==> DistinctKeys(items[i].fields)
  }

  lemma {:induction false} FindIs(entries: seq<Value>, index: Value, n: nat)
    requires n < |entries| && entries[n].Obj? && ItemIndex(entries[n]) == index && index != Null
    requires forall i | 0 <= i < n :: ItemIndex(entries[i]) != index
    ensures Find(entries, index) == n
  {
  }

  /** The entry of `index` sits at `n`, and the two lists agree everywhere else. */
  ghost predicate Twins(a: seq<Value>, b: seq<Value>, n: nat, index: Value)
  {
    && n < |a| == |b| && index != Null && !index.Obj?
    && Find(a, index) == n && Find(b, index) == n
    && forall i | 0 <= i < |a| && i != n :: a[i] == b[i]
  }

  /** An item with another index treats both lists alike. */
  lemma TwinsStep(a: seq<Value>, b: seq<Value>, n: nat, index: Value, item: Value)
    requires Twins(a, b, n, index) && ItemIndex(item) != index && (item.Obj? ==> DistinctKeys(item.fields))
    ensures Twins(MergeItem(a, item), MergeItem(b, item), n, index)
    ensures MergeItem(a, item)[n] == a[n] && MergeItem(b, item)[n] == b[n]
  {
    var other := ItemIndex(item);
    if other != Null { SameFind(a, b, n, index, other); }
    if other == Null || Find(a, other) == |a| {
      FindIs(a + [item], index, n);
      FindIs(b + [item], index, n);
    } else {
      UpdateElsewhere(a, n, index, item);
      UpdateElsewhere(b, n, index, item);
    }
  }

  lemma SameFind(a: seq<Value>, b: seq<Value>, n: nat, index: Value, other: Value)
    requires Twins(a, b, n, index) && other != index && other != Null
    ensures Find(a, other) == Find(b, other)
  {
    var m := Find(a, other);
    if m < |a| {
      FindIs(b, other, m);
    } else if Find(b, other) < |b| {
      FindIs(a, other, Find(b, other));
    }
  }

  lemma UpdateElsewhere(a: seq<Value>, n: nat, index: Value, item: Value)
    requires n < |a| && Find(a, index) == n && index != Null && !index.Obj?
    requires item.Obj? && DistinctKeys(item.fields) && ItemIndex(item) != index && ItemIndex(item) != Null
    requires Find(a, ItemIndex(item)) < |a|
    ensures MergeItem(a, item)[n] == a[n] && Find(MergeItem(a, item), index) == n
  {
    var m := Find(a, ItemIndex(item));
    IndexStays(a[m].fields, item.fields, ItemIndex(item));
    FindIs(MergeItem(a, item), index, n);
  }

  lemma {:induction false} MergeItemsAppend(e: seq<Value>, a: seq<Value>, b: seq<Value>)
    ensures MergeItems(e, a + b) == MergeItems(MergeItems(e, a), b)
  {
    if b == [] {
      assert a + b == a;
    } else {
      assert (a + b)[..|a + b| - 1] == a + b[..|b| - 1];
      MergeItemsAppend(e, a, b[..|b| - 1]);
    }
  }

  lemma MergeItemsOne(e: seq<Value>, item: Value)
    ensures MergeItems(e, [item]) == MergeItem(e, item)
  {
    assert [item][..0] == [];
  }

  /** Head and tail item, one after the other, against the whole item: same place, same entry. */
  lemma CutItemTwins(e: seq<Value>, w: Value, h: Value, t: Value, path: seq<string>, x: string, y: string)
    requires CutItem(w, h, t, path, x, y)
    ensures var n, a, b := Find(e, ItemIndex(w)), MergeItem(e, w), MergeItem(e, h);
      && Twins(a, b, n, ItemIndex(w)) && a[n].Obj? && b[n].Obj?
      && DeepMerge(b[n].fields, t.fields) == a[n].fields
  {
    hide DeepMerge, Get;
    var index := ItemIndex(w);
    var n := Find(e, index);
    HeadIndex(w, h, t, path, x, y);
    if n == |e| {
      TailOntoHead(w, h, t, path, x, y, w.fields);
      FindIs(e + [w], index, n);
      FindIs(e + [h], index, n);
    } else {
      TailOntoHead(w, h, t, path, x, y, e[n].fields);
      IndexStays(e[n].fields, w.fields, index);
      IndexStays(e[n].fields, h.fields, index);
      FindIs(MergeItem(e, w), index, n);
      FindIs(MergeItem(e, h), index, n);
    }
  }

  lemma MergeItemsAround(e: seq<Value>, p: seq<Value>, item: Value, q: seq<Value>)
    ensures MergeItems(e, p + ([item] + q)) == MergeItems(MergeItem(MergeItems(e, p), item), q)
  {
    MergeItemsAppend(e, p, [item] + q);
    MergeItemsAppend(MergeItems(e, p), [item], q);
    MergeItemsOne(MergeItems(e, p), item);
  }

  lemma TailIndex(t: Value, index: Value)
    requires t.Obj? && t.fields != [] && t.fields[0] == Field("index", index)
    ensures ItemIndex(t) == index
  {
  }
}
