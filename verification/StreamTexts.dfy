/** The text collected at a path inside a list entry, and what becomes of it when a fragment arrives late. */
module StreamTexts {
  import opened Json
  import opened StreamMerge
  import opened StreamSplit

  // ----- accumulated text inside an entry

  /** In a source without repeated keys every key is merged on its own. */
  lemma DeepMergeGet(t: Dict, s: Dict, k: string)
    requires DistinctKeys(s)
    ensures Get(DeepMerge(t, s), k) ==
      match Get(s, k) {
        case None => Get(t, k)
        case Some(Null) => Get(t, k)
        case Some(v) => Some(DeepValue(Get(t, k), k, v))
      }
  {
    if Has(s, k) {
      var i := GetWhere(s, k);
      SplitParts(s, s, k, i);
      var a, v, b := s[..i], s[i].value, s[i + 1..];
      if v == Null {
        DeepMergeAppend(t, a, [Field(k, v)] + b);
        DeepMergeAppend(DeepMerge(t, a), [Field(k, v)], b);
        DeepMergeOne(DeepMerge(t, a), Field(k, v));
        KeyUntouched(t, a, k);
        KeyUntouched(DeepMerge(t, a), b, k);
      } else {
        DeepMergeAround(t, a, k, v, b);
        var w := DeepValue(Get(t, k), k, v);
        GetSet(DeepMerge(t, a), k, w, k);
        KeyUntouched(Set(DeepMerge(t, a), k, w), b, k);
      }
    } else {
      KeyUntouched(t, s, k);
    }
  }

  /** Along the path every step is an object and the end a string; anything may be missing or null. */
  ghost predicate Textual(d: Dict, path: seq<string>)
    requires path != []
    decreases |path|
  {
    match Get(d, path[0])
    case None => true
    case Some(Null) => true
    case Some(Str(_)) => |path| == 1
    case Some(Obj(fields)) => |path| > 1 && Textual(fields, path[1..])
    case _ => false
  }

  /** No object along the path repeats a key. */
  ghost predicate DistinctAlong(d: Dict, path: seq<string>)
    requires path != []
    decreases |path|
  {
    DistinctKeys(d) &&
    match Get(d, path[0])
    case Some(Obj(fields)) => |path| > 1 ==> DistinctAlong(fields, path[1..])
    case _ => true
  }

  /** The text at the end of the path, empty when it is missing. */
  ghost function TextAt(d: Dict, path: seq<string>): string
    requires path != []
    decreases |path|
  {
    match Get(d, path[0])
    case Some(Str(s)) => if |path| == 1 then s else ""
    case Some(Obj(fields)) => if |path| > 1 then TextAt(fields, path[1..]) else ""
    case _ => ""
  }

  /** Merging an item appends its text to the text collected so far. */
  lemma {:induction false} TextMerges(t: Dict, s: Dict, path: seq<string>)
    requires path != [] && ItemConcatKey(path[|path| - 1])
    requires Textual(t, path) && Textual(s, path) && DistinctAlong(s, path)
    ensures Textual(DeepMerge(t, s), path) && TextAt(DeepMerge(t, s), path) == TextAt(t, path) + TextAt(s, path)
    decreases |path|
  {
    DeepMergeGet(t, s, path[0]);
    match Get(s, path[0]) {
      case Some(Obj(fields)) =>
        match Get(t, path[0]) {
          case Some(Obj(existing)) => TextMerges(existing, fields, path[1..]);
          case _ =>
        }
      case _ =>
    }
  }

  ghost predicate TextualItem(item: Value, path: seq<string>)
    requires path != []
  {
    item.Obj? && Textual(item.fields, path) && DistinctAlong(item.fields, path)
  }

  /** The fragments at the path of the items with one index, joined in order. */
  ghost function Texts(items: seq<Value>, index: Value, path: seq<string>): string
    requires path != []
  {
    if items == [] then ""
    else
      var before, item := Texts(items[..|items| - 1], index, path), items[|items| - 1];
      if item.Obj? && ItemIndex(item) == index then before + TextAt(item.fields, path) else before
  }

  // ----- rewriting the text at a path

  /** Every step of the path is there, and a string at its end. */
  ghost predicate HasText(d: Dict, path: seq<string>)
    requires path != []
    decreases |path|
  {
    match Get(d, path[0])
    case Some(Str(_)) => |path| == 1
    case Some(Obj(fields)) => |path| > 1 && HasText(fields, path[1..])
    case _ => false
  }

  ghost function SetText(d: Dict, path: seq<string>, s: string): Dict
    requires path != []
    decreases |path|
  {
    if |path| == 1 then Set(d, path[0], Str(s))
    else
      match Get(d, path[0])
      case Some(Obj(fields)) => Set(d, path[0], Obj(SetText(fields, path[1..], s)))
      case _ => d
  }

  lemma {:induction false} SetTextHas(d: Dict, path: seq<string>, s: string)
    requires path != [] && HasText(d, path)
    ensures HasText(SetText(d, path, s), path) && TextAt(SetText(d, path, s), path) == s
    decreases |path|
  {
    if |path| == 1 {
      GetSet(d, path[0], Str(s), path[0]);
    } else {
      var inner := SetText(Get(d, path[0]).value.fields, path[1..], s);
      GetSet(d, path[0], Obj(inner), path[0]);
      SetTextHas(Get(d, path[0]).value.fields, path[1..], s);
    }
  }

  /** What merging `s` makes of a value that is there. */
  ghost function Onto(v: Value, s: Dict, k: string): Value
  {
    match Get(s, k)
    case None => v
    case Some(Null) => v
    case Some(u) => DeepValue(Some(v), k, u)
  }

  /** A value can be rewritten before or after a merge. */
  lemma DeepMergeRewrites(t: Dict, s: Dict, k: string, v: Value)
    requires DistinctKeys(s) && Has(t, k)
    ensures DeepMerge(Set(t, k, v), s) == Set(DeepMerge(t, s), k, Onto(v, s, k))
    ensures Get(DeepMerge(t, s), k) == Some(Onto(Get(t, k).value, s, k))
  {
    DeepMergeGet(t, s, k);
    if Has(s, k) {
      var i := GetWhere(s, k);
      SplitParts(s, s, k, i);
      var a, u, b := s[..i], s[i].value, s[i + 1..];
      DeepMergeCommutes(t, k, v, a);
      RewriteAround(DeepMerge(t, a), k, v, u, b);
      DeepMergeAppend(t, a, [Field(k, u)] + b);
      DeepMergeAppend(Set(t, k, v), a, [Field(k, u)] + b);
    } else {
      DeepMergeCommutes(t, k, v, s);
    }
  }

  lemma RewriteAround(m: Dict, k: string, v: Value, u: Value, b: Dict)
    requires Has(m, k) && Lacks(b, k)
    ensures DeepMerge(Set(m, k, v), [Field(k, u)] + b) ==
      Set(DeepMerge(m, [Field(k, u)] + b), k, if u == Null then v else DeepValue(Some(v), k, u))
  {
    var mv := Set(m, k, v);
    DeepMergeAppend(mv, [Field(k, u)], b);
    DeepMergeAppend(m, [Field(k, u)], b);
    DeepMergeOne(mv, Field(k, u));
    DeepMergeOne(m, Field(k, u));
    GetSet(m, k, v, k);
    if u == Null {
      DeepMergeCommutes(m, k, v, b);
    } else {
      DeepFieldIsSet(mv, k, u);
      DeepFieldIsSet(m, k, u);
      var rv, rm := DeepValue(Some(v), k, u), DeepValue(Get(m, k), k, u);
      SetSet(m, k, v, rv);
      Rewrite(m, k, rm, rv, b);
    }
  }

  /** A textual source appends to whatever text is at the path. */
  lemma {:induction false} TextKept(t: Dict, s: Dict, path: seq<string>, r: string)
    requires path != [] && ItemConcatKey(path[|path| - 1])
    requires HasText(t, path) && Textual(s, path) && DistinctAlong(s, path)
    ensures HasText(DeepMerge(t, s), path) && TextAt(DeepMerge(t, s), path) == TextAt(t, path) + TextAt(s, path)
    ensures DeepMerge(SetText(t, path, r), s) == SetText(DeepMerge(t, s), path, r + TextAt(s, path))
    decreases |path|
  {
    var k := path[0];
    var had := Get(t, k).value;
    assert r + "" == r && TextAt(t, path) + "" == TextAt(t, path);
    if |path| == 1 {
      DeepMergeRewrites(t, s, k, Str(r));
    } else {
      var inner := SetText(had.fields, path[1..], r);
      DeepMergeRewrites(t, s, k, Obj(inner));
      match Get(s, k) {
        case Some(Obj(g)) => TextKept(had.fields, g, path[1..], r);
        case _ =>
      }
    }
  }

  /** Any other source overwrites it, whatever it was. */
  lemma {:induction false} TextWiped(t: Dict, s: Dict, path: seq<string>, r: string)
    requires path != [] && HasText(t, path) && !Textual(s, path) && DistinctAlong(s, path)
    ensures DeepMerge(SetText(t, path, r), s) == DeepMerge(t, s)
    decreases |path|
  {
    var k := path[0];
    var had := Get(t, k).value;
    if |path| == 1 {
      DeepMergeRewrites(t, s, k, Str(r));
    } else {
      var inner := SetText(had.fields, path[1..], r);
      DeepMergeRewrites(t, s, k, Obj(inner));
      match Get(s, k) {
        case Some(Obj(g)) => TextWiped(had.fields, g, path[1..], r);
        case _ =>
      }
    }
    SetSame(DeepMerge(t, s), k, Onto(had, s, k));
  }

  // ----- a fragment on its own

  /** Nothing but the path down to `y`. */
  ghost predicate JustText(tail: Dict, path: seq<string>, y: string)
    requires path != []
    decreases |path|
  {
    && |tail| == 1 && tail[0].key == path[0]
    && if |path| == 1 then tail[0].value == Str(y) && path[0] in {"arguments", "summary", "text"}
       else tail[0].value.Obj? && JustText(tail[0].value.fields, path[1..], y)
  }

  lemma {:induction false} TailIsJustText(whole: Dict, head: Dict, tail: Dict, path: seq<string>, x: string, y: string)
    requires Cut(whole, head, tail, path, x, y)
    ensures JustText(tail, path, y) && ItemConcatKey(path[|path| - 1]) && HasText(head, path)
    decreases |path|
  {
    var n := CutPlace(whole, head, tail, path, x, y);
    GetIs(head, path[0], n);
    if |path| > 1 {
      TailIsJustText(whole[n].value.fields, head[n].value.fields, tail[0].value.fields, path[1..], x, y);
    }
  }

  /** Merged onto a text it is appended; merged onto anything it leaves a text. */
  lemma {:induction false} JustTextMerges(t: Dict, tail: Dict, path: seq<string>, y: string)
    requires path != [] && JustText(tail, path, y)
    ensures HasText(DeepMerge(t, tail), path)
    ensures HasText(t, path) ==> DeepMerge(t, tail) == SetText(t, path, TextAt(t, path) + y)
    ensures y != "" ==> DeepMerge(t, tail) != t
    decreases |path|
  {
    var k, v := path[0], tail[0].value;
    assert tail == [Field(k, v)];
    DeepMergeOne(t, Field(k, v));
    DeepFieldIsSet(t, k, v);
    GetSet(t, k, DeepValue(Get(t, k), k, v), k);
    if |path| > 1 {
      match Get(t, k) {
        case Some(Obj(e)) => JustTextMerges(e, v.fields, path[1..], y);
        case _ => JustTextAlone(v.fields, path[1..], y);
      }
    } else {
      match Get(t, k) {
        case Some(Str(e)) => assert |e + y| == |e| + |y|;
        case _ =>
      }
    }
  }

  lemma {:induction false} JustTextAlone(tail: Dict, path: seq<string>, y: string)
    requires path != [] && JustText(tail, path, y)
    ensures HasText(tail, path)
    decreases |path|
  {
    if |path| > 1 {
      JustTextAlone(tail[0].value.fields, path[1..], y);
    }
  }

  /** Merging the head leaves a text, and merging the whole leaves the same with the rest appended. */
  lemma {:induction false} WholeAndHead(t: Dict, whole: Dict, head: Dict, tail: Dict, path: seq<string>,
      x: string, y: string)
    requires Cut(whole, head, tail, path, x, y)
    ensures var m := DeepMerge(t, head);
      HasText(m, path) && DeepMerge(t, whole) == SetText(m, path, TextAt(m, path) + y)
    ensures HasText(head, path) && whole == SetText(head, path, TextAt(head, path) + y)
  {
    CutMerges(t, whole, head, tail, path, x, y);
    TailIsJustText(whole, head, tail, path, x, y);
    HeadLeavesText(t, whole, head, tail, path, x, y);
    JustTextMerges(DeepMerge(t, head), tail, path, y);
    JustTextMerges(head, tail, path, y);
  }

  lemma {:induction false} HeadLeavesText(t: Dict, whole: Dict, head: Dict, tail: Dict, path: seq<string>,
      x: string, y: string)
    requires Cut(whole, head, tail, path, x, y)
    ensures HasText(DeepMerge(t, head), path)
    decreases |path|
  {
    var n := CutPlace(whole, head, tail, path, x, y);
    var k, vw, vh := path[0], whole[n].value, head[n].value;
    SplitParts(whole, head, k, n);
    AroundGet(t, whole[..n], k, vh, whole[n + 1..]);
    if |path| > 1 {
      var rest := tail[0].value.fields;
      match Get(t, k) {
        case Some(Obj(e)) => HeadLeavesText(e, vw.fields, vh.fields, rest, path[1..], x, y);
        case _ => TailIsJustText(vw.fields, vh.fields, rest, path[1..], x, y);
      }
    }
  }

  // ----- the items of one index

  /** The items with one index, folded into one entry. */
  ghost function FoldItems(prior: Option<Dict>, index: Value, items: seq<Value>): Option<Dict>
  {
    if items == [] then prior
    else
      FoldItem(FoldItems(prior, index, items[..|items| - 1]), index, items[|items| - 1])
  }

  ghost function FoldItem(prior: Option<Dict>, index: Value, item: Value): Option<Dict>
  {
    if !item.Obj? || ItemIndex(item) != index then prior
    else
      match prior
      case None => Some(item.fields)
      case Some(fields) => Some(DeepMerge(fields, item.fields))
  }

  lemma {:induction false} FoldItemsAppend(prior: Option<Dict>, index: Value, a: seq<Value>, b: seq<Value>)
    ensures FoldItems(prior, index, a + b) == FoldItems(FoldItems(prior, index, a), index, b)
  {
    if b == [] {
      assert a + b == a;
    } else {
      assert (a + b)[..|a + b| - 1] == a + b[..|b| - 1];
      FoldItemsAppend(prior, index, a, b[..|b| - 1]);
    }
  }

  /** Every item with the index appends to the text at the path, or leaves it alone. */
  ghost predicate AllTextual(items: seq<Value>, index: Value, path: seq<string>)
    requires path != []
  {
    forall i | 0 <= i < |items| && items[i].Obj? && ItemIndex(items[i]) == index :: Textual(items[i].fields, path)
  }

  ghost predicate AllDistinct(items: seq<Value>, path: seq<string>)
    requires path != []
  {
    forall i | 0 <= i < |items| && items[i].Obj? :: DistinctAlong(items[i].fields, path)
  }

  /** Items that append to the text do so after whatever text is there. */
  lemma {:induction false} FoldKeepsText(d: Dict, r: string, index: Value, path: seq<string>, items: seq<Value>)
    requires path != [] && ItemConcatKey(path[|path| - 1]) && HasText(d, path)
    requires AllTextual(items, index, path) && AllDistinct(items, path)
    ensures var after, texts := FoldItems(Some(d), index, items), Texts(items, index, path);
      && after.Some? && HasText(after.value, path) && TextAt(after.value, path) == TextAt(d, path) + texts
      && FoldItems(Some(SetText(d, path, r)), index, items) == Some(SetText(after.value, path, r + texts))
  {
    hide DeepMerge, HasText, SetText, TextAt, Textual, DistinctAlong;
    if items == [] {
      assert r + "" == r && TextAt(d, path) + "" == TextAt(d, path);
    } else {
      var front, item := items[..|items| - 1], items[|items| - 1];
      FoldKeepsText(d, r, index, path, front);
      var texts := Texts(front, index, path);
      if item.Obj? && ItemIndex(item) == index {
        TextKept(FoldItems(Some(d), index, front).value, item.fields, path, r + texts);
        assert r + texts + TextAt(item.fields, path) == r + (texts + TextAt(item.fields, path));
      }
    }
  }

  /** One that overwrites it hides what it was. */
  lemma {:induction false} FoldWipesText(d: Dict, r: string, index: Value, path: seq<string>, items: seq<Value>)
    requires path != [] && ItemConcatKey(path[|path| - 1]) && HasText(d, path)
    requires !AllTextual(items, index, path) && AllDistinct(items, path)
    ensures FoldItems(Some(d), index, items).Some?
    ensures FoldItems(Some(SetText(d, path, r)), index, items) == FoldItems(Some(d), index, items)
  {
    var front, item := items[..|items| - 1], items[|items| - 1];
    if AllTextual(front, index, path) {
      FoldKeepsText(d, r, index, path, front);
      TextWiped(FoldItems(Some(d), index, front).value, item.fields, path, r + Texts(front, index, path));
    } else {
      FoldWipesText(d, r, index, path, front);
    }
  }

  // ----- lists that differ in one entry

  lemma {:induction false} TwinsFold(a: seq<Value>, b: seq<Value>, n: nat, index: Value, items: seq<Value>)
    requires Twins(a, b, n, index) && a[n].Obj? && b[n].Obj? && Parsed(items)
    ensures var a', b' := MergeItems(a, items), MergeItems(b, items);
      && Twins(a', b', n, index) && a'[n].Obj? && b'[n].Obj?
      && Some(a'[n].fields) == FoldItems(Some(a[n].fields), index, items)
      && Some(b'[n].fields) == FoldItems(Some(b[n].fields), index, items)
  {
    if items != [] {
      var front, item := items[..|items| - 1], items[|items| - 1];
      TwinsFold(a, b, n, index, front);
      TwinsFoldOne(MergeItems(a, front), MergeItems(b, front), n, index, item);
    }
  }

  lemma TwinsFoldOne(a: seq<Value>, b: seq<Value>, n: nat, index: Value, item: Value)
    requires Twins(a, b, n, index) && a[n].Obj? && b[n].Obj? && (item.Obj? ==> DistinctKeys(item.fields))
    ensures var a', b' := MergeItem(a, item), MergeItem(b, item);
      && Twins(a', b', n, index) && a'[n].Obj? && b'[n].Obj?
      && Some(a'[n].fields) == FoldItem(Some(a[n].fields), index, item)
      && Some(b'[n].fields) == FoldItem(Some(b[n].fields), index, item)
  {
    hide DeepMerge, Get;
    if ItemIndex(item) == index {
      IndexStays(a[n].fields, item.fields, index);
      IndexStays(b[n].fields, item.fields, index);
      FindIs(MergeItem(a, item), index, n);
      FindIs(MergeItem(b, item), index, n);
    } else {
      TwinsStep(a, b, n, index, item);
    }
  }

  /** The item holds its index and a fragment, nothing else. */
  ghost predicate JustFragment(t: Value, index: Value, path: seq<string>, y: string)
    requires path != []
  {
    t.Obj? && t.fields != [] && t.fields[0] == Field("index", index) && JustText(t.fields[1..], path, y)
  }

  lemma FragmentDistinct(t: Value, index: Value, path: seq<string>, y: string)
    requires path != [] && path[0] != "index" && JustFragment(t, index, path, y)
    ensures DistinctKeys(t.fields)
  {
  }

  lemma FragmentMerges(b: seq<Value>, n: nat, t: Value, index: Value, path: seq<string>, y: string)
    requires n < |b| && Find(b, index) == n && b[n].Obj? && index != Null && !index.Obj?
    requires path != [] && JustFragment(t, index, path, y)
    ensures MergeItem(b, t) == b[n := Obj(DeepMerge(b[n].fields, t.fields[1..]))]
  {
    SkipIndex(b[n].fields, index, t.fields);
    TailIndex(t, index);
  }

  lemma Swapped(before: string, y: string, l: string)
    ensures before + y + l == before + l + y <==> y + l == l + y
  {
    var left, right := before + (y + l), before + (l + y);
    assert before + y + l == left && before + l + y == right;
    assert left[|before|..] == y + l && right[|before|..] == l + y;
  }

  ghost predicate Commutes(y: string, later: string)
  {
    y + later == later + y
  }

  /** The lists `a` and `b` differ in that the entry for the index has a text that is longer by `y` in `a`. After more
      items they agree exactly when one of these overwrites the text; and `y`, when it arrives after these items, makes
      up the difference exactly when they all append and what they append commutes with it. */
  lemma LateFragmentIff(a: seq<Value>, b: seq<Value>, n: nat, index: Value, path: seq<string>, y: string,
      items: seq<Value>, t: Value)
    requires path != [] && ItemConcatKey(path[|path| - 1]) && y != ""
    requires Twins(a, b, n, index) && a[n].Obj? && b[n].Obj? && HasText(b[n].fields, path)
    requires a[n].fields == SetText(b[n].fields, path, TextAt(b[n].fields, path) + y)
    requires Parsed(items) && AllDistinct(items, path) && JustFragment(t, index, path, y)
    ensures MergeItems(a, items) == MergeItems(b, items) <==> !AllTextual(items, index, path)
    ensures MergeItem(MergeItems(b, items), t) == MergeItems(a, items) <==>
      AllTextual(items, index, path) && Commutes(y, Texts(items, index, path))
  {
    hide MergeItem, MergeItems, FoldItems, SetText, HasText, TextAt, Textual, JustText, DistinctAlong, Find, DeepMerge;
    var d, a', b' := b[n].fields, MergeItems(a, items), MergeItems(b, items);
    var before, later := TextAt(d, path), Texts(items, index, path);
    TwinsFold(a, b, n, index, items);
    var e := b'[n].fields;
    FragmentMerges(b', n, t, index, path, y);
    JustTextMerges(e, t.fields[1..], path, y);
    if AllTextual(items, index, path) {
      FoldKeepsText(d, before + y, index, path, items);
      SetTextHas(e, path, before + y + later);
      SetTextHas(e, path, before + later + y);
      Swapped(before, y, later);
      assert |before + y + later| > |before + later|;
    } else {
      FoldWipesText(d, before + y, index, path, items);
    }
    OneEntry(a', b', n, Obj(DeepMerge(e, t.fields[1..])));
  }

  lemma OneEntry(a: seq<Value>, b: seq<Value>, n: nat, v: Value)
    requires n < |a| == |b| && forall i | 0 <= i < |a| && i != n :: a[i] == b[i]
    ensures a == b <==> a[n] == b[n]
    ensures b[n := v] == a <==> a[n] == v
  {
    if a[n] == v {
      assert b[n := v] == a;
    }
  }

  lemma FragmentOfCut(w: Value, h: Value, t: Value, path: seq<string>, x: string, y: string)
    requires CutItem(w, h, t, path, x, y)
    ensures JustFragment(t, ItemIndex(w), path, y) && ItemConcatKey(path[|path| - 1])
  {
    TailIsJustText(w.fields, h.fields, t.fields[1..], path, x, y);
  }

  /** An item cut in a list that is merged into an existing one, with the items behind it in this list and in later ones
      of the same field: whether the lists agree without the rest, and whether the rest makes up for it. */
  lemma CutListIff(e: seq<Value>, p: seq<Value>, q: seq<Value>, w: Value, h: Value, t: Value, path: seq<string>,
      x: string, y: string, more: seq<Value>)
    requires CutItem(w, h, t, path, x, y) && y != "" && Parsed(q + more) && AllDistinct(q + more, path)
    ensures var whole := MergeItems(MergeItems(e, p + ([w] + q)), more);
      var head := MergeItems(MergeItems(e, p + ([h] + q)), more);
      && (head == whole <==> !AllTextual(q + more, ItemIndex(w), path))
      && (MergeItem(head, t) == whole <==>
            AllTextual(q + more, ItemIndex(w), path) && Commutes(y, Texts(q + more, ItemIndex(w), path)))
  {
    hide MergeItem, MergeItems, AllTextual, Texts, CutItem, Parsed, AllDistinct;
    var index, e' := ItemIndex(w), MergeItems(e, p);
    MergeItemsAround(e, p, w, q);
    MergeItemsAround(e, p, h, q);
    MergeItemsAppend(MergeItem(e', w), q, more);
    MergeItemsAppend(MergeItem(e', h), q, more);
    CutItemTwins(e', w, h, t, path, x, y);
    CutItemText(e', w, h, t, path, x, y);
    FragmentOfCut(w, h, t, path, x, y);
    LateFragmentIff(MergeItem(e', w), MergeItem(e', h), Find(e', index), index, path, y, q + more, t);
  }

  lemma CutItemText(e: seq<Value>, w: Value, h: Value, t: Value, path: seq<string>, x: string, y: string)
    requires CutItem(w, h, t, path, x, y)
    ensures var n, a, b := Find(e, ItemIndex(w)), MergeItem(e, w), MergeItem(e, h);
      && n < |a| && n < |b| && a[n].Obj? && b[n].Obj? && HasText(b[n].fields, path)
      && a[n].fields == SetText(b[n].fields, path, TextAt(b[n].fields, path) + y)
  {
    hide DeepMerge, Get, HasText, SetText, TextAt;
    var n := Find(e, ItemIndex(w));
    HeadIndex(w, h, t, path, x, y);
    WholeAndHead(if n < |e| then e[n].fields else [], w.fields, h.fields, t.fields[1..], path, x, y);
  }

  /** The same for the first list of a field, which is stored as it came: only later lists are merged into it, and when
      an earlier item has the index, the rest goes there. */
  lemma CutFirstListIff(p: seq<Value>, q: seq<Value>, w: Value, h: Value, t: Value, path: seq<string>,
      x: string, y: string, more: seq<Value>)
    requires CutItem(w, h, t, path, x, y) && y != "" && Parsed(more) && AllDistinct(more, path)
    ensures var whole, head := MergeItems(p + ([w] + q), more), MergeItems(p + ([h] + q), more);
      && (head == whole <==> NoIndex(p, ItemIndex(w)) && !AllTextual(more, ItemIndex(w), path))
      && (MergeItem(head, t) == whole <==>
            && NoIndex(p, ItemIndex(w)) && AllTextual(more, ItemIndex(w), path)
            && Commutes(y, Texts(more, ItemIndex(w), path)))
  {
    hide MergeItem, MergeItems, AllTextual, Texts, Parsed, AllDistinct, HasText, SetText, TextAt, Shadowed,
      Find, JustText, Cut, DeepMerge;
    var index, a, b := ItemIndex(w), p + ([w] + q), p + ([h] + q);
    HeadIndex(w, h, t, path, x, y);
    WholeAndHead([], w.fields, h.fields, t.fields[1..], path, x, y);
    FragmentOfCut(w, h, t, path, x, y);
    if NoIndex(p, index) {
      FindIs(a, index, |p|);
      FindIs(b, index, |p|);
      LateFragmentIff(a, b, |p|, index, path, y, more, t);
    } else {
      SetTextHas(h.fields, path, TextAt(h.fields, path) + y);
      BehindIsShadowed(p, w, q, index);
      BehindIsShadowed(p, h, q, index);
      ShadowedStays(a, |p|, index, more);
      ShadowedStays(b, |p|, index, more);
      FragmentDistinct(t, index, path, y);
      ShadowedStep(MergeItems(b, more), |p|, index, t);
    }
  }

  /** An entry behind another one with its index is never merged into. */
  ghost predicate Shadowed(a: seq<Value>, n: nat, index: Value)
  {
    && n < |a| && ItemIndex(a[n]) == index && index != Null && !index.Obj?
    && exists j | 0 <= j < n :: a[j].Obj? && ItemIndex(a[j]) == index
  }

  lemma BehindIsShadowed(p: seq<Value>, v: Value, q: seq<Value>, index: Value)
    requires !NoIndex(p, index) && ItemIndex(v) == index && index != Null && !index.Obj?
    ensures Shadowed(p + ([v] + q), |p|, index) && (p + ([v] + q))[|p|] == v
  {
    var j :| 0 <= j < |p| && ItemIndex(p[j]) == index;
    assert (p + ([v] + q))[j] == p[j];
  }

  lemma ShadowedStep(a: seq<Value>, n: nat, index: Value, item: Value)
    requires Shadowed(a, n, index) && (item.Obj? ==> DistinctKeys(item.fields))
    ensures Shadowed(MergeItem(a, item), n, index) && MergeItem(a, item)[n] == a[n]
  {
    hide DeepMerge, Get;
    var j :| 0 <= j < n && a[j].Obj? && ItemIndex(a[j]) == index;
    var after, other := MergeItem(a, item), ItemIndex(item);
    if other != Null && Find(a, other) < |a| {
      IndexStays(a[Find(a, other)].fields, item.fields, other);
    }
    assert after[j].Obj?;
  }

  lemma {:induction false} ShadowedStays(a: seq<Value>, n: nat, index: Value, items: seq<Value>)
    requires Shadowed(a, n, index) && Parsed(items)
    ensures Shadowed(MergeItems(a, items), n, index) && MergeItems(a, items)[n] == a[n]
  {
    if items != [] {
      var front := items[..|items| - 1];
      ShadowedStays(a, n, index, front);
      ShadowedStep(MergeItems(a, front), n, index, items[|items| - 1]);
    }
  }
}
