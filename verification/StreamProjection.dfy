/** What a reassembled message depends on: a choice on its own entries, a field on its own values,
    a list entry on the items with its index. */
module StreamProjection {
  import opened Sorting
  import opened Json
  import opened StreamMerge
  import opened StreamSplit
  import opened StreamTexts
  import opened StreamFragments

  // ----- choices

  ghost function AllChoices(chunks: seq<Chunk>): seq<Choice>
  {
    if chunks == [] then [] else AllChoices(chunks[..|chunks| - 1]) + chunks[|chunks| - 1].choices
  }

  /** The entries for one choice, in order. */
  ghost function Only(choices: seq<Choice>, index: int): seq<Choice>
  {
    if choices == [] then []
    else
      var before, c := Only(choices[..|choices| - 1], index), choices[|choices| - 1];
      if c.index == index then before + [c] else before
  }

  lemma {:induction false} RunIsCapture(s: Snapshot, chunks: seq<Chunk>)
    requires Run(s, chunks).ok
    ensures s.ok && CaptureChoices(s.merged, AllChoices(chunks)) == Choices(Run(s, chunks).merged, true)
  {
    if chunks != [] {
      RunIsCapture(s, chunks[..|chunks| - 1]);
      CaptureAppend(s.merged, AllChoices(chunks[..|chunks| - 1]), chunks[|chunks| - 1].choices);
    }
  }

  /** The fold of one choice's own entries. */
  ghost function FoldChoice(choices: seq<Choice>): Dict
  {
    if choices == [] then []
    else
      var c := choices[|choices| - 1];
      WithFinish(MergeDelta(FoldChoice(choices[..|choices| - 1]), c.delta).fields, c.finishReason)
  }

  lemma FoldChoiceSnoc(choices: seq<Choice>, c: Choice)
    ensures FoldChoice(choices + [c]) == WithFinish(MergeDelta(FoldChoice(choices), c.delta).fields, c.finishReason)
  {
    assert (choices + [c])[..|choices|] == choices;
  }

  lemma {:induction false} OnlyOwnEntries(choices: seq<Choice>, index: int)
    requires CaptureChoices(map[], choices).ok
    ensures MergedAt(CaptureChoices(map[], choices).merged, index) == FoldChoice(Only(choices, index))
    ensures index in CaptureChoices(map[], choices).merged <==> Only(choices, index) != []
  {
    if choices != [] {
      var front, c := choices[..|choices| - 1], choices[|choices| - 1];
      OnlyOwnEntries(front, index);
      if c.index == index {
        FoldChoiceSnoc(Only(front, index), c);
      }
    }
  }

  /** Each choice of the reassembled response is the fold of the entries for that choice alone. */
  lemma ChoiceProjection(chunks: seq<Chunk>, index: int)
    requires Run(EMPTY, chunks).ok
    ensures MergedAt(Run(EMPTY, chunks).merged, index) == FoldChoice(Only(AllChoices(chunks), index))
    ensures index in Run(EMPTY, chunks).merged <==> Only(AllChoices(chunks), index) != []
  {
    RunIsCapture(EMPTY, chunks);
    OnlyOwnEntries(AllChoices(chunks), index);
  }

  // ----- fields

  /** The non-null values a delta carries for one key. */
  ghost function ValuesOf(delta: Dict, k: string): seq<Value>
  {
    if delta == [] then []
    else
      var before, f := ValuesOf(delta[..|delta| - 1], k), delta[|delta| - 1];
      if f.key == k && f.value != Null then before + [f.value] else before
  }

  ghost function AllValues(choices: seq<Choice>, k: string): seq<Value>
  {
    if choices == [] then []
    else AllValues(choices[..|choices| - 1], k) + ValuesOf(choices[|choices| - 1].delta, k)
  }

  /** One key's values folded, `None` until there is one. */
  ghost function FoldValues(prior: Option<Value>, k: string, values: seq<Value>): Option<Value>
  {
    if values == [] then prior
    else
      FieldValue(FoldValues(prior, k, values[..|values| - 1]), k, values[|values| - 1])
  }

  lemma {:induction false} FoldValuesAppend(prior: Option<Value>, k: string, a: seq<Value>, b: seq<Value>)
    ensures FoldValues(prior, k, a + b) == FoldValues(FoldValues(prior, k, a), k, b)
  {
    if b == [] {
      assert a + b == a;
    } else {
      assert (a + b)[..|a + b| - 1] == a + b[..|b| - 1];
      FoldValuesAppend(prior, k, a, b[..|b| - 1]);
    }
  }

  lemma FoldValuesOne(prior: Option<Value>, k: string, v: Value)
    ensures FoldValues(prior, k, [v]) == FieldValue(prior, k, v)
  {
    assert [v][..0] == [];
  }

  lemma {:induction false} DeltaField(m: Dict, delta: Dict, k: string)
    requires MergeDelta(m, delta).ok
    ensures Get(MergeDelta(m, delta).fields, k) == FoldValues(Get(m, k), k, ValuesOf(delta, k))
  {
    if delta != [] {
      var front, f := delta[..|delta| - 1], delta[|delta| - 1];
      var r := MergeDelta(m, front).fields;
      DeltaField(m, front, k);
      if f.key != k {
        MergeFieldGet(r, f.key, f.value, k);
      } else if f.value != Null {
        MergeFieldIsSet(r, k, f.value);
        GetSet(r, k, FieldValue(Get(r, k), k, f.value).value, k);
        FoldValuesAppend(Get(m, k), k, ValuesOf(front, k), [f.value]);
        FoldValuesOne(Get(r, k), k, f.value);
      }
    }
  }

  /** No entry of a choice raises. */
  ghost predicate NoRaise(choices: seq<Choice>)
  {
    choices == [] ||
    (NoRaise(choices[..|choices| - 1])
     && MergeDelta(FoldChoice(choices[..|choices| - 1]), choices[|choices| - 1].delta).ok)
  }

  lemma {:induction false} OwnEntriesDoNotRaise(choices: seq<Choice>, index: int)
    requires CaptureChoices(map[], choices).ok
    ensures NoRaise(Only(choices, index))
  {
    if choices != [] {
      var front, c := choices[..|choices| - 1], choices[|choices| - 1];
      OwnEntriesDoNotRaise(front, index);
      OnlyOwnEntries(front, index);
      if c.index == index {
        NoRaiseSnoc(Only(front, index), c);
      }
    }
  }

  lemma NoRaiseSnoc(choices: seq<Choice>, c: Choice)
    requires NoRaise(choices) && MergeDelta(FoldChoice(choices), c.delta).ok
    ensures NoRaise(choices + [c])
  {
    assert (choices + [c])[..|choices|] == choices;
  }

  /** Each field of a merged message is the fold of that field's values alone. */
  lemma {:induction false} FieldProjection(choices: seq<Choice>, k: string)
    requires NoRaise(choices) && k != "finish_reason"
    ensures Get(FoldChoice(choices), k) == FoldValues(None, k, AllValues(choices, k))
  {
    if choices != [] {
      var front, c := choices[..|choices| - 1], choices[|choices| - 1];
      FieldProjection(front, k);
      DeltaField(FoldChoice(front), c.delta, k);
      FoldValuesAppend(None, k, AllValues(front, k), ValuesOf(c.delta, k));
      if c.finishReason != Null {
        GetSet(MergeDelta(FoldChoice(front), c.delta).fields, "finish_reason", c.finishReason, k);
      }
    }
  }

  // ----- string fields

  ghost function Concat(values: seq<Value>): string
    requires forall i | 0 <= i < |values| :: values[i].Str?
  {
    if values == [] then "" else Concat(values[..|values| - 1]) + values[|values| - 1].s
  }

  lemma {:induction false} FoldStrings(k: string, values: seq<Value>)
    requires StringMergeKey(k) && forall i | 0 <= i < |values| :: values[i].Str?
    ensures FoldValues(None, k, values) == if values == [] then None else Some(Str(Concat(values)))
  {
    if values != [] {
      FoldStrings(k, values[..|values| - 1]);
      if |values| == 1 {
        assert Concat(values) == values[0].s;
      }
    }
  }

  // ----- list fields

  ghost function AllItems(values: seq<Value>): seq<Value>
    requires forall i | 0 <= i < |values| :: values[i].Arr?
  {
    if values == [] then [] else AllItems(values[..|values| - 1]) + values[|values| - 1].items
  }

  lemma {:induction false} FoldLists(k: string, first: seq<Value>, rest: seq<Value>)
    requires forall i | 0 <= i < |rest| :: rest[i].Arr?
    ensures FoldValues(Some(Arr(first)), k, rest) == Some(Arr(MergeItems(first, AllItems(rest))))
  {
    if rest != [] {
      var front := rest[..|rest| - 1];
      FoldLists(k, first, front);
      MergeItemsAppend(first, AllItems(front), rest[|rest| - 1].items);
    }
  }

  // ----- list entries

  /** An object with a plain index. */
  ghost predicate HasIndex(item: Value)
  {
    item.Obj? && ItemIndex(item) != Null && !ItemIndex(item).Obj?
  }

  /** Every item is an object with a plain index, and repeats no key. */
  ghost predicate Indexed(items: seq<Value>)
  {
    forall i | 0 <= i < |items| :: HasIndex(items[i]) && DistinctKeys(items[i].fields)
  }

  ghost predicate AllHaveIndex(entries: seq<Value>)
  {
    forall i | 0 <= i < |entries| :: HasIndex(entries[i])
  }

  ghost function Indices(items: seq<Value>): (r: seq<Value>)
    ensures |r| == |items| && forall i | 0 <= i < |items| :: r[i] == ItemIndex(items[i])
  {
    seq(|items|, i requires 0 <= i < |items| => ItemIndex(items[i]))
  }

  /** The distinct values of `more` that are not among `seen` yet, in order of first appearance, after `seen`. */
  ghost function FirstSeen(seen: seq<Value>, more: seq<Value>): seq<Value>
  {
    if more == [] then seen
    else
      var before, x := FirstSeen(seen, more[..|more| - 1]), more[|more| - 1];
      if x in before then before else before + [x]
  }

  /** The fields of the entry with an index. */
  ghost function EntryFor(entries: seq<Value>, index: Value): Option<Dict>
    requires index != Null
  {
    var n := Find(entries, index);
    if n < |entries| then Some(entries[n].fields) else None
  }

  lemma FindAbsent(entries: seq<Value>, index: Value)
    requires AllHaveIndex(entries) && index != Null
    ensures Find(entries, index) == |entries| <==> index !in Indices(entries)
  {
    var n := Find(entries, index);
    if n < |entries| {
      assert Indices(entries)[n] == index;
    }
  }

  /** An item joins the entry with its index or opens a new one. */
  lemma MergeItemShape(entries: seq<Value>, item: Value)
    requires AllHaveIndex(entries) && HasIndex(item) && DistinctKeys(item.fields)
    ensures AllHaveIndex(MergeItem(entries, item))
    ensures Indices(MergeItem(entries, item)) ==
      if ItemIndex(item) in Indices(entries) then Indices(entries) else Indices(entries) + [ItemIndex(item)]
  {
    var index, after := ItemIndex(item), MergeItem(entries, item);
    FindAbsent(entries, index);
    var n := Find(entries, index);
    if n < |entries| {
      IndexStays(entries[n].fields, item.fields, index);
      assert ItemIndex(after[n]) == index && after[n].Obj?;
      SameIndices(entries, after);
    } else {
      MoreIndices(entries, item);
    }
  }

  lemma SameIndices(a: seq<Value>, b: seq<Value>)
    requires |a| == |b| && AllHaveIndex(a)
    requires forall i | 0 <= i < |a| :: b[i].Obj? && ItemIndex(b[i]) == ItemIndex(a[i])
    ensures AllHaveIndex(b) && Indices(b) == Indices(a)
  {
    forall i | 0 <= i < |b| ensures HasIndex(b[i]) { assert HasIndex(a[i]); }
  }

  lemma MoreIndices(a: seq<Value>, item: Value)
    requires AllHaveIndex(a) && HasIndex(item)
    ensures AllHaveIndex(a + [item]) && Indices(a + [item]) == Indices(a) + [ItemIndex(item)]
  {
  }

  lemma MergeItemEntry(entries: seq<Value>, item: Value, index: Value)
    requires AllHaveIndex(entries) && HasIndex(item) && DistinctKeys(item.fields) && index != Null
    ensures EntryFor(MergeItem(entries, item), index) == FoldItem(EntryFor(entries, index), index, item)
  {
    hide DeepMerge, DistinctKeys, Get;
    var after, n := MergeItem(entries, item), Find(entries, index);
    MergeItemShape(entries, item);
    assert forall i | 0 <= i < |entries| ::
      ItemIndex(after[i]) == Indices(after)[i] && ItemIndex(entries[i]) == Indices(entries)[i];
    if ItemIndex(item) == index {
      FindIs(after, index, n);
    } else if n < |entries| {
      FindIs(after, index, n);
    } else {
      FindAbsent(entries, index);
      FindAbsent(after, index);
    }
  }

  lemma IndicesFront(items: seq<Value>)
    requires items != []
    ensures Indices(items)[..|items| - 1] == Indices(items[..|items| - 1])
    ensures Indices(items)[|items| - 1] == ItemIndex(items[|items| - 1])
  {
  }

  /** Indices stay in order of first appearance, and each entry is the fold of the items with its index. */
  lemma {:induction false} ListProjection(first: seq<Value>, items: seq<Value>, index: Value)
    requires AllHaveIndex(first) && Indexed(items) && index != Null
    ensures AllHaveIndex(MergeItems(first, items))
    ensures Indices(MergeItems(first, items)) == FirstSeen(Indices(first), Indices(items))
    ensures EntryFor(MergeItems(first, items), index) == FoldItems(EntryFor(first, index), index, items)
  {
    if items != [] {
      var front, item := items[..|items| - 1], items[|items| - 1];
      ListProjection(first, front, index);
      ListStep(MergeItems(first, front), item, index);
      IndicesFront(items);
    }
  }

  lemma ListStep(entries: seq<Value>, item: Value, index: Value)
    requires AllHaveIndex(entries) && HasIndex(item) && DistinctKeys(item.fields) && index != Null
    ensures AllHaveIndex(MergeItem(entries, item))
    ensures Indices(MergeItem(entries, item)) ==
      if ItemIndex(item) in Indices(entries) then Indices(entries) else Indices(entries) + [ItemIndex(item)]
    ensures EntryFor(MergeItem(entries, item), index) == FoldItem(EntryFor(entries, index), index, item)
  {
    MergeItemShape(entries, item);
    MergeItemEntry(entries, item, index);
  }

  lemma {:induction false} FirstSeenDistinct(seen: seq<Value>, more: seq<Value>)
    requires NoRepeats(seen)
    ensures NoRepeats(FirstSeen(seen, more))
    ensures forall x :: x in FirstSeen(seen, more) <==> x in seen || x in more
  {
    if more != [] {
      FirstSeenDistinct(seen, more[..|more| - 1]);
      assert more == more[..|more| - 1] + [more[|more| - 1]];
    }
  }

  /** A first list with distinct indices already holds, for each index, the fold of its items. */
  lemma {:induction false} FirstListProjects(first: seq<Value>, index: Value)
    requires AllHaveIndex(first) && NoRepeats(Indices(first)) && index != Null
    ensures EntryFor(first, index) == FoldItems(None, index, first)
  {
    if first != [] {
      var front, item := first[..|first| - 1], first[|first| - 1];
      IndicesFront(first);
      FirstListProjects(front, index);
      assert HasIndex(item);
      AppendedEntry(front, item, index);
      assert first == front + [item];
    }
  }

  /** A last item with an index of its own is the entry for that index. */
  lemma AppendedEntry(front: seq<Value>, item: Value, index: Value)
    requires AllHaveIndex(front) && HasIndex(item) && ItemIndex(item) !in Indices(front) && index != Null
    ensures EntryFor(front + [item], index) == FoldItem(EntryFor(front, index), index, item)
  {
    FindAbsent(front, ItemIndex(item));
    var n := Find(front, index);
    if n < |front| {
      FindIs(front + [item], index, n);
    } else if ItemIndex(item) == index {
      FindIs(front + [item], index, |front|);
    } else {
      MoreIndices(front, item);
      FindAbsent(front, index);
      FindAbsent(front + [item], index);
    }
  }

  lemma {:induction false} FirstSeenAppend(seen: seq<Value>, a: seq<Value>, b: seq<Value>)
    ensures FirstSeen(seen, a + b) == FirstSeen(FirstSeen(seen, a), b)
  {
    if b == [] {
      assert a + b == a;
    } else {
      assert (a + b)[..|a + b| - 1] == a + b[..|b| - 1];
      FirstSeenAppend(seen, a, b[..|b| - 1]);
    }
  }

  lemma {:induction false} FirstSeenOfDistinct(s: seq<Value>)
    requires NoRepeats(s)
    ensures FirstSeen([], s) == s
  {
    if s != [] {
      FirstSeenOfDistinct(s[..|s| - 1]);
      assert s == s[..|s| - 1] + [s[|s| - 1]];
    }
  }

  lemma {:induction false} FirstSeenKeeps(seen: seq<Value>, more: seq<Value>)
    ensures seen <= FirstSeen(seen, more)
  {
    if more != [] {
      FirstSeenKeeps(seen, more[..|more| - 1]);
    }
  }

  lemma RepeatsStay<T>(a: seq<T>, b: seq<T>)
    requires a <= b && !NoRepeats(a)
    ensures !NoRepeats(b)
  {
    var i, j :| 0 <= i < j < |a| && a[i] == a[j];
    assert b[i] == b[j];
  }

  /** A merged list repeats an index exactly when its first list, which is stored unmerged, already did. */
  lemma UniqueIff(first: seq<Value>, items: seq<Value>)
    requires AllHaveIndex(first) && Indexed(items)
    ensures NoRepeats(Indices(MergeItems(first, items))) <==> NoRepeats(Indices(first))
  {
    ListProjection(first, items, Bool(true));
    FirstSeenKeeps(Indices(first), Indices(items));
    if NoRepeats(Indices(first)) {
      FirstSeenDistinct(Indices(first), Indices(items));
    } else {
      RepeatsStay(Indices(first), FirstSeen(Indices(first), Indices(items)));
    }
  }

  // ----- accumulated text inside an entry

  lemma {:induction false} FoldText(items: seq<Value>, index: Value, path: seq<string>)
    requires path != [] && ItemConcatKey(path[|path| - 1])
    requires forall i | 0 <= i < |items| :: TextualItem(items[i], path)
    ensures match FoldItems(None, index, items) {
      case None => Texts(items, index, path) == ""
      case Some(d) => Textual(d, path) && TextAt(d, path) == Texts(items, index, path)
    }
  {
    if items != [] {
      var front, item := items[..|items| - 1], items[|items| - 1];
      FoldText(front, index, path);
      assert TextualItem(item, path);
      if ItemIndex(item) == index {
        match FoldItems(None, index, front) {
          case None => assert "" + TextAt(item.fields, path) == TextAt(item.fields, path);
          case Some(d) => TextMerges(d, item.fields, path);
        }
      }
    }
  }

  // ----- a list field of a whole stream

  lemma {:induction false} FirstItems(values: seq<Value>)
    requires values != [] && forall i | 0 <= i < |values| :: values[i].Arr?
    ensures AllItems(values) == values[0].items + AllItems(values[1..])
  {
    if |values| == 1 {
      assert values[..0] == [] && values[1..] == [];
    } else {
      var front, last := values[..|values| - 1], values[|values| - 1].items;
      FirstItems(front);
      assert front[1..] == values[1..][..|values[1..]| - 1];
      assert values[0].items + AllItems(front[1..]) + last == values[0].items + (AllItems(front[1..]) + last);
    }
  }

  /** A list field merged from `values`: its indices in order of first appearance, and every entry the fold
      of the items with its index. The first list must not repeat an index, because it is stored as it came. */
  lemma FoldedList(k: string, values: seq<Value>, index: Value) returns (entries: seq<Value>)
    requires values != [] && (forall i | 0 <= i < |values| :: values[i].Arr?)
    requires Indexed(AllItems(values)) && NoRepeats(Indices(values[0].items)) && index != Null
    ensures FoldValues(None, k, values) == Some(Arr(entries))
    ensures Indices(entries) == FirstSeen([], Indices(AllItems(values))) && NoRepeats(Indices(entries))
    ensures EntryFor(entries, index) == FoldItems(None, index, AllItems(values))
  {
    var first, rest := values[0].items, AllItems(values[1..]);
    FirstItems(values);
    assert values == [values[0]] + values[1..];
    hide MergeItems, FoldItems, FirstSeen, FoldValues, AllItems, HasIndex, DistinctKeys;
    FoldValuesAppend(None, k, [values[0]], values[1..]);
    FoldValuesOne(None, k, values[0]);
    FoldLists(k, first, values[1..]);
    entries := MergeItems(first, rest);
    IndexedParts(first, rest);
    ListProjection(first, rest, index);
    FirstListProjects(first, index);
    FoldItemsAppend(None, index, first, rest);
    FirstSeenOfDistinct(Indices(first));
    FirstSeenAppend([], Indices(first), Indices(rest));
    FirstSeenDistinct([], Indices(first + rest));
  }

  lemma IndexedParts(a: seq<Value>, b: seq<Value>)
    requires Indexed(a + b)
    ensures Indexed(a) && Indexed(b) && AllHaveIndex(a) && Indices(a + b) == Indices(a) + Indices(b)
  {
    forall i | 0 <= i < |a| ensures HasIndex(a[i]) && DistinctKeys(a[i].fields) { assert (a + b)[i] == a[i]; }
    forall i | 0 <= i < |b| ensures HasIndex(b[i]) && DistinctKeys(b[i].fields) { assert (a + b)[|a| + i] == b[i]; }
  }

  /** In a reassembled message a list such as `tool_calls` has one entry per index, in order of first
      appearance; each is the fold of that choice's items with that index, and its accumulated text, such
      as the arguments of a call, is the concatenation of their fragments. */
  lemma ListReassembly(chunks: seq<Chunk>, choice: int, k: string, path: seq<string>, index: Value)
      returns (entries: seq<Value>)
    requires Run(EMPTY, chunks).ok && k != "finish_reason" && index != Null
    requires var values := AllValues(Only(AllChoices(chunks), choice), k);
      && values != [] && (forall i | 0 <= i < |values| :: values[i].Arr?)
      && Indexed(AllItems(values)) && NoRepeats(Indices(values[0].items))
      && path != [] && path[|path| - 1] in {"arguments", "summary", "text"}
      && forall i | 0 <= i < |AllItems(values)| :: TextualItem(AllItems(values)[i], path)
    ensures Get(MergedAt(Run(EMPTY, chunks).merged, choice), k) == Some(Arr(entries))
    ensures var items := AllItems(AllValues(Only(AllChoices(chunks), choice), k));
      && Indices(entries) == FirstSeen([], Indices(items)) && NoRepeats(Indices(entries))
      && EntryFor(entries, index) == FoldItems(None, index, items)
      && (EntryFor(entries, index).Some? ==> TextAt(EntryFor(entries, index).value, path) == Texts(items, index, path))
  {
    var own := Only(AllChoices(chunks), choice);
    var values := AllValues(own, k);
    RunIsCapture(EMPTY, chunks);
    ChoiceProjection(chunks, choice);
    OwnEntriesDoNotRaise(AllChoices(chunks), choice);
    FieldProjection(own, k);
    entries := FoldedList(k, values, index);
    FoldText(AllItems(values), index, path);
  }

  /** A string field such as `content` is the concatenation of that choice's fragments. */
  lemma StringReassembly(chunks: seq<Chunk>, choice: int, k: string)
    requires Run(EMPTY, chunks).ok && k in {"content", "reasoning_content", "reasoning", "refusal"}
    requires var values := AllValues(Only(AllChoices(chunks), choice), k);
      forall i | 0 <= i < |values| :: values[i].Str?
    ensures var values := AllValues(Only(AllChoices(chunks), choice), k);
      Get(MergedAt(Run(EMPTY, chunks).merged, choice), k) == if values == [] then None else Some(Str(Concat(values)))
  {
    var own := Only(AllChoices(chunks), choice);
    RunIsCapture(EMPTY, chunks);
    ChoiceProjection(chunks, choice);
    OwnEntriesDoNotRaise(AllChoices(chunks), choice);
    FieldProjection(own, k);
    FoldStrings(k, AllValues(own, k));
  }

  // ----- the response as a whole

  /** One choice per index that occurs, in increasing order, each made of the entries for that index alone. */
  ghost predicate Projected(choices: seq<ResponseChoice>, all: seq<Choice>)
  {
    && (forall i, j | 0 <= i < j < |choices| :: choices[i].index < choices[j].index)
    && (forall n {:trigger Only(all, n)} :: Only(all, n) != [] <==>
      exists i | 0 <= i < |choices| :: choices[i].index == n)
    && (forall i | 0 <= i < |choices| ::
      choices[i] == Finished(choices[i].index, FoldChoice(Only(all, choices[i].index))))
  }

  lemma FinishedChoices(merged: map<int, Dict>, all: seq<Choice>, indices: seq<int>)
    requires indices == Ascending(merged.Keys) && forall i | 0 <= i < |indices| :: indices[i] in merged
    requires forall n {:trigger Only(all, n)} ::
      (Only(all, n) != [] <==> n in merged) && MergedAt(merged, n) == FoldChoice(Only(all, n))
    ensures Projected(FinishAll(merged, indices), all)
  {
    hide FoldChoice, Finished, Only, Ascending;
    AscendingExact(merged.Keys);
    var choices := FinishAll(merged, indices);
    forall n {:trigger Only(all, n)}
      ensures Only(all, n) != [] <==> exists i | 0 <= i < |choices| :: choices[i].index == n
    {
      if n in merged {
        assert n in indices;
        var i :| 0 <= i < |indices| && indices[i] == n;
        assert choices[i].index == n;
      } else {
        assert forall i | 0 <= i < |choices| :: choices[i].index in merged;
      }
    }
  }

  /** The response of a stream that did not raise is the projection of all its entries; without any entry it is a lone
      empty message. */
  lemma ResponseProjection(chunks: seq<Chunk>)
    requires chunks != [] && Run(EMPTY, chunks).ok
    ensures Assembled(Run(EMPTY, chunks)).Some?
    ensures var choices, all := Assembled(Run(EMPTY, chunks)).value.choices, AllChoices(chunks);
      if all == [] then
        choices == [ResponseChoice(0, [Field("role", Str("assistant")), Field("content", Str(""))], None)]
      else Projected(choices, all)
  {
    hide Run, FoldChoice, Finished, Only, Ascending, Projected, MergedAt, FinishAll, AllChoices;
    var s, all := Run(EMPTY, chunks), AllChoices(chunks);
    Recorded(chunks);
    forall n {:trigger Only(all, n)}
      ensures Only(all, n) != [] <==> n in s.merged
      ensures MergedAt(s.merged, n) == FoldChoice(Only(all, n))
    {
      ChoiceProjection(chunks, n);
    }
    AscendingIn(s.merged.Keys);
    var indices := Ascending(s.merged.Keys);
    FinishedChoices(s.merged, all, indices);
    OnlySome(all);
    OnlyNone();
    SomeIndex(s.merged, indices);
    if all == [] {
      forall n
        ensures n !in s.merged
      {
        assert Only(all, n) == [];
      }
    } else {
      assert Only(all, all[0].index) != [];
    }
  }

  lemma SomeIndex(merged: map<int, Dict>, indices: seq<int>)
    requires indices == Ascending(merged.Keys)
    ensures indices == [] <==> forall n :: n !in merged
  {
    AscendingExact(merged.Keys);
    AscendingIn(merged.Keys);
    hide Ascending;
    if indices != [] {
      var n := indices[0];
      assert n in merged;
    } else {
      forall n
        ensures n !in merged
      {
        assert n in merged.Keys ==> n in indices;
      }
    }
  }

  lemma {:induction false} Recorded(chunks: seq<Chunk>)
    requires Run(EMPTY, chunks).ok
    ensures Run(EMPTY, chunks).recorded == |chunks|
  {
    if chunks != [] {
      Recorded(chunks[..|chunks| - 1]);
    }
  }

  lemma OnlyNone()
    ensures forall n :: Only([], n) == []
  {
  }

  lemma {:induction false} OnlySome(choices: seq<Choice>)
    ensures choices != [] ==> Only(choices, choices[0].index) != []
  {
    if |choices| > 1 {
      OnlySome(choices[..|choices| - 1]);
    }
  }
}
