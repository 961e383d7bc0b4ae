/** When it makes a difference to the assembled response where the upstream cuts a text into fragments. */
module StreamCuts {
  import opened Json
  import opened JsonEquality
  import opened StreamMerge
  import opened StreamSplit
  import opened StreamTexts
  import opened StreamFragments
  import opened StreamProjection
  import opened StreamRaises

  // ----- a cut in one field

  /** Where a text is cut into `x` and `y`: in a string field, or at a path inside item number `at` of a list. */
  datatype Spot = InText(x: string, y: string) | InItem(at: nat, path: seq<string>, x: string, y: string)

  /** `h` is `w` with `x` in place of `x + y`, and `t` holds nothing but `y`. */
  ghost predicate CutValue(spot: Spot, k: string, w: Value, h: Value, t: Value)
  {
    && spot.y != ""
    && match spot
      case InText(x, y) =>
        && k in {"content", "reasoning_content", "reasoning", "refusal"}
        && w == Str(x + y) && h == Str(x) && t == Str(y)
      case InItem(at, path, x, y) =>
        && w.Arr? && h.Arr? && at < |w.items| == |h.items| && h.items == w.items[at := h.items[at]]
        && t.Arr? && |t.items| == 1 && CutItem(w.items[at], h.items[at], t.items[0], path, x, y)
  }

  /** The spot is inside the value. */
  predicate Fits(spot: Spot, w: Value)
  {
    spot.InItem? ==> w.Arr? && spot.at < |w.items| && spot.path != []
  }

  ghost predicate AllText(values: seq<Value>)
  {
    forall i | 0 <= i < |values| :: values[i].Str?
  }

  ghost predicate AllLists(values: seq<Value>)
  {
    forall i | 0 <= i < |values| :: values[i].Arr?
  }

  /** The items that are merged after the one that is cut: those behind it in its own list, unless that list is the
      first one and stored as it came, and those of later lists. */
  ghost function LaterItems(spot: Spot, w: Value, merges: bool, behind: seq<Value>): seq<Value>
    requires spot.InItem? && w.Arr? && spot.at < |w.items| && AllLists(behind)
  {
    (if merges then w.items[spot.at + 1..] else []) + AllItems(behind)
  }

  /** The rest is merged into the entry that the head went to. */
  ghost predicate SameEntry(spot: Spot, w: Value, merges: bool)
    requires spot.InItem? && w.Arr? && spot.at < |w.items|
  {
    merges || NoIndex(w.items[..spot.at], ItemIndex(w.items[spot.at]))
  }

  /** The rest, when it comes after the values `behind`, makes up for what the head lacked: these only append to the
      text, and it does not matter in which order. */
  ghost predicate Restores(spot: Spot, w: Value, merges: bool, behind: seq<Value>)
    requires Fits(spot, w)
  {
    match spot
    case InText(_, y) => AllText(behind) && Commutes(y, Concat(behind))
    case InItem(at, path, _, y) =>
      && AllLists(behind) && SameEntry(spot, w, merges)
      && var later, index := LaterItems(spot, w, merges, behind), ItemIndex(w.items[at]);
        AllTextual(later, index, path) && Commutes(y, Texts(later, index, path))
  }

  /** The values `behind` overwrite the text, so that it no longer shows what the head lacked. */
  ghost predicate Erases(spot: Spot, w: Value, merges: bool, behind: seq<Value>)
    requires Fits(spot, w)
  {
    match spot
    case InText(_, _) => !AllText(behind)
    case InItem(at, path, _, _) =>
      AllLists(behind) ==>
        SameEntry(spot, w, merges)
        && !AllTextual(LaterItems(spot, w, merges, behind), ItemIndex(w.items[at]), path)
  }

  lemma {:induction false} TextFolds(k: string, a: string, behind: seq<Value>)
    requires StringMergeKey(k) && AllText(behind)
    ensures FoldValues(Some(Str(a)), k, behind) == Some(Str(a + Concat(behind)))
  {
    if behind == [] {
      assert a + "" == a;
    } else {
      var front, last := behind[..|behind| - 1], behind[|behind| - 1].s;
      TextFolds(k, a, front);
      assert a + Concat(front) + last == a + (Concat(front) + last);
    }
  }

  /** A value of another kind hides what was there. */
  lemma {:induction false} OtherKindFolds(k: string, v: Value, w: Value, behind: seq<Value>)
    requires (v.Str? && w.Str? && !AllText(behind)) || (v.Arr? && w.Arr? && !AllLists(behind))
    requires v.Str? ==> StringMergeKey(k)
    ensures FoldValues(Some(v), k, behind) == FoldValues(Some(w), k, behind)
  {
    var front := behind[..|behind| - 1];
    if v.Str? && AllText(front) {
      TextFolds(k, v.s, front);
      TextFolds(k, w.s, front);
    } else if v.Arr? && AllLists(front) {
      FoldLists(k, v.items, front);
      FoldLists(k, w.items, front);
    } else {
      OtherKindFolds(k, v, w, front);
    }
  }

  lemma {:induction false} TidyLast(values: seq<Value>)
    requires Tidy(values) && values != [] && values[|values| - 1].Str?
    ensures AllText(values)
  {
    if |values| > 1 {
      assert Tidy(values[..|values| - 1]);
      TidyLast(values[..|values| - 1]);
    }
  }

  lemma EndsUntextual(w: Value, behind: seq<Value>)
    requires w.Str? && Tidy([w] + behind) && !AllText(behind)
    ensures behind != [] && !behind[|behind| - 1].Str?
  {
    var all := [w] + behind;
    assert forall i | 0 <= i < |behind| :: all[i + 1] == behind[i];
    if behind[|behind| - 1].Str? {
      TidyLast(all);
    }
  }

  /** After a tidy run of values that are not all strings the field holds something else. */
  lemma EndsOther(k: string, w: Value, v: Value, behind: seq<Value>)
    requires w.Str? && Tidy([w] + behind) && !AllText(behind)
    ensures FoldValues(Some(v), k, behind).Some? && !FoldValues(Some(v), k, behind).value.Str?
  {
    EndsUntextual(w, behind);
  }

  lemma CutTextIff(prior: Option<Value>, k: string, spot: Spot, w: Value, h: Value, t: Value, behind: seq<Value>)
    requires spot.InText? && CutValue(spot, k, w, h, t) && FieldValue(prior, k, w).Some? && Tidy([w] + behind)
    ensures FieldValue(prior, k, h).Some?
    ensures var fw := FoldValues(FieldValue(prior, k, w), k, behind);
      var fh := FoldValues(FieldValue(prior, k, h), k, behind);
      && (fw == fh <==> Erases(spot, w, false, behind))
      && (FieldValue(fh, k, t) == fw <==> Restores(spot, w, false, behind))
  {
    var x, y, e := spot.x, spot.y, match prior { case Some(Str(s)) => s case _ => "" };
    assert "" + (x + y) == x + y && "" + x == x && e + (x + y) == e + x + y;
    assert FieldValue(prior, k, w) == Some(Str(e + x + y)) && FieldValue(prior, k, h) == Some(Str(e + x));
    if AllText(behind) {
      var l := Concat(behind);
      TextFolds(k, e + x + y, behind);
      TextFolds(k, e + x, behind);
      Swapped(e + x, y, l);
      assert |e + x + y + l| > |e + x + l|;
    } else {
      OtherKindFolds(k, Str(e + x + y), Str(e + x), behind);
      EndsOther(k, w, Str(e + x), behind);
    }
  }

  ghost predicate WellFormedAll(values: seq<Value>)
  {
    forall i | 0 <= i < |values| :: WellFormed(values[i])
  }

  lemma {:induction false} WellFormedAlong(d: Dict, path: seq<string>)
    requires path != [] && WellFormed(Obj(d))
    ensures DistinctAlong(d, path)
    decreases |path|
  {
    if |path| > 1 && Has(d, path[0]) && Get(d, path[0]).value.Obj? {
      WellFormedGet(d, path[0]);
      WellFormedAlong(Get(d, path[0]).value.fields, path[1..]);
    }
  }

  lemma WellFormedItems(items: seq<Value>, path: seq<string>)
    requires path != [] && WellFormedAll(items)
    ensures Parsed(items) && AllDistinct(items, path)
  {
    forall i | 0 <= i < |items| && items[i].Obj?
      ensures DistinctKeys(items[i].fields) && DistinctAlong(items[i].fields, path)
    {
      assert WellFormed(items[i]);
      WellFormedAlong(items[i].fields, path);
    }
  }

  lemma {:induction false} WellFormedLists(values: seq<Value>)
    requires AllLists(values) && WellFormedAll(values)
    ensures WellFormedAll(AllItems(values))
  {
    if values != [] {
      assert WellFormed(values[|values| - 1]);
      WellFormedLists(values[..|values| - 1]);
    }
  }

  lemma LaterWellFormed(spot: Spot, w: Value, merges: bool, behind: seq<Value>)
    requires spot.InItem? && w.Arr? && spot.at < |w.items| && AllLists(behind) && WellFormed(w) && WellFormedAll(behind)
    ensures WellFormedAll(LaterItems(spot, w, merges, behind))
  {
    WellFormedLists(behind);
  }

  /** The rest of a cut item always changes a list. */
  lemma RestChanges(v: Value, k: string, spot: Spot, w: Value, h: Value, t: Value)
    requires spot.InItem? && CutValue(spot, k, w, h, t)
    ensures FieldValue(Some(v), k, t) != Some(v)
  {
    hide DeepMerge, Cut;
    var item, index := t.items[0], ItemIndex(w.items[spot.at]);
    FragmentOfCut(w.items[spot.at], h.items[spot.at], item, spot.path, spot.x, spot.y);
    if v.Arr? {
      var n := Find(v.items, index);
      MergeItemsOne(v.items, item);
      TailIndex(item, index);
      if n < |v.items| {
        FragmentMerges(v.items, n, item, index, spot.path, spot.y);
        JustTextMerges(v.items[n].fields, item.fields[1..], spot.path, spot.y);
      }
    }
  }

  lemma SplitItems(w: Value, h: Value, at: nat)
    requires w.Arr? && h.Arr? && at < |w.items| == |h.items| && h.items == w.items[at := h.items[at]]
    ensures w.items == w.items[..at] + ([w.items[at]] + w.items[at + 1..])
    ensures h.items == w.items[..at] + ([h.items[at]] + w.items[at + 1..])
  {
  }

  /** A cut item of a list that is merged into one that is there. */
  lemma CutMergedIff(e: seq<Value>, k: string, spot: Spot, w: Value, h: Value, t: Value, behind: seq<Value>)
    requires spot.InItem? && CutValue(spot, k, w, h, t) && AllLists(behind) && WellFormed(w) && WellFormedAll(behind)
    ensures var prior := Some(Arr(e));
      var fw, fh := FoldValues(FieldValue(prior, k, w), k, behind), FoldValues(FieldValue(prior, k, h), k, behind);
      && (fw == fh <==> Erases(spot, w, true, behind))
      && (FieldValue(fh, k, t) == fw <==> Restores(spot, w, true, behind))
  {
    hide MergeItem, MergeItems, AllItems, Cut, AllTextual, Texts, Parsed, AllDistinct, WellFormed, Commutes,
      WellFormedAll;
    var more, later := AllItems(behind), LaterItems(spot, w, true, behind);
    SplitItems(w, h, spot.at);
    FoldLists(k, MergeItems(e, w.items), behind);
    FoldLists(k, MergeItems(e, h.items), behind);
    LaterWellFormed(spot, w, true, behind);
    WellFormedItems(later, spot.path);
    CutListIff(e, w.items[..spot.at], w.items[spot.at + 1..], w.items[spot.at], h.items[spot.at], t.items[0],
               spot.path, spot.x, spot.y, more);
    assert t.items == [t.items[0]];
    MergeItemsOne(MergeItems(MergeItems(e, h.items), more), t.items[0]);
  }

  /** A cut item of the first list. */
  lemma CutStoredIff(prior: Option<Value>, k: string, spot: Spot, w: Value, h: Value, t: Value, behind: seq<Value>)
    requires spot.InItem? && CutValue(spot, k, w, h, t) && AllLists(behind) && WellFormed(w) && WellFormedAll(behind)
    requires !(prior.Some? && prior.value.Arr?)
    ensures var fw := FoldValues(FieldValue(prior, k, w), k, behind);
      var fh := FoldValues(FieldValue(prior, k, h), k, behind);
      && (fw == fh <==> Erases(spot, w, false, behind))
      && (FieldValue(fh, k, t) == fw <==> Restores(spot, w, false, behind))
  {
    hide MergeItem, MergeItems, AllItems, Cut, AllTextual, Texts, Parsed, AllDistinct, WellFormed, Commutes,
      WellFormedAll, NoIndex;
    var later := LaterItems(spot, w, false, behind);
    SplitItems(w, h, spot.at);
    FoldLists(k, w.items, behind);
    FoldLists(k, h.items, behind);
    LaterWellFormed(spot, w, false, behind);
    WellFormedItems(later, spot.path);
    assert later == AllItems(behind);
    CutFirstListIff(w.items[..spot.at], w.items[spot.at + 1..], w.items[spot.at], h.items[spot.at], t.items[0],
                    spot.path, spot.x, spot.y, later);
    assert t.items == [t.items[0]];
    MergeItemsOne(MergeItems(h.items, later), t.items[0]);
  }

  /** The whole and the head, each followed by the values `behind`: when the field ends up the same, and when it does
      once the rest has come, too. */
  lemma CutValueIff(prior: Option<Value>, k: string, spot: Spot, w: Value, h: Value, t: Value, behind: seq<Value>)
    requires CutValue(spot, k, w, h, t) && FieldValue(prior, k, w).Some? && WellFormed(w) && WellFormedAll(behind)
    requires StringMergeKey(k) ==> Tidy([w] + behind)
    requires FoldValues(FieldValue(prior, k, w), k, behind).Some?
    ensures var merges := prior.Some? && prior.value.Arr?;
      var fw, fh := FoldValues(FieldValue(prior, k, w), k, behind), FoldValues(FieldValue(prior, k, h), k, behind);
      && (fw == fh <==> Erases(spot, w, merges, behind))
      && (FieldValue(fh, k, t) == fw <==> Restores(spot, w, merges, behind))
  {
    if spot.InText? {
      CutTextIff(prior, k, spot, w, h, t, behind);
    } else if AllLists(behind) {
      if prior.Some? && prior.value.Arr? {
        CutMergedIff(prior.value.items, k, spot, w, h, t, behind);
      } else {
        CutStoredIff(prior, k, spot, w, h, t, behind);
      }
    } else {
      OtherKindFolds(k, FieldValue(prior, k, w).value, FieldValue(prior, k, h).value, behind);
      RestChanges(FoldValues(FieldValue(prior, k, h), k, behind).value, k, spot, w, h, t);
    }
  }

  lemma CutKinds(prior: Option<Value>, k: string, spot: Spot, w: Value, h: Value, t: Value)
    requires CutValue(spot, k, w, h, t)
    ensures w != Null && h != Null && t != Null
    ensures FieldValue(prior, k, w).Some? <==> FieldValue(prior, k, h).Some?
    ensures FieldValue(prior, k, w).Some? ==>
      (FieldValue(prior, k, w).value.Str? <==> FieldValue(prior, k, h).value.Str?)
  {
  }

  // ----- a cut in one chunk

  /** The cut is in field `n` of choice entry `i`; the tail is a chunk that carries nothing else. */
  ghost predicate CutHere(whole: Chunk, head: Chunk, tail: Chunk, i: nat, n: nat, spot: Spot)
  {
    && i < |whole.choices| == |head.choices| && head == whole.(choices := whole.choices[i := head.choices[i]])
    && |tail.choices| == 1 && tail == Chunk([], tail.choices, Null)
    && CutEntry(whole.choices[i], head.choices[i], tail.choices[0], n, spot)
  }

  ghost predicate CutEntry(cw: Choice, ch: Choice, ct: Choice, n: nat, spot: Spot)
  {
    && n < |cw.delta| == |ch.delta| && ch == cw.(delta := cw.delta[n := ch.delta[n]])
    && |ct.delta| == 1 && ct == Choice(cw.index, ct.delta, Null)
    && var k := cw.delta[n].key;
      && k != "finish_reason" && ch.delta[n].key == k && ct.delta[0].key == k
      && CutValue(spot, k, cw.delta[n].value, ch.delta[n].value, ct.delta[0].value)
  }

  ghost predicate WellFormedChoices(choices: seq<Choice>)
  {
    forall j | 0 <= j < |choices| :: WellFormed(Obj(choices[j].delta))
  }

  /** What the entries write to the field `k` of a choice. */
  ghost function Written(choices: seq<Choice>, index: int, k: string): seq<Value>
  {
    AllValues(Only(choices, index), k)
  }

  lemma WrittenSnoc(choices: seq<Choice>, c: Choice, index: int, k: string)
    ensures Written(choices + [c], index, k) ==
      Written(choices, index, k) + if c.index == index then ValuesOf(c.delta, k) else []
  {
    assert (choices + [c])[..|choices|] == choices;
    var own := Only(choices, index);
    assert (own + [c])[..|own|] == own;
  }

  lemma {:induction false} WrittenAppend(a: seq<Choice>, b: seq<Choice>, index: int, k: string)
    ensures Written(a + b, index, k) == Written(a, index, k) + Written(b, index, k)
  {
    hide Written;
    if b == [] {
      assert a + b == a;
      NothingWritten(index, k);
    } else {
      var front, c := b[..|b| - 1], b[|b| - 1];
      WrittenAppend(a, front, index, k);
      WrittenSnoc(a + front, c, index, k);
      WrittenSnoc(front, c, index, k);
      assert a + front + [c] == a + b && front + [c] == b;
    }
  }

  lemma NothingWritten(index: int, k: string)
    ensures Written([], index, k) == []
  {
  }

  lemma {:induction false} WrittenWellFormed(choices: seq<Choice>, index: int, k: string)
    requires WellFormedChoices(choices)
    ensures WellFormedAll(Written(choices, index, k))
  {
    hide Written, WellFormed;
    if choices == [] {
      NothingWritten(index, k);
    } else {
      var front, c := choices[..|choices| - 1], choices[|choices| - 1];
      WrittenWellFormed(front, index, k);
      WrittenSnoc(front, c, index, k);
      assert front + [c] == choices;
      ValuesWellFormed(c.delta, k);
    }
  }

  lemma {:induction false} ValuesWellFormed(delta: Dict, k: string)
    requires WellFormed(Obj(delta))
    ensures WellFormedAll(ValuesOf(delta, k))
  {
    if delta != [] {
      WellFormedPrefix(delta, |delta| - 1);
      assert WellFormedField(delta[|delta| - 1]);
      ValuesWellFormed(delta[..|delta| - 1], k);
    }
  }

  lemma WellFormedPrefix(delta: Dict, n: nat)
    requires WellFormed(Obj(delta)) && n <= |delta|
    ensures WellFormed(Obj(delta[..n]))
  {
    assert forall j | 0 <= j < n :: WellFormedField(delta[j]) && delta[..n][j] == delta[j];
  }

  /** A field of a choice after some entries is the fold of what they write. */
  lemma {:induction false} ChoicesField(m: map<int, Dict>, choices: seq<Choice>, index: int, k: string)
    requires CaptureChoices(m, choices).ok && k != "finish_reason"
    ensures Get(MergedAt(CaptureChoices(m, choices).merged, index), k) ==
      FoldValues(Get(MergedAt(m, index), k), k, Written(choices, index, k))
  {
    hide FoldValues, Written, WithFinish;
    if choices == [] {
      NothingWritten(index, k);
      FoldNothing(Get(MergedAt(m, index), k), k);
    } else {
      var front, c := choices[..|choices| - 1], choices[|choices| - 1];
      var m' := CaptureChoices(m, front).merged;
      ChoicesField(m, front, index, k);
      WrittenSnoc(front, c, index, k);
      assert front + [c] == choices;
      if c.index == index {
        var d := MergedAt(m', index);
        DeltaField(d, c.delta, k);
        FinishShows(MergeDelta(d, c.delta).fields, c.finishReason, k);
        FoldValuesAppend(Get(MergedAt(m, index), k), k, Written(front, index, k), ValuesOf(c.delta, k));
        assert CaptureChoice(m', c).merged[index] == WithFinish(MergeDelta(d, c.delta).fields, c.finishReason) by {
          FinishIs(MergeDelta(d, c.delta).fields, c.finishReason);
        }
      } else {
        assert Written(choices, index, k) == Written(front, index, k);
      }
    }
  }

  lemma FoldNothing(prior: Option<Value>, k: string)
    ensures FoldValues(prior, k, []) == prior
  {
  }

  lemma FinishIs(d: Dict, finish: Value)
    ensures WithFinish(d, finish) == if finish != Null then Set(d, "finish_reason", finish) else d
  {
  }

  /** The part of a chunk before a field, and the part up to and including it. */
  ghost function Before(chunk: Chunk, i: nat, n: nat): Chunk
    requires i < |chunk.choices| && n <= |chunk.choices[i].delta|
  {
    var c := chunk.choices[i];
    Chunk([], chunk.choices[..i] + [Choice(c.index, c.delta[..n], Null)], Null)
  }

  ghost function UpTo(chunk: Chunk, i: nat, n: nat): Chunk
    requires i < |chunk.choices| && n < |chunk.choices[i].delta|
  {
    Before(chunk, i, n + 1)
  }

  lemma BeforeCaptures(m: map<int, Dict>, chunk: Chunk, i: nat, n: nat)
    requires i < |chunk.choices| && n <= |chunk.choices[i].delta|
    ensures var first, c := CaptureChoices(m, chunk.choices[..i]), chunk.choices[i];
      CaptureChoices(m, Before(chunk, i, n).choices) ==
      if first.ok then
        var d := MergeDelta(MergedAt(first.merged, c.index), c.delta[..n]);
        Choices(first.merged[c.index := d.fields], d.ok)
      else first
  {
    var c := chunk.choices[i];
    var cut := Choice(c.index, c.delta[..n], Null);
    CaptureAppend(m, chunk.choices[..i], [cut]);
    if CaptureChoices(m, chunk.choices[..i]).ok {
      CaptureOne(CaptureChoices(m, chunk.choices[..i]).merged, cut);
    }
  }

  lemma WholeCaptures(m: map<int, Dict>, choices: seq<Choice>, i: nat)
    requires i < |choices|
    ensures var first := CaptureChoices(m, choices[..i]);
      CaptureChoices(m, choices) ==
      if !first.ok then first
      else
        var next := CaptureChoice(first.merged, choices[i]);
        if next.ok then CaptureChoices(next.merged, choices[i + 1..]) else next
  {
    var p, c, q := choices[..i], choices[i], choices[i + 1..];
    assert choices == p + ([c] + q);
    CaptureAppend(m, p, [c] + q);
    if CaptureChoices(m, p).ok {
      CaptureAround(m, p, c, q);
    }
  }

  lemma AroundField(cw: Choice, ch: Choice, ct: Choice, n: nat, spot: Spot)
    requires CutEntry(cw, ch, ct, n, spot) && WellFormed(Obj(cw.delta))
    ensures var k, a, b := cw.delta[n].key, cw.delta[..n], cw.delta[n + 1..];
      && cw.delta == a + ([Field(k, cw.delta[n].value)] + b) && ch.delta == a + ([Field(k, ch.delta[n].value)] + b)
      && cw.delta[..n + 1] == a + ([Field(k, cw.delta[n].value)] + []) && Lacks(a, k) && Lacks(b, k)
  {
    SplitParts(cw.delta, ch.delta, cw.delta[n].key, n);
  }

  /** When a field up to the cut one raises, whole and head leave the same. */
  lemma EntryRaises(m: Dict, cw: Choice, ch: Choice, ct: Choice, n: nat, spot: Spot)
    requires CutEntry(cw, ch, ct, n, spot) && WellFormed(Obj(cw.delta)) && !MergeDelta(m, cw.delta[..n + 1]).ok
    ensures MergeDelta(m, ch.delta) == MergeDelta(m, cw.delta) && !MergeDelta(m, cw.delta).ok
  {
    var k, a, b := cw.delta[n].key, cw.delta[..n], cw.delta[n + 1..];
    AroundField(cw, ch, ct, n, spot);
    CutKinds(Get(m, k), k, spot, cw.delta[n].value, ch.delta[n].value, ct.delta[0].value);
    DeltaAround(m, a, k, cw.delta[n].value, []);
    DeltaAround(m, a, k, cw.delta[n].value, b);
    DeltaAround(m, a, k, ch.delta[n].value, b);
  }

  /** When none does, they differ in the cut field at most. */
  lemma EntryTwins(m: Dict, cw: Choice, ch: Choice, ct: Choice, n: nat, spot: Spot)
    requires CutEntry(cw, ch, ct, n, spot) && WellFormed(Obj(cw.delta)) && MergeDelta(m, cw.delta[..n + 1]).ok
    ensures MergeDelta(m, ch.delta).ok == MergeDelta(m, cw.delta).ok
    ensures var k := cw.delta[n].key;
      && Twin(MergeDelta(m, cw.delta).fields, MergeDelta(m, ch.delta).fields, k)
      && FieldValue(Get(m, k), k, cw.delta[n].value).Some?
      && Get(MergeDelta(m, cw.delta).fields, k) == FieldValue(Get(m, k), k, cw.delta[n].value)
      && Get(MergeDelta(m, ch.delta).fields, k) == FieldValue(Get(m, k), k, ch.delta[n].value)
  {
    hide Twin, CutValue;
    var k, a, b := cw.delta[n].key, cw.delta[..n], cw.delta[n + 1..];
    var w, h := cw.delta[n].value, ch.delta[n].value;
    AroundField(cw, ch, ct, n, spot);
    CutKinds(Get(m, k), k, spot, w, h, ct.delta[0].value);
    DeltaAround(m, a, k, w, []);
    DeltaAround(m, a, k, w, b);
    DeltaAround(m, a, k, h, b);
    var r := MergeDelta(m, a).fields;
    var rw, rh := FieldValue(Get(m, k), k, w), FieldValue(Get(m, k), k, h);
    if rw.Some? {
      TwinSets(r, k, rw.value, rh.value);
      DeltaTwin(Set(r, k, rw.value), Set(r, k, rh.value), k, b);
      GetSet(r, k, rw.value, k);
      GetSet(r, k, rh.value, k);
      DeltaUntouched(Set(r, k, rw.value), b, k);
      DeltaUntouched(Set(r, k, rh.value), b, k);
    }
  }

  /** The value of the cut field when the cut is reached. */
  ghost function Prior(m: map<int, Dict>, whole: Chunk, i: nat, n: nat): Option<Value>
    requires i < |whole.choices| && n < |whole.choices[i].delta|
  {
    var c := whole.choices[i];
    Get(MergedAt(CaptureChoices(m, whole.choices[..i]).merged, c.index), c.delta[n].key)
  }

  /** What the entries behind the cut write to the cut field. */
  ghost function Behind(whole: Chunk, i: nat, n: nat): seq<Value>
    requires i < |whole.choices| && n < |whole.choices[i].delta|
  {
    Written(whole.choices[i + 1..], whole.choices[i].index, whole.choices[i].delta[n].key)
  }

  lemma CutRaises(m: map<int, Dict>, whole: Chunk, head: Chunk, tail: Chunk, i: nat, n: nat, spot: Spot)
    requires CutHere(whole, head, tail, i, n, spot) && WellFormedChoices(whole.choices)
    requires !CaptureChoices(m, UpTo(whole, i, n).choices).ok
    ensures CaptureChoices(m, head.choices) == CaptureChoices(m, whole.choices) && !CaptureChoices(m, whole.choices).ok
  {
    hide CutEntry;
    EntryHead(whole.choices[i], head.choices[i], tail.choices[0], n, spot);
    BeforeCaptures(m, whole, i, n + 1);
    WholeCaptures(m, whole.choices, i);
    WholeCaptures(m, head.choices, i);
    assert head.choices[..i] == whole.choices[..i];
    var first, cw := CaptureChoices(m, whole.choices[..i]), whole.choices[i];
    if first.ok {
      EntryRaises(MergedAt(first.merged, cw.index), cw, head.choices[i], tail.choices[0], n, spot);
    }
  }

  lemma CutFits(whole: Chunk, head: Chunk, tail: Chunk, i: nat, n: nat, spot: Spot)
    requires CutHere(whole, head, tail, i, n, spot)
    ensures Fits(spot, whole.choices[i].delta[n].value)
  {
  }

  lemma EntryHead(cw: Choice, ch: Choice, ct: Choice, n: nat, spot: Spot)
    requires CutEntry(cw, ch, ct, n, spot)
    ensures ch.index == cw.index && ch.finishReason == cw.finishReason && n < |cw.delta|
    ensures cw.delta[n].key != "finish_reason" && ct.delta == [Field(cw.delta[n].key, ct.delta[0].value)]
  {
  }

  /** Whole and head leave the same but for the cut field, which holds what is written there from the cut on. */
  lemma CutTwins(m: map<int, Dict>, whole: Chunk, head: Chunk, tail: Chunk, i: nat, n: nat, spot: Spot)
    requires CutHere(whole, head, tail, i, n, spot) && WellFormedChoices(whole.choices)
    requires CaptureChoices(m, UpTo(whole, i, n).choices).ok
    ensures var c, k := whole.choices[i], whole.choices[i].delta[n].key;
      var prior, behind := Prior(m, whole, i, n), Behind(whole, i, n);
      var w, h := c.delta[n].value, head.choices[i].delta[n].value;
      var cw, ch := CaptureChoices(m, whole.choices), CaptureChoices(m, head.choices);
      && FieldValue(prior, k, w).Some? && cw.ok == ch.ok && TwinChoices(cw.merged, ch.merged, c.index, k)
      && (cw.ok ==>
            && Get(cw.merged[c.index], k) == FoldValues(FieldValue(prior, k, w), k, behind)
            && Get(ch.merged[c.index], k) == FoldValues(FieldValue(prior, k, h), k, behind))
  {
    hide CutEntry, Twin, FoldValues, Written, WithFinish;
    EntryHead(whole.choices[i], head.choices[i], tail.choices[0], n, spot);
    BeforeCaptures(m, whole, i, n + 1);
    WholeCaptures(m, whole.choices, i);
    WholeCaptures(m, head.choices, i);
    var p, q, cw, ch := whole.choices[..i], whole.choices[i + 1..], whole.choices[i], head.choices[i];
    assert head.choices[..i] == p && head.choices[i + 1..] == q;
    var first, k := CaptureChoices(m, p).merged, cw.delta[n].key;
    var d := MergedAt(first, cw.index);
    EntryTwins(d, cw, ch, tail.choices[0], n, spot);
    EntryCaptures(first, cw, ch, k);
    var nw, nh := CaptureChoice(first, cw), CaptureChoice(first, ch);
    if nw.ok {
      ChoicesTwins(nw.merged, nh.merged, cw.index, k, q);
      if CaptureChoices(nw.merged, q).ok {
        ChoicesField(nw.merged, q, cw.index, k);
        ChoicesField(nh.merged, q, cw.index, k);
      }
    }
  }

  lemma EntryCaptures(m: map<int, Dict>, cw: Choice, ch: Choice, k: string)
    requires ch.index == cw.index && ch.finishReason == cw.finishReason && k != "finish_reason"
    requires var d := MergedAt(m, cw.index);
      MergeDelta(d, ch.delta).ok == MergeDelta(d, cw.delta).ok
      && Twin(MergeDelta(d, cw.delta).fields, MergeDelta(d, ch.delta).fields, k)
    ensures CaptureChoice(m, cw).ok == CaptureChoice(m, ch).ok
    ensures TwinChoices(CaptureChoice(m, cw).merged, CaptureChoice(m, ch).merged, cw.index, k)
    ensures var d := MergedAt(m, cw.index);
      && Get(CaptureChoice(m, cw).merged[cw.index], k) == Get(MergeDelta(d, cw.delta).fields, k)
      && Get(CaptureChoice(m, ch).merged[cw.index], k) == Get(MergeDelta(d, ch.delta).fields, k)
  {
    hide Twin;
    var d := MergedAt(m, cw.index);
    var fw, fh := MergeDelta(d, cw.delta).fields, MergeDelta(d, ch.delta).fields;
    FinishTwin(fw, fh, k, cw.finishReason);
    FinishShows(fw, cw.finishReason, k);
    FinishShows(fh, cw.finishReason, k);
    var nw, nh := CaptureChoice(m, cw).merged, CaptureChoice(m, ch).merged;
    assert nw == nh[cw.index := nw[cw.index]];
  }
}
