/** The stream state that chunks are captured into, updated in place. */
module StreamStates {
  import opened Json
  import opened StreamMerge

  class StreamState {
    /** How many chunks have been recorded; their contents are not part of this model. */
    var chunksCollected: nat
    var mergedChoices: map<int, Dict>
    var usageData: Value
    var extraFields: Dict

    ghost function Now(ok: bool): Snapshot
      reads this
    {
      Snapshot(chunksCollected, mergedChoices, usageData, extraFields, ok)
    }

    constructor ()
      ensures Now(true) == EMPTY
    {
      chunksCollected, mergedChoices, usageData, extraFields := 0, map[], Obj([]), [];
    }

    /** Folds one chunk in. `ok` is false when a step raised; the state then holds what was done before. */
    method CaptureStreamChunk(chunk: Chunk) returns (ok: bool)
      modifies this
      ensures Now(ok) == Capture(old(Now(true)), chunk)
    {
      hide MergeDelta, Set, Get;
      chunksCollected := chunksCollected + 1;
      ghost var extra0, merged0 := extraFields, mergedChoices;
      var i := 0;
      while i < |chunk.fields|
        invariant 0 <= i <= |chunk.fields|
        invariant extraFields == MergeExtra(extra0, chunk.fields[..i])
        modifies `extraFields
      {
        if chunk.fields[i].value != Null {
          extraFields := Set(extraFields, chunk.fields[i].key, chunk.fields[i].value);
        }
        assert chunk.fields[..i + 1][..i] == chunk.fields[..i];
        i := i + 1;
      }
      assert chunk.fields[..|chunk.fields|] == chunk.fields;

      ok := true;
      i := 0;
      while i < |chunk.choices| && ok
        invariant 0 <= i <= |chunk.choices|
        invariant Choices(mergedChoices, ok) == CaptureChoices(merged0, chunk.choices[..i])
        modifies `mergedChoices
      {
        ghost var before := mergedChoices;
        var choice := chunk.choices[i];
        ok := MergeDeltaInto(choice.index, choice.delta);
        if ok && choice.finishReason != Null {
          mergedChoices := mergedChoices[choice.index :=
            Set(mergedChoices[choice.index], "finish_reason", choice.finishReason)];
        }
        assert Choices(mergedChoices, ok) == CaptureChoice(before, choice);
        assert chunk.choices[..i + 1][..i] == chunk.choices[..i];
        i := i + 1;
      }
      RestSkipped(merged0, chunk.choices, i);
      if ok && chunk.usage.Obj? {
        usageData := chunk.usage;
      }
    }

    /** Folds one delta into its choice, field by field, up to the field that raises. */
    method MergeDeltaInto(choiceIdx: int, delta: Dict) returns (ok: bool)
      modifies `mergedChoices
      ensures var after := MergeDelta(MergedAt(old(mergedChoices), choiceIdx), delta);
        ok == after.ok && mergedChoices == old(mergedChoices)[choiceIdx := after.fields]
    {
      var merged := if choiceIdx in mergedChoices then mergedChoices[choiceIdx] else [];
      ghost var start := merged;
      ok := true;
      var i := 0;
      while i < |delta| && ok
        invariant 0 <= i <= |delta|
        invariant Merged(merged, ok) == MergeDelta(start, delta[..i])
        invariant mergedChoices == old(mergedChoices)
      {
        var key, value := delta[i].key, delta[i].value;
        assert delta[..i + 1][..i] == delta[..i];
        if value != Null {
          if StringMergeKey(key) && value.Str? {
            match Get(merged, key) {
              case None => merged := Set(merged, key, value);
              case Some(Str(existing)) => merged := Set(merged, key, Str(existing + value.s));
              case _ => ok := false;
            }
          } else if value.Arr? {
            merged := MergeListField(merged, key, value.items);
          } else {
            merged := Set(merged, key, value);
          }
        }
        i := i + 1;
      }
      FieldsSkipped(start, delta, i);
      mergedChoices := mergedChoices[choiceIdx := merged];
    }

    static method MergeListField(merged: Dict, key: string, items: seq<Value>) returns (r: Dict)
      ensures Merged(r, true) == MergeField(merged, key, Arr(items))
    {
      var existing := Get(merged, key);
      if existing.None? || !existing.value.Arr? {
        return Set(merged, key, Arr(items));
      }
      var entries := existing.value.items;
      var i := 0;
      while i < |items|
        invariant 0 <= i <= |items|
        invariant entries == MergeItems(existing.value.items, items[..i])
      {
        assert items[..i + 1][..i] == items[..i];
        var item := items[i];
        var index := ItemIndex(item);
        if index == Null {
          entries := entries + [item];
        } else {
          var target := 0;
          while target < |entries| && !(entries[target].Obj? && ItemIndex(entries[target]) == index)
            invariant 0 <= target <= Find(entries, index)
          {
            target := target + 1;
          }
          if target == |entries| {
            entries := entries + [item];
          } else {
            FoundAt(entries, index, target);
            var merged' := DeepMergeItem(entries[target].fields, item.fields);
            entries := entries[target := Obj(merged')];
          }
        }
        i := i + 1;
      }
      assert items[..|items|] == items;
      r := Set(merged, key, Arr(entries));
    }

    static method DeepMergeItem(target: Dict, source: Dict) returns (r: Dict)
      ensures r == DeepMerge(target, source)
      decreases source
    {
      r := target;
      var i := 0;
      while i < |source|
        invariant 0 <= i <= |source|
        invariant r == DeepMerge(target, source[..i])
      {
        assert source[..i + 1][..i] == source[..i];
        var k, v := source[i].key, source[i].value;
        if v != Null {
          var existing := Get(r, k);
          if v.Obj? && existing.Some? && existing.value.Obj? {
            assert v < source[i];
            var inner := DeepMergeItem(existing.value.fields, v.fields);
            r := Set(r, k, Obj(inner));
          } else if ItemConcatKey(k) && v.Str? && existing.Some? && existing.value.Str? {
            r := Set(r, k, Str(existing.value.s + v.s));
          } else {
            r := Set(r, k, v);
          }
        }
        i := i + 1;
      }
      assert source[..|source|] == source;
    }

    /** One message per choice, by index, without the finish reasons, which move next to them. */
    method AssembledStreamResponse() returns (r: Option<Response>)
      ensures r == Assembled(Now(true))
    {
      if mergedChoices == map[] && chunksCollected == 0 {
        return None;
      }
      var indices := Ascending(mergedChoices.Keys);
      AscendingIn(mergedChoices.Keys);
      var choices := FinishEach(mergedChoices, indices);
      if choices == [] {
        choices := [ResponseChoice(0, [Field("role", Str("assistant")), Field("content", Str(""))], None)];
      }
      r := Some(Response(extraFields, choices, usageData));
    }

    static method FinishEach(merged: map<int, Dict>, indices: seq<int>) returns (choices: seq<ResponseChoice>)
      requires forall i | 0 <= i < |indices| :: indices[i] in merged
      ensures choices == FinishAll(merged, indices)
    {
      choices := [];
      var i := 0;
      while i < |indices|
        invariant 0 <= i <= |indices| && |choices| == i
        invariant forall j | 0 <= j < i :: choices[j] == Finished(indices[j], merged[indices[j]])
      {
        choices := choices + [Finished(indices[i], merged[indices[i]])];
        i := i + 1;
      }
    }
  }

  lemma FoundAt(entries: seq<Value>, index: Value, n: nat)
    requires n < |entries| && n <= Find(entries, index) && index != Null
    requires entries[n].Obj? && ItemIndex(entries[n]) == index
    ensures n == Find(entries, index)
  {
  }

  /** After a raise the remaining fields change nothing. */
  lemma {:induction false} FieldsSkipped(m: Dict, delta: Dict, n: nat)
    requires n <= |delta| && (n < |delta| ==> !MergeDelta(m, delta[..n]).ok)
    ensures MergeDelta(m, delta) == MergeDelta(m, delta[..n])
    decreases |delta| - n
  {
    if n == |delta| {
      assert delta[..n] == delta;
    } else {
      assert delta[..n + 1][..n] == delta[..n];
      FieldsSkipped(m, delta, n + 1);
    }
  }

  lemma {:induction false} RestSkipped(m: map<int, Dict>, choices: seq<Choice>, n: nat)
    requires n <= |choices| && (n < |choices| ==> !CaptureChoices(m, choices[..n]).ok)
    ensures CaptureChoices(m, choices) == CaptureChoices(m, choices[..n])
    decreases |choices| - n
  {
    if n == |choices| {
      assert choices[..n] == choices;
    } else {
      assert choices[..n + 1][..n] == choices[..n];
      RestSkipped(m, choices, n + 1);
    }
  }
}
