/** Which streams raise, and when a raise lets the assembled response tell where a fragment was cut. */
module StreamRaises {
  import opened Json
  import opened StreamMerge
  import opened StreamFragments
  import opened StreamProjection

  // ----- which streams raise

  /** No string comes directly after a value that is not one. */
  ghost predicate Tidy(values: seq<Value>)
  {
    forall j | 0 < j < |values| && values[j].Str? :: values[j - 1].Str?
  }

  /** Whatever was written last decides whether the field holds a string. */
  ghost predicate Holds(field: Option<Value>, values: seq<Value>)
  {
    if values == [] then field.None? else field.Some? && field.value.Str? == values[|values| - 1].Str?
  }

  lemma TidySnoc(values: seq<Value>, v: Value)
    ensures Tidy(values + [v]) <==>
      Tidy(values) && (v.Str? && values != [] ==> values[|values| - 1].Str?)
  {
    var more := values + [v];
    assert forall j | 0 <= j < |values| :: more[j] == values[j];
    assert more[|values|] == v;
    if Tidy(more) {
      forall j | 0 < j < |values| && values[j].Str?
        ensures values[j - 1].Str?
      {
        assert more[j].Str? && more[j - 1].Str?;
      }
    }
  }

  /** One value of a string field raises exactly when it leaves the values untidy. */
  lemma ValueRaisesIff(field: Option<Value>, k: string, values: seq<Value>, v: Value)
    requires StringMergeKey(k) && Tidy(values) && Holds(field, values) && v != Null
    ensures FieldValue(field, k, v).Some? <==> Tidy(values + [v])
    ensures FieldValue(field, k, v).Some? ==> Holds(FieldValue(field, k, v), values + [v])
  {
    TidySnoc(values, v);
  }

  ghost predicate AllTidy(choices: seq<Choice>, delta: Dict)
  {
    forall k | StringMergeKey(k) :: Tidy(AllValues(choices, k) + ValuesOf(delta, k))
  }

  ghost predicate AllHold(m: Dict, choices: seq<Choice>, delta: Dict)
  {
    forall k | StringMergeKey(k) :: Holds(Get(m, k), AllValues(choices, k) + ValuesOf(delta, k))
  }

  /** One more field of a delta. */
  lemma FieldRaisesIff(m: Dict, choices: seq<Choice>, front: Dict, f: Field)
    requires AllTidy(choices, front) && AllHold(m, choices, front)
    ensures MergeField(m, f.key, f.value).ok <==> AllTidy(choices, front + [f])
    ensures MergeField(m, f.key, f.value).ok ==> AllHold(MergeField(m, f.key, f.value).fields, choices, front + [f])
  {
    hide AllValues, MergeField, Tidy, Holds, FieldValue, Get, Set;
    forall k | StringMergeKey(k)
      ensures ValuesOf(front + [f], k) == ValuesOf(front, k) + if f.key == k && f.value != Null then [f.value] else []
    {
      assert (front + [f])[..|front|] == front;
    }
    if f.value == Null {
      NullField(m, f.key);
    } else {
      MergeFieldIsSet(m, f.key, f.value);
      if StringMergeKey(f.key) {
        var values := AllValues(choices, f.key) + ValuesOf(front, f.key);
        ValueRaisesIff(Get(m, f.key), f.key, values, f.value);
        assert AllValues(choices, f.key) + ValuesOf(front + [f], f.key) == values + [f.value];
      } else {
        OtherField(Get(m, f.key), f.key, f.value);
      }
      forall k | FieldValue(Get(m, f.key), f.key, f.value).Some? && StringMergeKey(k)
        ensures Holds(Get(MergeField(m, f.key, f.value).fields, k), AllValues(choices, k) + ValuesOf(front + [f], k))
      {
        GetSet(m, f.key, FieldValue(Get(m, f.key), f.key, f.value).value, k);
      }
    }
  }

  lemma NullField(m: Dict, k: string)
    ensures MergeField(m, k, Null) == Merged(m, true)
  {
  }

  lemma OtherField(prior: Option<Value>, k: string, v: Value)
    requires !StringMergeKey(k)
    ensures FieldValue(prior, k, v).Some?
  {
  }

  lemma LongerUntidy(choices: seq<Choice>, front: Dict, f: Field)
    requires !AllTidy(choices, front)
    ensures !AllTidy(choices, front + [f])
  {
    var k :| StringMergeKey(k) && !Tidy(AllValues(choices, k) + ValuesOf(front, k));
    var values := AllValues(choices, k) + ValuesOf(front, k);
    assert (front + [f])[..|front|] == front;
    if f.key == k && f.value != Null {
      TidySnoc(values, f.value);
      assert AllValues(choices, k) + ValuesOf(front + [f], k) == values + [f.value];
    }
  }

  lemma {:induction false} DeltaRaisesIff(m: Dict, choices: seq<Choice>, delta: Dict)
    requires AllTidy(choices, []) && AllHold(m, choices, [])
    ensures MergeDelta(m, delta).ok <==> AllTidy(choices, delta)
    ensures MergeDelta(m, delta).ok ==> AllHold(MergeDelta(m, delta).fields, choices, delta)
  {
    hide AllTidy, AllHold, MergeField;
    if delta != [] {
      var front, f := delta[..|delta| - 1], delta[|delta| - 1];
      assert delta == front + [f];
      DeltaRaisesIff(m, choices, front);
      if MergeDelta(m, front).ok {
        FieldRaisesIff(MergeDelta(m, front).fields, choices, front, f);
      } else {
        LongerUntidy(choices, front, f);
      }
    }
  }

  /** One choice's own entries. */
  ghost predicate TidyChoice(choices: seq<Choice>)
  {
    AllTidy(choices, [])
  }

  lemma TidyChoiceSnoc(choices: seq<Choice>, c: Choice)
    ensures TidyChoice(choices + [c]) <==> AllTidy(choices, c.delta)
    ensures forall m :: AllHold(m, choices + [c], []) <==> AllHold(m, choices, c.delta)
  {
    assert (choices + [c])[..|choices|] == choices;
    assert forall k :: AllValues(choices + [c], k) + ValuesOf([], k) == AllValues(choices, k) + ValuesOf(c.delta, k);
  }

  lemma LongerUntidyChoice(choices: seq<Choice>, c: Choice)
    requires !TidyChoice(choices)
    ensures !TidyChoice(choices + [c])
  {
    TidyChoiceSnoc(choices, c);
    UntidyDelta(choices, c.delta);
  }

  lemma {:induction false} UntidyDelta(choices: seq<Choice>, delta: Dict)
    requires !AllTidy(choices, [])
    ensures !AllTidy(choices, delta)
  {
    if delta != [] {
      UntidyDelta(choices, delta[..|delta| - 1]);
      LongerUntidy(choices, delta[..|delta| - 1], delta[|delta| - 1]);
      assert delta == delta[..|delta| - 1] + [delta[|delta| - 1]];
    }
  }

  ghost predicate TidyEntries(choices: seq<Choice>)
  {
    forall i :: TidyChoice(Only(choices, i))
  }

  /** What holds of the merged choices as long as nothing raised. */
  ghost predicate EntriesHold(m: map<int, Dict>, choices: seq<Choice>)
  {
    forall i :: AllHold(MergedAt(m, i), Only(choices, i), [])
  }

  lemma FinishHolds(d: Dict, finish: Value, choices: seq<Choice>)
    requires AllHold(d, choices, [])
    ensures AllHold(WithFinish(d, finish), choices, [])
  {
    forall k | StringMergeKey(k)
      ensures Get(WithFinish(d, finish), k) == Get(d, k)
    {
      if finish != Null {
        GetSet(d, "finish_reason", finish, k);
      }
    }
  }

  lemma EntryRaisesIff(m: map<int, Dict>, front: seq<Choice>, c: Choice)
    requires TidyEntries(front) && EntriesHold(m, front)
    ensures CaptureChoice(m, c).ok <==> TidyEntries(front + [c])
    ensures CaptureChoice(m, c).ok ==> EntriesHold(CaptureChoice(m, c).merged, front + [c])
  {
    hide TidyChoice, AllHold;
    var own := Only(front, c.index);
    assert (front + [c])[..|front|] == front;
    assert forall i :: Only(front + [c], i) == if i == c.index then own + [c] else Only(front, i);
    TidyChoiceSnoc(own, c);
    assert TidyChoice(own) && AllHold(MergedAt(m, c.index), own, []);
    OwnRaisesIff(MergedAt(m, c.index), own, c);
    var d := MergeDelta(MergedAt(m, c.index), c.delta).fields;
    if CaptureChoice(m, c).ok {
      var m' := CaptureChoice(m, c).merged;
      assert m' == m[c.index := WithFinish(d, c.finishReason)];
      forall i
        ensures AllHold(MergedAt(m', i), Only(front + [c], i), [])
      {
        if i != c.index {
          assert MergedAt(m', i) == MergedAt(m, i);
        }
      }
    } else {
      assert !TidyChoice(Only(front + [c], c.index));
    }
  }

  lemma OwnRaisesIff(m: Dict, own: seq<Choice>, c: Choice)
    requires TidyChoice(own) && AllHold(m, own, [])
    ensures MergeDelta(m, c.delta).ok <==> TidyChoice(own + [c])
    ensures MergeDelta(m, c.delta).ok ==>
      AllHold(WithFinish(MergeDelta(m, c.delta).fields, c.finishReason), own + [c], [])
  {
    hide AllHold, AllTidy;
    TidyChoiceSnoc(own, c);
    DeltaRaisesIff(m, own, c.delta);
    if MergeDelta(m, c.delta).ok {
      FinishHolds(MergeDelta(m, c.delta).fields, c.finishReason, own + [c]);
    }
  }

  lemma {:induction false} EntriesRaiseIff(choices: seq<Choice>)
    ensures CaptureChoices(map[], choices).ok <==> TidyEntries(choices)
    ensures CaptureChoices(map[], choices).ok ==> EntriesHold(CaptureChoices(map[], choices).merged, choices)
  {
    if choices != [] {
      var front, c := choices[..|choices| - 1], choices[|choices| - 1];
      assert choices == front + [c];
      EntriesRaiseIff(front);
      if CaptureChoices(map[], front).ok {
        EntryRaisesIff(CaptureChoices(map[], front).merged, front, c);
      } else {
        var i :| !TidyChoice(Only(front, i));
        LongerUntidyChoice(Only(front, i), c);
        assert !TidyChoice(Only(choices, i));
      }
    }
  }

  lemma {:induction false} RunOkIff(chunks: seq<Chunk>)
    ensures Run(EMPTY, chunks).ok <==> CaptureChoices(map[], AllChoices(chunks)).ok
  {
    if chunks != [] {
      var front, last := chunks[..|chunks| - 1], chunks[|chunks| - 1];
      RunOkIff(front);
      CaptureAppend(map[], AllChoices(front), last.choices);
      if Run(EMPTY, front).ok {
        RunIsCapture(EMPTY, front);
      }
    }
  }

  /** In no string field of any choice does a string come directly after a value that is not one, nulls aside. */
  ghost predicate TidyStream(chunks: seq<Chunk>)
  {
    TidyEntries(AllChoices(chunks))
  }

  /** These are exactly the streams that do not raise. */
  lemma RaisesIff(chunks: seq<Chunk>)
    ensures Run(EMPTY, chunks).ok <==> TidyStream(chunks)
  {
    RunOkIff(chunks);
    EntriesRaiseIff(AllChoices(chunks));
  }

  // ----- what the response shows

  /** Two states that hold different values in some visible field. */
  ghost predicate FieldDiffers(a: Snapshot, b: Snapshot, index: int, k: string)
  {
    && k != "finish_reason" && index in a.merged && index in b.merged
    && Get(a.merged[index], k).Some? && Get(b.merged[index], k).Some?
    && Get(a.merged[index], k) != Get(b.merged[index], k)
  }

  lemma {:induction false} WithoutGet(d: Dict, key: string, k: string)
    requires k != key
    ensures Get(Without(d, key), k) == Get(d, k)
  {
    if d != [] {
      WithoutGet(d[1..], key, k);
      var rest := Without(d[1..], key);
      if d[0].key == key {
        assert Without(d, key) == rest;
      } else {
        assert Without(d, key) == [d[0]] + rest && ([d[0]] + rest)[1..] == rest;
      }
    }
  }

  /** A finished message shows every field but the finish reason as it was merged. */
  lemma FinishedShows(index: int, d: Dict, k: string)
    requires k != "finish_reason" && Get(d, k).Some?
    ensures Get(Finished(index, d).message, k) == Get(d, k)
  {
    var message := Without(d, "finish_reason");
    WithoutGet(d, "finish_reason", k);
    WithoutGet(d, "finish_reason", "role");
    if !Has(message, "role") {
      assert Get(message, "role").None?;
      GetSet(message, "role", Str("assistant"), k);
    }
  }

  /** A choice of the response shows the fields merged for it. */
  lemma ResponseShows(a: Snapshot, b: Snapshot, index: int, k: string)
    requires Assembled(a) == Assembled(b) && index in a.merged && index in b.merged
    requires k != "finish_reason" && Get(a.merged[index], k).Some? && Get(b.merged[index], k).Some?
    ensures Get(a.merged[index], k) == Get(b.merged[index], k)
  {
    hide Finished, Ascending, Get;
    AscendingExact(a.merged.Keys);
    AscendingExact(b.merged.Keys);
    AscendingIn(a.merged.Keys);
    AscendingIn(b.merged.Keys);
    var j :| 0 <= j < |Ascending(a.merged.Keys)| && Ascending(a.merged.Keys)[j] == index;
    assert index in Ascending(b.merged.Keys);
    FinishedShows(index, a.merged[index], k);
    FinishedShows(index, b.merged[index], k);
    var ca, cb := FinishAll(a.merged, Ascending(a.merged.Keys)), FinishAll(b.merged, Ascending(b.merged.Keys));
    assert ca == cb;
    assert ca[j] == Finished(index, a.merged[index]);
    assert cb[j] == Finished(index, b.merged[index]);
  }

  /** Different fields show in the response. */
  lemma ResponseDiffers(a: Snapshot, b: Snapshot, index: int, k: string)
    requires FieldDiffers(a, b, index, k)
    ensures Assembled(a) != Assembled(b)
  {
    if Assembled(a) == Assembled(b) {
      ResponseShows(a, b, index, k);
    }
  }
}
