/** The capture of a stream, step by step: fields, deltas, chunks, and what a difference in one field turns into. */
module StreamFragments {
  import opened Json
  import opened StreamMerge
  import opened StreamSplit

  // ----- one field of a delta

  /** What a delta field writes, or `None` when appending to something that is not a string raises. */
  ghost function FieldValue(prior: Option<Value>, k: string, v: Value): Option<Value>
  {
    match v
    case Str(s) =>
      if StringMergeKey(k) then
        (match prior
         case None => Some(v)
         case Some(Str(e)) => Some(Str(e + s))
         case Some(_) => None)
      else Some(v)
    case Arr(items) => (match prior case Some(Arr(e)) => Some(Arr(MergeItems(e, items))) case _ => Some(v))
    case _ => Some(v)
  }

  lemma MergeFieldIsSet(m: Dict, k: string, v: Value)
    requires v != Null
    ensures MergeField(m, k, v) ==
      match FieldValue(Get(m, k), k, v) { case Some(r) => Merged(Set(m, k, r), true) case None => Merged(m, false) }
  {
  }

  lemma MergeFieldGet(m: Dict, k: string, v: Value, q: string)
    requires q != k
    ensures Get(MergeField(m, k, v).fields, q) == Get(m, q)
  {
    if v != Null {
      MergeFieldIsSet(m, k, v);
      match FieldValue(Get(m, k), k, v) {
        case Some(r) => GetSet(m, k, r, q);
        case None =>
      }
    }
  }

  // ----- a whole delta

  lemma {:induction false} MergeDeltaAppend(m: Dict, a: Dict, b: Dict)
    ensures var first := MergeDelta(m, a);
      MergeDelta(m, a + b) == if first.ok then MergeDelta(first.fields, b) else first
  {
    if b == [] {
      assert a + b == a;
    } else {
      assert (a + b)[..|a + b| - 1] == a + b[..|b| - 1];
      MergeDeltaAppend(m, a, b[..|b| - 1]);
    }
  }

  lemma MergeDeltaOne(m: Dict, f: Field)
    ensures MergeDelta(m, [f]) == MergeField(m, f.key, f.value)
  {
    assert [f][..0] == [];
  }

  lemma {:induction false} DeltaUntouched(m: Dict, d: Dict, k: string)
    requires Lacks(d, k)
    ensures Get(MergeDelta(m, d).fields, k) == Get(m, k)
  {
    if d != [] {
      DeltaUntouched(m, d[..|d| - 1], k);
      MergeFieldGet(MergeDelta(m, d[..|d| - 1]).fields, d[|d| - 1].key, d[|d| - 1].value, k);
    }
  }

  /** Folding a delta around one key. */
  lemma DeltaAround(m: Dict, a: Dict, k: string, v: Value, b: Dict)
    requires Lacks(a, k) && Lacks(b, k) && v != Null
    ensures Get(MergeDelta(m, a).fields, k) == Get(m, k)
    ensures MergeDelta(m, a + ([Field(k, v)] + b)) ==
      if !MergeDelta(m, a).ok then MergeDelta(m, a)
      else match FieldValue(Get(m, k), k, v) {
        case Some(r) => MergeDelta(Set(MergeDelta(m, a).fields, k, r), b)
        case None => Merged(MergeDelta(m, a).fields, false)
      }
  {
    DeltaUntouched(m, a, k);
    MergeDeltaAppend(m, a, [Field(k, v)] + b);
    if MergeDelta(m, a).ok {
      MergeDeltaAppend(MergeDelta(m, a).fields, [Field(k, v)], b);
      MergeDeltaOne(MergeDelta(m, a).fields, Field(k, v));
      MergeFieldIsSet(MergeDelta(m, a).fields, k, v);
    }
  }

  ghost function WithFinish(d: Dict, finish: Value): Dict
  {
    if finish == Null then d else Set(d, "finish_reason", finish)
  }

  /** The dicts differ in the value of one key at most, and hold a string there both or neither. */
  ghost predicate Twin(a: Dict, b: Dict, k: string)
  {
    && Get(a, k).Some? && Get(b, k).Some? && a == Set(b, k, Get(a, k).value)
    && (Get(a, k).value.Str? <==> Get(b, k).value.Str?)
  }

  lemma TwinSets(d: Dict, k: string, v: Value, w: Value)
    requires v.Str? <==> w.Str?
    ensures Twin(Set(d, k, v), Set(d, k, w), k)
  {
    GetSet(d, k, v, k);
    GetSet(d, k, w, k);
    SetSet(d, k, w, v);
  }

  lemma TwinSetOther(a: Dict, b: Dict, k: string, q: string, v: Value)
    requires Twin(a, b, k) && q != k
    ensures Twin(Set(a, q, v), Set(b, q, v), k)
  {
    GetSet(a, q, v, k);
    GetSet(b, q, v, k);
    SetCommutes(b, k, Get(a, k).value, q, v);
  }

  lemma TwinOtherGet(a: Dict, b: Dict, k: string, q: string)
    requires Twin(a, b, k) && q != k
    ensures Get(a, q) == Get(b, q)
  {
    GetSet(b, k, Get(a, k).value, q);
  }

  lemma FieldTwin(a: Dict, b: Dict, k: string, f: Field)
    requires Twin(a, b, k)
    ensures MergeField(a, f.key, f.value).ok == MergeField(b, f.key, f.value).ok
    ensures Twin(MergeField(a, f.key, f.value).fields, MergeField(b, f.key, f.value).fields, k)
  {
    if f.value != Null {
      MergeFieldIsSet(a, f.key, f.value);
      MergeFieldIsSet(b, f.key, f.value);
      var ra, rb := FieldValue(Get(a, f.key), f.key, f.value), FieldValue(Get(b, f.key), f.key, f.value);
      if f.key == k {
        SameKind(Get(a, k).value, Get(b, k).value, k, f.value);
        if ra.Some? {
          SetSet(b, k, Get(a, k).value, ra.value);
          TwinSets(b, k, ra.value, rb.value);
        }
      } else {
        TwinOtherGet(a, b, k, f.key);
        if ra.Some? {
          TwinSetOther(a, b, k, f.key, ra.value);
        }
      }
    }
  }

  lemma SameKind(v: Value, w: Value, k: string, u: Value)
    requires v.Str? <==> w.Str?
    ensures FieldValue(Some(v), k, u).Some? <==> FieldValue(Some(w), k, u).Some?
    ensures FieldValue(Some(v), k, u).Some? ==>
      (FieldValue(Some(v), k, u).value.Str? <==> FieldValue(Some(w), k, u).value.Str?)
  {
  }

  /** Whatever a delta does, it does to both. */
  lemma {:induction false} DeltaTwin(a: Dict, b: Dict, k: string, d: Dict)
    requires Twin(a, b, k)
    ensures MergeDelta(a, d).ok == MergeDelta(b, d).ok
    ensures Twin(MergeDelta(a, d).fields, MergeDelta(b, d).fields, k)
  {
    hide Twin, MergeField;
    if d != [] {
      DeltaTwin(a, b, k, d[..|d| - 1]);
      FieldTwin(MergeDelta(a, d[..|d| - 1]).fields, MergeDelta(b, d[..|d| - 1]).fields, k, d[|d| - 1]);
    }
  }

  // ----- chunks

  lemma {:induction false} CaptureAppend(m: map<int, Dict>, a: seq<Choice>, b: seq<Choice>)
    ensures var first := CaptureChoices(m, a);
      CaptureChoices(m, a + b) == if first.ok then CaptureChoices(first.merged, b) else first
  {
    if b == [] {
      assert a + b == a;
    } else {
      assert (a + b)[..|a + b| - 1] == a + b[..|b| - 1];
      CaptureAppend(m, a, b[..|b| - 1]);
    }
  }

  lemma CaptureOne(m: map<int, Dict>, c: Choice)
    ensures CaptureChoices(m, [c]) == CaptureChoice(m, c)
  {
    assert [c][..0] == [];
  }

  lemma SwapUpdates<K, V>(m: map<K, V>, i: K, v: V, j: K, w: V)
    requires i != j
    ensures m[i := v][j := w] == m[j := w][i := v]
  {
  }

  /** The merged choices differ in one field of one choice at most. */
  ghost predicate TwinChoices(a: map<int, Dict>, b: map<int, Dict>, index: int, k: string)
  {
    index in a && index in b && a == b[index := a[index]] && Twin(a[index], b[index], k)
  }

  lemma FinishShows(d: Dict, finish: Value, k: string)
    requires k != "finish_reason"
    ensures Get(WithFinish(d, finish), k) == Get(d, k)
  {
    if finish != Null {
      GetSet(d, "finish_reason", finish, k);
    }
  }

  lemma FinishTwin(a: Dict, b: Dict, k: string, finish: Value)
    requires Twin(a, b, k) && k != "finish_reason"
    ensures Twin(WithFinish(a, finish), WithFinish(b, finish), k)
  {
    if finish != Null {
      TwinSetOther(a, b, k, "finish_reason", finish);
    }
  }

  lemma ChoiceTwins(a: map<int, Dict>, b: map<int, Dict>, index: int, k: string, c: Choice)
    requires TwinChoices(a, b, index, k) && k != "finish_reason"
    ensures CaptureChoice(a, c).ok == CaptureChoice(b, c).ok
    ensures TwinChoices(CaptureChoice(a, c).merged, CaptureChoice(b, c).merged, index, k)
  {
    hide Twin;
    if c.index == index {
      DeltaTwin(a[index], b[index], k, c.delta);
      var da, db := MergeDelta(a[index], c.delta), MergeDelta(b[index], c.delta);
      FinishTwin(da.fields, db.fields, k, c.finishReason);
      var va, vb := CaptureChoice(a, c).merged[index], CaptureChoice(b, c).merged[index];
      assert CaptureChoice(a, c).merged == b[index := va] == b[index := vb][index := va];
    } else {
      assert MergedAt(a, c.index) == MergedAt(b, c.index);
      SwapUpdates(b, index, a[index], c.index, CaptureChoice(b, c).merged[c.index]);
    }
  }

  lemma {:induction false} ChoicesTwins(a: map<int, Dict>, b: map<int, Dict>, index: int, k: string, q: seq<Choice>)
    requires TwinChoices(a, b, index, k) && k != "finish_reason"
    ensures CaptureChoices(a, q).ok == CaptureChoices(b, q).ok
    ensures TwinChoices(CaptureChoices(a, q).merged, CaptureChoices(b, q).merged, index, k)
  {
    hide TwinChoices, CaptureChoice;
    if q != [] {
      ChoicesTwins(a, b, index, k, q[..|q| - 1]);
      if CaptureChoices(a, q[..|q| - 1]).ok {
        ChoiceTwins(CaptureChoices(a, q[..|q| - 1]).merged, CaptureChoices(b, q[..|q| - 1]).merged, index, k,
                    q[|q| - 1]);
      }
    }
  }

  lemma CaptureAround(m: map<int, Dict>, p: seq<Choice>, c: Choice, q: seq<Choice>)
    requires CaptureChoices(m, p).ok
    ensures var after := CaptureChoice(CaptureChoices(m, p).merged, c);
      CaptureChoices(m, p + ([c] + q)) == if after.ok then CaptureChoices(after.merged, q) else after
  {
    CaptureAppend(m, p, [c] + q);
    CaptureAppend(CaptureChoices(m, p).merged, [c], q);
    CaptureOne(CaptureChoices(m, p).merged, c);
  }

  lemma CaptureStops(m: map<int, Dict>, p: seq<Choice>, q: seq<Choice>)
    requires CaptureChoices(m, p + q).ok
    ensures CaptureChoices(m, p).ok
  {
    CaptureAppend(m, p, q);
  }

  // ----- streams

  lemma {:induction false} RunAppend(s: Snapshot, a: seq<Chunk>, b: seq<Chunk>)
    ensures Run(s, a + b) == Run(Run(s, a), b)
  {
    if b == [] {
      assert a + b == a;
    } else {
      assert (a + b)[..|a + b| - 1] == a + b[..|b| - 1];
      RunAppend(s, a, b[..|b| - 1]);
    }
  }

  ghost predicate SameButCount(a: Snapshot, b: Snapshot)
  {
    a.recorded > 0 && b.recorded > 0 && a == b.(recorded := a.recorded)
  }

  lemma {:induction false} SameRuns(a: Snapshot, b: Snapshot, chunks: seq<Chunk>)
    requires SameButCount(a, b)
    ensures SameButCount(Run(a, chunks), Run(b, chunks))
  {
    if chunks != [] {
      SameRuns(a, b, chunks[..|chunks| - 1]);
    }
  }

  lemma RaisedStays(s: Snapshot, chunk: Chunk)
    requires !s.ok
    ensures Capture(s, chunk) == s
  {
  }

  lemma RunSteps(before: seq<Chunk>, whole: Chunk, head: Chunk, tail: Chunk, after: seq<Chunk>)
    ensures var s := Run(EMPTY, before);
      && Run(EMPTY, before + [whole] + after) == Run(Capture(s, whole), after)
      && Run(EMPTY, before + [head, tail] + after) == Run(Capture(Capture(s, head), tail), after)
      && Run(EMPTY, before + [whole]) == Capture(s, whole)
  {
    var s := Run(EMPTY, before);
    RunAppend(EMPTY, before, [whole]);
    RunAppend(EMPTY, before, [head, tail]);
    RunAppend(EMPTY, before + [whole], after);
    RunAppend(EMPTY, before + [head, tail], after);
    assert [whole][..0] == [] && [head, tail][..1] == [head] && [head][..0] == [];
    assert Run(s, [whole]) == Capture(s, whole) && Run(s, [head, tail]) == Capture(Capture(s, head), tail);
  }

  lemma {:induction false} RunAfterRaise(s: Snapshot, chunks: seq<Chunk>)
    requires !s.ok
    ensures Run(s, chunks) == s
  {
    if chunks != [] {
      RunAfterRaise(s, chunks[..|chunks| - 1]);
    }
  }

  // ----- which streams never raise

  /** Every string field carries a string, or null. */
  ghost predicate StringsOnly(chunks: seq<Chunk>)
  {
    forall n, i | 0 <= n < |chunks| && 0 <= i < |chunks[n].choices| :: StringDelta(chunks[n].choices[i].delta)
  }

  ghost predicate StringDelta(delta: Dict)
  {
    forall j | 0 <= j < |delta| && delta[j].key in {"content", "reasoning_content", "reasoning", "refusal"} ::
      delta[j].value.Str? || delta[j].value == Null
  }

  /** Whatever has been merged into the string fields is a string. */
  ghost predicate StringFields(d: Dict)
  {
    forall k | StringMergeKey(k) :: Get(d, k).None? || Get(d, k).value.Str?
  }

  lemma {:induction false} StringDeltaMerges(m: Dict, delta: Dict)
    requires StringFields(m) && StringDelta(delta)
    ensures MergeDelta(m, delta).ok && StringFields(MergeDelta(m, delta).fields)
  {
    if delta != [] {
      var front, f := delta[..|delta| - 1], delta[|delta| - 1];
      StringDeltaMerges(m, front);
      var r := MergeDelta(m, front).fields;
      if f.value != Null {
        MergeFieldIsSet(r, f.key, f.value);
        var v := FieldValue(Get(r, f.key), f.key, f.value).value;
        forall k | StringMergeKey(k) ensures Get(Set(r, f.key, v), k).None? || Get(Set(r, f.key, v), k).value.Str? {
          GetSet(r, f.key, v, k);
        }
      }
    }
  }

  ghost predicate AllStringFields(m: map<int, Dict>)
  {
    forall i | i in m :: StringFields(m[i])
  }

  lemma StringChoice(m: map<int, Dict>, c: Choice)
    requires AllStringFields(m) && StringDelta(c.delta)
    ensures CaptureChoice(m, c).ok && AllStringFields(CaptureChoice(m, c).merged)
  {
    StringDeltaMerges(MergedAt(m, c.index), c.delta);
    var d := MergeDelta(MergedAt(m, c.index), c.delta).fields;
    forall k | StringMergeKey(k) ensures Get(WithFinish(d, c.finishReason), k) == Get(d, k) {
      if c.finishReason != Null { GetSet(d, "finish_reason", c.finishReason, k); }
    }
    assert StringFields(WithFinish(d, c.finishReason));
    assert CaptureChoice(m, c).merged == m[c.index := WithFinish(d, c.finishReason)];
  }

  lemma {:induction false} StringChoices(m: map<int, Dict>, choices: seq<Choice>)
    requires AllStringFields(m) && forall i | 0 <= i < |choices| :: StringDelta(choices[i].delta)
    ensures CaptureChoices(m, choices).ok && AllStringFields(CaptureChoices(m, choices).merged)
  {
    if choices != [] {
      StringChoices(m, choices[..|choices| - 1]);
      StringChoice(CaptureChoices(m, choices[..|choices| - 1]).merged, choices[|choices| - 1]);
    }
  }

  lemma {:induction false} NeverRaises(chunks: seq<Chunk>)
    requires StringsOnly(chunks)
    ensures Run(EMPTY, chunks).ok && AllStringFields(Run(EMPTY, chunks).merged)
  {
    if chunks != [] {
      var last := chunks[|chunks| - 1];
      NeverRaises(chunks[..|chunks| - 1]);
      forall i | 0 <= i < |last.choices| ensures StringDelta(last.choices[i].delta) {
        assert StringDelta(chunks[|chunks| - 1].choices[i].delta);
      }
      StringChoices(Run(EMPTY, chunks[..|chunks| - 1]).merged, last.choices);
    }
  }
}
