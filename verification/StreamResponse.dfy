/** What the assembled response holds, field by field, in terms of what the stream carried. */
module StreamResponse {
  import opened Json
  import opened StreamMerge
  import opened StreamSplit
  import opened StreamTexts
  import opened StreamFragments
  import opened StreamProjection
  import opened StreamRaises

  // ----- the fields of a message

  /** Any field but a text field and a list holds the last value it was given that is not null. */
  lemma LastValueWins(chunks: seq<Chunk>, choice: int, k: string)
    requires Run(EMPTY, chunks).ok && k != "finish_reason"
    requires var values := AllValues(Only(AllChoices(chunks), choice), k);
      && values != [] && !values[|values| - 1].Arr?
      && (values[|values| - 1].Str? ==> k !in {"content", "reasoning_content", "reasoning", "refusal"})
    ensures var values := AllValues(Only(AllChoices(chunks), choice), k);
      Get(MergedAt(Run(EMPTY, chunks).merged, choice), k) == Some(values[|values| - 1])
  {
    hide AllValues, Only, AllChoices, CaptureChoices, Run;
    RunIsCapture(EMPTY, chunks);
    ChoiceProjection(chunks, choice);
    OwnEntriesDoNotRaise(AllChoices(chunks), choice);
    FieldProjection(Only(AllChoices(chunks), choice), k);
  }

  /** A list that comes after something else, or first, replaces it. */
  lemma FirstListIsStored(chunks: seq<Chunk>, choice: int, k: string)
    requires Run(EMPTY, chunks).ok && k != "finish_reason"
    requires var values := AllValues(Only(AllChoices(chunks), choice), k);
      && values != [] && values[|values| - 1].Arr? && (|values| > 1 ==> !values[|values| - 2].Arr?)
    ensures var values := AllValues(Only(AllChoices(chunks), choice), k);
      Get(MergedAt(Run(EMPTY, chunks).merged, choice), k) == Some(values[|values| - 1])
  {
    hide AllValues, Only, AllChoices, CaptureChoices, Run;
    RunIsCapture(EMPTY, chunks);
    ChoiceProjection(chunks, choice);
    OwnEntriesDoNotRaise(AllChoices(chunks), choice);
    FieldProjection(Only(AllChoices(chunks), choice), k);
  }

  /** What merging an item does to one key of an entry. */
  lemma ItemFieldTells(t: Dict, s: Dict, k: string)
    requires DistinctKeys(s)
    ensures Get(DeepMerge(t, s), k) ==
      match Get(s, k) {
        case None => Get(t, k)
        case Some(Null) => Get(t, k)
        case Some(Str(x)) =>
          (match Get(t, k)
           case Some(Str(e)) => Some(Str(if k in {"arguments", "summary", "text"} then e + x else x))
           case _ => Some(Str(x)))
        case Some(Obj(fields)) =>
          (match Get(t, k)
           case Some(Obj(e)) => Some(Obj(DeepMerge(e, fields)))
           case _ => Some(Obj(fields)))
        case Some(v) => Some(v)
      }
  {
    DeepMergeGet(t, s, k);
  }

  // ----- the fields beside the choices

  ghost function AllFields(chunks: seq<Chunk>): Dict
  {
    if chunks == [] then [] else AllFields(chunks[..|chunks| - 1]) + chunks[|chunks| - 1].fields
  }

  /** The last value of a key that is not null. */
  ghost function LastOf(d: Dict, k: string): Option<Value>
  {
    if d == [] then None
    else
      var f := d[|d| - 1];
      if f.key == k && f.value != Null then Some(f.value) else LastOf(d[..|d| - 1], k)
  }

  lemma {:induction false} LastOfAppend(a: Dict, b: Dict, k: string)
    ensures LastOf(a + b, k) == if LastOf(b, k).Some? then LastOf(b, k) else LastOf(a, k)
    decreases |b|
  {
    if b == [] {
      assert a + b == a;
    } else {
      assert (a + b)[..|a + b| - 1] == a + b[..|b| - 1];
      LastOfAppend(a, b[..|b| - 1], k);
    }
  }

  lemma {:induction false} ExtraGet(extra: Dict, fields: Dict, k: string)
    ensures Get(MergeExtra(extra, fields), k) == if LastOf(fields, k).Some? then LastOf(fields, k) else Get(extra, k)
  {
    if fields != [] {
      var f := fields[|fields| - 1];
      ExtraGet(extra, fields[..|fields| - 1], k);
      GetSet(MergeExtra(extra, fields[..|fields| - 1]), f.key, f.value, k);
    }
  }

  /** The usage of the last chunk that has one. */
  ghost function LastUsage(chunks: seq<Chunk>): Value
  {
    if chunks == [] then Obj([])
    else if chunks[|chunks| - 1].usage.Obj? then chunks[|chunks| - 1].usage
    else LastUsage(chunks[..|chunks| - 1])
  }

  lemma {:induction false} StateTells(chunks: seq<Chunk>, k: string)
    requires Run(EMPTY, chunks).ok
    ensures Get(Run(EMPTY, chunks).extra, k) == LastOf(AllFields(chunks), k)
    ensures Run(EMPTY, chunks).usage == LastUsage(chunks)
  {
    if chunks != [] {
      var front, last := chunks[..|chunks| - 1], chunks[|chunks| - 1];
      StateTells(front, k);
      ExtraGet(Run(EMPTY, front).extra, last.fields, k);
      LastOfAppend(AllFields(front), last.fields, k);
    }
  }

  /** Beside its choices the response holds the last value of every other top-level field, and the last usage; there is
      none exactly when no chunk was captured. */
  lemma ResponseTells(chunks: seq<Chunk>, k: string)
    requires Run(EMPTY, chunks).ok
    ensures Assembled(Run(EMPTY, chunks)).None? <==> chunks == []
    ensures chunks != [] ==>
      && Get(Assembled(Run(EMPTY, chunks)).value.extra, k) == LastOf(AllFields(chunks), k)
      && Assembled(Run(EMPTY, chunks)).value.usage == LastUsage(chunks)
  {
    hide Ascending, FinishAll;
    StateTells(chunks, k);
    Recorded(chunks);
  }

  /** A chunk that raises still leaves its fields, but not its usage. */
  lemma RaiseTells(s: Snapshot, chunk: Chunk)
    requires s.ok && !Capture(s, chunk).ok
    ensures Capture(s, chunk).usage == s.usage && Capture(s, chunk).extra == MergeExtra(s.extra, chunk.fields)
    ensures Capture(s, chunk).recorded == s.recorded + 1
  {
  }

  /** An entry that raises leaves what its delta wrote before, but no finish reason, and nothing behind it is
      captured. */
  lemma EntryRaiseTells(m: map<int, Dict>, front: seq<Choice>, c: Choice, rest: seq<Choice>)
    requires CaptureChoices(m, front).ok
    requires var m' := CaptureChoices(m, front).merged; !MergeDelta(MergedAt(m', c.index), c.delta).ok
    ensures var m' := CaptureChoices(m, front).merged;
      CaptureChoices(m, front + ([c] + rest)) ==
      Choices(m'[c.index := MergeDelta(MergedAt(m', c.index), c.delta).fields], false)
  {
    CaptureAround(m, front, c, rest);
  }

  /** An item that is no object, or has no index, is appended. */
  lemma PlainItemIsAppended(entries: seq<Value>, item: Value)
    requires item.Obj? ==> Get(item.fields, "index") == None || Get(item.fields, "index") == Some(Null)
    ensures MergeItem(entries, item) == entries + [item]
  {
    hide DeepMerge;
  }

  // ----- one choice of the response

  /** The last finish reason that is not null. */
  ghost function LastFinish(choices: seq<Choice>): Option<Value>
  {
    if choices == [] then None
    else if choices[|choices| - 1].finishReason != Null then Some(choices[|choices| - 1].finishReason)
    else LastFinish(choices[..|choices| - 1])
  }

  lemma {:induction false} FoldFinish(choices: seq<Choice>)
    requires forall i | 0 <= i < |choices| :: Lacks(choices[i].delta, "finish_reason")
    ensures Get(FoldChoice(choices), "finish_reason") == LastFinish(choices)
  {
    if choices != [] {
      var front, c := choices[..|choices| - 1], choices[|choices| - 1];
      FoldFinish(front);
      DeltaUntouched(FoldChoice(front), c.delta, "finish_reason");
      GetSet(MergeDelta(FoldChoice(front), c.delta).fields, "finish_reason", c.finishReason, "finish_reason");
    }
  }

  lemma {:induction false} WithoutHas(d: Dict, key: string)
    ensures Get(Without(d, key), key) == None
  {
    if d != [] {
      WithoutHas(d[1..], key);
      var rest := Without(d[1..], key);
      if d[0].key == key {
        assert Without(d, key) == rest;
      } else {
        assert Without(d, key) == [d[0]] + rest && ([d[0]] + rest)[1..] == rest;
      }
    }
  }

  /** A message has the fields merged for its choice but the finish reason, which stands beside it, and the role
      "assistant" when it was given none. */
  lemma FinishedTells(index: int, d: Dict, k: string)
    ensures Finished(index, d).index == index && Finished(index, d).finishReason == Get(d, "finish_reason")
    ensures Get(Finished(index, d).message, "finish_reason") == None
    ensures k != "finish_reason" ==>
      Get(Finished(index, d).message, k) ==
      if Get(d, k).None? && k == "role" then Some(Str("assistant")) else Get(d, k)
  {
    var message := Without(d, "finish_reason");
    WithoutHas(d, "finish_reason");
    if k != "finish_reason" { WithoutGet(d, "finish_reason", k); }
    WithoutGet(d, "finish_reason", "role");
    assert Has(message, "role") <==> Get(message, "role").Some?;
    hide Without, Get, Has;
    if Get(message, "role").None? {
      GetSet(message, "role", Str("assistant"), k);
      GetSet(message, "role", Str("assistant"), "finish_reason");
    }
  }

  /** One choice of the response. */
  lemma ChoiceTells(chunks: seq<Chunk>, n: nat, k: string)
    requires chunks != [] && Run(EMPTY, chunks).ok && AllChoices(chunks) != []
    requires n < |Assembled(Run(EMPTY, chunks)).value.choices| && k != "finish_reason"
    ensures var c := Assembled(Run(EMPTY, chunks)).value.choices[n];
      var own, merged := Only(AllChoices(chunks), c.index), MergedAt(Run(EMPTY, chunks).merged, c.index);
      && Get(c.message, "finish_reason") == None
      && Get(c.message, k) == (if Get(merged, k).None? && k == "role" then Some(Str("assistant")) else Get(merged, k))
      && ((forall i | 0 <= i < |own| :: Lacks(own[i].delta, "finish_reason")) ==> c.finishReason == LastFinish(own))
  {
    hide Run, Finished, FoldChoice, Only, AllChoices, Assembled;
    ResponseProjection(chunks);
    var c := Assembled(Run(EMPTY, chunks)).value.choices[n];
    ChoiceProjection(chunks, c.index);
    var own := Only(AllChoices(chunks), c.index);
    FinishedTells(c.index, FoldChoice(own), k);
    if forall i | 0 <= i < |own| :: Lacks(own[i].delta, "finish_reason") {
      FoldFinish(own);
    }
  }
}
