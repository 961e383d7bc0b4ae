/** Reassembly of a streamed response: how deltas are folded into one message per choice. */
module StreamMerge {
  import opened Json

  /** One entry of a chunk's `choices`. A missing or null finish reason is `Null`. */
  datatype Choice = Choice(index: int, delta: Dict, finishReason: Value)

  /** A parsed chunk: its choices, its usage (`Null` when missing) and all other fields. */
  datatype Chunk = Chunk(fields: Dict, choices: seq<Choice>, usage: Value)

  predicate StringMergeKey(key: string)
  {
    key == "content" || key == "reasoning_content" || key == "reasoning" || key == "refusal"
  }

  predicate ItemConcatKey(key: string)
  {
    key == "arguments" || key == "summary" || key == "text"
  }

  // ----- deep merge of one list item into another

  /** What a target field becomes when a source field of the same name arrives. */
  function DeepField(target: Dict, key: string, value: Value): Dict
    decreases value, 1
  {
    match value
    case Null => target
    case Obj(fields) =>
      (match Get(target, key)
       case Some(Obj(existing)) => Set(target, key, Obj(DeepMerge(existing, fields)))
       case _ => Set(target, key, value))
    case Str(s) =>
      (match Get(target, key)
       case Some(Str(existing)) => Set(target, key, Str(if ItemConcatKey(key) then existing + s else s))
       case _ => Set(target, key, value))
    case _ => Set(target, key, value)
  }

  /** The source's fields folded into the target, in order. */
  function DeepMerge(target: Dict, source: Dict): Dict
    decreases source, 0
  {
    if source == [] then target
    else
      var front, f := source[..|source| - 1], source[|source| - 1];
      assert f.value < f;
      DeepField(DeepMerge(target, front), f.key, f.value)
  }

  // ----- list fields

  /** The index an item is merged by; items without one are appended. */
  function ItemIndex(item: Value): Value
  {
    if item.Obj? then (match Get(item.fields, "index") case Some(v) => v case None => Null) else Null
  }

  /** Position of the first entry with the given index, or the length when there is none. */
  function Find(entries: seq<Value>, index: Value): (n: nat)
    ensures n <= |entries|
    ensures n < |entries| ==> entries[n].Obj? && ItemIndex(entries[n]) == index
    ensures index != Null ==> forall i | 0 <= i < n :: ItemIndex(entries[i]) != index
  {
    if entries == [] then 0
    else if entries[0].Obj? && ItemIndex(entries[0]) == index then 0
    else 1 + Find(entries[1..], index)
  }

  function MergeItem(entries: seq<Value>, item: Value): seq<Value>
  {
    var index := ItemIndex(item);
    if index == Null then entries + [item]
    else
      var n := Find(entries, index);
      if n == |entries| then entries + [item]
      else entries[n := Obj(DeepMerge(entries[n].fields, item.fields))]
  }

  function MergeItems(entries: seq<Value>, items: seq<Value>): seq<Value>
  {
    if items == [] then entries
    else MergeItem(MergeItems(entries, items[..|items| - 1]), items[|items| - 1])
  }

  // ----- one delta

  /** A dict after some steps, and whether a step raised. After a raise nothing more happens. */
  datatype Merged = Merged(fields: Dict, ok: bool)

  function MergeField(merged: Dict, key: string, value: Value): Merged
  {
    match value
    case Null => Merged(merged, true)
    case Str(s) =>
      if StringMergeKey(key) then
        (match Get(merged, key)
         case None => Merged(Set(merged, key, value), true)
         case Some(Str(existing)) => Merged(Set(merged, key, Str(existing + s)), true)
         case Some(_) => Merged(merged, false))
      else Merged(Set(merged, key, value), true)
    case Arr(items) =>
      (match Get(merged, key)
       case Some(Arr(entries)) => Merged(Set(merged, key, Arr(MergeItems(entries, items))), true)
       case _ => Merged(Set(merged, key, value), true))
    case _ => Merged(Set(merged, key, value), true)
  }

  function MergeDelta(merged: Dict, delta: Dict): Merged
  {
    if delta == [] then Merged(merged, true)
    else
      var before := MergeDelta(merged, delta[..|delta| - 1]);
      if before.ok then MergeField(before.fields, delta[|delta| - 1].key, delta[|delta| - 1].value) else before
  }

  // ----- one chunk

  /** The merged choices so far, and whether a step raised. */
  datatype Choices = Choices(merged: map<int, Dict>, ok: bool)

  function MergedAt(merged: map<int, Dict>, index: int): Dict
  {
    if index in merged then merged[index] else []
  }

  function CaptureChoice(merged: map<int, Dict>, choice: Choice): Choices
  {
    var after := MergeDelta(MergedAt(merged, choice.index), choice.delta);
    Choices(
      merged[choice.index :=
        if after.ok && choice.finishReason != Null then Set(after.fields, "finish_reason", choice.finishReason)
        else after.fields],
      after.ok)
  }

  function CaptureChoices(merged: map<int, Dict>, choices: seq<Choice>): Choices
  {
    if choices == [] then Choices(merged, true)
    else
      var before := CaptureChoices(merged, choices[..|choices| - 1]);
      if before.ok then CaptureChoice(before.merged, choices[|choices| - 1]) else before
  }

  /** Top-level fields other than `choices` and `usage`: the last non-null value wins. */
  function MergeExtra(extra: Dict, fields: Dict): Dict
  {
    if fields == [] then extra
    else
      var before, f := MergeExtra(extra, fields[..|fields| - 1]), fields[|fields| - 1];
      if f.value == Null then before else Set(before, f.key, f.value)
  }

  /** What the stream state holds. Of the recorded chunks only their number is kept. */
  datatype Snapshot = Snapshot(recorded: nat, merged: map<int, Dict>, usage: Value, extra: Dict, ok: bool)

  const EMPTY := Snapshot(0, map[], Obj([]), [], true)

  /** One captured chunk; a raise inside ends the stream, so later chunks change nothing. */
  function Capture(s: Snapshot, chunk: Chunk): Snapshot
  {
    if !s.ok then s
    else
      var choices := CaptureChoices(s.merged, chunk.choices);
      Snapshot(s.recorded + 1, choices.merged, if choices.ok && chunk.usage.Obj? then chunk.usage else s.usage,
               MergeExtra(s.extra, chunk.fields), choices.ok)
  }

  function Run(s: Snapshot, chunks: seq<Chunk>): Snapshot
  {
    if chunks == [] then s else Capture(Run(s, chunks[..|chunks| - 1]), chunks[|chunks| - 1])
  }

  // ----- the assembled response

  datatype ResponseChoice = ResponseChoice(index: int, message: Dict, finishReason: Option<Value>)

  datatype Response = Response(extra: Dict, choices: seq<ResponseChoice>, usage: Value)

  function Without(d: Dict, key: string): Dict
  {
    if d == [] then [] else (if d[0].key == key then [] else [d[0]]) + Without(d[1..], key)
  }

  function Finished(index: int, merged: Dict): ResponseChoice
  {
    var message := Without(merged, "finish_reason");
    ResponseChoice(index, if Has(message, "role") then message else Set(message, "role", Str("assistant")),
                   Get(merged, "finish_reason"))
  }

  lemma Member<T>(s: set<T>) returns (x: T)
    requires s != {}
    ensures x in s
  {
    x :| x in s;
  }

  lemma {:induction false} Least(s: set<int>)
    requires s != {}
    ensures exists x | x in s :: forall y | y in s :: x <= y
  {
    var z := Member(s);
    if s != {z} {
      assert s == (s - {z}) + {z};
      Least(s - {z});
      var x :| x in s - {z} && forall y | y in s - {z} :: x <= y;
      var least := if z <= x then z else x;
      forall y | y in s ensures least <= y { assert y == z || y in s - {z}; }
      assert least in s;
    }
  }

  /** `sorted` of a set of indices. */
  function Ascending(s: set<int>): seq<int>
  {
    if s == {} then []
    else
      Least(s);
      var x :| x in s && forall y | y in s :: x <= y;
      [x] + Ascending(s - {x})
  }

  function FinishAll(merged: map<int, Dict>, indices: seq<int>): (choices: seq<ResponseChoice>)
    requires forall i | 0 <= i < |indices| :: indices[i] in merged
    ensures |choices| == |indices| && forall i | 0 <= i < |choices| :: choices[i].index == indices[i]
  {
    seq(|indices|, i requires 0 <= i < |indices| => Finished(indices[i], merged[indices[i]]))
  }

  lemma {:induction false} AscendingIn(s: set<int>)
    ensures forall i | 0 <= i < |Ascending(s)| :: Ascending(s)[i] in s
  {
    if s != {} {
      var x := Ascending(s)[0];
      AscendingIn(s - {x});
    }
  }

  lemma AscendingFirst(s: set<int>) returns (x: int)
    requires s != {}
    ensures Ascending(s) == [x] + Ascending(s - {x}) && x in s && forall y | y in s :: x <= y
  {
    x := Ascending(s)[0];
  }

  /** The indices in strictly increasing order, each once and none missing. */
  lemma {:induction false} AscendingExact(s: set<int>)
    ensures forall x :: x in Ascending(s) <==> x in s
    ensures forall i, j | 0 <= i < j < |Ascending(s)| :: Ascending(s)[i] < Ascending(s)[j]
  {
    if s != {} {
      var x := AscendingFirst(s);
      hide Ascending;
      var rest := Ascending(s - {x});
      AscendingExact(s - {x});
      forall j | 0 <= j < |rest|
        ensures x < rest[j]
      {
        assert rest[j] in rest;
      }
    }
  }

  function Assembled(s: Snapshot): Option<Response>
  {
    if s.merged == map[] && s.recorded == 0 then None
    else
      AscendingIn(s.merged.Keys);
      var choices := FinishAll(s.merged, Ascending(s.merged.Keys));
      Some(Response(s.extra,
                    if choices == [] then
                      [ResponseChoice(0, [Field("role", Str("assistant")), Field("content", Str(""))], None)]
                    else choices,
                    s.usage))
  }
}
