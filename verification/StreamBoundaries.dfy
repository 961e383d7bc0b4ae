/** When the assembled response depends on where the upstream cuts a text into fragments. */
module StreamBoundaries {
  import opened Json
  import opened JsonEquality
  import opened StreamMerge
  import opened StreamSplit
  import opened StreamTexts
  import opened StreamFragments
  import opened StreamProjection
  import opened StreamRaises
  import opened StreamCuts

  // ----- what comes before the cut

  /** The cut list is merged into one that is there: the last value of its field so far is a list. */
  ghost predicate ListSoFar(before: seq<Chunk>, whole: Chunk, i: nat, n: nat)
    requires i < |whole.choices| && n < |whole.choices[i].delta|
  {
    var c := whole.choices[i];
    var values := Written(AllChoices(before) + whole.choices[..i], c.index, c.delta[n].key);
    values != [] && values[|values| - 1].Arr?
  }

  lemma ListKind(k: string, values: seq<Value>)
    ensures var r := FoldValues(None, k, values);
      r.Some? && r.value.Arr? <==> values != [] && values[|values| - 1].Arr?
  {
  }

  lemma PriorIsList(before: seq<Chunk>, whole: Chunk, i: nat, n: nat)
    requires i < |whole.choices| && n < |whole.choices[i].delta| && whole.choices[i].delta[n].key != "finish_reason"
    requires Run(EMPTY, before).ok && CaptureChoices(Run(EMPTY, before).merged, whole.choices[..i]).ok
    ensures var prior := Prior(Run(EMPTY, before).merged, whole, i, n);
      prior.Some? && prior.value.Arr? <==> ListSoFar(before, whole, i, n)
  {
    hide Run, CaptureChoices, AllChoices, Written, FoldValues;
    var c, p := whole.choices[i], whole.choices[..i];
    RunIsCapture(EMPTY, before);
    CaptureAppend(map[], AllChoices(before), p);
    ChoicesField(map[], AllChoices(before) + p, c.index, c.delta[n].key);
    ListKind(c.delta[n].key, Written(AllChoices(before) + p, c.index, c.delta[n].key));
  }

  lemma {:induction false} ValuesAppend(a: Dict, b: Dict, k: string)
    ensures ValuesOf(a + b, k) == ValuesOf(a, k) + ValuesOf(b, k)
  {
    if b == [] {
      assert a + b == a;
    } else {
      assert (a + b)[..|a + b| - 1] == a + b[..|b| - 1];
      ValuesAppend(a, b[..|b| - 1], k);
    }
  }

  /** What a stream writes to the cut field: up to the chunk entry of the cut, in it, and behind it. */
  lemma WrittenAround(before: seq<Chunk>, whole: Chunk, i: nat, n: nat)
    requires i < |whole.choices| && n < |whole.choices[i].delta|
    ensures var c, k := whole.choices[i], whole.choices[i].delta[n].key;
      Written(AllChoices(before + [whole]), c.index, k) ==
      Written(AllChoices(before) + whole.choices[..i], c.index, k) + ValuesOf(c.delta, k) + Behind(whole, i, n)
  {
    hide Written, ValuesOf;
    var c, k := whole.choices[i], whole.choices[i].delta[n].key;
    var front := AllChoices(before) + whole.choices[..i];
    assert (before + [whole])[..|before|] == before;
    assert AllChoices(before + [whole]) == front + [c] + whole.choices[i + 1..];
    WrittenAppend(front + [c], whole.choices[i + 1..], c.index, k);
    WrittenSnoc(front, c, c.index, k);
  }

  lemma ValuesSnoc(front: Dict, f: Field)
    requires f.value != Null
    ensures ValuesOf(front + [f], f.key) == ValuesOf(front, f.key) + [f.value]
  {
    assert (front + [f])[..|front|] == front;
  }

  /** What a delta writes last to a field, when nothing behind it has the same key. */
  lemma ValuesUpTo(front: Dict, f: Field, rest: Dict)
    requires f.value != Null && Lacks(rest, f.key)
    ensures ValuesOf(front + ([f] + rest), f.key) == ValuesOf(front, f.key) + [f.value]
  {
    hide ValuesOf;
    ValuesAppend(front, [f] + rest, f.key);
    ValuesAppend([f], rest, f.key);
    ValuesSnoc([], f);
    assert [] + [f] == [f];
    NotAmong([], f.key);
    NotAmong(rest, f.key);
  }

  /** Where the stream is tidy, so are the cut value and what follows it. */
  lemma TidyFromCut(before: seq<Chunk>, whole: Chunk, i: nat, n: nat)
    requires TidyStream(before + [whole]) && i < |whole.choices| && n < |whole.choices[i].delta|
    requires whole.choices[i].delta[n].value != Null && StringMergeKey(whole.choices[i].delta[n].key)
    requires DistinctKeys(whole.choices[i].delta)
    ensures Tidy([whole.choices[i].delta[n].value] + Behind(whole, i, n))
  {
    hide Written, Tidy, ValuesOf, AllChoices, Behind;
    var c, k := whole.choices[i], whole.choices[i].delta[n].key;
    WrittenAround(before, whole, i, n);
    SplitParts(c.delta, c.delta, k, n);
    ValuesUpTo(c.delta[..n], c.delta[n], c.delta[n + 1..]);
    TidyOwn(AllChoices(before + [whole]), c.index, k);
    var front := Written(AllChoices(before) + whole.choices[..i], c.index, k) + ValuesOf(c.delta[..n], k);
    var v, behind := c.delta[n].value, Behind(whole, i, n);
    assert Written(AllChoices(before + [whole]), c.index, k) == front + ([v] + behind);
    TidyBack(front, [v] + behind);
  }

  lemma TidyOwn(choices: seq<Choice>, index: int, k: string)
    requires TidyEntries(choices) && StringMergeKey(k)
    ensures Tidy(Written(choices, index, k))
  {
    assert TidyChoice(Only(choices, index));
    var values := AllValues(Only(choices, index), k);
    assert values + ValuesOf([], k) == values;
  }

  lemma TidyBack(a: seq<Value>, b: seq<Value>)
    requires Tidy(a + b)
    ensures Tidy(b)
  {
    forall j | 0 < j < |b| && b[j].Str?
      ensures b[j - 1].Str?
    {
      assert (a + b)[|a| + j] == b[j] && (a + b)[|a| + j - 1] == b[j - 1];
    }
  }

  lemma {:induction false} NotAmong(d: Dict, k: string)
    requires Lacks(d, k)
    ensures ValuesOf(d, k) == []
  {
    if d != [] {
      NotAmong(d[..|d| - 1], k);
    }
  }

  // ----- a chunk that does not raise

  /** Whole and head leave states that differ in the cut field at most. */
  ghost predicate TwinStates(a: Snapshot, b: Snapshot, index: int, k: string)
  {
    && TwinChoices(a.merged, b.merged, index, k) && a.ok == b.ok && a.usage == b.usage && a.extra == b.extra
    && a.recorded > 0 && b.recorded > 0
  }

  lemma TwinsAgreeIff(a: Snapshot, b: Snapshot, index: int, k: string)
    requires TwinStates(a, b, index, k) && k != "finish_reason"
    ensures Get(a.merged[index], k) == Get(b.merged[index], k) ==> SameButCount(a, b)
    ensures Get(a.merged[index], k) != Get(b.merged[index], k) ==> FieldDiffers(a, b, index, k)
  {
    if Get(a.merged[index], k) == Get(b.merged[index], k) {
      SetSame(b.merged[index], k, Get(b.merged[index], k).value);
      assert b.merged[index := b.merged[index]] == b.merged;
    }
  }

  lemma SameResponses(a: Snapshot, b: Snapshot, after: seq<Chunk>)
    requires SameButCount(a, b)
    ensures Assembled(Run(a, after)) == Assembled(Run(b, after))
  {
    SameRuns(a, b, after);
  }

  /** The states differ in the cut field at most. */
  lemma TidyTwins(before: seq<Chunk>, whole: Chunk, head: Chunk, tail: Chunk, i: nat, n: nat, spot: Spot)
    requires CutHere(whole, head, tail, i, n, spot) && WellFormedChoices(whole.choices) && TidyStream(before + [whole])
    ensures var s, c, k := Run(EMPTY, before), whole.choices[i].index, whole.choices[i].delta[n].key;
      var a, b, prior := Capture(s, whole), Capture(s, head), Prior(s.merged, whole, i, n);
      && s.ok && a.ok && TwinStates(a, b, c, k) && FieldValue(prior, k, whole.choices[i].delta[n].value).Some?
      && (prior.Some? && prior.value.Arr? <==> ListSoFar(before, whole, i, n))
      && Get(a.merged[c], k) ==
           FoldValues(FieldValue(prior, k, whole.choices[i].delta[n].value), k, Behind(whole, i, n))
      && Get(b.merged[c], k) ==
           FoldValues(FieldValue(prior, k, head.choices[i].delta[n].value), k, Behind(whole, i, n))
  {
    hide CaptureChoices, TidyStream, CutEntry, Twin, Written, ListSoFar, FoldValues, WellFormedChoices, FieldValue,
      UpTo;
    var s := Run(EMPTY, before);
    HereLengths(whole, head, tail, i, n, spot);
    EntryHead(whole.choices[i], head.choices[i], tail.choices[0], n, spot);
    TidyReaches(before, whole, head, tail, i, n, spot);
    CutTwins(s.merged, whole, head, tail, i, n, spot);
    PriorIsList(before, whole, i, n);
  }

  /** Nothing raises up to the cut, nor behind it. */
  lemma TidyReaches(before: seq<Chunk>, whole: Chunk, head: Chunk, tail: Chunk, i: nat, n: nat, spot: Spot)
    requires CutHere(whole, head, tail, i, n, spot) && WellFormedChoices(whole.choices) && TidyStream(before + [whole])
    ensures var s := Run(EMPTY, before);
      && s.ok && CaptureChoices(s.merged, whole.choices).ok && CaptureChoices(s.merged, whole.choices[..i]).ok
      && CaptureChoices(s.merged, UpTo(whole, i, n).choices).ok
  {
    hide CaptureChoices, TidyStream, CutEntry, WellFormedChoices, UpTo, CutHere;
    HereLengths(whole, head, tail, i, n, spot);
    var s := Run(EMPTY, before);
    hide Run;
    RaisesIff(before + [whole]);
    RunSteps(before, whole, head, tail, []);
    if !s.ok {
      RaisedStays(s, whole);
    }
    EarlierEntriesOk(s.merged, whole.choices, i);
    if !CaptureChoices(s.merged, UpTo(whole, i, n).choices).ok {
      CutRaises(s.merged, whole, head, tail, i, n, spot);
    }
  }

  lemma CutInTidy(before: seq<Chunk>, whole: Chunk, head: Chunk, tail: Chunk, i: nat, n: nat, spot: Spot)
    requires CutHere(whole, head, tail, i, n, spot) && WellFormedChoices(whole.choices) && TidyStream(before + [whole])
    ensures var s, c, k := Run(EMPTY, before), whole.choices[i].index, whole.choices[i].delta[n].key;
      var a, b := Capture(s, whole), Capture(s, head);
      var w, t := whole.choices[i].delta[n].value, tail.choices[0].delta[0].value;
      var merges, behind := ListSoFar(before, whole, i, n), Behind(whole, i, n);
      && s.ok && a.ok && TwinStates(a, b, c, k)
      && (Get(a.merged[c], k) == Get(b.merged[c], k) <==> Erases(spot, w, merges, behind))
      && (FieldValue(Get(b.merged[c], k), k, t) == Get(a.merged[c], k) <==> Restores(spot, w, merges, behind))
  {
    hide Capture, TidyStream, Written, ListSoFar, FoldValues, WellFormed, FieldValue, Erases, Restores, Tidy,
      WellFormedAll, Prior, Behind;
    TidyTwins(before, whole, head, tail, i, n, spot);
    CutBehind(before, whole, head, tail, i, n, spot);
    var w, h, t := whole.choices[i].delta[n].value, head.choices[i].delta[n].value, tail.choices[0].delta[0].value;
    CutValueIff(Prior(Run(EMPTY, before).merged, whole, i, n), whole.choices[i].delta[n].key, spot, w, h, t,
                Behind(whole, i, n));
  }

  lemma CutBehind(before: seq<Chunk>, whole: Chunk, head: Chunk, tail: Chunk, i: nat, n: nat, spot: Spot)
    requires CutHere(whole, head, tail, i, n, spot) && WellFormedChoices(whole.choices) && TidyStream(before + [whole])
    ensures WellFormed(whole.choices[i].delta[n].value) && WellFormedAll(Behind(whole, i, n))
    ensures StringMergeKey(whole.choices[i].delta[n].key) ==>
      Tidy([whole.choices[i].delta[n].value] + Behind(whole, i, n))
  {
    hide TidyStream, Written, Tidy;
    var c := whole.choices[i];
    assert WellFormed(Obj(c.delta)) && WellFormedField(c.delta[n]);
    WrittenWellFormed(whole.choices[i + 1..], c.index, c.delta[n].key);
    if StringMergeKey(c.delta[n].key) {
      TidyFromCut(before, whole, i, n);
    }
  }

  /** Whether the cut shows in what the client gets, when the stream goes on with `after`. */
  ghost predicate SameResponse(before: seq<Chunk>, whole: Chunk, head: Chunk, tail: Chunk, after: seq<Chunk>)
  {
    Assembled(Run(EMPTY, before + [whole] + after)) == Assembled(Run(EMPTY, before + [head, tail] + after))
  }

  /** What the tail makes of the state the head has left. */
  lemma TailCaptures(b: Snapshot, tail: Chunk, index: int, k: string, t: Value)
    requires b.ok && index in b.merged && t != Null && tail == Chunk([], [Choice(index, [Field(k, t)], Null)], Null)
    ensures Capture(b, tail) ==
      match FieldValue(Get(b.merged[index], k), k, t) {
        case Some(v) => b.(recorded := b.recorded + 1, merged := b.merged[index := Set(b.merged[index], k, v)])
        case None => b.(recorded := b.recorded + 1, ok := false)
      }
  {
    var c := Choice(index, [Field(k, t)], Null);
    CaptureOne(b.merged, c);
    MergeDeltaOne(b.merged[index], Field(k, t));
    MergeFieldIsSet(b.merged[index], k, t);
    assert b.merged[index := b.merged[index]] == b.merged;
  }

  /** If the tail is merged, the states still differ in the cut field at most. */
  lemma TailTwins(a: Snapshot, b: Snapshot, tail: Chunk, index: int, k: string, t: Value)
    requires TwinStates(a, b, index, k) && a.ok && k != "finish_reason"
    requires t != Null && tail == Chunk([], [Choice(index, [Field(k, t)], Null)], Null)
    requires var v := FieldValue(Get(b.merged[index], k), k, t);
      v.Some? && (v.value.Str? <==> Get(a.merged[index], k).value.Str?)
    ensures var b' := Capture(b, tail);
      TwinStates(a, b', index, k) && Get(b'.merged[index], k) == FieldValue(Get(b.merged[index], k), k, t)
  {
    hide Capture, FieldValue;
    TailCaptures(b, tail, index, k, t);
    var v, d := FieldValue(Get(b.merged[index], k), k, t).value, b.merged[index];
    GetSet(d, k, v, k);
    SetSet(d, k, v, Get(a.merged[index], k).value);
    var m := Capture(b, tail).merged;
    assert a.merged == m[index := a.merged[index]];
  }

  /** A chunk that does not raise: when the rest makes up for the head, the cut never shows. */
  lemma RestoredNeverShows(before: seq<Chunk>, whole: Chunk, head: Chunk, tail: Chunk, after: seq<Chunk>,
      i: nat, n: nat, spot: Spot)
    requires CutHere(whole, head, tail, i, n, spot) && WellFormedChoices(whole.choices) && TidyStream(before + [whole])
    requires Restores(spot, whole.choices[i].delta[n].value, ListSoFar(before, whole, i, n), Behind(whole, i, n))
    ensures SameResponse(before, whole, head, tail, after)
  {
    hide Capture, TidyStream, ListSoFar, FieldValue, Erases, Restores, Behind, CutValue, TwinChoices, Run, Assembled;
    CutInTidy(before, whole, head, tail, i, n, spot);
    RunSteps(before, whole, head, tail, after);
    var s, c, k := Run(EMPTY, before), whole.choices[i].index, whole.choices[i].delta[n].key;
    var a, b, t := Capture(s, whole), Capture(s, head), tail.choices[0].delta[0].value;
    TailIs(whole, head, tail, i, n, spot);
    Present(a, b, c, k);
    TailTwins(a, b, tail, c, k, t);
    TwinsAgreeIff(a, Capture(b, tail), c, k);
    SameResponses(a, Capture(b, tail), after);
  }

  lemma TailIs(whole: Chunk, head: Chunk, tail: Chunk, i: nat, n: nat, spot: Spot)
    requires CutHere(whole, head, tail, i, n, spot)
    ensures var k, t := whole.choices[i].delta[n].key, tail.choices[0].delta[0].value;
      && k != "finish_reason" && t != Null
      && tail == Chunk([], [Choice(whole.choices[i].index, [Field(k, t)], Null)], Null)
  {
    assert tail.choices == [tail.choices[0]];
    assert tail.choices[0].delta == [tail.choices[0].delta[0]];
  }

  lemma Present(a: Snapshot, b: Snapshot, index: int, k: string)
    requires TwinStates(a, b, index, k)
    ensures index in a.merged && index in b.merged && Get(a.merged[index], k).Some? && Get(b.merged[index], k).Some?
    ensures Get(a.merged[index], k).value.Str? <==> Get(b.merged[index], k).value.Str?
  {
  }

  /** Otherwise it shows, at once or, when the tail raises, in what the client misses from then on. */
  lemma UnrestoredShows(before: seq<Chunk>, whole: Chunk, head: Chunk, tail: Chunk, i: nat, n: nat, spot: Spot)
    returns (after: seq<Chunk>)
    requires CutHere(whole, head, tail, i, n, spot) && WellFormedChoices(whole.choices) && TidyStream(before + [whole])
    requires !Restores(spot, whole.choices[i].delta[n].value, ListSoFar(before, whole, i, n), Behind(whole, i, n))
    ensures !SameResponse(before, whole, head, tail, after)
  {
    hide Capture, TidyStream, ListSoFar, Erases, Restores, Behind, CutValue, TwinChoices, Run, Assembled;
    CutInTidy(before, whole, head, tail, i, n, spot);
    var s, c, k := Run(EMPTY, before), whole.choices[i].index, whole.choices[i].delta[n].key;
    var a, b, t := Capture(s, whole), Capture(s, head), tail.choices[0].delta[0].value;
    TailIs(whole, head, tail, i, n, spot);
    Present(a, b, c, k);
    TailCaptures(b, tail, c, k, t);
    match FieldValue(Get(b.merged[c], k), k, t) {
      case Some(v) =>
        after := [];
        RunSteps(before, whole, head, tail, after);
        GetSet(b.merged[c], k, v, k);
        RunNothing(a);
        RunNothing(Capture(b, tail));
        ResponseDiffers(a, Capture(b, tail), c, k);
      case None =>
        var usage := if a.usage == Obj([]) then Obj([Field("", Null)]) else Obj([]);
        after := [Chunk([], [], usage)];
        RunSteps(before, whole, head, tail, after);
        RunUsage(a, usage);
        RunAfterRaise(Capture(b, tail), after);
        UsageShows(Run(a, after), Capture(b, tail));
    }
  }

  lemma RunNothing(s: Snapshot)
    ensures Run(s, []) == s
  {
  }

  lemma RunUsage(s: Snapshot, usage: Value)
    requires s.ok && usage.Obj?
    ensures Run(s, [Chunk([], [], usage)]) == s.(recorded := s.recorded + 1, usage := usage)
  {
    var chunks := [Chunk([], [], usage)];
    assert chunks[..0] == [];
  }

  lemma UsageShows(a: Snapshot, b: Snapshot)
    requires a.recorded > 0 && b.recorded > 0 && a.usage != b.usage
    ensures Assembled(a) != Assembled(b)
  {
  }

  // ----- a chunk that raises

  /** The first field that raises is field `b` of entry `a`, behind the cut. */
  ghost predicate RaisesBehind(before: seq<Chunk>, whole: Chunk, i: nat, n: nat, a: nat, b: nat)
  {
    && a < |whole.choices| && b < |whole.choices[a].delta| && (i < a || (i == a && n < b))
    && TidyStream(before + [Before(whole, a, b)]) && !TidyStream(before + [UpTo(whole, a, b)])
  }

  lemma {:induction false} FirstRaiseInDelta(m: Dict, d: Dict) returns (b: nat)
    requires !MergeDelta(m, d).ok
    ensures b < |d| && MergeDelta(m, d[..b]).ok && !MergeDelta(m, d[..b + 1]).ok
  {
    var n := |d| - 1;
    if MergeDelta(m, d[..n]).ok {
      b := n;
      assert d[..b + 1] == d;
    } else {
      b := FirstRaiseInDelta(m, d[..n]);
      assert d[..n][..b] == d[..b] && d[..n][..b + 1] == d[..b + 1];
    }
  }

  lemma {:induction false} FirstRaise(m: map<int, Dict>, choices: seq<Choice>) returns (a: nat, b: nat)
    requires !CaptureChoices(m, choices).ok
    ensures a < |choices| && b < |choices[a].delta| && CaptureChoices(m, choices[..a]).ok
    ensures var d := MergedAt(CaptureChoices(m, choices[..a]).merged, choices[a].index);
      MergeDelta(d, choices[a].delta[..b]).ok && !MergeDelta(d, choices[a].delta[..b + 1]).ok
  {
    hide MergeDelta;
    var n := |choices| - 1;
    if CaptureChoices(m, choices[..n]).ok {
      a := n;
      b := FirstRaiseInDelta(MergedAt(CaptureChoices(m, choices[..n]).merged, choices[n].index), choices[n].delta);
    } else {
      a, b := FirstRaise(m, choices[..n]);
      assert choices[..n][..a] == choices[..a];
    }
  }

  lemma {:induction false} EarlierFieldsOk(m: Dict, d: Dict, b: nat)
    requires MergeDelta(m, d).ok && b <= |d|
    ensures MergeDelta(m, d[..b]).ok
  {
    assert d == d[..b] + d[b..];
    MergeDeltaAppend(m, d[..b], d[b..]);
  }

  lemma EarlierEntriesOk(m: map<int, Dict>, choices: seq<Choice>, a: nat)
    requires CaptureChoices(m, choices).ok && a <= |choices|
    ensures CaptureChoices(m, choices[..a]).ok
  {
    assert choices == choices[..a] + choices[a..];
    CaptureStops(m, choices[..a], choices[a..]);
  }

  /** A field that raises is behind one up to which nothing does. */
  lemma RaiseIsLater(m: map<int, Dict>, chunk: Chunk, i: nat, n: nat, a: nat, b: nat)
    requires i < |chunk.choices| && n < |chunk.choices[i].delta| && a < |chunk.choices| && b < |chunk.choices[a].delta|
    requires CaptureChoices(m, UpTo(chunk, i, n).choices).ok && !CaptureChoices(m, UpTo(chunk, a, b).choices).ok
    ensures i < a || (i == a && n < b)
  {
    hide CaptureChoices, MergeDelta;
    BeforeCaptures(m, chunk, i, n + 1);
    BeforeCaptures(m, chunk, a, b + 1);
    if a < i {
      EarlierEntriesOk(m, chunk.choices[..i], a + 1);
      assert chunk.choices[..i][..a + 1] == chunk.choices[..a + 1];
      EarlierEntriesOk(m, chunk.choices[..i], a);
      assert chunk.choices[..i][..a] == chunk.choices[..a];
      EntryOk(m, chunk.choices[..a + 1], a);
      assert chunk.choices[..a + 1][..a] == chunk.choices[..a];
      EarlierFieldsOk(MergedAt(CaptureChoices(m, chunk.choices[..a]).merged, chunk.choices[a].index),
                      chunk.choices[a].delta, b + 1);
    } else if a == i && b <= n {
      var d := chunk.choices[i].delta;
      assert d[..n + 1][..b + 1] == d[..b + 1];
      EarlierFieldsOk(MergedAt(CaptureChoices(m, chunk.choices[..i]).merged, chunk.choices[i].index),
                      d[..n + 1], b + 1);
    }
  }

  lemma EntryOk(m: map<int, Dict>, choices: seq<Choice>, a: nat)
    requires |choices| == a + 1 && CaptureChoices(m, choices).ok
    ensures MergeDelta(MergedAt(CaptureChoices(m, choices[..a]).merged, choices[a].index), choices[a].delta).ok
  {
  }

  lemma OkIffTidy(before: seq<Chunk>, chunk: Chunk)
    requires Run(EMPTY, before).ok
    ensures TidyStream(before + [chunk]) <==> CaptureChoices(Run(EMPTY, before).merged, chunk.choices).ok
  {
    hide TidyStream, CaptureChoices;
    RaisesIff(before + [chunk]);
    RunSteps(before, chunk, chunk, chunk, []);
  }

  lemma RaisePlace(before: seq<Chunk>, whole: Chunk, i: nat, n: nat) returns (a: nat, b: nat)
    requires i < |whole.choices| && n < |whole.choices[i].delta| && Run(EMPTY, before).ok
    requires TidyStream(before + [UpTo(whole, i, n)]) && !TidyStream(before + [whole])
    ensures RaisesBehind(before, whole, i, n, a, b)
  {
    hide TidyStream, CaptureChoices, MergeDelta, Run, Before;
    var m := Run(EMPTY, before).merged;
    OkIffTidy(before, whole);
    OkIffTidy(before, UpTo(whole, i, n));
    a, b := FirstRaise(m, whole.choices);
    BeforeCaptures(m, whole, a, b);
    BeforeCaptures(m, whole, a, b + 1);
    OkIffTidy(before, Before(whole, a, b));
    OkIffTidy(before, UpTo(whole, a, b));
    RaiseIsLater(m, whole, i, n, a, b);
  }

  /** Nothing behind the field that raises is captured. */
  lemma StopsAtRaise(m: map<int, Dict>, chunk: Chunk, a: nat, b: nat)
    requires a < |chunk.choices| && b < |chunk.choices[a].delta|
    requires CaptureChoices(m, Before(chunk, a, b).choices).ok && !CaptureChoices(m, UpTo(chunk, a, b).choices).ok
    ensures CaptureChoices(m, chunk.choices) == Choices(CaptureChoices(m, Before(chunk, a, b).choices).merged, false)
  {
    var c := chunk.choices[a];
    BeforeCaptures(m, chunk, a, b);
    BeforeCaptures(m, chunk, a, b + 1);
    WholeCaptures(m, chunk.choices, a);
    var first := CaptureChoices(m, chunk.choices[..a]);
    hide CaptureChoices;
    var d := MergedAt(first.merged, c.index);
    assert c.delta[..b + 1][..b] == c.delta[..b];
    assert c.delta == c.delta[..b + 1] + c.delta[b + 1..];
    MergeDeltaAppend(d, c.delta[..b + 1], c.delta[b + 1..]);
    RaiseChangesNothing(MergeDelta(d, c.delta[..b]).fields, c.delta[b]);
  }

  lemma RaiseChangesNothing(m: Dict, f: Field)
    ensures !MergeField(m, f.key, f.value).ok ==> MergeField(m, f.key, f.value).fields == m
  {
  }

  /** What is left of a cut when the chunk is cut short behind it. */
  lemma CutBefore(whole: Chunk, head: Chunk, tail: Chunk, i: nat, n: nat, spot: Spot, a: nat, b: nat)
    requires CutHere(whole, head, tail, i, n, spot) && WellFormedChoices(whole.choices)
    requires a < |whole.choices| && b <= |whole.choices[a].delta| && (i < a || (i == a && n < b))
    ensures |head.choices[a].delta| == |whole.choices[a].delta|
    ensures CutHere(Before(whole, a, b), Before(head, a, b), tail, i, n, spot)
    ensures WellFormedChoices(Before(whole, a, b).choices)
    ensures Before(whole, a, b).choices[..i] == whole.choices[..i]
    ensures Before(whole, a, b).choices[i].index == whole.choices[i].index
    ensures Before(whole, a, b).choices[i].delta[n] == whole.choices[i].delta[n]
  {
    hide CutValue, WellFormed;
    var w, h := Before(whole, a, b), Before(head, a, b);
    WellFormedPrefix(whole.choices[a].delta, b);
    forall j | 0 <= j < |w.choices|
      ensures WellFormed(Obj(w.choices[j].delta))
    {
      if j < a {
        assert WellFormed(Obj(whole.choices[j].delta));
      }
    }
    if i == a {
      EntryBefore(whole.choices[i], head.choices[i], tail.choices[0], n, spot, b);
    }
    assert h.choices == w.choices[i := h.choices[i]];
  }

  lemma EntryBefore(cw: Choice, ch: Choice, ct: Choice, n: nat, spot: Spot, b: nat)
    requires CutEntry(cw, ch, ct, n, spot) && n < b <= |cw.delta|
    ensures CutEntry(Choice(cw.index, cw.delta[..b], Null), Choice(ch.index, ch.delta[..b], Null), ct, n, spot)
  {
    hide CutValue;
    assert ch.delta[..b] == cw.delta[..b][n := ch.delta[n]];
  }

  lemma BeforeBefore(whole: Chunk, i: nat, n: nat, a: nat, b: nat)
    requires i < |whole.choices| && n < |whole.choices[i].delta|
    requires a < |whole.choices| && b <= |whole.choices[a].delta| && (i < a || (i == a && n < b))
    ensures UpTo(Before(whole, a, b), i, n) == UpTo(whole, i, n)
  {
    assert Before(whole, a, b).choices[..i] == whole.choices[..i];
    if i == a {
      assert whole.choices[i].delta[..b][..n + 1] == whole.choices[i].delta[..n + 1];
    }
  }

  /** The head raises where the whole does. */
  lemma HeadRaisesToo(m: map<int, Dict>, whole: Chunk, head: Chunk, tail: Chunk, i: nat, n: nat, spot: Spot,
      a: nat, b: nat)
    requires CutHere(whole, head, tail, i, n, spot) && WellFormedChoices(whole.choices)
    requires a < |whole.choices| && b < |whole.choices[a].delta| && (i < a || (i == a && n < b))
    requires CaptureChoices(m, Before(whole, a, b).choices).ok && !CaptureChoices(m, UpTo(whole, a, b).choices).ok
    ensures |head.choices[a].delta| == |whole.choices[a].delta|
    ensures CaptureChoices(m, Before(head, a, b).choices).ok && !CaptureChoices(m, UpTo(head, a, b).choices).ok
  {
    hide CaptureChoices, CutHere, Before, WellFormedChoices, TwinChoices, FoldValues;
    HereLengths(whole, head, tail, i, n, spot);
    CutBefore(whole, head, tail, i, n, spot, a, b);
    CutBefore(whole, head, tail, i, n, spot, a, b + 1);
    BeforeLengths(whole, i, n, a, b);
    BeforeLengths(whole, i, n, a, b + 1);
    BeforeBefore(whole, i, n, a, b);
    BeforeBefore(whole, i, n, a, b + 1);
    if !CaptureChoices(m, UpTo(whole, i, n).choices).ok {
      CutRaises(m, Before(whole, a, b), Before(head, a, b), tail, i, n, spot);
    } else {
      CutTwins(m, Before(whole, a, b), Before(head, a, b), tail, i, n, spot);
      CutTwins(m, Before(whole, a, b + 1), Before(head, a, b + 1), tail, i, n, spot);
    }
  }

  lemma HereLengths(whole: Chunk, head: Chunk, tail: Chunk, i: nat, n: nat, spot: Spot)
    requires CutHere(whole, head, tail, i, n, spot)
    ensures i < |whole.choices| == |head.choices| && n < |whole.choices[i].delta| && head.fields == whole.fields
    ensures forall j | 0 <= j < |whole.choices| :: |head.choices[j].delta| == |whole.choices[j].delta|
  {
  }

  lemma BeforeLengths(whole: Chunk, i: nat, n: nat, a: nat, b: nat)
    requires i < |whole.choices| && n < |whole.choices[i].delta|
    requires a < |whole.choices| && b <= |whole.choices[a].delta| && (i < a || (i == a && n < b))
    ensures i < |Before(whole, a, b).choices| && n < |Before(whole, a, b).choices[i].delta|
  {
  }

  /** Before the raise the head has stored less, unless what the text was is overwritten by then. */
  lemma RaisedTwins(before: seq<Chunk>, whole: Chunk, head: Chunk, tail: Chunk, i: nat, n: nat, spot: Spot,
      a: nat, b: nat)
    requires CutHere(whole, head, tail, i, n, spot) && WellFormedChoices(whole.choices)
    requires RaisesBehind(before, whole, i, n, a, b)
    ensures i < |Before(whole, a, b).choices| && n < |Before(whole, a, b).choices[i].delta|
    ensures var s, c, k := Run(EMPTY, before), whole.choices[i].index, whole.choices[i].delta[n].key;
      var x, y := Capture(s, whole), Capture(s, head);
      && s.ok && !x.ok && TwinStates(x, y, c, k)
      && (Get(x.merged[c], k) == Get(y.merged[c], k) <==>
            Erases(spot, whole.choices[i].delta[n].value, ListSoFar(before, whole, i, n),
                   Behind(Before(whole, a, b), i, n)))
  {
    hide CaptureChoices, TidyStream, TwinChoices, Written, Erases, Restores, FieldValue, WellFormedChoices, Run, Before,
      CutHere;
    HereLengths(whole, head, tail, i, n, spot);
    var s, w, h := Run(EMPTY, before), Before(whole, a, b), Before(head, a, b);
    BeforeLengths(whole, i, n, a, b);
    CutBefore(whole, head, tail, i, n, spot, a, b);
    CutInTidy(before, w, h, tail, i, n, spot);
    OkIffTidy(before, w);
    OkIffTidy(before, UpTo(whole, a, b));
    HeadRaisesToo(s.merged, whole, head, tail, i, n, spot, a, b);
    StopsAtRaise(s.merged, whole, a, b);
    StopsAtRaise(s.merged, head, a, b);
    assert ListSoFar(before, w, i, n) == ListSoFar(before, whole, i, n);
    CutUsage(whole, head, tail, i, n, spot);
  }

  lemma CutUsage(whole: Chunk, head: Chunk, tail: Chunk, i: nat, n: nat, spot: Spot)
    requires CutHere(whole, head, tail, i, n, spot)
    ensures head.fields == whole.fields && head.usage == whole.usage
  {
  }

  // ----- when the cut shows

  /** Either something up to the cut field raises; or nothing in the chunk does, and the rest makes up for the head; or
      something behind the cut does, and by then the text is overwritten. */
  ghost predicate Harmless(before: seq<Chunk>, whole: Chunk, i: nat, n: nat, spot: Spot)
    requires i < |whole.choices| && n < |whole.choices[i].delta|
    requires Fits(spot, whole.choices[i].delta[n].value)
  {
    var w, merges := whole.choices[i].delta[n].value, ListSoFar(before, whole, i, n);
    TidyStream(before + [UpTo(whole, i, n)]) ==>
      if TidyStream(before + [whole]) then Restores(spot, w, merges, Behind(whole, i, n))
      else exists a, b :: RaisesBehind(before, whole, i, n, a, b) && ErasesBefore(before, whole, i, n, spot, a, b)
  }

  /** The fields from the cut to field `b` of entry `a` overwrite the text. */
  ghost predicate ErasesBefore(before: seq<Chunk>, whole: Chunk, i: nat, n: nat, spot: Spot, a: nat, b: nat)
    requires i < |whole.choices| && n < |whole.choices[i].delta|
    requires Fits(spot, whole.choices[i].delta[n].value)
    requires a < |whole.choices| && b < |whole.choices[a].delta| && (i < a || (i == a && n < b))
  {
    Erases(spot, whole.choices[i].delta[n].value, ListSoFar(before, whole, i, n), Behind(Before(whole, a, b), i, n))
  }

  /** A chunk that raises: whatever follows, the cut shows unless it is harmless. */
  lemma RaisingChunkIff(before: seq<Chunk>, whole: Chunk, head: Chunk, tail: Chunk, after: seq<Chunk>,
      i: nat, n: nat, spot: Spot)
    requires CutHere(whole, head, tail, i, n, spot) && WellFormedChoices(whole.choices) && !TidyStream(before + [whole])
    ensures SameResponse(before, whole, head, tail, after) <==> Harmless(before, whole, i, n, spot)
  {
    CutFits(whole, head, tail, i, n, spot);
    hide TidyStream, CutHere, WellFormedChoices, Assembled, Capture, Run, TwinStates, Before, ErasesBefore;
    HereLengths(whole, head, tail, i, n, spot);
    var s, cut := Run(EMPTY, before), UpTo(whole, i, n);
    RunSteps(before, whole, head, tail, after);
    if !s.ok {
      RaisedStays(s, whole);
      RaisedStays(s, head);
      RaisedStays(s, tail);
      RaisesIff(before + [cut]);
      RunSteps(before, cut, head, tail, after);
      RaisedStays(s, cut);
    } else if !TidyStream(before + [cut]) {
      OkIffTidy(before, cut);
      SameRaise(s, whole, head, tail, i, n, spot);
    } else {
      var a, b := RaisePlace(before, whole, i, n);
      forall a, b | RaisesBehind(before, whole, i, n, a, b)
        ensures SameResponse(before, whole, head, tail, after) <==> ErasesBefore(before, whole, i, n, spot, a, b)
      {
        RaisedShowsIff(before, whole, head, tail, after, i, n, spot, a, b);
      }
    }
  }

  lemma SameRaise(s: Snapshot, whole: Chunk, head: Chunk, tail: Chunk, i: nat, n: nat, spot: Spot)
    requires CutHere(whole, head, tail, i, n, spot) && WellFormedChoices(whole.choices)
    requires s.ok && !CaptureChoices(s.merged, UpTo(whole, i, n).choices).ok
    ensures Capture(s, head) == Capture(s, whole) && Capture(Capture(s, head), tail) == Capture(s, whole)
  {
    CutRaises(s.merged, whole, head, tail, i, n, spot);
    RaisedStays(Capture(s, head), tail);
  }

  lemma RaisedShowsIff(before: seq<Chunk>, whole: Chunk, head: Chunk, tail: Chunk, after: seq<Chunk>,
      i: nat, n: nat, spot: Spot, a: nat, b: nat)
    requires CutHere(whole, head, tail, i, n, spot) && WellFormedChoices(whole.choices)
    requires RaisesBehind(before, whole, i, n, a, b)
    ensures SameResponse(before, whole, head, tail, after) <==> ErasesBefore(before, whole, i, n, spot, a, b)
  {
    hide Capture, Run, TwinChoices, Assembled, Erases, TidyStream, Before, WellFormedChoices, FieldDiffers;
    RaisedTwins(before, whole, head, tail, i, n, spot, a, b);
    RunSteps(before, whole, head, tail, after);
    var s, c, k := Run(EMPTY, before), whole.choices[i].index, whole.choices[i].delta[n].key;
    var x, y := Capture(s, whole), Capture(s, head);
    Present(x, y, c, k);
    RaisedStays(y, tail);
    RunAfterRaise(x, after);
    RunAfterRaise(y, after);
    TwinsAgreeIff(x, y, c, k);
    if Get(x.merged[c], k) == Get(y.merged[c], k) {
      SameResponses(x, y, after);
    } else {
      ResponseDiffers(x, y, c, k);
    }
  }

  /** Wherever a text is cut, and whatever else the chunk carries: no continuation of the stream shows the cut exactly
      when it is harmless. */
  lemma FragmentsMatterIff(before: seq<Chunk>, whole: Chunk, head: Chunk, tail: Chunk, i: nat, n: nat, spot: Spot)
    requires CutHere(whole, head, tail, i, n, spot) && WellFormedChoices(whole.choices)
    ensures (forall after :: SameResponse(before, whole, head, tail, after)) <==> Harmless(before, whole, i, n, spot)
  {
    hide TidyStream, WellFormedChoices, SameResponse, Restores, Behind, ListSoFar, RaisesBehind;
    if !TidyStream(before + [whole]) {
      forall after
        ensures SameResponse(before, whole, head, tail, after) <==> Harmless(before, whole, i, n, spot)
      {
        RaisingChunkIff(before, whole, head, tail, after, i, n, spot);
      }
      assert SameResponse(before, whole, head, tail, []) <==> Harmless(before, whole, i, n, spot);
    } else {
      TidyUpToCut(before, whole, head, tail, i, n, spot);
      if Harmless(before, whole, i, n, spot) {
        forall after
          ensures SameResponse(before, whole, head, tail, after)
        {
          RestoredNeverShows(before, whole, head, tail, after, i, n, spot);
        }
      } else {
        var after := UnrestoredShows(before, whole, head, tail, i, n, spot);
      }
    }
  }

  lemma TidyUpToCut(before: seq<Chunk>, whole: Chunk, head: Chunk, tail: Chunk, i: nat, n: nat, spot: Spot)
    requires CutHere(whole, head, tail, i, n, spot) && WellFormedChoices(whole.choices) && TidyStream(before + [whole])
    ensures TidyStream(before + [UpTo(whole, i, n)])
  {
    hide TidyStream, CaptureChoices, CutEntry, TwinChoices;
    HereLengths(whole, head, tail, i, n, spot);
    TidyTwins(before, whole, head, tail, i, n, spot);
    OkIffTidy(before, whole);
    OkIffTidy(before, UpTo(whole, i, n));
    if !CaptureChoices(Run(EMPTY, before).merged, UpTo(whole, i, n).choices).ok {
      CutRaises(Run(EMPTY, before).merged, whole, head, tail, i, n, spot);
    }
  }

  // ----- streams of strings

  lemma CaptureTwins(a: Snapshot, b: Snapshot, index: int, k: string, chunk: Chunk)
    requires TwinStates(a, b, index, k) && k != "finish_reason"
    ensures TwinStates(Capture(a, chunk), Capture(b, chunk), index, k)
  {
    hide TwinChoices, CaptureChoices;
    ChoicesTwins(a.merged, b.merged, index, k, chunk.choices);
  }

  lemma {:induction false} RunTwins(a: Snapshot, b: Snapshot, index: int, k: string, chunks: seq<Chunk>)
    requires TwinStates(a, b, index, k) && k != "finish_reason"
    ensures TwinStates(Run(a, chunks), Run(b, chunks), index, k)
  {
    hide TwinStates, Capture;
    if chunks != [] {
      var front := chunks[..|chunks| - 1];
      RunTwins(a, b, index, k, front);
      CaptureTwins(Run(a, front), Run(b, front), index, k, chunks[|chunks| - 1]);
    }
  }

  ghost predicate StringEntries(choices: seq<Choice>)
  {
    forall j | 0 <= j < |choices| :: StringDelta(choices[j].delta)
  }

  lemma {:induction false} StringsInEntries(chunks: seq<Chunk>)
    requires StringsOnly(chunks)
    ensures StringEntries(AllChoices(chunks))
  {
    if chunks != [] {
      var n := |chunks| - 1;
      StringsInEntries(chunks[..n]);
      forall j | 0 <= j < |chunks[n].choices|
        ensures StringDelta(chunks[n].choices[j].delta)
      {
      }
    }
  }

  lemma {:induction false} StringValues(delta: Dict, k: string)
    requires StringDelta(delta) && StringMergeKey(k)
    ensures AllText(ValuesOf(delta, k))
  {
    if delta != [] {
      StringValues(delta[..|delta| - 1], k);
    }
  }

  lemma {:induction false} StringsWritten(choices: seq<Choice>, index: int, k: string)
    requires StringEntries(choices) && StringMergeKey(k)
    ensures AllText(Written(choices, index, k))
  {
    hide Written, StringDelta, ValuesOf;
    if choices == [] {
      NothingWritten(index, k);
    } else {
      var front, c := choices[..|choices| - 1], choices[|choices| - 1];
      StringsWritten(front, index, k);
      StringValues(c.delta, k);
      WrittenSnoc(front, c, index, k);
      assert front + [c] == choices;
    }
  }

  lemma StringsBehind(before: seq<Chunk>, whole: Chunk, after: seq<Chunk>, i: nat, n: nat)
    requires StringsOnly(before + [whole] + after) && i < |whole.choices| && n < |whole.choices[i].delta|
    requires StringMergeKey(whole.choices[i].delta[n].key)
    ensures AllText(Behind(whole, i, n)) && StringsOnly(before + [whole]) && StringsOnly(after)
  {
    var all, c := before + [whole] + after, whole.choices[i];
    assert forall m | 0 <= m < |before + [whole]| :: all[m] == (before + [whole])[m];
    assert forall m | 0 <= m < |after| :: all[|before| + 1 + m] == after[m];
    assert all[|before|] == whole;
    forall j | i < j < |whole.choices|
      ensures StringDelta(whole.choices[j].delta)
    {
      assert StringDelta(all[|before|].choices[j].delta);
    }
    StringsWritten(whole.choices[i + 1..], c.index, c.delta[n].key);
  }

  /** Different texts stay different, whatever strings follow. */
  lemma StringsStayApart(a: Snapshot, b: Snapshot, index: int, k: string, chunks: seq<Chunk>)
    requires TwinStates(a, b, index, k) && StringMergeKey(k) && Run(a, chunks).ok && StringsOnly(chunks)
    requires Get(a.merged[index], k).value.Str? && Get(a.merged[index], k) != Get(b.merged[index], k)
    ensures FieldDiffers(Run(a, chunks), Run(b, chunks), index, k)
  {
    hide Run, AllChoices, CaptureChoices, Written, Get, TwinChoices, StringsOnly, FoldValues;
    RunTwins(a, b, index, k, chunks);
    Present(a, b, index, k);
    Present(Run(a, chunks), Run(b, chunks), index, k);
    RunIsCapture(a, chunks);
    RunIsCapture(b, chunks);
    ChoicesField(a.merged, AllChoices(chunks), index, k);
    ChoicesField(b.merged, AllChoices(chunks), index, k);
    StringsInEntries(chunks);
    StringsWritten(AllChoices(chunks), index, k);
    var x, y := Get(a.merged[index], k).value.s, Get(b.merged[index], k).value.s;
    var rest := Written(AllChoices(chunks), index, k);
    TextFolds(k, x, rest);
    TextFolds(k, y, rest);
    AppendApart(x, y, Concat(rest));
  }

  lemma AppendApart(x: string, y: string, rest: string)
    ensures x + rest == y + rest <==> x == y
  {
    if x + rest == y + rest {
      assert |x| == |y|;
      assert (x + rest)[..|x|] == x && (y + rest)[..|y|] == y;
    }
  }

  /** In a stream whose string fields carry strings only, a cut string changes the response, however the stream goes on,
      exactly when what the chunk still carries for the field does not commute with the rest. */
  lemma FragmentsOfStringsIff(before: seq<Chunk>, whole: Chunk, head: Chunk, tail: Chunk, after: seq<Chunk>,
      i: nat, n: nat, spot: Spot)
    requires CutHere(whole, head, tail, i, n, spot) && spot.InText? && WellFormedChoices(whole.choices)
    requires StringsOnly(before + [whole] + after)
    ensures AllText(Behind(whole, i, n))
    ensures SameResponse(before, whole, head, tail, after) <==> Commutes(spot.y, Concat(Behind(whole, i, n)))
  {
    var s, c, k := Run(EMPTY, before), whole.choices[i].index, whole.choices[i].delta[n].key;
    var a, b, t := Capture(s, whole), Capture(s, head), tail.choices[0].delta[0].value;
    CutIsText(whole, head, tail, i, n, spot);
    hide CutHere, StringsOnly, TidyStream, WellFormedChoices, Capture, Run, TwinStates, FoldValues, Assembled, Commutes,
      Behind, ListSoFar, FieldDiffers;
    StringsBehind(before, whole, after, i, n);
    NeverRaises(before + [whole]);
    NeverRaises(before + [whole] + after);
    RaisesIff(before + [whole]);
    CutInTidy(before, whole, head, tail, i, n, spot);
    hide SameResponse, Get, Concat, AllText;
    if Commutes(spot.y, Concat(Behind(whole, i, n))) {
      RestoredNeverShows(before, whole, head, tail, after, i, n, spot);
    } else {
      TailIs(whole, head, tail, i, n, spot);
      TextHeld(before, whole, head, tail, i, n, spot);
      RunSteps(before, whole, head, tail, after);
      LateTextShows(a, b, tail, c, k, t, after);
      DifferentResponse(before, whole, head, tail, after);
    }
  }

  lemma LateTextShows(a: Snapshot, b: Snapshot, tail: Chunk, index: int, k: string, t: Value, after: seq<Chunk>)
    requires TwinStates(a, b, index, k) && StringMergeKey(k) && a.ok && Run(a, after).ok && StringsOnly(after)
    requires t.Str? && tail == Chunk([], [Choice(index, [Field(k, t)], Null)], Null)
    requires Get(a.merged[index], k).Some? && Get(a.merged[index], k).value.Str?
    requires FieldValue(Get(b.merged[index], k), k, t) != Get(a.merged[index], k)
    ensures Assembled(Run(a, after)) != Assembled(Run(Capture(b, tail), after))
  {
    hide Run, StringsOnly, Assembled, Capture, FieldDiffers;
    Present(a, b, index, k);
    TailTwins(a, b, tail, index, k, t);
    StringsStayApart(a, Capture(b, tail), index, k, after);
    ResponseDiffers(Run(a, after), Run(Capture(b, tail), after), index, k);
  }

  lemma DifferentResponse(before: seq<Chunk>, whole: Chunk, head: Chunk, tail: Chunk, after: seq<Chunk>)
    requires var s := Run(EMPTY, before);
      Assembled(Run(Capture(s, whole), after)) != Assembled(Run(Capture(Capture(s, head), tail), after))
    ensures !SameResponse(before, whole, head, tail, after)
  {
    hide Run, Capture, Assembled;
    RunSteps(before, whole, head, tail, after);
  }

  lemma CutIsText(whole: Chunk, head: Chunk, tail: Chunk, i: nat, n: nat, spot: Spot)
    requires CutHere(whole, head, tail, i, n, spot) && spot.InText?
    ensures i < |whole.choices| && n < |whole.choices[i].delta|
    ensures StringMergeKey(whole.choices[i].delta[n].key) && tail.choices[0].delta[0].value == Str(spot.y)
    ensures whole.choices[i].delta[n].value.Str?
  {
  }

  /** The field holds a string after the whole. */
  lemma TextHeld(before: seq<Chunk>, whole: Chunk, head: Chunk, tail: Chunk, i: nat, n: nat, spot: Spot)
    requires CutHere(whole, head, tail, i, n, spot) && spot.InText? && WellFormedChoices(whole.choices)
    requires TidyStream(before + [whole]) && AllText(Behind(whole, i, n))
    ensures var a := Capture(Run(EMPTY, before), whole);
      var c, k := whole.choices[i].index, whole.choices[i].delta[n].key;
      c in a.merged && Get(a.merged[c], k).Some? && Get(a.merged[c], k).value.Str?
  {
    hide Capture, Run, TidyStream, WellFormedChoices, Behind, TwinChoices;
    TidyTwins(before, whole, head, tail, i, n, spot);
    CutIsText(whole, head, tail, i, n, spot);
    var s, c, k := Run(EMPTY, before), whole.choices[i].index, whole.choices[i].delta[n].key;
    Present(Capture(s, whole), Capture(s, head), c, k);
    var r := FieldValue(Prior(s.merged, whole, i, n), k, whole.choices[i].delta[n].value);
    TextFolds(k, r.value.s, Behind(whole, i, n));
  }
}
