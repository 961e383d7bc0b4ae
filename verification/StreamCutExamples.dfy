/** Streams whose assembled response shows where a text was cut. */
module StreamCutExamples {
  import opened Json
  import opened JsonEquality
  import opened StreamMerge
  import opened StreamSplit
  import opened StreamTexts
  import opened StreamFragments
  import opened StreamProjection
  import opened StreamRaises
  import opened StreamCuts
  import opened StreamBoundaries

  ghost function Blocked(text: string): Chunk
  {
    Plain(Choice(0, [Field("content", Str(text)), Field("reasoning", Str("c"))], Null))
  }

  ghost function Number(): Chunk
  {
    Plain(Choice(0, [Field("reasoning", Num("1"))], Null))
  }

  lemma BlockedRaises(text: string, rest: Chunk)
    ensures var s := Run(EMPTY, [Number()] + [Blocked(text)]);
      && !s.ok && 0 in s.merged && Get(s.merged[0], "content") == Some(Str(text))
      && Run(EMPTY, [Number()] + [Blocked(text), rest]) == s
  {
    hide Get, Set;
    var number, later := Field("reasoning", Num("1")), Field("reasoning", Str("c"));
    var content := Field("content", Str(text));
    LaterRaises(number, content, later);
    MergeDeltaOne([], number);
    NumberStored(number);
    RunOne(EMPTY, Choice(0, [number], Null));
    RunOne(Run(EMPTY, [Number()]), Choice(0, [content, later], Null));
    RunAppend(EMPTY, [Number()], [Blocked(text)]);
    RunAppend(EMPTY, [Number()] + [Blocked(text)], [rest]);
    RunAfterRaise(Run(EMPTY, [Number()] + [Blocked(text)]), [rest]);
    assert [Number()] + [Blocked(text)] + [rest] == [Number()] + [Blocked(text), rest];
  }

  lemma NumberStored(number: Field)
    requires number == Field("reasoning", Num("1"))
    ensures MergeField([], number.key, number.value) == Merged([number], true)
  {
  }

  lemma BlockedIsCut(x: string, y: string)
    requires y != ""
    ensures CutHere(Blocked(x + y), Blocked(x), Plain(Choice(0, [Field("content", Str(y))], Null)), 0, 0, InText(x, y))
  {
  }

  /** When a later field of the same delta raises, the whole fragment is already stored, but of a cut one only the
      head. */
  lemma RaiseKeepsOnlyTheHead() returns (before: seq<Chunk>, whole: Chunk, head: Chunk, tail: Chunk)
    ensures CutHere(whole, head, tail, 0, 0, InText("a", "b"))
    ensures !Run(EMPTY, before + [whole]).ok
    ensures Get(MergedAt(Run(EMPTY, before + [whole]).merged, 0), "content") == Some(Str("ab"))
    ensures Get(MergedAt(Run(EMPTY, before + [head, tail]).merged, 0), "content") == Some(Str("a"))
    ensures forall after :: !SameResponse(before, whole, head, tail, after)
  {
    before, whole, head := [Number()], Blocked("ab"), Blocked("a");
    tail := Plain(Choice(0, [Field("content", Str("b"))], Null));
    BlockedRaises("ab", tail);
    BlockedRaises("a", tail);
    assert "a" + "b" == "ab";
    BlockedIsCut("a", "b");
    hide Run, Get, Blocked, Plain;
    forall after
      ensures !SameResponse(before, whole, head, tail, after)
    {
      RaisedApart(before, whole, head, tail, after);
    }
  }

  lemma RaisedApart(before: seq<Chunk>, whole: Chunk, head: Chunk, tail: Chunk, after: seq<Chunk>)
    requires var a, b := Run(EMPTY, before + [whole]), Run(EMPTY, before + [head, tail]);
      !a.ok && !b.ok && FieldDiffers(a, b, 0, "content")
    ensures !SameResponse(before, whole, head, tail, after)
  {
    hide Run, Assembled, FieldDiffers;
    RunAppend(EMPTY, before + [whole], after);
    RunAppend(EMPTY, before + [head, tail], after);
    RunAfterRaise(Run(EMPTY, before + [whole]), after);
    RunAfterRaise(Run(EMPTY, before + [head, tail]), after);
    ResponseDiffers(Run(EMPTY, before + [whole]), Run(EMPTY, before + [head, tail]), 0, "content");
  }

  ghost function Plain(c: Choice): Chunk
  {
    Chunk([], [c], Null)
  }

  lemma RunOne(s: Snapshot, c: Choice)
    requires s.ok
    ensures var after := CaptureChoice(s.merged, c);
      Run(s, [Plain(c)]) == Snapshot(s.recorded + 1, after.merged, s.usage, s.extra, after.ok)
  {
    assert [Plain(c)][..0] == [];
    CaptureOne(s.merged, c);
  }

  lemma LaterRaises(number: Field, text: Field, later: Field)
    requires number == Field("reasoning", Num("1")) && later.key == "reasoning" && later.value.Str?
    requires text.key == "content" && text.value.Str?
    ensures !MergeDelta([number], [text, later]).ok
    ensures Get(MergeDelta([number], [text, later]).fields, "content") == Some(text.value)
  {
    TwoFields([number], text, later);
    assert Get([number], "content") == None;
    GetSet([number], "content", text.value, "content");
    GetSet([number], "content", text.value, "reasoning");
  }

  lemma TwoFields(m: Dict, f: Field, g: Field)
    ensures MergeDelta(m, [f, g]) ==
      var first := MergeField(m, f.key, f.value); if first.ok then MergeField(first.fields, g.key, g.value) else first
  {
    assert [f, g][..1] == [f];
    MergeDeltaOne(m, f);
  }

  // ----- a later entry for the same choice

  function Says(text: string): Choice
  {
    Choice(0, [Field("content", Str(text))], Null)
  }

  lemma SaysOne(front: seq<Choice>, text: string)
    ensures Written(front + [Says(text)], 0, "content") == Written(front, 0, "content") + [Str(text)]
  {
    var d := Says(text).delta;
    WrittenSnoc(front, Says(text), 0, "content");
    assert d[..0] == [] && ValuesOf([], "content") == [];
    assert ValuesOf(d, "content") == [Str(text)];
  }

  lemma Said(entries: seq<Choice>, a: string, b: string)
    requires entries == [Says(a), Says(b)]
    ensures Written(entries, 0, "content") == [Str(a), Str(b)]
  {
    hide Written, Says;
    NothingWritten(0, "content");
    SaysOne([], a);
    SaysOne([Says(a)], b);
    assert [] + [Says(a)] == [Says(a)] && [Says(a)] + [Says(b)] == entries;
  }

  lemma ContentIs(chunks: seq<Chunk>, values: seq<Value>)
    requires StringsOnly(chunks) && values == Written(AllChoices(chunks), 0, "content")
    requires values != [] && AllText(values)
    ensures Get(MergedAt(Run(EMPTY, chunks).merged, 0), "content") == Some(Str(Concat(values)))
  {
    NeverRaises(chunks);
    StringReassembly(chunks, 0, "content");
  }

  lemma Join2(a: string, b: string)
    ensures Concat([Str(a), Str(b)]) == a + b
  {
    assert [Str(a), Str(b)][..1] == [Str(a)] && [Str(a)][..0] == [];
    assert Concat([Str(a)]) == "" + a == a;
  }

  lemma Join3(a: string, b: string, c: string)
    ensures Concat([Str(a), Str(b), Str(c)]) == a + b + c
  {
    Join2(a, b);
    assert [Str(a), Str(b), Str(c)][..2] == [Str(a), Str(b)];
  }

  lemma TwoEntries(chunk: Chunk)
    ensures AllChoices([chunk]) == chunk.choices
  {
    assert [chunk][..0] == [];
  }

  lemma TwoChunks(head: Chunk, tail: Chunk)
    ensures AllChoices([head, tail]) == head.choices + tail.choices
  {
    TwoEntries(head);
    assert [head, tail][..1] == [head];
  }

  function Pair(a: string, b: string): Chunk
  {
    Chunk([], [Says(a), Says(b)], Null)
  }

  function Rest(text: string): Chunk
  {
    Chunk([], [Says(text)], Null)
  }

  lemma PairContent(a: string, b: string)
    ensures StringsOnly([Pair(a, b)])
    ensures Get(MergedAt(Run(EMPTY, [Pair(a, b)]).merged, 0), "content") == Some(Str(a + b))
  {
    TwoEntries(Pair(a, b));
    Said(Pair(a, b).choices, a, b);
    Join2(a, b);
    hide Run, Get, Written, AllChoices, Concat;
    ContentIs([Pair(a, b)], [Str(a), Str(b)]);
  }

  lemma PairWritten(a: string, b: string, c: string)
    ensures Written(AllChoices([Pair(a, b), Rest(c)]), 0, "content") == [Str(a), Str(b), Str(c)]
  {
    TwoChunks(Pair(a, b), Rest(c));
    Said(Pair(a, b).choices, a, b);
    SaysOne(Pair(a, b).choices, c);
    hide Written, AllChoices;
    assert [Str(a), Str(b)] + [Str(c)] == [Str(a), Str(b), Str(c)];
  }

  lemma PairAndRest(a: string, b: string, c: string)
    ensures StringsOnly([Pair(a, b), Rest(c)])
    ensures Get(MergedAt(Run(EMPTY, [Pair(a, b), Rest(c)]).merged, 0), "content") == Some(Str(a + b + c))
  {
    PairWritten(a, b, c);
    Join3(a, b, c);
    hide Run, Get, Written, AllChoices, Concat;
    ContentIs([Pair(a, b), Rest(c)], [Str(a), Str(b), Str(c)]);
  }

  lemma PairIsCut(x: string, y: string, b: string)
    requires y != ""
    ensures CutHere(Pair(x + y, b), Pair(x, b), Rest(y), 0, 0, InText(x, y))
    ensures WellFormedChoices(Pair(x + y, b).choices)
  {
    assert WellFormedField(Field("content", Str(x + y))) && WellFormedField(Field("content", Str(b)));
  }

  /** Two entries for one choice: a cut in the first does not show exactly when the rest commutes with the second. */
  lemma PairShows(x: string, y: string, b: string)
    requires y != ""
    ensures SameResponse([], Pair(x + y, b), Pair(x, b), Rest(y), []) <==> Commutes(y, b)
  {
    PairIsCut(x, y, b);
    PairContent(x + y, b);
    OneBehind(Pair(x + y, b), b);
    hide Run, Get, StringsOnly, Pair, Rest, CutHere, WellFormedChoices, Behind, Concat, Commutes;
    assert [] + [Pair(x + y, b)] + [] == [Pair(x + y, b)];
    FragmentsOfStringsIff([], Pair(x + y, b), Pair(x, b), Rest(y), [], 0, 0, InText(x, y));
  }

  /** "ab" and "c" for the same choice in one chunk, and nothing raises: cut after "a", the response reads "acb". */
  lemma LaterEntryReorders()
    ensures CutHere(Pair("ab", "c"), Pair("a", "c"), Rest("b"), 0, 0, InText("a", "b"))
    ensures StringsOnly([Pair("ab", "c")]) && StringsOnly([Pair("a", "c"), Rest("b")])
    ensures Get(MergedAt(Run(EMPTY, [Pair("ab", "c")]).merged, 0), "content") == Some(Str("abc"))
    ensures Get(MergedAt(Run(EMPTY, [Pair("a", "c"), Rest("b")]).merged, 0), "content") == Some(Str("acb"))
    ensures !SameResponse([], Pair("ab", "c"), Pair("a", "c"), Rest("b"), [])
  {
    assert "a" + "b" == "ab" && "ab" + "c" == "abc" && "a" + "c" + "b" == "acb";
    PairIsCut("a", "b", "c");
    PairContent("ab", "c");
    PairAndRest("a", "c", "b");
    assert ("b" + "c")[0] == 'b' && ("c" + "b")[0] == 'c';
    PairShows("a", "b", "c");
  }

  lemma OneBehind(whole: Chunk, text: string)
    requires |whole.choices| == 2 && whole.choices[1] == Says(text) && whole.choices[0].index == 0
    requires whole.choices[0].delta != [] && whole.choices[0].delta[0].key == "content"
    ensures Behind(whole, 0, 0) == [Str(text)] && Concat([Str(text)]) == text
  {
    NothingWritten(0, "content");
    SaysOne([], text);
    assert whole.choices[1..] == [] + [Says(text)];
    assert [Str(text)][..0] == [] && Concat([Str(text)]) == "" + text == text;
  }

  // ----- a repeated index

  function Call(text: string): Value
  {
    Obj([Field("index", Num("0")), Field("arguments", Str(text))])
  }

  lemma CallIndex(text: string)
    ensures ItemIndex(Call(text)) == Num("0") && Get(Call(text).fields, "arguments") == Some(Str(text))
    ensures DistinctKeys(Call(text).fields)
  {
    assert Call(text).fields[1..] == [Field("arguments", Str(text))];
  }

  lemma CallIsCut(x: string, y: string)
    ensures CutItem(Call(x + y), Call(x), Call(y), ["arguments"], x, y)
  {
    var w, h, t := Call(x + y).fields, Call(x).fields, Call(y).fields[1..];
    CallIndex(x + y);
    assert t == [Field("arguments", Str(y))];
    assert CutAt(w, h, t, ["arguments"], x, y, 1);
  }

  lemma CallText(text: string)
    ensures DistinctAlong(Call(text).fields, ["arguments"]) && Textual(Call(text).fields, ["arguments"])
    ensures Texts([Call(text)], Num("0"), ["arguments"]) == text
  {
    CallIndex(text);
    assert [Call(text)][..0] == [];
    assert Texts([Call(text)], Num("0"), ["arguments"]) == "" + text == text;
  }

  /** Two items with the same index in one list, merged into any list: cut inside the first, the texts change places. */
  lemma LaterItemReorders(e: seq<Value>)
    ensures MergeItem(MergeItems(e, [Call("a"), Call("c")]), Call("b")) != MergeItems(e, [Call("ab"), Call("c")])
  {
    var q, more: seq<Value> := [Call("c")], [];
    CallIsCut("a", "b");
    CallText("c");
    assert q + more == q && "a" + "b" == "ab";
    assert [] + ([Call("ab")] + q) == [Call("ab"), Call("c")] && [] + ([Call("a")] + q) == [Call("a"), Call("c")];
    hide MergeItem, CutItem, Textual, DistinctAlong, Texts;
    CallIndex("ab");
    CallIndex("c");
    CutListIff(e, [], q, Call("ab"), Call("a"), Call("b"), ["arguments"], "a", "b", more);
    assert ("b" + "c")[0] == 'b' && ("c" + "b")[0] == 'c';
  }

  /** A first list is stored as it came: when it repeats an index, the rest of a cut item goes to the entry before. */
  lemma FirstListMisplaces()
    ensures MergeItem([Call("x"), Call("a")], Call("b")) != [Call("x"), Call("ab")]
  {
    var none: seq<Value> := [];
    CallIsCut("a", "b");
    assert "a" + "b" == "ab";
    assert [Call("x")] + ([Call("ab")] + none) == [Call("x"), Call("ab")];
    assert [Call("x")] + ([Call("a")] + none) == [Call("x"), Call("a")];
    hide MergeItem, CutItem;
    CallIndex("x");
    CallIndex("ab");
    CutFirstListIff([Call("x")], none, Call("ab"), Call("a"), Call("b"), ["arguments"], "a", "b", none);
  }
}
