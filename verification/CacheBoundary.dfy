/** Where the provider's prompt cache ends among a request's messages. Numbers are reals. */
module CacheBoundary {
  import opened Reals

  datatype Encoding = O200kBase | Cl100kBase | CharBased

  datatype CacheStatus = Cached | Partial | Uncached

  datatype MessageCacheInfo = MessageCacheInfo(index: nat, cacheStatus: CacheStatus, cachedFraction: real)

  const PER_MESSAGE_OVERHEAD := 4

  function DriftTolerance(encoding: Encoding): real
  {
    if encoding == CharBased then 0.50 else 0.15
  }

  /** `Math.round`: halves go up. */
  function Round(x: real): int
  {
    (x + 0.5).Floor
  }

  function Abs(x: real): real
  {
    if x < 0.0 then -x else x
  }

  // ----- scaling the estimates to the billed total

  function Raw(tokens: seq<nat>): (r: seq<nat>)
    ensures |r| == |tokens|
    ensures forall i | 0 <= i < |r| :: r[i] == tokens[i] + PER_MESSAGE_OVERHEAD
  {
    seq(|tokens|, i requires 0 <= i < |tokens| => tokens[i] + PER_MESSAGE_OVERHEAD)
  }

  function Sum(s: seq<int>): int
  {
    if s == [] then 0 else Sum(s[..|s| - 1]) + s[|s| - 1]
  }

  /** The estimate for the whole prompt. */
  function EstimatedTotal(tokens: seq<nat>, overhead: nat): int
  {
    Sum(Raw(tokens)) + overhead
  }

  function Factor(tokens: seq<nat>, overhead: nat, totalInputTokens: real): real
  {
    var estTotal := EstimatedTotal(tokens, overhead);
    if totalInputTokens > 0.0 && estTotal > 0 then totalInputTokens / estTotal as real else 1.0
  }

  function ScaleOne(count: int, factor: real): int
  {
    Round(count as real * factor)
  }

  function ScaleAll(counts: seq<int>, factor: real): (r: seq<int>)
    ensures |r| == |counts| && forall i | 0 <= i < |r| :: r[i] == ScaleOne(counts[i], factor)
  {
    seq(|counts|, i requires 0 <= i < |counts| => ScaleOne(counts[i], factor))
  }

  function Scaled(tokens: seq<nat>, overhead: nat, totalInputTokens: real): seq<int>
  {
    ScaleAll(Raw(tokens), Factor(tokens, overhead, totalInputTokens))
  }

  function ScaledOverhead(tokens: seq<nat>, overhead: nat, totalInputTokens: real): int
  {
    ScaleOne(overhead, Factor(tokens, overhead, totalInputTokens))
  }

  /** The count at full precision. */
  function Exact(count: int, factor: real): real
  {
    count as real * factor
  }

  ghost predicate Near(x: int, y: real, n: nat)
  {
    Abs(x as real - y) <= 0.5 * n as real
  }

  lemma ScaleOneNear(count: int, factor: real)
    ensures Near(ScaleOne(count, factor), Exact(count, factor), 1)
  {
  }

  lemma Distribute(x: real, y: real, f: real)
    ensures (x + y) * f == x * f + y * f
  {
  }

  lemma QuotientTimes(x: real, y: real)
    requires y > 0.0
    ensures y * (x / y) == x
  {
  }

  lemma AddNear(x: int, a: real, n: nat, y: int, b: real)
    requires Near(x, a, n) && Near(y, b, 1)
    ensures Near(x + y, a + b, n + 1)
  {
  }

  lemma ExactSum(a: int, b: int, factor: real)
    ensures Exact(a + b, factor) == Exact(a, factor) + Exact(b, factor)
  {
    Distribute(a as real, b as real, factor);
  }

  lemma {:induction false} ScaledSum(counts: seq<int>, factor: real)
    ensures Near(Sum(ScaleAll(counts, factor)), Exact(Sum(counts), factor), |counts|)
  {
    if counts == [] {
      assert ScaleAll(counts, factor) == [];
    } else {
      ScaledSum(counts[..|counts| - 1], factor);
      ScaledSumStep(counts, factor);
    }
  }

  lemma ScaledSumStep(counts: seq<int>, factor: real)
    requires counts != []
    requires var front := counts[..|counts| - 1];
      Near(Sum(ScaleAll(front, factor)), Exact(Sum(front), factor), |front|)
    ensures Near(Sum(ScaleAll(counts, factor)), Exact(Sum(counts), factor), |counts|)
  {
    var front, c := counts[..|counts| - 1], counts[|counts| - 1];
    assert ScaleAll(counts, factor)[..|counts| - 1] == ScaleAll(front, factor);
    ScaleOneNear(c, factor);
    ExactSum(Sum(front), c, factor);
    AddNear(Sum(ScaleAll(front, factor)), Exact(Sum(front), factor), |front|, ScaleOne(c, factor), Exact(c, factor));
  }

  lemma {:induction false} RawPositive(tokens: seq<nat>)
    ensures Sum(Raw(tokens)) >= PER_MESSAGE_OVERHEAD * |tokens|
  {
    if tokens != [] {
      RawPositive(tokens[..|tokens| - 1]);
      assert Raw(tokens)[..|tokens| - 1] == Raw(tokens[..|tokens| - 1]);
    }
  }

  /** Scaled message counts and scaled overhead add up to the billed total, up to one rounding each. */
  lemma ScalingError(tokens: seq<nat>, overhead: nat, totalInputTokens: real)
    requires totalInputTokens > 0.0 && (tokens != [] || overhead > 0)
    ensures Near(Sum(Scaled(tokens, overhead, totalInputTokens)) + ScaledOverhead(tokens, overhead, totalInputTokens),
                 totalInputTokens, |tokens| + 1)
  {
    RawPositive(tokens);
    var f := Factor(tokens, overhead, totalInputTokens);
    ScaledSum(Raw(tokens), f);
    ScaleOneNear(overhead, f);
    ExactSum(Sum(Raw(tokens)), overhead, f);
    AddNear(Sum(Scaled(tokens, overhead, totalInputTokens)), Exact(Sum(Raw(tokens)), f), |tokens|,
      ScaleOne(overhead, f), Exact(overhead, f));
    WholeFactor(EstimatedTotal(tokens, overhead), totalInputTokens);
  }

  lemma WholeFactor(est: int, total: real)
    requires est > 0
    ensures Exact(est, total / est as real) == total
  {
    QuotientTimes(total, est as real);
  }

  lemma {:induction false} ScaledNonNegative(tokens: seq<nat>, overhead: nat, totalInputTokens: real)
    ensures forall i | 0 <= i < |Scaled(tokens, overhead, totalInputTokens)| ::
      Scaled(tokens, overhead, totalInputTokens)[i] >= 0
  {
    var f := Factor(tokens, overhead, totalInputTokens);
    forall i | 0 <= i < |tokens| ensures Scaled(tokens, overhead, totalInputTokens)[i] >= 0 {
      ProductNonNegative(Raw(tokens)[i] as real, f);
    }
  }

  lemma ProductNonNegative(x: real, y: real)
    requires x >= 0.0 && y >= 0.0
    ensures x * y >= 0.0
  {
  }

  // ----- where the walk stops

  /** Tokens of the first `n` messages. */
  function Prefix(scaled: seq<int>, n: nat): real
    requires n <= |scaled|
  {
    if n == 0 then 0.0 else Prefix(scaled, n - 1) + scaled[n - 1] as real
  }

  /** How far past message `i` the cache may reach and still be taken to end with it. */
  function Slack(count: int, drift: real): real
  {
    count as real * drift
  }

  /** Which part of a message lies before the end of the cache. */
  function Share(count: int, before: real, cached: real): real
  {
    if count > 0 then (cached - before) / count as real else 0.0
  }

  /** The walk ends at message `i`: the cache ends inside it, exactly after it, or so little after it that the
      difference is put down to the estimate. */
  predicate StopsAt(scaled: seq<int>, cached: real, drift: real, i: nat)
    requires i < |scaled|
  {
    var cumul := Prefix(scaled, i + 1);
    || cumul >= cached
    || (i < |scaled| - 1 && cached - cumul < Slack(scaled[i], drift))
  }

  /** The first stop at or after `i`, or the number of messages. */
  function Stop(scaled: seq<int>, cached: real, drift: real, i: nat): (b: nat)
    requires i <= |scaled|
    ensures i <= b <= |scaled| && (b < |scaled| ==> StopsAt(scaled, cached, drift, b))
    ensures forall j | i <= j < b :: !StopsAt(scaled, cached, drift, j)
    decreases |scaled| - i
  {
    if i == |scaled| || StopsAt(scaled, cached, drift, i) then i else Stop(scaled, cached, drift, i + 1)
  }

  function Classify(fraction: real, driftTolerance: real): (CacheStatus, real)
  {
    if fraction >= 1.0 - driftTolerance then (Cached, 1.0)
    else if fraction <= driftTolerance then (Uncached, 0.0)
    else (Partial, fraction)
  }

  /** How much of message `i` is cached, when the walk stops at `b`. */
  function Verdict(scaled: seq<int>, cached: real, drift: real, b: nat, i: nat): (CacheStatus, real)
    requires i < |scaled|
  {
    if i < b then (Cached, 1.0)
    else if i > b then (Uncached, 0.0)
    else if Prefix(scaled, b + 1) <= cached then (Cached, 1.0)
    else Classify(Share(scaled[b], Prefix(scaled, b), cached), drift)
  }

  function Info(scaled: seq<int>, cached: real, drift: real, b: nat, i: nat): MessageCacheInfo
    requires i < |scaled|
  {
    var v := Verdict(scaled, cached, drift, b, i);
    MessageCacheInfo(i, v.0, v.1)
  }

  /** The cached tokens left for the messages. */
  function CachedForMessages(tokens: seq<nat>, cachedTokens: real, totalInputTokens: real, overhead: nat): real
  {
    Max(0.0, cachedTokens - ScaledOverhead(tokens, overhead, totalInputTokens) as real)
  }

  function AllUncached(n: nat): seq<MessageCacheInfo>
  {
    seq(n, i requires 0 <= i < n => MessageCacheInfo(i, Uncached, 0.0))
  }

  /** What each message shows. */
  function Attribution(tokens: seq<nat>, cachedTokens: real, totalInputTokens: real, encoding: Encoding,
      overhead: nat): (r: seq<MessageCacheInfo>)
    ensures |r| == |tokens|
  {
    if cachedTokens <= 0.0 then AllUncached(|tokens|)
    else
      var scaled, drift := Scaled(tokens, overhead, totalInputTokens), DriftTolerance(encoding);
      var cached := CachedForMessages(tokens, cachedTokens, totalInputTokens, overhead);
      var b := Stop(scaled, cached, drift, 0);
      seq(|scaled|, i requires 0 <= i < |scaled| => Info(scaled, cached, drift, b, i))
  }

  function Boundary(tokens: seq<nat>, cachedTokens: real, totalInputTokens: real, encoding: Encoding,
      overhead: nat): int
  {
    if cachedTokens <= 0.0 then -1
    else
      var scaled := Scaled(tokens, overhead, totalInputTokens);
      var b := Stop(scaled, CachedForMessages(tokens, cachedTokens, totalInputTokens, overhead),
        DriftTolerance(encoding), 0);
      if b == |scaled| then -1 else b
  }

  // ----- the walk itself

  method FillUncached(result: seq<MessageCacheInfo>, from: nat, to: nat) returns (r: seq<MessageCacheInfo>)
    requires |result| == from <= to
    ensures |r| == to && r[..from] == result
    ensures forall j | from <= j < to :: r[j] == MessageCacheInfo(j, Uncached, 0.0)
  {
    r := result;
    var j := from;
    while j < to
      invariant from <= j <= to && |r| == j && r[..from] == result
      invariant forall k | from <= k < j :: r[k] == MessageCacheInfo(k, Uncached, 0.0)
    {
      r := r + [MessageCacheInfo(j, Uncached, 0.0)];
      j := j + 1;
    }
  }

  method ComputeCacheBoundary(tokens: seq<nat>, cachedTokens: real, totalInputTokens: real, encoding: Encoding,
      overhead: nat)
    returns (messages: seq<MessageCacheInfo>, boundaryIndex: int)
    ensures messages == Attribution(tokens, cachedTokens, totalInputTokens, encoding, overhead)
    ensures boundaryIndex == Boundary(tokens, cachedTokens, totalInputTokens, encoding, overhead)
  {
    if cachedTokens <= 0.0 || |tokens| == 0 {
      return AllUncached(|tokens|), -1;
    }
    var drift := DriftTolerance(encoding);
    var scaled := Scaled(tokens, overhead, totalInputTokens);
    var cachedForMsgs := CachedForMessages(tokens, cachedTokens, totalInputTokens, overhead);
    messages, boundaryIndex := WalkMessages(scaled, cachedForMsgs, drift);
  }

  /** The entries up to and including the stop, then uncached ones. */
  ghost predicate Walked(scaled: seq<int>, cached: real, drift: real, result: seq<MessageCacheInfo>, boundaryIndex: int)
  {
    var b := Stop(scaled, cached, drift, 0);
    && boundaryIndex == (if b == |scaled| then -1 else b)
    && |result| == |scaled|
    && forall i | 0 <= i < |scaled| :: result[i] == Info(scaled, cached, drift, b, i)
  }

  lemma StopHere(scaled: seq<int>, cached: real, drift: real, i: nat, result: seq<MessageCacheInfo>,
      r: seq<MessageCacheInfo>)
    requires i < |scaled| && Stop(scaled, cached, drift, 0) == i
    requires |result| == i + 1 && (forall j | 0 <= j < i :: result[j] == MessageCacheInfo(j, Cached, 1.0))
    requires result[i] == Info(scaled, cached, drift, i, i)
    requires |r| == |scaled| && r[..i + 1] == result
    requires forall j | i + 1 <= j < |scaled| :: r[j] == MessageCacheInfo(j, Uncached, 0.0)
    ensures Walked(scaled, cached, drift, r, i)
  {
    forall j | 0 <= j < |scaled| ensures r[j] == Info(scaled, cached, drift, i, j) {
      if j <= i { assert r[j] == r[..i + 1][j]; }
    }
  }

  method WalkMessages(scaled: seq<int>, cachedForMsgs: real, drift: real)
    returns (result: seq<MessageCacheInfo>, boundaryIndex: int)
    ensures Walked(scaled, cachedForMsgs, drift, result, boundaryIndex)
  {
    result, boundaryIndex := [], -1;
    var cumul := 0.0;
    var i := 0;
    while i < |scaled|
      invariant 0 <= i <= |scaled| && cumul == Prefix(scaled, i) && boundaryIndex == -1
      invariant Stop(scaled, cachedForMsgs, drift, 0) == Stop(scaled, cachedForMsgs, drift, i)
      invariant |result| == i && forall j | 0 <= j < i :: result[j] == MessageCacheInfo(j, Cached, 1.0)
    {
      var prev := cumul;
      cumul := cumul + scaled[i] as real;
      assert cumul == Prefix(scaled, i + 1);
      if cumul <= cachedForMsgs {
        result := result + [MessageCacheInfo(i, Cached, 1.0)];
        var gap := cachedForMsgs - cumul;
        if cumul == cachedForMsgs || (i < |scaled| - 1 && gap > 0.0 && gap < Slack(scaled[i], drift)) {
          boundaryIndex := i;
          ghost var listed := result;
          result := FillUncached(result, i + 1, |scaled|);
          StopHere(scaled, cachedForMsgs, drift, i, listed, result);
          return;
        }
      } else {
        var frac := Share(scaled[i], prev, cachedForMsgs);
        var cls := Classify(frac, drift);
        result := result + [MessageCacheInfo(i, cls.0, cls.1)];
        boundaryIndex := i;
        ghost var listed := result;
        result := FillUncached(result, i + 1, |scaled|);
        StopHere(scaled, cachedForMsgs, drift, i, listed, result);
        return;
      }
      i := i + 1;
    }
  }

  // ----- shape

  /** All cached up to the stop, anything at the stop, nothing cached after it; fractions agree with the status. */
  ghost predicate Shaped(messages: seq<MessageCacheInfo>, b: nat)
  {
    forall i | 0 <= i < |messages| ::
      && messages[i].index == i && 0.0 <= messages[i].cachedFraction <= 1.0
      && (messages[i].cacheStatus == Cached <==> messages[i].cachedFraction == 1.0)
      && (messages[i].cacheStatus == Uncached <==> messages[i].cachedFraction == 0.0)
      && (i < b ==> messages[i].cacheStatus == Cached)
      && (i > b ==> messages[i].cacheStatus == Uncached)
  }

  lemma ClassifyShape(fraction: real, drift: real)
    requires 0.0 < drift <= 0.5
    ensures var v := Classify(fraction, drift);
      0.0 <= v.1 <= 1.0 && (v.0 == Cached <==> v.1 == 1.0) && (v.0 == Uncached <==> v.1 == 0.0)
  {
  }

  /** The result has one entry per message: cached ones, then at most one entry of any kind, then uncached ones. */
  lemma Shape(tokens: seq<nat>, cachedTokens: real, totalInputTokens: real, encoding: Encoding, overhead: nat)
    returns (b: nat)
    ensures |Attribution(tokens, cachedTokens, totalInputTokens, encoding, overhead)| == |tokens|
    ensures cachedTokens > 0.0 ==> Shaped(Attribution(tokens, cachedTokens, totalInputTokens, encoding, overhead), b)
    ensures cachedTokens > 0.0 ==>
      Boundary(tokens, cachedTokens, totalInputTokens, encoding, overhead) == if b == |tokens| then -1 else b
    ensures cachedTokens <= 0.0 ==> forall i | 0 <= i < |tokens| ::
      Attribution(tokens, cachedTokens, totalInputTokens, encoding, overhead)[i] == MessageCacheInfo(i, Uncached, 0.0)
  {
    var scaled, drift := Scaled(tokens, overhead, totalInputTokens), DriftTolerance(encoding);
    var cached := CachedForMessages(tokens, cachedTokens, totalInputTokens, overhead);
    b := Stop(scaled, cached, drift, 0);
    if b < |scaled| {
      ClassifyShape(Share(scaled[b], Prefix(scaled, b), cached), drift);
    }
  }

  /** With the character-based estimate half a message is the tolerance both ways, so nothing is ever partial. */
  lemma CharBasedIsAllOrNothing(tokens: seq<nat>, cachedTokens: real, totalInputTokens: real, overhead: nat)
    ensures forall i | 0 <= i < |tokens| ::
      Attribution(tokens, cachedTokens, totalInputTokens, CharBased, overhead)[i].cacheStatus != Partial
  {
  }

  // ----- how far the attribution is off

  /** Tokens counted as cached in the first `n` messages. */
  ghost function Attributed(scaled: seq<int>, cached: real, drift: real, b: nat, n: nat): real
    requires n <= |scaled|
  {
    if n == 0 then 0.0
    else
      Attributed(scaled, cached, drift, b, n - 1) + scaled[n - 1] as real * Verdict(scaled, cached, drift, b, n - 1).1
  }

  lemma {:induction false} AttributedBefore(scaled: seq<int>, cached: real, drift: real, b: nat, n: nat)
    requires n <= b <= |scaled|
    ensures Attributed(scaled, cached, drift, b, n) == Prefix(scaled, n)
  {
    if n > 0 { AttributedBefore(scaled, cached, drift, b, n - 1); }
  }

  lemma {:induction false} AttributedAfter(scaled: seq<int>, cached: real, drift: real, b: nat, n: nat)
    requires b < n <= |scaled|
    ensures Attributed(scaled, cached, drift, b, n) ==
      Prefix(scaled, b) + scaled[b] as real * Verdict(scaled, cached, drift, b, b).1
  {
    if n == b + 1 {
      AttributedBefore(scaled, cached, drift, b, b);
    } else {
      AttributedAfter(scaled, cached, drift, b, n - 1);
    }
  }

  /** Snapping a share to all or nothing moves it by no more than the tolerance. */
  lemma SnapError(count: real, share: real, drift: real)
    requires count >= 0.0 && 0.0 <= share <= 1.0 && 0.0 < drift <= 0.5
    ensures Abs(count * Classify(share, drift).1 - count * share) <= count * drift
  {
    var frac := Classify(share, drift).1;
    assert -drift <= frac - share <= drift;
    Scale(count, frac - share, drift);
    Scale(count, share - frac, drift);
    assert count * (frac - share) == count * frac - count * share;
    assert count * (share - frac) == count * share - count * frac;
  }

  lemma Scale(x: real, y: real, z: real)
    requires x >= 0.0 && y <= z
    ensures x * y <= x * z
  {
  }

  /** The walk has not passed the end of the cache when it reaches its stop. */
  lemma PrefixAtStop(scaled: seq<int>, cached: real, drift: real, b: nat)
    requires cached >= 0.0 && b == Stop(scaled, cached, drift, 0)
    ensures Prefix(scaled, b) <= cached
    ensures b > 0 ==> Prefix(scaled, b) < cached
  {
    if b > 0 { assert !StopsAt(scaled, cached, drift, b - 1); }
  }

  lemma ShareExact(count: int, before: real, cached: real)
    requires before <= cached < before + count as real
    ensures 0.0 <= Share(count, before, cached) < 1.0
    ensures count as real * Share(count, before, cached) == cached - before
  {
    var c := count as real;
    QuotientTimes(cached - before, c);
    if Share(count, before, cached) >= 1.0 { Scale(c, 1.0, Share(count, before, cached)); }
    if Share(count, before, cached) < 0.0 { NegativeProduct(c, Share(count, before, cached)); }
  }

  lemma NegativeProduct(x: real, y: real)
    requires x > 0.0 && y < 0.0
    ensures x * y < 0.0
  {
  }

  /** Where a stop is found, the tokens counted as cached differ from the cached tokens of the messages by at
      most the tolerance times the size of the message at the stop; where none is found they fall short. */
  lemma AttributionError(scaled: seq<int>, cached: real, drift: real)
    requires cached >= 0.0 && 0.0 < drift <= 0.5 && forall i | 0 <= i < |scaled| :: scaled[i] >= 0
    ensures var b := Stop(scaled, cached, drift, 0);
      var attributed := Attributed(scaled, cached, drift, b, |scaled|);
      if b < |scaled| then Abs(attributed - cached) <= Slack(scaled[b], drift)
      else attributed == Prefix(scaled, |scaled|) && (scaled != [] ==> attributed < cached)
  {
    var b := Stop(scaled, cached, drift, 0);
    PrefixAtStop(scaled, cached, drift, b);
    if b == |scaled| {
      AttributedBefore(scaled, cached, drift, b, b);
    } else {
      AttributedAfter(scaled, cached, drift, b, |scaled|);
      StopError(scaled, cached, drift, b);
    }
  }

  lemma StopError(scaled: seq<int>, cached: real, drift: real, b: nat)
    requires b < |scaled| && StopsAt(scaled, cached, drift, b) && scaled[b] >= 0 && Prefix(scaled, b) <= cached
    requires 0.0 < drift <= 0.5
    ensures Abs(Prefix(scaled, b) + scaled[b] as real * Verdict(scaled, cached, drift, b, b).1 - cached)
      <= Slack(scaled[b], drift)
  {
    var count, before := scaled[b] as real, Prefix(scaled, b);
    if Prefix(scaled, b + 1) <= cached {
      ProductNonNegative(count, drift);
    } else {
      ShareExact(scaled[b], before, cached);
      SnapError(count, Share(scaled[b], before, cached), drift);
    }
  }

  // ----- more cached tokens never look like less

  /** With more cached tokens the walk stops no earlier. */
  lemma StopsLater(scaled: seq<int>, c: real, c': real, drift: real)
    requires c <= c'
    ensures Stop(scaled, c, drift, 0) <= Stop(scaled, c', drift, 0)
  {
    var b' := Stop(scaled, c', drift, 0);
    if b' < |scaled| { StopsToo(scaled, c, c', drift, b'); }
  }

  lemma StopsToo(scaled: seq<int>, c: real, c': real, drift: real, i: nat)
    requires c <= c' && i < |scaled| && StopsAt(scaled, c', drift, i)
    ensures StopsAt(scaled, c, drift, i)
  {
  }

  lemma ShareGrows(count: int, before: real, c: real, c': real)
    requires c <= c'
    ensures Share(count, before, c) <= Share(count, before, c')
  {
    if count > 0 { DivideBoth(c - before, c' - before, count as real); }
  }

  lemma DivideBoth(x: real, y: real, z: real)
    requires x <= y && z > 0.0
    ensures x / z <= y / z
  {
  }

  lemma VerdictGrows(scaled: seq<int>, c: real, c': real, drift: real, i: nat)
    requires 0.0 <= c <= c' && 0.0 < drift <= 0.5 && i < |scaled|
    ensures Verdict(scaled, c, drift, Stop(scaled, c, drift, 0), i).1
      <= Verdict(scaled, c', drift, Stop(scaled, c', drift, 0), i).1
  {
    StopsLater(scaled, c, c', drift);
    ClassifyShape(Share(scaled[i], Prefix(scaled, i), c), drift);
    ClassifyShape(Share(scaled[i], Prefix(scaled, i), c'), drift);
    ShareGrows(scaled[i], Prefix(scaled, i), c, c');
  }

  /** Raising the number of cached tokens never lowers the cached fraction of any message, in spite of the
      early stop at small gaps and the snapping at both ends. */
  lemma MonotoneAttribution(tokens: seq<nat>, cachedTokens: real, more: real, totalInputTokens: real,
      encoding: Encoding, overhead: nat, i: nat)
    requires cachedTokens <= more && i < |tokens|
    ensures Attribution(tokens, cachedTokens, totalInputTokens, encoding, overhead)[i].cachedFraction
         <= Attribution(tokens, more, totalInputTokens, encoding, overhead)[i].cachedFraction
  {
    var b := Shape(tokens, more, totalInputTokens, encoding, overhead);
    if cachedTokens > 0.0 {
      VerdictGrows(Scaled(tokens, overhead, totalInputTokens),
                   CachedForMessages(tokens, cachedTokens, totalInputTokens, overhead),
                   CachedForMessages(tokens, more, totalInputTokens, overhead), DriftTolerance(encoding), i);
    }
  }

  /** The tokens a result shows as cached. */
  ghost function TokensShown(scaled: seq<int>, messages: seq<MessageCacheInfo>, n: nat): real
    requires n <= |scaled| == |messages|
  {
    if n == 0 then 0.0
    else TokensShown(scaled, messages, n - 1) + scaled[n - 1] as real * messages[n - 1].cachedFraction
  }

  lemma {:induction false} ShownIsAttributed(scaled: seq<int>, cached: real, drift: real, b: nat,
      messages: seq<MessageCacheInfo>, n: nat)
    requires n <= |scaled| == |messages|
    requires forall i | 0 <= i < |scaled| :: messages[i].cachedFraction == Verdict(scaled, cached, drift, b, i).1
    ensures TokensShown(scaled, messages, n) == Attributed(scaled, cached, drift, b, n)
  {
    if n > 0 { ShownIsAttributed(scaled, cached, drift, b, messages, n - 1); }
  }

  /** When a boundary is found, the tokens shown as cached and the scaled overhead together differ from the cached
      tokens by at most the tolerance times the size of the boundary message, or, when the overhead alone uses these up,
      what is shown is within that; otherwise all messages are shown as cached and the cached tokens are more. */
  lemma RequestError(tokens: seq<nat>, cachedTokens: real, totalInputTokens: real, encoding: Encoding, overhead: nat)
    requires cachedTokens > 0.0 && tokens != []
    ensures var scaled := Scaled(tokens, overhead, totalInputTokens);
      var extra := ScaledOverhead(tokens, overhead, totalInputTokens) as real;
      var tolerance := if encoding == CharBased then 0.5 else 0.15;
      var b := Boundary(tokens, cachedTokens, totalInputTokens, encoding, overhead);
      var shown := TokensShown(scaled, Attribution(tokens, cachedTokens, totalInputTokens, encoding, overhead),
        |tokens|);
      && |scaled| == |tokens| && b < |tokens|
      && (b >= 0 && cachedTokens >= extra ==> Abs(shown + extra - cachedTokens) <= scaled[b] as real * tolerance)
      && (b >= 0 && cachedTokens < extra ==> 0.0 <= shown <= scaled[b] as real * tolerance)
      && (b < 0 ==> shown == Prefix(scaled, |tokens|) && shown + extra < cachedTokens)
  {
    var scaled, drift := Scaled(tokens, overhead, totalInputTokens), DriftTolerance(encoding);
    var cached := CachedForMessages(tokens, cachedTokens, totalInputTokens, overhead);
    var messages := Attribution(tokens, cachedTokens, totalInputTokens, encoding, overhead);
    ScaledNonNegative(tokens, overhead, totalInputTokens);
    AttributionError(scaled, cached, drift);
    ShownIsAttributed(scaled, cached, drift, Stop(scaled, cached, drift, 0), messages, |tokens|);
    var b := Shape(tokens, cachedTokens, totalInputTokens, encoding, overhead);
    ShownNonNegative(scaled, messages, |tokens|);
    PrefixNonNegative(scaled, |tokens|);
  }

  lemma {:induction false} ShownNonNegative(scaled: seq<int>, messages: seq<MessageCacheInfo>, n: nat)
    requires n <= |scaled| == |messages|
    requires forall i | 0 <= i < |scaled| :: scaled[i] >= 0 && messages[i].cachedFraction >= 0.0
    ensures TokensShown(scaled, messages, n) >= 0.0
  {
    if n > 0 {
      ShownNonNegative(scaled, messages, n - 1);
      ProductNonNegative(scaled[n - 1] as real, messages[n - 1].cachedFraction);
    }
  }

  lemma {:induction false} PrefixNonNegative(scaled: seq<int>, n: nat)
    requires n <= |scaled| && forall i | 0 <= i < |scaled| :: scaled[i] >= 0
    ensures Prefix(scaled, n) >= 0.0
  {
    if n > 0 { PrefixNonNegative(scaled, n - 1); }
  }

  // ----- the result in plain numbers

  /** The cache ends with message `i`, or so little behind it that the walk ends there. */
  predicate EndsAt(scaled: seq<int>, left: real, tolerance: real, i: nat)
    requires i < |scaled|
  {
    || left <= Prefix(scaled, i + 1)
    || (i + 1 < |scaled| && left - Prefix(scaled, i + 1) < scaled[i] as real * tolerance)
  }

  /** `b` is the boundary, or the number of messages when there is none: the first message the cache ends with. Those
      before are cached, those behind are not, and of itself it shows its share. */
  ghost predicate EndsWith(messages: seq<MessageCacheInfo>, scaled: seq<int>, left: real, tolerance: real, b: nat)
  {
    && |messages| == |scaled| && b <= |scaled|
    && (forall i | 0 <= i < b :: !EndsAt(scaled, left, tolerance, i) && messages[i] == MessageCacheInfo(i, Cached, 1.0))
    && (forall i | b < i < |scaled| :: messages[i] == MessageCacheInfo(i, Uncached, 0.0))
    && (b < |scaled| ==>
          && EndsAt(scaled, left, tolerance, b)
          && ShowsShare(messages[b], b, left - Prefix(scaled, b), scaled[b], tolerance))
  }

  lemma WalkTells(messages: seq<MessageCacheInfo>, scaled: seq<int>, cached: real, drift: real)
    requires |messages| == |scaled|
    requires forall i | 0 <= i < |scaled| ::
      messages[i] == Info(scaled, cached, drift, Stop(scaled, cached, drift, 0), i)
    ensures EndsWith(messages, scaled, cached, drift, Stop(scaled, cached, drift, 0))
  {
    var b := Stop(scaled, cached, drift, 0);
    forall i | 0 <= i < |scaled|
      ensures EndsAt(scaled, cached, drift, i) <==> StopsAt(scaled, cached, drift, i)
    {
    }
    if b < |scaled| {
      assert Prefix(scaled, b + 1) == Prefix(scaled, b) + scaled[b] as real;
      hide Prefix, EndsAt, StopsAt;
    } else {
      hide Prefix, EndsAt, StopsAt;
    }
  }

  /** The whole computation, with the tokens that the overhead leaves for the messages. A message at the boundary snaps
      to all or nothing within 15 percent, or 50 with estimated counts. */
  lemma AttributionTells(tokens: seq<nat>, cachedTokens: real, totalInputTokens: real, encoding: Encoding,
      overhead: nat)
    requires cachedTokens > 0.0
    ensures var scaled := Scaled(tokens, overhead, totalInputTokens);
      var extra := ScaledOverhead(tokens, overhead, totalInputTokens) as real;
      var b := Boundary(tokens, cachedTokens, totalInputTokens, encoding, overhead);
      && |scaled| == |tokens| && -1 <= b
      && EndsWith(Attribution(tokens, cachedTokens, totalInputTokens, encoding, overhead), scaled,
                  if cachedTokens >= extra then cachedTokens - extra else 0.0,
                  if encoding == CharBased then 0.5 else 0.15, if b < 0 then |tokens| else b)
  {
    var scaled, drift := Scaled(tokens, overhead, totalInputTokens), DriftTolerance(encoding);
    var cached := CachedForMessages(tokens, cachedTokens, totalInputTokens, overhead);
    var messages := Attribution(tokens, cachedTokens, totalInputTokens, encoding, overhead);
    hide EndsWith, Info;
    WalkTells(messages, scaled, cached, drift);
  }

  /** `message` shows how much of its `count` tokens the `left` ones cover. */
  predicate ShowsShare(message: MessageCacheInfo, index: nat, left: real, count: int, tolerance: real)
  {
    message ==
      if left >= count as real then MessageCacheInfo(index, Cached, 1.0)
      else
        var share := if count > 0 then left / count as real else 0.0;
        if share >= 1.0 - tolerance then MessageCacheInfo(index, Cached, 1.0)
        else if share <= tolerance then MessageCacheInfo(index, Uncached, 0.0)
        else MessageCacheInfo(index, Partial, share)
  }

  lemma {:induction false} RawSum(tokens: seq<nat>)
    ensures Sum(Raw(tokens)) == Sum(tokens) + 4 * |tokens|
  {
    if tokens != [] {
      var n := |tokens| - 1;
      RawSum(tokens[..n]);
      assert Raw(tokens)[..n] == Raw(tokens[..n]);
    }
  }

  /** The product rounded to the nearest, halves up. */
  predicate Nearest(rounded: int, count: int, factor: real)
  {
    rounded as real - 0.5 <= count as real * factor < rounded as real + 0.5
  }

  lemma ScaleOneIsNearest(count: int, factor: real)
    ensures Nearest(ScaleOne(count, factor), count, factor)
  {
  }

  /** Each count, with 4 for the message itself, and the overhead, times the factor and rounded. */
  ghost predicate ScaledBy(tokens: seq<nat>, overhead: nat, scaled: seq<int>, extra: int, factor: real)
  {
    && |scaled| == |tokens| && Nearest(extra, overhead, factor)
    && forall i | 0 <= i < |tokens| :: Nearest(scaled[i], tokens[i] + 4, factor)
  }

  lemma ScaledByFactor(tokens: seq<nat>, overhead: nat, factor: real)
    ensures ScaledBy(tokens, overhead, ScaleAll(Raw(tokens), factor), ScaleOne(overhead, factor), factor)
  {
    hide ScaleOne, Nearest;
    ScaleOneIsNearest(overhead, factor);
    forall i | 0 <= i < |tokens|
      ensures Nearest(ScaleAll(Raw(tokens), factor)[i], tokens[i] + 4, factor)
    {
      assert Raw(tokens)[i] == tokens[i] + 4;
      ScaleOneIsNearest(tokens[i] + 4, factor);
    }
  }

  /** The factor is what the estimate is off the total. */
  lemma ScalingTells(tokens: seq<nat>, overhead: nat, totalInputTokens: real)
    ensures var estimate := Sum(tokens) + 4 * |tokens| + overhead;
      ScaledBy(tokens, overhead, Scaled(tokens, overhead, totalInputTokens),
               ScaledOverhead(tokens, overhead, totalInputTokens),
               if totalInputTokens > 0.0 && estimate > 0 then totalInputTokens / estimate as real else 1.0)
  {
    hide ScaledBy, Factor;
    ScaledByFactor(tokens, overhead, Factor(tokens, overhead, totalInputTokens));
    FactorIs(tokens, overhead, totalInputTokens);
  }

  lemma FactorIs(tokens: seq<nat>, overhead: nat, totalInputTokens: real)
    ensures var estimate := Sum(tokens) + 4 * |tokens| + overhead;
      Factor(tokens, overhead, totalInputTokens) ==
      if totalInputTokens > 0.0 && estimate > 0 then totalInputTokens / estimate as real else 1.0
  {
    RawSum(tokens);
  }

  // ----- when everything is cached

  /** After message `j` tokens are left, and no fewer than its slack: the walk goes on. */
  predicate LeavesEnough(scaled: seq<int>, cached: real, drift: real, j: nat)
    requires j < |scaled|
  {
    var gap := cached - Prefix(scaled, j + 1);
    gap > 0.0 && gap >= Slack(scaled[j], drift)
  }

  predicate AllLeaveEnough(scaled: seq<int>, cached: real, drift: real)
  {
    forall j | 0 <= j < |scaled| - 1 :: LeavesEnough(scaled, cached, drift, j)
  }

  predicate AllVerdictsCached(scaled: seq<int>, cached: real, drift: real)
  {
    var b := Stop(scaled, cached, drift, 0);
    forall i | 0 <= i < |scaled| :: Verdict(scaled, cached, drift, b, i).0 == Cached
  }

  predicate AllShownCached(messages: seq<MessageCacheInfo>)
  {
    forall i | 0 <= i < |messages| :: messages[i].cacheStatus == Cached
  }

  /** The cache reaches the end of the last message, or near enough in proportion to its count. */
  predicate ReachesEnd(scaled: seq<int>, cached: real, drift: real)
    requires scaled != []
  {
    var n := |scaled| - 1;
    Prefix(scaled, n + 1) <= cached || Share(scaled[n], Prefix(scaled, n), cached) >= 1.0 - drift
  }

  lemma AllVerdictsIff(scaled: seq<int>, cached: real, drift: real)
    requires scaled != []
    ensures AllVerdictsCached(scaled, cached, drift) <==>
      AllLeaveEnough(scaled, cached, drift) && ReachesEnd(scaled, cached, drift)
  {
    hide Prefix, Share, Slack;
    var b, n := Stop(scaled, cached, drift, 0), |scaled| - 1;
    assert forall j | 0 <= j < n :: LeavesEnough(scaled, cached, drift, j) <==> !StopsAt(scaled, cached, drift, j);
    if b < n {
      assert !LeavesEnough(scaled, cached, drift, b);
      assert Verdict(scaled, cached, drift, b, n).0 == Uncached;
    } else {
      assert b > n ==> !StopsAt(scaled, cached, drift, n);
      assert Verdict(scaled, cached, drift, b, n).0 == Cached <==> ReachesEnd(scaled, cached, drift);
    }
  }

  /** All messages are shown as cached exactly when there are none, or the cache leaves enough after every message but
      the last for the walk to go on, and reaches the end of the last. */
  lemma AllCachedIff(tokens: seq<nat>, cachedTokens: real, totalInputTokens: real, encoding: Encoding, overhead: nat)
    ensures var scaled, drift := Scaled(tokens, overhead, totalInputTokens), DriftTolerance(encoding);
      var cached := CachedForMessages(tokens, cachedTokens, totalInputTokens, overhead);
      AllShownCached(Attribution(tokens, cachedTokens, totalInputTokens, encoding, overhead))
      <==>
      (tokens != [] ==>
         cachedTokens > 0.0 && AllLeaveEnough(scaled, cached, drift) && ReachesEnd(scaled, cached, drift))
  {
    var scaled, drift := Scaled(tokens, overhead, totalInputTokens), DriftTolerance(encoding);
    var cached := CachedForMessages(tokens, cachedTokens, totalInputTokens, overhead);
    var messages := Attribution(tokens, cachedTokens, totalInputTokens, encoding, overhead);
    hide Stop, Scaled, CachedForMessages, ReachesEnd, AllLeaveEnough, Verdict;
    if cachedTokens <= 0.0 {
      assert tokens != [] ==> messages[0].cacheStatus == Uncached;
    } else if tokens != [] {
      AllVerdictsIff(scaled, cached, drift);
      var b := Stop(scaled, cached, drift, 0);
      assert forall i | 0 <= i < |messages| :: messages[i].cacheStatus == Verdict(scaled, cached, drift, b, i).0;
      assert AllShownCached(messages) <==> AllVerdictsCached(scaled, cached, drift);
    }
  }

  lemma WholePrompt()
    ensures Scaled([96, 0], 0, 104.0) == [100, 4] && ScaledOverhead([96, 0], 0, 104.0) == 0
  {
    var raw := Raw([96, 0]);
    assert raw == [100, 4] && raw[..1] == [100] && raw[..1][..0] == [];
    assert Sum(raw) == 104;
    assert Factor([96, 0], 0, 104.0) == 1.0;
  }

  /** A prompt of two messages that is cached to the last token: the first leaves four tokens, less than its slack, so
      the second is shown as not cached. */
  lemma GapRuleCanStopEarly()
    ensures Scaled([96, 0], 0, 104.0) == [100, 4] && CachedForMessages([96, 0], 104.0, 104.0, 0) == 104.0
    ensures Attribution([96, 0], 104.0, 104.0, O200kBase, 0) ==
      [MessageCacheInfo(0, Cached, 1.0), MessageCacheInfo(1, Uncached, 0.0)]
    ensures Boundary([96, 0], 104.0, 104.0, O200kBase, 0) == 0
  {
    WholePrompt();
    hide Scaled, ScaledOverhead;
    assert Prefix([100, 4], 1) == 100.0 && Prefix([100, 4], 2) == 104.0;
    assert StopsAt([100, 4], 104.0, 0.15, 0);
  }

  lemma RoundedPrompt()
    ensures Scaled([1, 1, 1], 0, 8.0) == [3, 3, 3] && ScaledOverhead([1, 1, 1], 0, 8.0) == 0
  {
    var raw := Raw([1, 1, 1]);
    assert raw == [5, 5, 5] && raw[..2] == [5, 5] && raw[..2][..1] == [5] && raw[..2][..1][..0] == [];
    assert Sum(raw[..2][..1]) == 5;
    assert Sum(raw[..2]) == 10 && Sum(raw) == 15;
    assert Factor([1, 1, 1], 0, 8.0) == 8.0 / 15.0;
    assert ScaleOne(5, 8.0 / 15.0) == 3;
  }

  /** A prompt of three messages that is cached to the last token: the counts are rounded up to more than there are, and
      the last message is shown as two thirds cached. */
  lemma RoundingCanHideTheEnd()
    ensures Scaled([1, 1, 1], 0, 8.0) == [3, 3, 3] && CachedForMessages([1, 1, 1], 8.0, 8.0, 0) == 8.0
    ensures Attribution([1, 1, 1], 8.0, 8.0, O200kBase, 0) ==
      [MessageCacheInfo(0, Cached, 1.0), MessageCacheInfo(1, Cached, 1.0), MessageCacheInfo(2, Partial, 2.0 / 3.0)]
  {
    RoundedPrompt();
    hide Scaled, ScaledOverhead;
    var scaled := [3, 3, 3];
    assert Prefix(scaled, 1) == 3.0 && Prefix(scaled, 2) == 6.0 && Prefix(scaled, 3) == 9.0;
    assert !StopsAt(scaled, 8.0, 0.15, 0) && !StopsAt(scaled, 8.0, 0.15, 1) && StopsAt(scaled, 8.0, 0.15, 2);
    assert Stop(scaled, 8.0, 0.15, 0) == 2;
  }

  lemma ToolPrompt()
    ensures Scaled([96, 96], 100, 300.0) == [100, 100] && ScaledOverhead([96, 96], 100, 300.0) == 100
  {
    var raw := Raw([96, 96]);
    assert raw == [100, 100] && raw[..1] == [100] && raw[..1][..0] == [];
    assert Sum(raw[..1]) == 100 && Sum(raw) == 200;
    assert Factor([96, 96], 100, 300.0) == 1.0;
  }

  /** A prompt with 100 tokens of tools before its two messages of 100 tokens each: of 200 cached tokens 100 are left
      for the messages, and the cache ends with the first. */
  lemma OverheadComesFirst()
    ensures Attribution([96, 96], 200.0, 300.0, O200kBase, 100) ==
      [MessageCacheInfo(0, Cached, 1.0), MessageCacheInfo(1, Uncached, 0.0)]
    ensures Boundary([96, 96], 200.0, 300.0, O200kBase, 100) == 0
  {
    ToolPrompt();
    hide Scaled, ScaledOverhead;
    assert Prefix([100, 100], 1) == 100.0 && Prefix([100, 100], 2) == 200.0;
    assert StopsAt([100, 100], 100.0, 0.15, 0);
  }
}
