/** How a printed value is cut to a width: a binary search for the prefix that still fits. */
module FitText {

  const ELLIPSIS := "\U{2026}"

  predicate Fits(text: string, measure: string -> real, target: real, n: nat)
    requires n <= |text|
  {
    measure(text[..n]) <= target
  }

  /** `n` characters fit, or none are kept; one more does not fit, or there is none. */
  predicate IsEdge(text: string, measure: string -> real, target: real, n: nat)
  {
    n <= |text| && (n == 0 || Fits(text, measure, target, n)) && (n == |text| || !Fits(text, measure, target, n + 1))
  }

  /** The first `n` characters, marked when any are missing. */
  function Cut(text: string, n: nat): string
    requires n <= |text|
  {
    if n == |text| then text else text[..n] + ELLIPSIS
  }

  ghost predicate Widens(text: string, measure: string -> real)
  {
    forall i, j | 0 <= i <= j <= |text| :: measure(text[..i]) <= measure(text[..j])
  }

  /** Whatever `measure` does, the search ends at an edge. */
  method FitText(text: string, maxPx: real, measure: string -> real) returns (fitted: string)
    ensures var target := maxPx - measure("\U{2026}");
      if target <= 0.0 then fitted == "\U{2026}"
      else exists n | 0 <= n <= |text| ::
        IsEdge(text, measure, target, n) && fitted == (if n == |text| then text else text[..n] + "\U{2026}")
  {
    var target := maxPx - measure(ELLIPSIS);
    if target <= 0.0 {
      return ELLIPSIS;
    }
    var lo, hi := 0, |text|;
    while lo < hi
      invariant 0 <= lo <= hi <= |text|
      invariant lo == 0 || Fits(text, measure, target, lo)
      invariant hi == |text| || !Fits(text, measure, target, hi + 1)
    {
      var mid := (lo + hi + 1) / 2;
      if measure(text[..mid]) <= target {
        lo := mid;
      } else {
        hi := mid - 1;
      }
    }
    assert IsEdge(text, measure, target, lo);
    fitted := Cut(text, lo);
  }

  /** Where longer prefixes are never narrower, the edge is unique and no longer prefix fits. */
  lemma EdgeIsLongest(text: string, measure: string -> real, target: real, n: nat)
    requires Widens(text, measure) && n <= |text| && (n == 0 || Fits(text, measure, target, n))
    ensures IsEdge(text, measure, target, n) <==> forall k | n < k <= |text| :: !Fits(text, measure, target, k)
  {
    if IsEdge(text, measure, target, n) {
      forall k | n < k <= |text|
        ensures !Fits(text, measure, target, k)
      {
        assert measure(text[..n + 1]) <= measure(text[..k]);
      }
    }
  }
}
