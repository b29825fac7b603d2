/**
 * The dot the horizontal timeline draws for one segment: a fixed small
 * placeholder for an empty segment, otherwise a dot whose size grows with the
 * number of documents between a floor and a ceiling, with a count badge once
 * there is more than one document.
 */
module TimelineDot {
  import opened Wrappers

  const MinSize := 12
  const MaxSize := 24

  /** The pixel size of a dot for `n` documents: `Math.min(Math.max(n * 4 + 8, 12), 24)`. */
  function DotSize(n: int): (r: int)
    ensures MinSize <= r <= MaxSize
  {
    var grown := n * 4 + 8;
    var floored := if grown > MinSize then grown else MinSize;
    if floored < MaxSize then floored else MaxSize
  }

  /** What is drawn: the placeholder, or a sized dot with the count on its badge when there is one. */
  datatype Dot = Placeholder | Sized(size: int, badge: Option<nat>)

  function DotFor(count: nat): (r: Dot)
    ensures r.Placeholder? <==> count == 0
    ensures r.Sized? ==> r.size == DotSize(count) && MinSize <= r.size <= MaxSize
    ensures r.Sized? ==> (r.badge.Some? <==> count > 1)
    ensures r.Sized? && r.badge.Some? ==> r.badge.value == count
  {
    if count == 0 then Placeholder
    else Sized(DotSize(count), if count > 1 then Some(count) else None)
  }

  /** One document gives the smallest dot, four or more the largest; in between it grows by 4 per document. */
  lemma DotSizeSteps(n: int)
    ensures n <= 1 ==> DotSize(n) == MinSize
    ensures n >= 4 ==> DotSize(n) == MaxSize
    ensures 1 <= n <= 4 ==> DotSize(n) == MinSize + 4 * (n - 1)
  {
  }

  /** More documents never make a smaller dot. */
  lemma DotSizeMonotone(a: int, b: int)
    requires a <= b
    ensures DotSize(a) <= DotSize(b)
  {
  }

  /** Between one and four documents, different counts give different sizes. */
  lemma DotSizeTellsSmallCounts(a: int, b: int)
    requires 1 <= a <= 4 && 1 <= b <= 4 && DotSize(a) == DotSize(b)
    ensures a == b
  {
    DotSizeSteps(a);
    DotSizeSteps(b);
  }
}
