/** What the visual metrics measure: on planes of one shade, under masks, and at
    the ends of their ranges. */
module MetricTheorems {
  import opened Prelude
  import opened Arithmetic
  import opened Metrics

  /** A grey pixel's luma is its level, and of three pure colours of one level green
      is the brightest and blue the darkest. */
  lemma LumaOfColours(v: Byte, a: Byte)
    ensures Luma(Rgba(v, v, v, a)) == v as real
    ensures v > 0 ==> 0.0 < Luma(Rgba(0, 0, v, a)) < Luma(Rgba(v, 0, 0, a)) < Luma(Rgba(0, v, 0, a))
  {
  }

  // ---------------------------------------------------------- one shade each

  predicate OneShade(a: LumaPlane, u: real) { forall k | 0 <= k < |a.samples| :: a.samples[k] == u }

  function Distance(u: real, v: real): real { if u < v then v - u else u - v }

  lemma {:induction false} ShadeSums(a: LumaPlane, b: LumaPlane, mask: Option<Rect>, perSample: real, u: real, v: real, n: nat)
    requires Comparable(a, b) && OneShade(a, u) && OneShade(b, v) && n <= |a.samples|
    ensures var seen := SeenCount(a, mask, n);
            var changed := if Distance(u, v) > perSample then seen else 0;
            && DeltaSum(a, b, mask, n) == Scaled(seen, Distance(u, v))
            && ChangedCount(a, b, mask, perSample, n) == changed
            && ChangedSum(a, b, mask, perSample, n) == Scaled(changed, Distance(u, v))
  {
    if n > 0 {
      ShadeSums(a, b, mask, perSample, u, v, n - 1);
      ScaledStep(SeenCount(a, mask, n - 1), Distance(u, v));
      assert Delta(a, b, n - 1) == Distance(u, v);
    }
  }

  lemma MeanOfScaled(n: nat, d: real)
    requires n > 0
    ensures Mean(Scaled(n, d), n) == d && Scaled(n, d) / n as real == d && n as real / n as real == 1.0
  {
    assert n as real * d / n as real == d;
  }

  lemma NoneOf(n: nat)
    requires n > 0
    ensures 0.0 / n as real == 0.0 && Mean(Scaled(0, 0.0), 0) == 0.0
  {
  }

  /** Between two planes of one shade each, under any mask that leaves something: the
      mean difference is the distance of the shades over 255. */
  lemma ShadesDiffer(a: LumaPlane, b: LumaPlane, mask: Option<Rect>, u: real, v: real)
    requires HasSamples(a, b, mask) && OneShade(a, u) && OneShade(b, v)
    ensures MeanDiff(a, b, mask) == Distance(u, v) / 255.0
  {
    ShadeSums(a, b, mask, 0.0, u, v, |a.samples|);
    MeanOfScaled(SeenCount(a, mask, |a.samples|), Distance(u, v));
  }

  /** All samples have changed, by that distance, if it is over the threshold, and none otherwise. */
  lemma ShadesCompared(a: LumaPlane, b: LumaPlane, mask: Option<Rect>, perSample: real, u: real, v: real)
    requires HasSamples(a, b, mask) && OneShade(a, u) && OneShade(b, v)
    ensures var far, seen := Distance(u, v) > perSample, SeenCount(a, mask, |a.samples|);
            && AreaRatio(a, b, mask, perSample) == (if far then 1.0 else 0.0)
            && Stats(a, b, mask, perSample)
               == ChangeStats(Distance(u, v) / 255.0, if far then seen else 0, if far then 1.0 else 0.0,
                              if far then Distance(u, v) else 0.0)
  {
    var seen := SeenCount(a, mask, |a.samples|);
    ShadeSums(a, b, mask, perSample, u, v, |a.samples|);
    ShadesDiffer(a, b, mask, u, v);
    if Distance(u, v) > perSample {
      MeanOfScaled(seen, Distance(u, v));
    } else {
      NoneOf(seen);
    }
  }

  // ----------------------------------------------------------- equal planes

  /** Two planes that agree wherever the mask lets one look have not changed. */
  lemma EqualUnchanged(a: LumaPlane, b: LumaPlane, mask: Option<Rect>, perSample: real)
    requires Comparable(a, b) && perSample >= 0.0
    requires forall k: nat | k < |a.samples| && Seen(a, mask, k) :: a.samples[k] == b.samples[k]
    ensures MeanDiff(a, b, mask) == 0.0 && AreaRatio(a, b, mask, perSample) == 0.0
    ensures Stats(a, b, mask, perSample).normalizedMeanDiff == 0.0 && Stats(a, b, mask, perSample).changedSamples == 0
  {
    NoDiffIffEqual(a, b, mask, |a.samples|);
    NoneChanged(a, b, mask, perSample, |a.samples|);
    if HasSamples(a, b, mask) {
      MeanOfScaled(SeenCount(a, mask, |a.samples|), 0.0);
      ZeroScaled(SeenCount(a, mask, |a.samples|));
    }
  }

  lemma ZeroScaled(n: nat)
    ensures Scaled(n, 0.0) == 0.0
  {
  }

  lemma {:induction false} NoneChanged(a: LumaPlane, b: LumaPlane, mask: Option<Rect>, perSample: real, n: nat)
    requires Comparable(a, b) && perSample >= 0.0 && n <= |a.samples|
    requires forall k: nat | k < n && Seen(a, mask, k) :: a.samples[k] == b.samples[k]
    ensures ChangedCount(a, b, mask, perSample, n) == 0
  {
    if n > 0 {
      NoneChanged(a, b, mask, perSample, n - 1);
    }
  }

  // ------------------------------------------------------------------- masks

  /** How many of the first `c` positions from 0 lie in `[x, x + w)`. */
  function Overlap(x: nat, w: nat, c: nat): nat { Monus(Min(x + w, c), x) }

  /** How many of the first `c` samples of a row are under the mask. */
  function HiddenInRow(r: Rect, row: nat, c: nat): nat {
    if r.y <= row < r.y + r.height then Overlap(r.x, r.width, c) else 0
  }

  /** The `c` samples from `start` are those of a row. */
  predicate RowCells(a: LumaPlane, r: Rect, row: nat, c: nat, start: nat)
    requires a.Valid() && start + c <= |a.samples|
  {
    forall i: nat | i < c :: Seen(a, Some(r), start + i) <==> !InMask(Some(r), i, row)
  }

  lemma {:induction false} SeenInRow(a: LumaPlane, r: Rect, row: nat, c: nat, start: nat)
    requires a.Valid() && start + c <= |a.samples| && RowCells(a, r, row, c, start)
    ensures SeenCount(a, Some(r), start + c) == SeenCount(a, Some(r), start) + c - HiddenInRow(r, row, c)
  {
    if c > 0 {
      SeenInRow(a, r, row, c - 1, start);
      assert Seen(a, Some(r), start + (c - 1)) <==> !InMask(Some(r), c - 1, row);
    }
  }

  lemma CellSeen(a: LumaPlane, r: Rect, row: nat, i: nat, k: nat)
    requires a.Valid() && k == row * a.width + i && i < a.width && k < |a.samples|
    ensures Seen(a, Some(r), k) <==> !InMask(Some(r), i, row)
  {
    DivModUnique(a.width, row, i);
  }

  lemma RowIsCells(a: LumaPlane, r: Rect, row: nat, start: nat)
    requires a.Valid() && start == row * a.width && start + a.width <= |a.samples|
    ensures RowCells(a, r, row, a.width, start)
  {
    forall i: nat | i < a.width
      ensures Seen(a, Some(r), start + i) <==> !InMask(Some(r), i, row)
    {
      CellSeen(a, r, row, i, start + i);
    }
  }

  lemma SeenInWholeRow(a: LumaPlane, r: Rect, row: nat, start: nat)
    requires a.Valid() && start == row * a.width && start + a.width <= |a.samples|
    ensures SeenCount(a, Some(r), start + a.width) == SeenCount(a, Some(r), start) + a.width - HiddenInRow(r, row, a.width)
  {
    RowIsCells(a, r, row, start);
    SeenInRow(a, r, row, a.width, start);
  }

  /** Samples under the mask in the first `rows` rows. */
  function Hidden(r: Rect, w: nat, rows: nat): nat {
    if rows == 0 then 0 else Hidden(r, w, rows - 1) + HiddenInRow(r, rows - 1, w)
  }

  lemma {:induction false} SeenInRows(a: LumaPlane, r: Rect, rows: nat, n: nat)
    requires a.Valid() && a.width > 0 && n == rows * a.width && n <= |a.samples|
    ensures SeenCount(a, Some(r), n) + Hidden(r, a.width, rows) == n
  {
    if rows > 0 {
      RowStart(rows, a.width, n);
      SeenInRows(a, r, rows - 1, n - a.width);
      SeenInWholeRow(a, r, rows - 1, n - a.width);
    }
  }

  lemma {:induction false} HiddenIsArea(r: Rect, w: nat, rows: nat)
    ensures Hidden(r, w, rows) == Overlap(r.x, r.width, w) * Overlap(r.y, r.height, rows)
  {
    if rows > 0 {
      HiddenIsArea(r, w, rows - 1);
      var per := Overlap(r.x, r.width, w);
      if r.y <= rows - 1 < r.y + r.height {
        assert Overlap(r.y, r.height, rows) == Overlap(r.y, r.height, rows - 1) + 1;
        assert per * (Overlap(r.y, r.height, rows - 1) + 1) == per * Overlap(r.y, r.height, rows - 1) + per;
      } else {
        assert Overlap(r.y, r.height, rows) == Overlap(r.y, r.height, rows - 1);
      }
    }
  }

  /** A mask hides exactly the samples of the plane that lie in its rectangle; no mask hides none. */
  lemma MaskHides(a: LumaPlane, r: Rect)
    requires a.Valid() && a.width > 0
    ensures SeenCount(a, Some(r), |a.samples|) + Overlap(r.x, r.width, a.width) * Overlap(r.y, r.height, a.height) == |a.samples|
    ensures SeenCount(a, None, |a.samples|) == |a.samples|
  {
    Commutes(a.width, a.height);
    SeenInRows(a, r, a.height, |a.samples|);
    HiddenIsArea(r, a.width, a.height);
    AllSeen(a, |a.samples|);
  }

  lemma Commutes(w: nat, h: nat)
    ensures w * h == h * w
  {
  }

  lemma {:induction false} AllSeen(a: LumaPlane, n: nat)
    requires a.Valid() && a.width > 0 && n <= |a.samples|
    ensures SeenCount(a, None, n) == n
  {
    if n > 0 {
      AllSeen(a, n - 1);
    }
  }
}
