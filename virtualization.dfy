/**
 * The window arithmetic of the virtual-scroll hook: which rows of a long
 * list are rendered for a given scroll position, and where they sit.
 * Pixel values are whole numbers here.
 */
module Virtualization {
  import opened Common

  /** `overscan = 5` when the option is absent. */
  const DefaultOverscan: int := 5

  /** What `visibleItems` holds. */
  datatype Window<T> = Window(startIndex: int, endIndex: int, items: seq<T>, offsetY: int, totalHeight: int)

  /** `Math.floor(x / h)` for a positive `h` (Dafny's `/` already rounds down then). */
  function FloorDiv(x: int, h: int): (q: int)
    requires h > 0
    ensures q * h <= x < (q + 1) * h
  {
    x / h
  }

  /** `Math.ceil(x / h)` for a positive `h`. */
  function CeilDiv(x: int, h: int): (q: int)
    requires h > 0
    ensures (q - 1) * h < x <= q * h
  {
    -((-x) / h)
  }

  /** Where `Array.prototype.slice` starts or stops for a relative index (negative counts from the end). */
  function SliceBound(len: nat, k: int): (b: nat)
    ensures b <= len
    ensures 0 <= k <= len ==> b == k
  {
    if k < 0 then (if len + k < 0 then 0 else len + k) else if k > len then len else k
  }

  /** `items.slice(start, end)`. */
  function JsSlice<T>(s: seq<T>, start: int, end: int): (r: seq<T>)
    ensures 0 <= start <= end <= |s| ==> r == s[start..end]
    ensures 0 <= end <= start ==> r == []
  {
    var from, to := SliceBound(|s|, start), SliceBound(|s|, end);
    if from >= to then [] else s[from..to]
  }

  /** The `useMemo` of `visibleItems`. */
  function VisibleItems<T>(items: seq<T>, scrollTop: int, itemHeight: int, containerHeight: int, overscan: Option<int>): Window<T>
    requires itemHeight > 0
  {
    var o := overscan.GetOr(DefaultOverscan);
    var startIndex := Max(0, FloorDiv(scrollTop, itemHeight) - o);
    var endIndex := Min(|items| - 1, CeilDiv(scrollTop + containerHeight, itemHeight) + o);
    Window(startIndex, endIndex, JsSlice(items, startIndex, endIndex + 1), startIndex * itemHeight, |items| * itemHeight)
  }

  function Max(a: int, b: int): int { if a >= b then a else b }

  function Min(a: int, b: int): int { if a <= b then a else b }

  /**
   * The window starts at a real index, ends at or before the last row and
   * places its rows at `startIndex` row heights inside a list `|items|` rows
   * tall. Unless `endIndex` is below -1 it holds exactly the rows from
   * `startIndex` to `endIndex` inclusive (none when the window is empty),
   * and it never is below -1 when the viewport's bottom edge and the
   * overscan are not negative.
   */
  lemma WindowShape<T>(items: seq<T>, scrollTop: int, itemHeight: int, containerHeight: int, overscan: Option<int>)
    requires itemHeight > 0
    ensures var w := VisibleItems(items, scrollTop, itemHeight, containerHeight, overscan);
      0 <= w.startIndex && w.endIndex <= |items| - 1
      && w.offsetY == w.startIndex * itemHeight && w.totalHeight == |items| * itemHeight
      && (-1 <= w.endIndex && w.startIndex <= w.endIndex ==> w.items == items[w.startIndex..w.endIndex + 1])
      && (-1 <= w.endIndex < w.startIndex ==> w.items == [])
    ensures scrollTop + containerHeight >= 0 && overscan.GetOr(DefaultOverscan) >= 0 ==>
      VisibleItems(items, scrollTop, itemHeight, containerHeight, overscan).endIndex >= -1
  {
    var w := VisibleItems(items, scrollTop, itemHeight, containerHeight, overscan);
    if scrollTop + containerHeight >= 0 {
      NonNegativeCeil(scrollTop + containerHeight, itemHeight);
    }
    if -1 <= w.endIndex < w.startIndex {
      assert w.endIndex + 1 <= w.startIndex;
    }
  }

  /**
   * Above the top of the list (a negative `scrollTop`), `endIndex` can fall
   * below -1, and `slice` then counts its end from the back of the list: the
   * window reports no rows (`endIndex < startIndex`) yet holds two.
   */
  lemma ScrolledAboveTop()
    ensures var w := VisibleItems([10, 20, 30], -20, 10, 0, Some(0));
      w.startIndex == 0 && w.endIndex == -2 && w.items == [10, 20]
  {
    var w := VisibleItems([10, 20, 30], -20, 10, 0, Some(0));
    assert FloorDiv(-20, 10) == -2;
    assert CeilDiv(-20, 10) == -2;
    assert SliceBound(3, -1) == 2;
  }

  lemma NonNegativeCeil(x: int, h: int)
    requires x >= 0 && h > 0
    ensures CeilDiv(x, h) >= 0
  {
    var q := CeilDiv(x, h);
    if q < 0 {
      assert q * h < 0 by { NegativeTimesPositive(q, h); }
    }
  }

  lemma NegativeTimesPositive(q: int, h: int)
    requires q < 0 && h > 0
    ensures q * h < 0
  {
  }

  /**
   * Every row that shows at least one pixel inside the viewport
   * `[scrollTop, scrollTop + containerHeight)` is in the window.
   */
  lemma WindowCoversViewport<T>(items: seq<T>, scrollTop: int, itemHeight: int, containerHeight: int, overscan: Option<int>, i: int)
    requires itemHeight > 0
    requires overscan.Some? ==> overscan.value >= 0
    requires 0 <= i < |items|
    requires i * itemHeight < scrollTop + containerHeight && scrollTop < (i + 1) * itemHeight
    ensures var w := VisibleItems(items, scrollTop, itemHeight, containerHeight, overscan);
      w.startIndex <= i <= w.endIndex
  {
    var o := overscan.GetOr(DefaultOverscan);
    var f := FloorDiv(scrollTop, itemHeight);
    var c := CeilDiv(scrollTop + containerHeight, itemHeight);
    assert f <= i by { BelowProduct(f, i + 1, itemHeight); }
    assert i <= c by { BelowProduct(i, c, itemHeight); }
  }

  /** `a * h < b * h` for a positive `h` means `a < b`. */
  lemma BelowProduct(a: int, b: int, h: int)
    requires h > 0 && a * h < b * h
    ensures a < b
  {
    if a >= b {
      assert (a - b) * h >= 0 by { NonNegativeTimesPositive(a - b, h); }
    }
  }

  lemma NonNegativeTimesPositive(q: int, h: int)
    requires q >= 0 && h > 0
    ensures q * h >= 0
  {
  }

  /** Without an `overscan` option the window is the one with five extra rows on each side. */
  lemma DefaultOverscanIsFive<T>(items: seq<T>, scrollTop: int, itemHeight: int, containerHeight: int)
    requires itemHeight > 0
    ensures VisibleItems(items, scrollTop, itemHeight, containerHeight, None)
         == VisibleItems(items, scrollTop, itemHeight, containerHeight, Some(5))
  {
  }
}
