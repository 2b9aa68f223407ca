/**
 * The text-hint rectangle of the Android pipeline (`computeTextBoundsRect`):
 * the union of the recognised text blocks, padded by 5% of its own width and
 * height on every side and clamped to the image.
 *
 * The source folds the blocks into four `Int` accumulators that start at
 * `Int.MAX_VALUE`, `Int.MAX_VALUE`, `0` and `0`; `Union` is that fold as a
 * function and `ComputeTextBoundsRect` is the loop itself.
 */
module TextBounds {
  import opened Int32
  import opened Options

  /** `android.graphics.Rect`: left and top inclusive, right and bottom exclusive. */
  datatype Rect = Rect(left: Int32, top: Int32, right: Int32, bottom: Int32)

  /** The four accumulators of the union loop. */
  datatype Bounds = Bounds(minX: Int32, minY: Int32, maxX: Int32, maxY: Int32)

  const START: Bounds := Bounds(MAX_VALUE, MAX_VALUE, 0, 0)

  /** One iteration of the union loop. */
  function Extend(b: Bounds, r: Rect): Bounds {
    Bounds(Min(b.minX, r.left), Min(b.minY, r.top), Max(b.maxX, r.right), Max(b.maxY, r.bottom))
  }

  /** The accumulators after the loop has visited every block of `blocks`, in order. */
  function Union(blocks: seq<Rect>): Bounds
    decreases |blocks|
  {
    if |blocks| == 0 then START else Extend(Union(blocks[..|blocks| - 1]), blocks[|blocks| - 1])
  }

  /** `(extent * 0.05f).roundToInt()`: the padding for one axis. */
  function Padding(extent: Int32): Int32 {
    RoundToInt(extent as real * 0.05)
  }

  /** The union `u`, padded on each side by 5% of its extent (at least 1) and clamped to the image. */
  function PaddedRect(u: Bounds, imageWidth: Int32, imageHeight: Int32): Rect {
    var width := CoerceAtLeast(Wrap(u.maxX - u.minX), 1);
    var height := CoerceAtLeast(Wrap(u.maxY - u.minY), 1);
    var paddingX := Padding(width);
    var paddingY := Padding(height);
    Rect(
      CoerceAtLeast(Wrap(u.minX - paddingX), 0),
      CoerceAtLeast(Wrap(u.minY - paddingY), 0),
      CoerceAtMost(Wrap(u.maxX + paddingX), imageWidth),
      CoerceAtMost(Wrap(u.maxY + paddingY), imageHeight))
  }

  /** The rectangle `computeTextBoundsRect` returns, or `None` for its `null`. */
  function TextBoundsRect(blocks: seq<Rect>, imageWidth: Int32, imageHeight: Int32): Option<Rect> {
    if |blocks| == 0 then None
    else
      var u := Union(blocks);
      if u.minX == MAX_VALUE then None else Some(PaddedRect(u, imageWidth, imageHeight))
  }

  /** Every block lies inside the union, and the right and bottom accumulators never drop below 0. */
  lemma {:induction false} UnionCoversBlocks(blocks: seq<Rect>)
    ensures var u := Union(blocks);
      0 <= u.maxX && 0 <= u.maxY &&
      forall i :: 0 <= i < |blocks| ==>
        u.minX <= blocks[i].left && u.minY <= blocks[i].top &&
        blocks[i].right <= u.maxX && blocks[i].bottom <= u.maxY
    decreases |blocks|
  {
    if |blocks| > 0 {
      var init := blocks[..|blocks| - 1];
      UnionCoversBlocks(init);
      forall i | 0 <= i < |blocks| - 1 ensures blocks[i] == init[i] { }
    }
  }

  /** Each accumulator either keeps its start value or equals the matching edge of some block. */
  lemma {:induction false} UnionAttained(blocks: seq<Rect>)
    ensures var u := Union(blocks);
      (u.minX == MAX_VALUE || exists i :: 0 <= i < |blocks| && blocks[i].left == u.minX) &&
      (u.minY == MAX_VALUE || exists i :: 0 <= i < |blocks| && blocks[i].top == u.minY) &&
      (u.maxX == 0 || exists i :: 0 <= i < |blocks| && blocks[i].right == u.maxX) &&
      (u.maxY == 0 || exists i :: 0 <= i < |blocks| && blocks[i].bottom == u.maxY)
    decreases |blocks|
  {
    if |blocks| > 0 {
      var init := blocks[..|blocks| - 1];
      UnionAttained(init);
      forall i | 0 <= i < |blocks| - 1 ensures blocks[i] == init[i] { }
    }
  }

  /**
   * The left accumulator keeps its start value `Int.MAX_VALUE` exactly when
   * every block's left edge is `Int.MAX_VALUE`; this is the case the source's
   * `minX == Int.MAX_VALUE` test catches.
   */
  lemma {:induction false} UnionSentinel(blocks: seq<Rect>)
    ensures Union(blocks).minX == MAX_VALUE <==> forall i :: 0 <= i < |blocks| ==> blocks[i].left == MAX_VALUE
    decreases |blocks|
  {
    if |blocks| > 0 {
      var init := blocks[..|blocks| - 1];
      UnionSentinel(init);
      forall i | 0 <= i < |blocks| - 1 ensures blocks[i] == init[i] { }
    }
  }

  /** `null` exactly when there are no blocks or every block starts at `Int.MAX_VALUE`; otherwise a rect inside the image. */
  lemma TextBoundsWithinImage(blocks: seq<Rect>, imageWidth: Int32, imageHeight: Int32)
    ensures var r := TextBoundsRect(blocks, imageWidth, imageHeight);
      (r.None? <==> |blocks| == 0 || forall i :: 0 <= i < |blocks| ==> blocks[i].left == MAX_VALUE) &&
      (r.Some? ==> 0 <= r.value.left && 0 <= r.value.top && r.value.right <= imageWidth && r.value.bottom <= imageHeight)
  {
    UnionSentinel(blocks);
  }

  /** The padding is never negative, since the extent it is taken from is at least 1. */
  lemma PaddingNonNegative(extent: Int32)
    requires extent >= 1
    ensures 0 <= Padding(extent) && Padding(extent) as real <= extent as real * 0.05 + 0.5
  {
  }

  /**
   * Whenever every block lies inside an image of a size Android can allocate
   * (an ARGB_8888 row of `4 * width` bytes is an `Int`, so each side is below
   * 2^29), the hint rectangle contains every block.
   */
  lemma TextBoundsContainsBlocks(blocks: seq<Rect>, imageWidth: Int32, imageHeight: Int32)
    requires |blocks| > 0
    requires 0 < imageWidth < 0x2000_0000 && 0 < imageHeight < 0x2000_0000
    requires forall i :: 0 <= i < |blocks| ==>
      0 <= blocks[i].left <= blocks[i].right <= imageWidth && 0 <= blocks[i].top <= blocks[i].bottom <= imageHeight
    ensures var r := TextBoundsRect(blocks, imageWidth, imageHeight);
      r.Some? &&
      forall i :: 0 <= i < |blocks| ==>
        r.value.left <= blocks[i].left && r.value.top <= blocks[i].top &&
        blocks[i].right <= r.value.right && blocks[i].bottom <= r.value.bottom
  {
    UnionCoversBlocks(blocks);
    UnionAttained(blocks);
    var u := Union(blocks);
    assert u.minX <= blocks[0].left < MAX_VALUE;
    assert u.minY <= blocks[0].top < MAX_VALUE;
    assert 0 <= u.minX <= u.maxX <= imageWidth;
    assert 0 <= u.minY <= u.maxY <= imageHeight;
    var width := CoerceAtLeast(Wrap(u.maxX - u.minX), 1);
    var height := CoerceAtLeast(Wrap(u.maxY - u.minY), 1);
    PaddingNonNegative(width);
    PaddingNonNegative(height);
  }

  /**
   * Inside an allocatable image no sum wraps: the padded rectangle is the
   * union moved out on every side by its padding (5% of its extent, rounded,
   * the extent being at least 1) and clamped to the image.
   */
  lemma PaddedRectWithoutWrap(u: Bounds, imageWidth: Int32, imageHeight: Int32)
    requires 0 <= u.minX <= u.maxX <= imageWidth < 0x2000_0000
    requires 0 <= u.minY <= u.maxY <= imageHeight < 0x2000_0000
    ensures var paddingX := Padding(Max(u.maxX - u.minX, 1));
      var paddingY := Padding(Max(u.maxY - u.minY, 1));
      0.0 <= paddingX as real <= Max(u.maxX - u.minX, 1) as real * 0.05 + 0.5 &&
      0.0 <= paddingY as real <= Max(u.maxY - u.minY, 1) as real * 0.05 + 0.5 &&
      PaddedRect(u, imageWidth, imageHeight) ==
        Rect(Max(u.minX - paddingX, 0), Max(u.minY - paddingY, 0),
             Min(u.maxX + paddingX, imageWidth), Min(u.maxY + paddingY, imageHeight))
  {
    PaddingNonNegative(Max(u.maxX - u.minX, 1));
    PaddingNonNegative(Max(u.maxY - u.minY, 1));
  }

  /** For blocks inside the image, the union lies inside the image too. */
  lemma UnionInsideImage(blocks: seq<Rect>, imageWidth: Int32, imageHeight: Int32)
    requires |blocks| > 0
    requires forall i :: 0 <= i < |blocks| ==>
      0 <= blocks[i].left <= blocks[i].right <= imageWidth && 0 <= blocks[i].top <= blocks[i].bottom <= imageHeight
    ensures 0 <= Union(blocks).minX <= Union(blocks).maxX <= imageWidth
    ensures 0 <= Union(blocks).minY <= Union(blocks).maxY <= imageHeight
  {
    UnionCoversBlocks(blocks);
    UnionAttained(blocks);
    assert Union(blocks).minX <= blocks[0].left;
    assert Union(blocks).minY <= blocks[0].top;
  }

  /**
   * For blocks inside an allocatable image, the hint is the union of the
   * blocks padded as `PaddedRectWithoutWrap` states, with no wrap-around.
   */
  lemma TextBoundsIsPaddedUnion(blocks: seq<Rect>, imageWidth: Int32, imageHeight: Int32)
    requires |blocks| > 0
    requires 0 < imageWidth < 0x2000_0000 && 0 < imageHeight < 0x2000_0000
    requires forall i :: 0 <= i < |blocks| ==>
      0 <= blocks[i].left <= blocks[i].right <= imageWidth && 0 <= blocks[i].top <= blocks[i].bottom <= imageHeight
    ensures 0 <= Union(blocks).minX <= Union(blocks).maxX <= imageWidth
    ensures 0 <= Union(blocks).minY <= Union(blocks).maxY <= imageHeight
    ensures var u := Union(blocks);
      var paddingX := Padding(Max(u.maxX - u.minX, 1));
      var paddingY := Padding(Max(u.maxY - u.minY, 1));
      0.0 <= paddingX as real <= Max(u.maxX - u.minX, 1) as real * 0.05 + 0.5 &&
      0.0 <= paddingY as real <= Max(u.maxY - u.minY, 1) as real * 0.05 + 0.5 &&
      TextBoundsRect(blocks, imageWidth, imageHeight) ==
        Some(Rect(Max(u.minX - paddingX, 0), Max(u.minY - paddingY, 0),
                  Min(u.maxX + paddingX, imageWidth), Min(u.maxY + paddingY, imageHeight)))
  {
    UnionInsideImage(blocks, imageWidth, imageHeight);
    PaddedRectWithoutWrap(Union(blocks), imageWidth, imageHeight);
  }

  /** The loop of `computeTextBoundsRect`, proved to compute `TextBoundsRect`. */
  method ComputeTextBoundsRect(blocks: seq<Rect>, imageWidth: Int32, imageHeight: Int32) returns (r: Option<Rect>)
    ensures r == TextBoundsRect(blocks, imageWidth, imageHeight)
    ensures r.None? <==> |blocks| == 0 || forall i :: 0 <= i < |blocks| ==> blocks[i].left == MAX_VALUE
    ensures r.Some? ==> 0 <= r.value.left && 0 <= r.value.top && r.value.right <= imageWidth && r.value.bottom <= imageHeight
  {
    TextBoundsWithinImage(blocks, imageWidth, imageHeight);
    if |blocks| == 0 {
      return None;
    }
    var minX: Int32, minY: Int32, maxX: Int32, maxY: Int32 := MAX_VALUE, MAX_VALUE, 0, 0;
    for i := 0 to |blocks|
      invariant Bounds(minX, minY, maxX, maxY) == Union(blocks[..i])
    {
      var rect := blocks[i];
      minX := Min(minX, rect.left);
      minY := Min(minY, rect.top);
      maxX := Max(maxX, rect.right);
      maxY := Max(maxY, rect.bottom);
      assert blocks[..i + 1][..i] == blocks[..i];
      assert Union(blocks[..i + 1]) == Extend(Union(blocks[..i]), rect);
    }
    assert blocks[..|blocks|] == blocks;
    assert Bounds(minX, minY, maxX, maxY) == Union(blocks);
    if minX == MAX_VALUE {
      return None;
    }
    r := Some(PaddedRect(Bounds(minX, minY, maxX, maxY), imageWidth, imageHeight));
  }
}
