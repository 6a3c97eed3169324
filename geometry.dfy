/**
 * Pixel geometry shared by the four scripts: detector boxes, their floor-midpoint
 * centres, the squared centre distance that stands in for `np.hypot`, and the padded,
 * clamped evidence crop.
 */
module Geometry {

  /** A detector box `[x1, y1, x2, y2]`; also used for crop rectangles. */
  datatype Box = Box(x1: int, y1: int, x2: int, y2: int)

  datatype Point = Point(x: int, y: int)

  /** `center(box)`: the floor midpoint of each axis (Python `//`, which agrees with
      Dafny's `/` for the positive divisor 2). */
  function Center(b: Box): (c: Point)
    ensures 2 * c.x <= b.x1 + b.x2 < 2 * c.x + 2
    ensures 2 * c.y <= b.y1 + b.y2 < 2 * c.y + 2
    ensures b.x1 <= b.x2 ==> b.x1 <= c.x <= b.x2
    ensures b.y1 <= b.y2 ==> b.y1 <= c.y <= b.y2
  {
    Point((b.x1 + b.x2) / 2, (b.y1 + b.y2) / 2)
  }

  /** The square of the Euclidean distance. `hypot` is its monotone square root, so
      comparing squared distances orders kickboards and people exactly as `hypot` does. */
  function SqDist(p: Point, q: Point): (d: int)
    ensures d >= 0
    ensures d == 0 <==> p == q
  {
    var dx, dy := p.x - q.x, p.y - q.y;
    SquareZero(dx);
    SquareZero(dy);
    dx * dx + dy * dy
  }

  lemma SquareZero(a: int)
    ensures a * a >= 0
    ensures a * a == 0 <==> a == 0
  {
    if a != 0 {
      if a > 0 {
        assert a * a >= a;
      } else {
        assert a * a == (-a) * (-a) >= -a;
      }
    }
  }

  /** Every coordinate of `b` lies within `[0, w] x [0, h]`. */
  predicate InImage(b: Box, w: int, h: int) {
    0 <= b.x1 <= w && 0 <= b.x2 <= w && 0 <= b.y1 <= h && 0 <= b.y2 <= h
  }

  predicate NonNegative(b: Box) {
    0 <= b.x1 && 0 <= b.y1 && 0 <= b.x2 && 0 <= b.y2
  }

  /** The rectangle `r` covers every coordinate of `b`. */
  predicate Contains(r: Box, b: Box) {
    r.x1 <= b.x1 && r.x1 <= b.x2 && b.x1 <= r.x2 && b.x2 <= r.x2 &&
    r.y1 <= b.y1 && r.y1 <= b.y2 && b.y1 <= r.y2 && b.y2 <= r.y2
  }

  function MinOf(s: seq<int>): (m: int)
    requires |s| > 0
    ensures forall i :: 0 <= i < |s| ==> m <= s[i]
  {
    if |s| == 1 then s[0]
    else
      var rest := MinOf(s[1..]);
      if s[0] <= rest then s[0] else rest
  }

  function MaxOf(s: seq<int>): (m: int)
    requires |s| > 0
    ensures forall i :: 0 <= i < |s| ==> s[i] <= m
  {
    if |s| == 1 then s[0]
    else
      var rest := MaxOf(s[1..]);
      if s[0] >= rest then s[0] else rest
  }

  lemma {:induction false} MinMaxAttained(s: seq<int>)
    requires |s| > 0
    ensures MinOf(s) in s && MaxOf(s) in s
  {
    if |s| > 1 {
      MinMaxAttained(s[1..]);
    }
  }

  /** `xs = [k_box[0], k_box[2]] + [b[0] for b in group] + [b[2] for b in group]`. */
  function Xs(kb: Box, group: seq<Box>): seq<int> {
    [kb.x1, kb.x2] + seq(|group|, i requires 0 <= i < |group| => group[i].x1)
                   + seq(|group|, i requires 0 <= i < |group| => group[i].x2)
  }

  /** `ys`, likewise on the vertical axis. */
  function Ys(kb: Box, group: seq<Box>): seq<int> {
    [kb.y1, kb.y2] + seq(|group|, i requires 0 <= i < |group| => group[i].y1)
                   + seq(|group|, i requires 0 <= i < |group| => group[i].y2)
  }

  function Max(a: int, b: int): int { if a >= b then a else b }

  function Min(a: int, b: int): int { if a <= b then a else b }

  /**
   * The evidence crop: the union of the kickboard box and the group's person boxes,
   * widened by `pad` on every side and clamped to the image `[0, w] x [0, h]`.
   */
  function CropRect(kb: Box, group: seq<Box>, pad: int, w: int, h: int): (r: Box)
    ensures 0 <= r.x1 && r.x2 <= w && 0 <= r.y1 && r.y2 <= h
  {
    var xs, ys := Xs(kb, group), Ys(kb, group);
    Box(Max(MinOf(xs) - pad, 0), Max(MinOf(ys) - pad, 0),
        Min(MaxOf(xs) + pad, w), Min(MaxOf(ys) + pad, h))
  }

  lemma XsYsHold(kb: Box, group: seq<Box>, i: int)
    requires 0 <= i < |group|
    ensures Xs(kb, group)[2 + i] == group[i].x1 && Xs(kb, group)[2 + |group| + i] == group[i].x2
    ensures Ys(kb, group)[2 + i] == group[i].y1 && Ys(kb, group)[2 + |group| + i] == group[i].y2
  {
  }

  /**
   * If the boxes lie in the image and the pad is non-negative, the crop covers the
   * kickboard box and every person box of the group.
   */
  lemma CropContains(kb: Box, group: seq<Box>, pad: int, w: int, h: int)
    requires pad >= 0
    ensures var r := CropRect(kb, group, pad, w, h);
      (InImage(kb, w, h) ==> Contains(r, kb)) &&
      forall i :: 0 <= i < |group| && InImage(group[i], w, h) ==> Contains(r, group[i])
  {
    var r := CropRect(kb, group, pad, w, h);
    var xs, ys := Xs(kb, group), Ys(kb, group);
    forall i | 0 <= i < |group| && InImage(group[i], w, h)
      ensures Contains(r, group[i])
    {
      XsYsHold(kb, group, i);
      assert MinOf(xs) <= xs[2 + i] && MinOf(xs) <= xs[2 + |group| + i];
      assert MaxOf(xs) >= xs[2 + i] && MaxOf(xs) >= xs[2 + |group| + i];
      assert MinOf(ys) <= ys[2 + i] && MinOf(ys) <= ys[2 + |group| + i];
      assert MaxOf(ys) >= ys[2 + i] && MaxOf(ys) >= ys[2 + |group| + i];
    }
    assert xs[0] == kb.x1 && xs[1] == kb.x2 && ys[0] == kb.y1 && ys[1] == kb.y2;
  }

  /** A box moved into the coordinates of `crop` (its top-left corner becomes the origin). */
  function Translate(b: Box, crop: Box): Box {
    Box(b.x1 - crop.x1, b.y1 - crop.y1, b.x2 - crop.x1, b.y2 - crop.y1)
  }

  /**
   * The crop is the padded union, not merely some enclosing rectangle: each edge is
   * either clamped to the image border or lies exactly `pad` beyond the outermost box
   * coordinate on that side.
   */
  lemma CropIsPaddedUnion(kb: Box, group: seq<Box>, pad: int, w: int, h: int)
    ensures var r := CropRect(kb, group, pad, w, h);
      PaddedSpan(Xs(kb, group), r.x1, r.x2, pad, w) && PaddedSpan(Ys(kb, group), r.y1, r.y2, pad, h)
  {
    var xs, ys := Xs(kb, group), Ys(kb, group);
    var r := CropRect(kb, group, pad, w, h);
    MinMaxAttained(xs);
    MinMaxAttained(ys);
    PaddedAxis(xs, MinOf(xs), MaxOf(xs), r.x1, r.x2, pad, w);
    PaddedAxis(ys, MinOf(ys), MaxOf(ys), r.y1, r.y2, pad, h);
  }

  /**
   * `[a, b]` is the span of the coordinates `s` widened by `pad` and clamped to
   * `[0, limit]`: an edge away from the border lies exactly `pad` beyond the outermost
   * coordinate on its side, and no edge lies further out than `pad` from some coordinate.
   */
  predicate PaddedSpan(s: seq<int>, a: int, b: int, pad: int, limit: int) {
    (a == 0 || (a + pad in s && forall i :: 0 <= i < |s| ==> a + pad <= s[i])) &&
    (b == limit || (b - pad in s && forall i :: 0 <= i < |s| ==> s[i] <= b - pad)) &&
    (exists i :: 0 <= i < |s| && s[i] - pad <= a) && (exists i :: 0 <= i < |s| && b <= s[i] + pad)
  }

  /** One axis of the crop, for the least and greatest coordinates `lo` and `hi`. */
  lemma PaddedAxis(s: seq<int>, lo: int, hi: int, a: int, b: int, pad: int, limit: int)
    requires lo in s && hi in s && forall i :: 0 <= i < |s| ==> lo <= s[i] <= hi
    requires a == Max(lo - pad, 0) && b == Min(hi + pad, limit)
    ensures PaddedSpan(s, a, b, pad, limit)
  {
    var i :| 0 <= i < |s| && s[i] == lo;
    var j :| 0 <= j < |s| && s[j] == hi;
  }

  /** For a crop of boxes inside the image, `0 <= x1 <= x2 <= w` and likewise vertically. */
  lemma CropOrdered(kb: Box, group: seq<Box>, pad: int, w: int, h: int)
    requires pad >= 0 && InImage(kb, w, h)
    ensures var r := CropRect(kb, group, pad, w, h);
      0 <= r.x1 <= r.x2 <= w && 0 <= r.y1 <= r.y2 <= h
  {
    CropContains(kb, group, pad, w, h);
  }

  /**
   * Boxes translated into crop coordinates: for boxes with non-negative coordinates the
   * top-left corner stays non-negative; for boxes inside the image the bottom-right
   * corner stays within the crop's width and height.
   */
  lemma TranslateIntoCrop(kb: Box, group: seq<Box>, pad: int, w: int, h: int, b: Box)
    requires pad >= 0
    requires b == kb || b in group
    ensures var r := CropRect(kb, group, pad, w, h); var t := Translate(b, r);
      (NonNegative(kb) && (forall i :: 0 <= i < |group| ==> NonNegative(group[i])) ==> 0 <= t.x1 && 0 <= t.y1) &&
      (InImage(kb, w, h) && (forall i :: 0 <= i < |group| ==> InImage(group[i], w, h)) ==>
        0 <= t.x1 && 0 <= t.y1 && t.x2 <= r.x2 - r.x1 && t.y2 <= r.y2 - r.y1)
  {
    var xs, ys := Xs(kb, group), Ys(kb, group);
    if b != kb {
      var i :| 0 <= i < |group| && group[i] == b;
      XsYsHold(kb, group, i);
      assert xs[2 + i] == b.x1 && ys[2 + i] == b.y1;
    } else {
      assert xs[0] == b.x1 && ys[0] == b.y1;
    }
    assert MinOf(xs) <= b.x1 && MinOf(ys) <= b.y1;
    if pad >= 0 {
      CropContains(kb, group, pad, w, h);
    }
  }
}
