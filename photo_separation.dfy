/**
 * `grouping_Photo_Separation.py`: an offline run of the grouping on one photo (closest
 * 3, crop padded by 10) that draws the kickboard and its people into each crop and saves
 * the crops as `output/_0.jpg`, `output/_1.jpg`, ... in kickboard order.
 */
module PhotoSeparation {
  import opened Geometry
  import opened Grouping
  import opened Decimal

  /** `[:3]`. */
  const K: nat := 3
  /** The literal 10 added around the union. */
  const PAD: int := 10

  /** One saved picture: its path, the crop rectangle, and the kickboard and people
      rectangles drawn into it, in the crop's own coordinates. */
  datatype Output = Output(path: string, crop: Box, kbInCrop: Box, personsInCrop: seq<Box>)

  /** `output/_{pair_idx}.jpg`. */
  function OutputPath(n: nat): (p: string)
    ensures |p| == 8 + |NatToString(n)| + 4
    ensures p[..8] == "output/_" && p[8..|p| - 4] == NatToString(n) && p[|p| - 4..] == ".jpg"
  {
    "output/_" + NatToString(n) + ".jpg"
  }

  /** Every counter value names a different file, so no picture of a run overwrites
      another. */
  lemma OutputPathsDistinct(m: nat, n: nat)
    requires m != n
    ensures OutputPath(m) != OutputPath(n)
  {
    if OutputPath(m) == OutputPath(n) {
      FramedInjective("output/_", ".jpg", m, n);
    }
  }

  /** What is saved for the `n`-th group: the rectangles moved by the crop's top-left
      corner. */
  function OutputOf(g: Group, n: nat): Output {
    Output(OutputPath(n), g.crop, Translate(g.kbBox, g.crop),
           seq(|g.members|, i requires 0 <= i < |g.members| => Translate(g.members[i].box, g.crop)))
  }

  /** The whole run: one output per group, the counter counting only saved groups. */
  function Outputs(groups: seq<Group>): seq<Output> {
    seq(|groups|, i requires 0 <= i < |groups| => OutputOf(groups[i], i))
  }

  /** The body of the kickboard loop once the group is formed: the kickboard and every
      member moved into crop coordinates, saved under the `n`-th path. */
  method DrawGroup(g: Group, n: nat) returns (out: Output)
    ensures out == OutputOf(g, n)
  {
    var kbInCrop := Translate(g.kbBox, g.crop);
    var drawn: seq<Box> := [];
    var m := 0;
    while m < |g.members|
      invariant m <= |g.members|
      invariant drawn == OutputOf(g, n).personsInCrop[..m]
    {
      drawn := drawn + [Translate(g.members[m].box, g.crop)];
      m := m + 1;
    }
    assert drawn == OutputOf(g, n).personsInCrop;
    out := Output(OutputPath(n), g.crop, kbInCrop, drawn);
  }

  /**
   * The script's loop over kickboards. A photo with people but no kickboard makes the
   * script fail when it files a person under a missing kickboard, hence the
   * precondition.
   */
  method Separate(kbs: seq<Box>, persons: seq<Box>, w: int, h: int) returns (outputs: seq<Output>)
    requires |persons| > 0 ==> |kbs| > 0
    ensures outputs == Outputs(Groups(kbs, persons, K, PAD, w, h))
  {
    var groups := FormGroups(kbs, persons, K, PAD, w, h);
    outputs := [];
    var pairIdx := 0;
    while pairIdx < |groups|
      invariant pairIdx <= |groups|
      invariant outputs == Outputs(groups)[..pairIdx]
    {
      var out := DrawGroup(groups[pairIdx], pairIdx);
      outputs := outputs + [out];
      pairIdx := pairIdx + 1;
    }
  }

  /** The saved pictures are exactly the groups, each under its own path. */
  lemma OutputsMatchGroups(kbs: seq<Box>, persons: seq<Box>, w: int, h: int)
    ensures var groups := Groups(kbs, persons, K, PAD, w, h); var outs := Outputs(groups);
      |outs| == |groups| <= |kbs| &&
      (forall i, j :: 0 <= i < j < |outs| ==> outs[i].path != outs[j].path) &&
      (forall i :: 0 <= i < |outs| ==> |outs[i].personsInCrop| == |groups[i].members| <= K)
  {
    var groups := Groups(kbs, persons, K, PAD, w, h);
    var outs := Outputs(groups);
    GroupsShape(kbs, persons, K, PAD, w, h);
    forall i, j | 0 <= i < j < |outs| ensures outs[i].path != outs[j].path {
      OutputPathsDistinct(i, j);
    }
    forall i | 0 <= i < |outs| ensures |groups[i].members| <= K {
      GroupMembers(kbs, persons, K, PAD, w, h, groups[i]);
    }
  }

  /**
   * When every detected rectangle lies in the photo, every rectangle drawn into a crop
   * starts at or after the crop's top-left corner and ends within the crop's width and
   * height: no box is drawn outside the saved picture.
   */
  lemma DrawnBoxesInsideCrop(kbs: seq<Box>, persons: seq<Box>, w: int, h: int, n: nat)
    requires forall i :: 0 <= i < |kbs| ==> InImage(kbs[i], w, h)
    requires forall i :: 0 <= i < |persons| ==> InImage(persons[i], w, h)
    requires n < |Groups(kbs, persons, K, PAD, w, h)|
    ensures var g := Groups(kbs, persons, K, PAD, w, h)[n]; var out := OutputOf(g, n);
      var cw, ch := g.crop.x2 - g.crop.x1, g.crop.y2 - g.crop.y1;
      InsideSize(out.kbInCrop, cw, ch) &&
      forall i :: 0 <= i < |out.personsInCrop| ==> InsideSize(out.personsInCrop[i], cw, ch)
  {
    var g := Groups(kbs, persons, K, PAD, w, h)[n];
    GroupsShape(kbs, persons, K, PAD, w, h);
    GroupMembers(kbs, persons, K, PAD, w, h, g);
    var group := Boxes(g.members);
    forall i | 0 <= i < |group| ensures InImage(group[i], w, h) {
      assert g.members[i] in g.members;
    }
    TranslateIntoCrop(g.kbBox, group, PAD, w, h, g.kbBox);
    forall i | 0 <= i < |g.members|
      ensures InsideSize(Translate(g.members[i].box, g.crop), g.crop.x2 - g.crop.x1, g.crop.y2 - g.crop.y1)
    {
      assert group[i] == g.members[i].box;
      TranslateIntoCrop(g.kbBox, group, PAD, w, h, group[i]);
    }
  }

  /** A rectangle in crop coordinates that fits a crop of the given size. */
  predicate InsideSize(b: Box, cw: int, ch: int) {
    0 <= b.x1 && 0 <= b.y1 && b.x2 <= cw && b.y2 <= ch
  }
}
