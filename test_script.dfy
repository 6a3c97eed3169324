/**
 * `test.py`: the offline run that tried the settings later used by the new analysis
 * (closest 2, crop padded by 100) and saves the bare crops under the same
 * `output/_{pair_idx}.jpg` names as the separation script.
 */
module TestScript {
  import opened Geometry
  import opened Grouping
  import PhotoSeparation

  /** `[:2]`. */
  const K: nat := 2
  /** `pad = 100`. */
  const PAD: int := 100

  /** One saved crop: its path and rectangle. */
  datatype Saved = Saved(path: string, crop: Box)

  function SavedCrops(groups: seq<Group>): seq<Saved> {
    seq(|groups|, i requires 0 <= i < |groups| => Saved(PhotoSeparation.OutputPath(i), groups[i].crop))
  }

  /** The script's loop over kickboards; like the separation script it fails on a photo
      with people and no kickboard. */
  method SaveCrops(kbs: seq<Box>, persons: seq<Box>, w: int, h: int) returns (saved: seq<Saved>)
    requires |persons| > 0 ==> |kbs| > 0
    ensures saved == SavedCrops(Groups(kbs, persons, K, PAD, w, h))
  {
    var groups := FormGroups(kbs, persons, K, PAD, w, h);
    saved := [];
    var pairIdx := 0;
    while pairIdx < |groups|
      invariant pairIdx <= |groups|
      invariant saved == SavedCrops(groups)[..pairIdx]
    {
      saved := saved + [Saved(PhotoSeparation.OutputPath(pairIdx), groups[pairIdx].crop)];
      pairIdx := pairIdx + 1;
    }
  }

  /**
   * When every detected rectangle lies in the photo, each saved crop is a well-formed
   * rectangle of the photo that shows the whole kickboard and its (at most two) people,
   * and no two crops of a run share a file name.
   */
  lemma SavedCropsCoverGroups(kbs: seq<Box>, persons: seq<Box>, w: int, h: int)
    requires forall i :: 0 <= i < |kbs| ==> InImage(kbs[i], w, h)
    requires forall i :: 0 <= i < |persons| ==> InImage(persons[i], w, h)
    ensures var groups := Groups(kbs, persons, K, PAD, w, h); var saved := SavedCrops(groups);
      (forall i, j :: 0 <= i < j < |saved| ==> saved[i].path != saved[j].path) &&
      forall n :: 0 <= n < |saved| ==>
        var c := saved[n].crop;
        0 <= c.x1 <= c.x2 <= w && 0 <= c.y1 <= c.y2 <= h &&
        Contains(c, groups[n].kbBox) && 0 < |groups[n].members| <= K &&
        forall m :: 0 <= m < |groups[n].members| ==> Contains(c, groups[n].members[m].box)
  {
    var groups := Groups(kbs, persons, K, PAD, w, h);
    var saved := SavedCrops(groups);
    forall i, j | 0 <= i < j < |saved| ensures saved[i].path != saved[j].path {
      PhotoSeparation.OutputPathsDistinct(i, j);
    }
    GroupsShape(kbs, persons, K, PAD, w, h);
    forall n | 0 <= n < |saved|
      ensures var c := saved[n].crop;
        0 <= c.x1 <= c.x2 <= w && 0 <= c.y1 <= c.y2 <= h &&
        Contains(c, groups[n].kbBox) && 0 < |groups[n].members| <= K &&
        forall m :: 0 <= m < |groups[n].members| ==> Contains(c, groups[n].members[m].box)
    {
      var g := groups[n];
      GroupMembers(kbs, persons, K, PAD, w, h, g);
      var group := Boxes(g.members);
      forall m | 0 <= m < |group| ensures InImage(group[m], w, h) {
        assert g.members[m] in g.members;
      }
      CropOrdered(g.kbBox, group, PAD, w, h);
      CropContains(g.kbBox, group, PAD, w, h);
      forall m | 0 <= m < |g.members| ensures Contains(g.crop, g.members[m].box) {
        assert group[m] == g.members[m].box;
      }
    }
  }
}
