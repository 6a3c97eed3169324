/**
 * `AI_Analusis.py`: per photo, reject when a detection list is empty; otherwise group
 * people by nearest kickboard (closest 3, crop padded by 200), label each group member
 * from the pose model, run the decision table, and write one conclusion per group under
 * a counter that rises once per group.
 */
module Analysis {
  import opened Wrappers
  import opened Geometry
  import opened Grouping
  import opened Decimal
  import opened Records

  /** `sorted(...)[:3]`. */
  const K: nat := 3
  /** `pad = 200`. */
  const PAD: int := 200

  const DOUBLE_RIDING := "2인탑승 의심"
  const PEDESTRIAN_JUDGED := "보행자로 판단"
  const BRAND_FAILED := "브랜드 감지 실패"

  /** What a call of the pose model does: return a value (truthy or falsy), return
      `None`, or raise. */
  datatype PoseOutcome = Returned(truthy: bool) | ReturnedNone | Raised

  /** The entries of `lstm_results`: "탑승자", "보행자" and "분석불가". */
  datatype Label = Rider | Pedestrian | Unknown

  /** `None` and an exception give "분석불가", a truthy result "탑승자", a falsy one "보행자". */
  function LabelOf(p: PoseOutcome): (l: Label)
    ensures l == Unknown <==> !p.Returned?
    ensures l == Rider <==> p == Returned(true)
    ensures l == Pedestrian <==> p == Returned(false)
  {
    match p
    case ReturnedNone => Unknown
    case Raised => Unknown
    case Returned(truthy) => if truthy then Rider else Pedestrian
  }

  /** The person's region inside the group crop, `max(py1 - y1, 0) : max(py2 - y1, 0)` and
      likewise horizontally. */
  function PersonCrop(p: Box, crop: Box): (r: Box)
    ensures NonNegative(r)
    ensures r.x1 <= r.x2 && r.y1 <= r.y2 <== p.x1 <= p.x2 && p.y1 <= p.y2
  {
    Box(Max(p.x1 - crop.x1, 0), Max(p.y1 - crop.y1, 0), Max(p.x2 - crop.x1, 0), Max(p.y2 - crop.y1, 0))
  }

  /** The label of every group member, in member order; the pose model sees the group
      crop and the member's region within it. */
  function PoseLabels(g: Group, pose: (Box, Box) -> PoseOutcome): seq<Label> {
    seq(|g.members|, i requires 0 <= i < |g.members| => LabelOf(pose(g.crop, PersonCrop(g.members[i].box, g.crop))))
  }

  /** The loop filling `lstm_results`: one label appended per group member. */
  method ClassifyPoses(g: Group, pose: (Box, Box) -> PoseOutcome) returns (labels: seq<Label>)
    ensures labels == PoseLabels(g, pose)
    ensures |labels| == |g.members|
  {
    labels := [];
    var i := 0;
    while i < |g.members|
      invariant i <= |g.members|
      invariant labels == PoseLabels(g, pose)[..i]
    {
      var pBox := g.members[i].box;
      var outcome := pose(g.crop, PersonCrop(pBox, g.crop));
      if outcome.ReturnedNone? || outcome.Raised? {
        labels := labels + [Unknown];
      } else if outcome.truthy {
        labels := labels + [Rider];
      } else {
        labels := labels + [Pedestrian];
      }
      i := i + 1;
    }
  }

  /** `lstm_results.count(l)`. */
  function Count(labels: seq<Label>, l: Label): nat {
    if labels == [] then 0 else Count(labels[..|labels| - 1], l) + (if labels[|labels| - 1] == l then 1 else 0)
  }

  /** Every member gets exactly one label: `n_rider + n_pedestrian + n_unknown` is the
      group size. */
  lemma {:induction false} CountsPartition(labels: seq<Label>)
    ensures Count(labels, Rider) + Count(labels, Pedestrian) + Count(labels, Unknown) == |labels|
  {
    if labels != [] {
      CountsPartition(labels[..|labels| - 1]);
    }
  }

  /** The outcome of one group after the decision table and, where it gets that far, the
      brand and helmet checks. */
  datatype Verdict =
    | PedestrianRejected(tags: seq<string>)
    | BrandRejected
    | Checked(tags: seq<string>, brand: string, helmet: HelmetResult)

  /** Brand check, then helmet check, after the decision table has let the group through. */
  function AfterDecision(tags: seq<string>, brand: Option<string>, helmet: HelmetResult): Verdict {
    if brand.None? then BrandRejected
    else Checked(tags + [HelmetTag(helmet.detected)], brand.value, helmet)
  }

  /**
   * The decision table in its source order. Only the pedestrian branch stops before the
   * brand check; two or more riders add the double-riding tag and go on; a brand
   * failure rejects without a helmet check; otherwise the helmet tag is appended.
   */
  function Decide(labels: seq<Label>, brand: Option<string>, helmet: HelmetResult): (v: Verdict)
    ensures var nRider, nPedestrian := Count(labels, Rider), Count(labels, Pedestrian);
      (nRider == 0 && nPedestrian >= 1 ==> v == PedestrianRejected([PEDESTRIAN_JUDGED])) &&
      (!(nRider == 0 && nPedestrian >= 1) && brand.None? ==> v == BrandRejected) &&
      (!(nRider == 0 && nPedestrian >= 1) && brand.Some? ==>
        v == Checked((if nRider >= 2 then [DOUBLE_RIDING] else []) + [HelmetTag(helmet.detected)], brand.value, helmet))
  {
    var nRider := Count(labels, Rider);
    var nPedestrian := Count(labels, Pedestrian);
    if nRider >= 2 then AfterDecision([DOUBLE_RIDING], brand, helmet)
    else if nRider == 1 then AfterDecision([], brand, helmet)
    else if nRider == 0 && nPedestrian >= 1 then PedestrianRejected([PEDESTRIAN_JUDGED])
    else AfterDecision([], brand, helmet)
  }

  /** Two riders or more never lead to a pedestrian rejection, whatever the other counts;
      when the brand is found the double-riding tag comes first. */
  lemma DoubleRidingPriority(labels: seq<Label>, brand: Option<string>, helmet: HelmetResult)
    requires Count(labels, Rider) >= 2
    ensures !Decide(labels, brand, helmet).PedestrianRejected?
    ensures brand.Some? ==> Decide(labels, brand, helmet).tags[0] == DOUBLE_RIDING
  {
  }

  /** A group of only unknown labels goes on to the brand check like a single rider. */
  lemma AllUnknownContinues(labels: seq<Label>, brand: Option<string>, helmet: HelmetResult)
    requires forall i :: 0 <= i < |labels| ==> labels[i] == Unknown
    ensures Decide(labels, brand, helmet) ==
      if brand.None? then BrandRejected else Checked([HelmetTag(helmet.detected)], brand.value, helmet)
  {
    CountsPartition(labels);
    UnknownOnlyCounts(labels);
  }

  lemma {:induction false} UnknownOnlyCounts(labels: seq<Label>)
    requires forall i :: 0 <= i < |labels| ==> labels[i] == Unknown
    ensures Count(labels, Rider) == 0 && Count(labels, Pedestrian) == 0
  {
    if labels != [] {
      UnknownOnlyCounts(labels[..|labels| - 1]);
    }
  }

  /**
   * `save_conclusion` without the Firestore write: the document id
   * `conclusion_{doc_id}_{idx}`, `aiConclusion or []`, the brand only when truthy and the
   * confidence only when not `None`.
   */
  function SaveConclusion(report: Report, loc: Location, result: string, imageUrl: string, reportImgUrl: string,
                          idx: nat, aiConclusion: Option<AiConclusion>, detectedBrand: Option<string>,
                          confidence: Option<real>): (r: Conclusion)
    ensures r.key == "conclusion_" + report.docId + "_" + NatToString(idx)
    ensures r.aiConclusion == (if aiConclusion.Some? && Truthy(aiConclusion.value) then aiConclusion.value else Tags([]))
    ensures r.detectedBrand.Some? <==> detectedBrand.Some? && detectedBrand.value != ""
    ensures r.detectedBrand.Some? ==> r.detectedBrand == detectedBrand
    ensures r.confidence == confidence
    ensures r.result == result && r.imageUrl == imageUrl && r.reportImgUrl == reportImgUrl
    ensures r.date == report.date && r.userId == report.userId && r.violation == report.violation
    ensures r.region == loc.region && r.gpsInfo == loc.gpsInfo
  {
    var ai := if aiConclusion.Some? && Truthy(aiConclusion.value) then aiConclusion.value else Tags([]);
    var brand := if detectedBrand.Some? && detectedBrand.value != "" then detectedBrand else None;
    Conclusion("conclusion_" + report.docId + "_" + NatToString(idx), report.date, report.userId, ai,
               report.violation, result, loc.region, loc.gpsInfo, imageUrl, reportImgUrl, brand, confidence)
  }

  /** The record written for a group: index `idx`, evidence crop uploaded under
      `Conclusion/{doc_id}_{idx}.jpg`. */
  function GroupConclusion(report: Report, loc: Location, g: Group, idx: nat, pose: (Box, Box) -> PoseOutcome,
                           brand: Box -> Option<string>, helmet: Box -> HelmetResult,
                           publicUrl: string -> string): Conclusion
  {
    var url := publicUrl(BlobPath(report.docId, idx));
    match Decide(PoseLabels(g, pose), brand(g.crop), helmet(g.crop))
    case PedestrianRejected(tags) =>
      SaveConclusion(report, loc, REJECTED, url, report.imageUrl, idx, Some(Tags(tags)), None, None)
    case BrandRejected =>
      SaveConclusion(report, loc, REJECTED, url, report.imageUrl, idx, Some(Text(BRAND_FAILED)), None, None)
    case Checked(tags, b, hr) =>
      SaveConclusion(report, loc, UNCONFIRMED, url, report.imageUrl, idx, Some(Tags(tags)), Some(b), hr.confidence)
  }

  /**
   * What a group's record says: a pedestrian rejection carries only the pedestrian tag;
   * a brand failure carries the bare string "브랜드 감지 실패" (dropping any
   * double-riding tag) and no brand or confidence; otherwise the result is "미확인"
   * with the double-riding tag (if any) followed by the helmet tag, the brand when it is
   * a non-empty string, and the helmet confidence.
   */
  lemma GroupConclusionContents(report: Report, loc: Location, g: Group, idx: nat, pose: (Box, Box) -> PoseOutcome,
                                brand: Box -> Option<string>, helmet: Box -> HelmetResult, publicUrl: string -> string)
    ensures var r := GroupConclusion(report, loc, g, idx, pose, brand, helmet, publicUrl);
      var labels := PoseLabels(g, pose);
      var nRider, nPedestrian := Count(labels, Rider), Count(labels, Pedestrian);
      var b, hr := brand(g.crop), helmet(g.crop);
      r.key == "conclusion_" + report.docId + "_" + NatToString(idx) &&
      r.imageUrl == publicUrl(BlobPath(report.docId, idx)) && r.reportImgUrl == report.imageUrl &&
      (nRider == 0 && nPedestrian >= 1 ==>
        r.result == REJECTED && r.aiConclusion == Tags([PEDESTRIAN_JUDGED]) &&
        r.detectedBrand.None? && r.confidence.None?) &&
      (!(nRider == 0 && nPedestrian >= 1) && b.None? ==>
        r.result == REJECTED && r.aiConclusion == Text(BRAND_FAILED) &&
        r.detectedBrand.None? && r.confidence.None?) &&
      (!(nRider == 0 && nPedestrian >= 1) && b.Some? ==>
        r.result == UNCONFIRMED &&
        r.aiConclusion == Tags((if nRider >= 2 then [DOUBLE_RIDING] else []) + [HelmetTag(hr.detected)]) &&
        (r.detectedBrand.Some? <==> b.value != "") && (r.detectedBrand.Some? ==> r.detectedBrand == b) &&
        r.confidence == hr.confidence)
  {
  }

  /** The single record of a photo missing kickboards or people: index 0, the report's
      own image, and the ordered detection-failure reasons. */
  function GateRejection(report: Report, loc: Location, kbCount: nat, personCount: nat): (r: Conclusion)
    requires kbCount == 0 || personCount == 0
    ensures r.key == "conclusion_" + report.docId + "_0"
    ensures r.result == REJECTED && r.aiConclusion == Tags(DetectionFailures(kbCount, personCount))
    ensures r.imageUrl == report.imageUrl && r.reportImgUrl == report.imageUrl
    ensures r.detectedBrand.None? && r.confidence.None?
  {
    SaveConclusion(report, loc, REJECTED, report.imageUrl, report.imageUrl, 0,
                   Some(Tags(DetectionFailures(kbCount, personCount))), None, None)
  }

  /** The records of a photo's groups, the `i`-th under index `i`. */
  function GroupRecords(report: Report, loc: Location, groups: seq<Group>, pose: (Box, Box) -> PoseOutcome,
                        brand: Box -> Option<string>, helmet: Box -> HelmetResult,
                        publicUrl: string -> string): seq<Conclusion>
  {
    seq(|groups|, i requires 0 <= i < |groups| => GroupConclusion(report, loc, groups[i], i, pose, brand, helmet, publicUrl))
  }

  /** The body of the kickboard loop once the group is formed: pose labels, the decision
      table, brand and helmet checks, and the record saved under index `idx`. */
  method AnalyzeGroup(report: Report, loc: Location, g: Group, idx: nat, pose: (Box, Box) -> PoseOutcome,
                      brand: Box -> Option<string>, helmet: Box -> HelmetResult, publicUrl: string -> string)
    returns (record: Conclusion)
    ensures record == GroupConclusion(report, loc, g, idx, pose, brand, helmet, publicUrl)
  {
    var labels := ClassifyPoses(g, pose);
    var conclusionUrl := publicUrl(BlobPath(report.docId, idx));
    var nRider, nPedestrian := Count(labels, Rider), Count(labels, Pedestrian);
    var tags: seq<string> := [];
    if nRider >= 2 {
      tags := tags + [DOUBLE_RIDING];
    }
    if nRider == 0 && nPedestrian >= 1 {
      tags := tags + [PEDESTRIAN_JUDGED];
      record := SaveConclusion(report, loc, REJECTED, conclusionUrl, report.imageUrl, idx, Some(Tags(tags)), None, None);
    } else {
      var detected := brand(g.crop);
      if detected.None? {
        record := SaveConclusion(report, loc, REJECTED, conclusionUrl, report.imageUrl, idx,
                                 Some(Text(BRAND_FAILED)), None, None);
      } else {
        var hr := helmet(g.crop);
        tags := tags + [HelmetTag(hr.detected)];
        record := SaveConclusion(report, loc, UNCONFIRMED, conclusionUrl, report.imageUrl, idx,
                                 Some(Tags(tags)), detected, hr.confidence);
      }
    }
  }

  /** The kickboard loop over the formed groups, with the index `idx` rising by one per
      group. */
  method AnalyzeGroups(report: Report, loc: Location, groups: seq<Group>, pose: (Box, Box) -> PoseOutcome,
                       brand: Box -> Option<string>, helmet: Box -> HelmetResult, publicUrl: string -> string)
    returns (records: seq<Conclusion>)
    ensures records == GroupRecords(report, loc, groups, pose, brand, helmet, publicUrl)
  {
    records := [];
    var idx := 0;
    while idx < |groups|
      invariant idx <= |groups|
      invariant records == GroupRecords(report, loc, groups, pose, brand, helmet, publicUrl)[..idx]
    {
      var record := AnalyzeGroup(report, loc, groups[idx], idx, pose, brand, helmet, publicUrl);
      records := records + [record];
      idx := idx + 1;
    }
  }

  /**
   * `process_image` after the image is loaded and the detectors have run: the gate, the
   * grouping, and one record per group under an index that rises by one per group.
   */
  method ProcessImage(report: Report, loc: Location, kbs: seq<Box>, persons: seq<Box>, w: int, h: int,
                      pose: (Box, Box) -> PoseOutcome, brand: Box -> Option<string>,
                      helmet: Box -> HelmetResult, publicUrl: string -> string)
    returns (records: seq<Conclusion>)
    ensures |kbs| == 0 || |persons| == 0 ==> records == [GateRejection(report, loc, |kbs|, |persons|)]
    ensures |kbs| > 0 && |persons| > 0 ==>
      records == GroupRecords(report, loc, Groups(kbs, persons, K, PAD, w, h), pose, brand, helmet, publicUrl)
  {
    var failures: seq<string> := [];
    if |kbs| == 0 {
      failures := failures + [NO_KICKBOARD];
    }
    if |persons| == 0 {
      failures := failures + [NO_PERSON];
    }
    if |kbs| != 0 && |persons| != 0 {
      var groups := FormGroups(kbs, persons, K, PAD, w, h);
      records := AnalyzeGroups(report, loc, groups, pose, brand, helmet, publicUrl);
    } else {
      assert failures == DetectionFailures(|kbs|, |persons|);
      records := [SaveConclusion(report, loc, REJECTED, report.imageUrl, report.imageUrl, 0, Some(Tags(failures)), None, None)];
    }
  }

  /** The records of one photo have distinct document ids. */
  lemma ConclusionKeysDistinct(report: Report, loc: Location, g1: Group, g2: Group, i: nat, j: nat,
                               pose: (Box, Box) -> PoseOutcome, brand: Box -> Option<string>,
                               helmet: Box -> HelmetResult, publicUrl: string -> string)
    requires i != j
    ensures GroupConclusion(report, loc, g1, i, pose, brand, helmet, publicUrl).key !=
            GroupConclusion(report, loc, g2, j, pose, brand, helmet, publicUrl).key
  {
    GroupConclusionContents(report, loc, g1, i, pose, brand, helmet, publicUrl);
    GroupConclusionContents(report, loc, g2, j, pose, brand, helmet, publicUrl);
    if GroupConclusion(report, loc, g1, i, pose, brand, helmet, publicUrl).key ==
       GroupConclusion(report, loc, g2, j, pose, brand, helmet, publicUrl).key {
      FramedInjective("conclusion_" + report.docId + "_", "", i, j);
    }
  }

  /**
   * One kickboard at (100,100)-(200,200) with a person on it and one far away: both are
   * filed under the only kickboard, nearer first, and the crop spans both widened by 200.
   */
  lemma FarPersonStillGrouped()
    ensures var kbs, persons := [Box(100, 100, 200, 200)], [Box(120, 120, 180, 180), Box(400, 400, 450, 450)];
      Groups(kbs, persons, K, PAD, 1000, 1000) ==
        [Group(0, kbs[0], [Candidate(0, 0, persons[0]), Candidate(151250, 1, persons[1])], Box(0, 0, 650, 650))]
  {
    var kbs, persons := [Box(100, 100, 200, 200)], [Box(120, 120, 180, 180), Box(400, 400, 450, 450)];
    var c0 := Candidate(0, 0, persons[0]);
    var c1 := Candidate(151250, 1, persons[1]);
    ExampleBucket();
    assert [c0, c1][1..] == [c1] && [c1][1..] == [];
    assert SortByDistance([c1]) == [c1];
    assert SortByDistance([c0, c1]) == Insert(c0, [c1]) == [c0, c1];
    var tops := TopLists(kbs, persons, K);
    assert tops[0] == [c0, c1];
    assert Boxes([c0, c1]) == [persons[0], persons[1]];
    ExampleCrop();
    assert GroupsUpTo(kbs, tops, PAD, 1000, 1000, 0) == [];
  }

  /** In the example, both people go to the only kickboard, in person order, with their
      squared centre distances 0 and 151250. */
  lemma ExampleBucket()
    ensures var kbs, persons := [Box(100, 100, 200, 200)], [Box(120, 120, 180, 180), Box(400, 400, 450, 450)];
      BucketOf(persons, kbs, 0) == [Candidate(0, 0, persons[0]), Candidate(151250, 1, persons[1])]
  {
    var kbs, persons := [Box(100, 100, 200, 200)], [Box(120, 120, 180, 180), Box(400, 400, 450, 450)];
    assert Center(kbs[0]) == Point(150, 150);
    assert Center(persons[0]) == Point(150, 150);
    assert Center(persons[1]) == Point(425, 425);
  }

  /** In the example, the union (100,100)-(450,450) widened by 200 is clamped at the top
      left only. */
  lemma ExampleCrop()
    ensures CropRect(Box(100, 100, 200, 200), [Box(120, 120, 180, 180), Box(400, 400, 450, 450)], PAD, 1000, 1000) ==
      Box(0, 0, 650, 650)
  {
    var kb, group := Box(100, 100, 200, 200), [Box(120, 120, 180, 180), Box(400, 400, 450, 450)];
    var xs := [100, 200, 120, 400, 180, 450];
    assert Xs(kb, group) == xs && Ys(kb, group) == xs;
    MinMaxAttained(xs);
    assert MinOf(xs) <= xs[0] && MaxOf(xs) >= xs[5];
    assert forall v :: v in xs ==> 100 <= v <= 450;
    assert MinOf(xs) == 100 && MaxOf(xs) == 450;
  }

  /** Two riders in the example's group put the double-riding tag first on its record
      once the brand is found. */
  lemma ExampleDoubleRiding(g: Group, pose: (Box, Box) -> PoseOutcome, brand: Option<string>, helmet: HelmetResult)
    requires |g.members| == 2
    requires forall crop, p :: pose(crop, p) == Returned(true)
    requires brand.Some?
    ensures Decide(PoseLabels(g, pose), brand, helmet).tags[0] == DOUBLE_RIDING
  {
    var labels := PoseLabels(g, pose);
    assert pose(g.crop, PersonCrop(g.members[0].box, g.crop)) == Returned(true);
    assert pose(g.crop, PersonCrop(g.members[1].box, g.crop)) == Returned(true);
    assert labels == [Rider, Rider];
    assert [Rider, Rider][..1] == [Rider] && [Rider][..0] == [];
    assert Count(labels, Rider) == 2;
  }
}
