/**
 * `AI_Analusis_new.py`: the same gate and grouping (closest 2, crop padded by 100), no
 * pose step and no rejection on a missing brand; every group gets a helmet tag and an
 * "미확인" record named after its kickboard's index.
 */
module AnalysisNew {
  import opened Wrappers
  import opened Geometry
  import opened Grouping
  import opened Decimal
  import opened Records

  /** `sorted(...)[:2]`. */
  const K: nat := 2
  /** `pad = 100`. */
  const PAD: int := 100

  /**
   * `save_conclusion` of this script without the Firestore write: the document id is
   * `conclusion_` followed by the id the caller passes, `aiConclusion or []`,
   * `reportImgUrl or imageUrl`, the brand only when truthy, the confidence only when not
   * `None`.
   */
  function SaveConclusion(docId: string, report: Report, loc: Location, result: string, imageUrl: string,
                          reportImgUrl: string, aiConclusion: Option<AiConclusion>, detectedBrand: Option<string>,
                          confidence: Option<real>): (r: Conclusion)
    ensures r.key == "conclusion_" + docId
    ensures r.aiConclusion == (if aiConclusion.Some? && Truthy(aiConclusion.value) then aiConclusion.value else Tags([]))
    ensures r.reportImgUrl == (if reportImgUrl != "" then reportImgUrl else imageUrl)
    ensures r.reportImgUrl != "" <== imageUrl != ""
    ensures r.detectedBrand.Some? <==> detectedBrand.Some? && detectedBrand.value != ""
    ensures r.detectedBrand.Some? ==> r.detectedBrand == detectedBrand
    ensures r.confidence == confidence
    ensures r.result == result && r.imageUrl == imageUrl
    ensures r.date == report.date && r.userId == report.userId && r.violation == report.violation
    ensures r.region == loc.region && r.gpsInfo == loc.gpsInfo
  {
    var ai := if aiConclusion.Some? && Truthy(aiConclusion.value) then aiConclusion.value else Tags([]);
    var brand := if detectedBrand.Some? && detectedBrand.value != "" then detectedBrand else None;
    var reportImg := if reportImgUrl != "" then reportImgUrl else imageUrl;
    Conclusion("conclusion_" + docId, report.date, report.userId, ai, report.violation, result,
               loc.region, loc.gpsInfo, imageUrl, reportImg, brand, confidence)
  }

  /** The record written for a group: named `{doc_id}_{k_idx}` after its kickboard, crop
      uploaded under `Conclusion/{doc_id}_{k_idx}.jpg`. */
  function GroupConclusion(report: Report, loc: Location, g: Group, brand: Box -> Option<string>,
                           helmet: Box -> HelmetResult, publicUrl: string -> string): Conclusion
  {
    var hr := helmet(g.crop);
    SaveConclusion(report.docId + "_" + NatToString(g.kb), report, loc, UNCONFIRMED,
                   publicUrl(BlobPath(report.docId, g.kb)), report.imageUrl,
                   Some(Tags([HelmetTag(hr.detected)])), brand(g.crop), hr.confidence)
  }

  /**
   * What a group's record says: never a rejection; the helmet tag is the only tag; a
   * missing or empty brand is simply not stored; the helmet confidence is copied.
   */
  lemma GroupConclusionContents(report: Report, loc: Location, g: Group, brand: Box -> Option<string>,
                                helmet: Box -> HelmetResult, publicUrl: string -> string)
    ensures var r := GroupConclusion(report, loc, g, brand, helmet, publicUrl);
      var b, hr := brand(g.crop), helmet(g.crop);
      r.key == "conclusion_" + report.docId + "_" + NatToString(g.kb) &&
      r.result == UNCONFIRMED &&
      r.aiConclusion == Tags([if hr.detected then NO_VIOLATION else NO_HELMET]) &&
      r.imageUrl == publicUrl(BlobPath(report.docId, g.kb)) &&
      r.reportImgUrl == (if report.imageUrl != "" then report.imageUrl else r.imageUrl) &&
      (r.detectedBrand.Some? <==> b.Some? && b.value != "") && (r.detectedBrand.Some? ==> r.detectedBrand == b) &&
      r.confidence == hr.confidence
  {
  }

  /** The single record of a photo missing kickboards or people, named after the report
      alone. */
  function GateRejection(report: Report, loc: Location, kbCount: nat, personCount: nat): (r: Conclusion)
    requires kbCount == 0 || personCount == 0
    ensures r.key == "conclusion_" + report.docId
    ensures r.result == REJECTED && r.aiConclusion == Tags(DetectionFailures(kbCount, personCount))
    ensures r.imageUrl == report.imageUrl && r.reportImgUrl == report.imageUrl
    ensures r.detectedBrand.None? && r.confidence.None?
  {
    SaveConclusion(report.docId, report, loc, REJECTED, report.imageUrl, report.imageUrl,
                   Some(Tags(DetectionFailures(kbCount, personCount))), None, None)
  }

  /** The records of a photo's groups, in kickboard order. */
  function GroupRecords(report: Report, loc: Location, groups: seq<Group>, brand: Box -> Option<string>,
                        helmet: Box -> HelmetResult, publicUrl: string -> string): seq<Conclusion>
  {
    seq(|groups|, i requires 0 <= i < |groups| => GroupConclusion(report, loc, groups[i], brand, helmet, publicUrl))
  }

  /** The body of the kickboard loop once the group is formed: brand and helmet checks on
      the crop, and the record named after the kickboard. */
  method AnalyzeGroup(report: Report, loc: Location, g: Group, brand: Box -> Option<string>,
                      helmet: Box -> HelmetResult, publicUrl: string -> string) returns (record: Conclusion)
    ensures record == GroupConclusion(report, loc, g, brand, helmet, publicUrl)
  {
    var detected := brand(g.crop);
    var hr := helmet(g.crop);
    var tags := [HelmetTag(hr.detected)];
    var conclusionUrl := publicUrl(BlobPath(report.docId, g.kb));
    record := SaveConclusion(report.docId + "_" + NatToString(g.kb), report, loc, UNCONFIRMED,
                             conclusionUrl, report.imageUrl, Some(Tags(tags)), detected, hr.confidence);
  }

  /** The kickboard loop over the formed groups. */
  method AnalyzeGroups(report: Report, loc: Location, groups: seq<Group>, brand: Box -> Option<string>,
                       helmet: Box -> HelmetResult, publicUrl: string -> string) returns (records: seq<Conclusion>)
    ensures records == GroupRecords(report, loc, groups, brand, helmet, publicUrl)
  {
    records := [];
    var j := 0;
    while j < |groups|
      invariant j <= |groups|
      invariant records == GroupRecords(report, loc, groups, brand, helmet, publicUrl)[..j]
    {
      var record := AnalyzeGroup(report, loc, groups[j], brand, helmet, publicUrl);
      records := records + [record];
      j := j + 1;
    }
  }

  /** `process_image` of this script after the detectors have run. */
  method ProcessImage(report: Report, loc: Location, kbs: seq<Box>, persons: seq<Box>, w: int, h: int,
                      brand: Box -> Option<string>, helmet: Box -> HelmetResult, publicUrl: string -> string)
    returns (records: seq<Conclusion>)
    ensures |kbs| == 0 || |persons| == 0 ==> records == [GateRejection(report, loc, |kbs|, |persons|)]
    ensures |kbs| > 0 && |persons| > 0 ==>
      records == GroupRecords(report, loc, Groups(kbs, persons, K, PAD, w, h), brand, helmet, publicUrl)
  {
    var failures: seq<string> := [];
    if |kbs| == 0 {
      failures := failures + [NO_KICKBOARD];
    }
    if |persons| == 0 {
      failures := failures + [NO_PERSON];
    }
    if |kbs| != 0 && |persons| != 0 {
      var groups := FormGroups(kbs, persons, K, PAD, w, h);
      records := AnalyzeGroups(report, loc, groups, brand, helmet, publicUrl);
    } else {
      assert failures == DetectionFailures(|kbs|, |persons|);
      records := [SaveConclusion(report.docId, report, loc, REJECTED, report.imageUrl, report.imageUrl,
                                 Some(Tags(failures)), None, None)];
    }
  }

  /** Groups of different kickboards get different document ids. */
  lemma KeysFollowKickboards(report: Report, loc: Location, g1: Group, g2: Group, brand: Box -> Option<string>,
                             helmet: Box -> HelmetResult, publicUrl: string -> string)
    requires g1.kb != g2.kb
    ensures GroupConclusion(report, loc, g1, brand, helmet, publicUrl).key !=
            GroupConclusion(report, loc, g2, brand, helmet, publicUrl).key
  {
    var key1 := GroupConclusion(report, loc, g1, brand, helmet, publicUrl).key;
    var key2 := GroupConclusion(report, loc, g2, brand, helmet, publicUrl).key;
    var id1, id2 := report.docId + "_" + NatToString(g1.kb), report.docId + "_" + NatToString(g2.kb);
    if key1 == key2 {
      assert key1 == "conclusion_" + id1 && key2 == "conclusion_" + id2;
      assert id1 == key1[|"conclusion_"|..] && id2 == key2[|"conclusion_"|..];
      assert id1 == id1 + "" && id2 == id2 + "";
      FramedInjective(report.docId + "_", "", g1.kb, g2.kb);
    }
  }

  /** The records of one photo have distinct document ids, because each group belongs to
      a different kickboard. */
  lemma ConclusionKeysDistinct(report: Report, loc: Location, kbs: seq<Box>, persons: seq<Box>, w: int, h: int,
                               brand: Box -> Option<string>, helmet: Box -> HelmetResult,
                               publicUrl: string -> string, i: nat, j: nat)
    requires i < j < |Groups(kbs, persons, K, PAD, w, h)|
    ensures var groups := Groups(kbs, persons, K, PAD, w, h);
      GroupConclusion(report, loc, groups[i], brand, helmet, publicUrl).key !=
      GroupConclusion(report, loc, groups[j], brand, helmet, publicUrl).key
  {
    var groups := Groups(kbs, persons, K, PAD, w, h);
    GroupsShape(kbs, persons, K, PAD, w, h);
    KeysFollowKickboards(report, loc, groups[i], groups[j], brand, helmet, publicUrl);
  }
}
