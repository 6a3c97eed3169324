/**
 * The conclusion document the analysis scripts write to the `Conclusion` collection,
 * and the strings and inputs the scripts share.
 */
module Records {
  import opened Wrappers
  import opened Decimal

  /** `aiConclusion`: a list of tags, or a bare string where the script passes one. */
  datatype AiConclusion = Tags(tags: seq<string>) | Text(text: string)

  /** The fields of the report that every conclusion copies. */
  datatype Report = Report(docId: string, date: string, userId: string, violation: string, imageUrl: string)

  /** What `find_adress` returns for the report: the parcel address and `f"{lat} {lon}"`. */
  datatype Location = Location(region: string, gpsInfo: string)

  /** The helmet model's answer on a crop: whether a helmet was found, and the top
      confidence (`None` when the model reports none). */
  datatype HelmetResult = HelmetResult(detected: bool, confidence: Option<real>)

  /** One document of the `Conclusion` collection, with its document id as `key`. */
  datatype Conclusion = Conclusion(
    key: string,
    date: string,
    userId: string,
    aiConclusion: AiConclusion,
    violation: string,
    result: string,
    region: string,
    gpsInfo: string,
    imageUrl: string,
    reportImgUrl: string,
    detectedBrand: Option<string>,
    confidence: Option<real>)

  const REJECTED := "반려"
  const UNCONFIRMED := "미확인"
  const NO_KICKBOARD := "킥보드 감지 실패"
  const NO_PERSON := "사람 감지 실패"
  const NO_VIOLATION := "위반 사항 없음"
  const NO_HELMET := "헬멧 미착용"

  /** Python truthiness of the `aiConclusion` argument. */
  predicate Truthy(a: AiConclusion) {
    match a
    case Tags(tags) => tags != []
    case Text(text) => text != ""
  }

  /** `traffic_violation_detection`: the reasons a photo is rejected before any grouping. */
  function DetectionFailures(kbCount: nat, personCount: nat): (reasons: seq<string>)
    ensures reasons == [] <==> kbCount > 0 && personCount > 0
    ensures NO_KICKBOARD in reasons <==> kbCount == 0
    ensures NO_PERSON in reasons <==> personCount == 0
    ensures kbCount == 0 ==> reasons[0] == NO_KICKBOARD
    ensures |reasons| == (if kbCount == 0 then 1 else 0) + (if personCount == 0 then 1 else 0)
  {
    (if kbCount == 0 then [NO_KICKBOARD] else []) + (if personCount == 0 then [NO_PERSON] else [])
  }

  /** The tag the helmet check appends. */
  function HelmetTag(detected: bool): string {
    if detected then NO_VIOLATION else NO_HELMET
  }

  /** The storage path `f"Conclusion/{doc_id}_{n}.jpg"` of an evidence crop. */
  function BlobPath(docId: string, n: nat): string {
    "Conclusion/" + docId + "_" + NatToString(n) + ".jpg"
  }

  /** Different crops of one report are uploaded under different paths, so none
      overwrites another. */
  lemma BlobPathsDistinct(docId: string, m: nat, n: nat)
    requires m != n
    ensures BlobPath(docId, m) != BlobPath(docId, n)
  {
    if BlobPath(docId, m) == BlobPath(docId, n) {
      FramedInjective("Conclusion/" + docId + "_", ".jpg", m, n);
    }
  }
}
