# Kickboard report analysis — grouping and verdict model

Citizens report electric-kickboard violations with a photo. The analysis scripts run
detectors over the photo for kickboards and people. They file each person under the
nearest kickboard, keep the closest few per kickboard, and cut a padded evidence crop
around each group. In `AI_Analusis.py`, each group is then judged from the pose model's
labels plus the brand and helmet models; `AI_Analusis_new.py` uses only the brand and
helmet models. One `Conclusion` document is written per group,
or one rejection when the photo has no kickboard or no person.

The repository has four copies of this logic with different constants. All four share
one Dafny core:

| script | people kept per kickboard | crop padding | after grouping |
|---|---|---|---|
| `AI_Analusis.py` | 3 | 200 | pose labels, decision table, brand, helmet, record per group |
| `AI_Analusis_new.py` | 2 | 100 | brand and helmet only, record per group |
| `grouping_Photo_Separation.py` | 3 | 10 | crops with the boxes drawn in, saved to `output/` |
| `test.py` | 2 | 100 | bare crops saved to `output/` |

Modules:

- `Wrappers`: `Option`.
- `Geometry`: box centres with Python's floor division, the squared distance, the padded
  and clamped crop rectangle, and moving a box into crop coordinates.
- `Decimal`: the decimal rendering of a counter in f-strings, and its injectivity.
- `Grouping`: the part shared by all four scripts.
  - `NearestKickboard`: the first-minimum scan.
  - `AssignPersons`: assigns every person.
  - `FillBuckets`: builds the per-kickboard lists.
  - A stable sort by distance, then truncation (`TopK`).
  - `FormGroups`: the loop over kickboards that skips empty lists and computes each crop.
- `Records`: the `Conclusion` document, the result strings and the detection-failure tags.
- `Analysis`, `AnalysisNew`, `PhotoSeparation`, `TestScript`: one module per script.

The models are parameters of the functions and methods that use them:

- pose, brand and helmet map crop rectangles to their answers;
- the storage URL maps a blob path to its public URL.

The pose model raising an exception is one of the outcomes of `PoseOutcome`.

The model follows the code as written; in particular:

- In `AI_Analusis.py`, two or more riders add the double-riding tag, and the group goes on
  to the brand and helmet checks (`Analysis.Decide`).
- A group whose labels are all "unknown" goes on to the brand and helmet checks like a
  single rider (`Analysis.AllUnknownContinues`).
- When the brand check fails, the record's `aiConclusion` is the bare string
  "브랜드 감지 실패", not a list. Any double-riding tag collected before is lost
  (`Analysis.GroupConclusionContents`).
- A crop that clamps to zero area is processed like any other.
- `AI_Analusis_new.py` has no pose step and no brand rejection. A missing brand is simply
  not stored.
- The comments speak of the "2 closest people", but `AI_Analusis.py` and
  `grouping_Photo_Separation.py` keep 3.
- The counter that names records and crops differs:
  - `AI_Analusis.py` and the two offline scripts count only groups that were processed.
  - `AI_Analusis_new.py` uses the kickboard's own index.

## Model

| member | source | states |
|---|---|---|
| Geometry.Center | AI_Analusis.py:87-88 | each coordinate is the floor of the half-sum of the box edges; it lies inside the box |
| Geometry.SqDist | AI_Analusis.py:128 | the squared centre distance is non-negative and zero exactly for equal points |
| Geometry.MinOf | AI_Analusis.py:151 | `min(xs)` is a lower bound of the list |
| Geometry.MaxOf | AI_Analusis.py:152 | `max(xs)` is an upper bound of the list |
| Geometry.MinMaxAttained | AI_Analusis.py:151-154 | the minimum and maximum are elements of the list |
| Geometry.CropRect | AI_Analusis.py:149-154 | the crop never leaves the image `[0, w] x [0, h]` |
| Geometry.Xs | AI_Analusis.py:149 | defines `xs`: the kickboard's left and right edges, then every member's left edges, then their right edges (read by CropIsPaddedUnion and CropContains) |
| Geometry.Ys | AI_Analusis.py:150 | defines `ys`, the same list on the vertical axis |
| Geometry.CropIsPaddedUnion | AI_Analusis.py:149-154 | on each axis (PaddedSpan), an edge is either at the image border or exactly `pad` beyond the outermost coordinate on its side, and no edge is further than `pad` from some coordinate: the crop is `max(min - pad, 0)` to `min(max + pad, limit)` |
| Geometry.PaddedAxis | AI_Analusis.py:151-154 | one axis of that statement, for the least and greatest coordinate of the list |
| Geometry.Translate | grouping_Photo_Separation.py:50-57 | defines the move of a box into crop coordinates by subtracting the crop's top-left corner (properties in TranslateIntoCrop) |
| Geometry.CropContains | AI_Analusis.py:149-154 | with non-negative padding, the crop contains the kickboard and every group box that lie in the image |
| Geometry.CropOrdered | AI_Analusis.py:149-155 | with the kickboard in the image, the crop is a well-formed sub-rectangle of the image |
| Geometry.TranslateIntoCrop | grouping_Photo_Separation.py:50-58 | boxes moved by the crop corner start at or after the origin; for in-image boxes they end within the crop's width and height |
| Decimal.NatToString | AI_Analusis.py:58 | the counter's rendering is a non-empty digit string without leading zeros, one digit exactly below 10 |
| Decimal.NatToStringInjective | AI_Analusis.py:58 | different counters render differently |
| Decimal.FramedInjective | AI_Analusis.py:58 | names made of a fixed prefix, a counter and a fixed suffix are equal only for equal counters |
| Grouping.NearestAmong | AI_Analusis.py:124-131 | defines the inner scan over the first n kickboard centres, replacing the best only on a strictly smaller distance (properties in NearestAmongIsFirstMinimum) |
| Grouping.Nearest | AI_Analusis.py:124-132 | defines a person's assignment as the scan over all kickboards (properties in NearestIsFirstMinimum) |
| Grouping.NearestAmongIsFirstMinimum | AI_Analusis.py:124-131 | after scanning n kickboards, the scan holds nothing exactly when n = 0; otherwise it holds a minimum among the scanned kickboards, strictly closer than all kickboards before it, with its distance |
| Grouping.NearestIsFirstMinimum | AI_Analusis.py:124-132 | a person gets no kickboard exactly when there are none; otherwise the first nearest one and its distance |
| Grouping.FirstNearestUnique | AI_Analusis.py:129-131 | the first nearest kickboard is unique: the strict comparison breaks ties toward the lower index |
| Grouping.NearestKickboard | AI_Analusis.py:125-132 | the inner loop returns the first nearest kickboard and its distance, or none when there is no kickboard |
| Grouping.Assignment | AI_Analusis.py:121-132 | defines `person_assignment`: one entry per person, in person order (properties in AssignmentIsNearest) |
| Grouping.AssignmentIsNearest | AI_Analusis.py:121-132 | every person is assigned exactly when a kickboard exists, to the first nearest kickboard with that distance |
| Grouping.AssignPersons | AI_Analusis.py:121-132 | the outer loop assigns every person, in person order |
| Grouping.Bucket | AI_Analusis.py:135-137 | defines kickboard k's list after the first n people: each person assigned to k, with the distance and box, in person order (properties in BucketMembers, BucketIncreasing) |
| Grouping.BucketOf | AI_Analusis.py:135-137 | defines `kb_persons[k]` after all people (properties in EveryPersonInOneBucket, BucketSizesSum) |
| Grouping.FillBuckets | AI_Analusis.py:135-137 | one list per kickboard; each is the assigned people in person order |
| Grouping.BucketMembers | AI_Analusis.py:136-137 | a candidate is in kickboard k's list iff that person was assigned to k with that distance and carries that person's box |
| Grouping.BucketIncreasing | AI_Analusis.py:136-137 | every list is in increasing person order |
| Grouping.BucketSizesSum | AI_Analusis.py:135-137 | when everyone is assigned, the list sizes add up to the number of people |
| Grouping.EveryPersonInOneBucket | AI_Analusis.py:135-137 | each person is in the list of their assigned kickboard and no other; the lists hold everybody |
| Grouping.Insert | AI_Analusis.py:143 | defines one insertion step of a stable sort by distance (properties in InsertPermutes, InsertSortedByDistance, InsertInDistanceOrder) |
| Grouping.SortByDistance | AI_Analusis.py:143 | defines `sorted(..., key=distance)` as insertion sort (properties in SortPermutes, SortByDistanceSorted) |
| Grouping.InsertPermutes | AI_Analusis.py:143 | insertion adds exactly the inserted candidate |
| Grouping.SortPermutes | AI_Analusis.py:143 | sorting a list permutes it |
| Grouping.InsertSortedByDistance | AI_Analusis.py:143 | insertion keeps a list sorted by distance |
| Grouping.InsertInDistanceOrder | AI_Analusis.py:143 | inserting an earlier person keeps the ascending (distance, person) order, as Python's stable sort does |
| Grouping.SortByDistanceSorted | AI_Analusis.py:143 | the sort gives ascending distance; a list in person order comes out with ties in person order |
| Grouping.TopK | AI_Analusis.py:143 | defines `sorted(...)[:k]` (properties in TopKPrefix, TopKSorted, TopKClosest) |
| Grouping.TopKPrefix | AI_Analusis.py:143 | `[:k]` takes the first min(k, size) candidates of the sorted list, a sub-multiset of the list |
| Grouping.TopKSorted | AI_Analusis.py:143 | the kept candidates number min(k, size), come from the list, are sorted, and are stable on ties |
| Grouping.TopKClosest | AI_Analusis.py:143 | no left-out candidate is closer than a kept one; on ties the earlier person is kept |
| Grouping.TopLists | AI_Analusis.py:142-143 | defines `close_persons` for every kickboard, in kickboard order |
| Grouping.GroupsUpTo | AI_Analusis.py:142-154 | defines the groups formed from the first n kickboards: kickboards with an empty list are skipped (properties in GroupsUpToShape, GroupsUpToComplete) |
| Grouping.Groups | AI_Analusis.py:142-154 | defines the groups of the whole photo (properties in GroupsShape, GroupMembers, PersonInOneGroup) |
| Grouping.FormGroups | AI_Analusis.py:121-154 | assignment, lists and the kickboard loop yield exactly `Groups`: one group per kickboard with assigned people, in kickboard order, holding its closest k people and their padded crop (see GroupsShape, GroupMembers) |
| Grouping.GroupsUpToShape | AI_Analusis.py:142-146 | after the first n kickboards, each group is a kickboard below n with its non-empty top list and crop; kickboard indices strictly increase |
| Grouping.GroupsUpToComplete | AI_Analusis.py:144-145 | every kickboard below n with a non-empty top list has a group |
| Grouping.GroupsShape | AI_Analusis.py:142-154 | at most one group per kickboard, in kickboard order; each is its kickboard, top-k list and crop; a kickboard has a group iff k > 0 and someone was assigned to it |
| Grouping.GroupMembers | AI_Analusis.py:142-146 | a group holds 1 to k people in ascending (distance, person) order; each is a detected person whose first nearest kickboard is the group's; nobody left out precedes a member; no person appears twice in a group |
| Grouping.PersonInOneGroup | AI_Analusis.py:121-146 | nobody appears in two groups; a person found in two groups is the same entry of the same group |
| Records.DetectionFailures | AI_Analusis.py:105-113 | the tags are empty iff both kinds were detected; there is a kickboard (person) tag iff no kickboard (person) was found; the kickboard tag comes first; there is exactly one tag per missing kind |
| Records.Truthy | AI_Analusis.py:67 | defines Python truthiness of the `aiConclusion` argument: a non-empty list or string (used by SaveConclusion) |
| Records.HelmetTag | AI_Analusis.py:253-259 | defines the helmet tag: no violation when a helmet is detected, otherwise no helmet |
| Records.BlobPath | AI_Analusis.py:199 | defines the upload path `Conclusion/{doc}_{idx}.jpg` (properties in BlobPathsDistinct) |
| Records.BlobPathsDistinct | AI_Analusis.py:199 | crops of one report with different counters are uploaded under different paths |
| Analysis.LabelOf | AI_Analusis.py:169-178 | `None` and an exception give "unknown"; a truthy result gives "rider"; a falsy one gives "pedestrian" |
| Analysis.PersonCrop | AI_Analusis.py:163-167 | the person's region in crop coordinates is clamped at zero and ordered when the person box is |
| Analysis.ClassifyPoses | AI_Analusis.py:160-178 | one label per group member, in member order, from the pose model on the group crop and the member's region |
| Analysis.PoseLabels | AI_Analusis.py:160-178 | defines `lstm_results`: the label of each member, in member order (ClassifyPoses computes it) |
| Analysis.Count | AI_Analusis.py:182-184 | defines `list.count(label)` (properties in CountsPartition, UnknownOnlyCounts) |
| Analysis.CountsPartition | AI_Analusis.py:182-184 | the rider, pedestrian and unknown counts add up to the group size |
| Analysis.UnknownOnlyCounts | AI_Analusis.py:182-184 | a list of only unknown labels has no rider and no pedestrian |
| Analysis.AfterDecision | AI_Analusis.py:225-259 | defines the steps after the rider table: a missing brand rejects, otherwise the helmet tag is appended (properties in Decide, AllUnknownContinues) |
| Analysis.Decide | AI_Analusis.py:187-259 | no rider and at least one pedestrian: rejection with the pedestrian tag. Otherwise a missing brand rejects. Otherwise the double-riding tag (two or more riders) is followed by the helmet tag, with the brand and helmet result |
| Analysis.DoubleRidingPriority | AI_Analusis.py:187-189 | two riders never give a pedestrian rejection; when the brand is found, the double-riding tag comes first |
| Analysis.AllUnknownContinues | AI_Analusis.py:220-259 | an all-unknown group is judged like a single rider: brand rejection or the helmet tag alone |
| Analysis.SaveConclusion | AI_Analusis.py:43-81 | the document id is `conclusion_{doc}_{idx}`; `aiConclusion or []`; the brand only when truthy; the confidence whenever not `None`; the other fields copied |
| Analysis.GroupConclusion | AI_Analusis.py:187-284 | defines the record one group produces (properties in GroupConclusionContents) |
| Analysis.GroupConclusionContents | AI_Analusis.py:187-284 | a group's record: a pedestrian rejection with only its tag; or a brand rejection with the bare failure string and no brand or confidence; or "미확인" with the double-riding tag if any, then the helmet tag, plus the brand model's answer (when truthy) and the confidence; the crop's public URL and the report image |
| Analysis.GroupRecords | AI_Analusis.py:140-284 | defines the records of all groups, the `i`-th from group `i` under index `i` (AnalyzeGroups computes it) |
| Analysis.AnalyzeGroup | AI_Analusis.py:157-284 | the loop body (pose labels, decision table, brand and helmet checks, record) produces exactly the record that GroupConclusionContents describes for that group and index |
| Analysis.AnalyzeGroups | AI_Analusis.py:140-284 | the loop over the groups writes their records in group order, the `i`-th under index `i` |
| Analysis.GateRejection | AI_Analusis.py:286-299 | a photo without kickboards or people gets one rejection under index 0, with the detection-failure tags and the report's own image |
| Analysis.ProcessImage | AI_Analusis.py:97-299 | a photo without kickboards or people yields the gate record alone; otherwise one record per group of `Groups` with K = 3 and padding 200, the index counting groups |
| Analysis.ConclusionKeysDistinct | AI_Analusis.py:58 | records with different indices have different document ids |
| Analysis.FarPersonStillGrouped | AI_Analusis.py:121-154 | one kickboard (100,100)-(200,200), a person on it and one at (400,400)-(450,450): a single group holding both, nearer first, crop (0,0)-(650,650) |
| Analysis.ExampleBucket | AI_Analusis.py:121-137 | in that example both people are filed under the only kickboard in person order, at squared distances 0 and 151250 |
| Analysis.ExampleCrop | AI_Analusis.py:149-154 | in that example the crop is the union widened by 200 and clamped at the top left |
| Analysis.ExampleDoubleRiding | AI_Analusis.py:160-189 | a two-person group with both labelled riders gets the double-riding tag first once the brand is found |
| AnalysisNew.SaveConclusion | AI_Analusis_new.py:43-81 | the document id is `conclusion_` plus the caller's id; `reportImgUrl or imageUrl`; `aiConclusion or []`; the brand only when truthy; the confidence whenever not `None` |
| AnalysisNew.GroupConclusion | AI_Analusis_new.py:149-190 | defines the record one group produces (properties in GroupConclusionContents) |
| AnalysisNew.GroupConclusionContents | AI_Analusis_new.py:149-190 | every group's record is "미확인" with the helmet tag only, is keyed by the kickboard index, stores the brand model's answer exactly when it is truthy, and carries the helmet confidence |
| AnalysisNew.GroupRecords | AI_Analusis_new.py:134-190 | defines the records of all groups, in kickboard order (AnalyzeGroups computes it) |
| AnalysisNew.AnalyzeGroup | AI_Analusis_new.py:149-190 | the loop body (brand and helmet checks, record) produces exactly the record that GroupConclusionContents describes |
| AnalysisNew.AnalyzeGroups | AI_Analusis_new.py:134-190 | the loop over the groups writes their records in kickboard order |
| AnalysisNew.GateRejection | AI_Analusis_new.py:195-212 | the rejection is keyed `conclusion_{doc}` and carries the detection-failure tags and the report's image |
| AnalysisNew.ProcessImage | AI_Analusis_new.py:95-212 | a photo without kickboards or people yields the gate record alone; otherwise one record per group of `Groups` with K = 2 and padding 100, in kickboard order |
| AnalysisNew.KeysFollowKickboards | AI_Analusis_new.py:178 | groups of different kickboards get different document ids |
| AnalysisNew.ConclusionKeysDistinct | AI_Analusis_new.py:134-190 | the records of one photo have pairwise different document ids |
| PhotoSeparation.OutputPath | grouping_Photo_Separation.py:61 | the path is `output/_`, then exactly the counter's decimal digits, then `.jpg` |
| PhotoSeparation.OutputPathsDistinct | grouping_Photo_Separation.py:61-64 | different counter values give different file names |
| PhotoSeparation.OutputOf | grouping_Photo_Separation.py:48-62 | defines one saved picture: its path, the crop, and the kickboard and member boxes in crop coordinates |
| PhotoSeparation.Outputs | grouping_Photo_Separation.py:33-64 | defines the pictures of all groups, the `i`-th named after counter `i` (Separate computes it) |
| PhotoSeparation.DrawGroup | grouping_Photo_Separation.py:48-61 | the loop body moves the kickboard and every member into crop coordinates, in member order, and names the picture after the counter |
| PhotoSeparation.Separate | grouping_Photo_Separation.py:33-64 | one output per group, numbered from 0 by a counter of saved groups, with the kickboard and member boxes in crop coordinates |
| PhotoSeparation.OutputsMatchGroups | grouping_Photo_Separation.py:33-64 | as many outputs as groups (at most one per kickboard), pairwise different paths, at most 3 people drawn per crop |
| PhotoSeparation.DrawnBoxesInsideCrop | grouping_Photo_Separation.py:50-58 | with all detections in the image, every rectangle drawn into a crop lies within the crop's width and height |
| TestScript.SavedCrops | test.py:33-54 | defines the saved crops of all groups, the `i`-th named after counter `i` (SaveCrops computes it) |
| TestScript.SaveCrops | test.py:33-54 | one saved crop per group, numbered from 0 by a counter of saved groups |
| TestScript.SavedCropsCoverGroups | test.py:35-54 | with all detections in the image, every crop is a well-formed image rectangle that contains its kickboard and its 1 or 2 people; file names are pairwise different |

## Left out

- Image download, decoding and pixel data are left out. The image is reduced to its width
  and height. A failed download, where the script returns early, is not modelled.
- The detectors and the pose, brand and helmet models are parameters. Their box outputs are
  taken as integer rectangles.
- Float coordinates and the `int(...)` truncation of crop edges are not modelled.
- Geometry.SqDist: the distance is the squared integer distance between the floored
  centres, not the float `np.hypot`. Both order kickboards the same way, so the same
  kickboard is chosen. The stored distances differ from the script's float values.
- Firestore writes, Storage uploads, temporary files and `cv2.imwrite` are not modelled.
  Each is represented by the record or path it would write; the public URL is a parameter.
- `find_adress`, the reverse geocoding and the GPS parsing are represented by a `Location`
  parameter. A report without GPS information, where `find_adress` returns nothing and the
  script fails, is not modelled. In `AI_Analusis_new.py` the address is looked up twice
  per group; the model uses one value.
- Drawing the helmet boxes and the rectangles onto the image, and the console output, are
  left out.
- The Firestore change listener and the per-report dispatch are not part of this model.
- Grouping.FormGroups: requires a kickboard whenever there is a person. The offline scripts
  fail on a person without a kickboard; the server scripts never call it then.
- Analysis.GroupConclusion, AnalysisNew.GroupConclusion: the blob paths use the report id
  and counter. Their distinctness across reports is not stated.
