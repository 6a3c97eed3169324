/**
 * The detection-grouping core shared by the four scripts: every person goes to the one
 * kickboard whose centre is nearest (first index on a tie), people are bucketed per
 * kickboard in person order, each bucket is sorted by distance (stably) and cut to its
 * closest `k`, empty buckets are skipped, and each remaining group gets its evidence crop.
 */
module Grouping {
  import opened Wrappers
  import opened Geometry

  /** `person_assignment[i] == (assigned_kb, min_dist)`. */
  datatype Assigned = Assigned(kb: nat, dist: int)

  /** An entry `(dist, person_box)` of `kb_persons`, together with the person's index. */
  datatype Candidate = Candidate(dist: int, person: nat, box: Box)

  /** One kickboard with its closest assigned people and its crop. */
  datatype Group = Group(kb: nat, kbBox: Box, members: seq<Candidate>, crop: Box)

  function Centers(boxes: seq<Box>): seq<Point> {
    seq(|boxes|, i requires 0 <= i < |boxes| => Center(boxes[i]))
  }

  function Boxes(s: seq<Candidate>): seq<Box> {
    seq(|s|, i requires 0 <= i < |s| => s[i].box)
  }

  // ---------------------------------------------------------------------------
  // Nearest kickboard

  /** Kickboard `j` is at least as close to `p` as every kickboard, and strictly closer
      than every kickboard before it. */
  ghost predicate IsFirstNearest(p: Point, kcs: seq<Point>, j: nat) {
    j < |kcs| &&
    (forall k :: 0 <= k < |kcs| ==> SqDist(p, kcs[j]) <= SqDist(p, kcs[k])) &&
    (forall k :: 0 <= k < j ==> SqDist(p, kcs[j]) < SqDist(p, kcs[k]))
  }

  /** The state of the scan `min_dist`/`assigned_kb` after the first `n` kickboards. */
  function NearestAmong(p: Point, kcs: seq<Point>, n: nat): Option<Assigned>
    requires n <= |kcs|
  {
    if n == 0 then None
    else
      var best := NearestAmong(p, kcs, n - 1);
      var d := SqDist(p, kcs[n - 1]);
      if best.None? || d < best.value.dist then Some(Assigned(n - 1, d)) else best
  }

  function Nearest(p: Point, kcs: seq<Point>): Option<Assigned> {
    NearestAmong(p, kcs, |kcs|)
  }

  lemma {:induction false} NearestAmongIsFirstMinimum(p: Point, kcs: seq<Point>, n: nat)
    requires n <= |kcs|
    ensures var r := NearestAmong(p, kcs, n);
      (r.None? <==> n == 0) &&
      (r.Some? ==>
        (r.value.kb < n && r.value.dist == SqDist(p, kcs[r.value.kb]) &&
         (forall k :: 0 <= k < n ==> r.value.dist <= SqDist(p, kcs[k])) &&
         (forall k :: 0 <= k < r.value.kb ==> r.value.dist < SqDist(p, kcs[k]))))
  {
    if n > 0 {
      NearestAmongIsFirstMinimum(p, kcs, n - 1);
    }
  }

  /** The scan yields no kickboard exactly when there is none, and otherwise the first
      nearest one together with its distance. */
  lemma NearestIsFirstMinimum(p: Point, kcs: seq<Point>)
    ensures var r := Nearest(p, kcs);
      (r.None? <==> |kcs| == 0) &&
      (r.Some? ==> IsFirstNearest(p, kcs, r.value.kb) && r.value.dist == SqDist(p, kcs[r.value.kb]))
  {
    NearestAmongIsFirstMinimum(p, kcs, |kcs|);
  }

  /** The first nearest kickboard is unique. */
  lemma FirstNearestUnique(p: Point, kcs: seq<Point>, i: nat, j: nat)
    requires IsFirstNearest(p, kcs, i) && IsFirstNearest(p, kcs, j)
    ensures i == j
  {
    assert SqDist(p, kcs[i]) <= SqDist(p, kcs[j]) && SqDist(p, kcs[j]) <= SqDist(p, kcs[i]);
  }

  /** The inner loop: scan the kickboard centres keeping the strictly smaller distance. */
  method NearestKickboard(p: Point, kcs: seq<Point>) returns (r: Option<Assigned>)
    ensures r == Nearest(p, kcs)
    ensures r.None? <==> |kcs| == 0
    ensures r.Some? ==> IsFirstNearest(p, kcs, r.value.kb) && r.value.dist == SqDist(p, kcs[r.value.kb])
  {
    r := None;
    var j := 0;
    while j < |kcs|
      invariant j <= |kcs|
      invariant r == NearestAmong(p, kcs, j)
    {
      var d := SqDist(p, kcs[j]);
      if r.None? || d < r.value.dist {
        r := Some(Assigned(j, d));
      }
      j := j + 1;
    }
    NearestIsFirstMinimum(p, kcs);
  }

  // ---------------------------------------------------------------------------
  // Assignment of every person

  /** `person_assignment` as a sequence indexed by person. */
  function Assignment(persons: seq<Box>, kbs: seq<Box>): seq<Option<Assigned>> {
    var kcs := Centers(kbs);
    seq(|persons|, i requires 0 <= i < |persons| => Nearest(Center(persons[i]), kcs))
  }

  /** Every person is assigned (exactly when there is a kickboard) to the first nearest one. */
  lemma AssignmentIsNearest(persons: seq<Box>, kbs: seq<Box>, i: nat)
    requires i < |persons|
    ensures var a := Assignment(persons, kbs);
      |a| == |persons| && (a[i].Some? <==> |kbs| > 0) &&
      (a[i].Some? ==>
        (IsFirstNearest(Center(persons[i]), Centers(kbs), a[i].value.kb) &&
         a[i].value.dist == SqDist(Center(persons[i]), Center(kbs[a[i].value.kb]))))
  {
    NearestIsFirstMinimum(Center(persons[i]), Centers(kbs));
  }

  /** The outer loop over people, filling `person_assignment`. */
  method AssignPersons(persons: seq<Box>, kbs: seq<Box>) returns (a: seq<Option<Assigned>>)
    ensures a == Assignment(persons, kbs)
    ensures |a| == |persons|
    ensures forall i :: 0 <= i < |a| ==> (a[i].Some? <==> |kbs| > 0)
  {
    var personCenters := Centers(persons);
    var kbCenters := Centers(kbs);
    a := [];
    var i := 0;
    while i < |personCenters|
      invariant i <= |persons|
      invariant a == Assignment(persons, kbs)[..i]
    {
      var r := NearestKickboard(personCenters[i], kbCenters);
      a := a + [r];
      i := i + 1;
    }
    forall i | 0 <= i < |a| ensures a[i].Some? <==> |kbs| > 0 {
      AssignmentIsNearest(persons, kbs, i);
    }
  }

  // ---------------------------------------------------------------------------
  // Buckets per kickboard

  /** Every person has a kickboard below `m` (the `kb_persons[kb_idx]` lookup succeeds). */
  predicate FullyAssigned(a: seq<Option<Assigned>>, m: nat) {
    forall i :: 0 <= i < |a| ==> a[i].Some? && a[i].value.kb < m
  }

  /** `kb_persons[k]` after the first `n` people have been appended. */
  function Bucket(a: seq<Option<Assigned>>, persons: seq<Box>, k: nat, n: nat): seq<Candidate>
    requires n <= |a| <= |persons|
  {
    if n == 0 then []
    else
      Bucket(a, persons, k, n - 1) +
      (if a[n - 1].Some? && a[n - 1].value.kb == k
       then [Candidate(a[n - 1].value.dist, n - 1, persons[n - 1])] else [])
  }

  function BucketOf(persons: seq<Box>, kbs: seq<Box>, k: nat): seq<Candidate> {
    Bucket(Assignment(persons, kbs), persons, k, |persons|)
  }

  /** The loop appending every person to the bucket of its kickboard. */
  method FillBuckets(a: seq<Option<Assigned>>, persons: seq<Box>, m: nat) returns (buckets: seq<seq<Candidate>>)
    requires |a| == |persons| && FullyAssigned(a, m)
    ensures |buckets| == m
    ensures forall k :: 0 <= k < m ==> buckets[k] == Bucket(a, persons, k, |a|)
  {
    buckets := seq(m, _ => []);
    var i := 0;
    while i < |a|
      invariant i <= |a|
      invariant |buckets| == m
      invariant forall k :: 0 <= k < m ==> buckets[k] == Bucket(a, persons, k, i)
    {
      var kb := a[i].value.kb;
      buckets := buckets[kb := buckets[kb] + [Candidate(a[i].value.dist, i, persons[i])]];
      i := i + 1;
    }
  }

  /** A candidate is in bucket `k` exactly when it records a person among the first `n`
      that was assigned to `k`, with that person's distance and box. */
  lemma {:induction false} BucketMembers(a: seq<Option<Assigned>>, persons: seq<Box>, k: nat, n: nat, c: Candidate)
    requires n <= |a| <= |persons|
    ensures c in Bucket(a, persons, k, n) <==>
      c.person < n && a[c.person] == Some(Assigned(k, c.dist)) && c.box == persons[c.person]
  {
    if n > 0 {
      BucketMembers(a, persons, k, n - 1, c);
    }
  }

  /** A bucket lists its people in increasing person order. */
  lemma {:induction false} BucketIncreasing(a: seq<Option<Assigned>>, persons: seq<Box>, k: nat, n: nat)
    requires n <= |a| <= |persons|
    ensures IncreasingPersons(Bucket(a, persons, k, n))
    ensures forall i :: 0 <= i < |Bucket(a, persons, k, n)| ==> Bucket(a, persons, k, n)[i].person < n
  {
    if n > 0 {
      BucketIncreasing(a, persons, k, n - 1);
    }
  }

  /** The total size of buckets `0 .. m-1` after `n` people. */
  function BucketSizes(a: seq<Option<Assigned>>, persons: seq<Box>, m: nat, n: nat): nat
    requires n <= |a| <= |persons|
  {
    if m == 0 then 0 else BucketSizes(a, persons, m - 1, n) + |Bucket(a, persons, m - 1, n)|
  }

  lemma {:induction false} BucketSizesStep(a: seq<Option<Assigned>>, persons: seq<Box>, m: nat, n: nat)
    requires 0 < n <= |a| <= |persons| && a[n - 1].Some?
    ensures BucketSizes(a, persons, m, n) ==
      BucketSizes(a, persons, m, n - 1) + (if a[n - 1].value.kb < m then 1 else 0)
  {
    if m > 0 {
      BucketSizesStep(a, persons, m - 1, n);
    }
  }

  /** When every person is assigned, the bucket sizes add up to the number of people:
      nobody is lost and nobody is counted twice. */
  lemma {:induction false} BucketSizesSum(a: seq<Option<Assigned>>, persons: seq<Box>, m: nat, n: nat)
    requires n <= |a| <= |persons| && FullyAssigned(a, m)
    ensures BucketSizes(a, persons, m, n) == n
  {
    if n == 0 {
      BucketSizesEmpty(a, persons, m);
    } else {
      BucketSizesSum(a, persons, m, n - 1);
      BucketSizesStep(a, persons, m, n);
    }
  }

  lemma {:induction false} BucketSizesEmpty(a: seq<Option<Assigned>>, persons: seq<Box>, m: nat)
    requires |a| <= |persons|
    ensures BucketSizes(a, persons, m, 0) == 0
  {
    if m > 0 {
      BucketSizesEmpty(a, persons, m - 1);
    }
  }

  // ---------------------------------------------------------------------------
  // Stable sort by distance and truncation

  ghost predicate SortedByDistance(s: seq<Candidate>) {
    forall i, j :: 0 <= i < j < |s| ==> s[i].dist <= s[j].dist
  }

  ghost predicate IncreasingPersons(s: seq<Candidate>) {
    forall i, j :: 0 <= i < j < |s| ==> s[i].person < s[j].person
  }

  /** `c` comes before `d`: closer, or equally close and detected earlier. */
  predicate Before(c: Candidate, d: Candidate) {
    c.dist < d.dist || (c.dist == d.dist && c.person < d.person)
  }

  /** Ascending distance, ties in person order: what a stable sort of a bucket gives. */
  ghost predicate InDistanceOrder(s: seq<Candidate>) {
    forall i, j :: 0 <= i < j < |s| ==> Before(s[i], s[j])
  }

  /** Inserts `c` before the first element that is not closer than it. */
  function Insert(c: Candidate, s: seq<Candidate>): seq<Candidate> {
    if s == [] || c.dist <= s[0].dist then [c] + s
    else [s[0]] + Insert(c, s[1..])
  }

  /** Python's `sorted(bucket, key=lambda x: x[0])`, a stable insertion sort. */
  function SortByDistance(s: seq<Candidate>): seq<Candidate> {
    if s == [] then [] else Insert(s[0], SortByDistance(s[1..]))
  }

  lemma {:induction false} InsertPermutes(c: Candidate, s: seq<Candidate>)
    ensures multiset(Insert(c, s)) == multiset(s) + multiset{c}
    ensures |Insert(c, s)| == |s| + 1
  {
    if s != [] && c.dist > s[0].dist {
      InsertPermutes(c, s[1..]);
      assert s == [s[0]] + s[1..];
    }
  }

  /** The sort is a permutation of its input. */
  lemma {:induction false} SortPermutes(s: seq<Candidate>)
    ensures multiset(SortByDistance(s)) == multiset(s)
    ensures |SortByDistance(s)| == |s|
  {
    if s != [] {
      SortPermutes(s[1..]);
      InsertPermutes(s[0], SortByDistance(s[1..]));
      assert s == [s[0]] + s[1..];
    }
  }

  lemma InsertMembers(c: Candidate, s: seq<Candidate>, x: Candidate)
    requires x in Insert(c, s)
    ensures x == c || x in s
  {
    InsertPermutes(c, s);
    assert x in multiset(Insert(c, s));
  }

  lemma {:induction false} InsertSortedByDistance(c: Candidate, s: seq<Candidate>)
    requires SortedByDistance(s)
    ensures SortedByDistance(Insert(c, s))
  {
    if s != [] && c.dist > s[0].dist {
      var r := Insert(c, s[1..]);
      InsertSortedByDistance(c, s[1..]);
      forall j | 0 <= j < |r| ensures s[0].dist <= r[j].dist {
        InsertMembers(c, s[1..], r[j]);
      }
      assert Insert(c, s) == [s[0]] + r;
    }
  }

  lemma {:induction false} InsertInDistanceOrder(c: Candidate, s: seq<Candidate>)
    requires InDistanceOrder(s)
    requires forall x :: x in s ==> c.person < x.person
    ensures InDistanceOrder(Insert(c, s))
  {
    if s == [] || c.dist <= s[0].dist {
      forall j | 0 <= j < |s| ensures Before(c, s[j]) {
        assert s[j] in s;
        if j > 0 {
          assert Before(s[0], s[j]);
        }
      }
    } else {
      var r := Insert(c, s[1..]);
      InsertInDistanceOrder(c, s[1..]);
      forall j | 0 <= j < |r| ensures Before(s[0], r[j]) {
        InsertMembers(c, s[1..], r[j]);
      }
      assert Insert(c, s) == [s[0]] + r;
    }
  }

  /** The sort orders by distance; on a bucket (people in increasing order) it is
      stable, so ties stay in person order. */
  lemma {:induction false} SortByDistanceSorted(s: seq<Candidate>)
    ensures SortedByDistance(SortByDistance(s))
    ensures IncreasingPersons(s) ==> InDistanceOrder(SortByDistance(s))
  {
    if s != [] {
      SortByDistanceSorted(s[1..]);
      SortPermutes(s[1..]);
      var t := SortByDistance(s[1..]);
      InsertSortedByDistance(s[0], t);
      if IncreasingPersons(s) {
        forall x | x in t ensures s[0].person < x.person {
          assert x in multiset(s[1..]);
        }
        InsertInDistanceOrder(s[0], t);
      }
    }
  }

  /** `sorted(bucket, key=...)[:k]`. */
  function TopK(s: seq<Candidate>, k: nat): seq<Candidate> {
    var sorted := SortByDistance(s);
    sorted[..if k < |sorted| then k else |sorted|]
  }

  /** The top-k list is a prefix of the sorted bucket of length `min(k, |s|)`; what it
      leaves out is the rest of the sorted bucket. */
  lemma TopKPrefix(s: seq<Candidate>, k: nat)
    ensures var r := TopK(s, k); var sorted := SortByDistance(s);
      |r| == (if k < |s| then k else |s|) && sorted == r + sorted[|r|..] &&
      multiset(r) <= multiset(s)
  {
    var sorted := SortByDistance(s);
    var r := TopK(s, k);
    SortPermutes(s);
    assert sorted == r + sorted[|r|..];
    assert multiset(sorted) == multiset(r) + multiset(sorted[|r|..]);
  }

  /** The top-k list holds `min(k, |s|)` candidates of `s`, in ascending distance, with
      ties in person order when `s` is a bucket. */
  lemma TopKSorted(s: seq<Candidate>, k: nat)
    ensures var r := TopK(s, k);
      |r| == (if k < |s| then k else |s|) &&
      multiset(r) <= multiset(s) &&
      SortedByDistance(r) &&
      (IncreasingPersons(s) ==> InDistanceOrder(r))
  {
    var sorted := SortByDistance(s);
    var r := TopK(s, k);
    TopKPrefix(s, k);
    SortByDistanceSorted(s);
    PrefixSorted(sorted, |r|);
  }

  /** No candidate left out of the top-k list is closer than one kept; for a bucket, none
      left out comes before one kept (closer, or as close and detected earlier). */
  lemma TopKClosest(s: seq<Candidate>, k: nat)
    ensures var r := TopK(s, k);
      (forall x, y :: x in r && y in s && y !in r ==> x.dist <= y.dist) &&
      (IncreasingPersons(s) ==> forall x, y :: x in r && y in s && y !in r ==> Before(x, y))
  {
    var sorted := SortByDistance(s);
    var n := |TopK(s, k)|;
    TopKPrefix(s, k);
    SortPermutes(s);
    SortByDistanceSorted(s);
    PrefixClosest(sorted, n);
    assert forall y :: y in s ==> y in multiset(sorted);
  }

  /** What a prefix of a sorted list leaves out is not closer than what it keeps. */
  lemma PrefixClosest(sorted: seq<Candidate>, n: nat)
    requires n <= |sorted|
    ensures SortedByDistance(sorted) ==>
      forall x, y :: x in sorted[..n] && y in multiset(sorted) && y !in sorted[..n] ==> x.dist <= y.dist
    ensures InDistanceOrder(sorted) ==>
      forall x, y :: x in sorted[..n] && y in multiset(sorted) && y !in sorted[..n] ==> Before(x, y)
  {
    forall x, y | x in sorted[..n] && y in multiset(sorted) && y !in sorted[..n]
      ensures SortedByDistance(sorted) ==> x.dist <= y.dist
      ensures InDistanceOrder(sorted) ==> Before(x, y)
    {
      TopKLeftOut(sorted, n, x, y);
    }
  }

  lemma PrefixSorted(s: seq<Candidate>, n: nat)
    requires n <= |s|
    ensures SortedByDistance(s) ==> SortedByDistance(s[..n])
    ensures InDistanceOrder(s) ==> InDistanceOrder(s[..n])
  {
    assert forall i :: 0 <= i < n ==> s[..n][i] == s[i];
  }

  lemma TopKLeftOut(sorted: seq<Candidate>, n: nat, x: Candidate, y: Candidate)
    requires n <= |sorted| && x in sorted[..n] && y in multiset(sorted) && y !in sorted[..n]
    ensures SortedByDistance(sorted) ==> x.dist <= y.dist
    ensures InDistanceOrder(sorted) ==> Before(x, y)
  {
    var j :| 0 <= j < |sorted| && sorted[j] == y;
    var i :| 0 <= i < n && sorted[..n][i] == x;
    assert forall m :: 0 <= m < n ==> sorted[..n][m] == sorted[m];
    assert sorted[i] == x && i < j;
  }

  // ---------------------------------------------------------------------------
  // Groups

  /** The top-k list of every kickboard's bucket. */
  function TopLists(kbs: seq<Box>, persons: seq<Box>, k: nat): seq<seq<Candidate>> {
    seq(|kbs|, j requires 0 <= j < |kbs| => TopK(BucketOf(persons, kbs, j), k))
  }

  /** The groups formed from kickboards `0 .. n-1`: one per kickboard whose top-k list is
      non-empty, in kickboard order. */
  function GroupsUpTo(kbs: seq<Box>, tops: seq<seq<Candidate>>, pad: int, w: int, h: int, n: nat): seq<Group>
    requires n <= |kbs| && n <= |tops|
  {
    if n == 0 then []
    else
      GroupsUpTo(kbs, tops, pad, w, h, n - 1) +
      (if tops[n - 1] == [] then []
       else [Group(n - 1, kbs[n - 1], tops[n - 1], CropRect(kbs[n - 1], Boxes(tops[n - 1]), pad, w, h))])
  }

  function Groups(kbs: seq<Box>, persons: seq<Box>, k: nat, pad: int, w: int, h: int): seq<Group> {
    GroupsUpTo(kbs, TopLists(kbs, persons, k), pad, w, h, |kbs|)
  }

  /** Assignment, bucketing and the loop over kickboards that sorts, truncates, skips
      empty buckets and computes each crop. With people but no kickboard the source
      fails on the bucket lookup, hence the precondition. */
  method FormGroups(kbs: seq<Box>, persons: seq<Box>, k: nat, pad: int, w: int, h: int)
    returns (groups: seq<Group>)
    requires |persons| > 0 ==> |kbs| > 0
    ensures groups == Groups(kbs, persons, k, pad, w, h)
  {
    var a := AssignPersons(persons, kbs);
    forall i | 0 <= i < |a| ensures a[i].Some? && a[i].value.kb < |kbs| {
      AssignmentIsNearest(persons, kbs, i);
    }
    var buckets := FillBuckets(a, persons, |kbs|);
    ghost var tops := TopLists(kbs, persons, k);
    groups := [];
    var j := 0;
    while j < |kbs|
      invariant j <= |kbs|
      invariant groups == GroupsUpTo(kbs, tops, pad, w, h, j)
    {
      var close := TopK(buckets[j], k);
      assert close == tops[j];
      if close != [] {
        groups := groups + [Group(j, kbs[j], close, CropRect(kbs[j], Boxes(close), pad, w, h))];
      }
      j := j + 1;
    }
  }

  /** Group `g` is kickboard `g.kb` with its box, its non-empty list `tops[g.kb]` and the
      crop of those boxes. */
  ghost predicate GroupFrom(kbs: seq<Box>, tops: seq<seq<Candidate>>, pad: int, w: int, h: int, g: Group) {
    g.kb < |kbs| && g.kb < |tops| && g.kbBox == kbs[g.kb] &&
    g.members == tops[g.kb] && g.members != [] &&
    g.crop == CropRect(g.kbBox, Boxes(g.members), pad, w, h)
  }

  /** What each group is: a kickboard, its box, its non-empty top-k bucket and its crop. */
  ghost predicate GroupOf(kbs: seq<Box>, persons: seq<Box>, k: nat, pad: int, w: int, h: int, g: Group) {
    g.kb < |kbs| && g.kbBox == kbs[g.kb] &&
    g.members == TopK(BucketOf(persons, kbs, g.kb), k) && g.members != [] &&
    g.crop == CropRect(g.kbBox, Boxes(g.members), pad, w, h)
  }

  lemma {:induction false} GroupsUpToShape(kbs: seq<Box>, tops: seq<seq<Candidate>>, pad: int, w: int, h: int, n: nat)
    requires n <= |kbs| && n <= |tops|
    ensures var gs := GroupsUpTo(kbs, tops, pad, w, h, n);
      |gs| <= n &&
      (forall i :: 0 <= i < |gs| ==> gs[i].kb < n && GroupFrom(kbs, tops, pad, w, h, gs[i])) &&
      (forall i, j :: 0 <= i < j < |gs| ==> gs[i].kb < gs[j].kb)
  {
    if n > 0 {
      GroupsUpToShape(kbs, tops, pad, w, h, n - 1);
      var prev := GroupsUpTo(kbs, tops, pad, w, h, n - 1);
      var gs := GroupsUpTo(kbs, tops, pad, w, h, n);
      if tops[n - 1] != [] {
        var g := Group(n - 1, kbs[n - 1], tops[n - 1], CropRect(kbs[n - 1], Boxes(tops[n - 1]), pad, w, h));
        assert gs == prev + [g];
        assert forall i :: 0 <= i < |prev| ==> gs[i] == prev[i];
      }
    }
  }

  /** Kickboard `kb` with a non-empty list has its group, at index `i`. */
  lemma {:induction false} GroupsUpToComplete(kbs: seq<Box>, tops: seq<seq<Candidate>>, pad: int, w: int, h: int, n: nat, kb: nat)
    returns (i: nat)
    requires kb < n <= |kbs| && n <= |tops| && tops[kb] != []
    ensures i < |GroupsUpTo(kbs, tops, pad, w, h, n)| && GroupsUpTo(kbs, tops, pad, w, h, n)[i].kb == kb
  {
    var gs := GroupsUpTo(kbs, tops, pad, w, h, n);
    var prev := GroupsUpTo(kbs, tops, pad, w, h, n - 1);
    var tail := if tops[n - 1] == [] then [] else [Group(n - 1, kbs[n - 1], tops[n - 1], CropRect(kbs[n - 1], Boxes(tops[n - 1]), pad, w, h))];
    assert gs == prev + tail;
    if kb < n - 1 {
      i := GroupsUpToComplete(kbs, tops, pad, w, h, n - 1, kb);
      assert gs[i] == prev[i];
    } else {
      i := |prev|;
      assert gs[i] == tail[0];
    }
  }

  /**
   * The groups, in kickboard order: each kickboard yields at most one group, and exactly
   * one when its bucket is non-empty (and `k > 0`); each group's members are its
   * kickboard's top-k bucket, and its crop is that of the kickboard and member boxes.
   */
  lemma GroupsShape(kbs: seq<Box>, persons: seq<Box>, k: nat, pad: int, w: int, h: int)
    ensures var gs := Groups(kbs, persons, k, pad, w, h);
      |gs| <= |kbs| &&
      (forall i :: 0 <= i < |gs| ==> GroupOf(kbs, persons, k, pad, w, h, gs[i])) &&
      (forall i, j :: 0 <= i < j < |gs| ==> gs[i].kb < gs[j].kb) &&
      (forall kb :: 0 <= kb < |kbs| ==>
        ((k > 0 && BucketOf(persons, kbs, kb) != []) <==> exists i :: 0 <= i < |gs| && gs[i].kb == kb))
  {
    var tops := TopLists(kbs, persons, k);
    var gs := Groups(kbs, persons, k, pad, w, h);
    GroupsUpToShape(kbs, tops, pad, w, h, |kbs|);
    forall i | 0 <= i < |gs| ensures GroupOf(kbs, persons, k, pad, w, h, gs[i]) {
      assert GroupFrom(kbs, tops, pad, w, h, gs[i]);
    }
    forall kb | 0 <= kb < |kbs|
      ensures (k > 0 && BucketOf(persons, kbs, kb) != []) <==> exists i :: 0 <= i < |gs| && gs[i].kb == kb
    {
      TopKSorted(BucketOf(persons, kbs, kb), k);
      if tops[kb] != [] {
        var i := GroupsUpToComplete(kbs, tops, pad, w, h, |kbs|, kb);
      }
      if exists i :: 0 <= i < |gs| && gs[i].kb == kb {
        var i :| 0 <= i < |gs| && gs[i].kb == kb;
        assert GroupFrom(kbs, tops, pad, w, h, gs[i]);
      }
    }
  }

  /**
   * The members of a group: at most `k` and at least one, in ascending distance with ties
   * in person order; each is a person whose first nearest kickboard is the group's, with
   * that person's box and distance; and no person of the bucket left out is closer
   * (or equally close and earlier) than one kept.
   */
  lemma GroupMembers(kbs: seq<Box>, persons: seq<Box>, k: nat, pad: int, w: int, h: int, g: Group)
    requires GroupOf(kbs, persons, k, pad, w, h, g)
    ensures 0 < |g.members| <= k
    ensures InDistanceOrder(g.members)
    ensures forall c :: c in g.members ==>
      c.person < |persons| && c.box == persons[c.person] &&
      c.dist == SqDist(Center(persons[c.person]), Center(kbs[g.kb])) &&
      IsFirstNearest(Center(persons[c.person]), Centers(kbs), g.kb)
    ensures forall x, y :: x in g.members && y in BucketOf(persons, kbs, g.kb) && y !in g.members ==> Before(x, y)
    ensures forall i, j :: 0 <= i < j < |g.members| ==> g.members[i].person != g.members[j].person
  {
    var a := Assignment(persons, kbs);
    var bucket := BucketOf(persons, kbs, g.kb);
    BucketIncreasing(a, persons, g.kb, |persons|);
    TopKSorted(bucket, k);
    TopKClosest(bucket, k);
    forall c | c in g.members
      ensures c.person < |persons| && c.box == persons[c.person]
      ensures c.dist == SqDist(Center(persons[c.person]), Center(kbs[g.kb]))
      ensures IsFirstNearest(Center(persons[c.person]), Centers(kbs), g.kb)
    {
      assert c in multiset(g.members);
      assert c in bucket;
      BucketMembers(a, persons, g.kb, |persons|, c);
      AssignmentIsNearest(persons, kbs, c.person);
    }
    forall i, j | 0 <= i < j < |g.members|
      ensures g.members[i].person != g.members[j].person
    {
      assert g.members[i] in g.members && g.members[j] in g.members;
      assert Before(g.members[i], g.members[j]);
    }
  }

  /** Nobody is in two groups: a person appearing in two groups appears in one group. */
  lemma PersonInOneGroup(kbs: seq<Box>, persons: seq<Box>, k: nat, pad: int, w: int, h: int,
                         i: nat, j: nat, c: Candidate, d: Candidate)
    requires var gs := Groups(kbs, persons, k, pad, w, h);
      i < |gs| && j < |gs| && c in gs[i].members && d in gs[j].members && c.person == d.person
    ensures i == j && c == d
  {
    var gs := Groups(kbs, persons, k, pad, w, h);
    var a := Assignment(persons, kbs);
    GroupsShape(kbs, persons, k, pad, w, h);
    TopKSorted(BucketOf(persons, kbs, gs[i].kb), k);
    TopKSorted(BucketOf(persons, kbs, gs[j].kb), k);
    assert c in multiset(gs[i].members) && d in multiset(gs[j].members);
    BucketMembers(a, persons, gs[i].kb, |persons|, c);
    BucketMembers(a, persons, gs[j].kb, |persons|, d);
  }

  /** Every person lands in exactly one bucket when there is a kickboard: the bucket of
      its first nearest kickboard, and the bucket sizes add up to the number of people. */
  lemma EveryPersonInOneBucket(persons: seq<Box>, kbs: seq<Box>, i: nat)
    requires |kbs| > 0 && i < |persons|
    ensures var a := Assignment(persons, kbs); var kb := a[i].value.kb;
      kb < |kbs| &&
      Candidate(a[i].value.dist, i, persons[i]) in BucketOf(persons, kbs, kb) &&
      (forall k, c :: c in BucketOf(persons, kbs, k) && c.person == i ==> k == kb) &&
      BucketSizes(a, persons, |kbs|, |persons|) == |persons|
  {
    var a := Assignment(persons, kbs);
    forall j | 0 <= j < |a| ensures a[j].Some? && a[j].value.kb < |kbs| {
      AssignmentIsNearest(persons, kbs, j);
    }
    BucketMembers(a, persons, a[i].value.kb, |persons|, Candidate(a[i].value.dist, i, persons[i]));
    forall k, c | c in BucketOf(persons, kbs, k) && c.person == i ensures k == a[i].value.kb {
      BucketMembers(a, persons, k, |persons|, c);
    }
    BucketSizesSum(a, persons, |kbs|, |persons|);
  }
}
