/** The prompt execution ledger: source segments that partition a window of time, the instant up to
    which the sources are verified, and when a ledger may be closed. */
module Ledger {
  import opened Wrappers
  import Cycles
  import Sequences
  import Sorting

  const WORKSTREAMS := 15
  const MAX_SEGMENTS := 64

  /** Instants are integers. A complete segment carries counts, an incomplete one its reason. */
  datatype Content = Complete(humanMessages: int, emptyOrAttachmentOnly: int) | Incomplete(reason: string)

  datatype Segment = Segment(id: string, start: int, end: int, content: Content)

  datatype Workstream = Workstream(id: string, dependsOn: seq<string>)

  datatype Claims = Claims(sourceComplete: bool, verifiedThrough: int, actionable: Option<int>, mapped: Option<int>,
                           unresolved: Option<int>, closureBlockers: seq<string>)

  datatype Mode = Planning | Closure

  datatype Ledger = Ledger(generatedAt: int, start: int, end: int, segments: seq<Segment>, workstreams: seq<Workstream>,
                           claims: Claims)

  datatype LedgerError =
    | EmptyWindow
    | GeneratedOutsideWindow
    | WrongNumberOfSegments
    | DuplicateSegmentId(id: string)
    | SegmentStartsAfterEnd(id: string)
    | BadCounts(id: string)
    | NotChronological
    | BeginsElsewhere
    | EndsElsewhere
    | Gap(id: string)
    | Overlap(id: string)
    | WrongNumberOfWorkstreams
    | DuplicateWorkstreamId(id: string)
    | BadDependency(reference: Cycles.ReferenceError)
    | DependencyCycle(cycle: seq<string>)
    | SourceCompletenessMismatch
    | VerifiedThroughMismatch
    | NegativeCount
    | MissingPromptCounts
    | PromptCountsDoNotAdd
    | BlockersMissSegments
    | ClosureNotReady

  // ------------------------------------------------------------------ segments

  predicate CountsFit(c: Content) {
    c.Complete? ==> 0 <= c.emptyOrAttachmentOnly <= c.humanMessages
  }

  predicate Covers(s: Segment, t: int) {
    s.start <= t < s.end
  }

  ghost predicate SegmentIdIn(segments: seq<Segment>, n: int, id: string)
    requires 0 <= n <= |segments|
  {
    exists i :: 0 <= i < n && segments[i].id == id
  }

  ghost predicate SegmentFits(segments: seq<Segment>, i: int)
    requires 0 <= i < |segments|
  {
    segments[i].start < segments[i].end && CountsFit(segments[i].content) && !SegmentIdIn(segments, i, segments[i].id)
  }

  /** Each segment begins where the one before it ends. */
  ghost predicate Abutting(segments: seq<Segment>) {
    forall i :: 0 <= i < |segments| - 1 ==> segments[i].end == segments[i + 1].start
  }

  ghost predicate Spans(segments: seq<Segment>, start: int, end: int) {
    segments != [] ==> segments[0].start == start && segments[|segments| - 1].end == end
  }

  ghost predicate Chronological(segments: seq<Segment>) {
    forall i, j :: 0 <= i < j < |segments| ==> segments[i].start <= segments[j].start
  }

  ghost predicate NonEmpty(segments: seq<Segment>) {
    forall i :: 0 <= i < |segments| ==> segments[i].start < segments[i].end
  }

  ghost predicate Covered(segments: seq<Segment>, t: int) {
    exists i :: 0 <= i < |segments| && Covers(segments[i], t)
  }

  /** Every instant of the window lies in exactly one segment and no other instant in any. */
  ghost predicate Partitions(segments: seq<Segment>, start: int, end: int) {
    && (forall t :: start <= t < end ==> Covered(segments, t))
    && (forall i, t :: 0 <= i < |segments| && Covers(segments[i], t) ==> start <= t < end)
    && forall i, j, t :: 0 <= i < j < |segments| && Covers(segments[i], t) ==> !Covers(segments[j], t)
  }

  lemma {:induction false} AbuttingIsOrdered(segments: seq<Segment>, i: nat, j: nat)
    requires NonEmpty(segments) && Abutting(segments) && i < j < |segments|
    ensures segments[i].end <= segments[j].start
    decreases j - i
  {
    if i + 1 < j {
      AbuttingIsOrdered(segments, i + 1, j);
    }
  }

  lemma {:induction false} AbuttingCovers(segments: seq<Segment>, n: nat, t: int) returns (i: nat)
    requires Abutting(segments) && 0 < n <= |segments| && segments[0].start <= t < segments[n - 1].end
    ensures i < n && Covers(segments[i], t)
    decreases n
  {
    if segments[n - 1].start <= t {
      i := n - 1;
    } else {
      i := AbuttingCovers(segments, n - 1, t);
    }
  }

  /** For non-empty segments in chronological order the sweep over neighbours is exact: it accepts them
      if and only if they partition the window. */
  lemma {:induction false} SweepIffPartition(segments: seq<Segment>, start: int, end: int)
    requires segments != [] && NonEmpty(segments) && Chronological(segments)
    ensures Abutting(segments) && Spans(segments, start, end) <==> start < end && Partitions(segments, start, end)
  {
    if Abutting(segments) && Spans(segments, start, end) {
      SweepIsPartition(segments, start, end);
    }
    if start < end && Partitions(segments, start, end) {
      PartitionIsSweep(segments, start, end);
    }
  }

  lemma {:induction false} SweepIsPartition(segments: seq<Segment>, start: int, end: int)
    requires segments != [] && NonEmpty(segments) && Abutting(segments) && Spans(segments, start, end)
    ensures start < end && Partitions(segments, start, end)
  {
    var last := |segments| - 1;
    if last > 0 {
      AbuttingIsOrdered(segments, 0, last);
    }
    forall t | start <= t < end ensures Covered(segments, t) {
      var i := AbuttingCovers(segments, |segments|, t);
    }
    forall i, t | 0 <= i < |segments| && Covers(segments[i], t) ensures start <= t < end {
      if i > 0 {
        AbuttingIsOrdered(segments, 0, i);
      }
      if i < last {
        AbuttingIsOrdered(segments, i, last);
      }
    }
    forall i, j, t | 0 <= i < j < |segments| && Covers(segments[i], t) ensures !Covers(segments[j], t) {
      AbuttingIsOrdered(segments, i, j);
    }
  }

  lemma {:induction false} PartitionIsSweep(segments: seq<Segment>, start: int, end: int)
    requires segments != [] && NonEmpty(segments) && Chronological(segments) && start < end
    requires Partitions(segments, start, end)
    ensures Abutting(segments) && Spans(segments, start, end)
  {
    var last := |segments| - 1;
    assert Covers(segments[0], segments[0].start) && Covers(segments[last], segments[last].end - 1);
    assert Covered(segments, start) && Covered(segments, end - 1);
    var first :| 0 <= first < |segments| && Covers(segments[first], start);
    var final :| 0 <= final < |segments| && Covers(segments[final], end - 1);
    if segments[last].end < end {
      NoLaterEnd(segments, start, end, final);
    }
    forall i | 0 <= i < last ensures segments[i].end == segments[i + 1].start {
      PartitionAbuts(segments, start, end, i);
    }
  }

  lemma {:induction false} NoLaterEnd(segments: seq<Segment>, start: int, end: int, i: int)
    requires NonEmpty(segments) && Chronological(segments) && Partitions(segments, start, end)
    requires 0 <= i < |segments| && Covers(segments[i], end - 1)
    ensures segments[|segments| - 1].end == end
  {
    var last := |segments| - 1;
    assert Covers(segments[last], segments[last].end - 1);
    if i < last && segments[last].end < end {
      assert segments[i].start <= segments[last].start < end;
      assert Covers(segments[i], segments[last].start);
      assert Covers(segments[last], segments[last].start);
    }
  }

  lemma {:induction false} PartitionAbuts(segments: seq<Segment>, start: int, end: int, i: int)
    requires NonEmpty(segments) && Chronological(segments) && Partitions(segments, start, end)
    requires 0 <= i < |segments| - 1
    ensures segments[i].end == segments[i + 1].start
  {
    var s, next := segments[i], segments[i + 1];
    assert Covers(next, next.start) && Covers(s, s.end - 1) && Covers(s, s.start);
    assert s.end > next.start ==> Covers(s, next.start);
    assert s.end < next.start ==> Covered(segments, s.end);
    assert forall j :: i < j < |segments| ==> next.start <= segments[j].start;
    assert forall j :: 0 <= j < i && Covers(segments[j], s.end) ==> Covers(segments[j], s.start);
  }

  // -------------------------------------------------------------- verified time

  function FirstIncomplete(segments: seq<Segment>): (first: nat)
    ensures first <= |segments|
    ensures forall i :: 0 <= i < first ==> segments[i].content.Complete?
    ensures first < |segments| ==> segments[first].content.Incomplete?
  {
    if segments == [] || segments[0].content.Incomplete? then 0 else 1 + FirstIncomplete(segments[1..])
  }

  /** The start of the first incomplete segment, or the end of the window. */
  function VerifiedThrough(segments: seq<Segment>, end: int): int {
    var first := FirstIncomplete(segments);
    if first < |segments| then segments[first].start else end
  }

  ghost predicate AllComplete(segments: seq<Segment>) {
    forall i :: 0 <= i < |segments| ==> segments[i].content.Complete?
  }

  /** Everything before the verified instant lies in complete segments; the instant itself, unless it is
      the end, lies in an incomplete one; and it is the end exactly when all segments are complete. */
  lemma {:induction false} VerifiedThroughIsExact(segments: seq<Segment>, start: int, end: int)
    requires segments != [] && NonEmpty(segments) && Abutting(segments) && Spans(segments, start, end)
    ensures var verified := VerifiedThrough(segments, end);
            && start <= verified <= end
            && (forall i, t :: 0 <= i < |segments| && Covers(segments[i], t) && t < verified ==>
                  segments[i].content.Complete?)
            && (verified < end ==>
                  exists i :: 0 <= i < |segments| && Covers(segments[i], verified) && segments[i].content.Incomplete?)
            && (verified == end <==> AllComplete(segments))
  {
    var first, last := FirstIncomplete(segments), |segments| - 1;
    var verified := VerifiedThrough(segments, end);
    SweepIsPartition(segments, start, end);
    assert first < |segments| ==> Covers(segments[first], verified);
    forall i, t | 0 <= i < |segments| && Covers(segments[i], t) && t < verified ensures segments[i].content.Complete? {
      if first < i {
        AbuttingIsOrdered(segments, first, i);
      }
    }
  }

  // ------------------------------------------------------------ segment checks

  datatype Interval = Interval(left: int, right: int, id: string)

  function IntervalKey(x: Interval): Sorting.Key {
    [Sorting.Number(x.left), Sorting.Number(x.right), Sorting.Name(x.id)]
  }

  ghost predicate Rising(intervals: seq<Interval>) {
    forall i, j :: 0 <= i < j < |intervals| ==> intervals[i].left < intervals[j].left
  }

  lemma {:induction false} EarlierIsBefore(x: Interval, y: Interval)
    requires x.left < y.left
    ensures Sorting.Before(IntervalKey(x), IntervalKey(y))
  {
    assert Sorting.Lex(Sorting.PartLess, IntervalKey(x), IntervalKey(y));
  }

  lemma {:induction false} RisingIsSorted(intervals: seq<Interval>)
    requires Rising(intervals)
    ensures Sorting.Sort(IntervalKey, intervals) == intervals
  {
    hide Sorting.Before, IntervalKey;
    forall i, j | 0 <= i < j < |intervals|
      ensures Sorting.Before(IntervalKey(intervals[i]), IntervalKey(intervals[j]))
    {
      EarlierIsBefore(intervals[i], intervals[j]);
    }
    Sorting.StrictlyOrderedIsSorted(IntervalKey, intervals);
  }

  ghost predicate NotFalling(intervals: seq<Interval>) {
    forall i, j :: 0 <= i < j < |intervals| ==> intervals[i].left <= intervals[j].left
  }

  /** If the sorted intervals rise strictly, sorting intervals of distinct ids changed nothing. */
  lemma {:induction false} RisingAfterSorting(intervals: seq<Interval>)
    requires NotFalling(intervals) && Rising(Sorting.Sort(IntervalKey, intervals))
    requires forall i, j :: 0 <= i < j < |intervals| ==> intervals[i].id != intervals[j].id
    ensures Sorting.Sort(IntervalKey, intervals) == intervals
  {
    hide Sorting.Sort;
    var sorted := Sorting.Sort(IntervalKey, intervals);
    forall i, j | 0 <= i < j < |intervals| ensures intervals[i].left < intervals[j].left {
      assert intervals[i].id != intervals[j].id;
      Sorting.SortMembers(IntervalKey, intervals, intervals[i]);
      Sorting.SortMembers(IntervalKey, intervals, intervals[j]);
      var p :| 0 <= p < |sorted| && sorted[p] == intervals[i];
      var q :| 0 <= q < |sorted| && sorted[q] == intervals[j];
    }
    RisingIsSorted(intervals);
  }

  function IntervalOf(s: Segment): Interval {
    Interval(s.start, s.end, s.id)
  }

  function IntervalsOf(segments: seq<Segment>): seq<Interval> {
    seq(|segments|, i requires 0 <= i < |segments| => IntervalOf(segments[i]))
  }

  /** The ids of the incomplete segments, in order. */
  function IncompleteIds(segments: seq<Segment>): seq<string> {
    if segments == [] then []
    else
      IncompleteIds(segments[..|segments| - 1])
      + (if segments[|segments| - 1].content.Incomplete? then [segments[|segments| - 1].id] else [])
  }

  lemma {:induction false} IncompleteIdsAre(segments: seq<Segment>, id: string)
    ensures id in IncompleteIds(segments) <==>
            exists i :: 0 <= i < |segments| && segments[i].id == id && segments[i].content.Incomplete?
  {
    if segments != [] {
      var init := segments[..|segments| - 1];
      IncompleteIdsAre(init, id);
      if i :| 0 <= i < |segments| && segments[i].id == id && segments[i].content.Incomplete? {
        assert i < |init| ==> init[i] == segments[i];
      }
    }
  }

  ghost predicate SegmentsAccepted(segments: seq<Segment>, start: int, end: int) {
    && 1 <= |segments| <= MAX_SEGMENTS
    && (forall i :: 0 <= i < |segments| ==> SegmentFits(segments, i))
    && Abutting(segments) && Spans(segments, start, end)
  }

  function SegmentErrors(known: set<string>, s: Segment): seq<LedgerError> {
    (if s.id in known then [DuplicateSegmentId(s.id)] else [])
    + (if s.start < s.end then [] else [SegmentStartsAfterEnd(s.id)])
    + (if CountsFit(s.content) then [] else [BadCounts(s.id)])
  }

  lemma {:induction false} SegmentErrorsAreExact(segments: seq<Segment>, i: int, known: set<string>)
    requires 0 <= i < |segments| && forall id :: id in known <==> SegmentIdIn(segments, i, id)
    ensures SegmentErrors(known, segments[i]) == [] <==> SegmentFits(segments, i)
    ensures forall id :: id in known + {segments[i].id} <==> SegmentIdIn(segments, i + 1, id)
  {
    forall id ensures SegmentIdIn(segments, i + 1, id) <==> SegmentIdIn(segments, i, id) || id == segments[i].id {
    }
  }

  lemma {:induction false} MoreSegments(segments: seq<Segment>, i: int)
    requires 0 <= i < |segments|
    ensures IntervalsOf(segments[..i + 1]) == IntervalsOf(segments[..i]) + [IntervalOf(segments[i])]
    ensures IncompleteIds(segments[..i + 1])
            == IncompleteIds(segments[..i]) + (if segments[i].content.Incomplete? then [segments[i].id] else [])
  {
    assert segments[..i + 1][..i] == segments[..i];
  }

  method CollectSegments(segments: seq<Segment>)
    returns (errors: seq<LedgerError>, intervals: seq<Interval>, incomplete: seq<string>)
    ensures errors == [] <==> forall i :: 0 <= i < |segments| ==> SegmentFits(segments, i)
    ensures errors == [] ==> intervals == IntervalsOf(segments)
    ensures incomplete == IncompleteIds(segments)
  {
    hide SegmentFits, SegmentErrors, SegmentIdIn, IntervalsOf, IncompleteIds;
    errors, intervals, incomplete := [], [], [];
    var ids := {};
    NoSegments(segments);
    for i := 0 to |segments|
      invariant errors == [] <==> forall k :: 0 <= k < i ==> SegmentFits(segments, k)
      invariant forall id :: id in ids <==> SegmentIdIn(segments, i, id)
      invariant errors == [] ==> intervals == IntervalsOf(segments[..i])
      invariant incomplete == IncompleteIds(segments[..i])
    {
      var s := segments[i];
      SegmentErrorsAreExact(segments, i, ids);
      SegmentFitsHasLength(segments, i);
      MoreSegments(segments, i);
      errors := errors + SegmentErrors(ids, s);
      ids := ids + {s.id};
      if s.start < s.end {
        intervals := intervals + [IntervalOf(s)];
      }
      if s.content.Incomplete? {
        incomplete := incomplete + [s.id];
      }
    }
    assert segments[..|segments|] == segments;
  }

  lemma {:induction false} NoSegments(segments: seq<Segment>)
    ensures IntervalsOf(segments[..0]) == [] && IncompleteIds(segments[..0]) == []
    ensures forall id :: !SegmentIdIn(segments, 0, id)
  {
  }

  lemma {:induction false} SegmentFitsHasLength(segments: seq<Segment>, i: int)
    requires 0 <= i < |segments|
    ensures SegmentFits(segments, i) ==> segments[i].start < segments[i].end
  {
  }

  ghost predicate AbuttingIntervals(intervals: seq<Interval>, n: int)
    requires n <= |intervals|
  {
    forall i :: 0 <= i < n - 1 ==> intervals[i].right == intervals[i + 1].left
  }

  /** The sweep over neighbouring intervals. */
  method Sweep(intervals: seq<Interval>, start: int, end: int) returns (errors: seq<LedgerError>)
    requires intervals != []
    ensures errors == [] <==>
            && intervals[0].left == start && intervals[|intervals| - 1].right == end
            && AbuttingIntervals(intervals, |intervals|)
  {
    errors := [];
    if intervals[0].left != start {
      errors := errors + [BeginsElsewhere];
    }
    if intervals[|intervals| - 1].right != end {
      errors := errors + [EndsElsewhere];
    }
    for i := 1 to |intervals|
      invariant errors == [] <==>
                intervals[0].left == start && intervals[|intervals| - 1].right == end && AbuttingIntervals(intervals, i)
    {
      if intervals[i - 1].right < intervals[i].left {
        errors := errors + [Gap(intervals[i].id)];
      }
      if intervals[i - 1].right > intervals[i].left {
        errors := errors + [Overlap(intervals[i].id)];
      }
    }
  }

  method IsChronological(intervals: seq<Interval>) returns (chronological: bool)
    ensures chronological <==> NotFalling(intervals)
  {
    for i := 0 to |intervals|
      invariant forall k, j :: 0 <= k < j < i ==> intervals[k].left <= intervals[j].left
    {
      if i > 0 && intervals[i - 1].left > intervals[i].left {
        return false;
      }
    }
    return true;
  }

  function FirstListed(intervals: seq<Interval>, incomplete: seq<string>, end: int): int {
    if intervals == [] then end
    else if intervals[0].id in incomplete then intervals[0].left
    else FirstListed(intervals[1..], incomplete, end)
  }

  method FirstIncompleteStart(intervals: seq<Interval>, incomplete: seq<string>, end: int) returns (verified: int)
    ensures verified == FirstListed(intervals, incomplete, end)
  {
    for i := 0 to |intervals|
      invariant FirstListed(intervals, incomplete, end) == FirstListed(intervals[i..], incomplete, end)
    {
      if intervals[i].id in incomplete {
        return intervals[i].left;
      }
    }
    return end;
  }

  lemma {:induction false} FirstListedIsVerified(segments: seq<Segment>, incomplete: seq<string>, end: int)
    requires forall i :: 0 <= i < |segments| ==> (segments[i].id in incomplete <==> segments[i].content.Incomplete?)
    ensures FirstListed(IntervalsOf(segments), incomplete, end) == VerifiedThrough(segments, end)
  {
    if segments != [] {
      assert segments[0].id in incomplete <==> segments[0].content.Incomplete?;
      assert IntervalsOf(segments)[1..] == IntervalsOf(segments[1..]);
      FirstListedIsVerified(segments[1..], incomplete, end);
    }
  }

  lemma {:induction false} DistinctSegmentIds(segments: seq<Segment>, i: int, j: int)
    requires forall k :: 0 <= k < |segments| ==> SegmentFits(segments, k)
    requires 0 <= i < j < |segments|
    ensures segments[i].id != segments[j].id
  {
    assert SegmentFits(segments, j);
  }

  lemma {:induction false} ListedIffIncomplete(segments: seq<Segment>, i: int)
    requires forall k :: 0 <= k < |segments| ==> SegmentFits(segments, k)
    requires 0 <= i < |segments|
    ensures segments[i].id in IncompleteIds(segments) <==> segments[i].content.Incomplete?
  {
    hide SegmentFits, IncompleteIds;
    IncompleteIdsAre(segments, segments[i].id);
    if j :| 0 <= j < |segments| && segments[j].id == segments[i].id && segments[j].content.Incomplete? {
      if i < j {
        DistinctSegmentIds(segments, i, j);
      } else if j < i {
        DistinctSegmentIds(segments, j, i);
      }
    }
  }

  ghost predicate SweepPasses(intervals: seq<Interval>, start: int, end: int) {
    intervals != [] ==>
      intervals[0].left == start && intervals[|intervals| - 1].right == end && AbuttingIntervals(intervals, |intervals|)
  }

  ghost predicate AllFit(segments: seq<Segment>) {
    forall i :: 0 <= i < |segments| ==> SegmentFits(segments, i)
  }

  lemma {:induction false} AbuttingIntervalsRise(intervals: seq<Interval>, i: nat, j: nat)
    requires forall k :: 0 <= k < |intervals| ==> intervals[k].left < intervals[k].right
    requires AbuttingIntervals(intervals, |intervals|) && i < j < |intervals|
    ensures intervals[i].left < intervals[j].left
    decreases j - i
  {
    if i + 1 < j {
      AbuttingIntervalsRise(intervals, i + 1, j);
    }
  }

  lemma {:induction false} SweepMeansAbutting(segments: seq<Segment>, start: int, end: int)
    requires AllFit(segments)
    ensures SweepPasses(IntervalsOf(segments), start, end) <==> Abutting(segments) && Spans(segments, start, end)
    ensures NonEmpty(segments)
  {
    var intervals := IntervalsOf(segments);
    forall i | 0 <= i < |segments|
      ensures intervals[i] == IntervalOf(segments[i]) && segments[i].start < segments[i].end
    {
      assert SegmentFits(segments, i);
    }
    if SweepPasses(intervals, start, end) {
      forall i | 0 <= i < |segments| - 1 ensures segments[i].end == segments[i + 1].start {
        assert intervals[i].right == intervals[i + 1].left;
      }
    }
    if Abutting(segments) && Spans(segments, start, end) {
      forall i | 0 <= i < |segments| - 1 ensures intervals[i].right == intervals[i + 1].left {
        assert segments[i].end == segments[i + 1].start;
      }
    }
  }

  /** Sweeping the sorted intervals of chronological segments is sweeping the segments themselves. */
  lemma {:induction false} SortedSweepIsExact(segments: seq<Segment>, start: int, end: int)
    requires AllFit(segments)
    ensures var intervals := IntervalsOf(segments);
            NotFalling(intervals) && SweepPasses(Sorting.Sort(IntervalKey, intervals), start, end)
            <==> Abutting(segments) && Spans(segments, start, end)
    ensures Abutting(segments) && Spans(segments, start, end) ==>
              Sorting.Sort(IntervalKey, IntervalsOf(segments)) == IntervalsOf(segments)
  {
    hide SegmentFits, Sorting.Sort;
    var intervals := IntervalsOf(segments);
    var sorted := Sorting.Sort(IntervalKey, intervals);
    SweepMeansAbutting(segments, start, end);
    if NotFalling(intervals) && SweepPasses(sorted, start, end) {
      forall k | 0 <= k < |sorted| ensures sorted[k].left < sorted[k].right {
        Sorting.SortMembers(IntervalKey, intervals, sorted[k]);
        var i :| 0 <= i < |intervals| && intervals[i] == sorted[k];
        assert intervals[i] == IntervalOf(segments[i]);
      }
      forall i, j | 0 <= i < j < |sorted| ensures sorted[i].left < sorted[j].left {
        AbuttingIntervalsRise(sorted, i, j);
      }
      forall i, j | 0 <= i < j < |intervals| ensures intervals[i].id != intervals[j].id {
        DistinctSegmentIds(segments, i, j);
      }
      RisingAfterSorting(intervals);
    }
    if Abutting(segments) && Spans(segments, start, end) {
      forall i, j | 0 <= i < j < |intervals| ensures intervals[i].left < intervals[j].left {
        AbuttingIsOrdered(segments, i, j);
      }
      RisingIsSorted(intervals);
    }
  }

  /** The segment checks: no error exactly when the segments are well-formed and abut over the window;
      then the verified instant is found. */
  method CheckSegments(segments: seq<Segment>, start: int, end: int)
    returns (errors: seq<LedgerError>, incomplete: seq<string>, verified: int)
    ensures errors == [] <==> SegmentsAccepted(segments, start, end)
    ensures incomplete == IncompleteIds(segments)
    ensures errors == [] ==> verified == VerifiedThrough(segments, end)
  {
    hide SegmentFits, IntervalsOf, IncompleteIds, Sorting.Sort, Abutting, Spans, NotFalling, SweepPasses,
      AbuttingIntervals, VerifiedThrough;
    var sizeErrors := if 1 <= |segments| <= MAX_SEGMENTS then [] else [WrongNumberOfSegments];
    var intervals;
    errors, intervals, incomplete := CollectSegments(segments);
    var chronological := IsChronological(intervals);
    if errors == [] {
      SortedSweepIsExact(segments, start, end);
      forall i | 0 <= i < |segments| ensures segments[i].id in incomplete <==> segments[i].content.Incomplete? {
        ListedIffIncomplete(segments, i);
      }
      FirstListedIsVerified(segments, incomplete, end);
    }
    if !chronological {
      errors := errors + [NotChronological];
    }
    intervals := Sorting.Sort(IntervalKey, intervals);
    if intervals != [] {
      SweepPassesWhen(intervals, start, end);
      var sweepErrors := Sweep(intervals, start, end);
      errors := errors + sweepErrors;
    } else {
      NothingToSweep(start, end);
    }
    verified := FirstIncompleteStart(intervals, incomplete, end);
    errors := sizeErrors + errors;
  }

  lemma {:induction false} SweepPassesWhen(intervals: seq<Interval>, start: int, end: int)
    requires intervals != []
    ensures SweepPasses(intervals, start, end) <==>
            && intervals[0].left == start && intervals[|intervals| - 1].right == end
            && AbuttingIntervals(intervals, |intervals|)
  {
  }

  lemma {:induction false} NothingToSweep(start: int, end: int)
    ensures SweepPasses([], start, end)
  {
  }

  // --------------------------------------------------------------- workstreams

  ghost predicate WorkstreamIdIn(items: seq<Workstream>, n: int, id: string)
    requires 0 <= n <= |items|
  {
    exists i :: 0 <= i < n && items[i].id == id
  }

  ghost predicate DistinctWorkstreams(items: seq<Workstream>) {
    forall i :: 0 <= i < |items| ==> !WorkstreamIdIn(items, i, items[i].id)
  }

  function Dependencies(items: seq<Workstream>): Cycles.Graph {
    if items == [] then map[]
    else Dependencies(items[..|items| - 1])[items[|items| - 1].id := items[|items| - 1].dependsOn]
  }

  ghost predicate WorkstreamsAccepted(items: seq<Workstream>) {
    && |items| == WORKSTREAMS
    && DistinctWorkstreams(items)
    && Cycles.ReferencesKnown(Dependencies(items), Dependencies(items).Keys)
    && Cycles.Acyclic(Dependencies(items))
  }

  lemma {:induction false} MoreWorkstreams(items: seq<Workstream>, i: int, id: string)
    requires 0 <= i < |items|
    ensures Dependencies(items[..i + 1]) == Dependencies(items[..i])[items[i].id := items[i].dependsOn]
    ensures WorkstreamIdIn(items, i + 1, id) <==> WorkstreamIdIn(items, i, id) || items[i].id == id
  {
    assert items[..i + 1][..i] == items[..i];
  }

  method CheckWorkstreams(items: seq<Workstream>) returns (errors: seq<LedgerError>)
    ensures errors == [] <==> WorkstreamsAccepted(items)
  {
    hide Dependencies, WorkstreamIdIn, Cycles.ReferencesKnown, Cycles.Acyclic;
    errors := if |items| == WORKSTREAMS then [] else [WrongNumberOfWorkstreams];
    var ids: set<string>, order: seq<string>, graph: Cycles.Graph := {}, [], map[];
    NoWorkstreams(items);
    for i := 0 to |items|
      invariant errors == [] <==>
                |items| == WORKSTREAMS && forall k :: 0 <= k < i ==> !WorkstreamIdIn(items, k, items[k].id)
      invariant forall id :: id in ids <==> WorkstreamIdIn(items, i, id)
      invariant graph == Dependencies(items[..i]) && graph.Keys == ids == Sequences.Elements(order)
    {
      var w := items[i];
      if w.id in ids {
        errors := errors + [DuplicateWorkstreamId(w.id)];
      }
      forall id ensures WorkstreamIdIn(items, i + 1, id) <==> id in ids + {w.id} {
        MoreWorkstreams(items, i, id);
      }
      MoreWorkstreams(items, i, w.id);
      order := if w.id in graph then order else order + [w.id];
      ids := ids + {w.id};
      graph := graph[w.id := w.dependsOn];
    }
    assert items[..|items|] == items;
    var referenceErrors := Cycles.CheckReferences(graph, order, ids);
    if referenceErrors != [] {
      errors := errors + [BadDependency(referenceErrors[0])];
    }
    var cycles := Cycles.FindCycles(graph, order);
    if cycles != [] {
      errors := errors + [DependencyCycle(cycles[0])];
    }
  }

  lemma {:induction false} NoWorkstreams(items: seq<Workstream>)
    ensures Dependencies(items[..0]) == map[]
    ensures forall id :: !WorkstreamIdIn(items, 0, id)
  {
  }

  // --------------------------------------------------------- coverage and closure

  predicate NonNegative(count: Option<int>) {
    count.Some? ==> count.value >= 0
  }

  predicate AllCounted(c: Claims) {
    c.actionable.Some? && c.mapped.Some? && c.unresolved.Some?
  }

  /** Whether the claims themselves allow closure. */
  predicate Closable(c: Claims) {
    && c.sourceComplete && c.actionable.Some? && c.mapped == c.actionable && c.unresolved == Some(0)
    && c.closureBlockers == []
  }

  ghost predicate ClaimsAccepted(l: Ledger) {
    var c := l.claims;
    && (c.sourceComplete <==> AllComplete(l.segments))
    && c.verifiedThrough == VerifiedThrough(l.segments, l.end)
    && NonNegative(c.actionable) && NonNegative(c.mapped) && NonNegative(c.unresolved)
    && (c.sourceComplete ==> AllCounted(c))
    && (AllCounted(c) ==> c.mapped.value + c.unresolved.value == c.actionable.value)
    && forall i :: 0 <= i < |l.segments| && l.segments[i].content.Incomplete? ==> l.segments[i].id in c.closureBlockers
  }

  /** What acceptance of a ledger means. */
  ghost predicate Accepted(l: Ledger, mode: Mode) {
    && l.start <= l.generatedAt < l.end
    && SegmentsAccepted(l.segments, l.start, l.end)
    && WorkstreamsAccepted(l.workstreams)
    && ClaimsAccepted(l)
    && (mode == Closure ==> Closable(l.claims))
  }

  datatype Report = Report(valid: bool, closureReady: bool, incomplete: seq<string>, errors: seq<LedgerError>)

  predicate Lists(blockers: seq<string>, ids: seq<string>) {
    forall k :: 0 <= k < |ids| ==> ids[k] in blockers
  }

  function ClaimErrors(c: Claims, incomplete: seq<string>, verified: int): seq<LedgerError> {
    (if c.sourceComplete == (incomplete == []) then [] else [SourceCompletenessMismatch])
    + (if c.verifiedThrough == verified then [] else [VerifiedThroughMismatch])
    + (if NonNegative(c.actionable) && NonNegative(c.mapped) && NonNegative(c.unresolved) then [] else [NegativeCount])
    + (if c.sourceComplete && !AllCounted(c) then [MissingPromptCounts] else [])
    + (if AllCounted(c) && c.mapped.value + c.unresolved.value != c.actionable.value then [PromptCountsDoNotAdd]
       else [])
    + (if Lists(c.closureBlockers, incomplete) then [] else [BlockersMissSegments])
  }

  lemma {:induction false} ClaimErrorsAreExact(l: Ledger)
    requires forall i :: 0 <= i < |l.segments| ==> SegmentFits(l.segments, i)
    ensures ClaimErrors(l.claims, IncompleteIds(l.segments), VerifiedThrough(l.segments, l.end)) == []
            <==> ClaimsAccepted(l)
  {
    hide SegmentFits, IncompleteIds, VerifiedThrough;
    var incomplete := IncompleteIds(l.segments);
    forall i | 0 <= i < |l.segments| ensures l.segments[i].id in incomplete <==> l.segments[i].content.Incomplete? {
      ListedIffIncomplete(l.segments, i);
    }
    forall k | 0 <= k < |incomplete|
      ensures exists i ::
                0 <= i < |l.segments| && l.segments[i].id == incomplete[k] && l.segments[i].content.Incomplete?
    {
      IncompleteIdsAre(l.segments, incomplete[k]);
    }
    assert incomplete == [] <==> AllComplete(l.segments) by {
      if incomplete != [] {
        assert incomplete[0] in incomplete;
        var i :| 0 <= i < |l.segments| && l.segments[i].id == incomplete[0] && l.segments[i].content.Incomplete?;
      }
    }
  }

  /** Validation accepts exactly the ledgers `Accepted` describes. */
  method Validate(l: Ledger, mode: Mode) returns (report: Report)
    ensures report.valid <==> Accepted(l, mode)
    ensures report.valid <==> report.errors == []
    ensures report.closureReady <==> Accepted(l, mode) && Closable(l.claims)
    ensures report.incomplete == IncompleteIds(l.segments)
  {
    hide SegmentFits, IncompleteIds, VerifiedThrough, ClaimsAccepted, ClaimErrors, WorkstreamsAccepted, Abutting, Spans;
    var errors := [];
    if l.start >= l.end {
      errors := errors + [EmptyWindow];
    }
    if !(l.start <= l.generatedAt < l.end) {
      errors := errors + [GeneratedOutsideWindow];
    }
    var segmentErrors, incomplete, verified := CheckSegments(l.segments, l.start, l.end);
    var workstreamErrors := CheckWorkstreams(l.workstreams);
    if segmentErrors == [] {
      ClaimErrorsAreExact(l);
    }
    errors := errors + segmentErrors + workstreamErrors + ClaimErrors(l.claims, incomplete, verified);
    var closure := Closable(l.claims);
    if mode == Closure && !closure {
      errors := errors + [ClosureNotReady];
    }
    report := Report(errors == [], closure && errors == [], incomplete, errors);
  }

  // --------------------------------------------- what follows for accepted ledgers

  /** Each instant of an accepted window lies in exactly one segment, what lies before the verified
      instant is complete, and the window is verified to its end exactly when its sources are complete. */
  lemma {:induction false} AcceptedSegmentsPartition(l: Ledger, mode: Mode)
    requires Accepted(l, mode)
    ensures Partitions(l.segments, l.start, l.end)
    ensures forall i, t :: 0 <= i < |l.segments| && Covers(l.segments[i], t) && t < l.claims.verifiedThrough ==>
              l.segments[i].content.Complete?
    ensures l.start <= l.claims.verifiedThrough <= l.end
    ensures l.claims.verifiedThrough == l.end <==> l.claims.sourceComplete
  {
    hide VerifiedThrough, WorkstreamsAccepted;
    forall i | 0 <= i < |l.segments| ensures l.segments[i].start < l.segments[i].end {
      assert SegmentFits(l.segments, i);
    }
    SweepIsPartition(l.segments, l.start, l.end);
    VerifiedThroughIsExact(l.segments, l.start, l.end);
  }

  /** The instants before `t` in the window lie in complete segments, and `t` is the end or lies in an incomplete
      one. */
  ghost predicate VerifiedTo(l: Ledger, t: int) {
    && l.start <= t <= l.end
    && (forall i, at :: 0 <= i < |l.segments| && Covers(l.segments[i], at) && at < t ==>
          l.segments[i].content.Complete?)
    && (t < l.end ==>
          exists i :: 0 <= i < |l.segments| && Covers(l.segments[i], t) && l.segments[i].content.Incomplete?)
  }

  ghost predicate SegmentsListed(l: Ledger) {
    && 1 <= |l.segments| <= 64 && NonEmpty(l.segments) && Chronological(l.segments)
    && (forall i, j :: 0 <= i < j < |l.segments| ==> l.segments[i].id != l.segments[j].id)
    && forall i :: 0 <= i < |l.segments| ==>
         match l.segments[i].content
         case Complete(messages, empty) => 0 <= empty <= messages
         case Incomplete(_) => l.segments[i].id in l.claims.closureBlockers
  }

  /** Counts, where claimed, are not negative and add up, and complete sources need them. */
  ghost predicate CountsClaimed(c: Claims) {
    && (c.actionable.Some? ==> c.actionable.value >= 0)
    && (c.mapped.Some? ==> c.mapped.value >= 0)
    && (c.unresolved.Some? ==> c.unresolved.value >= 0)
    && (c.sourceComplete ==> c.actionable.Some? && c.mapped.Some? && c.unresolved.Some?)
    && (c.actionable.Some? && c.mapped.Some? && c.unresolved.Some? ==>
          c.actionable.value == c.mapped.value + c.unresolved.value)
  }

  lemma {:induction false} FitsMeansListed(l: Ledger)
    ensures SegmentsListed(l) <==>
            && 1 <= |l.segments| <= MAX_SEGMENTS && AllFit(l.segments) && Chronological(l.segments)
            && forall i :: 0 <= i < |l.segments| && l.segments[i].content.Incomplete? ==>
                 l.segments[i].id in l.claims.closureBlockers
  {
    if AllFit(l.segments) {
      forall i, j | 0 <= i < j < |l.segments| ensures l.segments[i].id != l.segments[j].id {
        DistinctSegmentIds(l.segments, i, j);
      }
      forall i | 0 <= i < |l.segments|
        ensures l.segments[i].start < l.segments[i].end && CountsFit(l.segments[i].content)
      {
        assert SegmentFits(l.segments, i);
      }
    }
  }

  lemma {:induction false} VerifiedIsUnique(l: Ledger, a: int, b: int)
    requires VerifiedTo(l, a) && VerifiedTo(l, b) && Partitions(l.segments, l.start, l.end)
    ensures a == b
  {
  }

  /** Acceptance in terms of the window alone: every instant lies in exactly one segment, the verified instant
      is the one up to which all is complete, blockers name what is incomplete, and the counts add up. */
  lemma {:induction false} AcceptedIff(l: Ledger)
    ensures Accepted(l, Planning) <==>
            && l.start <= l.generatedAt < l.end
            && SegmentsListed(l) && Partitions(l.segments, l.start, l.end)
            && |l.workstreams| == 15 && WorkstreamsAccepted(l.workstreams)
            && (l.claims.sourceComplete <==> AllComplete(l.segments))
            && VerifiedTo(l, l.claims.verifiedThrough) && CountsClaimed(l.claims)
  {
    hide VerifiedThrough, SegmentFits, Partitions, Abutting, Spans, VerifiedTo;
    FitsMeansListed(l);
    if |l.workstreams| != 15 {
      assert !WorkstreamsAccepted(l.workstreams);
    }
    hide WorkstreamsAccepted;
    if l.start <= l.generatedAt < l.end && AllFit(l.segments) && l.segments != [] {
      AbuttingIffPartition(l);
      if Abutting(l.segments) && Spans(l.segments, l.start, l.end) {
        VerifiedToIff(l, l.claims.verifiedThrough);
      }
    }
  }

  lemma {:induction false} AbuttingIffPartition(l: Ledger)
    requires AllFit(l.segments) && l.segments != [] && l.start < l.end
    ensures NonEmpty(l.segments)
    ensures Abutting(l.segments) && Spans(l.segments, l.start, l.end)
            <==> Chronological(l.segments) && Partitions(l.segments, l.start, l.end)
  {
    hide Partitions, Spans;
    SweepMeansAbutting(l.segments, l.start, l.end);
    if Abutting(l.segments) {
      forall i, j | 0 <= i < j < |l.segments| ensures l.segments[i].start <= l.segments[j].start {
        AbuttingIsOrdered(l.segments, i, j);
      }
    }
    if Chronological(l.segments) {
      SweepIffPartition(l.segments, l.start, l.end);
    }
  }

  lemma {:induction false} VerifiedToIff(l: Ledger, t: int)
    requires l.segments != [] && NonEmpty(l.segments) && Abutting(l.segments) && Spans(l.segments, l.start, l.end)
    ensures VerifiedTo(l, t) <==> t == VerifiedThrough(l.segments, l.end)
  {
    hide VerifiedThrough;
    VerifiedThroughIsExact(l.segments, l.start, l.end);
    SweepIsPartition(l.segments, l.start, l.end);
    assert VerifiedTo(l, VerifiedThrough(l.segments, l.end));
    if VerifiedTo(l, t) {
      VerifiedIsUnique(l, t, VerifiedThrough(l.segments, l.end));
    }
  }

  /** An accepted ledger may be closed if and only if every instant of its window lies in a complete segment,
      no prompt is unresolved and nothing is listed as a blocker; then every actionable prompt is mapped and
      closure mode accepts it as well. */
  lemma {:induction false} ClosureReadyIff(l: Ledger, mode: Mode)
    requires Accepted(l, mode)
    ensures Closable(l.claims)
            <==> AllComplete(l.segments) && l.claims.unresolved == Some(0) && l.claims.closureBlockers == []
    ensures Closable(l.claims) ==> l.claims.mapped == l.claims.actionable && l.claims.verifiedThrough == l.end
    ensures Closable(l.claims) <==> Accepted(l, Closure)
    ensures Accepted(l, Planning)
  {
    hide VerifiedThrough, WorkstreamsAccepted, SegmentsAccepted;
    AcceptedSegmentsPartition(l, mode);
  }
}
