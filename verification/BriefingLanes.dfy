/** Lane manifests of a daily briefing: which lanes reported, which of them block the composition, and
    the envelope that is handed to it. Digests, times and commits are opaque or integers. */
module BriefingLanes {
  import opened Wrappers
  import opened Sequences
  import Sorting

  datatype Status = Success | NoResults | NotReady(status: string)

  datatype LaneReceipt = LaneReceipt(
    lane: string,
    status: Status,
    observedAt: int,
    retainedUntil: int,
    operation: string,
    pathIdentity: string,
    resultBytes: Option<int>,
    itemCount: Option<int>,
    resultDigest: Option<string>,
    reason: Option<string>)

  datatype Manifest = Manifest(start: int, end: int, expected: seq<string>, receipts: seq<LaneReceipt>)

  datatype LaneError =
    | EmptyWindow
    | WrongNumberOfLanes
    | DuplicateExpectedLane
    | TooManyReceipts
    | BadTimes(lane: string)
    | DuplicateOperation(lane: string)
    | DuplicatePath(lane: string)
    | BadResult(lane: string)
    | DuplicateLane
    | MissingLanes
    | UnexpectedLanes
    | WrongReceiptCount

  const MAX_LANES := 64

  predicate IsReady(r: LaneReceipt) {
    r.status.Success? || r.status.NoResults?
  }

  predicate TimesFit(m: Manifest, r: LaneReceipt) {
    r.observedAt < r.retainedUntil && m.start <= r.observedAt < m.end
  }

  /** Ready lanes claim a result that fits their status, all others claim none and give a reason. */
  predicate ResultFits(r: LaneReceipt) {
    if IsReady(r) then
      && r.resultDigest.Some? && r.resultBytes.Some? && r.itemCount.Some? && r.reason.None?
      && r.resultBytes.value >= 0 && r.itemCount.value >= 0
      && (r.status.NoResults? ==> r.itemCount.value == 0)
      && (r.status.Success? ==> r.itemCount.value != 0 && r.resultBytes.value != 0)
    else
      r.resultDigest.None? && r.resultBytes.None? && r.itemCount.None? && r.reason.Some?
  }

  predicate ReceiptFits(m: Manifest, r: LaneReceipt) {
    TimesFit(m, r) && ResultFits(r)
  }

  function LaneOf(r: LaneReceipt): string {
    r.lane
  }

  function OperationOf(r: LaneReceipt): string {
    r.operation
  }

  function PathOf(r: LaneReceipt): string {
    r.pathIdentity
  }

  function LaneKey(r: LaneReceipt): Sorting.Key {
    [Sorting.Name(r.lane)]
  }

  function Values(field: LaneReceipt -> string, receipts: seq<LaneReceipt>): seq<string> {
    seq(|receipts|, i requires 0 <= i < |receipts| => field(receipts[i]))
  }

  /** No two receipts agree in the given field. */
  ghost predicate DistinctIn(field: LaneReceipt -> string, receipts: seq<LaneReceipt>) {
    Distinct(Values(field, receipts))
  }

  /** What validity means: exactly the expected lanes report, once each, with receipts that fit. */
  ghost predicate Accepted(m: Manifest) {
    && m.start < m.end
    && 1 <= |m.expected| <= 64 && Distinct(m.expected)
    && (forall i :: 0 <= i < |m.receipts| ==> ReceiptFits(m, m.receipts[i]))
    && DistinctIn(LaneOf, m.receipts) && DistinctIn(OperationOf, m.receipts) && DistinctIn(PathOf, m.receipts)
    && Elements(Values(LaneOf, m.receipts)) == Elements(m.expected)
  }

  // ---------------------------------------------------------------- validation

  datatype Report = Report(valid: bool, ready: bool, blocking: set<string>, envelope: seq<LaneReceipt>,
                           errors: seq<LaneError>)

  /** The lanes whose receipts are not ready. */
  ghost predicate Blocks(receipts: seq<LaneReceipt>, n: int, lane: string)
    requires 0 <= n <= |receipts|
  {
    exists i :: 0 <= i < n && receipts[i].lane == lane && !IsReady(receipts[i])
  }

  function ReceiptErrors(m: Manifest, r: LaneReceipt, operations: set<string>, paths: set<string>): seq<LaneError> {
    (if TimesFit(m, r) then [] else [BadTimes(r.lane)])
    + (if r.operation in operations then [DuplicateOperation(r.lane)] else [])
    + (if r.pathIdentity in paths then [DuplicatePath(r.lane)] else [])
    + (if ResultFits(r) then [] else [BadResult(r.lane)])
  }

  ghost predicate ReceiptAccepted(m: Manifest, receipts: seq<LaneReceipt>, i: int)
    requires 0 <= i < |receipts|
  {
    && ReceiptFits(m, receipts[i])
    && !TakenBefore(OperationOf, receipts, i, OperationOf(receipts[i]))
    && !TakenBefore(PathOf, receipts, i, PathOf(receipts[i]))
  }

  predicate AboutReceipt(error: LaneError) {
    error.BadTimes? || error.DuplicateOperation? || error.DuplicatePath? || error.BadResult?
  }

  /** The pass over the receipts. */
  method CheckReceipts(m: Manifest, receipts: seq<LaneReceipt>) returns (errors: seq<LaneError>, blocking: set<string>)
    ensures errors == [] <==> forall i :: 0 <= i < |receipts| ==> ReceiptAccepted(m, receipts, i)
    ensures forall error :: error in errors ==> AboutReceipt(error)
    ensures forall lane :: lane in blocking <==> Blocks(receipts, |receipts|, lane)
  {
    hide TimesFit, ResultFits;
    errors, blocking := [], {};
    var operations, paths := {}, {};
    for i := 0 to |receipts|
      invariant errors == [] <==> forall k :: 0 <= k < i ==> ReceiptAccepted(m, receipts, k)
      invariant forall error :: error in errors ==> AboutReceipt(error)
      invariant Collected(operations, OperationOf, receipts, i) && Collected(paths, PathOf, receipts, i)
      invariant forall lane :: lane in blocking <==> Blocks(receipts, i, lane)
    {
      var r := receipts[i];
      var found := ReceiptErrors(m, r, operations, paths);
      assert found == [] <==> ReceiptAccepted(m, receipts, i);
      errors := errors + found;
      CollectMore(operations, OperationOf, receipts, i);
      CollectMore(paths, PathOf, receipts, i);
      forall lane
        ensures Blocks(receipts, i + 1, lane) <==> Blocks(receipts, i, lane) || (r.lane == lane && !IsReady(r))
      {
      }
      operations := operations + {r.operation};
      paths := paths + {r.pathIdentity};
      if !IsReady(r) {
        blocking := blocking + {r.lane};
      }
    }
  }

  lemma {:induction false} NoEarlierMeansDistinct(field: LaneReceipt -> string, receipts: seq<LaneReceipt>)
    ensures DistinctIn(field, receipts) <==>
            forall i :: 0 <= i < |receipts| ==> !TakenBefore(field, receipts, i, field(receipts[i]))
  {
    var values := Values(field, receipts);
    if forall i :: 0 <= i < |receipts| ==> !TakenBefore(field, receipts, i, field(receipts[i])) {
      forall i, j | 0 <= i < j < |values| ensures values[i] != values[j] {
        assert !TakenBefore(field, receipts, j, field(receipts[j]));
      }
    }
    if DistinctIn(field, receipts) {
      forall i | 0 <= i < |receipts| ensures !TakenBefore(field, receipts, i, field(receipts[i])) {
        forall k | 0 <= k < i ensures field(receipts[k]) != field(receipts[i]) {
          assert values[k] != values[i];
        }
      }
    }
  }

  ghost predicate ReceiptsAccepted(m: Manifest, receipts: seq<LaneReceipt>) {
    && (forall i :: 0 <= i < |receipts| ==> ReceiptFits(m, receipts[i]))
    && DistinctIn(OperationOf, receipts) && DistinctIn(PathOf, receipts)
  }

  lemma {:induction false} ReceiptChecksMean(m: Manifest, receipts: seq<LaneReceipt>)
    ensures (forall i :: 0 <= i < |receipts| ==> ReceiptAccepted(m, receipts, i)) <==> ReceiptsAccepted(m, receipts)
  {
    hide ReceiptFits, TakenBefore, DistinctIn;
    NoEarlierMeansDistinct(OperationOf, receipts);
    NoEarlierMeansDistinct(PathOf, receipts);
    if forall i :: 0 <= i < |receipts| ==> ReceiptAccepted(m, receipts, i) {
      forall i | 0 <= i < |receipts|
        ensures ReceiptFits(m, receipts[i])
                && !TakenBefore(OperationOf, receipts, i, OperationOf(receipts[i]))
                && !TakenBefore(PathOf, receipts, i, PathOf(receipts[i]))
      {
        assert ReceiptAccepted(m, receipts, i);
      }
    }
  }

  lemma {:induction false} SameLanesSameCount(a: seq<string>, b: seq<string>)
    requires Distinct(a) && Distinct(b) && Elements(a) == Elements(b)
    ensures |a| == |b|
  {
    DistinctCount(a);
    DistinctCount(b);
  }

  /** The lists that are compared: an oversized one counts as empty. */
  function Compared(m: Manifest): (seq<string>, seq<LaneReceipt>) {
    (if 1 <= |m.expected| <= 64 then m.expected else [], if |m.receipts| <= 64 then m.receipts else [])
  }

  /** The errors about the window and the lengths of the lists. */
  ghost predicate SizeErrorsExact(m: Manifest, errors: seq<LaneError>) {
    && (EmptyWindow in errors <==> m.start >= m.end)
    && (WrongNumberOfLanes in errors <==> !(1 <= |m.expected| <= 64))
    && (TooManyReceipts in errors <==> |m.receipts| > 64)
    && (DuplicateExpectedLane in errors <==> !Distinct(Compared(m).0))
  }

  /** The errors about expected and observed lanes. */
  ghost predicate LaneErrorsExact(expected: seq<string>, observed: seq<string>, errors: seq<LaneError>) {
    && (DuplicateLane in errors <==> !Distinct(observed))
    && (MissingLanes in errors <==> !(Elements(expected) <= Elements(observed)))
    && (UnexpectedLanes in errors <==> !(Elements(observed) <= Elements(expected)))
    && (WrongReceiptCount in errors <==> |observed| != |expected|)
  }

  predicate AboutSizes(error: LaneError) {
    error.EmptyWindow? || error.WrongNumberOfLanes? || error.TooManyReceipts? || error.DuplicateExpectedLane?
  }

  predicate AboutLanes(error: LaneError) {
    error.DuplicateLane? || error.MissingLanes? || error.UnexpectedLanes? || error.WrongReceiptCount?
  }

  /** A lane blocks when it reported and is not ready, or when it was expected and did not report. */
  ghost predicate BlocksOrMisses(m: Manifest, lane: string) {
    var (expected, receipts) := Compared(m);
    Blocks(receipts, |receipts|, lane) || (lane in expected && lane !in Values(LaneOf, receipts))
  }

  /** The checks of the window and of the lengths of the lists. */
  method CheckSizes(m: Manifest) returns (errors: seq<LaneError>, expected: seq<string>, receipts: seq<LaneReceipt>)
    ensures (expected, receipts) == Compared(m)
    ensures SizeErrorsExact(m, errors)
    ensures forall error :: error in errors ==> AboutSizes(error)
  {
    hide Distinct;
    errors := if m.start < m.end then [] else [EmptyWindow];
    expected, receipts := m.expected, m.receipts;
    if !(1 <= |expected| <= MAX_LANES) {
      errors := errors + [WrongNumberOfLanes];
      expected := [];
    }
    DistinctCount(expected);
    if |expected| != |Elements(expected)| {
      errors := errors + [DuplicateExpectedLane];
    }
    if |receipts| > MAX_LANES {
      errors := errors + [TooManyReceipts];
      receipts := [];
    }
  }

  lemma {:induction false} NothingLeft(a: set<string>, b: set<string>)
    ensures a - b == {} <==> a <= b
  {
    if a - b == {} {
      forall x | x in a ensures x in b {
        assert x !in a - b;
      }
    }
  }

  /** The comparison of the observed lanes with the expected ones. */
  method CompareLanes(expected: seq<string>, observed: seq<string>)
    returns (errors: seq<LaneError>, missing: set<string>)
    ensures LaneErrorsExact(expected, observed, errors)
    ensures forall error :: error in errors ==> AboutLanes(error)
    ensures missing == Elements(expected) - Elements(observed)
  {
    hide Distinct;
    errors := [];
    DistinctCount(observed);
    if |observed| != |Elements(observed)| {
      errors := errors + [DuplicateLane];
    }
    missing := Elements(expected) - Elements(observed);
    var unexpected := Elements(observed) - Elements(expected);
    NothingLeft(Elements(expected), Elements(observed));
    NothingLeft(Elements(observed), Elements(expected));
    hide Elements;
    if missing != {} {
      errors := errors + [MissingLanes];
    }
    if unexpected != {} {
      errors := errors + [UnexpectedLanes];
    }
    if |observed| != |expected| {
      errors := errors + [WrongReceiptCount];
    }
  }

  lemma {:induction false} FirstError(errors: seq<LaneError>)
    ensures errors == [] || exists error :: error in errors
  {
    assert errors == [] || errors[0] in errors;
  }

  /** Without errors in any group the manifest is accepted. */
  lemma {:induction false} GroupsMean(m: Manifest, sizeErrors: seq<LaneError>, laneErrors: seq<LaneError>)
    requires SizeErrorsExact(m, sizeErrors) && LaneErrorsExact(Compared(m).0, Values(LaneOf, Compared(m).1), laneErrors)
    requires forall error :: error in sizeErrors ==> AboutSizes(error)
    requires forall error :: error in laneErrors ==> AboutLanes(error)
    ensures Accepted(m) <==> sizeErrors == [] && laneErrors == [] && ReceiptsAccepted(m, Compared(m).1)
  {
    hide ReceiptFits, Distinct;
    var (expected, receipts) := Compared(m);
    var observed := Values(LaneOf, receipts);
    if Accepted(m) {
      SameLanesSameCount(Values(LaneOf, m.receipts), m.expected);
      FirstError(sizeErrors);
      FirstError(laneErrors);
    }
  }

  /** Validation accepts exactly the manifests that `Accepted` describes, and reports each disagreement of the
      lists. The envelope holds the receipts by lane. A valid manifest is ready exactly when nothing blocks,
      that is when all receipts are. */
  method ValidateLaneManifest(m: Manifest) returns (report: Report)
    ensures report.valid <==> Accepted(m)
    ensures report.valid <==> report.errors == []
    ensures report.ready <==> report.valid && report.blocking == {}
    ensures SizeErrorsExact(m, report.errors)
    ensures LaneErrorsExact(Compared(m).0, Values(LaneOf, Compared(m).1), report.errors)
    ensures forall lane :: lane in report.blocking <==> BlocksOrMisses(m, lane)
    ensures report.valid ==>
              && report.envelope == Sorting.Sort(LaneKey, m.receipts)
              && |m.receipts| == |m.expected|
              && (forall lane :: lane in report.blocking <==> Blocks(m.receipts, |m.receipts|, lane))
              && (report.ready <==> forall i :: 0 <= i < |m.receipts| ==> !m.receipts[i].status.NotReady?)
  {
    hide Distinct, ReceiptFits, ReceiptAccepted, ReceiptsAccepted, Sorting.Sort, Accepted, SizeErrorsExact,
      LaneErrorsExact, Elements, Compared, Blocks, BlocksOrMisses, IsReady, AboutSizes, AboutReceipt, AboutLanes;
    var sizeErrors, expected, receipts := CheckSizes(m);
    var receiptErrors, blocking := CheckReceipts(m, receipts);
    ReceiptChecksMean(m, receipts);
    var observed := Values(LaneOf, receipts);
    var laneErrors, missing := CompareLanes(expected, observed);
    blocking := blocking + missing;
    GroupsMean(m, sizeErrors, laneErrors);
    var errors := sizeErrors + receiptErrors + laneErrors;
    GroupsStayExact(m, sizeErrors, receiptErrors, laneErrors);
    var envelope := Sorting.Sort(LaneKey, receipts);
    var allReady := forall i :: 0 <= i < |receipts| ==> IsReady(receipts[i]);
    var ready := errors == [] && blocking == {} && Elements(observed) == Elements(expected) && allReady;
    NothingBlocks(receipts);
    if Accepted(m) {
      AcceptedIsCompared(m);
    }
    forall lane ensures lane in blocking <==> BlocksOrMisses(m, lane) {
      BlocksOrMissing(m, lane);
    }
    report := Report(errors == [], ready, blocking, envelope, errors);
  }

  lemma {:induction false} BlocksOrMissing(m: Manifest, lane: string)
    ensures var (expected, receipts) := Compared(m);
            BlocksOrMisses(m, lane) <==>
            || Blocks(receipts, |receipts|, lane)
            || lane in Elements(expected) - Elements(Values(LaneOf, receipts))
  {
  }

  lemma {:induction false} AcceptedIsCompared(m: Manifest)
    requires Accepted(m)
    ensures Compared(m) == (m.expected, m.receipts) && |m.receipts| == |m.expected|
    ensures Elements(Values(LaneOf, m.receipts)) == Elements(m.expected)
  {
    SameLanesSameCount(Values(LaneOf, m.receipts), m.expected);
  }

  lemma {:induction false} GroupsStayExact(m: Manifest, sizeErrors: seq<LaneError>, receiptErrors: seq<LaneError>,
                                           laneErrors: seq<LaneError>)
    requires forall error :: error in sizeErrors ==> AboutSizes(error)
    requires forall error :: error in receiptErrors ==> AboutReceipt(error)
    requires forall error :: error in laneErrors ==> AboutLanes(error)
    ensures SizeErrorsExact(m, sizeErrors) ==> SizeErrorsExact(m, sizeErrors + receiptErrors + laneErrors)
    ensures var (expected, receipts) := Compared(m);
            LaneErrorsExact(expected, Values(LaneOf, receipts), laneErrors) ==>
              LaneErrorsExact(expected, Values(LaneOf, receipts), sizeErrors + receiptErrors + laneErrors)
  {
    hide Distinct, Elements;
  }

  lemma {:induction false} NothingBlocks(receipts: seq<LaneReceipt>)
    ensures (forall lane :: !Blocks(receipts, |receipts|, lane)) <==>
            forall i :: 0 <= i < |receipts| ==> IsReady(receipts[i])
    ensures forall i :: 0 <= i < |receipts| ==> (IsReady(receipts[i]) <==> !receipts[i].status.NotReady?)
  {
    if forall lane :: !Blocks(receipts, |receipts|, lane) {
      forall i | 0 <= i < |receipts| ensures IsReady(receipts[i]) {
        assert !Blocks(receipts, |receipts|, receipts[i].lane);
      }
    }
  }

  /** A receipt fits exactly when it was observed inside the window, is retained beyond that, and reports what its
      status asks for: a success has items and bytes, an empty result has no item, and a lane that is not ready
      has a reason instead of a result. */
  lemma {:induction false} ReceiptFitsIff(m: Manifest, r: LaneReceipt)
    ensures ReceiptFits(m, r) <==>
            && m.start <= r.observedAt < m.end && r.observedAt < r.retainedUntil
            && (r.status.NotReady? <==> r.reason.Some?) && (r.status.NotReady? <==> r.resultDigest.None?)
            && match r.status
               case Success =>
                 r.itemCount.Some? && r.itemCount.value > 0 && r.resultBytes.Some? && r.resultBytes.value > 0
               case NoResults => r.itemCount == Some(0) && r.resultBytes.Some? && r.resultBytes.value >= 0
               case NotReady(_) => r.itemCount.None? && r.resultBytes.None?
  {
  }

  // ------------------------------------------------------- order of the receipts

  lemma {:induction false} PermutedMembers(a: seq<LaneReceipt>, b: seq<LaneReceipt>, i: int)
    requires multiset(a) == multiset(b) && 0 <= i < |a|
    ensures a[i] in b && |a| == |b|
  {
    assert a[i] in multiset(a);
    assert |multiset(a)| == |multiset(b)|;
  }

  lemma {:induction false} PermutedValues(field: LaneReceipt -> string, a: seq<LaneReceipt>, b: seq<LaneReceipt>)
    requires multiset(a) == multiset(b)
    ensures Elements(Values(field, a)) <= Elements(Values(field, b)) && |a| == |b|
  {
    assert |multiset(a)| == |multiset(b)|;
    forall value | value in Elements(Values(field, a)) ensures value in Elements(Values(field, b)) {
      var i :| 0 <= i < |a| && Values(field, a)[i] == value;
      PermutedMembers(a, b, i);
      var j :| 0 <= j < |b| && b[j] == a[i];
      assert Values(field, b)[j] == value;
    }
  }

  lemma {:induction false} PermutedDistinct(field: LaneReceipt -> string, a: seq<LaneReceipt>, b: seq<LaneReceipt>)
    requires multiset(a) == multiset(b) && DistinctIn(field, a)
    ensures DistinctIn(field, b)
  {
    hide Distinct;
    PermutedValues(field, a, b);
    PermutedValues(field, b, a);
    assert Elements(Values(field, a)) == Elements(Values(field, b)) && |Values(field, a)| == |Values(field, b)|;
    DistinctCount(Values(field, a));
    DistinctCount(Values(field, b));
  }

  lemma {:induction false} DistinctLanesHaveDistinctKeys(receipts: seq<LaneReceipt>)
    requires DistinctIn(LaneOf, receipts)
    ensures Sorting.DistinctKeys(LaneKey, receipts)
  {
    forall i, j | 0 <= i < j < |receipts| ensures LaneKey(receipts[i]) != LaneKey(receipts[j]) {
      assert Values(LaneOf, receipts)[i] != Values(LaneOf, receipts)[j];
      assert LaneKey(receipts[i])[0].text == receipts[i].lane && LaneKey(receipts[j])[0].text == receipts[j].lane;
    }
  }

  /** The order in which receipts are listed changes neither the validity nor the envelope. */
  lemma {:induction false} EnvelopeIgnoresOrder(m: Manifest, permuted: seq<LaneReceipt>)
    requires Accepted(m) && multiset(m.receipts) == multiset(permuted)
    ensures Accepted(m.(receipts := permuted))
    ensures Sorting.Sort(LaneKey, permuted) == Sorting.Sort(LaneKey, m.receipts)
  {
    hide ReceiptFits, DistinctIn, Sorting.Sort;
    var n := m.(receipts := permuted);
    PermutedDistinct(LaneOf, m.receipts, permuted);
    PermutedDistinct(OperationOf, m.receipts, permuted);
    PermutedDistinct(PathOf, m.receipts, permuted);
    PermutedValues(LaneOf, m.receipts, permuted);
    PermutedValues(LaneOf, permuted, m.receipts);
    forall i | 0 <= i < |permuted| ensures ReceiptFits(n, permuted[i]) {
      PermutedMembers(permuted, m.receipts, i);
      var j :| 0 <= j < |m.receipts| && m.receipts[j] == permuted[i];
      assert ReceiptFits(m, m.receipts[j]);
      SameWindowSameFit(m, n, permuted[i]);
    }
    DistinctLanesHaveDistinctKeys(m.receipts);
    DistinctLanesHaveDistinctKeys(permuted);
    Sorting.SortIgnoresOrder(LaneKey, m.receipts, permuted);
  }

  lemma {:induction false} SameWindowSameFit(m: Manifest, n: Manifest, r: LaneReceipt)
    requires m.start == n.start && m.end == n.end
    ensures ReceiptFits(m, r) <==> ReceiptFits(n, r)
  {
  }
}
