/** The prompt intake corpus: derived counts, the delta of a post-cutoff item, briefing buckets,
    retention and latency percentiles. Times are integers in seconds, fingerprints opaque. */
module IntakeCorpus {
  import opened Wrappers
  import opened Sequences
  import Sorting

  datatype Status = InProgress | Todo | Backlog | Done | Duplicate

  datatype Decision = AmendExisting | NoOpReference | CreateNew

  datatype Exclusion = AlreadyCompleted | DuplicateReference

  datatype Item = Item(
    fixtureId: string,
    issue: string,
    status: Status,
    classification: string,
    decision: Decision,
    exclusion: Option<Exclusion>,
    duplicateOf: Option<string>,
    sourceFingerprint: string,
    observedAt: int,
    sourceUntil: int,
    operation: string,
    recordedAt: int,
    receiptUntil: int)

  datatype Briefing = Briefing(doToday: seq<string>, monitor: seq<string>, ignore: seq<string>)

  datatype Corpus = Corpus(cutoff: int, snapshot: int, sourceDays: int, receiptDays: int, items: seq<Item>,
                           expected: Expected, briefing: Briefing)

  const DAY := 86_400

  predicate IsReference(s: Status) {
    s in {Done, Duplicate}
  }

  predicate IsLive(s: Status) {
    s in {InProgress, Todo, Backlog}
  }

  /** The decision, the exclusion and the duplicate target follow from the status. */
  predicate DecisionFits(x: Item) {
    match x.status
    case Done => x.decision == NoOpReference && x.exclusion == Some(AlreadyCompleted) && x.duplicateOf.None?
    case Duplicate =>
      x.decision == NoOpReference && x.exclusion == Some(DuplicateReference) && x.duplicateOf.Some?
      && x.duplicateOf.value != x.issue
    case _ => x.decision == AmendExisting && x.exclusion.None? && x.duplicateOf.None?
  }

  predicate RetentionFits(x: Item, sourceDays: int, receiptDays: int) {
    && x.sourceUntil - x.observedAt == sourceDays * DAY
    && x.observedAt <= x.recordedAt
    && x.receiptUntil - x.recordedAt == receiptDays * DAY
  }

  predicate ItemFits(x: Item, c: Corpus, postCutoff: bool) {
    && DecisionFits(x)
    && (if postCutoff then c.cutoff < x.observedAt else x.observedAt <= c.cutoff)
    && RetentionFits(x, c.sourceDays, c.receiptDays)
  }

  // ------------------------------------------------------------------ counting

  /** Count maps hold positive counts per value, so they are multisets. */
  datatype Expected = Expected(
    items: int,
    live: int,
    referenceOnly: int,
    plannedCreates: int,
    statusCounts: multiset<Status>,
    decisionCounts: multiset<Decision>,
    classificationCounts: multiset<string>,
    exclusionCounts: multiset<Exclusion>)

  function Field<T>(items: seq<Item>, of: Item -> T): seq<T> {
    seq(|items|, i requires 0 <= i < |items| => of(items[i]))
  }

  function Exclusions(items: seq<Item>): seq<Exclusion> {
    if items == [] then []
    else (if items[0].exclusion.Some? then [items[0].exclusion.value] else []) + Exclusions(items[1..])
  }

  function StatusOf(x: Item): Status { x.status }
  function DecisionOf(x: Item): Decision { x.decision }
  function ClassificationOf(x: Item): string { x.classification }
  predicate LiveItem(x: Item) { IsLive(x.status) }
  predicate ReferenceItem(x: Item) { IsReference(x.status) }

  function DeriveExpected(items: seq<Item>): Expected {
    var decisions := multiset(Field(items, DecisionOf));
    Expected(|items|, Count(items, LiveItem), Count(items, ReferenceItem), decisions[CreateNew],
             multiset(Field(items, StatusOf)), decisions, multiset(Field(items, ClassificationOf)),
             multiset(Exclusions(items)))
  }

  function Plus(a: Expected, b: Expected): Expected {
    Expected(a.items + b.items, a.live + b.live, a.referenceOnly + b.referenceOnly, a.plannedCreates + b.plannedCreates,
             a.statusCounts + b.statusCounts, a.decisionCounts + b.decisionCounts,
             a.classificationCounts + b.classificationCounts, a.exclusionCounts + b.exclusionCounts)
  }

  lemma {:induction false} ExclusionsMore(items: seq<Item>, x: Item)
    ensures Exclusions(items + [x]) == Exclusions(items) + (if x.exclusion.Some? then [x.exclusion.value] else [])
  {
    if items == [] {
      assert items + [x] == [x];
    } else {
      assert (items + [x])[1..] == items[1..] + [x];
      ExclusionsMore(items[1..], x);
    }
  }

  lemma {:induction false} FieldMore<T>(items: seq<Item>, x: Item, of: Item -> T)
    ensures multiset(Field(items + [x], of)) == multiset(Field(items, of)) + multiset{of(x)}
  {
    assert Field(items + [x], of) == Field(items, of) + [of(x)];
  }

  datatype CorpusError =
    | SnapshotPredatesCutoff
    | BadRetention
    | NoItems
    | InvalidItem
    | DuplicateIdentity
    | UnknownDuplicateTarget
    | CountsDrifted
    | PlansCreation
    | DuplicateInBucket
    | BucketsDoNotCover
    | BucketsOverlap
    | WrongBucket
    | InvalidCorpus
    | FixtureExists
    | IssueExists
    | SourceExists
    | MustAmendLive

  /** The simulated effect of one item observed after the cutoff. */
  function PostCutoffDelta(c: Corpus, x: Item): Result<Expected, CorpusError> {
    if !Valid(c) then Err(InvalidCorpus)
    else if !ItemFits(x, c, true) then Err(InvalidItem)
    else if exists i :: 0 <= i < |c.items| && c.items[i].fixtureId == x.fixtureId then Err(FixtureExists)
    else if exists i :: 0 <= i < |c.items| && c.items[i].issue == x.issue then Err(IssueExists)
    else if exists i :: 0 <= i < |c.items| && c.items[i].sourceFingerprint == x.sourceFingerprint then Err(SourceExists)
    else if x.decision != AmendExisting || !IsLive(x.status) then Err(MustAmendLive)
    else
      Ok(Expected(1, 1, 0, 0, multiset{x.status}, multiset{AmendExisting}, multiset{x.classification}, multiset{}))
  }

  /** The reported delta is the difference the item makes: adding it to the corpus and deriving all counts
      anew gives the old counts plus the delta. */
  lemma {:induction false} DeltaIsTheDifference(c: Corpus, x: Item)
    requires PostCutoffDelta(c, x).Ok?
    ensures DeriveExpected(c.items + [x]) == Plus(DeriveExpected(c.items), PostCutoffDelta(c, x).value)
  {
    hide Count, Field, Exclusions, RetentionFits, Valid;
    CountMore(c.items, x, LiveItem);
    CountMore(c.items, x, ReferenceItem);
    ExclusionsMore(c.items, x);
    FieldMore(c.items, x, StatusOf);
    FieldMore(c.items, x, DecisionOf);
    FieldMore(c.items, x, ClassificationOf);
    assert x.exclusion.None?;
  }

  /** Which items are accepted after the cutoff: new ones, observed after it, that amend a live issue and keep the
      retention. */
  lemma {:induction false} DeltaAcceptedIff(c: Corpus, x: Item)
    ensures PostCutoffDelta(c, x).Ok? <==>
            && Valid(c)
            && x.status in {InProgress, Todo, Backlog} && x.decision == AmendExisting
            && x.exclusion.None? && x.duplicateOf.None?
            && c.cutoff < x.observedAt <= x.recordedAt
            && x.sourceUntil == x.observedAt + c.sourceDays * 86_400
            && x.receiptUntil == x.recordedAt + c.receiptDays * 86_400
            && forall i :: 0 <= i < |c.items| ==> IsNewTo(c.items[i], x)
  {
    hide Valid;
    match x.status
    case InProgress =>
    case Todo =>
    case Backlog =>
    case Done =>
    case Duplicate =>
  }

  /** What the acceptance of a post-cutoff item compares: all identities but the operation. */
  predicate IsNewTo(known: Item, x: Item) {
    known.fixtureId != x.fixtureId && known.issue != x.issue && known.sourceFingerprint != x.sourceFingerprint
  }

  // ---------------------------------------------------------------- validation

  function Issues(items: seq<Item>): set<string> {
    set i | 0 <= i < |items| :: items[i].issue
  }

  predicate StatusIs(items: seq<Item>, issue: string, reference: bool) {
    forall i :: 0 <= i < |items| && items[i].issue == issue ==> (IsReference(items[i].status) <==> reference)
  }

  predicate AllStatus(bucket: seq<string>, items: seq<Item>, reference: bool) {
    forall issue :: issue in bucket ==> StatusIs(items, issue, reference)
  }

  predicate Apart(a: set<string>, b: set<string>, c: set<string>) {
    a !! b && a !! c && b !! c
  }

  predicate BriefingFits(b: Briefing, items: seq<Item>) {
    && Distinct(b.doToday) && Distinct(b.monitor) && Distinct(b.ignore)
    && Elements(b.doToday) + Elements(b.monitor) + Elements(b.ignore) == Issues(items)
    && Apart(Elements(b.doToday), Elements(b.monitor), Elements(b.ignore))
    && AllStatus(b.ignore, items, true) && AllStatus(b.doToday + b.monitor, items, false)
  }

  /** Two items differ in every identity. */
  predicate Unrelated(a: Item, b: Item) {
    && a.fixtureId != b.fixtureId && a.issue != b.issue
    && a.sourceFingerprint != b.sourceFingerprint && a.operation != b.operation
  }

  /** The checks on retention, items, identities, counts and buckets. */
  predicate Valid(c: Corpus) {
    && c.cutoff <= c.snapshot
    && 1 <= c.sourceDays <= 365 && c.sourceDays <= c.receiptDays <= 3_650
    && c.items != []
    && (forall i :: 0 <= i < |c.items| ==> ItemFits(c.items[i], c, false))
    && (forall i, j :: 0 <= i < j < |c.items| ==> Unrelated(c.items[i], c.items[j]))
    && (forall i :: 0 <= i < |c.items| && c.items[i].duplicateOf.Some? ==>
          c.items[i].duplicateOf.value in Issues(c.items))
    && c.expected == DeriveExpected(c.items) && c.expected.plannedCreates == 0
    && BriefingFits(c.briefing, c.items)
  }

  // ------------------------------------------------------ taking a delta over

  /** The corpus after the item: the cutoff moves up to it, the counts take its delta, and today's bucket its
      issue. */
  function Merged(c: Corpus, x: Item): Corpus
    requires PostCutoffDelta(c, x).Ok?
  {
    Corpus(x.observedAt, if c.snapshot < x.observedAt then x.observedAt else c.snapshot, c.sourceDays, c.receiptDays,
           c.items + [x], Plus(c.expected, PostCutoffDelta(c, x).value),
           c.briefing.(doToday := c.briefing.doToday + [x.issue]))
  }

  lemma {:induction false} MergedIssues(items: seq<Item>, x: Item)
    ensures Issues(items + [x]) == Issues(items) + {x.issue}
  {
    var more := items + [x];
    forall issue ensures issue in Issues(more) <==> issue in Issues(items) + {x.issue} {
      if issue in Issues(items) {
        var i :| 0 <= i < |items| && items[i].issue == issue;
        assert more[i].issue == issue;
      }
      assert more[|items|] == x;
    }
  }

  lemma {:induction false} MergedStatus(items: seq<Item>, x: Item, bucket: seq<string>, reference: bool)
    requires x.issue !in Issues(items) && AllStatus(bucket, items, reference) && Elements(bucket) <= Issues(items)
    ensures AllStatus(bucket, items + [x], reference)
  {
    forall issue | issue in bucket ensures StatusIs(items + [x], issue, reference) {
      assert issue in Elements(bucket) && StatusIs(items, issue, reference);
    }
  }

  lemma {:induction false} MergedBriefing(b: Briefing, items: seq<Item>, x: Item)
    requires BriefingFits(b, items) && x.issue !in Issues(items) && IsLive(x.status)
    ensures BriefingFits(b.(doToday := b.doToday + [x.issue]), items + [x])
  {
    var issue, more := x.issue, items + [x];
    var today := b.doToday + [issue];
    MergedIssues(items, x);
    ElementsOfSum(b.doToday, [issue]);
    ElementsOfSum(b.doToday, b.monitor);
    MergedStatus(items, x, b.ignore, true);
    MergedStatus(items, x, b.doToday + b.monitor, false);
    assert issue !in Elements(b.doToday) + Elements(b.monitor) + Elements(b.ignore);
    assert Elements([issue]) == {issue};
    assert Distinct(today) by {
      forall i | 0 <= i < |b.doToday| ensures b.doToday[i] != issue {
        assert b.doToday[i] in Elements(b.doToday);
      }
    }
    forall other | other in today + b.monitor ensures StatusIs(more, other, false) {
      if other == issue {
        forall i | 0 <= i < |items| ensures items[i].issue != issue {
          assert items[i].issue in Issues(items);
        }
      } else {
        assert other in b.doToday + b.monitor;
      }
    }
  }

  lemma {:induction false} MergedItems(c: Corpus, x: Item)
    requires PostCutoffDelta(c, x).Ok?
    ensures forall i :: 0 <= i < |c.items + [x]| ==> ItemFits((c.items + [x])[i], Merged(c, x), false)
    ensures x.issue !in Issues(c.items) && x.duplicateOf.None?
  {
    hide Unrelated, DeriveExpected, BriefingFits, DecisionFits;
    DeltaAcceptedIff(c, x);
    forall i | 0 <= i < |c.items| ensures c.items[i].issue != x.issue && ItemFits(c.items[i], Merged(c, x), false) {
      assert IsNewTo(c.items[i], x) && ItemFits(c.items[i], c, false);
    }
  }

  /** An accepted item can be taken over into a valid corpus if and only if its operation id is new as well, the
      one identity that its acceptance does not compare. */
  lemma {:induction false} MergedIsValidIff(c: Corpus, x: Item)
    requires PostCutoffDelta(c, x).Ok?
    ensures Valid(Merged(c, x)) <==> forall i :: 0 <= i < |c.items| ==> c.items[i].operation != x.operation
  {
    hide ItemFits, DeriveExpected, BriefingFits;
    var m := Merged(c, x);
    MergedItems(c, x);
    MergedIssues(c.items, x);
    DeltaIsTheDifference(c, x);
    DeltaAcceptedIff(c, x);
    MergedBriefing(c.briefing, c.items, x);
    if Valid(m) {
      forall i | 0 <= i < |c.items| ensures c.items[i].operation != x.operation {
        assert Unrelated(m.items[i], m.items[|c.items|]);
      }
    }
    if forall i :: 0 <= i < |c.items| ==> c.items[i].operation != x.operation {
      forall i, j | 0 <= i < j < |m.items| ensures Unrelated(m.items[i], m.items[j]) {
        assert j < |c.items| ==> Unrelated(c.items[i], c.items[j]);
        assert IsNewTo(c.items[i], x);
      }
      forall i | 0 <= i < |m.items| && m.items[i].duplicateOf.Some?
        ensures m.items[i].duplicateOf.value in Issues(m.items)
      {
        assert m.items[i] == c.items[i];
      }
    }
  }

  /** A new item under the operation id of a known one. */
  function Borrowing(c: Corpus, fixture: string, issue: string, fingerprint: string): Item
    requires c.items != []
  {
    var at := c.cutoff + 1;
    Item(fixture, issue, Todo, "", AmendExisting, None, None, fingerprint, at, at + c.sourceDays * DAY,
         c.items[0].operation, at, at + c.receiptDays * DAY)
  }

  /** So acceptance is not enough, in any corpus: an item that borrows its operation id is accepted but cannot be
      taken over. */
  lemma {:induction false} SharedOperationIsAccepted(c: Corpus, x: Item)
    requires Valid(c) && x == Borrowing(c, x.fixtureId, x.issue, x.sourceFingerprint)
    requires forall i :: 0 <= i < |c.items| ==> IsNewTo(c.items[i], x)
    ensures PostCutoffDelta(c, x).Ok? && !Valid(Merged(c, x))
  {
    assert x.operation == c.items[0].operation;
    hide Valid, PostCutoffDelta, Merged;
    DeltaAcceptedIff(c, x);
    MergedIsValidIff(c, x);
  }

  // ----------------------------------------------------- validation as a pass

  function FixtureOf(x: Item): string {
    x.fixtureId
  }

  function IssueOf(x: Item): string {
    x.issue
  }

  function FingerprintOf(x: Item): string {
    x.sourceFingerprint
  }

  function OperationOf(x: Item): string {
    x.operation
  }

  datatype Seen = Seen(fixtures: set<string>, issues: set<string>, fingerprints: set<string>, operations: set<string>)

  ghost predicate AllCollected(seen: Seen, items: seq<Item>, n: int)
    requires 0 <= n <= |items|
  {
    && Collected(seen.fixtures, FixtureOf, items, n) && Collected(seen.issues, IssueOf, items, n)
    && Collected(seen.fingerprints, FingerprintOf, items, n) && Collected(seen.operations, OperationOf, items, n)
  }

  predicate IsKnown(seen: Seen, x: Item) {
    || x.fixtureId in seen.fixtures || x.issue in seen.issues
    || x.sourceFingerprint in seen.fingerprints || x.operation in seen.operations
  }

  function See(seen: Seen, x: Item): Seen {
    Seen(seen.fixtures + {x.fixtureId}, seen.issues + {x.issue}, seen.fingerprints + {x.sourceFingerprint},
         seen.operations + {x.operation})
  }

  lemma {:induction false} SeeKeepsCollected(seen: Seen, items: seq<Item>, i: int)
    requires 0 <= i < |items| && AllCollected(seen, items, i)
    ensures AllCollected(See(seen, items[i]), items, i + 1)
  {
    hide Collected;
    CollectMore(seen.fixtures, FixtureOf, items, i);
    CollectMore(seen.issues, IssueOf, items, i);
    CollectMore(seen.fingerprints, FingerprintOf, items, i);
    CollectMore(seen.operations, OperationOf, items, i);
  }

  ghost predicate NewAt(items: seq<Item>, i: int)
    requires 0 <= i < |items|
  {
    forall j :: 0 <= j < i ==> Unrelated(items[j], items[i])
  }

  lemma {:induction false} KnownIffNotNew(seen: Seen, items: seq<Item>, i: int)
    requires 0 <= i < |items| && AllCollected(seen, items, i)
    ensures IsKnown(seen, items[i]) <==> !NewAt(items, i)
  {
    var x := items[i];
    if IsKnown(seen, x) {
      var j :| 0 <= j < i && !Unrelated(items[j], x);
    }
    if !NewAt(items, i) {
      var j :| 0 <= j < i && !Unrelated(items[j], x);
      assert FixtureOf(items[j]) == items[j].fixtureId && IssueOf(items[j]) == items[j].issue;
      assert FingerprintOf(items[j]) == items[j].sourceFingerprint && OperationOf(items[j]) == items[j].operation;
    }
  }

  /** Each item under its issue. */
  ghost predicate Indexes(index: map<string, Item>, items: seq<Item>, n: int)
    requires 0 <= n <= |items|
  {
    && (forall i :: 0 <= i < n ==> items[i].issue in index && index[items[i].issue] == items[i])
    && (forall issue :: issue in index ==> TakenBefore(IssueOf, items, n, issue))
  }

  lemma {:induction false} IndexesMore(index: map<string, Item>, items: seq<Item>, i: int)
    requires 0 <= i < |items| && Indexes(index, items, i) && NewAt(items, i)
    ensures Indexes(index[items[i].issue := items[i]], items, i + 1)
  {
    forall j | 0 <= j < i ensures items[j].issue != items[i].issue {
      assert Unrelated(items[j], items[i]);
    }
    var more, n := index[items[i].issue := items[i]], i + 1;
    forall issue | issue in more ensures TakenBefore(IssueOf, items, n, issue) {
      TakenMore(IssueOf, items, i, issue);
    }
  }

  /** The pass over the items. */
  method CheckItems(c: Corpus) returns (error: Option<CorpusError>, index: map<string, Item>)
    ensures error.None? <==> forall i :: 0 <= i < |c.items| ==> ItemFits(c.items[i], c, false) && NewAt(c.items, i)
    ensures error.None? ==> Indexes(index, c.items, |c.items|)
  {
    hide ItemFits, NewAt, AllCollected, IsKnown, See;
    index := map[];
    var seen := Seen({}, {}, {}, {});
    NothingSeen(c.items);
    for i := 0 to |c.items|
      invariant forall k :: 0 <= k < i ==> ItemFits(c.items[k], c, false) && NewAt(c.items, k)
      invariant AllCollected(seen, c.items, i) && Indexes(index, c.items, i)
    {
      var x := c.items[i];
      if !ItemFits(x, c, false) {
        return Some(InvalidItem), index;
      }
      KnownIffNotNew(seen, c.items, i);
      if IsKnown(seen, x) {
        return Some(DuplicateIdentity), index;
      }
      SeeKeepsCollected(seen, c.items, i);
      IndexesMore(index, c.items, i);
      seen := See(seen, x);
      index := index[x.issue := x];
    }
    error := None;
  }

  lemma {:induction false} NothingSeen(items: seq<Item>)
    ensures AllCollected(Seen({}, {}, {}, {}), items, 0) && Indexes(map[], items, 0)
  {
  }

  lemma {:induction false} IndexKeys(index: map<string, Item>, items: seq<Item>)
    requires Indexes(index, items, |items|)
    ensures index.Keys == Issues(items)
  {
    forall issue | issue in index ensures issue in Issues(items) {
      var i :| 0 <= i < |items| && IssueOf(items[i]) == issue;
    }
  }

  lemma {:induction false} StatusIsLookup(index: map<string, Item>, items: seq<Item>, issue: string, reference: bool)
    requires Indexes(index, items, |items|) && issue in index
    ensures StatusIs(items, issue, reference) <==> (IsReference(index[issue].status) <==> reference)
  {
    var i :| 0 <= i < |items| && IssueOf(items[i]) == issue;
  }

  /** Every issue of a bucket is, or is not, the issue of a reference-only item. */
  method CheckBucket(bucket: seq<string>, reference: bool, index: map<string, Item>, ghost items: seq<Item>)
    returns (fits: bool)
    requires Indexes(index, items, |items|) && Elements(bucket) <= index.Keys
    ensures fits <==> AllStatus(bucket, items, reference)
  {
    hide Indexes, StatusIs;
    for k := 0 to |bucket|
      invariant forall j :: 0 <= j < k ==> StatusIs(items, bucket[j], reference)
    {
      assert bucket[k] in Elements(bucket);
      StatusIsLookup(index, items, bucket[k], reference);
      if IsReference(index[bucket[k]].status) != reference {
        return false;
      }
    }
    return true;
  }

  /** The checks on the briefing buckets. */
  method CheckBriefing(b: Briefing, index: map<string, Item>, ghost items: seq<Item>)
    returns (error: Option<CorpusError>)
    requires Indexes(index, items, |items|)
    ensures error.None? <==> BriefingFits(b, items)
  {
    hide Indexes, AllStatus, Distinct, Elements, Issues, Apart;
    IndexKeys(index, items);
    DistinctCount(b.doToday);
    DistinctCount(b.monitor);
    DistinctCount(b.ignore);
    ElementsOfSum(b.doToday, b.monitor);
    var today, monitor, ignore := Elements(b.doToday), Elements(b.monitor), Elements(b.ignore);
    if |b.doToday| != |today| || |b.monitor| != |monitor| || |b.ignore| != |ignore| {
      return Some(DuplicateInBucket);
    }
    if today + monitor + ignore != index.Keys {
      return Some(BucketsDoNotCover);
    }
    if !Apart(today, monitor, ignore) {
      return Some(BucketsOverlap);
    }
    var references := CheckBucket(b.ignore, true, index, items);
    if !references {
      return Some(WrongBucket);
    }
    var live := CheckBucket(b.doToday + b.monitor, false, index, items);
    if !live {
      return Some(WrongBucket);
    }
    return None;
  }

  lemma {:induction false} NewIsUnrelated(items: seq<Item>)
    ensures (forall i :: 0 <= i < |items| ==> NewAt(items, i))
            <==> forall i, j :: 0 <= i < j < |items| ==> Unrelated(items[i], items[j])
  {
    hide Unrelated;
    if forall i :: 0 <= i < |items| ==> NewAt(items, i) {
      forall i, j | 0 <= i < j < |items| ensures Unrelated(items[i], items[j]) {
        assert NewAt(items, j);
      }
    }
  }

  /** Validation raises exactly when the corpus is not valid. */
  method ValidateCorpus(c: Corpus) returns (error: Option<CorpusError>)
    ensures error.None? <==> Valid(c)
  {
    hide ItemFits, NewAt, Unrelated, Indexes, DeriveExpected, BriefingFits;
    if c.snapshot < c.cutoff {
      return Some(SnapshotPredatesCutoff);
    }
    if !(1 <= c.sourceDays <= 365 && c.sourceDays <= c.receiptDays <= 3_650) {
      return Some(BadRetention);
    }
    if c.items == [] {
      return Some(NoItems);
    }
    var index;
    error, index := CheckItems(c);
    NewIsUnrelated(c.items);
    if error.Some? {
      return;
    }
    IndexKeys(index, c.items);
    for i := 0 to |c.items|
      invariant forall k :: 0 <= k < i && c.items[k].duplicateOf.Some? ==>
                  c.items[k].duplicateOf.value in Issues(c.items)
    {
      if c.items[i].duplicateOf.Some? && c.items[i].duplicateOf.value !in index {
        return Some(UnknownDuplicateTarget);
      }
    }
    if c.expected != DeriveExpected(c.items) {
      return Some(CountsDrifted);
    }
    if c.expected.plannedCreates != 0 {
      return Some(PlansCreation);
    }
    error := CheckBriefing(c.briefing, index, c.items);
  }

  lemma {:induction false} LiveOrReference(s: Status)
    ensures IsLive(s) <==> !IsReference(s)
  {
    match s
    case InProgress =>
    case Todo =>
    case Backlog =>
    case Done =>
    case Duplicate =>
  }

  /** The ignore bucket holds exactly the issues of reference-only items, once each. */
  lemma {:induction false} IgnoreIsReferenceOnly(c: Corpus, i: nat)
    requires Valid(c) && i < |c.items|
    ensures c.items[i].issue in c.briefing.ignore <==> IsReference(c.items[i].status)
    ensures c.items[i].issue in c.briefing.doToday + c.briefing.monitor <==> IsLive(c.items[i].status)
  {
    hide ItemFits, Unrelated, DeriveExpected;
    var b, issue := c.briefing, c.items[i].issue;
    assert issue in Issues(c.items);
    assert issue in Elements(b.doToday) + Elements(b.monitor) + Elements(b.ignore);
    if issue in b.ignore {
      assert StatusIs(c.items, issue, true);
      assert IsReference(c.items[i].status);
      assert issue in Elements(b.ignore);
    } else {
      assert issue in b.doToday + b.monitor;
      assert StatusIs(c.items, issue, false);
      assert !IsReference(c.items[i].status);
    }
    LiveOrReference(c.items[i].status);
  }

  /** When an item fits: its status decides everything but its times, it was observed before the cutoff and
      recorded no earlier, and both retentions are kept to the second. */
  lemma {:induction false} ItemFitsIff(x: Item, c: Corpus)
    ensures ItemFits(x, c, false) <==>
            && (x.decision == if x.status in {InProgress, Todo, Backlog} then AmendExisting else NoOpReference)
            && (x.exclusion == if x.status == Done then Some(AlreadyCompleted)
                               else if x.status == Duplicate then Some(DuplicateReference) else None)
            && (x.duplicateOf.Some? <==> x.status == Duplicate) && x.duplicateOf != Some(x.issue)
            && x.observedAt <= c.cutoff && x.observedAt <= x.recordedAt
            && x.sourceUntil == x.observedAt + c.sourceDays * 86_400
            && x.receiptUntil == x.recordedAt + c.receiptDays * 86_400
  {
    match x.status
    case InProgress =>
    case Todo =>
    case Backlog =>
    case Done =>
    case Duplicate =>
  }

  /** In a valid corpus exactly the duplicates name a target, and it is another item. */
  lemma {:induction false} DuplicatesNameOthers(c: Corpus, i: nat)
    requires Valid(c) && i < |c.items|
    ensures c.items[i].duplicateOf.Some? <==>
            && c.items[i].status == Duplicate
            && exists j :: 0 <= j < |c.items| && j != i && c.items[i].duplicateOf == Some(c.items[j].issue)
  {
    hide DeriveExpected, BriefingFits, Unrelated, ItemFits;
    ItemFitsIff(c.items[i], c);
    if c.items[i].duplicateOf.Some? {
      assert c.items[i].duplicateOf.value in Issues(c.items);
      var j :| 0 <= j < |c.items| && c.items[j].issue == c.items[i].duplicateOf.value;
      assert j != i;
    }
  }

  lemma {:induction false} FieldFirst<T>(items: seq<Item>, of: Item -> T)
    requires items != []
    ensures multiset(Field(items, of)) == multiset{of(items[0])} + multiset(Field(items[1..], of))
  {
    assert Field(items, of) == [of(items[0])] + Field(items[1..], of);
  }

  lemma {:induction false} LiveItemsAmend(items: seq<Item>)
    requires forall i :: 0 <= i < |items| ==> DecisionFits(items[i])
    ensures Count(items, LiveItem) + Count(items, ReferenceItem) == |items|
    ensures multiset(Field(items, DecisionOf))[CreateNew] == 0
    ensures multiset(Field(items, DecisionOf))[AmendExisting] == Count(items, LiveItem)
  {
    hide Field;
    if items == [] {
      NoFields(items);
    } else {
      LiveItemsAmend(items[1..]);
      FieldFirst(items, DecisionOf);
      assert DecisionFits(items[0]);
    }
  }

  lemma {:induction false} NoFields(items: seq<Item>)
    requires items == []
    ensures Field(items, DecisionOf) == [] && Field(items, StatusOf) == [] && Exclusions(items) == []
  {
  }

  lemma {:induction false} ExclusionsFirst(items: seq<Item>)
    requires items != []
    ensures var first := items[0].exclusion;
            multiset(Exclusions(items))
            == (if first.Some? then multiset{first.value} else multiset{}) + multiset(Exclusions(items[1..]))
  {
    if items[0].exclusion.None? {
      assert Exclusions(items) == Exclusions(items[1..]);
    }
  }

  lemma {:induction false} ReferencesAreExcluded(items: seq<Item>)
    requires forall i :: 0 <= i < |items| ==> DecisionFits(items[i])
    ensures multiset(Exclusions(items))[AlreadyCompleted] == multiset(Field(items, StatusOf))[Done]
    ensures multiset(Exclusions(items))[DuplicateReference] == multiset(Field(items, StatusOf))[Duplicate]
  {
    hide Field, Exclusions;
    if items == [] {
      NoFields(items);
    } else {
      ReferencesAreExcluded(items[1..]);
      ExclusionsFirst(items);
      FieldFirst(items, StatusOf);
      assert DecisionFits(items[0]);
    }
  }

  /** In a valid corpus every item is live or a reference, exactly the live ones amend an existing issue,
      none is created, and each exclusion reason is counted once per item of its status. */
  lemma {:induction false} CountsAreCoherent(c: Corpus)
    requires Valid(c)
    ensures c.expected.live + c.expected.referenceOnly == c.expected.items
    ensures c.expected.decisionCounts[AmendExisting] == c.expected.live && c.expected.plannedCreates == 0
    ensures c.expected.exclusionCounts[AlreadyCompleted] == c.expected.statusCounts[Done]
    ensures c.expected.exclusionCounts[DuplicateReference] == c.expected.statusCounts[Duplicate]
  {
    hide Count, Field, Exclusions, BriefingFits, RetentionFits, DecisionFits;
    LiveItemsAmend(c.items);
    ReferencesAreExcluded(c.items);
  }

  // ----------------------------------------------------------------- retention

  predicate SourceExpired(x: Item, now: int) {
    now >= x.sourceUntil
  }

  predicate ReceiptExpired(x: Item, now: int) {
    now >= x.receiptUntil
  }

  /** In a valid corpus a source is purged at the age of the source retention, counted from its observation, and
      a receipt at that of the receipt retention, counted from its record. */
  lemma {:induction false} PurgedAtAge(c: Corpus, i: nat, now: int)
    requires Valid(c) && i < |c.items|
    ensures var x := c.items[i];
            && (SourceExpired(x, now) <==> now - x.observedAt >= c.sourceDays * 24 * 60 * 60)
            && (ReceiptExpired(x, now) <==> now - x.recordedAt >= c.receiptDays * 24 * 60 * 60)
  {
    assert ItemFits(c.items[i], c, false);
  }

  datatype Kept = Kept(fixtureId: string, issue: string, sourcePurged: bool, receiptPurged: bool)

  function KeptAt(x: Item, now: int): Kept {
    Kept(x.fixtureId, x.issue, SourceExpired(x, now), ReceiptExpired(x, now))
  }

  lemma {:induction false} CountsCompare(items: seq<Item>, p: Item -> bool, q: Item -> bool)
    requires forall i :: 0 <= i < |items| && p(items[i]) ==> q(items[i])
    ensures Count(items, p) <= Count(items, q)
  {
    if items != [] {
      forall i | 0 <= i < |items[1..]| && p(items[1..][i]) ensures q(items[1..][i]) {
        assert p(items[i + 1]);
      }
      CountsCompare(items[1..], p, q);
    }
  }

  /** An expired receipt's source is purged already: receipts are kept at least as long, and recorded no
      earlier, than their sources. */
  lemma {:induction false} ReceiptsOutliveSources(c: Corpus, now: int)
    requires Valid(c)
    ensures forall i :: 0 <= i < |c.items| && ReceiptExpired(c.items[i], now) ==> SourceExpired(c.items[i], now)
    ensures Count(c.items, x => ReceiptExpired(x, now)) <= Count(c.items, x => SourceExpired(x, now))
  {
    forall i | 0 <= i < |c.items| && ReceiptExpired(c.items[i], now) ensures SourceExpired(c.items[i], now) {
      assert ItemFits(c.items[i], c, false);
    }
    CountsCompare(c.items, x => ReceiptExpired(x, now), x => SourceExpired(x, now));
  }

  /** What is purged stays purged, so both counts only grow with time. */
  lemma {:induction false} PurgesGrow(items: seq<Item>, now: int, later: int)
    requires now <= later
    ensures Count(items, x => SourceExpired(x, now)) <= Count(items, x => SourceExpired(x, later))
    ensures Count(items, x => ReceiptExpired(x, now)) <= Count(items, x => ReceiptExpired(x, later))
  {
    CountsCompare(items, x => SourceExpired(x, now), x => SourceExpired(x, later));
    CountsCompare(items, x => ReceiptExpired(x, now), x => ReceiptExpired(x, later));
  }

  datatype Purge = Purge(kept: seq<Kept>, sourcesPurged: nat, receiptsPurged: nat)

  /** The purge at `now` of any valid corpus: every item is listed, what expired is purged and nothing
      else, and no more receipts are purged than sources. */
  method PurgeRetainedMetadata(c: Corpus, now: int) returns (purge: Result<Purge, CorpusError>)
    ensures purge.Ok? <==> Valid(c)
    ensures purge.Ok? ==>
              var Purge(kept, sourcesPurged, receiptsPurged) := purge.value;
              && |kept| == |c.items| && (forall i :: 0 <= i < |kept| ==> kept[i] == KeptAt(c.items[i], now))
              && sourcesPurged == Count(c.items, x => SourceExpired(x, now))
              && receiptsPurged == Count(c.items, x => ReceiptExpired(x, now))
              && receiptsPurged <= sourcesPurged
  {
    hide Valid, Count;
    var error := ValidateCorpus(c);
    if error.Some? {
      return Err(error.value);
    }
    var kept, sourcesPurged, receiptsPurged := [], 0, 0;
    ghost var sourceGone, receiptGone := (x: Item) => SourceExpired(x, now), (x: Item) => ReceiptExpired(x, now);
    NothingCounted(sourceGone);
    NothingCounted(receiptGone);
    for i := 0 to |c.items|
      invariant |kept| == i && forall k :: 0 <= k < i ==> kept[k] == KeptAt(c.items[k], now)
      invariant sourcesPurged == Count(c.items[..i], sourceGone)
      invariant receiptsPurged == Count(c.items[..i], receiptGone)
    {
      var x := c.items[i];
      CountNext(c.items, i, sourceGone);
      CountNext(c.items, i, receiptGone);
      if SourceExpired(x, now) {
        sourcesPurged := sourcesPurged + 1;
      }
      if ReceiptExpired(x, now) {
        receiptsPurged := receiptsPurged + 1;
      }
      kept := kept + [KeptAt(x, now)];
    }
    assert c.items[..|c.items|] == c.items;
    ReceiptsOutliveSources(c, now);
    return Ok(Purge(kept, sourcesPurged, receiptsPurged));
  }

  lemma {:induction false} NothingCounted(holds: Item -> bool)
    ensures Count([], holds) == 0
  {
  }

  // --------------------------------------------------------------- percentiles

  function SampleKey(x: int): Sorting.Key {
    [Sorting.Number(x)]
  }

  function Ceiling(x: real): int {
    -(-x).Floor
  }

  function PercentileIndex(n: nat, fraction: real): int {
    var index := Ceiling(fraction * n as real) - 1;
    var capped := if index < n - 1 then index else n - 1;
    if capped > 0 then capped else 0
  }

  function Percentile(samples: seq<int>, fraction: real): int
    requires samples != []
  {
    Sorting.SortKeepsLength(SampleKey, samples);
    Sorting.Sort(SampleKey, samples)[PercentileIndex(|samples|, fraction)]
  }

  lemma {:induction false} SortedSamplesRise(samples: seq<int>, i: nat, j: nat)
    requires i <= j < |Sorting.Sort(SampleKey, samples)|
    ensures Sorting.Sort(SampleKey, samples)[i] <= Sorting.Sort(SampleKey, samples)[j]
  {
    hide Sorting.Sort;
    var sorted := Sorting.Sort(SampleKey, samples);
    Sorting.SortIsOrdered(SampleKey, samples);
    if i < j {
      assert !Sorting.Before(SampleKey(sorted[j]), SampleKey(sorted[i]));
      assert sorted[j] < sorted[i] ==> Sorting.Lex(Sorting.PartLess, SampleKey(sorted[j]), SampleKey(sorted[i]));
    }
  }

  lemma {:induction false} IndexGrows(n: nat, low: real, high: real)
    requires low <= high && n > 0
    ensures 0 <= PercentileIndex(n, low) <= PercentileIndex(n, high) < n
  {
    assert low * n as real <= high * n as real;
  }

  /** Percentiles are samples and rise with their fraction, so the latency summary is always in order. */
  lemma {:induction false} PercentilesRise(samples: seq<int>, low: real, high: real, x: int)
    requires low <= high && x in samples
    ensures Percentile(samples, low) <= Percentile(samples, high)
    ensures Percentile(samples, low) in samples
    ensures Percentile(samples, 0.0) <= x <= Percentile(samples, 1.0)
  {
    hide Sorting.Sort;
    var sorted := Sorting.Sort(SampleKey, samples);
    Sorting.SortKeepsLength(SampleKey, samples);
    IndexGrows(|samples|, low, high);
    SortedSamplesRise(samples, PercentileIndex(|samples|, low), PercentileIndex(|samples|, high));
    Sorting.SortMembers(SampleKey, samples, Percentile(samples, low));
    Sorting.SortMembers(SampleKey, samples, x);
    var k :| 0 <= k < |sorted| && sorted[k] == x;
    assert PercentileIndex(|samples|, 0.0) == 0 && PercentileIndex(|samples|, 1.0) == |samples| - 1;
    SortedSamplesRise(samples, 0, k);
    SortedSamplesRise(samples, k, |samples| - 1);
  }

  function AtMost(x: int): int -> bool {
    (y: int) => y <= x
  }

  function Below(x: int): int -> bool {
    (y: int) => y < x
  }

  lemma {:induction false} InsertKeepsCount(x: int, sorted: seq<int>, holds: int -> bool)
    ensures Count(Sorting.Insert(SampleKey, x, sorted), holds) == (if holds(x) then 1 else 0) + Count(sorted, holds)
  {
    hide Sorting.Before;
    var inserted := Sorting.Insert(SampleKey, x, sorted);
    if sorted == [] || !Sorting.Before(SampleKey(sorted[0]), SampleKey(x)) {
      assert ([x] + sorted)[1..] == sorted;
    } else {
      assert inserted[1..] == Sorting.Insert(SampleKey, x, sorted[1..]);
      InsertKeepsCount(x, sorted[1..], holds);
    }
  }

  lemma {:induction false} SortKeepsCount(samples: seq<int>, holds: int -> bool)
    ensures Count(Sorting.Sort(SampleKey, samples), holds) == Count(samples, holds)
  {
    hide Sorting.Insert;
    if samples != [] {
      SortKeepsCount(samples[1..], holds);
      InsertKeepsCount(samples[0], Sorting.Sort(SampleKey, samples[1..]), holds);
    }
  }

  lemma {:induction false} CountBounds(items: seq<int>, holds: int -> bool, k: nat)
    requires k <= |items|
    ensures (forall i :: 0 <= i < k ==> holds(items[i])) ==> Count(items, holds) >= k
    ensures (forall i :: k <= i < |items| ==> !holds(items[i])) ==> Count(items, holds) <= k
  {
    if items != [] {
      CountBounds(items[1..], holds, if k == 0 then 0 else k - 1);
    }
  }

  lemma {:induction false} NearestRank(n: nat, fraction: real)
    requires n > 0 && 0.0 < fraction <= 1.0
    ensures 0 <= PercentileIndex(n, fraction) < n
    ensures PercentileIndex(n, fraction) as real < fraction * n as real <= (PercentileIndex(n, fraction) + 1) as real
  {
    assert 0.0 < fraction * n as real <= n as real;
  }

  /** What lies at or below, and below, the sample at one place of the sorted samples. */
  lemma {:induction false} CountsAtPlace(samples: seq<int>, index: nat)
    requires index < |Sorting.Sort(SampleKey, samples)|
    ensures var p := Sorting.Sort(SampleKey, samples)[index];
            Count(samples, Below(p)) <= index < Count(samples, AtMost(p))
  {
    hide Sorting.Sort, Count;
    var sorted := Sorting.Sort(SampleKey, samples);
    var p := sorted[index];
    forall i | 0 <= i < index + 1 ensures AtMost(p)(sorted[i]) {
      SortedSamplesRise(samples, i, index);
    }
    forall i | index <= i < |sorted| ensures !Below(p)(sorted[i]) {
      SortedSamplesRise(samples, index, i);
    }
    CountBounds(sorted, AtMost(p), index + 1);
    CountBounds(sorted, Below(p), index);
    SortKeepsCount(samples, AtMost(p));
    SortKeepsCount(samples, Below(p));
  }

  /** Percentiles are nearest-rank ones: at least the given fraction of the samples is at most the percentile,
      and less than that fraction lies below it. */
  lemma {:induction false} PercentileIsNearestRank(samples: seq<int>, fraction: real)
    requires samples != [] && 0.0 < fraction <= 1.0
    ensures var p, wanted := Percentile(samples, fraction), fraction * |samples| as real;
            Count(samples, Below(p)) as real < wanted <= Count(samples, AtMost(p)) as real
  {
    hide Sorting.Sort, PercentileIndex, Count;
    Sorting.SortKeepsLength(SampleKey, samples);
    NearestRank(|samples|, fraction);
    CountsAtPlace(samples, PercentileIndex(|samples|, fraction));
  }
}
