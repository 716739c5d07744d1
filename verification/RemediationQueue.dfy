/** The portfolio remediation queue: what an accepted queue says about ranks, dependencies,
    duplicates and shared anchors. */
module RemediationQueue {
  import opened Wrappers
  import Cycles
  import Ranking
  import Sequences
  import Sorting

  datatype Severity = Critical | High | Medium | Low

  datatype Disposition = DraftPr | AmendExisting | NoopCompleted | NoopExempt | NoopBlocked | NoopDuplicate

  datatype FindingState = Missing | Drifted | Superseded | IntentionallyExempt | ExternallyBlocked | AlreadyRemediated

  datatype Scores = Scores(security: int, dataIntegrity: int, userImpact: int, dependencyCentrality: int,
                           operationalRisk: int, effort: int, testEvidence: int)

  datatype Finding = Finding(
    id: string,
    rank: int,
    state: FindingState,
    severity: Severity,
    disposition: Disposition,
    scores: Scores,
    linearAnchor: string,
    githubAnchor: Option<string>,
    duplicateOf: Option<string>,
    dependsOn: seq<string>)

  datatype QueueError =
    | WrongNumberOfFindings
    | DuplicateId(id: string)
    | RankOutOfRange(id: string)
    | ScoreOutOfRange(id: string)
    | StateContradictsDisposition(id: string)
    | DuplicateTargetMissing(id: string)
    | UnexpectedDuplicateTarget(id: string)
    | SharedLinearAnchor(id: string)
    | SharedGithubAnchor(id: string)
    | BadRanks(rankError: Ranking.RankError)
    | DependsOnItself(id: string)
    | DependsOnUnknown(id: string, dependency: string)
    | DependencyMustRankEarlier(id: string, dependency: string)
    | DependencyCycle(cycle: seq<string>)
    | UnknownDuplicateTarget(id: string)
    | DuplicateOfDuplicate(id: string)

  const MAX_FINDINGS := 100_000

  // ----------------------------------------------------------------- one finding

  predicate IsActionable(f: Finding) {
    f.disposition in {DraftPr, AmendExisting}
  }

  predicate IsBlocked(f: Finding) {
    f.disposition == NoopBlocked
  }

  function Tier(d: Disposition): int {
    match d
    case DraftPr => 0
    case AmendExisting => 0
    case NoopBlocked => 1
    case _ => 2
  }

  function Weight(s: Severity): int {
    match s
    case Critical => 4
    case High => 3
    case Medium => 2
    case Low => 1
  }

  function Composite(s: Scores): int {
    s.security * 25 + s.dataIntegrity * 20 + s.userImpact * 15 + s.dependencyCentrality * 15
    + s.operationalRisk * 15 + (100 - s.effort) * 5 + s.testEvidence * 5
  }

  function KeyOf(f: Finding): Sorting.Key {
    [Sorting.Number(Tier(f.disposition)), Sorting.Number(-Weight(f.severity)), Sorting.Number(-Composite(f.scores)),
     Sorting.Name(f.id)]
  }

  predicate ScoreInRange(score: int) {
    0 <= score <= 100
  }

  predicate ScoresInRange(s: Scores) {
    && ScoreInRange(s.security) && ScoreInRange(s.dataIntegrity) && ScoreInRange(s.userImpact)
    && ScoreInRange(s.dependencyCentrality) && ScoreInRange(s.operationalRisk) && ScoreInRange(s.effort)
    && ScoreInRange(s.testEvidence)
  }

  predicate RankInRange(f: Finding) {
    1 <= f.rank <= MAX_FINDINGS
  }

  predicate StateFits(f: Finding) {
    if IsActionable(f) then f.state !in {AlreadyRemediated, IntentionallyExempt, Superseded}
    else f.disposition == NoopBlocked ==> f.state == ExternallyBlocked
  }

  predicate TargetFits(f: Finding) {
    f.disposition == NoopDuplicate <==> f.duplicateOf.Some?
  }

  function FindingErrors(f: Finding): (errors: seq<QueueError>)
    ensures errors == [] <==> FindingFits(f)
    ensures DuplicateTargetMissing(f.id) in errors <==> f.disposition == NoopDuplicate && f.duplicateOf.None?
    ensures UnexpectedDuplicateTarget(f.id) in errors <==> f.disposition != NoopDuplicate && f.duplicateOf.Some?
  {
    (if RankInRange(f) then [] else [RankOutOfRange(f.id)])
    + (if StateFits(f) then [] else [StateContradictsDisposition(f.id)])
    + (if TargetFits(f) then []
       else if f.disposition == NoopDuplicate then [DuplicateTargetMissing(f.id)]
       else [UnexpectedDuplicateTarget(f.id)])
    + (if ScoresInRange(f.scores) then [] else [ScoreOutOfRange(f.id)])
  }

  predicate FindingFits(f: Finding) {
    RankInRange(f) && StateFits(f) && TargetFits(f) && ScoresInRange(f.scores)
  }

  /** The states a disposition goes with. */
  ghost predicate GoesWith(d: Disposition, state: FindingState) {
    match d
    case DraftPr => state in {Missing, Drifted, ExternallyBlocked}
    case AmendExisting => state in {Missing, Drifted, ExternallyBlocked}
    case NoopBlocked => state == ExternallyBlocked
    case _ => true
  }

  ghost predicate InHundred(s: Scores) {
    && 0 <= s.security <= 100 && 0 <= s.dataIntegrity <= 100 && 0 <= s.userImpact <= 100
    && 0 <= s.dependencyCentrality <= 100 && 0 <= s.operationalRisk <= 100
    && 0 <= s.effort <= 100 && 0 <= s.testEvidence <= 100
  }

  /** One finding fits exactly when its rank and scores are in range, its state goes with its disposition, and it
      names a target exactly as a duplicate. */
  lemma {:induction false} FindingFitsIff(f: Finding)
    ensures FindingFits(f) <==>
            && 1 <= f.rank <= 100_000 && InHundred(f.scores) && GoesWith(f.disposition, f.state)
            && (f.duplicateOf.Some? <==> f.disposition == NoopDuplicate)
  {
    assert f.state.Missing? || f.state.Drifted? || f.state.ExternallyBlocked? || f.state.Superseded?
           || f.state.IntentionallyExempt? || f.state.AlreadyRemediated?;
  }

  // ------------------------------------------------------------ accepted queues

  ghost predicate IdIn(fs: seq<Finding>, n: int, id: string)
    requires 0 <= n <= |fs|
  {
    exists i :: 0 <= i < n && fs[i].id == id
  }

  ghost predicate LinearIn(fs: seq<Finding>, n: int, anchor: string)
    requires 0 <= n <= |fs|
  {
    exists i :: 0 <= i < n && fs[i].linearAnchor == anchor
  }

  ghost predicate GithubIn(fs: seq<Finding>, n: int, anchor: string)
    requires 0 <= n <= |fs|
  {
    exists i :: 0 <= i < n && fs[i].githubAnchor == Some(anchor)
  }

  /** Finding `i` is well-formed, has an id of its own, and shares an anchor with an earlier finding only
      as a declared duplicate. */
  ghost predicate RecordFits(fs: seq<Finding>, i: int)
    requires 0 <= i < |fs|
  {
    && FindingFits(fs[i])
    && !IdIn(fs, i, fs[i].id)
    && (LinearIn(fs, i, fs[i].linearAnchor) ==> fs[i].disposition == NoopDuplicate)
    && (fs[i].githubAnchor.Some? && GithubIn(fs, i, fs[i].githubAnchor.value) ==> fs[i].disposition == NoopDuplicate)
  }

  ghost predicate RecordsFit(fs: seq<Finding>) {
    forall i :: 0 <= i < |fs| ==> RecordFits(fs, i)
  }

  function EntryOf(f: Finding): Ranking.Entry {
    Ranking.Entry(f.rank, KeyOf(f))
  }

  function Entries(fs: seq<Finding>): seq<Ranking.Entry> {
    seq(|fs|, i requires 0 <= i < |fs| => EntryOf(fs[i]))
  }

  /** `dependency` names a finding of smaller rank. */
  ghost predicate RanksEarlier(fs: seq<Finding>, rank: int, dependency: string) {
    exists j :: 0 <= j < |fs| && fs[j].id == dependency && fs[j].rank < rank
  }

  ghost predicate DependenciesRankEarlier(fs: seq<Finding>) {
    forall i, d :: 0 <= i < |fs| && d in fs[i].dependsOn ==> RanksEarlier(fs, fs[i].rank, d)
  }

  ghost predicate ResolvesInOneHop(fs: seq<Finding>, f: Finding) {
    exists j :: 0 <= j < |fs| && f.duplicateOf == Some(fs[j].id) && fs[j].disposition != NoopDuplicate
  }

  ghost predicate DuplicatesResolve(fs: seq<Finding>) {
    forall i :: 0 <= i < |fs| && fs[i].disposition == NoopDuplicate ==> ResolvesInOneHop(fs, fs[i])
  }

  /** What acceptance means. Cycles are not mentioned: the ranks rule them out. */
  ghost predicate Accepted(fs: seq<Finding>) {
    && 1 <= |fs| <= MAX_FINDINGS
    && RecordsFit(fs)
    && Ranking.WellRanked(Entries(fs))
    && DependenciesRankEarlier(fs)
    && DuplicatesResolve(fs)
  }

  // --------------------------------------------------------------- validation

  datatype Index = Index(
    ids: set<string>,
    order: seq<string>,
    graph: Cycles.Graph,
    rankById: map<string, int>,
    entries: seq<Ranking.Entry>,
    byId: map<string, Finding>,
    actionable: nat,
    blocked: nat,
    noop: nat)

  /** The index lists every finding under its id. */
  ghost predicate Indexes(index: Index, fs: seq<Finding>, n: int)
    requires 0 <= n <= |fs|
  {
    && (forall i :: 0 <= i < n ==>
          && fs[i].id in index.graph && index.graph[fs[i].id] == fs[i].dependsOn
          && fs[i].id in index.rankById && index.rankById[fs[i].id] == fs[i].rank
          && fs[i].id in index.byId && index.byId[fs[i].id] == fs[i])
    && (forall id :: id in index.ids ==> IdIn(fs, n, id))
    && index.entries == Entries(fs)[..n]
  }

  ghost predicate SameNames(index: Index) {
    && Sequences.Elements(index.order) == index.graph.Keys == index.byId.Keys == index.ids
    && index.rankById.Keys <= index.ids
  }

  function AddToIndex(index: Index, f: Finding): Index {
    Index(index.ids + {f.id},
          if f.id in index.graph then index.order else index.order + [f.id],
          index.graph[f.id := f.dependsOn],
          if RankInRange(f) then index.rankById[f.id := f.rank] else index.rankById,
          if RankInRange(f) && ScoresInRange(f.scores) then index.entries + [EntryOf(f)] else index.entries,
          index.byId[f.id := f],
          index.actionable + (if IsActionable(f) then 1 else 0),
          index.blocked + (if IsBlocked(f) then 1 else 0),
          index.noop + (if IsActionable(f) then 0 else 1))
  }

  lemma {:induction false} AddKeepsNames(index: Index, f: Finding)
    requires SameNames(index)
    ensures SameNames(AddToIndex(index, f))
  {
    var more := AddToIndex(index, f);
    forall id ensures id in Sequences.Elements(more.order) <==> id in Sequences.Elements(index.order) + {f.id} {
      assert id in more.order <==> id in index.order || id == f.id;
    }
  }

  lemma {:induction false} AddIndexesNext(index: Index, fs: seq<Finding>, i: int)
    requires 0 <= i < |fs| && Indexes(index, fs, i) && RecordFits(fs, i)
    ensures Indexes(AddToIndex(index, fs[i]), fs, i + 1)
  {
    var more := AddToIndex(index, fs[i]);
    forall j | 0 <= j < i ensures fs[j].id != fs[i].id {
    }
    forall id | id in more.ids ensures IdIn(fs, i + 1, id) {
      if id in index.ids {
        var j :| 0 <= j < i && fs[j].id == id;
      } else {
        assert fs[i].id == id;
      }
    }
    assert Entries(fs)[..i + 1] == Entries(fs)[..i] + [EntryOf(fs[i])];
  }

  type Anchors = map<string, string>

  /** The first finding with an anchor keeps it. */
  function Track(anchors: Anchors, anchor: Option<string>, id: string): Anchors {
    match anchor
    case Some(a) => if a in anchors then anchors else anchors[a := id]
    case None => anchors
  }

  predicate Shares(anchors: Anchors, anchor: Option<string>, f: Finding) {
    anchor.Some? && anchor.value in anchors && f.disposition != NoopDuplicate
  }

  function RecordErrors(index: Index, linear: Anchors, github: Anchors, f: Finding): seq<QueueError> {
    (if f.id in index.ids then [DuplicateId(f.id)] else [])
    + FindingErrors(f)
    + (if RankInRange(f) && Shares(linear, Some(f.linearAnchor), f) then [SharedLinearAnchor(f.id)] else [])
    + (if RankInRange(f) && Shares(github, f.githubAnchor, f) then [SharedGithubAnchor(f.id)] else [])
  }

  ghost predicate Tracks(index: Index, linear: Anchors, github: Anchors, fs: seq<Finding>, n: int)
    requires 0 <= n <= |fs|
  {
    && Indexes(index, fs, n)
    && (forall anchor :: anchor in linear <==> LinearIn(fs, n, anchor))
    && (forall anchor :: anchor in github <==> GithubIn(fs, n, anchor))
  }

  lemma {:induction false} RecordErrorsAreExact(index: Index, linear: Anchors, github: Anchors, fs: seq<Finding>,
                                                i: int)
    requires 0 <= i < |fs| && Tracks(index, linear, github, fs, i) && SameNames(index)
    ensures RecordErrors(index, linear, github, fs[i]) == [] <==> RecordFits(fs, i)
  {
    hide FindingFits, FindingErrors, SameNames;
    assert SameNames(index) ==> forall id :: id in index.graph <==> id in index.ids by { NamesAgree(index); }
    assert fs[i].id in index.ids <==> IdIn(fs, i, fs[i].id);
    assert FindingFits(fs[i]) ==> RankInRange(fs[i]) by { FitsHasRank(fs[i]); }
  }

  lemma {:induction false} FitsHasRank(f: Finding)
    ensures FindingFits(f) ==> RankInRange(f) && ScoresInRange(f.scores)
  {
  }

  lemma {:induction false} NamesAgree(index: Index)
    ensures SameNames(index) ==> forall id :: id in index.graph <==> id in index.ids
  {
  }

  lemma {:induction false} LinearInMore(fs: seq<Finding>, i: int, anchor: string)
    requires 0 <= i < |fs|
    ensures LinearIn(fs, i + 1, anchor) <==> LinearIn(fs, i, anchor) || fs[i].linearAnchor == anchor
  {
  }

  lemma {:induction false} GithubInMore(fs: seq<Finding>, i: int, anchor: string)
    requires 0 <= i < |fs|
    ensures GithubIn(fs, i + 1, anchor) <==> GithubIn(fs, i, anchor) || fs[i].githubAnchor == Some(anchor)
  {
  }

  lemma {:induction false} TracksMore(index: Index, linear: Anchors, github: Anchors, fs: seq<Finding>, i: int)
    requires 0 <= i < |fs| && Tracks(index, linear, github, fs, i) && RecordFits(fs, i)
    ensures Tracks(AddToIndex(index, fs[i]), Track(linear, Some(fs[i].linearAnchor), fs[i].id),
                   Track(github, fs[i].githubAnchor, fs[i].id), fs, i + 1)
  {
    hide LinearIn, GithubIn, RecordFits, Indexes, AddToIndex;
    AddIndexesNext(index, fs, i);
    forall anchor
      ensures anchor in Track(linear, Some(fs[i].linearAnchor), fs[i].id) <==> LinearIn(fs, i + 1, anchor)
    {
      LinearInMore(fs, i, anchor);
    }
    forall anchor
      ensures anchor in Track(github, fs[i].githubAnchor, fs[i].id) <==> GithubIn(fs, i + 1, anchor)
    {
      GithubInMore(fs, i, anchor);
    }
  }

  const EMPTY_INDEX := Index({}, [], map[], map[], [], map[], 0, 0, 0)

  lemma {:induction false} StartOfIndex(fs: seq<Finding>)
    ensures SameNames(EMPTY_INDEX) && Tracks(EMPTY_INDEX, map[], map[], fs, 0)
  {
    assert Sequences.Elements(EMPTY_INDEX.order) == {};
  }

  lemma {:induction false} TracksIndexes(index: Index, linear: Anchors, github: Anchors, fs: seq<Finding>, n: int)
    requires 0 <= n <= |fs| && Tracks(index, linear, github, fs, n)
    ensures Indexes(index, fs, n)
  {
  }

  /** The counts of the first `n` findings. */
  ghost predicate Counts(index: Index, fs: seq<Finding>, n: int)
    requires 0 <= n <= |fs|
  {
    && index.actionable == Sequences.Count(fs[..n], IsActionable)
    && index.blocked == Sequences.Count(fs[..n], IsBlocked)
    && index.actionable + index.noop == n
  }

  lemma {:induction false} AddCounts(index: Index, fs: seq<Finding>, i: nat)
    requires i < |fs| && Counts(index, fs, i)
    ensures Counts(AddToIndex(index, fs[i]), fs, i + 1)
  {
    Sequences.CountNext(fs, i, IsActionable);
    Sequences.CountNext(fs, i, IsBlocked);
  }

  lemma {:induction false} FitHasRank(fs: seq<Finding>, i: int)
    requires 0 <= i < |fs| && RecordFits(fs, i)
    ensures RankInRange(fs[i])
  {
  }

  /** The first pass over the findings. */
  method CheckRecords(fs: seq<Finding>) returns (errors: seq<QueueError>, index: Index)
    ensures errors == [] <==> RecordsFit(fs)
    ensures SameNames(index)
    ensures errors == [] ==> Indexes(index, fs, |fs|)
    ensures Counts(index, fs, |fs|)
  {
    hide SameNames, Tracks, RecordFits, RecordErrors, Track, AddToIndex, Indexes;
    errors := [];
    index := EMPTY_INDEX;
    assert Counts(index, fs, 0);
    hide Counts;
    StartOfIndex(fs);
    var linear: Anchors, github: Anchors := map[], map[];
    for i := 0 to |fs|
      invariant errors == [] <==> forall k :: 0 <= k < i ==> RecordFits(fs, k)
      invariant SameNames(index)
      invariant errors == [] ==> Tracks(index, linear, github, fs, i)
      invariant Counts(index, fs, i)
    {
      var f := fs[i];
      if errors == [] {
        RecordErrorsAreExact(index, linear, github, fs, i);
        if RecordFits(fs, i) {
          FitHasRank(fs, i);
          TracksMore(index, linear, github, fs, i);
        }
      }
      AddKeepsNames(index, f);
      AddCounts(index, fs, i);
      errors := errors + RecordErrors(index, linear, github, f);
      if RankInRange(f) {
        linear := Track(linear, Some(f.linearAnchor), f.id);
        github := Track(github, f.githubAnchor, f.id);
      }
      index := AddToIndex(index, f);
    }
    if errors == [] {
      TracksIndexes(index, linear, github, fs, |fs|);
    }
  }

  function DependencyErrors(index: Index, id: string, dependency: string): seq<QueueError> {
    if dependency == id then [DependsOnItself(id)]
    else if dependency !in index.ids then [DependsOnUnknown(id, dependency)]
    else if
      id in index.rankById && dependency in index.rankById && index.rankById[dependency] >= index.rankById[id]
    then
      [DependencyMustRankEarlier(id, dependency)]
    else []
  }

  ghost predicate DependenciesFit(index: Index, id: string)
    requires id in index.graph
  {
    forall k :: 0 <= k < |index.graph[id]| ==> DependencyErrors(index, id, index.graph[id][k]) == []
  }

  method CheckDependencies(index: Index) returns (errors: seq<QueueError>)
    requires SameNames(index)
    ensures errors == [] <==> forall id :: id in index.graph ==> DependenciesFit(index, id)
  {
    errors := [];
    for i := 0 to |index.order|
      invariant errors == [] <==>
                forall k :: 0 <= k < i ==> index.order[k] in index.graph && DependenciesFit(index, index.order[k])
    {
      hide DependencyErrors;
      var id := index.order[i];
      assert id in Sequences.Elements(index.order);
      var dependencies := index.graph[id];
      var found := [];
      for j := 0 to |dependencies|
        invariant found == [] <==> forall k :: 0 <= k < j ==> DependencyErrors(index, id, dependencies[k]) == []
      {
        found := found + DependencyErrors(index, id, dependencies[j]);
      }
      assert found == [] <==> DependenciesFit(index, id);
      errors := errors + found;
    }
    forall id | errors == [] && id in index.graph ensures DependenciesFit(index, id) {
      assert id in Sequences.Elements(index.order);
      var k :| 0 <= k < |index.order| && index.order[k] == id;
    }
    assert forall k :: 0 <= k < |index.order| ==> index.order[k] in Sequences.Elements(index.order);
  }

  function DuplicateErrors(byId: map<string, Finding>, f: Finding): seq<QueueError> {
    if f.disposition != NoopDuplicate then []
    else if f.duplicateOf.None? || f.duplicateOf.value !in byId then [UnknownDuplicateTarget(f.id)]
    else if byId[f.duplicateOf.value].disposition == NoopDuplicate then [DuplicateOfDuplicate(f.id)]
    else []
  }

  method CheckDuplicates(index: Index) returns (errors: seq<QueueError>)
    requires SameNames(index)
    ensures errors == [] <==> forall id :: id in index.byId ==> DuplicateErrors(index.byId, index.byId[id]) == []
  {
    errors := [];
    for i := 0 to |index.order|
      invariant errors == [] <==>
                forall k :: 0 <= k < i ==>
                  index.order[k] in index.byId && DuplicateErrors(index.byId, index.byId[index.order[k]]) == []
    {
      hide DuplicateErrors;
      assert index.order[i] in Sequences.Elements(index.order);
      errors := errors + DuplicateErrors(index.byId, index.byId[index.order[i]]);
    }
    forall id | errors == [] && id in index.byId ensures DuplicateErrors(index.byId, index.byId[id]) == [] {
      assert id in Sequences.Elements(index.order);
      var k :| 0 <= k < |index.order| && index.order[k] == id;
    }
    assert forall k :: 0 <= k < |index.order| ==> index.order[k] in Sequences.Elements(index.order);
  }

  // ------------------------------------------------- what the index checks mean

  lemma {:induction false} RecordsHaveDistinctIds(fs: seq<Finding>, i: int, j: int)
    requires RecordsFit(fs) && 0 <= i < j < |fs|
    ensures fs[i].id != fs[j].id
  {
    assert RecordFits(fs, j);
  }

  lemma {:induction false} DependenciesMean(index: Index, fs: seq<Finding>)
    requires RecordsFit(fs) && Indexes(index, fs, |fs|) && SameNames(index)
    ensures (forall id :: id in index.graph ==> DependenciesFit(index, id)) <==> DependenciesRankEarlier(fs)
  {
    hide RecordFits;
    if forall id :: id in index.graph ==> DependenciesFit(index, id) {
      forall i, d | 0 <= i < |fs| && d in fs[i].dependsOn ensures RanksEarlier(fs, fs[i].rank, d) {
        assert DependenciesFit(index, fs[i].id);
        var k :| 0 <= k < |fs[i].dependsOn| && fs[i].dependsOn[k] == d;
        assert DependencyErrors(index, fs[i].id, d) == [];
        assert IdIn(fs, |fs|, d);
        var j :| 0 <= j < |fs| && fs[j].id == d;
      }
    }
    if DependenciesRankEarlier(fs) {
      forall id | id in index.graph ensures DependenciesFit(index, id) {
        assert IdIn(fs, |fs|, id);
        var i :| 0 <= i < |fs| && fs[i].id == id;
        forall k | 0 <= k < |index.graph[id]| ensures DependencyErrors(index, id, index.graph[id][k]) == [] {
          assert RanksEarlier(fs, fs[i].rank, fs[i].dependsOn[k]);
          var j :| 0 <= j < |fs| && fs[j].id == fs[i].dependsOn[k] && fs[j].rank < fs[i].rank;
        }
      }
    }
  }

  lemma {:induction false} DuplicatesMean(index: Index, fs: seq<Finding>)
    requires RecordsFit(fs) && Indexes(index, fs, |fs|) && SameNames(index)
    ensures (forall id :: id in index.byId ==> DuplicateErrors(index.byId, index.byId[id]) == [])
            <==> DuplicatesResolve(fs)
  {
    hide RecordFits;
    if forall id :: id in index.byId ==> DuplicateErrors(index.byId, index.byId[id]) == [] {
      forall i | 0 <= i < |fs| && fs[i].disposition == NoopDuplicate ensures ResolvesInOneHop(fs, fs[i]) {
        assert DuplicateErrors(index.byId, index.byId[fs[i].id]) == [];
        assert IdIn(fs, |fs|, fs[i].duplicateOf.value);
        var j :| 0 <= j < |fs| && fs[j].id == fs[i].duplicateOf.value;
      }
    }
    if DuplicatesResolve(fs) {
      forall id | id in index.byId ensures DuplicateErrors(index.byId, index.byId[id]) == [] {
        assert IdIn(fs, |fs|, id);
        var i :| 0 <= i < |fs| && fs[i].id == id;
        if fs[i].disposition == NoopDuplicate {
          assert ResolvesInOneHop(fs, fs[i]);
          var j :| 0 <= j < |fs| && fs[i].duplicateOf == Some(fs[j].id) && fs[j].disposition != NoopDuplicate;
        }
      }
    }
  }

  lemma {:induction false} EntriesHaveDistinctKeys(fs: seq<Finding>)
    requires RecordsFit(fs)
    ensures Sorting.DistinctKeys(Ranking.KeyOf, Entries(fs))
  {
    hide RecordFits;
    forall i, j | 0 <= i < j < |fs| ensures Entries(fs)[i].key != Entries(fs)[j].key {
      RecordsHaveDistinctIds(fs, i, j);
      assert KeyOf(fs[i])[3] == Sorting.Name(fs[i].id) && KeyOf(fs[j])[3] == Sorting.Name(fs[j].id);
    }
  }

  function RankOr(ranks: map<string, int>, id: string): int {
    if id in ranks then ranks[id] else 0
  }

  /** Ranks that fit leave no room for a dependency cycle. */
  lemma {:induction false} FittingRanksAreAcyclic(index: Index, fs: seq<Finding>)
    requires RecordsFit(fs) && Indexes(index, fs, |fs|) && SameNames(index)
    requires forall id :: id in index.graph ==> DependenciesFit(index, id)
    ensures Cycles.Acyclic(index.graph)
  {
    hide RecordFits;
    var rank := (id: string) => RankOr(index.rankById, id);
    forall from, to | Cycles.Edge(index.graph, from, to) ensures rank(to) < rank(from) {
      assert DependenciesFit(index, from);
      var k :| 0 <= k < |index.graph[from]| && index.graph[from][k] == to;
      assert DependencyErrors(index, from, to) == [];
      assert IdIn(fs, |fs|, from) && IdIn(fs, |fs|, to);
    }
    Cycles.RankedIsAcyclic(index.graph, rank);
  }

  function Dispositions(fs: seq<Finding>): seq<Disposition> {
    seq(|fs|, i requires 0 <= i < |fs| => fs[i].disposition)
  }

  lemma {:induction false} DispositionsCount(fs: seq<Finding>)
    ensures var counts := multiset(Dispositions(fs));
            && Sequences.Count(fs, IsActionable) == counts[DraftPr] + counts[AmendExisting]
            && Sequences.Count(fs, IsBlocked) == counts[NoopBlocked]
  {
    if fs == [] {
      assert Dispositions(fs) == [];
    } else {
      DispositionsCount(fs[1..]);
      assert Dispositions(fs) == [fs[0].disposition] + Dispositions(fs[1..]);
    }
  }

  datatype Report = Report(valid: bool, findingCount: nat, actionable: nat, blocked: nat, noop: nat,
                           errors: seq<QueueError>)

  /** Validation accepts exactly the queues that `Accepted` describes; in particular the cycle
      detector never rejects a queue that passes the other checks. */
  method Validate(declared: seq<Finding>) returns (report: Report)
    ensures report.valid <==> Accepted(declared)
    ensures report.valid <==> report.errors == []
    ensures report.valid ==>
              && report.findingCount == |declared| == report.actionable + report.noop
              && var counts := multiset(Dispositions(declared));
                 report.actionable == counts[DraftPr] + counts[AmendExisting] && report.blocked == counts[NoopBlocked]
  {
    hide RecordsFit, Indexes, DependenciesFit, DuplicateErrors, DependenciesRankEarlier, DuplicatesResolve,
      Ranking.WellRanked, Sorting.DistinctKeys, Cycles.Acyclic, SameNames;
    var errors := [];
    var findings := declared;
    if |findings| < 1 || |findings| > MAX_FINDINGS {
      errors := [WrongNumberOfFindings];
      findings := [];
    }
    var recordErrors, index := CheckRecords(findings);
    assert findings[..|findings|] == findings;
    var rankErrors := Ranking.CheckRanks(index.entries, |findings|);
    var dependencyErrors := CheckDependencies(index);
    assert Sequences.Elements(index.order) == index.graph.Keys by { NamesAreKeys(index); }
    var cycles := Cycles.FindCycles(index.graph, index.order);
    var duplicateErrors := CheckDuplicates(index);
    if recordErrors == [] {
      WholeIndex(index, findings);
      EntriesHaveDistinctKeys(findings);
      DependenciesMean(index, findings);
      DuplicatesMean(index, findings);
      if dependencyErrors == [] {
        FittingRanksAreAcyclic(index, findings);
      }
    }
    errors := errors + recordErrors + AsQueueErrors(rankErrors) + dependencyErrors;
    errors := errors + CycleErrors(cycles) + duplicateErrors;
    DispositionsCount(findings);
    report := Report(errors == [], |findings|, index.actionable, index.blocked, index.noop, errors);
  }

  function AsQueueErrors(errors: seq<Ranking.RankError>): (all: seq<QueueError>)
    ensures |all| == |errors|
  {
    seq(|errors|, i requires 0 <= i < |errors| => BadRanks(errors[i]))
  }

  function CycleErrors(cycles: seq<seq<string>>): (all: seq<QueueError>)
    ensures |all| == |cycles|
  {
    seq(|cycles|, i requires 0 <= i < |cycles| => DependencyCycle(cycles[i]))
  }

  lemma {:induction false} NamesAreKeys(index: Index)
    requires SameNames(index)
    ensures Sequences.Elements(index.order) == index.graph.Keys
  {
  }

  lemma {:induction false} WholeIndex(index: Index, fs: seq<Finding>)
    requires Indexes(index, fs, |fs|)
    ensures index.entries == Entries(fs)
  {
    assert Entries(fs)[..|fs|] == Entries(fs);
  }

  // --------------------------------------------- what follows for accepted queues

  /** The findings determine their ranks: two accepted queues that differ at most in ranks are equal. */
  lemma {:induction false} AcceptedRankingIsUnique(fs: seq<Finding>, gs: seq<Finding>)
    requires Accepted(fs) && Accepted(gs)
    requires |fs| == |gs| && forall i :: 0 <= i < |fs| ==> fs[i] == gs[i].(rank := fs[i].rank)
    ensures fs == gs
  {
    hide RecordsFit, DependenciesRankEarlier, DuplicatesResolve, Ranking.WellRanked;
    Ranking.RankingIsUnique(Entries(fs), Entries(gs));
    forall i | 0 <= i < |fs| ensures fs[i] == gs[i] {
      assert Entries(fs)[i] == Entries(gs)[i];
    }
  }

  ghost predicate RankTaken(fs: seq<Finding>, rank: int) {
    exists i :: 0 <= i < |fs| && fs[i].rank == rank
  }

  /** Accepted ranks are 1..n, each taken once. */
  lemma {:induction false} AcceptedRanksArePermutation(fs: seq<Finding>)
    requires Accepted(fs)
    ensures forall i :: 0 <= i < |fs| ==> 1 <= fs[i].rank <= |fs|
    ensures forall i, j :: 0 <= i < j < |fs| ==> fs[i].rank != fs[j].rank
    ensures forall rank :: 1 <= rank <= |fs| ==> RankTaken(fs, rank)
  {
    hide RecordsFit, DependenciesRankEarlier, DuplicatesResolve, Ranking.WellRanked;
    EntriesHaveDistinctKeys(fs);
    Ranking.RanksArePermutation(Entries(fs));
    forall i | 0 <= i < |fs| ensures 1 <= fs[i].rank <= |fs| {
      assert Entries(fs)[i].rank == fs[i].rank;
    }
    forall i, j | 0 <= i < j < |fs| ensures fs[i].rank != fs[j].rank {
      assert Entries(fs)[i].rank != Entries(fs)[j].rank;
    }
    forall rank | 1 <= rank <= |fs| ensures RankTaken(fs, rank) {
      assert rank in Ranking.Ranks(Entries(fs));
      var i :| 0 <= i < |fs| && Ranking.Ranks(Entries(fs))[i] == rank;
      assert fs[i].rank == rank;
    }
  }

  ghost predicate MoreActionable(d: Disposition, e: Disposition) {
    match d
    case NoopBlocked => e in {NoopCompleted, NoopExempt, NoopDuplicate}
    case DraftPr => e !in {DraftPr, AmendExisting}
    case AmendExisting => e !in {DraftPr, AmendExisting}
    case _ => false
  }

  ghost predicate MoreSevere(s: Severity, t: Severity) {
    match s
    case Critical => t != Critical
    case High => t in {Medium, Low}
    case Medium => t == Low
    case Low => false
  }

  /** What comes first: actionable findings, then blocked ones, then those with nothing to do; among these the
      more severe, then the higher composite score, then the smaller id. */
  ghost predicate MoreUrgent(f: Finding, g: Finding) {
    || MoreActionable(f.disposition, g.disposition)
    || (!MoreActionable(g.disposition, f.disposition)
        && (|| MoreSevere(f.severity, g.severity)
            || (f.severity == g.severity
                && (|| Composite(f.scores) > Composite(g.scores)
                    || (Composite(f.scores) == Composite(g.scores)
                        && Sorting.PartLess(Sorting.Name(f.id), Sorting.Name(g.id)))))))
  }

  lemma {:induction false} TiersFollowActions(d: Disposition, e: Disposition)
    ensures Tier(d) < Tier(e) <==> MoreActionable(d, e)
  {
  }

  lemma {:induction false} KeyIsUrgency(f: Finding, g: Finding)
    ensures Sorting.Before(KeyOf(f), KeyOf(g)) <==> MoreUrgent(f, g)
  {
    hide Sorting.Before, Composite;
    var a, b := KeyOf(f), KeyOf(g);
    Sorting.BeforeSplits(a, b);
    Sorting.BeforeSplits(a[1..], b[1..]);
    Sorting.BeforeOfPairs(a[2..], b[2..]);
    assert a[1..][1..] == a[2..] && b[1..][1..] == b[2..];
    assert Weight(f.severity) > Weight(g.severity) <==> MoreSevere(f.severity, g.severity);
    TiersFollowActions(f.disposition, g.disposition);
    TiersFollowActions(g.disposition, f.disposition);
  }

  /** Accepted ranks are the order of urgency. */
  lemma {:induction false} RanksFollowUrgency(fs: seq<Finding>, i: nat, j: nat)
    requires Accepted(fs) && i < |fs| && j < |fs|
    ensures fs[i].rank < fs[j].rank <==> MoreUrgent(fs[i], fs[j])
  {
    hide RecordsFit, Ranking.WellRanked, DuplicatesResolve, DependenciesRankEarlier, MoreUrgent, KeyOf;
    Ranking.RankFollowsKey(Entries(fs), i, j);
    assert Entries(fs)[i] == EntryOf(fs[i]) && Entries(fs)[j] == EntryOf(fs[j]);
    KeyIsUrgency(fs[i], fs[j]);
  }

  /** As good in every respect; less effort is better. */
  ghost predicate AtLeastAsGood(s: Scores, t: Scores) {
    && s.security >= t.security && s.dataIntegrity >= t.dataIntegrity && s.userImpact >= t.userImpact
    && s.dependencyCentrality >= t.dependencyCentrality && s.operationalRisk >= t.operationalRisk
    && s.effort <= t.effort && s.testEvidence >= t.testEvidence
  }

  /** Of two findings that are equally actionable and severe, one with no worse score and some better one, be
      it only less effort, ranks earlier in every accepted queue. */
  lemma {:induction false} BetterScoresRankEarlier(fs: seq<Finding>, i: nat, j: nat)
    requires Accepted(fs) && i < |fs| && j < |fs|
    requires fs[i].disposition == fs[j].disposition && fs[i].severity == fs[j].severity
    requires AtLeastAsGood(fs[i].scores, fs[j].scores) && fs[i].scores != fs[j].scores
    ensures fs[i].rank < fs[j].rank
  {
    RanksFollowUrgency(fs, i, j);
  }

  /** What the scores weigh against each other: a point of effort or test evidence is the smallest unit; risk,
      centrality and user impact weigh three of them, data integrity four and security five. Scores in range
      give a composite from 0 to 10000, which only the best scores reach. */
  lemma {:induction false} ScoresTrade(s: Scores, n: int)
    ensures Composite(s.(testEvidence := s.testEvidence + n)) == Composite(s.(effort := s.effort - n))
    ensures Composite(s.(operationalRisk := s.operationalRisk + n)) == Composite(s.(effort := s.effort - 3 * n))
    ensures Composite(s.(dependencyCentrality := s.dependencyCentrality + n))
            == Composite(s.(effort := s.effort - 3 * n))
    ensures Composite(s.(userImpact := s.userImpact + n)) == Composite(s.(effort := s.effort - 3 * n))
    ensures Composite(s.(dataIntegrity := s.dataIntegrity + n)) == Composite(s.(effort := s.effort - 4 * n))
    ensures Composite(s.(security := s.security + n)) == Composite(s.(effort := s.effort - 5 * n))
    ensures ScoresInRange(s) ==> 0 <= Composite(s) <= 10_000
    ensures ScoresInRange(s) ==> (Composite(s) == 10_000 <==> s == Scores(100, 100, 100, 100, 100, 0, 100))
  {
  }

  /** A chain of dependencies, by position: each finding depends on the next. */
  ghost predicate IsChain(fs: seq<Finding>, chain: seq<nat>) {
    && (forall k :: 0 <= k < |chain| ==> chain[k] < |fs|)
    && forall k :: 0 <= k < |chain| - 1 ==> fs[chain[k + 1]].id in fs[chain[k]].dependsOn
  }

  lemma {:induction false} DependencyRanksEarlier(fs: seq<Finding>, i: nat, j: nat)
    requires Accepted(fs) && i < |fs| && j < |fs| && fs[j].id in fs[i].dependsOn
    ensures fs[j].rank < fs[i].rank && Tier(fs[j].disposition) <= Tier(fs[i].disposition)
  {
    hide RecordFits, Ranking.WellRanked, DuplicatesResolve, Tier, KeyOf;
    assert RanksEarlier(fs, fs[i].rank, fs[j].id);
    var k :| 0 <= k < |fs| && fs[k].id == fs[j].id && fs[k].rank < fs[i].rank;
    if k < j {
      RecordsHaveDistinctIds(fs, k, j);
    } else if j < k {
      RecordsHaveDistinctIds(fs, j, k);
    }
    RanksFollowUrgency(fs, j, i);
    TiersFollowActions(fs[j].disposition, fs[i].disposition);
    TiersFollowActions(fs[i].disposition, fs[j].disposition);
  }

  /** Along every chain of dependencies ranks fall and dispositions never become less actionable. So no
      actionable finding depends, through any number of steps, on a no-op finding. */
  lemma {:induction false} ChainsStayActionable(fs: seq<Finding>, chain: seq<nat>)
    requires Accepted(fs) && IsChain(fs, chain) && |chain| >= 2
    ensures fs[chain[|chain| - 1]].rank < fs[chain[0]].rank
    ensures Tier(fs[chain[|chain| - 1]].disposition) <= Tier(fs[chain[0]].disposition)
    ensures IsActionable(fs[chain[0]]) ==> IsActionable(fs[chain[|chain| - 1]])
  {
    hide Accepted;
    DependencyRanksEarlier(fs, chain[0], chain[1]);
    if |chain| > 2 {
      var rest := chain[1..];
      forall k | 0 <= k < |rest| - 1 ensures fs[rest[k + 1]].id in fs[rest[k]].dependsOn {
        assert fs[chain[k + 2]].id in fs[chain[k + 1]].dependsOn;
      }
      ChainsStayActionable(fs, rest);
    }
  }

  /** Every duplicate names one finding, and that one is no duplicate. */
  lemma {:induction false} DuplicateResolvesToOne(fs: seq<Finding>, i: nat)
    requires Accepted(fs) && i < |fs| && fs[i].disposition == NoopDuplicate
    ensures exists j :: 0 <= j < |fs| && fs[i].duplicateOf == Some(fs[j].id) && fs[j].disposition != NoopDuplicate
    ensures forall j :: 0 <= j < |fs| && fs[i].duplicateOf == Some(fs[j].id) ==> fs[j].disposition != NoopDuplicate
  {
    hide RecordFits, Ranking.WellRanked, DependenciesRankEarlier;
    assert ResolvesInOneHop(fs, fs[i]);
    var j :| 0 <= j < |fs| && fs[i].duplicateOf == Some(fs[j].id) && fs[j].disposition != NoopDuplicate;
    forall k | 0 <= k < |fs| && fs[i].duplicateOf == Some(fs[k].id) ensures k == j {
      if k < j {
        RecordsHaveDistinctIds(fs, k, j);
      } else if j < k {
        RecordsHaveDistinctIds(fs, j, k);
      }
    }
  }

  /** Of the findings that share an anchor at most one, the first, is not a duplicate. */
  lemma {:induction false} AnchorsAreShared(fs: seq<Finding>, i: nat, j: nat)
    requires Accepted(fs) && i < j < |fs|
    requires || fs[i].linearAnchor == fs[j].linearAnchor
             || (fs[i].githubAnchor.Some? && fs[i].githubAnchor == fs[j].githubAnchor)
    ensures fs[j].disposition == NoopDuplicate
  {
    assert RecordFits(fs, j);
  }
}
